/** What every interleaving keeps: lock discipline, the pool's bookkeeping, exclusive
    ownership of Composers and isolation of calls.

    The invariant is stated thread by thread, so that a step is checked three times: for the
    thread that takes it, for any other thread, and for the shared state. */
module PoolSafety {
  import opened Wrappers
  import opened PoolModel
  import opened Collections

  predicate Reads(at: Point) {
    at.Checking? || at.LeavingLow? || at.LeavingHigh?
  }

  predicate Writes(at: Point) {
    at.Rechecking? || at.Creating? || at.Counting? || at.RecvLocked? || at.Unlocking?
  }

  predicate LocksVM(at: Point) {
    at.InVM? || at.StubSet? || at.ContextSet? || at.InScript?
  }

  /** Points at which the goroutine has a Composer in its hands. */
  predicate Holds(at: Point) {
    at.Counting? || at.Unlocking? || at.Got? || LocksVM(at) || at.Awaiting? || at.Replied?
  }

  /** Points reached only once PoolCount has been seen at PoolMax. */
  predicate SawFull(at: Point) {
    at.LeavingHigh? || at.Recv? || at.RecvLocked?
  }

  /** Points reached only while the write lock protects an observed PoolCount < PoolMax. */
  predicate HasRoom(at: Point) {
    at.Creating? || at.Counting?
  }

  /** The locks are held by `g` exactly where its code says so, and what it learned about
      PoolCount is still true. */
  predicate LocksAgree(s: State, g: Goroutine, at: Point) {
    && (g in s.readers <==> Reads(at))
    && (s.writer == Some(g) <==> Writes(at))
    && (s.announced == Some(g) <==> at.Announced?)
    && (SawFull(at) ==> s.count == s.max)
    && (HasRoom(at) ==> s.count < s.max)
  }

  /** What `g` holds exists, is not queued, and carries g's VM lock, stub and context from
      the moment they are set. */
  predicate HandAgrees(s: State, g: Goroutine, th: Thread) {
    && (Holds(th.at) <==> th.hand.Some?)
    && (th.hand.Some? ==>
          && th.hand.value in s.heap
          && th.hand.value !in s.pool
          && Dedicated(th.at, s.heap[th.hand.value], g))
  }

  predicate Dedicated(at: Point, composer: Composer, g: Goroutine) {
    && composer.vm == (if LocksVM(at) then Some(g) else None)
    && (at.StubSet? || at.ContextSet? || at.InScript? || at.Awaiting? || at.Replied? ==> composer.stub == Some(g))
    && (at.ContextSet? || at.InScript? || at.Awaiting? || at.Replied? ==> composer.context == Some(g))
  }

  /** The JavaScript call of `g`: its script got g's context, and its channel holds its one
      report from the moment it is made until `g` receives it. */
  predicate Conversing(th: Thread, g: Goroutine) {
    match th.at
    case InScript => Reporting(th, g)
    case Awaiting => Reporting(th, g)
    case Replied => Answered(th, g)
    case Done => Answered(th, g)
    case _ => th.(at := Start, hand := None) == NEW_THREAD
  }

  predicate Reporting(th: Thread, g: Goroutine) {
    && th.seen == Some(g) && th.reply.None?
    && match th.script
       case Idle => false
       case Running => th.channel == [] && th.reported.None?
       case Finished => th.reported.Some? && th.channel == [th.reported.value]
  }

  predicate Answered(th: Thread, g: Goroutine) {
    th.seen == Some(g) && th.script.Finished? && th.channel == [] && th.reported.Some? && th.reply == th.reported
  }

  predicate ThreadOk(s: State, g: Goroutine)
    requires g in s.threads
  {
    LocksAgree(s, g, s.threads[g].at) && HandAgrees(s, g, s.threads[g]) && Conversing(s.threads[g], g)
  }

  predicate Apart(s: State, g: Goroutine, h: Goroutine)
    requires g in s.threads && h in s.threads
  {
    g != h && s.threads[g].hand.Some? ==> s.threads[g].hand != s.threads[h].hand
  }

  /** One Composer has been created but not counted yet. */
  predicate Uncounted(s: State) {
    s.writer.Some? && s.writer.value in s.threads && s.threads[s.writer.value].at.Counting?
  }

  ghost predicate SharedOk(s: State) {
    && s.readers <= s.threads.Keys
    && (s.writer.Some? ==> s.writer.value in s.threads && s.announced.None? && s.readers == {})
    && (s.announced.Some? ==> s.announced.value in s.threads)
    && s.count <= s.max
    && |s.heap| == s.count + (if Uncounted(s) then 1 else 0)
  }

  /** The channel holds distinct, idle Composers. */
  ghost predicate PoolOk(s: State) {
    && (forall i, j :: 0 <= i < j < |s.pool| ==> s.pool[i] != s.pool[j])
    && (forall c <- s.pool :: c in s.heap && s.heap[c].vm.None?)
  }

  ghost predicate Placed(s: State, c: ComposerId) {
    c in s.pool || exists g :: g in s.threads && s.threads[g].hand == Some(c)
  }

  /** The Index fields are 0, 1, 2, ... in order of creation. */
  ghost predicate IndexOk(s: State) {
    && (forall c <- s.heap :: s.heap[c].index < |s.heap|)
    && (forall c <- s.heap, d <- s.heap :: c != d ==> s.heap[c].index != s.heap[d].index)
  }

  ghost predicate HeapOk(s: State) {
    forall c <- s.heap :: c < s.next
  }

  ghost predicate Invariant(s: State) {
    && SharedOk(s) && PoolOk(s) && HeapOk(s) && IndexOk(s)
    && (forall g {:trigger ThreadOk(s, g)} :: g in s.threads ==> ThreadOk(s, g))
    && (forall g, h {:trigger Apart(s, g, h)} :: g in s.threads && h in s.threads ==> Apart(s, g, h))
    && (forall c {:trigger Placed(s, c)} :: c in s.heap ==> Placed(s, c))
  }

  lemma InitialInvariant(max: nat)
    ensures Invariant(Initial(max))
  {
  }

  /** The step is one of Get's, before the goroutine has a Composer. */
  predicate Taking(s: State, a: Action) {
    a.Run? && a.g in s.threads && s.threads[a.g].hand.None?
  }

  // ----- The thread that takes the step -----

  lemma ActorLocksTaking(s: State, a: Action, t: State)
    requires Taking(s, a)
    requires Next(s, a) == Some(t) && a.g in s.threads && SharedOk(s)
    requires LocksAgree(s, a.g, s.threads[a.g].at) && (Holds(s.threads[a.g].at) <==> s.threads[a.g].hand.Some?)
    ensures a.g in t.threads && LocksAgree(t, a.g, t.threads[a.g].at)
  {
  }

  /** Where a goroutine with a Composer goes next, and what that does to count and lock. */
  lemma WorkingMoves(s: State, g: Goroutine, th: Thread, c: ComposerId, t: State)
    requires c in s.heap && RunHolding(s, g, th, c) == Some(t)
    ensures t.readers == s.readers && t.announced == s.announced && t.max == s.max
    ensures t.count == (if th.at.Counting? then s.count + 1 else s.count)
    ensures t.writer == (if th.at.Unlocking? then None else s.writer)
    ensures th.at.Counting? <==> t.threads[g].at.Unlocking?
    ensures !th.at.Counting? ==> !Reads(t.threads[g].at) && !Writes(t.threads[g].at)
    ensures !t.threads[g].at.Announced? && !SawFull(t.threads[g].at) && !HasRoom(t.threads[g].at)
    ensures !Reads(th.at) && !th.at.Announced? && (Writes(th.at) <==> th.at.Counting? || th.at.Unlocking?)
  {
  }

  lemma ActorLocksWorking(s: State, g: Goroutine, th: Thread, c: ComposerId, t: State)
    requires c in s.heap && RunHolding(s, g, th, c) == Some(t)
    requires LocksAgree(s, g, th.at) && s.count <= s.max
    ensures LocksAgree(t, g, t.threads[g].at)
  {
    WorkingMoves(s, g, th, c, t);
  }

  /** What Get's statements put into the hand. */
  lemma TakingMoves(s: State, g: Goroutine, th: Thread, t: State)
    requires RunPool(s, g, th) == Some(t) && th.hand.None?
    ensures match th.at
            case Creating => t.pool == s.pool && s.next in t.heap && t.heap[s.next].vm.None?
                             && t.threads[g] == th.(at := Counting, hand := Some(s.next))
            case RecvLocked => s.pool != [] && t.heap == s.heap && t.pool == s.pool[1..]
                               && t.threads[g] == th.(at := Unlocking, hand := Some(s.pool[0]))
            case Recv => s.pool != [] && t.heap == s.heap && t.pool == s.pool[1..]
                         && t.threads[g] == th.(at := Got, hand := Some(s.pool[0]))
            case _ => t.threads[g].hand.None? && !Holds(t.threads[g].at)
  {
  }

  lemma ActorHandTaking(s: State, g: Goroutine, th: Thread, t: State)
    requires RunPool(s, g, th) == Some(t) && th.hand.None? && !Holds(th.at)
    requires s.pool != [] ==> s.pool[0] in s.heap && s.heap[s.pool[0]].vm.None? && s.pool[0] !in s.pool[1..]
    requires s.next !in s.pool
    ensures HandAgrees(t, g, t.threads[g])
  {
    TakingMoves(s, g, th, t);
  }

  lemma ActorHandWorking(s: State, a: Action, t: State)
    requires !Taking(s, a)
    requires Next(s, a) == Some(t) && a.g in s.threads && PoolOk(s) && HeapOk(s)
    requires HandAgrees(s, a.g, s.threads[a.g])
    ensures a.g in t.threads && HandAgrees(t, a.g, t.threads[a.g])
  {
  }

  lemma ActorCall(s: State, a: Action, t: State)
    requires Next(s, a) == Some(t) && a.g in s.threads
    requires HandAgrees(s, a.g, s.threads[a.g]) && Conversing(s.threads[a.g], a.g)
    ensures a.g in t.threads && Conversing(t.threads[a.g], a.g)
  {
  }

  // ----- Any other thread -----

  lemma OtherLocksTaking(s: State, a: Action, t: State, h: Goroutine)
    requires Taking(s, a)
    requires Next(s, a) == Some(t) && SharedOk(s) && h in s.threads && h != a.g && LocksAgree(s, h, s.threads[h].at)
    requires a.g in s.threads && LocksAgree(s, a.g, s.threads[a.g].at) && (Holds(s.threads[a.g].at) <==> s.threads[a.g].hand.Some?)
    ensures h in t.threads && t.threads[h] == s.threads[h] && LocksAgree(t, h, t.threads[h].at)
  {
  }

  lemma OtherLocksWorking(s: State, a: Action, t: State, h: Goroutine)
    requires !Taking(s, a)
    requires Next(s, a) == Some(t) && SharedOk(s) && h in s.threads && h != a.g && LocksAgree(s, h, s.threads[h].at)
    requires a.g in s.threads && LocksAgree(s, a.g, s.threads[a.g].at) && (Holds(s.threads[a.g].at) <==> s.threads[a.g].hand.Some?)
    ensures h in t.threads && t.threads[h] == s.threads[h] && LocksAgree(t, h, t.threads[h].at)
  {
  }

  lemma OtherHandTaking(s: State, a: Action, t: State, h: Goroutine)
    requires Taking(s, a)
    requires Next(s, a) == Some(t) && PoolOk(s) && HeapOk(s) && h in s.threads && h != a.g && HandAgrees(s, h, s.threads[h])
    requires a.g in s.threads && HandAgrees(s, a.g, s.threads[a.g]) && Apart(s, a.g, h)
    ensures h in t.threads && t.threads[h] == s.threads[h] && HandAgrees(t, h, t.threads[h])
    ensures a.g in t.threads && Apart(t, a.g, h) && Apart(t, h, a.g)
  {
  }

  lemma OtherHandWorking(s: State, a: Action, t: State, h: Goroutine)
    requires !Taking(s, a)
    requires Next(s, a) == Some(t) && PoolOk(s) && HeapOk(s) && h in s.threads && h != a.g && HandAgrees(s, h, s.threads[h])
    requires a.g in s.threads && HandAgrees(s, a.g, s.threads[a.g]) && Apart(s, a.g, h)
    ensures h in t.threads && t.threads[h] == s.threads[h] && HandAgrees(t, h, t.threads[h])
    ensures a.g in t.threads && Apart(t, a.g, h) && Apart(t, h, a.g)
  {
  }

  // ----- The shared state -----

  lemma SharedPreservedTaking(s: State, a: Action, t: State)
    requires Taking(s, a)
    requires Next(s, a) == Some(t) && SharedOk(s) && HeapOk(s) && a.g in s.threads
    requires LocksAgree(s, a.g, s.threads[a.g].at) && HandAgrees(s, a.g, s.threads[a.g])
    ensures SharedOk(t)
  {
  }

  lemma SharedPreservedWorking(s: State, a: Action, t: State)
    requires !Taking(s, a)
    requires Next(s, a) == Some(t) && SharedOk(s) && HeapOk(s) && a.g in s.threads
    requires LocksAgree(s, a.g, s.threads[a.g].at) && HandAgrees(s, a.g, s.threads[a.g])
    ensures SharedOk(t)
  {
  }

  lemma PoolPreserved(s: State, a: Action, t: State)
    requires Next(s, a) == Some(t) && PoolOk(s) && HeapOk(s) && a.g in s.threads
    requires HandAgrees(s, a.g, s.threads[a.g])
    ensures PoolOk(t)
  {
  }

  /** Only NewComposer adds a Composer or sets an Index. */
  lemma HeapPreserved(s: State, a: Action, t: State)
    requires Next(s, a) == Some(t) && HeapOk(s)
    ensures HeapOk(t) && forall c <- s.heap :: c in t.heap && t.heap[c].index == s.heap[c].index
    ensures
      if a.Run? && s.threads[a.g].hand.None? && s.threads[a.g].at.Creating?
      then t.heap.Keys == s.heap.Keys + {s.next} && t.heap[s.next].index == s.count
      else t.heap.Keys == s.heap.Keys
  {
  }

  lemma IndexPreserved(s: State, a: Action, t: State)
    requires Next(s, a) == Some(t) && SharedOk(s) && HeapOk(s) && IndexOk(s) && a.g in s.threads
    requires LocksAgree(s, a.g, s.threads[a.g].at)
    ensures IndexOk(t)
  {
    HeapPreserved(s, a, t);
    if a.Run? && s.threads[a.g].hand.None? && s.threads[a.g].at.Creating? {
      assert |t.heap| == |t.heap.Keys| == |s.heap| + 1;
    } else {
      assert |t.heap| == |t.heap.Keys| == |s.heap|;
    }
  }

  lemma PlacedPreserved(s: State, a: Action, t: State, c: ComposerId)
    requires Next(s, a) == Some(t) && HeapOk(s) && a.g in s.threads && c in t.heap
    requires HandAgrees(s, a.g, s.threads[a.g])
    requires c in s.heap ==> Placed(s, c)
    ensures Placed(t, c)
  {
    if c in s.heap && c !in s.pool {
      var h :| h in s.threads && s.threads[h].hand == Some(c);
      assert h in t.threads;
    }
    assert a.g in t.threads;
  }

  // ----- All threads, all runs -----

  lemma StepPreserves(s: State, a: Action, t: State)
    requires Invariant(s) && Next(s, a) == Some(t)
    ensures Invariant(t) && t.max == s.max
  {
    if a.Spawn? {
      SpawnPreserves(s, a.g, t);
    } else {
      var g := a.g;
      assert ThreadOk(s, g);
      ActorOk(s, a, t);
      SharedOkAfter(s, a, t);
      forall h | h in t.threads && h != g
        ensures ThreadOk(t, h) && Apart(t, g, h) && Apart(t, h, g) && h in s.threads && t.threads[h] == s.threads[h]
      {
        assert ThreadOk(s, h) && Apart(s, g, h);
        OtherOk(s, a, t, h);
      }
      forall h, k | h in t.threads && k in t.threads
        ensures Apart(t, h, k)
      {
        if h != g && k != g {
          assert Apart(s, h, k);
        }
      }
      forall c | c in t.heap
        ensures Placed(t, c)
      {
        assert c in s.heap ==> Placed(s, c);
        PlacedPreserved(s, a, t, c);
      }
    }
  }

  lemma SpawnPreserves(s: State, g: Goroutine, t: State)
    requires Invariant(s) && Next(s, Spawn(g)) == Some(t)
    ensures Invariant(t) && t.max == s.max
  {
    forall h | h in t.threads
      ensures ThreadOk(t, h)
    {
      if h != g {
        assert ThreadOk(s, h);
      }
    }
    forall h, k | h in t.threads && k in t.threads
      ensures Apart(t, h, k)
    {
      if h != g && k != g {
        assert Apart(s, h, k);
      }
    }
    forall c | c in t.heap
      ensures Placed(t, c)
    {
      assert Placed(s, c);
      if c !in s.pool {
        var h :| h in s.threads && s.threads[h].hand == Some(c);
        assert h in t.threads;
      }
    }
  }

  lemma ActorOk(s: State, a: Action, t: State)
    requires Invariant(s) && Next(s, a) == Some(t) && a.g in s.threads && ThreadOk(s, a.g)
    ensures a.g in t.threads && ThreadOk(t, a.g)
  {
    if Taking(s, a) {
      ActorLocksTaking(s, a, t);
      assert s.pool != [] ==> s.pool[0] !in s.pool[1..];
      ActorHandTaking(s, a.g, s.threads[a.g], t);
    } else {
      if a.Run? {
        ActorLocksWorking(s, a.g, s.threads[a.g], s.threads[a.g].hand.value, t);
      }
      ActorHandWorking(s, a, t);
    }
    ActorCall(s, a, t);
  }

  lemma OtherOk(s: State, a: Action, t: State, h: Goroutine)
    requires Invariant(s) && Next(s, a) == Some(t) && a.g in s.threads && ThreadOk(s, a.g)
    requires h in s.threads && h != a.g && ThreadOk(s, h) && Apart(s, a.g, h)
    ensures h in t.threads && t.threads[h] == s.threads[h] && ThreadOk(t, h)
    ensures a.g in t.threads && Apart(t, a.g, h) && Apart(t, h, a.g)
  {
    if Taking(s, a) {
      OtherLocksTaking(s, a, t, h);
      OtherHandTaking(s, a, t, h);
    } else {
      OtherLocksWorking(s, a, t, h);
      OtherHandWorking(s, a, t, h);
    }
  }

  lemma SharedOkAfter(s: State, a: Action, t: State)
    requires Invariant(s) && Next(s, a) == Some(t) && a.g in s.threads && ThreadOk(s, a.g)
    ensures SharedOk(t) && PoolOk(t) && HeapOk(t) && IndexOk(t) && t.max == s.max && t.threads.Keys == s.threads.Keys
  {
    if Taking(s, a) {
      SharedPreservedTaking(s, a, t);
    } else {
      SharedPreservedWorking(s, a, t);
    }
    PoolPreserved(s, a, t);
    HeapPreserved(s, a, t);
    IndexPreserved(s, a, t);
  }

  lemma {:induction false} RunPreserves(s: State, actions: seq<Action>, t: State)
    requires Invariant(s) && Execute(s, actions) == Some(t)
    ensures Invariant(t) && t.max == s.max
    decreases |actions|
  {
    if actions != [] {
      StepPreserves(s, actions[0], Next(s, actions[0]).value);
      RunPreserves(Next(s, actions[0]).value, actions[1..], t);
    }
  }

  lemma ReachableInvariant(max: nat, s: State)
    requires Reachable(max, s)
    ensures Invariant(s) && s.max == max
  {
    var actions :| Execute(Initial(max), actions) == Some(s);
    InitialInvariant(max);
    RunPreserves(Initial(max), actions, s);
  }
}
