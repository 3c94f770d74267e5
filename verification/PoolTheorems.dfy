/** The results about the chaincode execution core: safety of the pool, isolation of calls,
    freedom from deadlock and termination of every schedule. */
module PoolTheorems {
  import opened Wrappers
  import opened Collections
  import opened PoolModel
  import opened PoolSafety

  /** The Composers in some goroutine's hands. */
  ghost function InHands(s: State): set<ComposerId> {
    set g | g in s.threads && s.threads[g].hand.Some? :: s.threads[g].hand.value
  }

  /** The Index fields in use. */
  ghost function Indices(s: State): set<nat> {
    (map c | c in s.heap :: s.heap[c].index).Values
  }

  ghost predicate SomeoneCounting(s: State) {
    exists g <- s.threads :: s.threads[g].at.Counting?
  }

  /** Pool safety over all interleavings: PoolCount never passes PoolMax; a Composer is never
      in two hands, nor both in a hand and in the channel; the channel and the hands together
      hold every Composer, once each; the Index values in use are exactly 0 .. n-1; and whoever
      waits at the channel does so with the pool fully created. */
  lemma PoolIsSafe(max: nat, s: State)
    requires Reachable(max, s)
    ensures s.count <= max
    ensures forall g <- s.threads, h <- s.threads ::
              s.threads[g].hand.Some? && s.threads[g].hand == s.threads[h].hand ==> g == h
    ensures ToSet(s.pool) !! InHands(s)
    ensures |s.pool| + |InHands(s)| == |s.heap| == s.count + (if SomeoneCounting(s) then 1 else 0)
    ensures Indices(s) == Upto(|s.heap|)
    ensures forall g <- s.threads :: s.threads[g].at.Recv? || s.threads[g].at.RecvLocked? ==> s.count == max
  {
    ReachableInvariant(max, s);
    forall g | g in s.threads
      ensures SawFull(s.threads[g].at) ==> s.count == max
    {
      assert ThreadOk(s, g);
    }
    forall g, h | g in s.threads && h in s.threads && s.threads[g].hand.Some? && s.threads[g].hand == s.threads[h].hand
      ensures g == h
    {
      assert Apart(s, g, h);
    }
    Conservation(s);
    IndicesExact(s);
  }

  lemma Conservation(s: State)
    requires Invariant(s)
    ensures ToSet(s.pool) !! InHands(s)
    ensures |s.pool| + |InHands(s)| == |s.heap| == s.count + (if SomeoneCounting(s) then 1 else 0)
  {
    forall c | c in InHands(s)
      ensures c in s.heap && c !in s.pool
    {
      var g :| g in s.threads && s.threads[g].hand == Some(c);
      assert ThreadOk(s, g);
    }
    forall c | c in s.heap
      ensures c in ToSet(s.pool) + InHands(s)
    {
      assert Placed(s, c);
    }
    assert s.heap.Keys == ToSet(s.pool) + InHands(s);
    DistinctSize(s.pool);
    CountingIsUncounted(s);
  }

  lemma CountingIsUncounted(s: State)
    requires Invariant(s)
    ensures SomeoneCounting(s) <==> Uncounted(s)
  {
    if g :| g in s.threads && s.threads[g].at.Counting? {
      assert ThreadOk(s, g);
    }
  }

  /** Distinct indices below the number of Composers leave no gap. */
  lemma IndicesExact(s: State)
    requires IndexOk(s)
    ensures Indices(s) == Upto(|s.heap|)
  {
    var index := map c | c in s.heap :: s.heap[c].index;
    assert index.Keys == s.heap.Keys;
    InjectiveSize(index);
    SubsetSize(Indices(s), Upto(|s.heap|));
  }

  /** Lock discipline: a writer excludes every reader and every other writer. */
  lemma WriterExcludes(max: nat, s: State, g: Goroutine, h: Goroutine)
    requires Reachable(max, s) && g in s.threads && h in s.threads && g != h && Writes(s.threads[g].at)
    ensures !Writes(s.threads[h].at) && !Reads(s.threads[h].at)
  {
    ReachableInvariant(max, s);
    assert ThreadOk(s, g) && ThreadOk(s, h);
  }

  /** Per-call isolation: from setStub until its receive a call's Composer carries that call's
      stub, and from NewContext on its context; the script ran with that context; and a
      finished call returns what its own script reported. */
  lemma CallIsIsolated(max: nat, s: State, g: Goroutine)
    requires Reachable(max, s) && g in s.threads
    ensures
      var th := s.threads[g];
      && (th.at in {StubSet, ContextSet, InScript, Awaiting, Replied} ==>
            th.hand.Some? && th.hand.value in s.heap && s.heap[th.hand.value].stub == Some(g))
      && (th.at in {ContextSet, InScript, Awaiting, Replied} ==> s.heap[th.hand.value].context == Some(g))
      && (th.at in {InScript, Awaiting, Replied, Done} ==> th.seen == Some(g))
      && (th.at in {Replied, Done} ==> th.reported.Some? && th.reply == th.reported)
  {
    ReachableInvariant(max, s);
    assert ThreadOk(s, g);
  }

  /** A step never touches another call: its progress, its result and the Composer it holds,
      with stub, context and VM lock, stay as they were. */
  lemma StepsDoNotInterfere(max: nat, s: State, a: Action, t: State, h: Goroutine)
    requires Reachable(max, s) && Next(s, a) == Some(t) && h in s.threads && h != a.g
    ensures h in t.threads && t.threads[h] == s.threads[h]
    ensures s.threads[h].hand.Some? ==>
              var c := s.threads[h].hand.value; c in s.heap && c in t.heap && t.heap[c] == s.heap[c]
  {
    ReachableInvariant(max, s);
    assert ThreadOk(s, h);
    if !a.Spawn? {
      assert Apart(s, a.g, h);
      HeapFrame(s, a, t);
    }
  }

  lemma HeapFrame(s: State, a: Action, t: State)
    requires Next(s, a) == Some(t) && HeapOk(s) && a.g in s.threads
    ensures forall c <- s.heap :: Some(c) != s.threads[a.g].hand ==> c in t.heap && t.heap[c] == s.heap[c]
  {
  }

  // ----- What one statement means to its goroutine -----

  /** The goroutine has a Composer that is neither queued nor in any other hands. */
  ghost predicate OwnsAlone(s: State, g: Goroutine)
    requires g in s.threads
  {
    && s.threads[g].hand.Some? && s.threads[g].hand.value in s.heap && s.threads[g].hand.value !in s.pool
    && forall h <- s.threads :: h != g ==> s.threads[h].hand != s.threads[g].hand
  }

  lemma HolderOwnsAlone(s: State, g: Goroutine)
    requires Invariant(s) && g in s.threads && s.threads[g].hand.Some?
    ensures OwnsAlone(s, g)
  {
    assert ThreadOk(s, g);
    forall h | h in s.threads && h != g
      ensures s.threads[h].hand != s.threads[g].hand
    {
      assert Apart(s, g, h);
    }
  }

  /** A Composer that Get hands over is new while the pool is not full, and otherwise the one that has
      been queued longest. */
  predicate Fetched(s: State, t: State, c: ComposerId) {
    if s.count < s.max then c !in s.heap && c in t.heap && t.heap[c].index == s.count && t.pool == s.pool
    else s.count == s.max && s.pool == [c] + t.pool
  }

  lemma GetFetches(s: State, g: Goroutine, t: State)
    requires Invariant(s) && Taking(s, Run(g)) && Next(s, Run(g)) == Some(t)
    ensures t.count == s.count
    ensures t.threads[g].hand.Some? ==> Fetched(s, t, t.threads[g].hand.value)
    ensures t.threads[g].hand.None? ==> t.pool == s.pool && t.heap == s.heap
  {
    assert ThreadOk(s, g);
  }

  /** Where Get has to wait: at a lock that others hold, or at the channel of a full pool that is
      all in use. */
  predicate GetWaits(s: State, g: Goroutine)
    requires g in s.threads
  {
    match s.threads[g].at
    case Start => s.writer.Some? || s.announced.Some?
    case WantLock => s.writer.Some? || s.announced.Some?
    case Announced => s.readers != {}
    case RecvLocked => s.pool == [] && s.count == s.max
    case Recv => s.pool == [] && s.count == s.max
    case Done => true
    case _ => false
  }

  lemma GetBlocked(s: State, g: Goroutine)
    requires Invariant(s) && Taking(s, Run(g))
    ensures Next(s, Run(g)).None? <==> GetWaits(s, g)
  {
    assert ThreadOk(s, g);
  }

  /** A goroutine with a Composer waits for nothing but the report of its own script. */
  lemma HolderBlocked(s: State, g: Goroutine)
    requires Invariant(s) && g in s.threads && s.threads[g].hand.Some?
    ensures Next(s, Run(g)).None? <==> s.threads[g].at.Awaiting? && s.threads[g].script.Running?
  {
    assert ThreadOk(s, g);
    if s.threads[g].at.Replied? {
      RoomInPool(s, g);
    }
  }

  /** It keeps its Composer, with its own stub, context and VM lock on it, until it queues it again; no
      other Composer changes. */
  lemma HolderSteps(s: State, g: Goroutine, c: ComposerId, t: State)
    requires Invariant(s) && g in s.threads && s.threads[g].hand == Some(c) && Next(s, Run(g)) == Some(t)
    ensures if s.threads[g].at.Replied? then t.threads[g].at.Done? && t.pool == s.pool + [c] && t.threads[g].reply == t.threads[g].reported
            else t.threads[g].hand == Some(c) && t.pool == s.pool
    ensures t.heap.Keys == s.heap.Keys && forall d <- s.heap :: d != c ==> t.heap[d] == s.heap[d]
  {
    assert ThreadOk(s, g);
  }

  // ----- What a call returns -----

  /** What an action reports to its call: what the script hands to the callback, or what it throws. */
  function Reports(a: Action): Option<PoolModel.Report> {
    match a
    case Report(_, r) => Some(r)
    case Throw(_, m) => Some(Failed(m))
    case _ => None
  }

  /** A report, and an error a script throws, is the one thing in its own call's channel. */
  lemma ReportIsSent(s: State, a: Action, t: State)
    requires Invariant(s) && Reports(a).Some? && Next(s, a) == Some(t)
    ensures t.threads[a.g].reported == Reports(a) && t.threads[a.g].channel == [Reports(a).value]
  {
    assert ThreadOk(s, a.g);
  }

  /** Nothing else makes a call's report, and once made it stays. */
  lemma ReportedStep(s: State, a: Action, t: State, g: Goroutine)
    requires Invariant(s) && Next(s, a) == Some(t) && g in t.threads
    ensures g in s.threads && s.threads[g].reported.Some? ==> t.threads[g].reported == s.threads[g].reported
    ensures (g !in s.threads || s.threads[g].reported.None?) && t.threads[g].reported.Some? ==>
              a.g == g && t.threads[g].reported == Reports(a)
  {
    if g in s.threads {
      assert ThreadOk(s, g);
    }
    if a.g in s.threads && Reports(a).Some? {
      ReportIsSent(s, a, t);
    }
  }

  lemma {:induction false} ReportedStays(s: State, actions: seq<Action>, t: State, g: Goroutine)
    requires Invariant(s) && Execute(s, actions) == Some(t)
    requires g in s.threads && s.threads[g].reported.Some?
    ensures g in t.threads && t.threads[g].reported == s.threads[g].reported
    decreases |actions|
  {
    if actions != [] {
      var u := Next(s, actions[0]).value;
      ReportedStep(s, actions[0], u, g);
      StepPreserves(s, actions[0], u);
      ReportedStays(u, actions[1..], t, g);
    }
  }

  /** In every run: when a script has reported a result or thrown an error, that is what its call
      returns, however the rest is scheduled. */
  lemma ReportIsReturned(max: nat, s: State, a: Action, u: State, actions: seq<Action>, t: State)
    requires Reachable(max, s) && Reports(a).Some? && Next(s, a) == Some(u) && Execute(u, actions) == Some(t)
    ensures a.g in t.threads && t.threads[a.g].reported == Reports(a)
    ensures t.threads[a.g].at in {Replied, Done} ==> t.threads[a.g].reply == Reports(a)
  {
    ReachableInvariant(max, s);
    ReportIsSent(s, a, u);
    StepPreserves(s, a, u);
    ReportedStays(u, actions, t, a.g);
    RunPreserves(u, actions, t);
    assert ThreadOk(t, a.g);
  }

  /** Some action of the run is of `g` and reports `r`. */
  ghost predicate HasSource(actions: seq<Action>, g: Goroutine, r: Option<PoolModel.Report>) {
    exists a <- actions :: a.g == g && Reports(a) == r
  }

  lemma SourceInTail(actions: seq<Action>, g: Goroutine, r: Option<PoolModel.Report>)
    requires actions != [] && HasSource(actions[1..], g, r)
    ensures HasSource(actions, g, r)
  {
    assert actions == [actions[0]] + actions[1..];
  }

  lemma {:induction false} ReportedHasSource(s: State, actions: seq<Action>, t: State, g: Goroutine)
    requires Invariant(s) && Execute(s, actions) == Some(t)
    requires (g in s.threads ==> s.threads[g].reported.None?) && g in t.threads && t.threads[g].reported.Some?
    ensures HasSource(actions, g, t.threads[g].reported)
    decreases |actions|
  {
    var a, u := actions[0], Next(s, actions[0]).value;
    StepPreserves(s, a, u);
    if g in u.threads {
      ReportedStep(s, a, u, g);
    }
    if g in u.threads && u.threads[g].reported.Some? {
      ReportedStays(u, actions[1..], t, g);
      assert a in actions;
    } else {
      ReportedHasSource(u, actions[1..], t, g);
      SourceInTail(actions, g, t.threads[g].reported);
    }
  }

  /** And nothing is returned that the call's own script did not report or throw. */
  lemma RepliesAreReported(max: nat, actions: seq<Action>, t: State, g: Goroutine)
    requires Execute(Initial(max), actions) == Some(t) && g in t.threads && t.threads[g].reply.Some?
    ensures exists a <- actions :: a.g == g && Reports(a) == t.threads[g].reply
  {
    InitialInvariant(max);
    RunPreserves(Initial(max), actions, t);
    assert ThreadOk(t, g);
    ReportedHasSource(Initial(max), actions, t, g);
  }

  // ----- Nobody waits for ever -----

  /** The one-slot callback channel never blocks its sender: whenever a call's script is still
      running, whatever it reports is accepted, and so is the error if it throws while it is called. */
  lemma ReportNeverBlocks(max: nat, s: State, g: Goroutine, r: PoolModel.Report)
    requires Reachable(max, s) && g in s.threads && s.threads[g].script.Running?
    ensures Next(s, Action.Report(g, r)).Some?
    ensures forall m :: Next(s, Throw(g, m)).Some? <==> s.threads[g].at.InScript?
  {
    ReachableInvariant(max, s);
    CanReport(s, g, r);
    forall m
      ensures Next(s, Throw(g, m)).Some? <==> s.threads[g].at.InScript?
    {
      CanReport(s, g, Failed(m));
    }
  }

  lemma CanReport(s: State, g: Goroutine, r: PoolModel.Report)
    requires Invariant(s) && g in s.threads && s.threads[g].script.Running?
    ensures Next(s, Action.Report(g, r)).Some?
  {
    assert ThreadOk(s, g);
  }

  /** Put never blocks: a goroutine with a Composer to return finds a free slot. */
  lemma PutNeverBlocks(max: nat, s: State, g: Goroutine)
    requires Reachable(max, s) && g in s.threads && s.threads[g].at.Replied?
    ensures Next(s, Run(g)).Some?
  {
    ReachableInvariant(max, s);
    RoomInPool(s, g);
  }

  lemma RoomInPool(s: State, g: Goroutine)
    requires Invariant(s) && g in s.threads && s.threads[g].at.Replied?
    ensures |s.pool| < s.max && s.threads[g].hand.Some? && s.threads[g].hand.value in s.heap
  {
    assert ThreadOk(s, g);
    var c := s.threads[g].hand.value;
    var outside := {c};
    if Uncounted(s) {
      var w := s.writer.value;
      assert ThreadOk(s, w) && Apart(s, g, w);
      outside := {c, s.threads[w].hand.value};
      assert |outside| == 2;
    }
    DistinctSize(s.pool);
    assert |ToSet(s.pool) + outside| == |s.pool| + |outside|;
    SubsetSize(ToSet(s.pool) + outside, s.heap.Keys);
  }

  ghost predicate Unfinished(s: State, g: Goroutine) {
    g in s.threads && !s.threads[g].at.Done?
  }

  /** Some goroutine, or the script some goroutine waits for, can take a step. */
  ghost predicate CanMove(s: State) {
    exists a: Action :: !a.Spawn? && Next(s, a).Some?
  }

  ghost predicate Deadlocked(s: State) {
    !CanMove(s) && exists g :: Unfinished(s, g)
  }

  /** A goroutine that holds a Composer never needs the pool's lock or channel to go on. */
  lemma HolderMoves(s: State, g: Goroutine)
    requires Invariant(s) && g in s.threads && s.threads[g].hand.Some?
    ensures CanMove(s)
  {
    assert ThreadOk(s, g);
    if s.threads[g].at.Replied? {
      RoomInPool(s, g);
    }
    if s.threads[g].at.Awaiting? && s.threads[g].script.Running? {
      assert Next(s, Action.Report(g, Nothing)).Some?;
    } else {
      assert Next(s, Run(g)).Some?;
    }
  }

  /** An empty channel in a fully created pool means every Composer is in some hand. */
  lemma ReceiverMoves(s: State, g: Goroutine)
    requires Invariant(s) && s.max >= 1 && g in s.threads && (s.threads[g].at.Recv? || s.threads[g].at.RecvLocked?)
    ensures CanMove(s)
  {
    assert ThreadOk(s, g);
    if s.pool != [] {
      assert Next(s, Run(g)).Some?;
    } else {
      assert |s.heap.Keys| > 0;
      var c :| c in s.heap;
      assert Placed(s, c);
      var h :| h in s.threads && s.threads[h].hand == Some(c);
      HolderMoves(s, h);
    }
  }

  lemma LockHolderMoves(s: State, g: Goroutine)
    requires Invariant(s) && s.max >= 1 && g in s.threads && (Writes(s.threads[g].at) || Reads(s.threads[g].at))
    ensures CanMove(s)
  {
    assert ThreadOk(s, g);
    if s.threads[g].hand.Some? {
      HolderMoves(s, g);
    } else if s.threads[g].at.RecvLocked? {
      ReceiverMoves(s, g);
    } else {
      assert Next(s, Run(g)).Some?;
    }
  }

  lemma UnfinishedMoves(s: State, g: Goroutine)
    requires Invariant(s) && s.max >= 1 && Unfinished(s, g)
    ensures CanMove(s)
  {
    assert ThreadOk(s, g);
    var at := s.threads[g].at;
    if s.threads[g].hand.Some? {
      HolderMoves(s, g);
    } else if at.Recv? {
      ReceiverMoves(s, g);
    } else if s.writer.Some? {
      assert ThreadOk(s, s.writer.value);
      LockHolderMoves(s, s.writer.value);
    } else if s.readers != {} {
      var r :| r in s.readers;
      assert ThreadOk(s, r);
      LockHolderMoves(s, r);
    } else if s.announced.Some? {
      assert ThreadOk(s, s.announced.value);
      assert Next(s, Run(s.announced.value)).Some?;
    } else {
      assert Next(s, Run(g)).Some?;
    }
  }

  /** Deadlock freedom, although a goroutine whose re-check fails waits on the channel with the
      write lock held: no reachable state is deadlocked exactly when the pool has a slot. */
  lemma DeadlockFreeIffPoolHasASlot(max: nat)
    ensures max >= 1 <==> forall s :: Reachable(max, s) ==> !Deadlocked(s)
  {
    if max >= 1 {
      forall s | Reachable(max, s)
        ensures !Deadlocked(s)
      {
        ReachableInvariant(max, s);
        if g :| Unfinished(s, g) {
          UnfinishedMoves(s, g);
        }
      }
    } else {
      EmptyPoolDeadlocks();
    }
  }

  /** With PoolMax = 0 the very first call waits at the channel for ever. */
  lemma EmptyPoolDeadlocks()
    ensures exists s :: Reachable(0, s) && Deadlocked(s)
  {
    var s0 := Initial(0);
    var s1 := Next(s0, Spawn(0)).value;
    var s2 := Next(s1, Run(0)).value;
    var s3 := Next(s2, Run(0)).value;
    var s4 := Next(s3, Run(0)).value;
    FirstStep(s3, Run(0), [], s4);
    FirstStep(s2, Run(0), [Run(0)], s4);
    FirstStep(s1, Run(0), [Run(0), Run(0)], s4);
    FirstStep(s0, Spawn(0), [Run(0), Run(0), Run(0)], s4);
    assert Reachable(0, s4);
    forall a: Action | !a.Spawn?
      ensures Next(s4, a).None?
    {
    }
    assert Unfinished(s4, 0);
    assert Deadlocked(s4);
  }

  lemma FirstStep(s: State, a: Action, rest: seq<Action>, t: State)
    requires Next(s, a).Some? && Execute(Next(s, a).value, rest) == Some(t)
    ensures Execute(s, [a] + rest) == Some(t)
  {
    assert ([a] + rest)[1..] == rest;
  }

  // ----- Every schedule finishes -----

  /** The steps a goroutine has left at most, its script's report included. */
  function Remaining(th: Thread): nat {
    (match th.at
     case Start => 17 case Checking => 16 case LeavingLow => 15 case WantLock => 14 case Announced => 13
     case Rechecking => 12 case Creating => 11 case RecvLocked => 11 case Counting => 10 case Unlocking => 9
     case LeavingHigh => 15 case Recv => 9 case Got => 8 case InVM => 7 case StubSet => 6
     case ContextSet => 5 case InScript => 3 case Awaiting => 2 case Replied => 1 case Done => 0)
    + (if th.script.Running? then 1 else 0)
  }

  ghost function Work(threads: map<Goroutine, Thread>): nat
    decreases |threads|
  {
    if threads == map[] then 0
    else
      var g :| g in threads;
      assert |threads - {g}| < |threads| by { WithoutOne(threads, g); }
      Remaining(threads[g]) + Work(threads - {g})
  }

  lemma WithoutOne<K, V>(m: map<K, V>, k: K)
    requires k in m
    ensures |m - {k}| == |m| - 1
  {
    assert (m - {k}).Keys == m.Keys - {k};
    assert |(m - {k}).Keys| == |m.Keys| - 1;
  }

  lemma {:induction false} WorkSplit(threads: map<Goroutine, Thread>, g: Goroutine)
    requires g in threads
    ensures Work(threads) == Remaining(threads[g]) + Work(threads - {g})
    decreases |threads|
  {
    var h :| h in threads && Work(threads) == Remaining(threads[h]) + Work(threads - {h});
    if h != g {
      WithoutOne(threads, h);
      WithoutOne(threads, g);
      WorkSplit(threads - {h}, g);
      WorkSplit(threads - {g}, h);
      assert threads - {h} - {g} == threads - {g} - {h};
    }
  }

  lemma {:induction false} WorkBound(threads: map<Goroutine, Thread>)
    ensures Work(threads) <= 18 * |threads|
    decreases |threads|
  {
    if threads != map[] {
      var g :| g in threads;
      WorkSplit(threads, g);
      WithoutOne(threads, g);
      WorkBound(threads - {g});
    }
  }

  lemma StepWorks(s: State, a: Action, t: State)
    requires Next(s, a) == Some(t) && a.g in s.threads && ThreadOk(s, a.g)
    ensures Work(t.threads) < Work(s.threads)
  {
    var g := a.g;
    ThreadWorks(s, a, t);
    WorkSplit(s.threads, g);
    WorkSplit(t.threads, g);
    assert s.threads - {g} == t.threads - {g};
  }

  lemma ThreadWorks(s: State, a: Action, t: State)
    requires Next(s, a) == Some(t) && a.g in s.threads && ThreadOk(s, a.g)
    ensures a.g in t.threads && Remaining(t.threads[a.g]) < Remaining(s.threads[a.g])
  {
  }

  ghost predicate NoSpawns(actions: seq<Action>) {
    forall i :: 0 <= i < |actions| ==> !actions[i].Spawn?
  }

  lemma {:induction false} RunWorks(s: State, actions: seq<Action>, t: State)
    requires Invariant(s) && Execute(s, actions) == Some(t) && NoSpawns(actions)
    ensures |actions| + Work(t.threads) <= Work(s.threads)
    decreases |actions|
  {
    if actions != [] {
      var u := Next(s, actions[0]).value;
      StepPreserves(s, actions[0], u);
      assert ThreadOk(s, actions[0].g);
      StepWorks(s, actions[0], u);
      RunWorks(u, actions[1..], t);
    }
  }

  /** With no step left, every call is over. */
  lemma StuckIsDone(t: State)
    requires Invariant(t) && t.max >= 1 && !CanMove(t)
    ensures forall g <- t.threads :: t.threads[g].at.Done? && ThreadOk(t, g)
  {
    forall g | g in t.threads
      ensures t.threads[g].at.Done? && ThreadOk(t, g)
    {
      if Unfinished(t, g) {
        UnfinishedMoves(t, g);
      }
      assert ThreadOk(t, g);
    }
  }

  /** When every call is over, each has its own script's report, and the pool holds every Composer. */
  lemma DoneIsReplied(t: State)
    requires Invariant(t) && forall g <- t.threads :: t.threads[g].at.Done? && ThreadOk(t, g)
    ensures forall g <- t.threads :: t.threads[g].reply.Some? && t.threads[g].reply == t.threads[g].reported
    ensures |t.pool| == t.count && InHands(t) == {}
  {
    Conservation(t);
  }

  /** Every schedule finishes: once no new transactions arrive, at most 18 more steps per
      goroutine are possible in whatever order they are scheduled, and when no step is left
      every call has returned what its own script reported and its Composer is back. */
  lemma EveryScheduleFinishes(max: nat, s: State, actions: seq<Action>, t: State)
    requires max >= 1 && Reachable(max, s) && Execute(s, actions) == Some(t) && NoSpawns(actions)
    ensures |actions| <= 18 * |s.threads|
    ensures !CanMove(t) ==>
              && (forall g <- t.threads ::
                    t.threads[g].at.Done? && t.threads[g].reply.Some? && t.threads[g].reply == t.threads[g].reported)
              && |t.pool| == t.count && InHands(t) == {}
  {
    ReachableInvariant(max, s);
    RunWorks(s, actions, t);
    WorkBound(s.threads);
    RunPreserves(s, actions, t);
    if !CanMove(t) {
      StuckIsDone(t);
      DoneIsReplied(t);
    }
  }
}
