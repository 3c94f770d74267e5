/** The same core as the code has it: fields updated in place by one statement at a time, under
    any scheduler.  Each method is proved against the transition system. */
module ChaincodeRuntime {
  import opened Wrappers
  import opened PoolModel
  import opened PoolSafety
  import opened PoolTheorems

  class Runtime {
    // ComposerPool
    const poolMax: nat
    var poolCount: nat
    var pool: seq<ComposerId>
    // sync.RWMutex
    var readers: set<Goroutine>
    var announced: Option<Goroutine>
    var writer: Option<Goroutine>
    // every Composer, and every goroutine's locals
    var composers: map<ComposerId, Composer>
    var next: ComposerId
    var threads: map<Goroutine, Thread>

    ghost function Snapshot(): State
      reads this
    {
      State(poolMax, poolCount, pool, readers, announced, writer, composers, next, threads)
    }

    /** NewChaincode and NewComposerPool. */
    constructor (max: nat)
      ensures Snapshot() == Initial(max) && Invariant(Snapshot())
    {
      poolMax := max;
      poolCount, pool := 0, [];
      readers, announced, writer := {}, None, None;
      composers, next, threads := map[], 0, map[];
      new;
      InitialInvariant(max);
    }

    /** One statement of some goroutine or script; `ran` is false if it has to wait. */
    method Step(a: Action) returns (ran: bool)
      requires Invariant(Snapshot())
      modifies this
      ensures Next(old(Snapshot()), a) == if ran then Some(Snapshot()) else None
      ensures !ran ==> Snapshot() == old(Snapshot())
      ensures Invariant(Snapshot())
      ensures ran && a.Report? ==> a.g in threads && threads[a.g].channel == [a.report] && threads[a.g].reported == Some(a.report)
      ensures ran && a.Throw? ==>
                a.g in threads && threads[a.g].channel == [Failed(a.message)] && threads[a.g].reported == Some(Failed(a.message))
    {
      ghost var before := Snapshot();
      match a {
        case Spawn(g) =>
          ran := g !in threads;
          if ran {
            threads := threads[g := NEW_THREAD];
          }
        case Run(g) =>
          if g !in threads {
            ran := false;
          } else if threads[g].hand.None? {
            ran := Get(g);
          } else {
            ran := Hold(g);
          }
        case Report(g, report) =>
          ran := HandleCallback(g, report);
        case Throw(g, message) =>
          ran := false;
          if g in threads && threads[g].at.InScript? {
            ran := HandleCallback(g, Failed(message));
          }
      }
      if ran && a.Spawn? {
        StepPreserves(before, a, Snapshot());
      }
    }

    method Goto(g: Goroutine, at: Point)
      requires g in threads
      modifies this`threads
      ensures threads == old(threads)[g := old(threads)[g].(at := at)]
    {
      threads := threads[g := threads[g].(at := at)];
    }

    /** One statement of ComposerPool.Get. The Composer it ends with is this goroutine's alone: a new
        one, or the one that was queued longest. It waits only for locks that others hold, or for a
        Composer when all PoolMax are in use. */
    method Get(g: Goroutine) returns (ran: bool)
      requires Invariant(Snapshot()) && g in threads && threads[g].hand.None?
      modifies this
      ensures Invariant(Snapshot()) && Next(old(Snapshot()), Run(g)) == if ran then Some(Snapshot()) else None
      ensures !ran ==> Snapshot() == old(Snapshot())
      ensures g in threads && (ran <==> !GetWaits(old(Snapshot()), g))
      ensures threads[g].hand.Some? ==> OwnsAlone(Snapshot(), g) && Fetched(old(Snapshot()), Snapshot(), threads[g].hand.value)
      ensures threads[g].hand.None? ==> pool == old(pool) && composers == old(composers)
    {
      ghost var before := Snapshot();
      ran := RunGet(g);
      GetBlocked(before, g);
      if ran {
        StepPreserves(before, Run(g), Snapshot());
        GetFetches(before, g, Snapshot());
        if threads[g].hand.Some? {
          HolderOwnsAlone(Snapshot(), g);
        }
      }
    }

    /** The statements of Get. */
    method RunGet(g: Goroutine) returns (ran: bool)
      requires g in threads
      modifies this
      ensures RunPool(old(Snapshot()), g, old(threads)[g]) == if ran then Some(Snapshot()) else None
      ensures !ran ==> Snapshot() == old(Snapshot())
    {
      ran := true;
      match threads[g].at {
        case Start =>
          ran := writer.None? && announced.None?;
          if ran {
            readers := readers + {g};
            Goto(g, Checking);
          }
        case Checking =>
          Goto(g, if poolCount < poolMax then LeavingLow else LeavingHigh);
        case LeavingLow =>
          readers := readers - {g};
          Goto(g, WantLock);
        case LeavingHigh =>
          readers := readers - {g};
          Goto(g, Recv);
        case WantLock =>
          ran := writer.None? && announced.None?;
          if ran {
            announced := Some(g);
            Goto(g, Announced);
          }
        case Announced =>
          ran := readers == {};
          if ran {
            announced, writer := None, Some(g);
            Goto(g, Rechecking);
          }
        case Rechecking =>
          Goto(g, if poolCount < poolMax then Creating else RecvLocked);
        case Creating =>
          composers := composers[next := Composer(poolCount, None, None, None)];
          threads := threads[g := threads[g].(at := Counting, hand := Some(next))];
          next := next + 1;
        case RecvLocked =>
          ran := Receive(g, Unlocking);
        case Recv =>
          ran := Receive(g, Got);
        case _ =>
          ran := false;
      }
    }

    /** `<-cp.Pool`, then go on at `at`. */
    method Receive(g: Goroutine, at: Point) returns (ran: bool)
      requires g in threads
      modifies this`pool, this`threads
      ensures ran <==> old(pool) != []
      ensures ran ==> pool == old(pool)[1..] && threads == old(threads)[g := old(threads)[g].(at := at, hand := Some(old(pool)[0]))]
      ensures !ran ==> pool == old(pool) && threads == old(threads)
    {
      ran := pool != [];
      if ran {
        threads := threads[g := threads[g].(at := at, hand := Some(pool[0]))];
        pool := pool[1..];
      }
    }

    /** One statement of the end of Get, of the call on the Composer, or of Put. The goroutine waits
        for nothing but its own script's report, keeps its Composer to itself until it puts it back,
        and touches no other. */
    method Hold(g: Goroutine) returns (ran: bool)
      requires Invariant(Snapshot()) && g in threads && threads[g].hand.Some?
      modifies this
      ensures Invariant(Snapshot()) && Next(old(Snapshot()), Run(g)) == if ran then Some(Snapshot()) else None
      ensures !ran ==> Snapshot() == old(Snapshot())
      ensures !ran <==> old(threads[g].at.Awaiting? && threads[g].script.Running?)
      ensures
        var c := old(threads[g].hand.value);
        && g in threads && composers.Keys == old(composers.Keys)
        && (forall d <- composers :: d != c ==> composers[d] == old(composers)[d])
        && if old(threads[g].at.Replied?)
           then threads[g].at.Done? && pool == old(pool) + [c] && threads[g].reply == threads[g].reported
           else threads[g].hand == Some(c) && pool == old(pool) && OwnsAlone(Snapshot(), g)
    {
      ghost var before := Snapshot();
      HolderOwnsAlone(before, g);
      HolderBlocked(before, g);
      ran := RunHeld(g, threads[g].hand.value);
      if ran {
        StepPreserves(before, Run(g), Snapshot());
        HolderSteps(before, g, before.threads[g].hand.value, Snapshot());
        if threads[g].hand.Some? {
          HolderOwnsAlone(Snapshot(), g);
        }
      }
    }

    /** The statements of a goroutine that has the Composer `c`. */
    method RunHeld(g: Goroutine, c: ComposerId) returns (ran: bool)
      requires g in threads && c in composers
      modifies this
      ensures RunHolding(old(Snapshot()), g, old(threads)[g], c) == if ran then Some(Snapshot()) else None
      ensures !ran ==> Snapshot() == old(Snapshot())
    {
      ran := true;
      var th := threads[g];
      match th.at {
        case Counting =>
          poolCount := poolCount + 1;
          Goto(g, Unlocking);
        case Unlocking =>
          writer := None;
          Goto(g, Got);
        case Got =>
          ran := composers[c].vm.None?;
          if ran {
            composers := composers[c := composers[c].(vm := Some(g))];
            Goto(g, InVM);
          }
        case InVM =>
          composers := composers[c := composers[c].(stub := Some(g))];
          Goto(g, StubSet);
        case StubSet =>
          composers := composers[c := composers[c].(context := Some(g))];
          Goto(g, ContextSet);
        case ContextSet =>
          threads := threads[g := th.(at := InScript, script := Running, seen := composers[c].context)];
        case InScript =>
          composers := composers[c := composers[c].(vm := None)];
          Goto(g, Awaiting);
        case Awaiting =>
          ran := th.channel != [];
          if ran {
            threads := threads[g := th.(at := Replied, reply := Some(th.channel[0]), channel := th.channel[1..])];
          }
        case Replied =>
          ran := |pool| < poolMax;
          if ran {
            pool := pool + [c];
            threads := threads[g := th.(at := Done, hand := None)];
          }
        case _ =>
          ran := false;
      }
    }

    /** Engine.handleCallback, or the ExecError branch of Engine.Invoke. A running script's report is
        always taken, and is then the one thing in the channel of its own call; no other goroutine
        is affected. */
    method HandleCallback(g: Goroutine, r: PoolModel.Report) returns (ran: bool)
      requires Invariant(Snapshot())
      modifies this`threads
      ensures Invariant(Snapshot()) && Next(old(Snapshot()), Action.Report(g, r)) == if ran then Some(Snapshot()) else None
      ensures !ran ==> threads == old(threads)
      ensures ran <==> g in old(threads) && old(threads)[g].script.Running?
      ensures ran ==> g in threads && threads[g].channel == [r] && threads[g].reported == Some(r)
                      && threads == old(threads)[g := threads[g]]
    {
      ghost var before := Snapshot();
      ran := SendReport(g, r);
      if g in before.threads {
        assert ThreadOk(before, g);
        if before.threads[g].script.Running? {
          CanReport(before, g, r);
        }
      }
      if ran {
        StepPreserves(before, Action.Report(g, r), Snapshot());
      }
    }

    /** The statement itself. */
    method SendReport(g: Goroutine, r: PoolModel.Report) returns (ran: bool)
      modifies this`threads
      ensures Deliver(old(Snapshot()), g, r) == if ran then Some(Snapshot()) else None
      ensures !ran ==> Snapshot() == old(Snapshot())
    {
      ran := false;
      if g in threads {
        var th := threads[g];
        if && th.script.Running? && |th.channel| < CALLBACK_SLOTS
           && th.hand.Some? && th.hand.value in composers
           && composers[th.hand.value].vm == (if th.at.InScript? then Some(g) else None)
        {
          threads := threads[g := th.(channel := th.channel + [r], script := Finished, reported := Some(r))];
          ran := true;
        }
      }
    }
  }
}
