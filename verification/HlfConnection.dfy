/** HLFConnection.invokeChainCode and _waitForEvents: the handlers as they run, one callback or
    timer at a time, on the state of one call. */
module HlfConnection {
  import opened Wrappers
  import opened CommitProtocol

  class Invocation {
    const hubCount: nat
    var phase: Phase
    var outcome: Settlement<Error>

    ghost function Snapshot(): Call
      reads this
    {
      Call(hubCount, phase, outcome)
    }

    constructor (eventHubs: nat)
      ensures Snapshot() == Start(eventHubs)
    {
      hubCount := eventHubs;
      phase, outcome := Initializing, Pending;
    }

    method Reject(e: Error)
      requires outcome.Pending?
      modifies this
      ensures Snapshot() == Fail(old(Snapshot()), e)
    {
      phase, outcome := Finished, Rejected(e);
    }

    method OnChannelReady(failure: Option<string>)
      requires phase.Initializing? ==> outcome.Pending?
      modifies this
      ensures Snapshot() == Handle(old(Snapshot()), ChannelReady(failure))
    {
      if phase.Initializing? {
        if failure.Some? {
          Reject(Transport(failure.value));
        } else {
          phase := Endorsing;
        }
      }
    }

    method OnProposed(endorsements: Result<seq<Response>, string>)
      requires phase.Endorsing? ==> outcome.Pending?
      modifies this
      ensures Snapshot() == Handle(old(Snapshot()), Proposed(endorsements))
    {
      if phase.Endorsing? {
        match endorsements {
          case Err(m) =>
            Reject(Transport(m));
          case Ok(responses) =>
            var valid := ValidateResponses(responses, None);
            if valid.Ok? {
              phase := Ordering;
            } else {
              FirstComplaintIsFirst(responses, valid.error);
              Reject(valid.error);
            }
        }
      }
    }

    method OnOrdered(acknowledgement: Result<string, string>)
      requires phase.Ordering? ==> outcome.Pending?
      modifies this
      ensures Snapshot() == Handle(old(Snapshot()), Ordered(acknowledgement))
    {
      if phase.Ordering? {
        match acknowledgement {
          case Err(m) =>
            Reject(Transport(m));
          case Ok(status) =>
            if status != "SUCCESS" {
              Reject(NotOrdered(status));
            } else {
              WaitForEvents();
            }
        }
      }
    }

    /** Registers with every hub and starts its timer; Promise.all of no promises resolves. */
    method WaitForEvents()
      requires outcome.Pending?
      modifies this
      ensures phase == Waiting(NewHubs(hubCount))
      ensures outcome == if hubCount == 0 then Resolved else Pending
    {
      var hubs: seq<Hub> := [];
      for i := 0 to hubCount
        invariant hubs == NewHubs(i)
      {
        hubs := hubs + [Hub(Pending, true, true)];
      }
      phase := Waiting(hubs);
      if hubs == [] {
        outcome := Resolved;
      }
    }

    method OnTxEvent(i: nat, code: string)
      modifies this
      ensures Snapshot() == Handle(old(Snapshot()), TxEvent(i, code))
    {
      if phase.Waiting? && i < |phase.hubs| {
        var h := phase.hubs[i];
        if h.registered {
          h := h.(armed := false);
          h := h.(registered := false);
          if code != "VALID" {
            h := SettleHub(h, Rejected(Invalidated(code)));
          } else {
            h := SettleHub(h, Resolved);
          }
        }
        Store(i, h);
      }
    }

    method OnTimeout(i: nat)
      modifies this
      ensures Snapshot() == Handle(old(Snapshot()), Timeout(i))
    {
      if phase.Waiting? && i < |phase.hubs| {
        var h := phase.hubs[i];
        if h.armed {
          h := SettleHub(h.(armed := false), Rejected(TimedOut));
        }
        Store(i, h);
      }
    }

    /** A promise keeps its first settlement. */
    method SettleHub(h: Hub, s: Settlement<Error>) returns (r: Hub)
      ensures r == h.(promise := if h.promise.Pending? then s else h.promise)
    {
      r := h;
      if h.promise.Pending? {
        r := h.(promise := s);
      }
    }

    /** Promise.all: the first rejection settles it, or the last resolution. */
    method Store(i: nat, h: Hub)
      requires phase.Waiting? && i < |phase.hubs|
      modifies this
      ensures Snapshot() == SetHub(old(Snapshot()), i, h)
    {
      var hubs := phase.hubs[i := h];
      phase := Waiting(hubs);
      if outcome.Pending? {
        if h.promise.Rejected? {
          outcome := h.promise;
        } else {
          var all := true;
          for k := 0 to |hubs|
            invariant all <==> forall j :: 0 <= j < k ==> hubs[j].promise.Resolved?
          {
            if !hubs[k].promise.Resolved? {
              all := false;
            }
          }
          assert all <==> forall x <- hubs :: x.promise.Resolved?;
          if all {
            outcome := Resolved;
          }
        }
      }
    }
  }

  lemma {:induction false} FirstComplaintIsFirst(responses: seq<Response>, e: Error)
    requires !Endorsed(responses)
    requires responses == [] ==> e == NoResults
    requires forall i :: FirstUnacceptable(responses, i, None) ==> e == Complaint(responses[i])
    ensures e == FirstComplaint(responses)
  {
    if responses != [] {
      var rest := responses[1..];
      assert responses == [responses[0]] + rest;
      if !Acceptable(responses[0], None) {
        assert FirstUnacceptable(responses, 0, None);
      } else {
        assert rest != [] by {
          assert exists x <- responses :: !Acceptable(x, None);
        }
        forall i | FirstUnacceptable(rest, i, None)
          ensures e == Complaint(rest[i])
        {
          assert FirstUnacceptable(responses, i + 1, None);
        }
        FirstComplaintIsFirst(rest, e);
      }
    }
  }
}
