/** Submitting a transaction: endorse, order, then wait for every event hub, with the callbacks
    and timers of that wait in any order. */
module CommitProtocol {
  import opened Wrappers
  import opened Collections

  /** One peer's answer to a proposal, install or instantiate request. */
  datatype Response = PeerError(message: string) | PeerAnswer(status: int)

  datatype Error =
    | NoResults
    | FromPeer(message: string)
    | BadStatus(status: int)
    | NotOrdered(orderStatus: string)
    | Transport(message: string)
    | TimedOut
    | Invalidated(code: string)

  /** A promise: settled at most once. */
  datatype Settlement<+E> = Pending | Resolved | Rejected(error: E)

  // ----- _validateResponses -----

  predicate Acceptable(r: Response, pattern: Option<string -> bool>) {
    match r
    case PeerError(message) => pattern.Some? && pattern.value(message)
    case PeerAnswer(status) => status == 200
  }

  function Complaint(r: Response): Error {
    match r case PeerError(message) => FromPeer(message) case PeerAnswer(status) => BadStatus(status)
  }

  predicate FirstUnacceptable(responses: seq<Response>, i: int, pattern: Option<string -> bool>) {
    0 <= i < |responses| && !Acceptable(responses[i], pattern) && forall j :: 0 <= j < i ==> Acceptable(responses[j], pattern)
  }

  lemma OnlyFirst(responses: seq<Response>, i: int, pattern: Option<string -> bool>)
    requires FirstUnacceptable(responses, i, pattern)
    ensures responses[i] in responses && !Acceptable(responses[i], pattern)
    ensures forall k :: FirstUnacceptable(responses, k, pattern) ==> k == i
  {
  }

  /** Returns whether any error was let through by the pattern; throws on an empty list and
      otherwise on the first response that is neither a 200 nor an error the pattern lets through. */
  method ValidateResponses(responses: seq<Response>, pattern: Option<string -> bool>) returns (r: Result<bool, Error>)
    ensures r.Ok? <==> responses != [] && forall x <- responses ::
              x == PeerAnswer(200) || (x.PeerError? && pattern.Some? && pattern.value(x.message))
    ensures r.Ok? ==> (r.value <==> exists x <- responses :: x.PeerError?)
    ensures responses == [] ==> r == Err(NoResults)
    ensures forall i :: FirstUnacceptable(responses, i, pattern) ==>
              r == Err(if responses[i].PeerError? then FromPeer(responses[i].message) else BadStatus(responses[i].status))
  {
    if |responses| == 0 {
      return Err(NoResults);
    }
    var errorsIgnored := false;
    for i := 0 to |responses|
      invariant forall j :: 0 <= j < i ==> Acceptable(responses[j], pattern)
      invariant errorsIgnored <==> exists j :: 0 <= j < i && responses[j].PeerError?
    {
      match responses[i] {
        case PeerError(message) =>
          if pattern.None? || !pattern.value(message) {
            OnlyFirst(responses, i, pattern);
            return Err(FromPeer(message));
          }
          errorsIgnored := true;
        case PeerAnswer(status) =>
          if status != 200 {
            OnlyFirst(responses, i, pattern);
            return Err(BadStatus(status));
          }
      }
    }
    r := Ok(errorsIgnored);
  }

  // ----- The protocol -----

  /** One hub's promise in _waitForEvents, with its event registration and its timer. */
  datatype Hub = Hub(promise: Settlement<Error>, registered: bool, armed: bool)

  datatype Phase =
    | Initializing
    | Endorsing
    | Ordering
    | Waiting(hubs: seq<Hub>)
    | Finished

  /** What can happen to a call from outside, in any order and any number of times. */
  datatype Event =
    | ChannelReady(failure: Option<string>)
    | Proposed(endorsements: Result<seq<Response>, string>)
    | Ordered(acknowledgement: Result<string, string>)
    | TxEvent(hub: nat, code: string)
    | Timeout(hub: nat)

  datatype Call = Call(hubCount: nat, phase: Phase, outcome: Settlement<Error>)

  function Start(hubCount: nat): Call {
    Call(hubCount, Initializing, Pending)
  }

  function Fail(c: Call, e: Error): Call {
    c.(phase := Finished, outcome := Rejected(e))
  }

  predicate Endorsed(responses: seq<Response>) {
    responses != [] && forall x <- responses :: Acceptable(x, None)
  }

  function FirstComplaint(responses: seq<Response>): Error {
    if responses == [] then NoResults
    else if !Acceptable(responses[0], None) then Complaint(responses[0])
    else FirstComplaint(responses[1..])
  }

  function NewHubs(n: nat): seq<Hub> {
    seq(n, _ => Hub(Pending, true, true))
  }

  /** Promise.all over the hubs. */
  function AwaitAll(outcome: Settlement<Error>, hubs: seq<Hub>, settled: Hub): Settlement<Error> {
    if !outcome.Pending? then outcome
    else if settled.promise.Rejected? then settled.promise
    else if forall h <- hubs :: h.promise.Resolved? then Resolved
    else Pending
  }

  function OnTxEvent(h: Hub, code: string): Hub {
    if !h.registered then h
    else Hub(if h.promise.Pending? then (if code == "VALID" then Resolved else Rejected(Invalidated(code))) else h.promise,
             false, false)
  }

  function OnTimeout(h: Hub): Hub {
    if !h.armed then h
    else h.(promise := if h.promise.Pending? then Rejected(TimedOut) else h.promise, armed := false)
  }

  function SetHub(c: Call, i: nat, h: Hub): Call
    requires c.phase.Waiting? && i < |c.phase.hubs|
  {
    var hubs := c.phase.hubs[i := h];
    c.(phase := Waiting(hubs), outcome := AwaitAll(c.outcome, hubs, h))
  }

  /** What one event does; events that nothing listens for do nothing. */
  function Handle(c: Call, e: Event): Call {
    match e
    case ChannelReady(failure) =>
      if !c.phase.Initializing? then c
      else if failure.Some? then Fail(c, Transport(failure.value))
      else c.(phase := Endorsing)
    case Proposed(answer) =>
      if !c.phase.Endorsing? then c
      else (match answer
            case Err(m) => Fail(c, Transport(m))
            case Ok(responses) =>
              if Endorsed(responses) then c.(phase := Ordering) else Fail(c, FirstComplaint(responses)))
    case Ordered(answer) =>
      if !c.phase.Ordering? then c
      else (match answer
            case Err(m) => Fail(c, Transport(m))
            case Ok(status) =>
              if status != "SUCCESS" then Fail(c, NotOrdered(status))
              else c.(phase := Waiting(NewHubs(c.hubCount)), outcome := if c.hubCount == 0 then Resolved else Pending))
    case TxEvent(i, code) =>
      if c.phase.Waiting? && i < |c.phase.hubs| then SetHub(c, i, OnTxEvent(c.phase.hubs[i], code)) else c
    case Timeout(i) =>
      if c.phase.Waiting? && i < |c.phase.hubs| then SetHub(c, i, OnTimeout(c.phase.hubs[i])) else c
  }

  function Run(c: Call, trace: seq<Event>): Call
    decreases |trace|
  {
    if trace == [] then c else Run(Handle(c, trace[0]), trace[1..])
  }

  lemma {:induction false} RunSnoc(c: Call, trace: seq<Event>, e: Event)
    ensures Run(c, trace + [e]) == Handle(Run(c, trace), e)
    decreases |trace|
  {
    if trace == [] {
      assert trace + [e] == [e];
    } else {
      assert (trace + [e])[1..] == trace[1..] + [e];
      RunSnoc(Handle(c, trace[0]), trace[1..], e);
    }
  }

  lemma {:induction false} RunConcat(c: Call, a: seq<Event>, b: seq<Event>)
    ensures Run(c, a + b) == Run(Run(c, a), b)
    decreases |a|
  {
    if a == [] {
      assert a + b == b;
    } else {
      assert (a + b)[1..] == a[1..] + b;
      RunConcat(Handle(c, a[0]), a[1..], b);
    }
  }
}
