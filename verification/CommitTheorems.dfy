/** When a submitted transaction settles, and how, over every interleaving of events and timers. */
module CommitTheorems {
  import opened Wrappers
  import opened CommitProtocol

  // ----- What the events alone say -----

  /** Where hub `h` first hears anything: its commit event or its timer. */
  predicate Signals(e: Event, h: nat) {
    (e.TxEvent? || e.Timeout?) && e.hub == h
  }

  function FirstSignal(trace: seq<Event>, h: nat): Option<Event>
    decreases |trace|
  {
    if trace == [] then None
    else if Signals(trace[0], h) then Some(trace[0])
    else FirstSignal(trace[1..], h)
  }

  predicate Good(e: Event) {
    e.TxEvent? && e.code == "VALID"
  }

  function Verdict(signal: Option<Event>): Settlement<Error> {
    match signal
    case None => Pending
    case Some(e) =>
      if Good(e) then Resolved
      else Rejected(if e.TxEvent? then Invalidated(e.code) else TimedOut)
  }

  lemma {:induction false} FirstSignalSnoc(trace: seq<Event>, e: Event, h: nat)
    ensures FirstSignal(trace + [e], h) ==
              if FirstSignal(trace, h).Some? then FirstSignal(trace, h)
              else if Signals(e, h) then Some(e) else None
    decreases |trace|
  {
    if trace == [] {
      assert trace + [e] == [e];
    } else {
      assert (trace + [e])[0] == trace[0] && (trace + [e])[1..] == trace[1..] + [e];
      FirstSignalSnoc(trace[1..], e, h);
    }
  }

  /** The error of the first signal, in the order of arrival, that is the first of its hub and bad. */
  function FirstFailure(trace: seq<Event>, hubCount: nat): Settlement<Error>
    decreases |trace|
  {
    if trace == [] then Pending
    else
      var before, e := trace[..|trace| - 1], trace[|trace| - 1];
      if !FirstFailure(before, hubCount).Pending? then FirstFailure(before, hubCount)
      else if (e.TxEvent? || e.Timeout?) && e.hub < hubCount && FirstSignal(before, e.hub).None? && !Good(e) then Verdict(Some(e))
      else Pending
  }

  predicate NoneRejected(trace: seq<Event>, n: nat) {
    forall h :: 0 <= h < n ==> !Verdict(FirstSignal(trace, h)).Rejected?
  }

  /** The first thing every hub produced, before its timer, was a VALID commit event. */
  predicate AllCommitted(trace: seq<Event>, n: nat) {
    forall h :: 0 <= h < n ==> Verdict(FirstSignal(trace, h)).Resolved?
  }

  /** Fails with the first failure, succeeds once every hub's first signal was a valid commit. */
  function WaitOutcome(trace: seq<Event>, n: nat): Settlement<Error> {
    if !FirstFailure(trace, n).Pending? then FirstFailure(trace, n)
    else if AllCommitted(trace, n) then Resolved
    else Pending
  }

  // ----- The wait -----

  /** The state of the wait is determined by the first signal of each hub. */
  ghost predicate Waits(c: Call, n: nat, trace: seq<Event>) {
    && c.phase.Waiting? && |c.phase.hubs| == n
    && (forall h :: 0 <= h < n ==> HubFollows(c.phase.hubs[h], FirstSignal(trace, h)))
    && c.outcome == WaitOutcome(trace, n)
    && (FirstFailure(trace, n).Pending? <==> NoneRejected(trace, n))
    && !FirstFailure(trace, n).Resolved?
  }

  predicate HubFollows(hub: Hub, signal: Option<Event>) {
    && hub.promise == Verdict(signal)
    && (signal.None? ==> hub.registered && hub.armed)
    && (signal.Some? && signal.value.TxEvent? ==> !hub.registered && !hub.armed)
    && (signal.Some? && signal.value.Timeout? ==> !hub.armed)
  }

  lemma WaitStep(c: Call, n: nat, trace: seq<Event>, e: Event)
    requires Waits(c, n, trace)
    ensures Waits(Handle(c, e), n, trace + [e])
  {
    var d := Handle(c, e);
    assert (trace + [e])[..|trace|] == trace;
    forall h | 0 <= h < n
      ensures HubFollows(d.phase.hubs[h], FirstSignal(trace + [e], h))
      ensures !Signals(e, h) || FirstSignal(trace, h).Some? ==> FirstSignal(trace + [e], h) == FirstSignal(trace, h)
    {
      FirstSignalSnoc(trace, e, h);
    }
  }

  lemma {:induction false} WaitRun(n: nat, c: Call, trace: seq<Event>)
    requires c.phase == Waiting(NewHubs(n)) && c.outcome == if n == 0 then Resolved else Pending
    ensures Waits(Run(c, trace), n, trace)
    decreases |trace|
  {
    if trace == [] {
      assert forall h :: 0 <= h < n ==> FirstSignal(trace, h).None?;
      assert n > 0 ==> !Verdict(FirstSignal(trace, 0)).Resolved?;
    } else {
      var before := trace[..|trace| - 1];
      WaitRun(n, c, before);
      RunSnoc(c, before, trace[|trace| - 1]);
      assert trace == before + [trace[|trace| - 1]];
      WaitStep(Run(c, before), n, before, trace[|trace| - 1]);
    }
  }

  // ----- The whole call -----

  datatype Stage = ReadyStage | ProposalStage | OrderStage

  predicate Answers(e: Event, stage: Stage) {
    match stage
    case ReadyStage => e.ChannelReady?
    case ProposalStage => e.Proposed?
    case OrderStage => e.Ordered?
  }

  /** The first answer of a stage and what comes after it. */
  function FirstAnswer(trace: seq<Event>, stage: Stage): (r: Option<(Event, seq<Event>)>)
    ensures r.Some? ==> Answers(r.value.0, stage)
    decreases |trace|
  {
    if trace == [] then None
    else if Answers(trace[0], stage) then Some((trace[0], trace[1..]))
    else FirstAnswer(trace[1..], stage)
  }

  /** The outcome of a call as the events determine it, read off without running anything: the
      first answer of each stage, then what the hubs say after the orderer's. */
  function CallOutcome(trace: seq<Event>, n: nat): Settlement<Error> {
    match FirstAnswer(trace, ReadyStage)
    case None => Pending
    case Some((ready, rest)) =>
      if ready.failure.Some? then Rejected(Transport(ready.failure.value)) else ProposalOutcome(rest, n)
  }

  function ProposalOutcome(trace: seq<Event>, n: nat): Settlement<Error> {
    match FirstAnswer(trace, ProposalStage)
    case None => Pending
    case Some((proposed, rest)) =>
      match proposed.endorsements
      case Err(m) => Rejected(Transport(m))
      case Ok(responses) =>
        if Endorsed(responses) then OrderOutcome(rest, n) else Rejected(FirstComplaint(responses))
  }

  function OrderOutcome(trace: seq<Event>, n: nat): Settlement<Error> {
    match FirstAnswer(trace, OrderStage)
    case None => Pending
    case Some((ordered, rest)) =>
      match ordered.acknowledgement
      case Err(m) => Rejected(Transport(m))
      case Ok(status) => if status == "SUCCESS" then WaitOutcome(rest, n) else Rejected(NotOrdered(status))
  }

  predicate Awaits(phase: Phase, stage: Stage) {
    match stage
    case ReadyStage => phase.Initializing?
    case ProposalStage => phase.Endorsing?
    case OrderStage => phase.Ordering?
  }

  /** Until its answer comes, nothing else moves a stage. */
  lemma {:induction false} SkipTo(c: Call, trace: seq<Event>, stage: Stage)
    requires Awaits(c.phase, stage)
    ensures match FirstAnswer(trace, stage)
            case None => Run(c, trace) == c
            case Some((e, rest)) => Run(c, trace) == Run(Handle(c, e), rest)
    decreases |trace|
  {
    if trace != [] && !Answers(trace[0], stage) {
      SkipTo(c, trace[1..], stage);
    }
  }

  lemma {:induction false} FinishedStays(c: Call, trace: seq<Event>)
    requires c.phase.Finished?
    ensures Run(c, trace) == c
    decreases |trace|
  {
    if trace != [] {
      FinishedStays(c, trace[1..]);
    }
  }

  lemma OrderAsRead(n: nat, trace: seq<Event>)
    ensures Run(Call(n, Ordering, Pending), trace).outcome == OrderOutcome(trace, n)
  {
    var c := Call(n, Ordering, Pending);
    SkipTo(c, trace, OrderStage);
    if FirstAnswer(trace, OrderStage).Some? {
      var (e, rest) := FirstAnswer(trace, OrderStage).value;
      if Handle(c, e).phase.Finished? {
        FinishedStays(Handle(c, e), rest);
      } else {
        WaitRun(n, Handle(c, e), rest);
      }
    }
  }

  lemma ProposalAsRead(n: nat, trace: seq<Event>)
    ensures Run(Call(n, Endorsing, Pending), trace).outcome == ProposalOutcome(trace, n)
  {
    var c := Call(n, Endorsing, Pending);
    SkipTo(c, trace, ProposalStage);
    if FirstAnswer(trace, ProposalStage).Some? {
      var (e, rest) := FirstAnswer(trace, ProposalStage).value;
      if Handle(c, e).phase.Finished? {
        FinishedStays(Handle(c, e), rest);
      } else {
        OrderAsRead(n, rest);
      }
    }
  }

  /** The protocol does what its events read as, for every trace and any number of hubs. */
  lemma CallSettlesAsRead(n: nat, trace: seq<Event>)
    ensures Run(Start(n), trace).outcome == CallOutcome(trace, n)
  {
    var c := Start(n);
    SkipTo(c, trace, ReadyStage);
    if FirstAnswer(trace, ReadyStage).Some? {
      var (e, rest) := FirstAnswer(trace, ReadyStage).value;
      if Handle(c, e).phase.Finished? {
        FinishedStays(Handle(c, e), rest);
      } else {
        ProposalAsRead(n, rest);
      }
    }
  }

  /** There are answers, and each is a peer's 200. */
  predicate AllEndorsed(responses: seq<Response>) {
    responses != [] && forall x <- responses :: x == PeerAnswer(200)
  }

  /** What follows the orderer's SUCCESS, if the channel came up and every endorsement was a 200. */
  function Waited(trace: seq<Event>): Option<seq<Event>> {
    match FirstAnswer(trace, ReadyStage)
    case None => None
    case Some((ready, a)) =>
      if ready.failure.Some? then None else
      match FirstAnswer(a, ProposalStage)
      case None => None
      case Some((proposed, b)) =>
        if proposed.endorsements.Err? || !AllEndorsed(proposed.endorsements.value) then None else
        match FirstAnswer(b, OrderStage)
        case None => None
        case Some((ordered, rest)) => if ordered.acknowledgement == Ok("SUCCESS") then Some(rest) else None
  }

  /** Commit safety, both ways: a call resolves exactly when every endorsement was a 200, the
      orderer answered SUCCESS, and after that every hub reported VALID before its timer. */
  lemma ResolvesIffCommitted(n: nat, trace: seq<Event>)
    ensures Run(Start(n), trace).outcome.Resolved? <==> Waited(trace).Some? && AllCommitted(Waited(trace).value, n)
  {
    CallSettlesAsRead(n, trace);
    if Waited(trace).Some? {
      FailureIsFirst(Waited(trace).value, n);
    }
  }

  /** A failure is recorded exactly when some hub's first signal is bad. */
  lemma FailureIsFirst(waited: seq<Event>, n: nat)
    ensures !FirstFailure(waited, n).Resolved?
    ensures FirstFailure(waited, n).Pending? <==> NoneRejected(waited, n)
  {
    var c := Call(n, Waiting(NewHubs(n)), if n == 0 then Resolved else Pending);
    WaitRun(n, c, waited);
  }

  /** The outcome settles once: no later event, however late, changes it. */
  lemma {:induction false} OutcomeIsFinal(c: Call, trace: seq<Event>)
    requires !c.outcome.Pending? && (c.phase.Waiting? || c.phase.Finished?)
    ensures Run(c, trace).outcome == c.outcome
    decreases |trace|
  {
    if trace != [] {
      OutcomeIsFinal(Handle(c, trace[0]), trace[1..]);
    }
  }

  lemma {:induction false} SettledPhase(n: nat, trace: seq<Event>)
    ensures var c := Run(Start(n), trace); !c.outcome.Pending? ==> c.phase.Waiting? || c.phase.Finished?
    decreases |trace|
  {
    if trace != [] {
      var before := trace[..|trace| - 1];
      SettledPhase(n, before);
      RunSnoc(Start(n), before, trace[|trace| - 1]);
      assert trace == before + [trace[|trace| - 1]];
    }
  }

  lemma SettlesOnce(n: nat, trace: seq<Event>, later: seq<Event>)
    requires !Run(Start(n), trace).outcome.Pending?
    ensures Run(Start(n), trace + later).outcome == Run(Start(n), trace).outcome
  {
    RunConcat(Start(n), trace, later);
    SettledPhase(n, trace);
    OutcomeIsFinal(Run(Start(n), trace), later);
  }

  /** It does settle: once the wait is reached and every hub has produced an event or a timeout. */
  lemma SettlesOnceAllSignalled(n: nat, trace: seq<Event>)
    requires Waited(trace).Some? && forall h :: 0 <= h < n ==> FirstSignal(Waited(trace).value, h).Some?
    ensures !Run(Start(n), trace).outcome.Pending?
  {
    CallSettlesAsRead(n, trace);
    FailureIsFirst(Waited(trace).value, n);
  }

  /** Without event hubs, as before the first login, an ordered transaction resolves at once. */
  lemma NoHubsNoWait(trace: seq<Event>)
    requires Waited(trace).Some?
    ensures Run(Start(0), trace).outcome.Resolved?
  {
    ResolvesIffCommitted(0, trace);
  }

  // ----- Timers and registrations -----

  /** A hub that is still awaited has its timer and its registration; one that answered has neither,
      and one whose timer fired has no timer. */
  predicate Released(h: Hub) {
    match h.promise
    case Pending => h.registered && h.armed
    case Resolved => !h.registered && !h.armed
    case Rejected(Invalidated(_)) => !h.registered && !h.armed
    case Rejected(e) => e == TimedOut && !h.armed
  }

  predicate AllReleased(c: Call) {
    c.phase.Waiting? ==> |c.phase.hubs| == c.hubCount && forall i :: 0 <= i < |c.phase.hubs| ==> Released(c.phase.hubs[i])
  }

  lemma HandleReleases(c: Call, e: Event)
    requires AllReleased(c)
    ensures AllReleased(Handle(c, e)) && Handle(c, e).hubCount == c.hubCount
  {
    if c.phase.Waiting? && (e.TxEvent? || e.Timeout?) && e.hub < |c.phase.hubs| {
      assert Released(c.phase.hubs[e.hub]);
    }
  }

  lemma {:induction false} RunReleases(c: Call, trace: seq<Event>)
    requires AllReleased(c)
    ensures AllReleased(Run(c, trace)) && Run(c, trace).hubCount == c.hubCount
    decreases |trace|
  {
    if trace != [] {
      HandleReleases(c, trace[0]);
      RunReleases(Handle(c, trace[0]), trace[1..]);
    }
  }

  /** Over every run: one wait for each hub, and no timer or registration outlives a hub's answer. */
  lemma AnsweredHubsReleased(n: nat, trace: seq<Event>)
    ensures
      var c := Run(Start(n), trace);
      c.phase.Waiting? ==> |c.phase.hubs| == n && forall i :: 0 <= i < n ==> Released(c.phase.hubs[i])
  {
    RunReleases(Start(n), trace);
  }
}
