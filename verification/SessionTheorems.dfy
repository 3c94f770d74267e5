/** What every run of the remote session protocol keeps. */
module SessionTheorems {
  import opened Wrappers
  import opened Collections
  import opened Sessions

  // ----- The server's tables -----

  /** The connection table holds exactly the IDs issued and not yet disconnected. */
  ghost predicate Tables(s: Server) {
    && s.connections.Keys == s.history.issued - s.history.retired
    && s.history.retired <= s.history.issued
    && (forall id <- s.history.issued :: id < s.nextId)
    && (forall id <- s.connections :: s.connections[id] in s.history.owner && s.history.owner[s.connections[id]] == id)
  }

  /** Every connection object belongs to one ID and has one listener per completed login, all
      emitting under that ID. */
  ghost predicate Listening(s: Server) {
    && s.listeners.Keys == s.history.owner.Keys
    && (forall b <- s.listeners :: b < s.nextBackend)
    && (forall b <- s.listeners :: s.listeners[b] == Repeat(s.history.owner[b], Count(s.history.logins, s.history.owner[b])))
  }

  ghost predicate Owners(s: Server) {
    && (forall b <- s.history.owner :: s.history.owner[b] in s.history.issued)
    && (forall b <- s.history.owner, c <- s.history.owner :: s.history.owner[b] == s.history.owner[c] ==> b == c)
    && (forall id <- s.history.logins :: id in s.history.issued)
  }

  ghost predicate LoggingInOk(s: Server) {
    forall r <- s.outstanding :: s.outstanding[r].LoggingIn? ==>
      s.outstanding[r].backend in s.history.owner && s.history.owner[s.outstanding[r].backend] == s.outstanding[r].id
  }

  /** No security context is handed out twice. */
  ghost predicate ContextsOk(s: Server) {
    forall context <- s.contexts :: context < s.nextId
  }

  ghost predicate ServerOk(s: Server) {
    Tables(s) && Listening(s) && Owners(s) && LoggingInOk(s) && ContextsOk(s)
  }

  /** The only steps that touch the listeners: a connect or a login that completes. */
  predicate Quiet(s: Server, a: Action) {
    a.Resolve? && a.request in s.outstanding ==> !s.outstanding[a.request].Connecting? && !s.outstanding[a.request].LoggingIn?
  }

  lemma QuietStep(s: Server, a: Action, t: Server, sent: seq<Message>)
    requires ServerStep(s, a) == Some((t, sent)) && Quiet(s, a)
    ensures t.listeners == s.listeners && t.nextBackend == s.nextBackend && t.nextId == s.nextId
    ensures t.history.owner == s.history.owner && t.history.logins == s.history.logins && t.history.issued == s.history.issued
    ensures if a.Disconnect? && a.id in s.connections
            then t.connections == s.connections - {a.id} && t.history.retired == s.history.retired + {a.id}
            else t.connections == s.connections && t.history.retired == s.history.retired
  {
  }

  lemma ConnectPreserves(s: Server, r: Request)
    requires ServerOk(s)
    ensures var t := Complete(s, Connecting, r).0; Tables(t) && Listening(t) && Owners(t)
  {
  }

  lemma LoginPreserves(s: Server, id: Id, b: Backend, r: Request)
    requires ServerOk(s) && b in s.history.owner && s.history.owner[b] == id
    ensures var t := Complete(s, LoggingIn(id, b), r).0; Tables(t) && Listening(t) && Owners(t)
  {
    var t := Complete(s, LoggingIn(id, b), r).0;
    forall c | c in t.listeners
      ensures t.listeners[c] == Repeat(t.history.owner[c], Count(t.history.logins, t.history.owner[c]))
    {
    }
  }

  /** Connection objects keep their IDs. */
  lemma OwnersKept(s: Server, a: Action, t: Server, sent: seq<Message>)
    requires Listening(s) && ServerStep(s, a) == Some((t, sent))
    ensures forall b <- s.history.owner :: b in t.history.owner && t.history.owner[b] == s.history.owner[b]
  {
  }

  lemma OutstandingStep(s: Server, a: Action, t: Server, sent: seq<Message>)
    requires ServerStep(s, a) == Some((t, sent))
    ensures forall r <- t.outstanding :: t.outstanding[r].LoggingIn? ==>
              || (r in s.outstanding && t.outstanding[r] == s.outstanding[r])
              || (t.outstanding[r].id in s.connections && t.outstanding[r].backend == s.connections[t.outstanding[r].id])
  {
  }

  lemma LoggingInPreserved(s: Server, a: Action, t: Server, sent: seq<Message>)
    requires LoggingInOk(s) && Tables(s) && Listening(s) && ServerStep(s, a) == Some((t, sent))
    ensures LoggingInOk(t)
  {
    OwnersKept(s, a, t, sent);
    OutstandingStep(s, a, t, sent);
  }

  lemma ContextsPreserved(s: Server, a: Action, t: Server, sent: seq<Message>)
    requires ContextsOk(s) && ServerStep(s, a) == Some((t, sent))
    ensures ContextsOk(t) && s.contexts <= t.contexts
  {
  }

  lemma ServerPreserved(s: Server, a: Action, t: Server, sent: seq<Message>)
    requires ServerOk(s) && ServerStep(s, a) == Some((t, sent))
    ensures ServerOk(t)
  {
    LoggingInPreserved(s, a, t, sent);
    ContextsPreserved(s, a, t, sent);
    if Quiet(s, a) {
      QuietStep(s, a, t, sent);
    } else if s.outstanding[a.request].Connecting? {
      ConnectPreserves(s, a.request);
    } else {
      LoginPreserves(s, s.outstanding[a.request].id, s.outstanding[a.request].backend, a.request);
    }
  }

  predicate IsLive(s: Server, id: Id) {
    id in s.history.issued && id !in s.history.retired
  }

  /** The answer to a resolved call, and that only a connect makes an ID live, one that never was. */
  lemma ResolveAnswers(s: Server, r: Request, t: Server, sent: seq<Message>)
    requires ServerOk(s) && r in s.outstanding && ServerStep(s, Resolve(r)) == Some((t, sent))
    ensures |sent| == 1 && sent[0].Ack? && sent[0].request == r && sent[0].reply != Failed
    ensures sent[0].reply.Connected? <==> s.outstanding[r].Connecting?
    ensures sent[0].reply.Connected? ==> sent[0].reply.id !in s.history.issued
    ensures forall id :: IsLive(t, id) <==> IsLive(s, id) || sent[0].reply == Connected(id)
  {
  }

  /** Only a login adds a security context: the one it answers with, which is new. */
  lemma ResolveContexts(s: Server, r: Request, t: Server, sent: seq<Message>)
    requires ServerOk(s) && r in s.outstanding && ServerStep(s, Resolve(r)) == Some((t, sent))
    ensures s.outstanding[r].LoggingIn? ==>
              && |sent| == 1 && sent[0].Ack? && sent[0].reply.LoggedIn? && sent[0].reply.context !in s.contexts
              && t.contexts == s.contexts + {sent[0].reply.context}
    ensures !s.outstanding[r].LoggingIn? ==> t.contexts == s.contexts
  {
  }

  /** Only a login adds a listener: one, on its own connection object, under that object's ID. */
  lemma ResolveListens(s: Server, r: Request, t: Server, sent: seq<Message>)
    requires ServerOk(s) && r in s.outstanding && ServerStep(s, Resolve(r)) == Some((t, sent))
    ensures forall b <- s.listeners ::
              b in s.history.owner && b in t.listeners &&
              t.listeners[b] == s.listeners[b] +
                if s.outstanding[r].LoggingIn? && b == s.outstanding[r].backend then [s.history.owner[b]] else []
  {
  }

  // ----- What is on the wire -----

  function Acks(wire: seq<Message>): seq<Request>
    decreases |wire|
  {
    if wire == [] then [] else (if wire[0].Ack? then [wire[0].request] else []) + Acks(wire[1..])
  }

  /** The connection IDs the client is about to learn. */
  function NewIds(wire: seq<Message>): seq<Id>
    decreases |wire|
  {
    if wire == [] then []
    else (if wire[0].Ack? && wire[0].reply.Connected? then [wire[0].reply.id] else []) + NewIds(wire[1..])
  }

  function Events(wire: seq<Message>, id: Id): seq<Event>
    decreases |wire|
  {
    if wire == [] then [] else (if wire[0].Raised? && wire[0].id == id then [wire[0].event] else []) + Events(wire[1..], id)
  }

  /** Nothing is emitted under an ID before the client has been told of it. */
  predicate Announced(known: set<Id>, wire: seq<Message>)
    decreases |wire|
  {
    wire != [] ==>
      match wire[0]
      case Ack(_, reply) => Announced(if reply.Connected? then known + {reply.id} else known, wire[1..])
      case Raised(id, _) => id in known && Announced(known, wire[1..])
  }

  lemma {:induction false} AcksConcat(a: seq<Message>, b: seq<Message>)
    ensures Acks(a + b) == Acks(a) + Acks(b)
    decreases |a|
  {
    if a == [] {
      assert a + b == b;
    } else {
      assert (a + b)[0] == a[0] && (a + b)[1..] == a[1..] + b;
      AcksConcat(a[1..], b);
    }
  }

  lemma {:induction false} NewIdsConcat(a: seq<Message>, b: seq<Message>)
    ensures NewIds(a + b) == NewIds(a) + NewIds(b)
    decreases |a|
  {
    if a == [] {
      assert a + b == b;
    } else {
      assert (a + b)[0] == a[0] && (a + b)[1..] == a[1..] + b;
      NewIdsConcat(a[1..], b);
    }
  }

  lemma {:induction false} EventsConcat(a: seq<Message>, b: seq<Message>, id: Id)
    ensures Events(a + b, id) == Events(a, id) + Events(b, id)
    decreases |a|
  {
    if a == [] {
      assert a + b == b;
    } else {
      assert (a + b)[0] == a[0] && (a + b)[1..] == a[1..] + b;
      EventsConcat(a[1..], b, id);
    }
  }

  lemma WireConcat(a: seq<Message>, b: seq<Message>, id: Id)
    ensures Acks(a + b) == Acks(a) + Acks(b)
    ensures NewIds(a + b) == NewIds(a) + NewIds(b)
    ensures Events(a + b, id) == Events(a, id) + Events(b, id)
  {
    AcksConcat(a, b);
    NewIdsConcat(a, b);
    EventsConcat(a, b, id);
  }

  lemma {:induction false} AnnouncedConcat(known: set<Id>, a: seq<Message>, b: seq<Message>)
    requires Announced(known, a) && Announced(known + ToSet(NewIds(a)), b)
    ensures Announced(known, a + b)
    decreases |a|
  {
    if a == [] {
      assert a + b == b && known + ToSet(NewIds(a)) == known;
    } else {
      assert (a + b)[0] == a[0] && (a + b)[1..] == a[1..] + b;
      var next := if a[0].Ack? && a[0].reply.Connected? then known + {a[0].reply.id} else known;
      assert next + ToSet(NewIds(a[1..])) == known + ToSet(NewIds(a));
      AnnouncedConcat(next, a[1..], b);
    }
  }

  lemma {:induction false} MessagesOnWire(known: set<Id>, ids: seq<Id>, e: Event, owner: Id, id: Id)
    requires forall x <- ids :: x == owner
    ensures Acks(Messages(ids, e)) == [] && NewIds(Messages(ids, e)) == []
    ensures Events(Messages(ids, e), id) == if id == owner then Repeat(e, |ids|) else []
    ensures owner in known ==> Announced(known, Messages(ids, e))
    decreases |ids|
  {
    if ids != [] {
      assert ids[0] in ids;
      forall x | x in ids[1..]
        ensures x == owner
      {
        assert x in ids;
      }
      assert Messages(ids, e)[1..] == Messages(ids[1..], e);
      MessagesOnWire(known, ids[1..], e, owner, id);
      assert [e] + Repeat(e, |ids| - 1) == Repeat(e, |ids|);
    }
  }

  // ----- Both ends together -----

  /** Requests: each is outstanding, or answered exactly once on the wire or at the client. */
  ghost predicate AnsweredOnce(s: System) {
    var answered := s.client.answers + Acks(s.wire);
    && Distinct(answered)
    && s.server.outstanding.Keys <= s.server.history.requested
    && ToSet(answered) == s.server.history.requested - s.server.outstanding.Keys
  }

  /** Filters: one for every ID the client has been told of. */
  ghost predicate Filtering(s: System) {
    var known := s.client.filters + NewIds(s.wire);
    && Distinct(known)
    && ToSet(known) == s.server.history.issued
    && Announced(ToSet(s.client.filters), s.wire)
  }

  /** Events: what a proxy has emitted and what is under way to it are what was raised. */
  ghost predicate Routed(s: System, id: Id) {
    Get(s.client.delivered, id) + Events(s.wire, id) == Get(s.server.history.expected, id)
  }

  ghost predicate Invariant(s: System) {
    ServerOk(s.server) && AnsweredOnce(s) && Filtering(s) && forall id {:trigger Routed(s, id)} :: Routed(s, id)
  }

  /** What a server step sends: an acknowledgement, a batch of events, or nothing. */
  lemma Sends(s: Server, a: Action, t: Server, sent: seq<Message>)
    requires ServerStep(s, a) == Some((t, sent))
    ensures a.Raise? ==> sent == Messages(s.listeners[a.backend], a.event) && t.outstanding == s.outstanding
                         && t.history.requested == s.history.requested && t.history.issued == s.history.issued
    ensures !a.Raise? ==> t.history.expected == s.history.expected
    ensures !a.Raise? ==>
              t.history.requested == s.history.requested + (if IsRequest(a) then {a.request} else {})
    ensures !a.Raise? && sent == [] ==> a.request !in s.history.requested && t.outstanding.Keys == s.outstanding.Keys + {a.request}
                                        && t.history.issued == s.history.issued
    ensures !a.Raise? && sent != [] ==>
              && |sent| == 1 && sent[0].Ack? && sent[0].request == a.request
              && (if IsRequest(a) then a.request !in s.history.requested && t.outstanding == s.outstanding
                  else a.request in s.outstanding && t.outstanding == s.outstanding - {a.request})
              && (if sent[0].reply.Connected? then sent[0].reply.id == s.nextId && t.history.issued == s.history.issued + {s.nextId}
                  else t.history.issued == s.history.issued)
  {
  }

  lemma ServerStepAnswers(s: System, a: Action, t: System)
    requires AnsweredOnce(s) && Listening(s.server) && !a.Receive? && Next(s, a) == Some(t)
    ensures AnsweredOnce(t)
  {
    var (server, sent) := ServerStep(s.server, a).value;
    Sends(s.server, a, server, sent);
    WireConcat(s.wire, sent, 0);
    if a.Raise? {
      MessagesOnWire({}, s.server.listeners[a.backend], a.event, s.server.history.owner[a.backend], 0);
      assert Acks(t.wire) == Acks(s.wire);
    } else if sent == [] {
      assert Acks(t.wire) == Acks(s.wire);
      assert t.server.history.requested - t.server.outstanding.Keys == s.server.history.requested - s.server.outstanding.Keys;
    } else {
      AnswerOnce(s, server, t, a.request, sent);
    }
  }

  lemma AnswerOnce(s: System, server: Server, t: System, r: Request, sent: seq<Message>)
    requires AnsweredOnce(s) && |sent| == 1 && sent[0].Ack? && sent[0].request == r
    requires t == System(server, s.wire + sent, s.client) && Acks(s.wire + sent) == Acks(s.wire) + Acks(sent)
    requires
      || (r !in s.server.history.requested && server.outstanding == s.server.outstanding
          && server.history.requested == s.server.history.requested + {r})
      || (r in s.server.outstanding && server.outstanding == s.server.outstanding - {r}
          && server.history.requested == s.server.history.requested)
    ensures AnsweredOnce(t)
  {
    var answered := s.client.answers + Acks(s.wire);
    assert Acks(sent) == [r];
    assert t.client.answers + Acks(t.wire) == answered + [r];
    assert r !in ToSet(answered);
    DistinctSnoc(answered, r);
  }

  /** Sending keeps the filters right if what is sent tells the client of the newly issued IDs and
      carries no event under an ID it has not been told of. */
  lemma FiltersAfter(s: System, t: System, sent: seq<Message>)
    requires Filtering(s) && t.client == s.client && t.wire == s.wire + sent
    requires Announced(ToSet(s.client.filters) + ToSet(NewIds(s.wire)), sent)
    requires
      || (NewIds(sent) == [] && t.server.history.issued == s.server.history.issued)
      || (|NewIds(sent)| == 1 && NewIds(sent)[0] !in s.server.history.issued
          && t.server.history.issued == s.server.history.issued + {NewIds(sent)[0]})
    ensures Filtering(t)
  {
    var known := s.client.filters + NewIds(s.wire);
    NewIdsConcat(s.wire, sent);
    AnnouncedConcat(ToSet(s.client.filters), s.wire, sent);
    if NewIds(sent) == [] {
      assert s.client.filters + NewIds(t.wire) == known;
    } else {
      assert s.client.filters + NewIds(t.wire) == known + [NewIds(sent)[0]];
      DistinctSnoc(known, NewIds(sent)[0]);
    }
  }

  lemma ServerStepFilters(s: System, a: Action, t: System)
    requires Invariant(s) && !a.Receive? && Next(s, a) == Some(t)
    ensures Filtering(t)
  {
    var (server, sent) := ServerStep(s.server, a).value;
    Sends(s.server, a, server, sent);
    var told := ToSet(s.client.filters) + ToSet(NewIds(s.wire));
    assert told == ToSet(s.client.filters + NewIds(s.wire));
    if a.Raise? {
      MessagesOnWire(told, s.server.listeners[a.backend], a.event, s.server.history.owner[a.backend], 0);
    }
    FiltersAfter(s, t, sent);
  }

  lemma ServerStepRoutes(s: System, a: Action, t: System, id: Id)
    requires Routed(s, id) && Listening(s.server) && !a.Receive? && Next(s, a) == Some(t)
    ensures Routed(t, id)
  {
    var (server, sent) := ServerStep(s.server, a).value;
    WireConcat(s.wire, sent, id);
    if a.Raise? {
      var owner := s.server.history.owner[a.backend];
      MessagesOnWire({}, s.server.listeners[a.backend], a.event, owner, id);
      RoutedAfter(s, t, id, Events(sent, id));
    } else {
      Sends(s.server, a, server, sent);
      assert Events(sent, id) == [];
      RoutedAfter(s, t, id, []);
    }
  }

  lemma RoutedAfter(s: System, t: System, id: Id, more: seq<Event>)
    requires Routed(s, id) && t.client == s.client
    requires Events(t.wire, id) == Events(s.wire, id) + more
    requires Get(t.server.history.expected, id) == Get(s.server.history.expected, id) + more
    ensures Routed(t, id)
  {
  }

  lemma {:induction false} DispatchOnce(d: map<Id, seq<Event>>, filters: seq<Id>, id: Id, e: Event, other: Id)
    requires Distinct(filters)
    ensures Get(Dispatch(d, filters, id, e), other) == Get(d, other) + (if other == id && id in filters then [e] else [])
    decreases |filters|
  {
    if filters != [] {
      assert filters == [filters[0]] + filters[1..];
      DistinctCons(filters[0], filters[1..]);
      DispatchOnce(if filters[0] == id then d[id := Get(d, id) + [e]] else d, filters[1..], id, e, other);
    }
  }

  lemma ReceiveStep(s: System, t: System)
    requires Invariant(s) && Next(s, Receive) == Some(t)
    ensures Invariant(t)
  {
    ReceiveAnswers(s, t);
    ReceiveFilters(s, t);
    FiltersDistinct(s);
    forall id: Id
      ensures Routed(t, id)
    {
      assert Routed(s, id);
      ReceiveRoutes(s, t, id);
    }
  }

  lemma ReceiveAnswers(s: System, t: System)
    requires AnsweredOnce(s) && Next(s, Receive) == Some(t)
    ensures AnsweredOnce(t)
  {
    assert s.client.answers + Acks(s.wire) == t.client.answers + Acks(t.wire);
  }

  lemma ReceiveFilters(s: System, t: System)
    requires Filtering(s) && Next(s, Receive) == Some(t)
    ensures Filtering(t)
  {
    var m := s.wire[0];
    assert s.client.filters + NewIds(s.wire) == t.client.filters + NewIds(t.wire);
    if m.Ack? && m.reply.Connected? {
      assert ToSet(t.client.filters) == ToSet(s.client.filters) + {m.reply.id};
    }
  }

  lemma ReceiveRoutes(s: System, t: System, id: Id)
    requires Routed(s, id) && Filtering(s) && Distinct(s.client.filters) && Next(s, Receive) == Some(t)
    ensures Routed(t, id)
  {
    var m := s.wire[0];
    if m.Raised? {
      DispatchOnce(s.client.delivered, s.client.filters, m.id, m.event, id);
    }
  }

  lemma FiltersDistinct(s: System)
    requires Filtering(s)
    ensures Distinct(s.client.filters)
  {
    var known := s.client.filters + NewIds(s.wire);
    forall i, j | 0 <= i < j < |s.client.filters|
      ensures s.client.filters[i] != s.client.filters[j]
    {
      assert known[i] != known[j];
    }
  }

  lemma StepPreserves(s: System, a: Action, t: System)
    requires Invariant(s) && Next(s, a) == Some(t)
    ensures Invariant(t)
  {
    if a.Receive? {
      ReceiveStep(s, t);
    } else {
      var (server, sent) := ServerStep(s.server, a).value;
      ServerPreserved(s.server, a, server, sent);
      ServerStepAnswers(s, a, t);
      ServerStepFilters(s, a, t);
      forall id: Id
        ensures Routed(t, id)
      {
        ServerStepRoutes(s, a, t, id);
      }
    }
  }

  lemma {:induction false} RunPreserves(s: System, actions: seq<Action>, t: System)
    requires Invariant(s) && Execute(s, actions) == Some(t)
    ensures Invariant(t)
    decreases |actions|
  {
    if actions != [] {
      StepPreserves(s, actions[0], Next(s, actions[0]).value);
      RunPreserves(Next(s, actions[0]).value, actions[1..], t);
    }
  }

  lemma ReachableInvariant(s: System)
    requires Reachable(s)
    ensures Invariant(s)
  {
    var actions :| Execute(Initial(), actions) == Some(s);
    assert Invariant(Initial());
    RunPreserves(Initial(), actions, s);
  }

  // ----- Main results -----

  /** A request reaches a backend connection only while its ID is issued and not disconnected. */
  lemma CallsReachLiveConnections(s: System, a: Action, t: System)
    requires Reachable(s) && Next(s, a) == Some(t)
    ensures
      || t.server.history.called == s.server.history.called
      || (IsRequest(a) && !a.Connect? && t.server.history.called == s.server.history.called + [a.id]
          && a.id in s.server.history.issued && a.id !in s.server.history.retired)
  {
    ReachableInvariant(s);
    CalledStep(s, a, t);
  }

  lemma {:induction false} ContextsStay(s: System, actions: seq<Action>, t: System)
    requires Execute(s, actions) == Some(t)
    ensures s.server.contexts <= t.server.contexts
    decreases |actions|
  {
    if actions != [] {
      ContextsStep(s, actions[0], Next(s, actions[0]).value);
      ContextsStay(Next(s, actions[0]).value, actions[1..], t);
    }
  }

  lemma ContextsStep(s: System, a: Action, t: System)
    requires Next(s, a) == Some(t)
    ensures s.server.contexts <= t.server.contexts
  {
  }

  /** The answer to a login that resolves, on the wire: a new security context, known from then on. */
  lemma LoginAnswered(s: System, r: Request, u: System)
    requires ServerOk(s.server) && r in s.server.outstanding && s.server.outstanding[r].LoggingIn?
    requires Next(s, Resolve(r)) == Some(u)
    ensures |u.wire| == |s.wire| + 1 && u.wire[|s.wire|].Ack? && u.wire[|s.wire|].request == r && u.wire[|s.wire|].reply.LoggedIn?
    ensures var context := u.wire[|s.wire|].reply.context; context !in s.server.contexts && context in u.server.contexts
  {
    var (server, sent) := ServerStep(s.server, Resolve(r)).value;
    ResolveAnswers(s.server, r, server, sent);
    ResolveContexts(s.server, r, server, sent);
    assert u.wire[|s.wire|] == sent[0];
  }

  /** A new call with a known context on a live ID reaches the backend and is not answered at once. */
  lemma KnownContextPasses(t: System, q: Request, id: Id, context: Id)
    requires Tables(t.server) && IsLive(t.server, id) && context in t.server.contexts && q !in t.server.history.requested
    ensures Passes(t, q, id, context)
  {
  }

  predicate Passes(t: System, q: Request, id: Id, context: Id) {
    var v := Next(t, Call(q, id, context));
    v.Some? && v.value.server.history.called == t.server.history.called + [id]
    && q in v.value.server.outstanding && v.value.wire == t.wire
  }

  predicate NeverDisconnects(actions: seq<Action>, id: Id) {
    forall a <- actions :: a.Disconnect? ==> a.id != id
  }

  lemma LiveStep(s: System, a: Action, t: System, id: Id)
    requires Next(s, a) == Some(t) && IsLive(s.server, id) && !(a.Disconnect? && a.id == id)
    ensures IsLive(t.server, id)
  {
  }

  lemma {:induction false} StaysLive(s: System, actions: seq<Action>, t: System, id: Id)
    requires Execute(s, actions) == Some(t) && IsLive(s.server, id) && NeverDisconnects(actions, id)
    ensures IsLive(t.server, id)
    decreases |actions|
  {
    if actions != [] {
      assert actions[0] in actions;
      LiveStep(s, actions[0], Next(s, actions[0]).value, id);
      StaysLive(Next(s, actions[0]).value, actions[1..], t, id);
    }
  }

  /** In every run: the security context that a login is answered with is new, and an ID that was live
      then stays so until it is disconnected; until then every new call with the two reaches the
      backend and is not refused. */
  lemma LoginOpensCalls(s: System, r: Request, u: System, actions: seq<Action>, t: System, q: Request, id: Id)
    requires Reachable(s) && r in s.server.outstanding && s.server.outstanding[r].LoggingIn?
    requires Next(s, Resolve(r)) == Some(u) && Execute(u, actions) == Some(t)
    requires IsLive(u.server, id) && NeverDisconnects(actions, id) && q !in t.server.history.requested
    ensures |u.wire| == |s.wire| + 1 && u.wire[|s.wire|].Ack? && u.wire[|s.wire|].request == r && u.wire[|s.wire|].reply.LoggedIn?
    ensures var context := u.wire[|s.wire|].reply.context; context !in s.server.contexts && Passes(t, q, id, context)
  {
    ReachableInvariant(s);
    LoginAnswered(s, r, u);
    ContextsStay(u, actions, t);
    StaysLive(u, actions, t, id);
    StepPreserves(s, Resolve(r), u);
    RunPreserves(u, actions, t);
    KnownContextPasses(t, q, id, u.wire[|s.wire|].reply.context);
  }

  lemma {:induction false} HistoryGrows(s: System, actions: seq<Action>, t: System)
    requires Invariant(s) && Execute(s, actions) == Some(t)
    ensures s.server.history.retired <= t.server.history.retired
    ensures |s.server.history.called| <= |t.server.history.called|
    ensures forall k :: |s.server.history.called| <= k < |t.server.history.called| ==>
              t.server.history.called[k] !in s.server.history.retired
    decreases |actions|
  {
    if actions != [] {
      var u := Next(s, actions[0]).value;
      StepPreserves(s, actions[0], u);
      CalledStep(s, actions[0], u);
      HistoryGrows(u, actions[1..], t);
      CalledPrefix(u, actions[1..], t);
    }
  }

  lemma CalledStep(s: System, a: Action, t: System)
    requires Tables(s.server) && Next(s, a) == Some(t)
    ensures s.server.history.retired <= t.server.history.retired
    ensures
      || t.server.history.called == s.server.history.called
      || (IsRequest(a) && !a.Connect? && t.server.history.called == s.server.history.called + [a.id]
          && a.id in s.server.history.issued && a.id !in s.server.history.retired)
  {
  }

  lemma {:induction false} CalledPrefix(s: System, actions: seq<Action>, t: System)
    requires Invariant(s) && Execute(s, actions) == Some(t)
    ensures s.server.history.called <= t.server.history.called
    decreases |actions|
  {
    if actions != [] {
      var u := Next(s, actions[0]).value;
      StepPreserves(s, actions[0], u);
      CalledStep(s, actions[0], u);
      CalledPrefix(u, actions[1..], t);
    }
  }

  /** A disconnected ID never becomes live again, and nothing is ever called under it again. */
  lemma RetiredForever(s: System, actions: seq<Action>, t: System, id: Id)
    requires Reachable(s) && Execute(s, actions) == Some(t) && id in s.server.history.retired
    ensures id !in t.server.connections
    ensures forall k :: |s.server.history.called| <= k < |t.server.history.called| ==> t.server.history.called[k] != id
  {
    ReachableInvariant(s);
    HistoryGrows(s, actions, t);
    RunPreserves(s, actions, t);
  }

  /** Every request is answered at most once, and exactly once when its backend call is over and
      the socket is drained. */
  lemma EveryRequestAnsweredOnce(s: System, r: Request)
    requires Reachable(s)
    ensures multiset(s.client.answers)[r] <= 1
    ensures s.wire == [] ==>
              (multiset(s.client.answers)[r] == 1 <==> r in s.server.history.requested && r !in s.server.outstanding)
  {
    ReachableInvariant(s);
    var answered := s.client.answers + Acks(s.wire);
    DistinctIsOnce(answered);
    assert multiset(answered) == multiset(s.client.answers) + multiset(Acks(s.wire));
    assert r in answered <==> r in ToSet(answered);
    if s.wire == [] {
      assert answered == s.client.answers;
    }
    if r in s.client.answers {
      assert r in answered;
    }
  }

  /** Event routing: what the proxy connection of an ID has emitted is always a prefix of what
      was raised under it, in order, each event as often as logins had completed on that
      connection before it; with the socket drained it is all of it. */
  lemma EventsReachTheirProxy(s: System, id: Id)
    requires Reachable(s)
    ensures Get(s.client.delivered, id) <= Get(s.server.history.expected, id)
    ensures s.wire == [] ==> Get(s.client.delivered, id) == Get(s.server.history.expected, id)
  {
    ReachableInvariant(s);
    assert Routed(s, id);
  }

  /** One event, from a quiet socket: after k completed logins it reaches the proxy connection
      of that ID exactly k times, and no other. */
  lemma OneEventReachesKTimes(s: System, b: Backend, e: Event, t: System, drain: seq<Action>, u: System, id: Id)
    requires Reachable(s) && s.wire == [] && b in s.server.history.owner && Next(s, Raise(b, e)) == Some(t)
    requires (forall a <- drain :: a.Receive?) && Execute(t, drain) == Some(u) && u.wire == []
    ensures Get(u.client.delivered, id) == Get(s.client.delivered, id)
              + (if id == s.server.history.owner[b] then Repeat(e, Count(s.server.history.logins, id)) else [])
  {
    ReachableInvariant(s);
    StepPreserves(s, Raise(b, e), t);
    RunPreserves(t, drain, u);
    DrainKeepsServer(t, drain, u);
    Drained(s, id);
    Drained(u, id);
    RaiseExpects(s, b, e, t, id);
  }

  lemma Drained(s: System, id: Id)
    requires Invariant(s) && s.wire == []
    ensures Get(s.client.delivered, id) == Get(s.server.history.expected, id)
  {
    assert Routed(s, id);
  }

  lemma RaiseExpects(s: System, b: Backend, e: Event, t: System, id: Id)
    requires b in s.server.history.owner && Next(s, Raise(b, e)) == Some(t)
    ensures Get(t.server.history.expected, id) == Get(s.server.history.expected, id)
              + (if id == s.server.history.owner[b] then Repeat(e, Count(s.server.history.logins, id)) else [])
  {
  }

  lemma {:induction false} DrainKeepsServer(t: System, drain: seq<Action>, u: System)
    requires (forall a <- drain :: a.Receive?) && Execute(t, drain) == Some(u)
    ensures u.server == t.server
    decreases |drain|
  {
    if drain != [] {
      DrainKeepsServer(Next(t, drain[0]).value, drain[1..], u);
    }
  }
}
