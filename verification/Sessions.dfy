/** A connector server and the proxy connection manager at the other end of its socket.

    Requests and completions of backend calls arrive in any order; what the server sends
    travels in order.  A step is one run of a handler to completion. */
module Sessions {
  import opened Wrappers

  type Id = nat            // uuid.v4(): never issued twice
  type Request = nat
  type Backend = nat       // a connection object of the underlying connector
  type Event = string

  datatype Reply = Failed | Connected(id: Id) | LoggedIn(context: Id) | Succeeded

  datatype Message = Ack(request: Request, reply: Reply) | Raised(id: Id, event: Event)

  /** A backend call that has not resolved or rejected yet. */
  datatype Outstanding = Connecting | Disconnecting | LoggingIn(id: Id, backend: Backend) | Calling

  /** What the server has done so far, for stating what it may do. */
  datatype History = History(
    requested: set<Request>,
    issued: set<Id>,
    retired: set<Id>,
    called: seq<Id>,                 // the IDs that backend calls were made under
    owner: map<Backend, Id>,         // the ID a connection object was issued under
    logins: map<Id, nat>,            // completed logins
    expected: map<Id, seq<Event>>)   // every event raised, once per login completed before it

  datatype Server = Server(
    connections: map<Id, Backend>,
    contexts: set<Id>,
    listeners: map<Backend, seq<Id>>,        // on each connection object: the ID each listener emits under
    outstanding: map<Request, Outstanding>,
    nextId: Id,
    nextBackend: Backend,
    history: History)

  /** The client: requests answered, one 'events' filter per connection made, and what each
      proxy connection has emitted. */
  datatype Client = Client(answers: seq<Request>, filters: seq<Id>, delivered: map<Id, seq<Event>>)

  datatype System = System(server: Server, wire: seq<Message>, client: Client)

  const NO_HISTORY := History({}, {}, {}, [], map[], map[], map[])

  function Initial(): System {
    System(Server(map[], {}, map[], map[], 0, 0, NO_HISTORY), [], Client([], [], map[]))
  }

  datatype Action =
    | Connect(request: Request)
    | Disconnect(request: Request, id: Id)
    | Login(request: Request, id: Id)
    | Call(request: Request, id: Id, context: Id)
    | Resolve(request: Request)
    | Reject(request: Request)
    | Raise(backend: Backend, event: Event)
    | Receive                        // the client handles the next message

  predicate IsRequest(a: Action) {
    a.Connect? || a.Disconnect? || a.Login? || a.Call?
  }

  function Get<T>(m: map<Id, seq<T>>, id: Id): seq<T> {
    if id in m then m[id] else []
  }

  function Count(m: map<Id, nat>, id: Id): nat {
    if id in m then m[id] else 0
  }

  function Repeat<T>(x: T, n: nat): (r: seq<T>)
    ensures |r| == n && forall y <- r :: y == x
  {
    seq(n, _ => x)
  }

  function Messages(ids: seq<Id>, e: Event): (r: seq<Message>)
    ensures |r| == |ids| && forall i :: 0 <= i < |ids| ==> r[i] == Raised(ids[i], e)
  {
    seq(|ids|, i requires 0 <= i < |ids| => Raised(ids[i], e))
  }

  // ----- The server -----

  /** A request handler up to its backend call, or its error reply. */
  function Handle(s: Server, a: Action): (Server, seq<Message>)
    requires IsRequest(a)
  {
    var h := s.history.(requested := s.history.requested + {a.request});
    match a
    case Connect(r) => (s.(outstanding := s.outstanding[r := Connecting], history := h), [])
    case Disconnect(r, id) =>
      if id !in s.connections then (s.(history := h), [Ack(r, Failed)])
      else (s.(connections := s.connections - {id}, outstanding := s.outstanding[r := Disconnecting],
               history := h.(retired := h.retired + {id}, called := h.called + [id])), [])
    case Login(r, id) =>
      if id !in s.connections then (s.(history := h), [Ack(r, Failed)])
      else (s.(outstanding := s.outstanding[r := LoggingIn(id, s.connections[id])], history := h.(called := h.called + [id])), [])
    case Call(r, id, context) =>
      if id !in s.connections || context !in s.contexts then (s.(history := h), [Ack(r, Failed)])
      else (s.(outstanding := s.outstanding[r := Calling], history := h.(called := h.called + [id])), [])
  }

  /** What a handler does once its backend call has resolved. */
  function Complete(s: Server, o: Outstanding, r: Request): (Server, seq<Message>) {
    var h, done := s.history, s.outstanding - {r};
    match o
    case Connecting =>
      var id, b := s.nextId, s.nextBackend;
      (s.(connections := s.connections[id := b], nextId := id + 1, nextBackend := b + 1, listeners := s.listeners[b := []],
          outstanding := done, history := h.(issued := h.issued + {id}, owner := h.owner[b := id])),
       [Ack(r, Connected(id))])
    case LoggingIn(id, b) =>
      var context := s.nextId;
      (s.(contexts := s.contexts + {context}, nextId := context + 1, listeners := s.listeners[b := Get(s.listeners, b) + [id]],
          outstanding := done, history := h.(logins := h.logins[id := Count(h.logins, id) + 1])),
       [Ack(r, LoggedIn(context))])
    case Disconnecting => (s.(outstanding := done), [Ack(r, Succeeded)])
    case Calling => (s.(outstanding := done), [Ack(r, Succeeded)])
  }

  function Emit(s: Server, b: Backend, e: Event): (Server, seq<Message>)
    requires b in s.listeners && b in s.history.owner
  {
    var id := s.history.owner[b];
    (s.(history := s.history.(expected :=
          s.history.expected[id := Get(s.history.expected, id) + Repeat(e, Count(s.history.logins, id))])),
     Messages(s.listeners[b], e))
  }

  /** One handler run on the server and what it sends, or None if it cannot happen. */
  function ServerStep(s: Server, a: Action): Option<(Server, seq<Message>)> {
    if IsRequest(a) then
      if a.request in s.history.requested then None else Some(Handle(s, a))
    else
      match a
      case Resolve(r) => if r in s.outstanding then Some(Complete(s, s.outstanding[r], r)) else None
      case Reject(r) => if r in s.outstanding then Some((s.(outstanding := s.outstanding - {r}), [Ack(r, Failed)])) else None
      case Raise(b, e) => if b in s.listeners && b in s.history.owner then Some(Emit(s, b, e)) else None
      case _ => None
  }

  // ----- The client -----

  /** Every filter sees every message and passes on what carries its own ID. */
  function Dispatch(delivered: map<Id, seq<Event>>, filters: seq<Id>, id: Id, e: Event): map<Id, seq<Event>>
    decreases |filters|
  {
    if filters == [] then delivered
    else
      Dispatch(if filters[0] == id then delivered[id := Get(delivered, id) + [e]] else delivered, filters[1..], id, e)
  }

  function ClientStep(c: Client, m: Message): Client {
    match m
    case Ack(r, reply) => c.(answers := c.answers + [r], filters := if reply.Connected? then c.filters + [reply.id] else c.filters)
    case Raised(id, e) => c.(delivered := Dispatch(c.delivered, c.filters, id, e))
  }

  // ----- Both -----

  function Next(s: System, a: Action): Option<System> {
    if a.Receive? then
      if s.wire == [] then None else Some(System(s.server, s.wire[1..], ClientStep(s.client, s.wire[0])))
    else
      match ServerStep(s.server, a)
      case None => None
      case Some((server, sent)) => Some(System(server, s.wire + sent, s.client))
  }

  function Execute(s: System, actions: seq<Action>): Option<System>
    decreases |actions|
  {
    if actions == [] then Some(s)
    else match Next(s, actions[0])
      case None => None
      case Some(t) => Execute(t, actions[1..])
  }

  ghost predicate Reachable(s: System) {
    exists actions: seq<Action> :: Execute(Initial(), actions) == Some(s)
  }
}
