/** The chaincode execution core as a transition system.

    Any number of goroutines run `Chaincode.Init`/`Invoke`: each takes a Composer from the
    shared pool, runs one JavaScript call on it and puts it back.  `Point` names every place in
    that code at which another goroutine can be scheduled, and `Next` is what the statement at
    that place does to the shared state.  A step that Go would block on is `None`. */
module PoolModel {
  import opened Wrappers

  type Goroutine = nat
  type ComposerId = nat

  /** What one JavaScript call reports: an error, a JSON result, or neither. */
  datatype Report = Failed(message: string) | Returned(json: string) | Nothing

  datatype Point =
    | Start             // RLock
    | Checking          // compare PoolCount under the read lock
    | LeavingLow        // RUnlock, there was room
    | LeavingHigh       // RUnlock, the pool was full
    | WantLock          // Lock: join the writers
    | Announced         // Lock: readers held off, waiting for them to leave
    | Rechecking        // compare PoolCount under the write lock
    | Creating          // NewComposer and its Index
    | Counting          // PoolCount++
    | RecvLocked        // channel receive, write lock still held
    | Unlocking         // return, running the deferred Unlock
    | Recv              // channel receive
    | Got               // vm.Lock
    | InVM              // setStub
    | StubSet           // NewContext
    | ContextSet        // Engine.Invoke up to PcallProp
    | InScript          // PcallProp running, then vm.Unlock
    | Awaiting          // receive from the callback channel
    | Replied           // deferred Put
    | Done

  datatype Script = Idle | Running | Finished

  /** A goroutine: where it is, the Composer in its hands, and its one JavaScript call with the
      one-slot callback channel, the owner of the context the script was handed, what the
      script reported and what the goroutine received. */
  datatype Thread = Thread(
    at: Point, hand: Option<ComposerId>,
    channel: seq<Report>, script: Script, seen: Option<Goroutine>, reported: Option<Report>, reply: Option<Report>)

  /** A Composer: its pool index, the stub its logging service holds, the call whose context
      is in the VM's global stash, and the holder of the VM lock. */
  datatype Composer = Composer(index: nat, stub: Option<Goroutine>, context: Option<Goroutine>, vm: Option<Goroutine>)

  datatype State = State(
    max: nat,                       // PoolMax, also the channel's capacity
    count: nat,                     // PoolCount
    pool: seq<ComposerId>,          // the buffered channel
    readers: set<Goroutine>,        // holders of the read lock
    announced: Option<Goroutine>,   // the writer waiting for readers to leave
    writer: Option<Goroutine>,      // holder of the write lock
    heap: map<ComposerId, Composer>,// every Composer ever created
    next: ComposerId,               // the next object identity
    threads: map<Goroutine, Thread>)

  const CALLBACK_SLOTS: nat := 1

  const NEW_THREAD := Thread(Start, None, [], Idle, None, None, None)

  function Initial(max: nat): State {
    State(max, 0, [], {}, None, None, map[], 0, map[])
  }

  datatype Action =
    | Spawn(g: Goroutine)                     // Fabric delivers another transaction
    | Run(g: Goroutine)                       // g executes its next statement
    | Report(g: Goroutine, report: Report)    // g's script calls the callback
    | Throw(g: Goroutine, message: string)    // g's script throws out of PcallProp

  function Put(s: State, g: Goroutine, th: Thread): State {
    s.(threads := s.threads[g := th])
  }

  /** One scheduler step, or None if the action is not possible in `s`. */
  function Next(s: State, a: Action): (r: Option<State>)
    ensures r.Some? ==> (a.g in r.value.threads && r.value.threads == s.threads[a.g := r.value.threads[a.g]] && r.value.max == s.max)
  {
    match a
    case Spawn(g) => if g in s.threads then None else Some(Put(s, g, NEW_THREAD))
    case Run(g) =>
      if g !in s.threads then None
      else if s.threads[g].hand.None? then RunPool(s, g, s.threads[g])
      else if s.threads[g].hand.value !in s.heap then None
      else RunHolding(s, g, s.threads[g], s.threads[g].hand.value)
    case Report(g, r) => Deliver(s, g, r)
    case Throw(g, m) => if g in s.threads && s.threads[g].at.InScript? then Deliver(s, g, Failed(m)) else None
  }

  /** ComposerPool.Get, up to the point where the goroutine has a Composer. */
  function RunPool(s: State, g: Goroutine, th: Thread): (r: Option<State>)
    ensures r.Some? ==> (g in r.value.threads && r.value.threads == s.threads[g := r.value.threads[g]] && r.value.max == s.max)
  {
    match th.at
    case Start =>
      // A waiting writer holds off new readers.
      if s.writer.None? && s.announced.None?
      then Some(Put(s, g, th.(at := Checking)).(readers := s.readers + {g})) else None
    case Checking => Some(Put(s, g, th.(at := if s.count < s.max then LeavingLow else LeavingHigh)))
    case LeavingLow => Some(Put(s, g, th.(at := WantLock)).(readers := s.readers - {g}))
    case LeavingHigh => Some(Put(s, g, th.(at := Recv)).(readers := s.readers - {g}))
    case WantLock =>
      if s.writer.None? && s.announced.None?
      then Some(Put(s, g, th.(at := Announced)).(announced := Some(g))) else None
    case Announced =>
      if s.readers == {}
      then Some(Put(s, g, th.(at := Rechecking)).(announced := None, writer := Some(g))) else None
    case Rechecking => Some(Put(s, g, th.(at := if s.count < s.max then Creating else RecvLocked)))
    case Creating =>
      Some(Put(s, g, th.(at := Counting, hand := Some(s.next))).(
           heap := s.heap[s.next := Composer(s.count, None, None, None)], next := s.next + 1))
    case RecvLocked =>
      if s.pool == [] then None
      else Some(Put(s, g, th.(at := Unlocking, hand := Some(s.pool[0]))).(pool := s.pool[1..]))
    case Recv =>
      if s.pool == [] then None
      else Some(Put(s, g, th.(at := Got, hand := Some(s.pool[0]))).(pool := s.pool[1..]))
    case _ => None
  }

  /** The rest of Get, Composer.Invoke with Engine.Invoke, and ComposerPool.Put. */
  function RunHolding(s: State, g: Goroutine, th: Thread, c: ComposerId): (r: Option<State>)
    requires c in s.heap
    ensures r.Some? ==> (g in r.value.threads && r.value.threads == s.threads[g := r.value.threads[g]] && r.value.max == s.max)
  {
    var composer := s.heap[c];
    match th.at
    case Counting => Some(Put(s, g, th.(at := Unlocking)).(count := s.count + 1))
    case Unlocking => Some(Put(s, g, th.(at := Got)).(writer := None))
    case Got =>
      if composer.vm.None?
      then Some(Put(s, g, th.(at := InVM)).(heap := s.heap[c := composer.(vm := Some(g))])) else None
    case InVM => Some(Put(s, g, th.(at := StubSet)).(heap := s.heap[c := composer.(stub := Some(g))]))
    case StubSet => Some(Put(s, g, th.(at := ContextSet)).(heap := s.heap[c := composer.(context := Some(g))]))
    case ContextSet =>
      // The context handed to the script is whatever the stash holds.
      Some(Put(s, g, th.(at := InScript, script := Running, seen := composer.context)))
    case InScript => Some(Put(s, g, th.(at := Awaiting)).(heap := s.heap[c := composer.(vm := None)]))
    case Awaiting =>
      if th.channel == [] then None
      else Some(Put(s, g, th.(at := Replied, reply := Some(th.channel[0]), channel := th.channel[1..])))
    case Replied =>
      if |s.pool| < s.max
      then Some(Put(s, g, th.(at := Done, hand := None)).(pool := s.pool + [c])) else None
    case _ => None
  }

  /** The script's single report enters the callback channel: synchronously while the script
      runs inside PcallProp, or later from a timer that takes the VM lock itself. */
  function Deliver(s: State, g: Goroutine, report: Report): (r: Option<State>)
    ensures r.Some? ==> (g in s.threads && g in r.value.threads && r.value == s.(threads := s.threads[g := r.value.threads[g]]))
    ensures r.Some? ==> (r.value.threads[g].at == s.threads[g].at && r.value.threads[g].hand == s.threads[g].hand)
  {
    if g !in s.threads then None
    else
      var th := s.threads[g];
      if && th.script.Running? && |th.channel| < CALLBACK_SLOTS
         && th.hand.Some? && th.hand.value in s.heap
         && s.heap[th.hand.value].vm == (if th.at.InScript? then Some(g) else None)
      then Some(Put(s, g, th.(channel := th.channel + [report], script := Finished, reported := Some(report))))
      else None
  }

  /** A whole run: None if some action is not possible when its turn comes. */
  function Execute(s: State, actions: seq<Action>): Option<State>
    decreases |actions|
  {
    if actions == [] then Some(s)
    else match Next(s, actions[0])
      case None => None
      case Some(t) => Execute(t, actions[1..])
  }

  ghost predicate Reachable(max: nat, s: State) {
    exists actions: seq<Action> :: Execute(Initial(max), actions) == Some(s)
  }
}
