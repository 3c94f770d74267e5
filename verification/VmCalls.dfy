/** Building a context for a call, and handing the call over to JavaScript. */
module VmCalls {
  import opened Wrappers
  import opened VirtualMachine
  import opened VmWrappers

  /** The Go objects made for a call: a context, and services with the call's stub. */
  datatype Owners = Owners(stub: nat, context: nat, dataService: nat, identityService: nat, eventService: nat, httpService: nat)

  function Service(o: Owners, id: nat): GoObject {
    GoObject(id, Some(o.stub))
  }

  const SERVICE_SLOTS := {TheDataService, TheIdentityService, TheEventService, TheHttpService}

  /** The four services are new objects in the stash, each with the methods of its own Go object, which
      has this call's stub. */
  ghost predicate ServicesBuilt(h: Heap, after: Heap, o: Owners)
    requires Loaded(h)
  {
    && Built(h, after, Job(TheDataService, Class(h, DataServiceClass), [], Service(o, o.dataService)), DATA_SERVICE_METHODS)
    && Built(h, after, Job(TheIdentityService, Class(h, IdentityServiceClass), [], Service(o, o.identityService)), IDENTITY_METHODS)
    && BuiltBound(h, after, Job(TheEventService, Class(h, EventServiceClass), [], Service(o, o.eventService)), TransactionCommit)
    && BuiltBound(h, after, Job(TheHttpService, Class(h, HttpServiceClass), [], Service(o, o.httpService)), Post)
  }

  lemma ServicesStay(h: Heap, now: Heap, after: Heap, o: Owners, slots: set<Word>)
    requires Loaded(h) && |h| <= |now| && ServicesBuilt(h, now, o)
    requires OnlyStashed(now, after, slots) && SERVICE_SLOTS !! slots
    ensures ServicesBuilt(h, after, o)
  {
    BuiltStays(h, now, after, Job(TheDataService, Class(h, DataServiceClass), [], Service(o, o.dataService)), DATA_SERVICE_METHODS, slots);
    BuiltStays(h, now, after, Job(TheIdentityService, Class(h, IdentityServiceClass), [], Service(o, o.identityService)), IDENTITY_METHODS, slots);
    BoundStays(h, now, after, Job(TheEventService, Class(h, EventServiceClass), [], Service(o, o.eventService)), TransactionCommit, slots);
    BoundStays(h, now, after, Job(TheHttpService, Class(h, HttpServiceClass), [], Service(o, o.httpService)), Post, slots);
  }

  function ContextJob(h: Heap, owner: GoObject): Job
    requires Loaded(h)
  {
    Job(TheContext, Class(h, ContextClass), [Stash(h, TheEngine)], owner)
  }

  /** The context made for a call, complete, with the services it hands out. */
  ghost predicate ContextBuilt(h: Heap, after: Heap, o: Owners)
    requires Loaded(h)
  {
    && ServicesBuilt(h, after, o)
    && Built(h, after, ContextJob(h, GoObject(o.context, None)), CONTEXT_METHODS)
  }

  lemma ContextStays(h: Heap, now: Heap, more: Heap, o: Owners)
    requires Loaded(h) && |h| <= |now| && ContextBuilt(h, now, o)
    ensures ContextBuilt(h, now + more, o) && Stash(now + more, TheContext) == Stash(now, TheContext)
  {
    assert OnlyStashed(now, now + more, {});
    ServicesStay(h, now, now + more, o, {});
    BuiltStays(h, now, now + more, ContextJob(h, GoObject(o.context, None)), CONTEXT_METHODS, {});
  }

  /** The services do not change what a context is made from. */
  lemma SameContextJob(h: Heap, now: Heap, owner: GoObject)
    requires Loaded(h) && OnlyStashed(h, now, SERVICE_SLOTS)
    ensures Loaded(now) && ContextJob(now, owner) == ContextJob(h, owner)
  {
    StaysLoaded(h, now, SERVICE_SLOTS);
    assert Read(now, Obj(STASH), Prop(TheEngine)) == Read(h, Obj(STASH), Prop(TheEngine));
  }

  lemma ContextComplete(h: Heap, now: Heap, after: Heap, o: Owners)
    requires Loaded(h) && |h| <= |now| && ServicesBuilt(h, now, o) && Done(now, after, ContextJob(h, GoObject(o.context, None)), CONTEXT_METHODS)
    ensures ContextBuilt(h, after, o)
  {
    ServicesStay(h, now, after, o, {TheContext});
    BuiltBefore(h, now, after, ContextJob(h, GoObject(o.context, None)), CONTEXT_METHODS);
  }

  lemma ContextFrame(h: Heap, now: Heap, after: Heap)
    requires Loaded(h) && OnlyStashed(h, now, SERVICE_SLOTS) && OnlyStashed(now, after, {TheContext})
    ensures OnlyStashed(h, after, SERVICE_SLOTS + {TheContext})
    ensures Loaded(after) && Stash(after, TheEngine) == Stash(h, TheEngine)
  {
    OnlyStashedTwice(h, now, after, SERVICE_SLOTS, {TheContext});
    StaysLoaded(h, after, SERVICE_SLOTS + {TheContext});
    assert Read(after, Obj(STASH), Prop(TheEngine)) == Read(h, Obj(STASH), Prop(TheEngine));
  }

  /** The data and the identity service. */
  method NewStores(vm: Machine, o: Owners)
    requires Loaded(vm.heap)
    modifies vm`stack, vm`heap
    ensures vm.stack == old(vm.stack) && OnlyStashed(old(vm.heap), vm.heap, {TheDataService, TheIdentityService})
    ensures Built(old(vm.heap), vm.heap, Job(TheDataService, Class(old(vm.heap), DataServiceClass), [], Service(o, o.dataService)), DATA_SERVICE_METHODS)
    ensures Built(old(vm.heap), vm.heap, Job(TheIdentityService, Class(old(vm.heap), IdentityServiceClass), [], Service(o, o.identityService)), IDENTITY_METHODS)
  {
    ghost var h := vm.heap;
    NewDataService(vm, Service(o, o.dataService));
    ghost var now := vm.heap;
    StaysLoaded(h, now, {TheDataService});
    NewIdentityService(vm, Service(o, o.identityService));
    BuiltStays(h, now, vm.heap, Job(TheDataService, Class(h, DataServiceClass), [], Service(o, o.dataService)), DATA_SERVICE_METHODS, {TheIdentityService});
    BuiltBefore(h, now, vm.heap, Job(TheIdentityService, Class(h, IdentityServiceClass), [], Service(o, o.identityService)), IDENTITY_METHODS);
    OnlyStashedTwice(h, now, vm.heap, {TheDataService}, {TheIdentityService});
    assert {TheDataService} + {TheIdentityService} == {TheDataService, TheIdentityService};
  }

  /** The event and the HTTP service. */
  method NewSenders(vm: Machine, o: Owners)
    requires Loaded(vm.heap)
    modifies vm`stack, vm`heap
    ensures vm.stack == old(vm.stack) && OnlyStashed(old(vm.heap), vm.heap, {TheEventService, TheHttpService})
    ensures BuiltBound(old(vm.heap), vm.heap, Job(TheEventService, Class(old(vm.heap), EventServiceClass), [], Service(o, o.eventService)), TransactionCommit)
    ensures BuiltBound(old(vm.heap), vm.heap, Job(TheHttpService, Class(old(vm.heap), HttpServiceClass), [], Service(o, o.httpService)), Post)
  {
    ghost var h := vm.heap;
    NewEventService(vm, Service(o, o.eventService));
    ghost var now := vm.heap;
    StaysLoaded(h, now, {TheEventService});
    NewHTTPService(vm, Service(o, o.httpService));
    BoundStays(h, now, vm.heap, Job(TheEventService, Class(h, EventServiceClass), [], Service(o, o.eventService)), TransactionCommit, {TheHttpService});
    BoundBefore(h, now, vm.heap, Job(TheHttpService, Class(h, HttpServiceClass), [], Service(o, o.httpService)), Post);
    OnlyStashedTwice(h, now, vm.heap, {TheEventService}, {TheHttpService});
    assert {TheEventService} + {TheHttpService} == {TheEventService, TheHttpService};
  }

  method NewServices(vm: Machine, o: Owners)
    requires Loaded(vm.heap)
    modifies vm`stack, vm`heap
    ensures vm.stack == old(vm.stack) && OnlyStashed(old(vm.heap), vm.heap, SERVICE_SLOTS)
    ensures ServicesBuilt(old(vm.heap), vm.heap, o)
  {
    ghost var h := vm.heap;
    NewStores(vm, o);
    ghost var now, senders := vm.heap, {TheEventService, TheHttpService};
    StaysLoaded(h, now, {TheDataService, TheIdentityService});
    NewSenders(vm, o);
    BuiltStays(h, now, vm.heap, Job(TheDataService, Class(h, DataServiceClass), [], Service(o, o.dataService)), DATA_SERVICE_METHODS, senders);
    BuiltStays(h, now, vm.heap, Job(TheIdentityService, Class(h, IdentityServiceClass), [], Service(o, o.identityService)), IDENTITY_METHODS, senders);
    BoundBefore(h, now, vm.heap, Job(TheEventService, Class(h, EventServiceClass), [], Service(o, o.eventService)), TransactionCommit);
    BoundBefore(h, now, vm.heap, Job(TheHttpService, Class(h, HttpServiceClass), [], Service(o, o.httpService)), Post);
    OnlyStashedTwice(h, now, vm.heap, {TheDataService, TheIdentityService}, senders);
    assert {TheDataService, TheIdentityService} + senders == SERVICE_SLOTS;
  }

  method BindContext(vm: Machine, owner: GoObject)
    requires vm.stack != [] && IsObject(vm.heap, vm.At(-1))
    modifies vm`stack, vm`heap
    ensures vm.stack == old(vm.stack) && vm.heap == WithMethods(old(vm.heap), vm.At(-1), owner, CONTEXT_METHODS)
  {
    ghost var start, names := vm.heap, [];
    names := BindMethod(vm, GetDataService, owner, start, names);
    names := BindMethod(vm, GetIdentityService, owner, start, names);
    names := BindMethod(vm, GetEventService, owner, start, names);
    names := BindMethod(vm, GetHttpService, owner, start, names);
    assert names == CONTEXT_METHODS;
  }

  /** The context object, made from the engine, around services that exist. */
  method NewContextObject(vm: Machine, owner: GoObject)
    requires Loaded(vm.heap)
    modifies vm`stack, vm`heap
    ensures |vm.stack| >= |old(vm.stack)| && vm.stack[..|old(vm.stack)|] == old(vm.stack)
    ensures Done(old(vm.heap), vm.heap, ContextJob(old(vm.heap), owner), CONTEXT_METHODS)
  {
    ghost var h, job := vm.heap, ContextJob(vm.heap, owner);
    PushChild(vm, TheEngine, ContextClass);
    vm.Dup(-1);
    vm.PutProp(-6, TheContext);
    StashedIsMade(h, job.cls, job.args, vm.construct(job.cls, job.args), TheContext);
    ghost var start := vm.heap;
    BindContext(vm, owner);
    MethodsAdded(h, start, job, CONTEXT_METHODS);
  }

  /** From any stack: the stack comes back as it was, and the stash holds a new context, made from
      the engine, and new services, each with all its methods; nothing else of what existed has
      changed. */
  method NewContext(vm: Machine, o: Owners)
    requires Loaded(vm.heap)
    modifies vm`stack, vm`heap
    ensures vm.stack == old(vm.stack) && Loaded(vm.heap)
    ensures OnlyStashed(old(vm.heap), vm.heap, SERVICE_SLOTS + {TheContext})
    ensures ContextBuilt(old(vm.heap), vm.heap, o) && Stash(vm.heap, TheEngine) == Stash(old(vm.heap), TheEngine)
    ensures HasMethods(vm.heap, Stash(vm.heap, TheContext), GoObject(o.context, None),
                       [GetDataService, GetIdentityService, GetEventService, GetHttpService])
  {
    ghost var h := vm.heap;
    var top := |vm.stack|;
    NewServices(vm, o);
    ghost var now := vm.heap;
    SameContextJob(h, now, GoObject(o.context, None));
    NewContextObject(vm, GoObject(o.context, None));
    vm.SetTop(top);
    ContextFrame(h, now, vm.heap);
    ContextComplete(h, now, vm.heap, o);
  }

  // ----- Handing over a call -----

  /** The array object of a list of strings. */
  function ArrayOf(arguments: seq<string>): Object {
    Object(Array, map i | 0 <= i < |arguments| :: Index(i) := Str(arguments[i]))
  }

  /** An array with exactly the indices 0 .. n-1, and the strings under them in their order. */
  ghost predicate IsListOf(h: Heap, v: Value, strings: seq<string>) {
    && IsObject(h, v) && h[v.ref].kind == Array
    && (forall k :: k in h[v.ref].props <==> k.Index? && k.i < |strings|)
    && (forall i :: 0 <= i < |strings| ==> Read(h, v, Index(i)) == Str(strings[i]))
  }

  lemma ArrayLists(h: Heap, more: Heap, arguments: seq<string>)
    ensures IsListOf(h + [ArrayOf(arguments)] + more, Obj(|h|), arguments)
  {
    assert (h + [ArrayOf(arguments)] + more)[|h|] == ArrayOf(arguments);
  }

  /** [ ... ] -> [ ... arguments ]: an array of as many strings as there are arguments. */
  method PushArguments(vm: Machine, arguments: seq<string>)
    modifies vm`stack, vm`heap
    ensures vm.stack == old(vm.stack) + [Obj(|old(vm.heap)|)]
    ensures vm.heap == old(vm.heap) + [ArrayOf(arguments)]
    ensures
      var list := vm.heap[|old(vm.heap)|];
      && list.kind == Array && (forall k :: k in list.props <==> k.Index? && k.i < |arguments|)
      && forall i :: 0 <= i < |arguments| ==> Read(vm.heap, vm.At(-1), Index(i)) == Str(arguments[i])
  {
    ghost var h := vm.heap;
    var arrIdx := vm.PushArray();
    for i := 0 to |arguments|
      invariant vm.stack == old(vm.stack) + [Obj(|h|)]
      invariant vm.heap == h + [ArrayOf(arguments[..i])]
    {
      vm.Push(Str(arguments[i]));
      vm.PutKey(arrIdx, Index(i));
      assert ArrayOf(arguments[..i]).props[Index(i) := Str(arguments[i])] == ArrayOf(arguments[..i + 1]).props;
    }
    assert arguments[..|arguments|] == arguments;
  }

  ghost function CallArguments(h: Heap, fn: string): seq<Value>
    requires |h| >= 2
  {
    [Stash(h, TheContext), Str(fn), Obj(|h|), Obj(|h| + 1)]
  }

  /** The call that reaches JavaScript: the engine in the stash, and an array and a callback that are
      new objects. */
  ghost function CallMade(now: Heap, m: Word, fn: string, arguments: seq<string>, channel: nat): Call
    requires |now| >= 2
  {
    Call(Stash(now, TheEngine), Name(m), CallArguments(now, fn), now + [ArrayOf(arguments), Object(Callback(channel), map[])])
  }

  /** Engine.Init and Engine.Invoke: calls the named method of the engine in the stash with the
      context in the stash, the function name, an array of exactly the arguments, and a callback to
      the channel of this call; the stack comes back as it was. */
  method CallEngine(vm: Machine, m: Word, fn: string, arguments: seq<string>, channel: nat, result: Value)
    requires |vm.heap| >= 2
    modifies vm`stack, vm`heap, vm`calls
    ensures vm.stack == old(vm.stack)
    ensures vm.calls == old(vm.calls) + [CallMade(old(vm.heap), m, fn, arguments, channel)]
    ensures Passes(vm.calls[|old(vm.calls)|], fn, arguments, channel)
  {
    CallPasses(vm.heap, m, fn, arguments, channel);
    ghost var base, h := vm.stack, vm.heap;
    var top := |vm.stack|;
    PushCall(vm, m, fn, arguments, channel);
    ghost var now, args := vm.stack, CallArguments(h, fn);
    assert now[|now| - 6] == Stash(h, TheEngine) && now[|now| - 5] == Name(m) && now[|now| - 4..] == args;
    vm.CallProp(-6, 4, result);
    vm.SetTop(top);
  }

  /** [ ] -> [ stash engine name context function arguments callback ] */
  method PushCall(vm: Machine, m: Word, fn: string, arguments: seq<string>, channel: nat)
    requires |vm.heap| >= 2
    modifies vm`stack, vm`heap
    ensures vm.stack == old(vm.stack) + [Obj(STASH), Stash(old(vm.heap), TheEngine), Name(m)] + CallArguments(old(vm.heap), fn)
    ensures vm.heap == old(vm.heap) + [ArrayOf(arguments), Object(Callback(channel), map[])]
  {
    ghost var base, h := vm.stack, vm.heap;
    vm.PushGlobalStash();
    vm.GetProp(-1, TheEngine);
    vm.Push(Name(m));
    assert vm.stack == base + [Obj(STASH), Stash(h, TheEngine), Name(m)];
    vm.GetProp(-3, TheContext);
    vm.Push(Str(fn));
    PushArguments(vm, arguments);
    vm.PushNew(Object(Callback(channel), map[]));
  }

  /** The call passes the context in the stash, a function name, an array that lists the arguments, and
      the callback of a channel. */
  ghost predicate Passes(call: Call, fn: string, arguments: seq<string>, channel: nat) {
    && 2 <= |call.heap| && |call.args| == 4
    && call.args[0] == Stash(call.heap, TheContext) && call.args[1] == Str(fn)
    && IsListOf(call.heap, call.args[2], arguments)
    && IsObject(call.heap, call.args[3]) && call.heap[call.args[3].ref].kind == Callback(channel)
  }

  lemma CallPasses(now: Heap, m: Word, fn: string, arguments: seq<string>, channel: nat)
    requires |now| >= 2
    ensures Passes(CallMade(now, m, fn, arguments, channel), fn, arguments, channel)
  {
    var call := CallMade(now, m, fn, arguments, channel);
    ArrayLists(now, [Object(Callback(channel), map[])], arguments);
    assert call.heap == now + [ArrayOf(arguments)] + [Object(Callback(channel), map[])];
    assert call.heap[0] == now[0];
  }

  /** The engine is called with a context that was built since `h`. */
  ghost predicate PassesNewContext(h: Heap, call: Call, o: Owners, fn: string, arguments: seq<string>, channel: nat)
    requires Loaded(h)
  {
    call.receiver == Stash(h, TheEngine) && Passes(call, fn, arguments, channel) && ContextBuilt(h, call.heap, o)
  }

  lemma CallComplete(h: Heap, now: Heap, o: Owners, call: Call, fn: string, arguments: seq<string>, channel: nat)
    requires Loaded(h) && 2 <= |h| <= |now| && ContextBuilt(h, now, o) && Stash(now, TheEngine) == Stash(h, TheEngine)
    requires call.receiver == Stash(now, TheEngine) && call.heap == now + [ArrayOf(arguments), Object(Callback(channel), map[])]
    requires Passes(call, fn, arguments, channel)
    ensures PassesNewContext(h, call, o, fn, arguments, channel)
  {
    ContextStays(h, now, [ArrayOf(arguments), Object(Callback(channel), map[])], o);
  }

  /** What Composer.Init and Invoke do under the VM's lock: whatever an earlier call left behind, the
      engine is called with the context made for this call, which is complete, as are the services
      it hands out. */
  method StartCall(vm: Machine, o: Owners, m: Word, fn: string, arguments: seq<string>, channel: nat, result: Value)
    returns (ghost made: Call)
    requires Loaded(vm.heap)
    modifies vm`stack, vm`heap, vm`calls
    ensures vm.stack == old(vm.stack) && vm.calls == old(vm.calls) + [made]
    ensures made.name == Name(m) && PassesNewContext(old(vm.heap), made, o, fn, arguments, channel)
    ensures |made.args| == 4 && IsObject(made.heap, made.args[2])
            && forall i :: 0 <= i < |arguments| ==> Read(made.heap, made.args[2], Index(i)) == Str(arguments[i])
  {
    ghost var h := vm.heap;
    NewContext(vm, o);
    assert 2 <= |h| <= |vm.heap|;
    made := CallMade(vm.heap, m, fn, arguments, channel);
    ghost var now := vm.heap;
    CallEngine(vm, m, fn, arguments, channel, result);
    CallComplete(h, now, o, made, fn, arguments, channel);
  }
}
