/** The Go constructors that build the JavaScript objects of the chaincode, instruction by
    instruction. Each leaves the value stack as it found it. */
module VmWrappers {
  import opened VirtualMachine

  // ----- What the JavaScript side provides -----

  predicate IsClass(w: Word) {
    w in {ContainerClass, LoggingServiceClass, EngineClass, ContextClass, DataServiceClass, DataCollectionClass,
          EventServiceClass, IdentityServiceClass, HttpServiceClass}
  }

  function Library(h: Heap): Value
    requires |h| >= 2
  {
    Read(h, Obj(GLOBAL), Prop(Composer))
  }

  /** The runtime is loaded: the global object has the composer object, which has the classes. */
  ghost predicate Loaded(h: Heap) {
    && |h| >= 2
    && IsObject(h, Library(h)) && Library(h).ref != STASH
    && forall w :: IsClass(w) ==> IsObject(h, Read(h, Library(h), Prop(w)))
  }

  function Stash(h: Heap, w: Word): Value
    requires |h| >= 2
  {
    Read(h, Obj(STASH), Prop(w))
  }

  function Class(h: Heap, w: Word): Value
    requires Loaded(h) && IsClass(w)
  {
    Read(h, Library(h), Prop(w))
  }

  /** Between two states only these entries of the stash changed, and objects were added. */
  ghost predicate OnlyStashed(h: Heap, after: Heap, slots: set<Word>) {
    && 2 <= |h| <= |after|
    && (forall r: Ref :: r < |h| && r != STASH ==> after[r] == h[r])
    && after[STASH].kind == h[STASH].kind
    && (forall k: Key :: k.Index? || k.word !in slots ==> Read(after, Obj(STASH), k) == Read(h, Obj(STASH), k))
  }

  lemma StaysLoaded(h: Heap, after: Heap, slots: set<Word>)
    requires Loaded(h) && OnlyStashed(h, after, slots)
    ensures Loaded(after) && Library(after) == Library(h) && forall c :: IsClass(c) ==> Class(after, c) == Class(h, c)
  {
  }

  /** Object `o` has, under each of the names, the Go method of that name of the wrapper `owner`. */
  ghost predicate HasMethods(h: Heap, o: Value, owner: GoObject, names: seq<Word>) {
    IsObject(h, o) &&
    forall w <- names ::
      var f := Read(h, o, Prop(w));
      IsObject(h, f) && h[f.ref].kind == GoFunction(owner, w)
  }

  /** The stash holds, under `w`, a new object made by a class from arguments. */
  ghost predicate Made(h: Heap, after: Heap, w: Word, cls: Value, args: seq<Value>) {
    && |h| >= 2 && |after| >= 2
    && IsObject(after, Stash(after, w)) && Stash(after, w).ref >= |h|
    && after[Stash(after, w).ref].kind == Instance(cls, args)
  }

  // ----- The repeated sequences -----

  /** [ ] -> [ global composer class ] */
  method PushClass(vm: Machine, cls: Word)
    requires Loaded(vm.heap) && IsClass(cls)
    modifies vm`stack
    ensures vm.stack == old(vm.stack) + [Obj(GLOBAL), Library(vm.heap), Class(vm.heap, cls)]
  {
    vm.PushGlobalObject();
    vm.GetProp(-1, Composer);
    vm.GetProp(-1, cls);
  }

  /** A new object, stored in the stash. */
  function WithStashed(h: Heap, o: Object, w: Word): Heap
    requires |h| >= 2
  {
    Write(h + [o], Obj(STASH), Prop(w), Obj(|h|))
  }

  lemma StashedIsMade(h: Heap, cls: Value, args: seq<Value>, props: map<Key, Value>, w: Word)
    requires |h| >= 2
    ensures
      var after := WithStashed(h, Object(Instance(cls, args), props), w);
      OnlyStashed(h, after, {w}) && Made(h, after, w, cls, args) && Stash(after, w) == Obj(|h|)
  {
  }

  /** [ ... theService ] -> [ ... theService ], with theService in the stash. */
  method StoreInStash(vm: Machine, w: Word)
    requires |vm.heap| >= 2 && vm.stack != []
    modifies vm`stack, vm`heap
    ensures vm.stack == old(vm.stack) && vm.heap == Write(old(vm.heap), Obj(STASH), Prop(w), vm.At(-1))
  {
    vm.PushGlobalStash();
    vm.Dup(-2);
    vm.PutProp(-2, w);
    vm.Pop();
  }

  /** [ ] -> [ global composer theService ], with theService in the stash. */
  method PushService(vm: Machine, cls: Word, w: Word)
    requires Loaded(vm.heap) && IsClass(cls)
    modifies vm`stack, vm`heap
    ensures vm.stack == old(vm.stack) + [Obj(GLOBAL), Library(old(vm.heap)), Obj(|old(vm.heap)|)]
    ensures OnlyStashed(old(vm.heap), vm.heap, {w}) && Made(old(vm.heap), vm.heap, w, Class(old(vm.heap), cls), [])
    ensures Stash(vm.heap, w) == Obj(|old(vm.heap)|)
  {
    PushClass(vm, cls);
    vm.New(0);
    StoreInStash(vm, w);
    StashedIsMade(old(vm.heap), Class(old(vm.heap), cls), [], vm.construct(Class(old(vm.heap), cls), []), w);
  }

  // ----- Adding methods -----

  /** What a constructor of the program is to make: an object of a class, made from arguments and
      kept under a name in the stash, with the Go methods of its wrapper. */
  datatype Job = Job(slot: Word, cls: Value, args: seq<Value>, owner: GoObject)

  ghost predicate Done(h: Heap, after: Heap, job: Job, names: seq<Word>) {
    OnlyStashed(h, after, {job.slot}) && Built(h, after, job, names)
  }

  ghost predicate Built(h: Heap, after: Heap, job: Job, names: seq<Word>) {
    && Made(h, after, job.slot, job.cls, job.args)
    && HasMethods(after, Stash(after, job.slot), job.owner, names)
  }

  /** What is built stays as it is when other entries of the stash change. */
  lemma BuiltStays(h: Heap, now: Heap, after: Heap, job: Job, names: seq<Word>, slots: set<Word>)
    requires OnlyStashed(now, after, slots) && job.slot !in slots && |h| <= |now| && Built(h, now, job, names)
    ensures Built(h, after, job, names)
  {
  }

  /** And what is built later is new as well when seen from an earlier state. */
  lemma BuiltBefore(h: Heap, now: Heap, after: Heap, job: Job, names: seq<Word>)
    requires 2 <= |h| <= |now| && Built(now, after, job, names)
    ensures Built(h, after, job, names)
  {
  }

  lemma OnlyStashedTwice(h: Heap, now: Heap, after: Heap, some: set<Word>, more: set<Word>)
    requires OnlyStashed(h, now, some) && OnlyStashed(now, after, more)
    ensures OnlyStashed(h, after, some + more)
  {
  }

  function WithMethod(h: Heap, o: Value, owner: GoObject, w: Word): Heap
    requires IsObject(h, o)
  {
    Write(h + [Object(GoFunction(owner, w), map[])], o, Prop(w), Obj(|h|))
  }

  ghost function WithMethods(h: Heap, o: Value, owner: GoObject, names: seq<Word>): (after: Heap)
    requires IsObject(h, o)
    ensures IsObject(after, o)
  {
    if names == [] then h
    else WithMethod(WithMethods(h, o, owner, names[..|names| - 1]), o, owner, names[|names| - 1])
  }

  lemma MethodAdded(h: Heap, now: Heap, job: Job, names: seq<Word>, w: Word)
    requires Done(h, now, job, names)
    ensures
      var after := WithMethod(now, Stash(now, job.slot), job.owner, w);
      Done(h, after, job, names + [w]) && Stash(after, job.slot) == Stash(now, job.slot)
  {
  }

  lemma {:induction false} MethodsAdded(h: Heap, now: Heap, job: Job, names: seq<Word>)
    requires Done(h, now, job, [])
    ensures
      var after := WithMethods(now, Stash(now, job.slot), job.owner, names);
      Done(h, after, job, names) && Stash(after, job.slot) == Stash(now, job.slot)
  {
    if names != [] {
      var init := names[..|names| - 1];
      MethodsAdded(h, now, job, init);
      MethodAdded(h, WithMethods(now, Stash(now, job.slot), job.owner, init), job, init, names[|names| - 1]);
      assert names == init + [names[|names| - 1]];
    }
  }

  /** [ ... theObject ] -> [ ... theObject ], with one more method. */
  method BindMethod(vm: Machine, w: Word, owner: GoObject, ghost h: Heap, ghost names: seq<Word>) returns (ghost more: seq<Word>)
    requires vm.stack != [] && IsObject(h, vm.At(-1)) && vm.heap == WithMethods(h, vm.At(-1), owner, names)
    modifies vm`stack, vm`heap
    ensures vm.stack == old(vm.stack)
    ensures more == names + [w] && vm.heap == WithMethods(h, vm.At(-1), owner, more)
  {
    vm.PushGoFunction(owner, w);
    vm.PutProp(-2, w);
    more := names + [w];
    assert more[..|names|] == names;
  }

  // ----- The constructors -----

  const LOGGING_METHODS := [LogCritical, LogDebug, LogError, LogInfo, LogNotice, LogWarning, GetLogLevel, SetLogLevel]
  const DATA_SERVICE_METHODS := [CreateCollection, DeleteCollection, GetCollection, ExistsCollection, ExecuteQuery]
  const DATA_COLLECTION_METHODS := [GetAll, Get, Exists, Add, Update, Remove]
  const CONTAINER_METHODS := [GetVersion, GetLoggingService]
  const IDENTITY_METHODS := [GetIdentifier, GetName, GetIssuer, GetCertificate]
  const CONTEXT_METHODS := [GetDataService, GetIdentityService, GetEventService, GetHttpService]

  method BindDataService(vm: Machine, owner: GoObject)
    requires vm.stack != [] && IsObject(vm.heap, vm.At(-1))
    modifies vm`stack, vm`heap
    ensures vm.stack == old(vm.stack) && vm.heap == WithMethods(old(vm.heap), vm.At(-1), owner, DATA_SERVICE_METHODS)
  {
    ghost var start, names := vm.heap, [];
    names := BindMethod(vm, CreateCollection, owner, start, names);
    names := BindMethod(vm, DeleteCollection, owner, start, names);
    names := BindMethod(vm, GetCollection, owner, start, names);
    names := BindMethod(vm, ExistsCollection, owner, start, names);
    names := BindMethod(vm, ExecuteQuery, owner, start, names);
    assert names == DATA_SERVICE_METHODS;
  }

  method NewDataService(vm: Machine, owner: GoObject)
    requires Loaded(vm.heap)
    modifies vm`stack, vm`heap
    ensures vm.stack == old(vm.stack)
    ensures Done(old(vm.heap), vm.heap, Job(TheDataService, Class(old(vm.heap), DataServiceClass), [], owner), DATA_SERVICE_METHODS)
    ensures HasMethods(vm.heap, Stash(vm.heap, TheDataService), owner,
                       [CreateCollection, DeleteCollection, GetCollection, ExistsCollection, ExecuteQuery])
  {
    ghost var h, job := vm.heap, Job(TheDataService, Class(vm.heap, DataServiceClass), [], owner);
    var top := |vm.stack|;
    PushService(vm, DataServiceClass, TheDataService);
    ghost var start := vm.heap;
    BindDataService(vm, owner);
    MethodsAdded(h, start, job, DATA_SERVICE_METHODS);
    vm.SetTop(top);
  }

  method BindLoggingService(vm: Machine, owner: GoObject)
    requires vm.stack != [] && IsObject(vm.heap, vm.At(-1))
    modifies vm`stack, vm`heap
    ensures vm.stack == old(vm.stack) && vm.heap == WithMethods(old(vm.heap), vm.At(-1), owner, LOGGING_METHODS)
  {
    ghost var start, names := vm.heap, [];
    names := BindMethod(vm, LogCritical, owner, start, names);
    names := BindMethod(vm, LogDebug, owner, start, names);
    names := BindMethod(vm, LogError, owner, start, names);
    names := BindMethod(vm, LogInfo, owner, start, names);
    names := BindMethod(vm, LogNotice, owner, start, names);
    names := BindMethod(vm, LogWarning, owner, start, names);
    names := BindMethod(vm, GetLogLevel, owner, start, names);
    names := BindMethod(vm, SetLogLevel, owner, start, names);
    assert names == LOGGING_METHODS;
  }

  method NewLoggingService(vm: Machine, owner: GoObject)
    requires Loaded(vm.heap)
    modifies vm`stack, vm`heap
    ensures vm.stack == old(vm.stack)
    ensures Done(old(vm.heap), vm.heap, Job(TheLoggingService, Class(old(vm.heap), LoggingServiceClass), [], owner), LOGGING_METHODS)
    ensures HasMethods(vm.heap, Stash(vm.heap, TheLoggingService), owner,
                       [LogCritical, LogDebug, LogError, LogInfo, LogNotice, LogWarning, GetLogLevel, SetLogLevel])
  {
    ghost var h, job := vm.heap, Job(TheLoggingService, Class(vm.heap, LoggingServiceClass), [], owner);
    var top := |vm.stack|;
    PushService(vm, LoggingServiceClass, TheLoggingService);
    ghost var start := vm.heap;
    BindLoggingService(vm, owner);
    MethodsAdded(h, start, job, LOGGING_METHODS);
    vm.SetTop(top);
  }

  method BindIdentityService(vm: Machine, owner: GoObject)
    requires vm.stack != [] && IsObject(vm.heap, vm.At(-1))
    modifies vm`stack, vm`heap
    ensures vm.stack == old(vm.stack) && vm.heap == WithMethods(old(vm.heap), vm.At(-1), owner, IDENTITY_METHODS)
  {
    ghost var start, names := vm.heap, [];
    names := BindMethod(vm, GetIdentifier, owner, start, names);
    names := BindMethod(vm, GetName, owner, start, names);
    names := BindMethod(vm, GetIssuer, owner, start, names);
    names := BindMethod(vm, GetCertificate, owner, start, names);
    assert names == IDENTITY_METHODS;
  }

  method NewIdentityService(vm: Machine, owner: GoObject)
    requires Loaded(vm.heap)
    modifies vm`stack, vm`heap
    ensures vm.stack == old(vm.stack)
    ensures Done(old(vm.heap), vm.heap, Job(TheIdentityService, Class(old(vm.heap), IdentityServiceClass), [], owner), IDENTITY_METHODS)
    ensures HasMethods(vm.heap, Stash(vm.heap, TheIdentityService), owner,
                       [GetIdentifier, GetName, GetIssuer, GetCertificate])
  {
    ghost var h, job := vm.heap, Job(TheIdentityService, Class(vm.heap, IdentityServiceClass), [], owner);
    var top := |vm.stack|;
    PushService(vm, IdentityServiceClass, TheIdentityService);
    ghost var start := vm.heap;
    BindIdentityService(vm, owner);
    MethodsAdded(h, start, job, IDENTITY_METHODS);
    vm.SetTop(top);
  }

  ghost predicate DoneBound(h: Heap, after: Heap, job: Job, w: Word) {
    OnlyStashed(h, after, {job.slot}) && BuiltBound(h, after, job, w)
  }

  /** The object in the stash has the Go method of its wrapper, bound to the object itself. */
  ghost predicate BuiltBound(h: Heap, after: Heap, job: Job, w: Word) {
    && Made(h, after, job.slot, job.cls, job.args)
    && var f := Read(after, Stash(after, job.slot), Prop(w));
      && IsObject(after, f) && after[f.ref].kind.BoundFunction?
      && after[f.ref].kind.receiver == Stash(after, job.slot)
      && IsObject(after, after[f.ref].kind.target)
      && after[after[f.ref].kind.target.ref].kind == GoFunction(job.owner, w)
  }

  lemma BoundStays(h: Heap, now: Heap, after: Heap, job: Job, w: Word, slots: set<Word>)
    requires OnlyStashed(now, after, slots) && job.slot !in slots && |h| <= |now| && BuiltBound(h, now, job, w)
    ensures BuiltBound(h, after, job, w)
  {
  }

  lemma BoundBefore(h: Heap, now: Heap, after: Heap, job: Job, w: Word)
    requires 2 <= |h| <= |now| && BuiltBound(now, after, job, w)
    ensures BuiltBound(h, after, job, w)
  {
  }

  function WithBound(h: Heap, o: Value, owner: GoObject, w: Word): Heap
    requires IsObject(h, o)
  {
    Write(h + [Object(GoFunction(owner, w), map[]), Object(BoundFunction(Obj(|h|), o), map[])], o, Prop(w), Obj(|h| + 1))
  }

  lemma BoundAdded(h: Heap, now: Heap, job: Job, w: Word)
    requires OnlyStashed(h, now, {job.slot}) && Made(h, now, job.slot, job.cls, job.args)
    ensures DoneBound(h, WithBound(now, Stash(now, job.slot), job.owner, w), job, w)
  {
  }

  /** [ ... theService ] -> [ ... theService function ]: bind first, then attach the bound function. */
  method AttachBound(vm: Machine, w: Word, owner: GoObject)
    requires vm.stack != [] && IsObject(vm.heap, vm.At(-1))
    modifies vm`stack, vm`heap
    ensures vm.stack == old(vm.stack) + [Obj(|old(vm.heap)|)]
    ensures vm.heap == WithBound(old(vm.heap), old(vm.At(-1)), owner, w)
  {
    ghost var base, service := vm.stack, vm.At(-1);
    vm.PushGoFunction(owner, w);
    vm.Push(Name(Bind));
    vm.Dup(-3);
    vm.CallBind(-3);
    vm.PutProp(-3, w);
  }

  method NewEventService(vm: Machine, owner: GoObject)
    requires Loaded(vm.heap)
    modifies vm`stack, vm`heap
    ensures vm.stack == old(vm.stack)
    ensures DoneBound(old(vm.heap), vm.heap, Job(TheEventService, Class(old(vm.heap), EventServiceClass), [], owner), TransactionCommit)
  {
    ghost var h, job := vm.heap, Job(TheEventService, Class(vm.heap, EventServiceClass), [], owner);
    var top := |vm.stack|;
    PushService(vm, EventServiceClass, TheEventService);
    BoundAdded(h, vm.heap, job, TransactionCommit);
    AttachBound(vm, TransactionCommit, owner);
    vm.SetTop(top);
  }

  method NewHTTPService(vm: Machine, owner: GoObject)
    requires Loaded(vm.heap)
    modifies vm`stack, vm`heap
    ensures vm.stack == old(vm.stack)
    ensures DoneBound(old(vm.heap), vm.heap, Job(TheHttpService, Class(old(vm.heap), HttpServiceClass), [], owner), Post)
  {
    ghost var h, job := vm.heap, Job(TheHttpService, Class(vm.heap, HttpServiceClass), [], owner);
    var top := |vm.stack|;
    PushService(vm, HttpServiceClass, TheHttpService);
    BoundAdded(h, vm.heap, job, Post);
    AttachBound(vm, Post, owner);
    vm.SetTop(top);
  }

  /** [ ] -> [ stash parent global composer theObject ]: an object made from one in the stash. */
  method PushChild(vm: Machine, parent: Word, cls: Word)
    requires Loaded(vm.heap) && IsClass(cls)
    modifies vm`stack, vm`heap
    ensures vm.stack == old(vm.stack) + [Obj(STASH), Stash(old(vm.heap), parent), Obj(GLOBAL), Library(old(vm.heap)), Obj(|old(vm.heap)|)]
    ensures
      var c, args := Class(old(vm.heap), cls), [Stash(old(vm.heap), parent)];
      vm.heap == old(vm.heap) + [Object(Instance(c, args), vm.construct(c, args))]
  {
    ghost var base := vm.stack;
    vm.PushGlobalStash();
    vm.GetProp(-1, parent);
    PushClass(vm, cls);
    assert vm.stack == base + [Obj(STASH), Stash(vm.heap, parent), Obj(GLOBAL), Library(vm.heap), Class(vm.heap, cls)];
    vm.Dup(-4);
    vm.New(1);
  }

  /** The engine itself goes into the stash, so it leaves the stack. */
  method NewEngine(vm: Machine)
    requires Loaded(vm.heap)
    modifies vm`stack, vm`heap
    ensures vm.stack == old(vm.stack)
    ensures OnlyStashed(old(vm.heap), vm.heap, {TheEngine})
    ensures Made(old(vm.heap), vm.heap, TheEngine, Class(old(vm.heap), EngineClass), [Stash(old(vm.heap), TheContainer)])
  {
    ghost var h, cls, args := vm.heap, Class(vm.heap, EngineClass), [Stash(vm.heap, TheContainer)];
    var top := |vm.stack|;
    PushChild(vm, TheContainer, EngineClass);
    vm.PutProp(-5, TheEngine);
    StashedIsMade(h, cls, args, vm.construct(cls, args), TheEngine);
    vm.SetTop(top);
  }

  method BindDataCollection(vm: Machine, owner: GoObject)
    requires vm.stack != [] && IsObject(vm.heap, vm.At(-1))
    modifies vm`stack, vm`heap
    ensures vm.stack == old(vm.stack) && vm.heap == WithMethods(old(vm.heap), vm.At(-1), owner, DATA_COLLECTION_METHODS)
  {
    ghost var start, names := vm.heap, [];
    names := BindMethod(vm, GetAll, owner, start, names);
    names := BindMethod(vm, Get, owner, start, names);
    names := BindMethod(vm, Exists, owner, start, names);
    names := BindMethod(vm, Add, owner, start, names);
    names := BindMethod(vm, Update, owner, start, names);
    names := BindMethod(vm, Remove, owner, start, names);
    assert names == DATA_COLLECTION_METHODS;
  }

  method NewDataCollection(vm: Machine, owner: GoObject)
    requires Loaded(vm.heap)
    modifies vm`stack, vm`heap
    ensures vm.stack == old(vm.stack)
    ensures Done(old(vm.heap), vm.heap,
                 Job(TheDataCollection, Class(old(vm.heap), DataCollectionClass), [Stash(old(vm.heap), TheDataService)], owner), DATA_COLLECTION_METHODS)
    ensures HasMethods(vm.heap, Stash(vm.heap, TheDataCollection), owner,
                       [GetAll, Get, Exists, Add, Update, Remove])
  {
    ghost var h, job := vm.heap, Job(TheDataCollection, Class(vm.heap, DataCollectionClass), [Stash(vm.heap, TheDataService)], owner);
    var top := |vm.stack|;
    PushChild(vm, TheDataService, DataCollectionClass);
    vm.Dup(-1);
    vm.PutProp(-6, TheDataCollection);
    StashedIsMade(h, job.cls, job.args, vm.construct(job.cls, job.args), TheDataCollection);
    ghost var start := vm.heap;
    BindDataCollection(vm, owner);
    MethodsAdded(h, start, job, DATA_COLLECTION_METHODS);
    vm.SetTop(top);
  }

  method BindContainer(vm: Machine, owner: GoObject)
    requires vm.stack != [] && IsObject(vm.heap, vm.At(-1))
    modifies vm`stack, vm`heap
    ensures vm.stack == old(vm.stack) && vm.heap == WithMethods(old(vm.heap), vm.At(-1), owner, CONTAINER_METHODS)
  {
    ghost var start, names := vm.heap, [];
    names := BindMethod(vm, GetVersion, owner, start, names);
    names := BindMethod(vm, GetLoggingService, owner, start, names);
  }

  /** The container, and before it its logging service. */
  method NewContainer(vm: Machine, owner: GoObject, loggingOwner: GoObject)
    requires Loaded(vm.heap)
    modifies vm`stack, vm`heap
    ensures vm.stack == old(vm.stack) && Loaded(vm.heap)
    ensures OnlyStashed(old(vm.heap), vm.heap, {TheLoggingService, TheContainer})
    ensures Built(old(vm.heap), vm.heap, Job(TheLoggingService, Class(old(vm.heap), LoggingServiceClass), [], loggingOwner), LOGGING_METHODS)
    ensures Built(old(vm.heap), vm.heap, Job(TheContainer, Class(old(vm.heap), ContainerClass), [], owner), CONTAINER_METHODS)
    ensures HasMethods(vm.heap, Stash(vm.heap, TheContainer), owner,
                       [GetVersion, GetLoggingService])
  {
    ghost var h, logging, job := vm.heap, Job(TheLoggingService, Class(vm.heap, LoggingServiceClass), [], loggingOwner),
                                 Job(TheContainer, Class(vm.heap, ContainerClass), [], owner);
    var top := |vm.stack|;
    NewLoggingService(vm, loggingOwner);
    ghost var now := vm.heap;
    StaysLoaded(h, now, {TheLoggingService});
    PushService(vm, ContainerClass, TheContainer);
    ghost var start := vm.heap;
    BindContainer(vm, owner);
    MethodsAdded(now, start, job, CONTAINER_METHODS);
    vm.SetTop(top);
    BuiltStays(h, now, vm.heap, logging, LOGGING_METHODS, {TheContainer});
    BuiltBefore(h, now, vm.heap, job, CONTAINER_METHODS);
    OnlyStashedTwice(h, now, vm.heap, {TheLoggingService}, {TheContainer});
    StaysLoaded(now, vm.heap, {TheContainer});
    assert {TheLoggingService} + {TheContainer} == {TheLoggingService, TheContainer};
  }
}
