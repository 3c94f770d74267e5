/** The value stack and the objects of the JavaScript machine, as far as the chaincode wrappers use
    them. */
module VirtualMachine {
  import opened Wrappers

  type Ref = nat

  /** The literal property names of the wrappers. */
  datatype Word =
    | Composer
    | ContainerClass | LoggingServiceClass | EngineClass | ContextClass | DataServiceClass | DataCollectionClass
    | EventServiceClass | IdentityServiceClass | HttpServiceClass
    | TheContainer | TheLoggingService | TheEngine | TheContext | TheDataService | TheDataCollection
    | TheEventService | TheIdentityService | TheHttpService
    | GetVersion | GetLoggingService | LogCritical | LogDebug | LogError | LogInfo | LogNotice | LogWarning
    | GetLogLevel | SetLogLevel
    | GetDataService | GetIdentityService | GetEventService | GetHttpService
    | CreateCollection | DeleteCollection | GetCollection | ExistsCollection | ExecuteQuery
    | GetAll | Get | Exists | Add | Update | Remove
    | TransactionCommit | Post | GetIdentifier | GetName | GetIssuer | GetCertificate
    | Bind | InitEngine | InvokeEngine

  datatype Key = Prop(word: Word) | Index(i: nat)

  datatype Value = Undefined | Str(s: string) | Name(word: Word) | Obj(ref: Ref)

  /** A Go object whose methods JavaScript can call, and the chaincode stub it was made with. */
  datatype GoObject = GoObject(id: nat, stub: Option<nat>)

  /** What an object is: made by a constructor from arguments, a Go method of a wrapper, such a
      method bound to a receiver, an array, the callback of a call, or anything else. */
  datatype Kind =
    | Instance(constr: Value, args: seq<Value>)
    | GoFunction(owner: GoObject, name: Word)
    | BoundFunction(target: Value, receiver: Value)
    | Array
    | Callback(channel: nat)
    | Other

  datatype Object = Object(kind: Kind, props: map<Key, Value>)

  type Heap = seq<Object>

  /** A method call that was made: receiver, name and arguments, and the objects at the time. */
  datatype Call = Call(receiver: Value, name: Value, args: seq<Value>, heap: Heap)

  const STASH: Ref := 0
  const GLOBAL: Ref := 1

  predicate IsObject(h: Heap, v: Value) {
    v.Obj? && v.ref < |h|
  }

  function Read(h: Heap, v: Value, k: Key): Value
    requires IsObject(h, v)
  {
    if k in h[v.ref].props then h[v.ref].props[k] else Undefined
  }

  function Write(h: Heap, v: Value, k: Key, x: Value): Heap
    requires IsObject(h, v)
  {
    h[v.ref := h[v.ref].(props := h[v.ref].props[k := x])]
  }

  class Machine {
    var stack: seq<Value>
    var heap: Heap
    var calls: seq<Call>
    /** The properties a constructor gives a new object. */
    const construct: (Value, seq<Value>) -> map<Key, Value>

    constructor (stack: seq<Value>, heap: Heap, construct: (Value, seq<Value>) -> map<Key, Value>)
      ensures this.stack == stack && this.heap == heap && this.construct == construct && calls == []
    {
      this.stack, this.heap, this.calls, this.construct := stack, heap, [], construct;
    }

    predicate Has(i: int)
      reads this
    {
      -|stack| <= i < |stack|
    }

    /** The value at an index; negative indices count from the top. */
    function At(i: int): Value
      requires Has(i)
      reads this
    {
      if i < 0 then stack[|stack| + i] else stack[i]
    }

    method Push(v: Value)
      modifies this`stack
      ensures stack == old(stack) + [v]
    {
      stack := stack + [v];
    }

    method PushGlobalStash()
      modifies this`stack
      ensures stack == old(stack) + [Obj(STASH)]
    {
      Push(Obj(STASH));
    }

    method PushGlobalObject()
      modifies this`stack
      ensures stack == old(stack) + [Obj(GLOBAL)]
    {
      Push(Obj(GLOBAL));
    }

    method PushNew(o: Object)
      modifies this`stack, this`heap
      ensures stack == old(stack) + [Obj(|old(heap)|)] && heap == old(heap) + [o]
    {
      heap := heap + [o];
      stack := stack + [Obj(|heap| - 1)];
    }

    /** Returns the absolute index of the array. */
    method PushArray() returns (i: nat)
      modifies this`stack, this`heap
      ensures i == |old(stack)|
      ensures stack == old(stack) + [Obj(|old(heap)|)] && heap == old(heap) + [Object(Array, map[])]
    {
      i := |stack|;
      PushNew(Object(Array, map[]));
    }

    method PushGoFunction(owner: GoObject, m: Word)
      modifies this`stack, this`heap
      ensures stack == old(stack) + [Obj(|old(heap)|)] && heap == old(heap) + [Object(GoFunction(owner, m), map[])]
    {
      PushNew(Object(GoFunction(owner, m), map[]));
    }

    method GetProp(i: int, w: Word)
      requires Has(i) && IsObject(heap, At(i))
      modifies this`stack
      ensures stack == old(stack) + [Read(heap, old(At(i)), Prop(w))]
    {
      stack := stack + [Read(heap, At(i), Prop(w))];
    }

    method PutKey(i: int, k: Key)
      requires stack != [] && Has(i) && IsObject(heap, At(i))
      modifies this`stack, this`heap
      ensures stack == old(stack[..|stack| - 1])
      ensures heap == Write(old(heap), old(At(i)), k, old(stack[|stack| - 1]))
    {
      heap := Write(heap, At(i), k, stack[|stack| - 1]);
      stack := stack[..|stack| - 1];
    }

    /** Pops the top value into a property of the object at `i`. */
    method PutProp(i: int, w: Word)
      requires stack != [] && Has(i) && IsObject(heap, At(i))
      modifies this`stack, this`heap
      ensures stack == old(stack[..|stack| - 1])
      ensures heap == Write(old(heap), old(At(i)), Prop(w), old(stack[|stack| - 1]))
    {
      PutKey(i, Prop(w));
    }

    method Dup(i: int)
      requires Has(i)
      modifies this`stack
      ensures stack == old(stack) + [old(At(i))]
    {
      stack := stack + [At(i)];
    }

    method Pop()
      requires stack != []
      modifies this`stack
      ensures stack == old(stack[..|stack| - 1])
    {
      stack := stack[..|stack| - 1];
    }

    /** Replaces a constructor and its `n` arguments on the stack by a new object. */
    method New(n: nat)
      requires n < |stack| && IsObject(heap, stack[|stack| - n - 1])
      modifies this`stack, this`heap
      ensures stack == old(stack[..|stack| - n - 1]) + [Obj(|old(heap)|)]
      ensures
        var c, args := old(stack[|stack| - n - 1]), old(stack[|stack| - n..]);
        heap == old(heap) + [Object(Instance(c, args), construct(c, args))]
    {
      var c, args := stack[|stack| - n - 1], stack[|stack| - n..];
      stack := stack[..|stack| - n - 1];
      PushNew(Object(Instance(c, args), construct(c, args)));
    }

    /** Calls fn.bind(receiver): the top of the stack is [ ..., "bind", receiver ], with the function
        at `i`; both are replaced by the bound function. */
    method CallBind(i: int)
      requires |stack| >= 2 && stack[|stack| - 2] == Name(Bind) && Has(i)
      modifies this`stack, this`heap
      ensures stack == old(stack[..|stack| - 2]) + [Obj(|old(heap)|)]
      ensures heap == old(heap) + [Object(BoundFunction(old(At(i)), old(stack[|stack| - 1])), map[])]
    {
      var f, receiver := At(i), stack[|stack| - 1];
      stack := stack[..|stack| - 2];
      PushNew(Object(BoundFunction(f, receiver), map[]));
    }

    /** Calls a method of the object at `i`, whose name and `n` arguments are on top, and leaves its
        result in their place. */
    method CallProp(i: int, n: nat, result: Value)
      requires n < |stack| && Has(i)
      modifies this`stack, this`calls
      ensures stack == old(stack[..|stack| - n - 1]) + [result]
      ensures calls == old(calls) + [Call(old(At(i)), old(stack[|stack| - n - 1]), old(stack[|stack| - n..]), heap)]
    {
      calls := calls + [Call(At(i), stack[|stack| - n - 1], stack[|stack| - n..], heap)];
      stack := stack[..|stack| - n - 1] + [result];
    }

    /** Cuts the stack down, or fills it up. */
    method SetTop(n: nat)
      modifies this`stack
      ensures stack == if n <= |old(stack)| then old(stack)[..n] else old(stack) + seq(n - |old(stack)|, i => Undefined)
    {
      stack := if n <= |stack| then stack[..n] else stack + seq(n - |stack|, i => Undefined);
    }
  }
}
