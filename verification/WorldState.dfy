/** The chaincode stub as the data services use it: a flat store updated in place and range
    iterators that read it live, so that a store changed during an iteration is seen changed. */
module WorldState {
  import opened Wrappers
  import opened Strings
  import opened CompositeKeys

  class Stub {
    var state: World

    constructor ()
      ensures state == map[]
    {
      state := map[];
    }

    method GetState(key: string) returns (value: Option<string>)
      ensures value == if key in state then Some(state[key]) else None
    {
      value := if key in state then Some(state[key]) else None;
    }

    method PutState(key: string, value: string)
      modifies this
      ensures state == old(state)[key := value]
    {
      state := state[key := value];
    }

    method DelState(key: string)
      modifies this
      ensures state == old(state) - {key}
    {
      state := state - {key};
    }

    /** GetStateByPartialCompositeKey(objectType, []). */
    method GetStateByPartialCompositeKey(objectType: string) returns (r: Result<StateIterator, KeyError>)
      ensures if Plain(objectType) then r.Ok? else r == Err(ReservedCharacter)
      ensures r.Ok? ==> (fresh(r.value) && r.value.stub == this && r.value.Rest() == Scan(state, objectType))
    {
      if Plain(objectType) {
        var cursor := new StateIterator(this, Partial(objectType), Partial(objectType) + [MAX]);
        r := Ok(cursor);
      } else {
        r := Err(ReservedCharacter);
      }
    }
  }

  lemma PastLeast(key: string, k: string, from: string)
    requires !Less(key, from)
    ensures !Less(k, key + [NUL]) <==> Less(key, k)
    ensures Less(key, k) ==> !Less(k, from) && k != key
  {
    SuccessorTight(key, k);
    LessIrreflexive(key);
    if Less(key, k) && Less(k, from) {
      LessTransitive(key, k, from);
    }
  }

  class StateIterator {
    const stub: Stub
    const until: string
    var position: string      // the smallest key still to be read

    constructor (stub: Stub, from: string, until: string)
      ensures this.stub == stub && position == from && this.until == until
    {
      this.stub, this.until, position := stub, until, from;
    }

    /** What is left to read. */
    function Rest(): World
      reads this, stub
    {
      Slice(stub.state, position, until)
    }

    method HasNext() returns (more: bool)
      ensures more <==> Rest().Keys != {}
    {
      more := Rest().Keys != {};
    }

    /** Returns the smallest remaining key and moves past it. */
    method Next() returns (key: string, value: string)
      requires Rest().Keys != {}
      modifies this
      ensures key == Least(old(Rest().Keys)) && value == old(Rest())[key]
      ensures Less(key, position) && !Less(key, old(position))
      ensures Rest() == old(Rest()) - {key}
    {
      ghost var before := Rest();
      key := Least(Rest().Keys);
      value := Rest()[key];
      position := key + [NUL];
      SuccessorTight(key, position);
      LessIrreflexive(position);
      forall k | k in stub.state
        ensures k in Rest() <==> k in before && k != key
      {
        PastLeast(key, k, old(position));
      }
    }
  }
}
