/** dataservice.go and datacollection.go: the operations on the stub, one statement after
    another, each proved to do what its specification says and to reply once. */
module DataService {
  import opened Wrappers
  import opened Collections
  import opened Strings
  import opened CompositeKeys
  import opened WorldState
  import opened DataServiceSpec
  import Spec = DataServiceSpec

  class DataService {
    const stub: Stub

    constructor (stub: Stub)
      ensures this.stub == stub
    {
      this.stub := stub;
    }

    method CreateCollection(id: string, force: bool) returns (reply: Reply)
      modifies stub
      ensures (stub.state, reply) == Spec.CreateCollection(old(stub.state), id, force)
    {
      var key := CompositeKey(COLLECTION_OBJECT_TYPE, id);
      if key.Err? {
        return Failure(BadKey(key.error));
      }
      if !force {
        var existing := stub.GetState(key.value);
        if existing.Some? {
          return Failure(CollectionExists(id));
        }
      }
      stub.PutState(key.value, CollectionRecord(id));
      reply := Handle(id);
    }

    method DeleteCollection(id: string) returns (reply: Reply)
      modifies stub
      ensures (stub.state, reply) == Spec.DeleteCollection(old(stub.state), id)
    {
      var key := CompositeKey(COLLECTION_OBJECT_TYPE, id);
      if key.Err? {
        return Failure(BadKey(key.error));
      }
      // The scan is accepted: it checks the ID for the same characters as the key did.
      var err := ClearCollection(id);
      stub.DelState(key.value);
      reply := Done;
    }

    method GetCollection(id: string) returns (reply: Reply)
      ensures reply == Spec.GetCollection(stub.state, id)
    {
      var key := CompositeKey(COLLECTION_OBJECT_TYPE, id);
      if key.Err? {
        return Failure(BadKey(key.error));
      }
      var value := stub.GetState(key.value);
      if value.None? {
        return Failure(NoSuchCollection(id));
      }
      reply := Handle(id);
    }

    method ExistsCollection(id: string) returns (reply: Reply)
      ensures reply == Spec.ExistsCollection(stub.state, id)
    {
      var key := CompositeKey(COLLECTION_OBJECT_TYPE, id);
      if key.Err? {
        return Failure(BadKey(key.error));
      }
      var value := stub.GetState(key.value);
      reply := Reply.Exists(value.Some?);
    }

    /** Deletes the keys of the collection while iterating over them. */
    method ClearCollection(collectionID: string) returns (err: Option<KeyError>)
      modifies stub
      ensures err.Some? <==> !Plain(collectionID)
      ensures stub.state == if Plain(collectionID) then old(stub.state) - Scan(old(stub.state), collectionID).Keys
                            else old(stub.state)
    {
      var r := stub.GetStateByPartialCompositeKey(collectionID);
      if r.Err? {
        return Some(r.error);
      }
      var cursor := r.value;
      ghost var w := stub.state;
      ghost var rest := cursor.Rest();
      var more := cursor.HasNext();
      while more
        invariant fresh(cursor) && cursor.stub == stub && cursor.Rest() == rest
        invariant rest.Keys <= Scan(w, collectionID).Keys
        invariant stub.state == w - (Scan(w, collectionID).Keys - rest.Keys)
        invariant more <==> rest.Keys != {}
        decreases |rest.Keys|
      {
        var key, value := cursor.Next();
        DeletePassed(stub.state, key, cursor.position, cursor.until);
        DeleteOne(w, Scan(w, collectionID).Keys, rest, key);
        stub.DelState(key);
        rest := rest - {key};
        more := cursor.HasNext();
      }
      assert Scan(w, collectionID).Keys - rest.Keys == Scan(w, collectionID).Keys;
      err := None;
    }
  }

  /** Deleting a key the iterator has passed leaves the rest of the iteration alone. */
  lemma DeletePassed(w: World, key: string, from: string, until: string)
    requires Less(key, from)
    ensures Slice(w - {key}, from, until) == Slice(w, from, until)
  {
  }

  lemma DeleteOne(w: World, all: set<string>, rest: World, key: string)
    requires key in rest && rest.Keys <= all
    ensures (rest - {key}).Keys == rest.Keys - {key}
    ensures w - (all - rest.Keys) - {key} == w - (all - (rest - {key}).Keys)
  {
    assert all - (rest.Keys - {key}) == (all - rest.Keys) + {key};
  }

  class DataCollection {
    const stub: Stub
    const collectionID: string

    constructor (stub: Stub, collectionID: string)
      ensures this.stub == stub && this.collectionID == collectionID
    {
      this.stub, this.collectionID := stub, collectionID;
    }

    method GetAll() returns (reply: Reply)
      ensures reply == Spec.GetAll(stub.state, collectionID)
    {
      var r := stub.GetStateByPartialCompositeKey(collectionID);
      if r.Err? {
        return Failure(BadKey(r.error));
      }
      var jsons := ReadAll(r.value);
      reply := Objects(jsons);
    }

    /** The loop of getAll: the values the iterator has left, in the order it yields them. */
    method ReadAll(cursor: StateIterator) returns (jsons: seq<string>)
      modifies cursor
      ensures jsons == InOrder(old(cursor.Rest()))
    {
      jsons := [];
      ghost var rest := cursor.Rest();
      var more := cursor.HasNext();
      while more
        invariant cursor.Rest() == rest
        invariant jsons + InOrder(rest) == InOrder(old(cursor.Rest()))
        invariant more <==> rest.Keys != {}
        decreases |rest.Keys|
      {
        var key, value := cursor.Next();
        InOrderStep(jsons, rest);
        assert (rest - {key}).Keys == rest.Keys - {key};
        rest := rest - {key};
        jsons := jsons + [value];
        more := cursor.HasNext();
      }
    }

    method Get(id: string) returns (reply: Reply)
      ensures reply == Spec.Get(stub.state, collectionID, id)
    {
      var key := CompositeKey(collectionID, id);
      if key.Err? {
        return Failure(BadKey(key.error));
      }
      var value := stub.GetState(key.value);
      if value.None? {
        return Failure(NoSuchObject(id));
      }
      reply := Object(value.value);
    }

    method Exists(id: string) returns (reply: Reply)
      ensures reply == Spec.ExistsObject(stub.state, collectionID, id)
    {
      var key := CompositeKey(collectionID, id);
      if key.Err? {
        return Failure(BadKey(key.error));
      }
      var value := stub.GetState(key.value);
      reply := Reply.Exists(value.Some?);
    }

    method Add(id: string, json: string, force: bool) returns (reply: Reply)
      modifies stub
      ensures (stub.state, reply) == Spec.Add(old(stub.state), collectionID, id, json, force)
    {
      var key := CompositeKey(collectionID, id);
      if key.Err? {
        return Failure(BadKey(key.error));
      }
      if !force {
        var existing := stub.GetState(key.value);
        if existing.Some? {
          return Failure(ObjectExists(id));
        }
      }
      stub.PutState(key.value, json);
      reply := Done;
    }

    method Update(id: string, json: string) returns (reply: Reply)
      modifies stub
      ensures (stub.state, reply) == Spec.Update(old(stub.state), collectionID, id, json)
    {
      var key := CompositeKey(collectionID, id);
      if key.Err? {
        return Failure(BadKey(key.error));
      }
      var existing := stub.GetState(key.value);
      if existing.None? {
        return Failure(NoSuchObject(id));
      }
      stub.PutState(key.value, json);
      reply := Done;
    }

    method Remove(id: string) returns (reply: Reply)
      modifies stub
      ensures (stub.state, reply) == Spec.Remove(old(stub.state), collectionID, id)
    {
      var key := CompositeKey(collectionID, id);
      if key.Err? {
        return Failure(BadKey(key.error));
      }
      var existing := stub.GetState(key.value);
      if existing.None? {
        return Failure(NoSuchObject(id));
      }
      stub.DelState(key.value);
      reply := Done;
    }
  }
}
