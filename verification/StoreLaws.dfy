/** What callers of the data service can count on, stated by the replies alone: what was written is
    read, what was removed is gone, and nothing else changes. */
module StoreLaws {
  import opened Wrappers
  import opened Strings
  import opened CompositeKeys
  import opened JsonText
  import opened DataServiceSpec
  import opened Ledger

  predicate IsPlain(c: string, id: string) {
    Plain(c) && Plain(id)
  }

  /** Every object but (c, id) is read as before. */
  ghost predicate OthersRead(w: World, after: World, c: string, id: string) {
    forall d, j :: IsPlain(d, j) && (d != c || j != id) ==> Get(after, d, j) == Get(w, d, j)
  }

  lemma OneKeyOthers(w: World, after: World, c: string, id: string)
    requires IsPlain(c, id)
    requires forall k :: k != Join(c, id) ==> (k in after <==> k in w) && (k in w ==> after[k] == w[k])
    ensures OthersRead(w, after, c, id)
  {
    forall d, j | IsPlain(d, j) && (d != c || j != id)
      ensures Get(after, d, j) == Get(w, d, j)
    {
      if Join(d, j) == Join(c, id) {
        JoinInjective(d, j, c, id);
      }
    }
  }

  /** An add is refused exactly without force for an object that exists; otherwise the object is read
      from then on as it was written. */
  lemma AddThenGet(w: World, c: string, id: string, json: string, force: bool)
    requires IsPlain(c, id)
    ensures
      var (after, reply) := Add(w, c, id, json, force);
      if force || ExistsObject(w, c, id) == Exists(false)
      then reply == Done && Get(after, c, id) == Object(json) && OthersRead(w, after, c, id)
      else reply == Failure(ObjectExists(id)) && after == w
  {
    OneKeyOthers(w, Add(w, c, id, json, force).0, c, id);
  }

  /** An update is refused exactly for an object that does not exist. */
  lemma UpdateThenGet(w: World, c: string, id: string, json: string)
    requires IsPlain(c, id)
    ensures
      var (after, reply) := Update(w, c, id, json);
      if ExistsObject(w, c, id) == Exists(true)
      then reply == Done && Get(after, c, id) == Object(json) && OthersRead(w, after, c, id)
      else reply == Failure(NoSuchObject(id)) && after == w
  {
    OneKeyOthers(w, Update(w, c, id, json).0, c, id);
  }

  /** So is a remove; after it the object is not found, and may be added again. */
  lemma RemoveThenGet(w: World, c: string, id: string, json: string)
    requires IsPlain(c, id)
    ensures
      var (after, reply) := Remove(w, c, id);
      if ExistsObject(w, c, id) == Exists(true)
      then reply == Done && Get(after, c, id) == Failure(NoSuchObject(id)) && Add(after, c, id, json, false).1 == Done
           && OthersRead(w, after, c, id)
      else reply == Failure(NoSuchObject(id)) && after == w
  {
    OneKeyOthers(w, Remove(w, c, id).0, c, id);
  }

  /** exists and get agree. */
  lemma ExistsIffGet(w: World, c: string, id: string)
    requires IsPlain(c, id)
    ensures if ExistsObject(w, c, id) == Exists(true) then Get(w, c, id).Object? else Get(w, c, id) == Failure(NoSuchObject(id))
  {
  }

  /** A collection is created exactly with force or if there is none; it is found from then on, by a
      record that names it, and no object of any collection changes. */
  lemma CreateThenExists(w: World, id: string, force: bool, other: string)
    requires Plain(id) && Plain(other)
    ensures
      var (after, reply) := CreateCollection(w, id, force);
      if force || ExistsCollection(w, id) == Exists(false)
      then reply == Handle(id) && ExistsCollection(after, id) == Exists(true) && GetCollection(after, id) == Handle(id)
           && CollectionKey(id) in after && RecordedId(after[CollectionKey(id)]) == Some(id)
           && OthersRead(w, after, COLLECTION_OBJECT_TYPE, id)
           && (other != id ==> ExistsCollection(after, other) == ExistsCollection(w, other))
      else reply == Failure(CollectionExists(id)) && after == w
  {
    ReservedIdIsPlain();
    var (after, reply) := CreateCollection(w, id, force);
    if reply == Handle(id) {
      OneKeyOthers(w, after, COLLECTION_OBJECT_TYPE, id);
      QuoteBack("{\"id\":", id, "}");
    }
    if other != id && CollectionKey(other) == CollectionKey(id) {
      JoinInjective(COLLECTION_OBJECT_TYPE, other, COLLECTION_OBJECT_TYPE, id);
    }
  }

  /** After a delete neither the collection nor any of its objects is found, every other collection is
      found as before, and every object of another collection is read as before. */
  lemma DeleteThenExists(w: World, id: string, other: string, d: string, j: string)
    requires Plain(id) && Plain(other) && IsPlain(d, j) && id != COLLECTION_OBJECT_TYPE && d != COLLECTION_OBJECT_TYPE
    ensures
      var (after, reply) := DeleteCollection(w, id);
      && reply == Done && ExistsCollection(after, id) == Exists(false)
      && (other != id ==> ExistsCollection(after, other) == ExistsCollection(w, other))
      && Get(after, d, j) == if d == id then Failure(NoSuchObject(j)) else Get(w, d, j)
  {
    ReservedIdIsPlain();
    InScan(w, id, COLLECTION_OBJECT_TYPE, other);
    InScan(w, id, d, j);
    if CollectionKey(other) == CollectionKey(id) {
      JoinInjective(COLLECTION_OBJECT_TYPE, other, COLLECTION_OBJECT_TYPE, id);
    }
    if Join(d, j) == CollectionKey(id) {
      JoinInjective(d, j, COLLECTION_OBJECT_TYPE, id);
    }
  }

  /** With an ID that no key can be made from, every operation is refused and changes nothing. */
  lemma ReservedCharactersRefused(w: World, c: string, id: string, json: string, force: bool)
    requires !IsPlain(c, id)
    ensures var refused := Failure(BadKey(ReservedCharacter));
            && Add(w, c, id, json, force) == Update(w, c, id, json) == Remove(w, c, id) == (w, refused)
            && Get(w, c, id) == ExistsObject(w, c, id) == refused
    ensures !Plain(c) ==>
              var refused := Failure(BadKey(ReservedCharacter));
              && CreateCollection(w, c, force) == DeleteCollection(w, c) == (w, refused)
              && GetCollection(w, c) == ExistsCollection(w, c) == GetAll(w, c) == refused
  {
  }
}
