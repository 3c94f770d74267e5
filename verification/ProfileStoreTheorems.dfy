/** Combinations of profile stores: first store wins, whatever way they are nested. */
module ProfileStoreTheorems {
  import opened Wrappers
  import opened ProfileStores

  // ----- The same operations on the flat list of single stores -----

  function FirstTruthy(w: World, refs: seq<Ref>, name: string): Option<Data> {
    if refs == [] then None
    else
      var c := At(w, refs[0]);
      if name in c.profiles && c.profiles[name].Truthy? then Some(c.profiles[name])
      else FirstTruthy(w, refs[1..], name)
  }

  function FirstHolding(w: World, refs: seq<Ref>, name: string): Option<Data> {
    if refs == [] then None
    else if name in At(w, refs[0]).profiles then Some(At(w, refs[0]).profiles[name])
    else FirstHolding(w, refs[1..], name)
  }

  function FirstAccepting(w: World, refs: seq<Ref>): (i: nat)
    ensures i <= |refs|
    ensures forall j :: 0 <= j < i ==> !Accepts(At(w, refs[j]))
    ensures i < |refs| ==> Accepts(At(w, refs[i]))
  {
    if refs == [] || Accepts(At(w, refs[0])) then 0 else 1 + FirstAccepting(w, refs[1..])
  }

  // ----- Nesting does not matter -----

  lemma {:induction false} FirstTruthyConcat(w: World, a: seq<Ref>, b: seq<Ref>, name: string)
    ensures FirstTruthy(w, a + b, name) ==
              if FirstTruthy(w, a, name).Some? then FirstTruthy(w, a, name) else FirstTruthy(w, b, name)
    ensures FirstTruthy(w, a, name).Some? ==> FirstTruthy(w, a, name).value.Truthy?
  {
    if a == [] {
      assert a + b == b;
    } else {
      assert (a + b)[0] == a[0] && (a + b)[1..] == a[1..] + b;
      FirstTruthyConcat(w, a[1..], b, name);
    }
  }

  /** What a combination loads is the first truthy profile among its single stores, in order. */
  lemma {:induction false} LoadIsFirstTruthy(w: World, stores: Stores, name: string)
    ensures Load(w, Combo(stores), name) == FirstTruthy(w, Leaves(Combo(stores)), name)
  {
    match stores {
      case Nil =>
      case Cons(s, rest) =>
        LoadIsFirstTruthy(w, rest, name);
        FirstTruthyConcat(w, Leaves(s), AllLeaves(rest), name);
        match s {
          case Single(ref) =>
            assert Load(w, s, name) == LoadSingle(At(w, ref), name);
            assert LoadFirst(w, rest, name) == Load(w, Combo(rest), name);
            assert FirstTruthy(w, [ref][1..], name) == None;
          case Combo(inner) => LoadIsFirstTruthy(w, inner, name);
        }
    }
  }

  lemma {:induction false} FirstHoldingConcat(w: World, a: seq<Ref>, b: seq<Ref>, name: string)
    ensures FirstHolding(w, a + b, name) ==
              if FirstHolding(w, a, name).Some? then FirstHolding(w, a, name) else FirstHolding(w, b, name)
  {
    if a == [] {
      assert a + b == b;
    } else {
      assert (a + b)[0] == a[0] && (a + b)[1..] == a[1..] + b;
      FirstHoldingConcat(w, a[1..], b, name);
    }
  }

  function Lookup(m: map<string, Data>, name: string): Option<Data> {
    if name in m then Some(m[name]) else None
  }

  /** loadAll shows, under each name, what the first single store that has the name holds. */
  lemma {:induction false} LoadAllIsFirstHolding(w: World, s: Store, name: string)
    ensures Lookup(LoadAll(w, s), name) == FirstHolding(w, Leaves(s), name)
  {
    match s {
      case Single(ref) => assert [ref][1..] == [];
      case Combo(stores) => LoadEachIsFirstHolding(w, stores, map[], name);
    }
  }

  lemma {:induction false} LoadEachIsFirstHolding(w: World, stores: Stores, soFar: map<string, Data>, name: string)
    ensures Lookup(LoadEach(w, stores, soFar), name) ==
              if name in soFar then Some(soFar[name]) else FirstHolding(w, AllLeaves(stores), name)
  {
    match stores {
      case Nil =>
      case Cons(s, rest) =>
        LoadAllIsFirstHolding(w, s, name);
        LoadEachIsFirstHolding(w, rest, LoadAll(w, s) + soFar, name);
        FirstHoldingConcat(w, Leaves(s), AllLeaves(rest), name);
    }
  }

  /** A save goes to the first single store that accepts it and to no other. */
  lemma {:induction false} SaveGoesToFirstAccepting(w: World, s: Store, name: string, d: Data)
    ensures
      var i := FirstAccepting(w, Leaves(s));
      Save(w, s, name, d) == if i < |Leaves(s)| then SaveSingle(w, Leaves(s)[i], name, d) else (w, false)
  {
    match s {
      case Single(ref) => assert [ref][1..] == [];
      case Combo(stores) => SaveFirstGoes(w, stores, name, d);
    }
  }

  lemma {:induction false} SaveFirstGoes(w: World, stores: Stores, name: string, d: Data)
    ensures
      var i := FirstAccepting(w, AllLeaves(stores));
      SaveFirst(w, stores, name, d) == if i < |AllLeaves(stores)| then SaveSingle(w, AllLeaves(stores)[i], name, d) else (w, false)
  {
    match stores {
      case Nil =>
      case Cons(s, rest) =>
        SaveGoesToFirstAccepting(w, s, name, d);
        SaveFirstGoes(w, rest, name, d);
        FirstAcceptingConcat(w, Leaves(s), AllLeaves(rest));
    }
  }

  lemma {:induction false} FirstAcceptingConcat(w: World, a: seq<Ref>, b: seq<Ref>)
    ensures FirstAccepting(w, a + b) ==
              if FirstAccepting(w, a) < |a| then FirstAccepting(w, a) else |a| + FirstAccepting(w, b)
  {
    if a == [] {
      assert a + b == b;
    } else {
      assert (a + b)[0] == a[0] && (a + b)[1..] == a[1..] + b;
      FirstAcceptingConcat(w, a[1..], b);
    }
  }

  /** What a delete leaves in one store. */
  function AfterDelete(c: Content, name: string): Content {
    if Accepts(c) then c.(profiles := c.profiles - {name}) else c
  }

  /** A delete reaches every single store that accepts it. */
  lemma {:induction false} DeleteReachesAll(w: World, s: Store, name: string, ref: Ref)
    ensures At(Delete(w, s, name), ref) == if ref in Leaves(s) then AfterDelete(At(w, ref), name) else At(w, ref)
    decreases s
  {
    match s {
      case Single(_) =>
      case Combo(stores) => DeleteEachReachesAll(w, stores, name, ref);
    }
  }

  lemma {:induction false} DeleteEachReachesAll(w: World, stores: Stores, name: string, ref: Ref)
    ensures At(DeleteEach(w, stores, name), ref) ==
              if ref in AllLeaves(stores) then AfterDelete(At(w, ref), name) else At(w, ref)
    decreases stores
  {
    match stores {
      case Nil =>
      case Cons(s, rest) =>
        DeleteReachesAll(w, s, name, ref);
        DeleteEachReachesAll(Delete(w, s, name), rest, name, ref);
        assert AfterDelete(AfterDelete(At(w, ref), name), name) == AfterDelete(At(w, ref), name);
    }
  }

  /** Any two combinations of the same single stores in the same order behave alike, however
      they are nested. */
  lemma NestingDoesNotMatter(w: World, a: Stores, b: Stores, name: string, d: Data)
    requires Leaves(Combo(a)) == Leaves(Combo(b))
    ensures Load(w, Combo(a), name) == Load(w, Combo(b), name)
    ensures Lookup(LoadAll(w, Combo(a)), name) == Lookup(LoadAll(w, Combo(b)), name)
    ensures Save(w, Combo(a), name, d) == Save(w, Combo(b), name, d)
    ensures forall ref :: At(Delete(w, Combo(a), name), ref) == At(Delete(w, Combo(b), name), ref)
  {
    LoadIsFirstTruthy(w, a, name);
    LoadIsFirstTruthy(w, b, name);
    LoadAllIsFirstHolding(w, Combo(a), name);
    LoadAllIsFirstHolding(w, Combo(b), name);
    SaveGoesToFirstAccepting(w, Combo(a), name, d);
    SaveGoesToFirstAccepting(w, Combo(b), name, d);
    forall ref: Ref
      ensures At(Delete(w, Combo(a), name), ref) == At(Delete(w, Combo(b), name), ref)
    {
      DeleteReachesAll(w, Combo(a), name, ref);
      DeleteReachesAll(w, Combo(b), name, ref);
    }
  }

  // ----- load and loadAll -----

  lemma {:induction false} TruthyIsHolding(w: World, refs: seq<Ref>, name: string)
    ensures FirstTruthy(w, refs, name) == FirstHolding(w, refs, name) <==>
              (FirstHolding(w, refs, name).Some? ==> FirstHolding(w, refs, name).value.Truthy?)
    ensures FirstTruthy(w, refs, name).Some? ==> FirstTruthy(w, refs, name).value.Truthy? && FirstHolding(w, refs, name).Some?
  {
    if refs != [] {
      TruthyIsHolding(w, refs[1..], name);
    }
  }

  /** loadAll agrees with load on a name exactly when the first store that has the name does not
      hold null, false, 0 or "" under it. */
  lemma LoadAllAgreesWithLoad(w: World, stores: Stores, name: string)
    ensures Lookup(LoadAll(w, Combo(stores)), name) == Load(w, Combo(stores), name) <==>
              FirstHolding(w, AllLeaves(stores), name) != Some(Falsy)
  {
    LoadIsFirstTruthy(w, stores, name);
    LoadAllIsFirstHolding(w, Combo(stores), name);
    TruthyIsHolding(w, AllLeaves(stores), name);
  }

  /** A profile saved as null: loadAll shows it, load does not find it. */
  lemma NullShownButNotLoaded(name: string)
    ensures
      var w: World := map[0 := Content(Disk(true), map[name := Falsy])];
      var stores := Cons(Single(0), Nil);
      Lookup(LoadAll(w, Combo(stores)), name) == Some(Falsy) && Load(w, Combo(stores), name) == None
  {
    var w: World := map[0 := Content(Disk(true), map[name := Falsy])];
    LoadAllIsFirstHolding(w, Combo(Cons(Single(0), Nil)), name);
    LoadIsFirstTruthy(w, Cons(Single(0), Nil), name);
    assert AllLeaves(Cons(Single(0), Nil)) == [0];
  }

  /** A single file store loads what it holds, be it null; the environment store finds nothing there. */
  lemma SingleLoads(w: World, ref: Ref, name: string)
    ensures
      var c := At(w, ref);
      Load(w, Single(ref), name) ==
        if name in c.profiles && (c.kind == Env ==> c.profiles[name] != Falsy) then Some(c.profiles[name]) else None
  {
  }

  // ----- What a save or a delete leaves alone -----

  /** No store has changed but for what a store that takes writes holds under `name`. */
  ghost predicate OnlyName(w: World, after: World, name: string) {
    forall ref {:trigger At(after, ref)} ::
      && At(after, ref).kind == At(w, ref).kind
      && (forall other :: other != name ==> Lookup(At(after, ref).profiles, other) == Lookup(At(w, ref).profiles, other))
      && (At(w, ref).kind != Disk(true) ==> At(after, ref) == At(w, ref))
  }

  /** A save changes what one writable disk holds under the saved name, and nothing else anywhere. */
  lemma SaveLeavesOthers(w: World, s: Store, name: string, d: Data)
    ensures OnlyName(w, Save(w, s, name, d).0, name)
  {
    SaveGoesToFirstAccepting(w, s, name, d);
  }

  /** And exactly this: the first writable disk among the stores holds the data under the name. */
  lemma SaveWrites(w: World, s: Store, name: string, d: Data, ref: Ref)
    ensures
      var refs, after := Leaves(s), Save(w, s, name, d).0;
      var i := FirstAccepting(w, refs);
      At(after, ref) == if i < |refs| && ref == refs[i] then Content(Disk(true), At(w, ref).profiles[name := d]) else At(w, ref)
  {
    SaveGoesToFirstAccepting(w, s, name, d);
  }

  /** A delete changes what writable disks hold under the deleted name, and nothing else anywhere. */
  lemma DeleteLeavesOthers(w: World, s: Store, name: string)
    ensures OnlyName(w, Delete(w, s, name), name)
  {
    forall ref: Ref
      ensures At(Delete(w, s, name), ref) == if ref in Leaves(s) then AfterDelete(At(w, ref), name) else At(w, ref)
    {
      DeleteReachesAll(w, s, name, ref);
    }
  }

  lemma {:induction false} FirstSame(w: World, after: World, refs: seq<Ref>, name: string, other: string)
    requires OnlyName(w, after, name) && other != name
    ensures FirstTruthy(after, refs, other) == FirstTruthy(w, refs, other)
    ensures FirstHolding(after, refs, other) == FirstHolding(w, refs, other)
  {
    if refs != [] {
      FirstSame(w, after, refs[1..], name, other);
      assert Lookup(At(after, refs[0]).profiles, other) == Lookup(At(w, refs[0]).profiles, other);
    }
  }

  /** So every other profile loads, and is listed, as before. */
  lemma OthersLoadAsBefore(w: World, after: World, stores: Stores, name: string, other: string)
    requires OnlyName(w, after, name) && other != name
    ensures Load(after, Combo(stores), other) == Load(w, Combo(stores), other)
    ensures Lookup(LoadAll(after, Combo(stores)), other) == Lookup(LoadAll(w, Combo(stores)), other)
  {
    LoadIsFirstTruthy(w, stores, other);
    LoadIsFirstTruthy(after, stores, other);
    LoadAllIsFirstHolding(w, Combo(stores), other);
    LoadAllIsFirstHolding(after, Combo(stores), other);
    FirstSame(w, after, AllLeaves(stores), name, other);
  }

  /** Saving or deleting one profile through a combination affects no other. */
  lemma OtherProfilesUntouched(w: World, stores: Stores, name: string, d: Data, other: string)
    requires other != name
    ensures
      var saved, deleted := Save(w, Combo(stores), name, d).0, Delete(w, Combo(stores), name);
      && Load(saved, Combo(stores), other) == Load(w, Combo(stores), other) == Load(deleted, Combo(stores), other)
      && Lookup(LoadAll(saved, Combo(stores)), other) == Lookup(LoadAll(w, Combo(stores)), other)
           == Lookup(LoadAll(deleted, Combo(stores)), other)
  {
    SaveLeavesOthers(w, Combo(stores), name, d);
    DeleteLeavesOthers(w, Combo(stores), name);
    OthersLoadAsBefore(w, Save(w, Combo(stores), name, d).0, stores, name, other);
    OthersLoadAsBefore(w, Delete(w, Combo(stores), name), stores, name, other);
  }

  // ----- save, then load -----

  lemma {:induction false} TruthySplit(w: World, refs: seq<Ref>, i: nat, name: string)
    requires i <= |refs|
    ensures FirstTruthy(w, refs, name) ==
              if FirstTruthy(w, refs[..i], name).Some? then FirstTruthy(w, refs[..i], name) else FirstTruthy(w, refs[i..], name)
  {
    assert refs == refs[..i] + refs[i..];
    FirstTruthyConcat(w, refs[..i], refs[i..], name);
  }

  lemma {:induction false} TruthyUntouched(w: World, w': World, refs: seq<Ref>, name: string)
    requires forall ref <- refs :: At(w, ref) == At(w', ref)
    ensures FirstTruthy(w, refs, name) == FirstTruthy(w', refs, name)
  {
    if refs != [] {
      TruthyUntouched(w, w', refs[1..], name);
    }
  }

  /** A save succeeds exactly when some single store accepts it. What it saved is read back exactly
      when it is not null, false, 0 or "", which load passes over, and no store ahead of that one,
      each of which refused it, already holds something else under the name. */
  lemma SaveReadBack(w: World, stores: Stores, name: string, d: Data)
    ensures
      var refs := AllLeaves(stores);
      var (after, saved) := Save(w, Combo(stores), name, d);
      var i := FirstAccepting(w, refs);
      && (saved <==> exists ref <- refs :: At(w, ref).kind == Disk(true))
      && (saved ==> i < |refs| && Lookup(At(after, refs[i]).profiles, name) == Some(d))
      && (saved ==> (Load(after, Combo(stores), name) == Some(d) <==>
                       d.Truthy? && FirstTruthy(w, refs[..i], name) in {None, Some(d)}))
  {
    var refs := AllLeaves(stores);
    var (after, saved) := Save(w, Combo(stores), name, d);
    var i := FirstAccepting(w, refs);
    SaveGoesToFirstAccepting(w, Combo(stores), name, d);
    LoadIsFirstTruthy(after, stores, name);
    TruthyIsHolding(after, refs, name);
    if i < |refs| {
      assert refs[i] in refs;
      TruthySplit(after, refs, i, name);
      forall ref | ref in refs[..i]
        ensures At(w, ref) == At(after, ref)
      {
        assert !Accepts(At(w, ref));
      }
      TruthyUntouched(w, after, refs[..i], name);
      assert refs[i..][0] == refs[i];
    }
  }

  // ----- delete, then load -----

  lemma {:induction false} TruthyIff(w: World, refs: seq<Ref>, name: string)
    ensures FirstTruthy(w, refs, name).Some? <==>
              exists ref <- refs :: name in At(w, ref).profiles && At(w, ref).profiles[name].Truthy?
  {
    if refs != [] {
      TruthyIff(w, refs[1..], name);
      assert refs == [refs[0]] + refs[1..];
    }
  }

  /** After a delete the name still loads exactly when a store that refuses deletes holds it. */
  lemma DeleteThenLoad(w: World, stores: Stores, name: string)
    ensures Load(Delete(w, Combo(stores), name), Combo(stores), name).Some? <==>
              exists ref <- AllLeaves(stores) ::
                At(w, ref).kind != Disk(true) && name in At(w, ref).profiles && At(w, ref).profiles[name].Truthy?
  {
    var refs, after := AllLeaves(stores), Delete(w, Combo(stores), name);
    LoadIsFirstTruthy(after, stores, name);
    TruthyIff(after, refs, name);
    forall ref | ref in refs
      ensures At(after, ref) == AfterDelete(At(w, ref), name)
    {
      DeleteReachesAll(w, Combo(stores), name, ref);
    }
  }
}
