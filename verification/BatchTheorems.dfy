/** Adding model files as a batch against adding them one by one. */
module BatchTheorems {
  import opened Wrappers
  import opened Strings
  import opened Collections
  import opened ModelUtil
  import opened ModelRegistry
  import opened RegistryTheorems

  // ----- Registering does not depend on the order -----

  function Names(files: seq<ModelFile>): (names: seq<string>)
    ensures |names| == |files| && forall i :: 0 <= i < |files| ==> names[i] == files[i].namespace
  {
    seq(|files|, i requires 0 <= i < |files| => files[i].namespace)
  }

  ghost predicate Fresh(r: Registry, names: seq<string>) {
    forall ns <- names :: ns != SYSTEM_NAMESPACE && ns !in r
  }

  /** Registering succeeds exactly when no namespace is the system's, taken, or used twice. */
  lemma {:induction false} RegisterIff(r: Registry, files: seq<ModelFile>)
    ensures Register(r, files).Ok? <==> Distinct(Names(files)) && Fresh(r, Names(files))
    decreases |files|
  {
    if files != [] {
      var f, rest := files[0], files[1..];
      assert Names(files) == [f.namespace] + Names(rest);
      DistinctCons(f.namespace, Names(rest));
      RegisterIff(r[f.namespace := f], rest);
      FreshCons(r, f, Names(rest));
    }
  }

  lemma FreshCons(r: Registry, f: ModelFile, rest: seq<string>)
    ensures Fresh(r, [f.namespace] + rest) && f.namespace !in rest
       <==> f.namespace != SYSTEM_NAMESPACE && f.namespace !in r && Fresh(r[f.namespace := f], rest)
  {
    var all := [f.namespace] + rest;
    assert forall ns :: ns in all <==> ns == f.namespace || ns in rest;
  }

  lemma NamesStep(order: seq<ModelFile>, i: nat)
    requires i < |order|
    ensures multiset(Names(order)) == multiset{order[i].namespace} + multiset(Names(Without(order, i)))
  {
    WithoutMultiset(Names(order), i);
    assert Names(Without(order, i)) == Without(Names(order), i);
  }

  lemma {:induction false} NamesMultiset(files: seq<ModelFile>, order: seq<ModelFile>)
    requires multiset(files) == multiset(order)
    ensures multiset(Names(files)) == multiset(Names(order))
    decreases |files|
  {
    if files == [] {
      assert |multiset(order)| == 0;
    } else {
      assert files[0] in multiset(order);
      var i :| 0 <= i < |order| && order[i] == files[0];
      NamesMultisetStep(files, order, i);
      NamesMultiset(Without(files, 0), Without(order, i));
      NamesStep(files, 0);
      NamesStep(order, i);
    }
  }

  lemma NamesMultisetStep(files: seq<ModelFile>, order: seq<ModelFile>, i: nat)
    requires files != [] && i < |order| && order[i] == files[0] && multiset(files) == multiset(order)
    ensures multiset(Without(files, 0)) == multiset(Without(order, i))
  {
    WithoutMultiset(files, 0);
    WithoutMultiset(order, i);
    MultisetCancel(files[0], multiset(Without(files, 0)), multiset(Without(order, i)));
  }

  lemma RegisterAnyOrder(r: Registry, files: seq<ModelFile>, order: seq<ModelFile>, all: Registry)
    requires Keyed(r) && Register(r, files) == Ok(all) && multiset(order) == multiset(files)
    ensures Register(r, order) == Ok(all)
  {
    RegisterIff(r, files);
    RegisterIff(r, order);
    NamesMultiset(files, order);
    DistinctIsOnce(Names(files));
    DistinctIsOnce(Names(order));
    SameMembers(Names(files), Names(order));
    SameRegistry(r, files, order);
  }

  /** The registry reached depends only on which files were registered. */
  lemma SameRegistry(r: Registry, files: seq<ModelFile>, order: seq<ModelFile>)
    requires Keyed(r) && Register(r, files).Ok? && Register(r, order).Ok? && multiset(order) == multiset(files)
    ensures Register(r, order) == Register(r, files)
  {
    var all, other := Register(r, files).value, Register(r, order).value;
    RegisterExtends(r, files, all);
    RegisterExtends(r, order, other);
    SameMembers(order, files);
    forall ns | ns in all
      ensures ns in other && other[ns] == all[ns]
    {
      if ns !in r {
        assert all[ns] in order && all[ns].namespace == ns;
      }
    }
    forall ns | ns in other
      ensures ns in all
    {
      if ns !in r {
        assert other[ns] in files && other[ns].namespace == ns;
      }
    }
    assert all == other;
  }

  // ----- One by one, then as a batch -----

  ghost predicate AllWellFormed(files: seq<ModelFile>) {
    forall f <- files :: WellFormed(f)
  }

  lemma {:induction false} OneByOneRegisters(r: Registry, files: seq<ModelFile>, final: Registry)
    requires Keyed(r) && AllWellFormed(files) && AddOneByOne(r, files) == Ok(final)
    ensures Register(r, files) == Ok(final)
    ensures forall f <- files :: Validates(final, f)
    decreases |files|
  {
    if files != [] {
      var f, next := files[0], r[files[0].namespace := files[0]];
      OneByOneRegisters(next, files[1..], final);
      RegisterExtends(next, files[1..], final);
      assert Keeps(r, final, f);
      StaysValid(r, final, f);
    }
  }

  /** Batch against sequence: if adding the files one by one succeeds then the batch, in any
      order, leads to the same registry exactly when the files registered before are valid
      there; otherwise it is refused and changes nothing. */
  lemma BatchMatchesSequence(r: Registry, files: seq<ModelFile>, order: seq<ModelFile>, final: Registry)
    requires Keyed(r) && AllWellFormed(files) && AddOneByOne(r, files) == Ok(final) && multiset(order) == multiset(files)
    ensures AddModelFiles(r, order) ==
              if forall ns <- r :: Validates(final, r[ns]) then Ok(final) else Err(IllegalModel)
  {
    OneByOneRegisters(r, files, final);
    RegisterAnyOrder(r, files, order, final);
    RegisterExtends(r, files, final);
  }

  /** In particular nothing is lost when the registry was valid to begin with. */
  lemma BatchMatchesSequenceWhenValid(r: Registry, files: seq<ModelFile>, order: seq<ModelFile>, final: Registry)
    requires Keyed(r) && AllValid(r) && forall ns <- r :: WellFormed(r[ns])
    requires AllWellFormed(files) && AddOneByOne(r, files) == Ok(final) && multiset(order) == multiset(files)
    ensures AddModelFiles(r, order) == Ok(final)
  {
    BatchMatchesSequence(r, files, order, final);
    OneByOneRegisters(r, files, final);
    RegisterExtends(r, files, final);
    forall ns | ns in r
      ensures Validates(final, r[ns])
    {
      assert Keeps(r, final, r[ns]);
      StaysValid(r, final, r[ns]);
    }
  }

  lemma SystemImportsStayOk(system: ModelFile, r: Registry, f: ModelFile, imports: seq<string>)
    requires system.namespace in r && r[system.namespace] == system
    requires forall fqn <- imports :: ImportOk(ClearModelFiles(system), fqn)
    requires f.imports == imports && f.references == {}
    ensures Validates(r, f)
  {
  }

  lemma AddedToStrand(system: ModelFile, imports: seq<string>, a: ModelFile, b: ModelFile)
    requires system.namespace == SYSTEM_NAMESPACE
    requires forall fqn <- imports :: ImportOk(ClearModelFiles(system), fqn)
    requires a == ModelFile("a", {"T"}, imports, {}) && b == ModelFile("b", {}, imports + ["a.T"], {})
    ensures AddModelFile(ClearModelFiles(system), a) == Ok(map[SYSTEM_NAMESPACE := system, "a" := a])
    ensures AddModelFile(map[SYSTEM_NAMESPACE := system, "a" := a], b) == Ok(map[SYSTEM_NAMESPACE := system, "a" := a, "b" := b])
  {
    assert |SYSTEM_NAMESPACE| > 1;
    SystemImportsStayOk(system, ClearModelFiles(system), a, imports);
    var r: Registry := map[SYSTEM_NAMESPACE := system, "a" := a];
    LastIndexUnique("a.T", '.', 1);
    assert "a.T"[..1] == "a" && "a.T"[2..] == "T";
    assert Namespace("a.T") == Ok("a") && ShortName("a.T") == "T";
    DeclaredTypeFound(a, "T");
    assert ImportOk(r, "a.T");
    forall fqn | fqn in b.imports
      ensures ImportOk(r, fqn)
    {
      assert fqn in imports || fqn == "a.T";
    }
  }

  /** From the system model alone, whatever it declares and a file imports from it: adding `a`, adding
      `b` that imports a type of `a`, and deleting `a` all succeed and leave `b` without what it
      imports. From then on a file that adding alone accepts is refused as a batch of one. */
  lemma BrokenRegistryRefusesBatch(system: ModelFile, imports: seq<string>)
    requires system.namespace == SYSTEM_NAMESPACE
    requires forall fqn <- imports :: ImportOk(ClearModelFiles(system), fqn)
    ensures
      var a, b, c := ModelFile("a", {"T"}, imports, {}), ModelFile("b", {}, imports + ["a.T"], {}), ModelFile("c", {}, imports, {});
      var r := Run(ClearModelFiles(system), system, [Add(a), Add(b), Delete("a")]);
      && r == map[SYSTEM_NAMESPACE := system, "b" := b]
      && AddModelFile(r, c).Ok? && AddModelFiles(r, [c]) == Err(IllegalModel)
  {
    var a, b, c := ModelFile("a", {"T"}, imports, {}), ModelFile("b", {}, imports + ["a.T"], {}), ModelFile("c", {}, imports, {});
    AddedToStrand(system, imports, a, b);
    var r: Registry := map[SYSTEM_NAMESPACE := system, "b" := b];
    assert |SYSTEM_NAMESPACE| > 1;
    var all: Registry := map[SYSTEM_NAMESPACE := system, "a" := a, "b" := b];
    assert all - {"a"} == r;
    RunOfThree(ClearModelFiles(system), system, Add(a), Add(b), Delete("a"));
    StrandedRefuses(system, imports, b, c);
  }

  lemma RunOfThree(r: Registry, system: ModelFile, x: Op, y: Op, z: Op)
    ensures Run(r, system, [x, y, z]) == Step(Step(Step(r, system, x), system, y), system, z)
  {
    var r1 := Step(r, system, x);
    var r2 := Step(r1, system, y);
    assert [x, y, z][1..] == [y, z] && [y, z][1..] == [z] && [z][1..] == [];
    assert Run(r1, system, [y, z]) == Run(r2, system, [z]);
    assert Run(r2, system, [z]) == Run(Step(r2, system, z), system, []);
  }

  lemma StrandedRefuses(system: ModelFile, imports: seq<string>, b: ModelFile, c: ModelFile)
    requires system.namespace == SYSTEM_NAMESPACE
    requires forall fqn <- imports :: ImportOk(ClearModelFiles(system), fqn)
    requires b == ModelFile("b", {}, imports + ["a.T"], {}) && c == ModelFile("c", {}, imports, {})
    ensures
      var r: Registry := map[SYSTEM_NAMESPACE := system, "b" := b];
      AddModelFile(r, c).Ok? && AddModelFiles(r, [c]) == Err(IllegalModel)
  {
    var r: Registry := map[SYSTEM_NAMESPACE := system, "b" := b];
    assert |SYSTEM_NAMESPACE| > 1;
    SystemImportsStayOk(system, r, c, imports);
    assert Register(r, [c]) == Ok(r["c" := c]);
    LastIndexUnique("a.T", '.', 1);
    assert "a.T" in b.imports && !ImportOk(r["c" := c], "a.T");
    assert r["c" := c]["b"] == b;
  }

  // ----- Dependency orders -----

  ghost predicate IsLeaf(f: ModelFile, group: seq<ModelFile>) {
    forall g <- group :: !ImportsNamespace(f, g.namespace)
  }

  /** Some member imports no member, itself included. */
  ghost predicate HasLeaf(group: seq<ModelFile>) {
    exists f <- group :: IsLeaf(f, group)
  }

  ghost predicate Within(group: seq<ModelFile>, files: seq<ModelFile>) {
    forall f <- group :: f in files
  }

  /** No group of files in which each imports another of the group or itself. */
  ghost predicate Acyclic(files: seq<ModelFile>) {
    forall group {:trigger HasLeaf(group)} :: group != [] && Within(group, files) ==> HasLeaf(group)
  }

  lemma {:induction false} OrderedIsAcyclic(r: Registry, order: seq<ModelFile>, group: seq<ModelFile>)
    requires Keyed(r) && AllWellFormed(order) && AddOneByOne(r, order).Ok?
    requires group != [] && Within(group, order)
    ensures HasLeaf(group)
    decreases |order|
  {
    assert group[0] in order;
    var f, rest := order[0], order[1..];
    if f in group {
      OneByOneRegisters(r, order, AddOneByOne(r, order).value);
      RegisterExtends(r, order, AddOneByOne(r, order).value);
      assert forall fqn <- f.imports :: ImportOk(r, fqn);
      assert IsLeaf(f, group);
    } else {
      assert order == [f] + rest;
      OrderedIsAcyclic(r[f.namespace := f], rest, group);
    }
  }

  /** Repeatedly adding a file that imports none of those still to come. */
  lemma {:induction false} AcyclicIsOrdered(r: Registry, files: seq<ModelFile>, all: Registry)
    requires Keyed(r) && AllWellFormed(files) && Register(r, files) == Ok(all) && Acyclic(files)
    requires forall f <- files :: Validates(all, f)
    ensures exists order :: multiset(order) == multiset(files) && AddOneByOne(r, order) == Ok(all)
    decreases |files|
  {
    if files == [] {
      assert AddOneByOne(r, files) == Ok(all);
    } else {
      assert HasLeaf(files);
      var f :| f in files && IsLeaf(f, files);
      var rest := SplitOff(files, f);
      AcyclicPart(files, rest);
      LeafValidNow(r, files, all, f);
      RegisterAnyOrder(r, files, [f] + rest, all);
      assert ([f] + rest)[1..] == rest;
      AcyclicIsOrdered(r[f.namespace := f], rest, all);
      var order :| multiset(order) == multiset(rest) && AddOneByOne(r[f.namespace := f], order) == Ok(all);
      AddFirst(r, f, order);
      assert multiset([f] + order) == multiset{f} + multiset(order);
    }
  }

  lemma SplitOff(files: seq<ModelFile>, f: ModelFile) returns (rest: seq<ModelFile>)
    requires f in files
    ensures multiset([f] + rest) == multiset(files) && |rest| < |files|
    ensures forall g <- rest :: g in files
  {
    var i :| 0 <= i < |files| && files[i] == f;
    rest := Without(files, i);
    WithoutMultiset(files, i);
    assert multiset([f] + rest) == multiset{f} + multiset(rest);
  }

  lemma AcyclicPart(files: seq<ModelFile>, part: seq<ModelFile>)
    requires Acyclic(files) && forall f <- part :: f in files
    ensures Acyclic(part)
  {
    forall group | group != [] && Within(group, part)
      ensures HasLeaf(group)
    {
      assert Within(group, files);
    }
  }

  lemma AddFirst(r: Registry, f: ModelFile, order: seq<ModelFile>)
    requires AddModelFile(r, f).Ok?
    ensures AddOneByOne(r, [f] + order) == AddOneByOne(r[f.namespace := f], order)
  {
    assert ([f] + order)[1..] == order;
  }

  /** A file that imports none of the new ones validates against the old ones alone. */
  lemma LeafValidNow(r: Registry, files: seq<ModelFile>, all: Registry, f: ModelFile)
    requires Keyed(r) && Register(r, files) == Ok(all) && f in files && WellFormed(f) && Validates(all, f)
    requires IsLeaf(f, files)
    ensures AddModelFile(r, f) == Ok(r[f.namespace := f])
  {
    RegisterExtends(r, files, all);
    assert Keeps(all, r, f);
    StaysValid(all, r, f);
  }

  /** A batch that is accepted can be added one by one in some order exactly when its files do
      not import each other in a circle. */
  lemma DependencyOrderIffAcyclic(r: Registry, files: seq<ModelFile>)
    requires Keyed(r) && AllWellFormed(files) && AddModelFiles(r, files).Ok?
    ensures (exists order :: multiset(order) == multiset(files) && AddOneByOne(r, order) == AddModelFiles(r, files))
       <==> Acyclic(files)
  {
    var all := AddModelFiles(r, files).value;
    RegisterExtends(r, files, all);
    if Acyclic(files) {
      AcyclicIsOrdered(r, files, all);
    }
    if order :| multiset(order) == multiset(files) && AddOneByOne(r, order) == AddModelFiles(r, files) {
      SameMembers(order, files);
      forall group | group != [] && Within(group, files)
        ensures HasLeaf(group)
      {
        OrderedIsAcyclic(r, order, group);
      }
    }
  }

  // ----- Looking up a declared type -----

  /** A declared type is always found by its fully qualified name, but by its short name only
      if that does not begin with the text of the namespace. */
  lemma DeclaredTypeFound(f: ModelFile, name: string)
    requires name in f.types && '.' !in name
    ensures IsLocalType(f, f.namespace + "." + name)
    ensures IsLocalType(f, name) <==> !StartsWith(name, f.namespace)
  {
    QualifiedHasDot(f);
    assert StartsWith(f.namespace + "." + name, f.namespace);
  }

  /** In namespace `a` the type `ab` is declared but not found, so that the file that declares it and
      refers to it is refused. */
  lemma ShortNameMissed(r: Registry)
    ensures
      var f := ModelFile("a", {"ab"}, [], {"ab"});
      "ab" in f.types && !IsLocalType(f, "ab") && IsLocalType(f, "a.ab") && !Validates(r, f)
  {
    var f := ModelFile("a", {"ab"}, [], {"ab"});
    DeclaredTypeFound(f, "ab");
    assert "ab" in f.references && !ReferenceOk(r, f, "ab");
  }
}
