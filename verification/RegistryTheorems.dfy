/** Results about the model registry: batch and one-by-one adds, dependency orders, and what
    every run of operations keeps. */
module RegistryTheorems {
  import opened Wrappers
  import opened Strings
  import opened Collections
  import opened ModelUtil
  import opened ModelRegistry

  // ----- A file's validity depends only on what it imports -----

  ghost predicate ImportsNamespace(f: ModelFile, ns: string) {
    exists fqn <- f.imports :: Namespace(fqn) == Ok(ns)
  }

  /** What the parser guarantees of a short name. */
  predicate IsIdentifier(name: string) {
    '.' !in name && name != "*"
  }

  ghost predicate WellFormed(f: ModelFile) {
    forall name <- f.references :: IsIdentifier(name)
  }

  /** The type `name` of namespace `ns` is one that `f` refers to: `f` imports it by name, or it is
      what a reference in `f` stands for through a wildcard. */
  ghost predicate RefersTo(r: Registry, f: ModelFile, ns: string, name: string) {
    || (exists fqn <- f.imports :: Namespace(fqn) == Ok(ns) && !IsWildcardName(fqn) && ShortName(fqn) == name)
    || (name in f.references && ResolveImport(r, f, 0, name) == Some(ns + "." + name))
  }

  /** Of the types that `f` refers to in `ns`, none is lost from `g` to `g'`. */
  ghost predicate KeepsTypes(r: Registry, f: ModelFile, ns: string, g: ModelFile, g': ModelFile) {
    forall name {:trigger RefersTo(r, f, ns, name)} :: RefersTo(r, f, ns, name) && IsLocalType(g, name) ==> IsLocalType(g', name)
  }

  /** Every namespace `f` imports is still there, under its name and with the types `f` refers to. */
  ghost predicate Keeps(r: Registry, r': Registry, f: ModelFile) {
    forall ns <- r :: ImportsNamespace(f, ns) ==>
      ns in r' && r'[ns].namespace == r[ns].namespace && KeepsTypes(r, f, ns, r[ns], r'[ns])
  }

  lemma QualifiedHasDot(g: ModelFile)
    ensures forall n <- g.types :: '.' in g.namespace + "." + n
  {
    forall n | n in g.types
      ensures '.' in g.namespace + "." + n
    {
      assert (g.namespace + "." + n)[|g.namespace|] == '.';
    }
  }

  /** A short name a file is found to declare is also found by its fully qualified name. */
  lemma LocalByBothNames(g: ModelFile, name: string)
    requires IsLocalType(g, name) && '.' !in name
    ensures IsLocalType(g, g.namespace + "." + name)
  {
    QualifiedHasDot(g);
    assert StartsWith(g.namespace + "." + name, g.namespace);
  }

  ghost predicate Keyed(r: Registry) {
    forall ns <- r :: r[ns].namespace == ns
  }

  lemma ImportStaysOk(r: Registry, r': Registry, f: ModelFile, fqn: string)
    requires Keeps(r, r', f) && fqn in f.imports && ImportOk(r, fqn)
    ensures ImportOk(r', fqn)
  {
    var ns := Namespace(fqn).value;
    assert ImportsNamespace(f, ns);
    if !IsWildcardName(fqn) {
      assert RefersTo(r, f, ns, ShortName(fqn));
    }
  }

  /** Whatever import brings a name in, the name it stands for resolves. */
  lemma {:induction false} ImportedResolves(r: Registry, f: ModelFile, from: nat, name: string)
    requires from <= |f.imports| && Keyed(r) && IsIdentifier(name)
    requires forall fqn <- f.imports :: ImportOk(r, fqn)
    ensures var fqn := ResolveImport(r, f, from, name); fqn.Some? ==> Resolves(r, fqn.value)
    decreases |f.imports| - from
  {
    if from < |f.imports| {
      var fqn := f.imports[from];
      assert ImportOk(r, fqn);
      var ns := Namespace(fqn).value;
      if ShortName(fqn) == name {
        NamedImportResolves(r, fqn, name);
      } else if Imports(r, f, from, name) {
        QualifiedResolves(r, ns, name);
      } else {
        ImportedResolves(r, f, from + 1, name);
      }
    }
  }

  lemma QualifiedResolves(r: Registry, ns: string, name: string)
    requires Keyed(r) && ns in r && IsLocalType(r[ns], name) && '.' !in name
    ensures Resolves(r, ns + "." + name)
  {
    LocalByBothNames(r[ns], name);
    assert ns + "." + name == FullyQualifiedName(ns, name) || ns == [];
    LastIndexUnique(ns + "." + name, '.', |ns|);
    assert (ns + "." + name)[..|ns|] == ns;
  }

  lemma NamedImportResolves(r: Registry, fqn: string, name: string)
    requires Keyed(r) && ImportOk(r, fqn) && ShortName(fqn) == name && IsIdentifier(name)
    ensures Resolves(r, fqn)
  {
    var ns := Namespace(fqn).value;
    QualifiedHasDot(r[ns]);
    if LastDot(fqn) != -1 {
      assert fqn == ns + "." + name;
      QualifiedResolves(r, ns, name);
    }
  }

  lemma ReferenceStaysOk(r: Registry, r': Registry, f: ModelFile, name: string)
    requires Keyed(r') && Keeps(r, r', f) && name in f.references && IsIdentifier(name)
    requires forall fqn <- f.imports :: ImportOk(r, fqn) && ImportOk(r', fqn)
    requires ReferenceOk(r, f, name)
    ensures ReferenceOk(r', f, name)
  {
    ImportedResolves(r', f, 0, name);
    if ResolveImport(r, f, 0, name).Some? {
      StaysImported(r, r', f, 0, name);
    }
  }

  /** The import that brings a name in still does; an earlier one may have come to. */
  lemma {:induction false} StaysImported(r: Registry, r': Registry, f: ModelFile, from: nat, name: string)
    requires from <= |f.imports| && Keeps(r, r', f) && name in f.references
    requires ResolveImport(r, f, from, name).Some? && ResolveImport(r, f, from, name) == ResolveImport(r, f, 0, name)
    ensures ResolveImport(r', f, from, name).Some?
    decreases |f.imports| - from
  {
    var fqn := f.imports[from];
    if ShortName(fqn) != name {
      if Imports(r, f, from, name) {
        var ns := Namespace(fqn).value;
        assert ImportsNamespace(f, ns);
        assert RefersTo(r, f, ns, name);
      } else {
        StaysImported(r, r', f, from + 1, name);
      }
    }
  }

  /** A valid file stays valid as long as no namespace it imports and no type it refers to goes away. */
  lemma StaysValid(r: Registry, r': Registry, f: ModelFile)
    requires Keyed(r') && WellFormed(f) && Validates(r, f) && Keeps(r, r', f)
    ensures Validates(r', f)
  {
    forall fqn | fqn in f.imports
      ensures ImportOk(r', fqn)
    {
      ImportStaysOk(r, r', f, fqn);
    }
    forall name | name in f.references
      ensures ReferenceOk(r', f, name)
    {
      ReferenceStaysOk(r, r', f, name);
    }
  }

  // ----- When a file is valid -----

  /** A short name finds a declared type, unless it begins with the text of the namespace. */
  predicate Finds(g: ModelFile, name: string) {
    name in g.types && !StartsWith(name, g.namespace)
  }

  lemma FindsIff(g: ModelFile, name: string)
    requires '.' !in name
    ensures IsLocalType(g, name) <==> Finds(g, name)
  {
    QualifiedHasDot(g);
    if !StartsWith(name, g.namespace) {
      forall n | n in g.types
        ensures g.namespace + "." + name == g.namespace + "." + n <==> name == n
      {
        assert (g.namespace + "." + name)[|g.namespace| + 1..] == name && (g.namespace + "." + n)[|g.namespace| + 1..] == n;
      }
    }
  }

  /** An import of `name` from `ns` is good exactly if `ns` is registered and declares the type, or the
      import is a wildcard. */
  lemma ImportOkIff(r: Registry, ns: string, name: string)
    requires Keyed(r) && '.' !in name
    ensures ImportOk(r, ns + "." + name) <==> ns in r && (name == "*" || Finds(r[ns], name))
  {
    var fqn := ns + "." + name;
    LastIndexUnique(fqn, '.', |ns|);
    assert fqn[..|ns|] == ns && fqn[|ns| + 1..] == name;
    if ns in r {
      FindsIff(r[ns], name);
    }
  }

  /** Import number `i` names `name`, or is a wildcard for a namespace that declares it. */
  ghost predicate BringsIn(r: Registry, f: ModelFile, i: nat, name: string)
    requires i < |f.imports|
  {
    var ns := Namespace(f.imports[i]);
    ShortName(f.imports[i]) == name || (ShortName(f.imports[i]) == "*" && ns.Ok? && ns.value in r && Finds(r[ns.value], name))
  }

  lemma {:induction false} ResolveImportIff(r: Registry, f: ModelFile, from: nat, name: string)
    requires from <= |f.imports| && '.' !in name
    ensures ResolveImport(r, f, from, name).Some? <==> exists i :: from <= i < |f.imports| && BringsIn(r, f, i, name)
    decreases |f.imports| - from
  {
    if from < |f.imports| {
      var ns := Namespace(f.imports[from]);
      if ns.Ok? && ns.value in r {
        FindsIff(r[ns.value], name);
      }
      assert Imports(r, f, from, name) <==> BringsIn(r, f, from, name);
      ResolveImportIff(r, f, from + 1, name);
    }
  }

  /** In a file whose imports are good, a reference is good exactly if it is to a primitive type, to one
      that an import brings in, or to one that the file declares. */
  lemma ReferenceOkIff(r: Registry, f: ModelFile, name: string)
    requires Keyed(r) && IsIdentifier(name) && forall fqn <- f.imports :: ImportOk(r, fqn)
    ensures ReferenceOk(r, f, name) <==>
              || name in {"Boolean", "String", "DateTime", "Double", "Integer", "Long"}
              || (exists i :: 0 <= i < |f.imports| && BringsIn(r, f, i, name))
              || Finds(f, name)
  {
    ResolveImportIff(r, f, 0, name);
    ImportedResolves(r, f, 0, name);
    FindsIff(f, name);
  }

  // ----- Runs of operations -----

  datatype Op = Add(f: ModelFile) | AddAll(files: seq<ModelFile>) | Update(f: ModelFile) | Delete(ns: string) | Clear

  function Outcome(r: Registry, system: ModelFile, op: Op): Result<Registry, Error> {
    match op
    case Add(f) => AddModelFile(r, f)
    case AddAll(files) => AddModelFiles(r, files)
    case Update(f) => UpdateModelFile(r, f)
    case Delete(ns) => DeleteModelFile(r, ns)
    case Clear => Ok(ClearModelFiles(system))
  }

  /** A refused operation leaves the registry as it was. */
  function Step(r: Registry, system: ModelFile, op: Op): Registry {
    match Outcome(r, system, op) case Ok(next) => next case Err(_) => r
  }

  function Run(r: Registry, system: ModelFile, ops: seq<Op>): Registry
    decreases |ops|
  {
    if ops == [] then r else Run(Step(r, system, ops[0]), system, ops[1..])
  }

  /** Keys are namespaces, and the system model is present and unchanged. */
  ghost predicate Sound(r: Registry, system: ModelFile) {
    Keyed(r) && SYSTEM_NAMESPACE in r && r[SYSTEM_NAMESPACE] == system
  }

  lemma {:induction false} RegisterExtends(r: Registry, files: seq<ModelFile>, all: Registry)
    requires Keyed(r) && Register(r, files) == Ok(all)
    ensures Keyed(all) && r.Keys <= all.Keys && forall ns <- r :: all[ns] == r[ns]
    ensures forall f <- files :: f.namespace != SYSTEM_NAMESPACE && f.namespace !in r && f.namespace in all && all[f.namespace] == f
    ensures forall ns <- all :: ns in r || all[ns] in files
    decreases |files|
  {
    if files != [] {
      RegisterExtends(r[files[0].namespace := files[0]], files[1..], all);
    }
  }

  lemma StepSound(r: Registry, system: ModelFile, op: Op)
    requires Sound(r, system)
    ensures Sound(Step(r, system, op), system)
  {
    if op.AddAll? && Register(r, op.files).Ok? {
      RegisterExtends(r, op.files, Register(r, op.files).value);
    }
  }

  /** Over every run of add, batch add, update, delete and clear, successful or not. */
  lemma {:induction false} RegistrySound(r: Registry, system: ModelFile, ops: seq<Op>)
    requires Sound(r, system)
    ensures Sound(Run(r, system, ops), system)
    decreases |ops|
  {
    if ops != [] {
      StepSound(r, system, ops[0]);
      RegistrySound(Step(r, system, ops[0]), system, ops[1..]);
    }
  }

  /** The operation takes away nothing that `f` imports or refers to: an add never does; an update
      may drop types of the namespace it replaces, a delete removes one namespace, and a clear
      removes all but the system's. */
  ghost predicate Spares(r: Registry, system: ModelFile, op: Op, f: ModelFile) {
    Outcome(r, system, op).Ok? ==>
      match op
      case Add(_) => true
      case AddAll(_) => true
      case Update(g) => ImportsNamespace(f, g.namespace) ==> KeepsTypes(r, f, g.namespace, r[g.namespace], g)
      case Delete(ns) => !ImportsNamespace(f, ns)
      case Clear => forall ns <- r :: ImportsNamespace(f, ns) ==> ns == SYSTEM_NAMESPACE
  }

  lemma SparedKeeps(r: Registry, system: ModelFile, op: Op, f: ModelFile)
    requires Sound(r, system) && Spares(r, system, op, f)
    ensures Keeps(r, Step(r, system, op), f)
  {
    if op.AddAll? && Register(r, op.files).Ok? {
      RegisterExtends(r, op.files, Register(r, op.files).value);
    }
  }

  /** A file whose references resolve stays resolvable over a run unless some update, delete or
      clear removed a namespace it imports or a type it refers to. */
  lemma {:induction false} RunKeepsValid(r: Registry, system: ModelFile, ops: seq<Op>, f: ModelFile)
    requires Sound(r, system) && WellFormed(f) && Validates(r, f)
    requires forall k :: 0 <= k < |ops| ==> Spares(Run(r, system, ops[..k]), system, ops[k], f)
    ensures Validates(Run(r, system, ops), f)
    decreases |ops|
  {
    if ops != [] {
      var next := Step(r, system, ops[0]);
      assert Run(r, system, ops[..0]) == r;
      StepSound(r, system, ops[0]);
      SparedKeeps(r, system, ops[0], f);
      StaysValid(r, next, f);
      forall k | 0 <= k < |ops[1..]|
        ensures Spares(Run(next, system, ops[1..][..k]), system, ops[1..][k], f)
      {
        assert ops[..k + 1][1..] == ops[1..][..k] && ops[..k + 1][0] == ops[0];
        assert Run(r, system, ops[..k + 1]) == Run(next, system, ops[1..][..k]);
      }
      RunKeepsValid(next, system, ops[1..], f);
    }
  }

  // ----- What an operation leaves under each namespace -----

  function Lookup(r: Registry, ns: string): Option<ModelFile> {
    if ns in r then Some(r[ns]) else None
  }

  /** Why an operation is refused: the system's namespace first, then a taken or a missing one, then an
      invalid file. */
  lemma RefusedBecause(r: Registry, f: ModelFile, ns: string)
    requires Keyed(r)
    ensures AddModelFile(r, f) == Err(SystemNamespace) <==> f.namespace == SYSTEM_NAMESPACE
    ensures AddModelFile(r, f) == Err(NamespaceExists) <==> f.namespace != SYSTEM_NAMESPACE && f.namespace in r
    ensures AddModelFile(r, f) != Err(NoSuchModel)
    ensures UpdateModelFile(r, f) == Err(NoSuchModel) <==> f.namespace !in r
    ensures UpdateModelFile(r, f) == Err(SystemNamespace) <==> f.namespace in r && f.namespace == SYSTEM_NAMESPACE
    ensures UpdateModelFile(r, f) != Err(NamespaceExists)
    ensures DeleteModelFile(r, ns) == Err(NoSuchModel) <==> ns !in r
    ensures DeleteModelFile(r, ns) == Err(SystemNamespace) <==> ns in r && ns == SYSTEM_NAMESPACE
  {
  }

  /** An add succeeds exactly for a valid file of a new namespace, and registers that file. */
  lemma AddRegisters(r: Registry, f: ModelFile)
    ensures AddModelFile(r, f).Ok? <==> f.namespace != SYSTEM_NAMESPACE && f.namespace !in r && Validates(r, f)
    ensures AddModelFile(r, f).Ok? ==>
              var after := AddModelFile(r, f).value;
              after.Keys == r.Keys + {f.namespace} && after[f.namespace] == f && forall ns <- r :: after[ns] == r[ns]
  {
  }

  /** An update succeeds exactly for a valid file of a registered namespace other than the system's, and
      puts that file in the place of the old one, changing nothing else. */
  lemma UpdateReplaces(r: Registry, f: ModelFile)
    requires Keyed(r)
    ensures UpdateModelFile(r, f).Ok? <==> f.namespace in r && f.namespace != SYSTEM_NAMESPACE && Validates(r, f)
    ensures UpdateModelFile(r, f).Ok? ==>
              var after := UpdateModelFile(r, f).value;
              after[f.namespace] == f && after - {f.namespace} == r - {f.namespace}
  {
    if UpdateModelFile(r, f).Ok? {
      assert r[f.namespace := f] - {f.namespace} == r - {f.namespace};
    }
  }

  /** A delete succeeds exactly for a registered namespace other than the system's, and takes away that
      namespace and nothing else. */
  lemma DeleteRemoves(r: Registry, ns: string)
    ensures DeleteModelFile(r, ns).Ok? <==> ns in r && ns != SYSTEM_NAMESPACE
    ensures DeleteModelFile(r, ns).Ok? ==>
              var after := DeleteModelFile(r, ns).value;
              after.Keys == r.Keys - {ns} && forall m <- after :: after[m] == r[m]
  {
  }

  /** The operation succeeds and decides what namespace `ns` holds from then on. */
  ghost predicate Touches(r: Registry, system: ModelFile, op: Op, ns: string) {
    Outcome(r, system, op).Ok? &&
    match op
    case Add(f) => f.namespace == ns
    case AddAll(files) => exists f <- files :: f.namespace == ns
    case Update(f) => f.namespace == ns
    case Delete(gone) => gone == ns
    case Clear => true
  }

  /** What it is to hold: the file given for it, or nothing; the system model survives a clear. */
  ghost predicate Decides(system: ModelFile, op: Op, ns: string, held: Option<ModelFile>) {
    match op
    case Add(f) => held == Some(f)
    case AddAll(files) => held.Some? && held.value in files && held.value.namespace == ns
    case Update(f) => held == Some(f)
    case Delete(_) => held == None
    case Clear => held == if ns == SYSTEM_NAMESPACE then Some(system) else None
  }

  lemma StepWrites(r: Registry, system: ModelFile, op: Op, ns: string)
    requires Sound(r, system) && system.namespace == SYSTEM_NAMESPACE
    ensures if Touches(r, system, op, ns) then Decides(system, op, ns, Lookup(Step(r, system, op), ns))
            else Lookup(Step(r, system, op), ns) == Lookup(r, ns)
  {
    if op.AddAll? && Register(r, op.files).Ok? {
      RegisterExtends(r, op.files, Register(r, op.files).value);
    }
  }

  ghost predicate Untouched(r: Registry, system: ModelFile, ops: seq<Op>, from: nat, ns: string) {
    forall k :: from <= k < |ops| ==> !Touches(Run(r, system, ops[..k]), system, ops[k], ns)
  }

  lemma {:induction false} RunSnoc(r: Registry, system: ModelFile, ops: seq<Op>, op: Op)
    ensures Run(r, system, ops + [op]) == Step(Run(r, system, ops), system, op)
    decreases |ops|
  {
    if ops == [] {
      assert Run(r, system, [op]) == Run(Step(r, system, op), system, []);
      assert [] + [op] == [op];
    } else {
      assert (ops + [op])[0] == ops[0] && (ops + [op])[1..] == ops[1..] + [op];
      RunSnoc(Step(r, system, ops[0]), system, ops[1..], op);
    }
  }

  /** Over every run, what nothing touches stays. */
  lemma {:induction false} UntouchedStays(r: Registry, system: ModelFile, ops: seq<Op>, from: nat, ns: string)
    requires Sound(r, system) && system.namespace == SYSTEM_NAMESPACE
    requires from <= |ops| && Untouched(r, system, ops, from, ns)
    ensures Lookup(Run(r, system, ops), ns) == Lookup(Run(r, system, ops[..from]), ns)
    decreases |ops|
  {
    if from == |ops| {
      assert ops[..from] == ops;
    } else {
      var before, op := ops[..|ops| - 1], ops[|ops| - 1];
      assert ops == before + [op];
      forall k | from <= k < |before|
        ensures !Touches(Run(r, system, before[..k]), system, before[k], ns)
      {
        assert before[..k] == ops[..k];
      }
      UntouchedStays(r, system, before, from, ns);
      assert before[..from] == ops[..from];
      RunSnoc(r, system, before, op);
      RegistrySound(r, system, before);
      StepWrites(Run(r, system, before), system, op, ns);
    }
  }

  /** The last writer wins: over every run, a namespace holds what the last successful add, batch,
      update, delete or clear that concerned it decided, or else what it held at the start. */
  lemma LastWriterWins(r: Registry, system: ModelFile, ops: seq<Op>, k: nat, ns: string)
    requires Sound(r, system) && system.namespace == SYSTEM_NAMESPACE
    ensures Untouched(r, system, ops, 0, ns) ==> Lookup(Run(r, system, ops), ns) == Lookup(r, ns)
    ensures k < |ops| && Touches(Run(r, system, ops[..k]), system, ops[k], ns) && Untouched(r, system, ops, k + 1, ns) ==>
              Decides(system, ops[k], ns, Lookup(Run(r, system, ops), ns))
  {
    if Untouched(r, system, ops, 0, ns) {
      UntouchedStays(r, system, ops, 0, ns);
      assert ops[..0] == [];
    }
    if k < |ops| && Touches(Run(r, system, ops[..k]), system, ops[k], ns) && Untouched(r, system, ops, k + 1, ns) {
      UntouchedStays(r, system, ops, k + 1, ns);
      assert ops[..k + 1] == ops[..k] + [ops[k]];
      RunSnoc(r, system, ops[..k], ops[k]);
      RegistrySound(r, system, ops[..k]);
      StepWrites(Run(r, system, ops[..k]), system, ops[k], ns);
    }
  }
}
