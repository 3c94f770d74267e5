/** What the model manager's registry does: the checks a model file has to pass against the
    files registered at the time, and what each operation makes of the registry. */
module ModelRegistry {
  import opened Wrappers
  import opened Collections
  import opened ModelUtil

  /** A parsed model file: the short names it declares, its imports in order (the system types
      first), and the short names its declarations refer to. */
  datatype ModelFile = ModelFile(namespace: string, types: set<string>, imports: seq<string>, references: set<string>)

  type Registry = map<string, ModelFile>

  datatype Error = SystemNamespace | NamespaceExists | NoSuchModel | IllegalModel

  predicate StartsWith(s: string, prefix: string) {
    prefix <= s
  }

  /** ModelFile.isLocalType: `name` is a short name or a fully qualified one. */
  predicate IsLocalType(f: ModelFile, name: string) {
    var fqn := if StartsWith(name, f.namespace) then name else f.namespace + "." + name;
    exists n <- f.types :: fqn == f.namespace + "." + n
  }

  /** Import number `i` of `f` brings in the short name `name`. */
  predicate Imports(r: Registry, f: ModelFile, i: nat, name: string)
    requires i < |f.imports|
  {
    || ShortName(f.imports[i]) == name
    || (IsWildcardName(f.imports[i]) && var ns := Namespace(f.imports[i]); ns.Ok? && ns.value in r && IsLocalType(r[ns.value], name))
  }

  /** The first import that brings in `name`, searching from `from`: ModelFile.resolveImport. */
  function ResolveImport(r: Registry, f: ModelFile, from: nat, name: string): (fqn: Option<string>)
    requires from <= |f.imports|
    decreases |f.imports| - from
  {
    if from == |f.imports| then None
    else if ShortName(f.imports[from]) == name then Some(f.imports[from])
    else if Imports(r, f, from, name) then Some(Namespace(f.imports[from]).value + "." + name)
    else ResolveImport(r, f, from + 1, name)
  }

  /** ModelManager.resolveType succeeds. */
  predicate Resolves(r: Registry, fqn: string) {
    || IsPrimitiveType(fqn)
    || var ns := Namespace(fqn); ns.Ok? && ns.value in r && IsLocalType(r[ns.value], fqn)
  }

  /** ModelFile.resolveType succeeds on a short name used inside `f`. */
  predicate ReferenceOk(r: Registry, f: ModelFile, name: string) {
    || IsPrimitiveType(name)
    || match ResolveImport(r, f, 0, name)
       case Some(fqn) => Resolves(r, fqn)
       case None => IsLocalType(f, name)
  }

  predicate ImportOk(r: Registry, fqn: string) {
    var ns := Namespace(fqn);
    ns.Ok? && ns.value in r && (IsWildcardName(fqn) || IsLocalType(r[ns.value], ShortName(fqn)))
  }

  /** ModelFile.validate succeeds. */
  predicate Validates(r: Registry, f: ModelFile) {
    && (forall fqn <- f.imports :: ImportOk(r, fqn))
    && (forall name <- f.references :: ReferenceOk(r, f, name))
  }

  predicate AllValid(r: Registry) {
    forall ns <- r :: Validates(r, r[ns])
  }

  function AddModelFile(r: Registry, f: ModelFile): Result<Registry, Error> {
    if f.namespace == SYSTEM_NAMESPACE then Err(SystemNamespace)
    else if f.namespace in r then Err(NamespaceExists)
    else if !Validates(r, f) then Err(IllegalModel)
    else Ok(r[f.namespace := f])
  }

  /** The first loop of addModelFiles: register without validating. */
  function Register(r: Registry, files: seq<ModelFile>): Result<Registry, Error>
    decreases |files|
  {
    if files == [] then Ok(r)
    else if files[0].namespace == SYSTEM_NAMESPACE then Err(SystemNamespace)
    else if files[0].namespace in r then Err(NamespaceExists)
    else Register(r[files[0].namespace := files[0]], files[1..])
  }

  function AddModelFiles(r: Registry, files: seq<ModelFile>): Result<Registry, Error> {
    match Register(r, files)
    case Err(e) => Err(e)
    case Ok(all) => if AllValid(all) then Ok(all) else Err(IllegalModel)
  }

  function UpdateModelFile(r: Registry, f: ModelFile): Result<Registry, Error> {
    if f.namespace !in r then Err(NoSuchModel)
    else if r[f.namespace].namespace == SYSTEM_NAMESPACE then Err(SystemNamespace)
    else if !Validates(r, f) then Err(IllegalModel)
    else Ok(r[f.namespace := f])
  }

  function DeleteModelFile(r: Registry, ns: string): Result<Registry, Error> {
    if ns !in r then Err(NoSuchModel)
    else if ns == SYSTEM_NAMESPACE then Err(SystemNamespace)
    else Ok(r - {ns})
  }

  function ClearModelFiles(system: ModelFile): Registry {
    map[system.namespace := system]
  }

  /** Adding files one by one, stopping at the first that is refused. */
  function AddOneByOne(r: Registry, files: seq<ModelFile>): Result<Registry, Error>
    decreases |files|
  {
    if files == [] then Ok(r)
    else match AddModelFile(r, files[0])
      case Err(e) => Err(e)
      case Ok(next) => AddOneByOne(next, files[1..])
  }
}
