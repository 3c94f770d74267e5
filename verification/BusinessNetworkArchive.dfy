/** Business network definitions and the archives they are written to and read from. */
module BusinessNetworkArchive {
  import opened Wrappers
  import opened Collections
  import opened Strings
  import opened FilePaths
  import opened ZipFiles
  import opened ModelRegistry
  import opened ModelUtil

  datatype Model = Model(text: string, fileName: Option<string>)

  datatype Script = Script(id: string, text: string)

  /** An ACL file or a query file. */
  datatype Rules = Rules(id: string, text: string)

  /** The package is the text of package.json; models are in registry order, without the system
      model. */
  datatype Network = Network(package: string, readme: Option<string>, acl: Option<Rules>, query: Option<Rules>,
                             models: seq<Model>, scripts: seq<Script>)

  /** The names used inside an archive, and the file name of a model that has none. */
  datatype Layout = Layout(package: string, readme: string, acl: string, query: string,
                           modelDir: string, modelExt: string, scriptDir: string, scriptExt: string, noName: string)

  const COMPOSER := Layout("package.json", "README.md", "permissions.acl", "queries.qry",
                           "models/", ".cto", "lib/", ".js", "UNKNOWN")

  /** What the parsers and validity checks of the program say about a text. */
  datatype Language = Language(layout: Layout, system: ModelFile, package: string -> bool, parse: string -> Option<ModelFile>,
                               script: string -> bool, acl: (Registry, string) -> bool, query: (Registry, string) -> bool)

  datatype Error = NoPackageJson | BadPackageJson | BadModel | BadModels(error: ModelRegistry.Error) | BadScript | BadAcl | BadQuery

  // ----- Patterns -----

  predicate NoLineBreak(s: string) {
    forall c <- s :: !IsLineBreak(c)
  }

  predicate EndsWith(s: string, ext: string) {
    |ext| <= |s| && s[|s| - |ext|..] == ext
  }

  predicate MatchesAt(path: string, dir: string, ext: string, i: nat)
    requires i + |dir| + |ext| <= |path|
  {
    path[i..i + |dir|] == dir && NoLineBreak(path[i + |dir|..|path| - |ext|])
  }

  /** The pattern "dir, anything on one line, ext at the end"; it is not anchored at the front. */
  predicate Matches(path: string, dir: string, ext: string) {
    && EndsWith(path, ext)
    && exists i: nat :: i + |dir| + |ext| <= |path| && MatchesAt(path, dir, ext, i)
  }

  function IsModelPath(l: Layout): string -> bool {
    path => Matches(path, l.modelDir, l.modelExt)
  }

  function IsScriptPath(l: Layout): string -> bool {
    path => Matches(path, l.scriptDir, l.scriptExt)
  }

  // ----- Writing -----

  function ModelName(lang: Language, m: Model): string {
    if m.fileName.None? || m.fileName.value == "" || m.fileName.value == lang.layout.noName then
      (match lang.parse(m.text) case Some(f) => f.namespace case None => "") + lang.layout.modelExt
    else Basename(m.fileName.value)
  }

  function ModelEntry(lang: Language, m: Model): Entry {
    Entry(lang.layout.modelDir + ModelName(lang, m), m.text)
  }

  function ScriptEntry(l: Layout, s: Script): Entry {
    Entry(l.scriptDir + Basename(s.id), s.text)
  }

  function ModelEntries(lang: Language, models: seq<Model>): (es: seq<Entry>)
    ensures |es| == |models| && forall i :: 0 <= i < |es| ==> es[i] == ModelEntry(lang, models[i])
  {
    seq(|models|, i requires 0 <= i < |models| => ModelEntry(lang, models[i]))
  }

  function ScriptEntries(l: Layout, scripts: seq<Script>): (es: seq<Entry>)
    ensures |es| == |scripts| && forall i :: 0 <= i < |es| ==> es[i] == ScriptEntry(l, scripts[i])
  {
    seq(|scripts|, i requires 0 <= i < |scripts| => ScriptEntry(l, scripts[i]))
  }

  /** An empty README is not written. */
  function Visible(readme: Option<string>): Option<string> {
    if readme == Some("") then None else readme
  }

  function OptionalEntry(path: string, text: Option<string>): seq<Entry> {
    if text.Some? then [Entry(path, text.value)] else []
  }

  function RulesEntry(rules: Option<Rules>): seq<Entry> {
    if rules.Some? then [Entry(rules.value.id, rules.value.text)] else []
  }

  function TopEntries(l: Layout, n: Network): seq<Entry> {
    [Entry(l.package, n.package)] + OptionalEntry(l.readme, Visible(n.readme)) + RulesEntry(n.acl) + RulesEntry(n.query)
  }

  /** The files written, in order. */
  function Entries(lang: Language, n: Network): seq<Entry> {
    TopEntries(lang.layout, n) + ModelEntries(lang, n.models) + ScriptEntries(lang.layout, n.scripts)
  }

  function ToArchive(lang: Language, n: Network): Zip {
    PutAll([], Entries(lang, n))
  }

  // ----- Reading -----

  function ModelsOf(z: Zip): (models: seq<Model>)
    ensures |models| == |z| && forall i :: 0 <= i < |z| ==> models[i] == Model(z[i].contents, Some(z[i].path))
  {
    seq(|z|, i requires 0 <= i < |z| => Model(z[i].contents, Some(z[i].path)))
  }

  function ScriptsOf(z: Zip): (scripts: seq<Script>)
    ensures |scripts| == |z| && forall i :: 0 <= i < |z| ==> scripts[i] == Script(z[i].path, z[i].contents)
  {
    seq(|z|, i requires 0 <= i < |z| => Script(z[i].path, z[i].contents))
  }

  function ParseAll(lang: Language, models: seq<Model>): (files: Option<seq<ModelFile>>)
    ensures files.Some? <==> forall m <- models :: lang.parse(m.text).Some?
    ensures files.Some? ==> |files.value| == |models| && forall i :: 0 <= i < |models| ==> lang.parse(models[i].text) == Some(files.value[i])
  {
    if forall m <- models :: lang.parse(m.text).Some? then
      Some(seq(|models|, i requires 0 <= i < |models| => assert models[i] in models; lang.parse(models[i].text).value))
    else None
  }

  /** A new model manager with the models added as one batch. */
  function LoadModels(lang: Language, models: seq<Model>): Result<Registry, Error> {
    match ParseAll(lang, models)
    case None => Err(BadModel)
    case Some(files) =>
      match AddModelFiles(ClearModelFiles(lang.system), files)
      case Err(e) => Err(BadModels(e))
      case Ok(r) => Ok(r)
  }

  function RulesFrom(path: string, text: Option<string>): Option<Rules> {
    if text.Some? then Some(Rules(path, text.value)) else None
  }

  predicate RulesOk(check: (Registry, string) -> bool, r: Registry, rules: Option<Rules>) {
    rules.Some? ==> check(r, rules.value.text)
  }

  function FromArchive(lang: Language, z: Zip): Result<Network, Error> {
    var l := lang.layout;
    match Get(z, l.package)
    case None => Err(NoPackageJson)
    case Some(package) =>
      var models := ModelsOf(Select(z, IsModelPath(l)));
      var scripts := ScriptsOf(Select(z, IsScriptPath(l)));
      var acl, query := RulesFrom(l.acl, Get(z, l.acl)), RulesFrom(l.query, Get(z, l.query));
      if !lang.package(package) then Err(BadPackageJson)
      else match LoadModels(lang, models)
        case Err(e) => Err(e)
        case Ok(r) =>
          if exists s <- scripts :: !lang.script(s.text) then Err(BadScript)
          else if !RulesOk(lang.acl, r, acl) then Err(BadAcl)
          else if !RulesOk(lang.query, r, query) then Err(BadQuery)
          else Ok(Network(package, Get(z, l.readme), acl, query, models, scripts))
  }
}
