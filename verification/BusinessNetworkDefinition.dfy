/** The archive writer and reader, filling a zip and lists step by step. */
module BusinessNetworkDefinition {
  import opened Wrappers
  import opened Collections
  import opened FilePaths
  import opened ZipFiles
  import opened BusinessNetworkArchive
  import opened BusinessNetworkArchiveTheorems

  lemma PutAllStep(z: Zip, before: seq<Entry>, es: seq<Entry>, i: nat)
    requires i < |es|
    ensures Put(PutAll(z, before + es[..i]), es[i].path, es[i].contents) == PutAll(z, before + es[..i + 1])
  {
    assert before + es[..i + 1] == (before + es[..i]) + [es[i]];
    PutAllConcat(z, before + es[..i], [es[i]]);
    assert [es[i]][1..] == [];
  }

  method WriteRules(z: Zip, rules: Option<Rules>) returns (zip: Zip)
    ensures zip == PutAll(z, RulesEntry(rules))
  {
    zip := z;
    if rules.Some? {
      zip := Put(zip, rules.value.id, rules.value.text);
    }
  }

  method WriteTop(l: Layout, n: Network) returns (zip: Zip)
    ensures zip == PutAll([], TopEntries(l, n))
  {
    var package, readme := [Entry(l.package, n.package)], OptionalEntry(l.readme, Visible(n.readme));
    PutAllConcat([], package, readme);
    PutAllConcat([], package + readme, RulesEntry(n.acl));
    PutAllConcat([], package + readme + RulesEntry(n.acl), RulesEntry(n.query));
    zip := Put([], l.package, n.package);
    assert package[1..] == [];
    if n.readme.Some? && n.readme.value != "" {
      zip := Put(zip, l.readme, n.readme.value);
    }
    zip := WriteRules(zip, n.acl);
    zip := WriteRules(zip, n.query);
  }

  method WriteArchive(lang: Language, n: Network) returns (zip: Zip)
    ensures zip == ToArchive(lang, n)
  {
    var l := lang.layout;
    ghost var top, models, scripts := TopEntries(l, n), ModelEntries(lang, n.models), ScriptEntries(l, n.scripts);
    zip := WriteTop(l, n);
    assert top + models[..0] == top;
    for i := 0 to |n.models|
      invariant zip == PutAll([], top + models[..i])
    {
      PutAllStep([], top, models, i);
      zip := Put(zip, l.modelDir + ModelName(lang, n.models[i]), n.models[i].text);
    }
    assert models[..|models|] == models && (top + models) + scripts[..0] == top + models;
    for i := 0 to |n.scripts|
      invariant zip == PutAll([], (top + models) + scripts[..i])
    {
      PutAllStep([], top + models, scripts, i);
      zip := Put(zip, l.scriptDir + Basename(n.scripts[i].id), n.scripts[i].text);
    }
    assert scripts[..|scripts|] == scripts;
  }

  /** Collects the selected files into parallel lists. */
  method Collect(files: Zip) returns (models: seq<Model>)
    ensures models == ModelsOf(files)
  {
    models := [];
    for i := 0 to |files|
      invariant models == ModelsOf(files)[..i]
    {
      models := models + [Model(files[i].contents, Some(files[i].path))];
    }
  }

  method AddScripts(lang: Language, files: Zip) returns (r: Result<seq<Script>, Error>)
    ensures r == if exists s <- ScriptsOf(files) :: !lang.script(s.text) then Err(BadScript) else Ok(ScriptsOf(files))
  {
    var scripts := [];
    for i := 0 to |files|
      invariant scripts == ScriptsOf(files)[..i]
      invariant forall s <- scripts :: lang.script(s.text)
    {
      var s := Script(files[i].path, files[i].contents);
      assert s == ScriptsOf(files)[i];
      if !lang.script(s.text) {
        return Err(BadScript);
      }
      scripts := scripts + [s];
    }
    assert ScriptsOf(files)[..|files|] == ScriptsOf(files);
    r := Ok(scripts);
  }

  method ReadArchive(lang: Language, zip: Zip) returns (r: Result<Network, Error>)
    ensures r == FromArchive(lang, zip)
  {
    var l := lang.layout;
    var readme, package := Get(zip, l.readme), Get(zip, l.package);
    if package.None? {
      return Err(NoPackageJson);
    }
    var models := Collect(Select(zip, IsModelPath(l)));
    var jsFiles := Select(zip, IsScriptPath(l));
    var acl, query := RulesFrom(l.acl, Get(zip, l.acl)), RulesFrom(l.query, Get(zip, l.query));
    if !lang.package(package.value) {
      return Err(BadPackageJson);
    }
    var registry := LoadModels(lang, models);
    if registry.Err? {
      return Err(registry.error);
    }
    var scripts := AddScripts(lang, jsFiles);
    if scripts.Err? {
      return Err(scripts.error);
    }
    if !RulesOk(lang.acl, registry.value, acl) {
      return Err(BadAcl);
    }
    if !RulesOk(lang.query, registry.value, query) {
      return Err(BadQuery);
    }
    r := Ok(Network(package.value, readme, acl, query, models, scripts.value));
  }
}
