/** Writing a business network to an archive and reading it back. */
module BusinessNetworkArchiveTheorems {
  import opened Wrappers
  import opened Collections
  import opened Strings
  import opened FilePaths
  import opened ZipFiles
  import opened ModelRegistry
  import opened BusinessNetworkArchive
  import BatchTheorems

  predicate IsDir(dir: string) {
    dir != [] && dir[|dir| - 1] == '/' && '/' !in dir[..|dir| - 1]
  }

  /** The layout keeps the parts of an archive apart. */
  ghost predicate Proper(l: Layout) {
    && Distinct([l.package, l.readme, l.acl, l.query])
    && (forall p <- [l.package, l.readme, l.acl, l.query] :: '/' !in p)
    && IsDir(l.modelDir) && IsDir(l.scriptDir)
    && !EndsWith(l.modelDir, l.scriptDir) && !EndsWith(l.scriptDir, l.modelDir)
    && '/' !in l.modelExt && '/' !in l.scriptExt && l.modelExt != "" && l.scriptExt != ""
    && '/' !in l.noName
  }

  lemma ComposerIsProper()
    ensures Proper(COMPOSER)
  {
    ComposerNamesDiffer();
    ComposerNamesPlain();
    ComposerDirs();
  }

  lemma ComposerNamesDiffer()
    ensures Distinct([COMPOSER.package, COMPOSER.readme, COMPOSER.acl, COMPOSER.query])
  {
    assert |COMPOSER.package| == 12 && |COMPOSER.readme| == 9 && |COMPOSER.acl| == 15 && |COMPOSER.query| == 11;
  }

  lemma ComposerNamesPlain()
    ensures forall p <- [COMPOSER.package, COMPOSER.readme, COMPOSER.acl, COMPOSER.query] :: '/' !in p
  {
  }

  lemma ComposerDirs()
    ensures IsDir(COMPOSER.modelDir) && IsDir(COMPOSER.scriptDir)
    ensures !EndsWith(COMPOSER.modelDir, COMPOSER.scriptDir) && !EndsWith(COMPOSER.scriptDir, COMPOSER.modelDir)
  {
    assert COMPOSER.modelDir[|COMPOSER.modelDir| - 4..][0] == 'e';
  }

  // ----- Which paths the patterns match -----

  /** A base name that survives: it ends as the pattern wants and is on one line. */
  predicate GoodName(name: string, ext: string) {
    EndsWith(name, ext) && NoLineBreak(name[..|name| - |ext|])
  }

  lemma OnlySlash(dir: string, name: string, i: nat)
    requires IsDir(dir) && '/' !in name && i < |dir + name|
    ensures (dir + name)[i] == '/' <==> i == |dir| - 1
  {
    if i < |dir| - 1 {
      assert dir[..|dir| - 1][i] == (dir + name)[i];
    } else if i >= |dir| {
      assert name[i - |dir|] == (dir + name)[i];
    }
  }

  lemma MatchesOwnDir(dir: string, name: string, ext: string)
    requires IsDir(dir) && '/' !in name && '/' !in ext
    ensures Matches(dir + name, dir, ext) <==> GoodName(name, ext)
  {
    var path := dir + name;
    if Matches(path, dir, ext) {
      var i: nat :| i + |dir| + |ext| <= |path| && MatchesAt(path, dir, ext, i);
      assert path[i..i + |dir|][|dir| - 1] == path[i + |dir| - 1];
      OnlySlash(dir, name, i + |dir| - 1);
      assert i == 0;
      assert path[|path| - |ext|..] == name[|name| - |ext|..];
      assert path[|dir|..|path| - |ext|] == name[..|name| - |ext|];
    }
    if GoodName(name, ext) {
      assert path[|path| - |ext|..] == name[|name| - |ext|..];
      assert path[|dir|..|path| - |ext|] == name[..|name| - |ext|];
      assert path[0..0 + |dir|] == dir;
      assert MatchesAt(path, dir, ext, 0);
    }
  }

  lemma MatchesOtherDir(other: string, name: string, dir: string, ext: string)
    requires IsDir(dir) && IsDir(other) && '/' !in name
    ensures Matches(other + name, dir, ext) ==> EndsWith(other, dir)
  {
    var path := other + name;
    if Matches(path, dir, ext) {
      var i: nat :| i + |dir| + |ext| <= |path| && MatchesAt(path, dir, ext, i);
      assert path[i..i + |dir|][|dir| - 1] == path[i + |dir| - 1];
      OnlySlash(other, name, i + |dir| - 1);
      assert path[i..i + |dir|] == other[i..];
    }
  }

  lemma MatchesHasSlash(path: string, dir: string, ext: string)
    requires IsDir(dir)
    ensures Matches(path, dir, ext) ==> '/' in path
  {
    if Matches(path, dir, ext) {
      var i: nat :| i + |dir| + |ext| <= |path| && MatchesAt(path, dir, ext, i);
      assert path[i..i + |dir|][|dir| - 1] == path[i + |dir| - 1];
    }
  }

  // ----- What a network needs -----

  /** The files a network's models were parsed to. */
  function FilesOf(lang: Language, n: Network): seq<ModelFile>
    requires ParseAll(lang, n.models).Some?
  {
    ParseAll(lang, n.models).value
  }

  /** The grammar has no slashes in namespaces. */
  ghost predicate PlainNamespaces(lang: Language) {
    forall text :: lang.parse(text).Some? ==> '/' !in lang.parse(text).value.namespace
  }

  /** What holds of every network the program builds: its texts were accepted one by one, and its
      models have namespaces of their own. */
  ghost predicate WellFormed(lang: Language, n: Network) {
    && lang.package(n.package)
    && ParseAll(lang, n.models).Some?
    && PlainNamespaces(lang)
    && Register(ClearModelFiles(lang.system), FilesOf(lang, n)).Ok?
    && (forall s <- n.scripts :: lang.script(s.text))
  }

  function RegistryOf(lang: Language, n: Network): Registry
    requires WellFormed(lang, n)
  {
    Register(ClearModelFiles(lang.system), FilesOf(lang, n)).value
  }

  predicate IdsRight(l: Layout, n: Network) {
    (n.acl.Some? ==> n.acl.value.id == l.acl) && (n.query.Some? ==> n.query.value.id == l.query)
  }

  /** The ACL and query files are named without slashes. */
  predicate IdsPlain(n: Network) {
    (n.acl.Some? ==> '/' !in n.acl.value.id) && (n.query.Some? ==> '/' !in n.query.value.id)
  }

  lemma RightIsPlain(l: Layout, n: Network)
    requires Proper(l) && IdsRight(l, n)
    ensures IdsPlain(n)
  {
    assert l.acl in [l.package, l.readme, l.acl, l.query] && l.query in [l.package, l.readme, l.acl, l.query];
  }

  ghost predicate NamesRight(lang: Language, n: Network) {
    && Distinct(ModelNames(lang, n.models))
    && (forall name <- ModelNames(lang, n.models) :: GoodName(name, lang.layout.modelExt))
    && Distinct(ScriptNames(n.scripts))
    && (forall name <- ScriptNames(n.scripts) :: GoodName(name, lang.layout.scriptExt))
  }

  function ModelNames(lang: Language, models: seq<Model>): (names: seq<string>)
    ensures |names| == |models| && forall i :: 0 <= i < |names| ==> names[i] == ModelName(lang, models[i])
  {
    seq(|models|, i requires 0 <= i < |models| => ModelName(lang, models[i]))
  }

  function ScriptNames(scripts: seq<Script>): (names: seq<string>)
    ensures |names| == |scripts| && forall i :: 0 <= i < |names| ==> names[i] == Basename(scripts[i].id)
  {
    seq(|scripts|, i requires 0 <= i < |scripts| => Basename(scripts[i].id))
  }

  /** The models, the ACL and the queries still pass the checks they passed when they were added. */
  ghost predicate StillValid(lang: Language, n: Network)
    requires WellFormed(lang, n)
  {
    var r := RegistryOf(lang, n);
    AllValid(r) && RulesOk(lang.acl, r, n.acl) && RulesOk(lang.query, r, n.query)
  }

  /** The same package, README, rules, model texts and script texts. */
  predicate SameContent(n: Network, m: Network) {
    && n.package == m.package && n.readme == (if m.readme == Some("") then None else m.readme)
    && n.acl == m.acl && n.query == m.query
    && |n.models| == |m.models| && (forall i :: 0 <= i < |n.models| ==> n.models[i].text == m.models[i].text)
    && |n.scripts| == |m.scripts| && (forall i :: 0 <= i < |n.scripts| ==> n.scripts[i].text == m.scripts[i].text)
  }

  /** The network as it comes back: models and scripts are named by their paths in the archive. */
  function Loaded(lang: Language, n: Network): Network {
    n.(readme := Visible(n.readme), models := ModelsOf(ModelEntries(lang, n.models)), scripts := ScriptsOf(ScriptEntries(lang.layout, n.scripts)))
  }

  // ----- A network with good names is written as it is -----

  lemma NamesHaveNoSlash(lang: Language, n: Network)
    requires WellFormed(lang, n) && Proper(lang.layout)
    ensures forall name <- ModelNames(lang, n.models) :: '/' !in name
    ensures forall name <- ScriptNames(n.scripts) :: '/' !in name
  {
    forall name | name in ModelNames(lang, n.models)
      ensures '/' !in name
    {
      var i :| 0 <= i < |n.models| && name == ModelName(lang, n.models[i]);
      assert n.models[i] in n.models;
    }
  }

  function InDir(dir: string, names: seq<string>): (paths: seq<string>)
    ensures |paths| == |names| && forall i :: 0 <= i < |names| ==> paths[i] == dir + names[i]
  {
    seq(|names|, i requires 0 <= i < |names| => dir + names[i])
  }

  lemma EntryPaths(lang: Language, n: Network)
    ensures Paths(ModelEntries(lang, n.models)) == InDir(lang.layout.modelDir, ModelNames(lang, n.models))
    ensures Paths(ScriptEntries(lang.layout, n.scripts)) == InDir(lang.layout.scriptDir, ScriptNames(n.scripts))
  {
  }

  lemma SameInDir(dir: string, a: string, b: string)
    ensures dir + a == dir + b <==> a == b
  {
    assert (dir + a)[|dir|..] == a && (dir + b)[|dir|..] == b;
  }

  lemma InDirDistinct(dir: string, names: seq<string>)
    ensures Distinct(InDir(dir, names)) <==> Distinct(names)
  {
    forall i, j | 0 <= i < j < |names|
      ensures InDir(dir, names)[i] == InDir(dir, names)[j] <==> names[i] == names[j]
    {
      SameInDir(dir, names[i], names[j]);
    }
    if !Distinct(names) {
      var i, j :| 0 <= i < j < |names| && names[i] == names[j];
      assert InDir(dir, names)[i] == InDir(dir, names)[j];
    }
    if !Distinct(InDir(dir, names)) {
      var i, j :| 0 <= i < j < |names| && InDir(dir, names)[i] == InDir(dir, names)[j];
      assert names[i] == names[j];
    }
  }

  /** What is selected from a directory of an archive. */
  lemma InDirMatches(dir: string, names: seq<string>, ext: string)
    requires IsDir(dir) && '/' !in ext && forall name <- names :: '/' !in name
    ensures (forall p <- InDir(dir, names) :: Matches(p, dir, ext)) <==> (forall name <- names :: GoodName(name, ext))
  {
    forall i | 0 <= i < |names|
      ensures Matches(InDir(dir, names)[i], dir, ext) <==> GoodName(names[i], ext)
    {
      MatchesOwnDir(dir, names[i], ext);
    }
    if forall p <- InDir(dir, names) :: Matches(p, dir, ext) {
      forall name | name in names
        ensures GoodName(name, ext)
      {
        var i :| 0 <= i < |names| && names[i] == name;
        assert InDir(dir, names)[i] in InDir(dir, names);
      }
    }
  }

  lemma InDirMatchesNot(other: string, names: seq<string>, dir: string, ext: string)
    requires IsDir(dir) && IsDir(other) && !EndsWith(other, dir) && forall name <- names :: '/' !in name
    ensures forall p <- InDir(other, names) :: !Matches(p, dir, ext)
  {
    forall i | 0 <= i < |names|
      ensures !Matches(InDir(other, names)[i], dir, ext)
    {
      MatchesOtherDir(other, names[i], dir, ext);
    }
  }

  lemma InDirHasSlash(dir: string, names: seq<string>)
    requires IsDir(dir)
    ensures forall p <- InDir(dir, names) :: '/' in p
  {
    forall i | 0 <= i < |names|
      ensures '/' in InDir(dir, names)[i]
    {
      assert (dir + names[i])[|dir| - 1] == '/';
    }
  }

  lemma DirsApart(a: string, m: string, b: string, n: string)
    requires IsDir(a) && IsDir(b) && '/' !in m && '/' !in n
    ensures a + m == b + n ==> a == b
  {
    if a + m == b + n {
      OnlySlash(a, m, |a| - 1);
      OnlySlash(b, n, |a| - 1);
      assert a == (a + m)[..|a|] && b == (b + n)[..|b|];
    }
  }

  // ----- The files at the top -----

  function TextOf(rules: Option<Rules>): Option<string> {
    if rules.Some? then Some(rules.value.text) else None
  }

  lemma TopIs(l: Layout, n: Network)
    requires Proper(l) && IdsRight(l, n)
    ensures TopEntries(l, n) == [Entry(l.package, n.package)] + OptionalEntry(l.readme, Visible(n.readme)) +
              OptionalEntry(l.acl, TextOf(n.acl)) + OptionalEntry(l.query, TextOf(n.query))
  {
  }

  lemma OptionalFirst(q: string, b: Option<string>, rest: Zip)
    requires q !in Paths(rest)
    ensures forall x :: Get(OptionalEntry(q, b) + rest, x) == if x == q then b else Get(rest, x)
    ensures forall x :: x in Paths(OptionalEntry(q, b) + rest) ==> x == q || x in Paths(rest)
    ensures Distinct(Paths(rest)) ==> Distinct(Paths(OptionalEntry(q, b) + rest))
  {
    GetNone(rest, q);
    PathsConcat(OptionalEntry(q, b), rest);
    DistinctCons(q, Paths(rest));
    assert b.Some? ==> Paths(OptionalEntry(q, b)) == [q];
    assert b.None? ==> OptionalEntry(q, b) + rest == rest;
  }

  /** Files with names of their own, each there or not: every one is found again. */
  lemma FourFiles(p: string, q: string, r: string, s: string, a: string, b: Option<string>, c: Option<string>, d: Option<string>)
    requires Distinct([p, q, r, s])
    ensures
      var z := [Entry(p, a)] + OptionalEntry(q, b) + OptionalEntry(r, c) + OptionalEntry(s, d);
      && Distinct(Paths(z)) && (forall x <- Paths(z) :: x in [p, q, r, s])
      && Get(z, p) == Some(a) && Get(z, q) == b && Get(z, r) == c && Get(z, s) == d
  {
    var names := [p, q, r, s];
    assert names[0] != names[1] && names[0] != names[2] && names[0] != names[3];
    assert names[1] != names[2] && names[1] != names[3] && names[2] != names[3];
    var w := OptionalEntry(s, d) + [];
    var x := OptionalEntry(r, c) + w;
    var y := OptionalEntry(q, b) + x;
    OptionalFirst(s, d, []);
    OptionalFirst(r, c, w);
    OptionalFirst(q, b, x);
    OptionalFirst(p, Some(a), y);
    assert OptionalEntry(p, Some(a)) + y == [Entry(p, a)] + OptionalEntry(q, b) + OptionalEntry(r, c) + OptionalEntry(s, d);
  }

  lemma TopFacts(l: Layout, n: Network)
    requires Proper(l) && IdsRight(l, n)
    ensures Distinct(Paths(TopEntries(l, n))) && forall p <- Paths(TopEntries(l, n)) :: '/' !in p
    ensures Get(TopEntries(l, n), l.package) == Some(n.package) && Get(TopEntries(l, n), l.readme) == Visible(n.readme)
    ensures Get(TopEntries(l, n), l.acl) == TextOf(n.acl) && Get(TopEntries(l, n), l.query) == TextOf(n.query)
  {
    TopIs(l, n);
    FourFiles(l.package, l.readme, l.acl, l.query, n.package, Visible(n.readme), TextOf(n.acl), TextOf(n.query));
  }

  // ----- The whole archive -----

  /** Every path of the archive, in the three groups. */
  lemma AllPaths(lang: Language, n: Network)
    ensures Paths(Entries(lang, n)) == Paths(TopEntries(lang.layout, n))
              + InDir(lang.layout.modelDir, ModelNames(lang, n.models)) + InDir(lang.layout.scriptDir, ScriptNames(n.scripts))
  {
    EntryPaths(lang, n);
    PathsConcat(TopEntries(lang.layout, n), ModelEntries(lang, n.models));
    PathsConcat(TopEntries(lang.layout, n) + ModelEntries(lang, n.models), ScriptEntries(lang.layout, n.scripts));
  }

  /** Files at the top, models and scripts never share a path. */
  lemma GroupsApart(lang: Language, n: Network)
    requires WellFormed(lang, n) && Proper(lang.layout) && IdsRight(lang.layout, n)
    ensures
      var models, scripts := InDir(lang.layout.modelDir, ModelNames(lang, n.models)), InDir(lang.layout.scriptDir, ScriptNames(n.scripts));
      && (forall p <- Paths(TopEntries(lang.layout, n)) :: p !in models)
      && (forall p <- Paths(TopEntries(lang.layout, n)) + models :: p !in scripts)
  {
    TopFacts(lang.layout, n);
    NamesHaveNoSlash(lang, n);
    var models, scripts := InDir(lang.layout.modelDir, ModelNames(lang, n.models)), InDir(lang.layout.scriptDir, ScriptNames(n.scripts));
    InDirHasSlash(lang.layout.modelDir, ModelNames(lang, n.models));
    InDirHasSlash(lang.layout.scriptDir, ScriptNames(n.scripts));
    forall i, j | 0 <= i < |models| && 0 <= j < |scripts|
      ensures models[i] != scripts[j]
    {
      DirsApart(lang.layout.modelDir, ModelNames(lang, n.models)[i], lang.layout.scriptDir, ScriptNames(n.scripts)[j]);
    }
  }

  /** With good names and identifiers, every file is written under its own path. */
  lemma WrittenAsIs(lang: Language, n: Network)
    requires WellFormed(lang, n) && Proper(lang.layout) && IdsRight(lang.layout, n) && NamesRight(lang, n)
    ensures ToArchive(lang, n) == Entries(lang, n)
  {
    var models, scripts := InDir(lang.layout.modelDir, ModelNames(lang, n.models)), InDir(lang.layout.scriptDir, ScriptNames(n.scripts));
    TopFacts(lang.layout, n);
    GroupsApart(lang, n);
    AllPaths(lang, n);
    InDirDistinct(lang.layout.modelDir, ModelNames(lang, n.models));
    InDirDistinct(lang.layout.scriptDir, ScriptNames(n.scripts));
    DistinctConcat(Paths(TopEntries(lang.layout, n)), models);
    DistinctConcat(Paths(TopEntries(lang.layout, n)) + models, scripts);
    assert [] + Entries(lang, n) == Entries(lang, n);
    PutAllNew([], Entries(lang, n));
  }

  lemma SelectMiddle(a: Zip, b: Zip, c: Zip, matches: string -> bool)
    requires (forall p <- Paths(a) + Paths(c) :: !matches(p)) && (forall p <- Paths(b) :: matches(p))
    ensures Select(a + b + c, matches) == b
  {
    SelectConcat(a + b, c, matches);
    SelectConcat(a, b, matches);
    SelectNone(a, matches);
    SelectAll(b, matches);
    SelectNone(c, matches);
  }

  lemma TopPlain(l: Layout, n: Network)
    requires Proper(l) && IdsPlain(n)
    ensures forall p <- Paths(TopEntries(l, n)) :: '/' !in p
  {
    assert l.package in [l.package, l.readme, l.acl, l.query] && l.readme in [l.package, l.readme, l.acl, l.query];
    var top := TopEntries(l, n);
    forall i | 0 <= i < |top|
      ensures '/' !in top[i].path
    {
      assert top[i] in top;
    }
  }

  lemma TopNotMatched(l: Layout, n: Network)
    requires Proper(l) && IdsPlain(n)
    ensures forall p <- Paths(TopEntries(l, n)) :: !IsModelPath(l)(p) && !IsScriptPath(l)(p)
  {
    TopPlain(l, n);
    forall p | p in Paths(TopEntries(l, n))
      ensures !IsModelPath(l)(p) && !IsScriptPath(l)(p)
    {
      MatchesHasSlash(p, l.modelDir, l.modelExt);
      MatchesHasSlash(p, l.scriptDir, l.scriptExt);
    }
  }

  /** The first pattern selects the models. */
  lemma ModelsSelected(lang: Language, n: Network)
    requires WellFormed(lang, n) && Proper(lang.layout) && IdsRight(lang.layout, n) && NamesRight(lang, n)
    ensures Select(Entries(lang, n), IsModelPath(lang.layout)) == ModelEntries(lang, n.models)
  {
    var l := lang.layout;
    EntryPaths(lang, n);
    NamesHaveNoSlash(lang, n);
    RightIsPlain(l, n);
    TopNotMatched(l, n);
    InDirMatches(l.modelDir, ModelNames(lang, n.models), l.modelExt);
    InDirMatchesNot(l.scriptDir, ScriptNames(n.scripts), l.modelDir, l.modelExt);
    SelectMiddle(TopEntries(l, n), ModelEntries(lang, n.models), ScriptEntries(l, n.scripts), IsModelPath(l));
  }

  /** The second pattern selects the scripts. */
  lemma ScriptsSelected(lang: Language, n: Network)
    requires WellFormed(lang, n) && Proper(lang.layout) && IdsRight(lang.layout, n) && NamesRight(lang, n)
    ensures Select(Entries(lang, n), IsScriptPath(lang.layout)) == ScriptEntries(lang.layout, n.scripts)
  {
    var l := lang.layout;
    var models, scripts := ModelEntries(lang, n.models), ScriptEntries(l, n.scripts);
    EntryPaths(lang, n);
    NamesHaveNoSlash(lang, n);
    RightIsPlain(l, n);
    TopNotMatched(l, n);
    InDirMatches(l.scriptDir, ScriptNames(n.scripts), l.scriptExt);
    InDirMatchesNot(l.modelDir, ModelNames(lang, n.models), l.scriptDir, l.scriptExt);
    PathsConcat(TopEntries(l, n), models);
    SelectConcat(TopEntries(l, n) + models, scripts, IsScriptPath(l));
    SelectNone(TopEntries(l, n) + models, IsScriptPath(l));
    SelectAll(scripts, IsScriptPath(l));
  }

  lemma TopFoundBack(lang: Language, n: Network, p: string)
    requires WellFormed(lang, n) && Proper(lang.layout) && '/' !in p
    ensures Get(Entries(lang, n), p) == Get(TopEntries(lang.layout, n), p)
  {
    var l := lang.layout;
    EntryPaths(lang, n);
    InDirHasSlash(l.modelDir, ModelNames(lang, n.models));
    InDirHasSlash(l.scriptDir, ScriptNames(n.scripts));
    GetConcat(TopEntries(l, n), ModelEntries(lang, n.models), p);
    GetConcat(TopEntries(l, n) + ModelEntries(lang, n.models), ScriptEntries(l, n.scripts), p);
    GetNone(TopEntries(l, n), p);
    GetNone(ModelEntries(lang, n.models), p);
    GetNone(ScriptEntries(l, n.scripts), p);
    PathsConcat(TopEntries(l, n), ModelEntries(lang, n.models));
  }

  /** The same texts parse to the same files. */
  lemma SameTextsParse(lang: Language, a: seq<Model>, b: seq<Model>)
    requires |a| == |b| && forall i :: 0 <= i < |a| ==> a[i].text == b[i].text
    ensures ParseAll(lang, a) == ParseAll(lang, b)
  {
    if ParseAll(lang, a).Some? {
      forall m | m in b
        ensures lang.parse(m.text).Some?
      {
        var i :| 0 <= i < |b| && b[i] == m;
        assert a[i] in a;
      }
      assert ParseAll(lang, a).value == ParseAll(lang, b).value;
    } else {
      var m :| m in a && lang.parse(m.text).None?;
      var i :| 0 <= i < |a| && a[i] == m;
      assert b[i] in b;
    }
  }

  /** The models of a well-formed network load exactly when all are still valid. */
  lemma ModelsLoad(lang: Language, n: Network, models: seq<Model>)
    requires WellFormed(lang, n) && |models| == |n.models| && forall i :: 0 <= i < |models| ==> models[i].text == n.models[i].text
    ensures LoadModels(lang, models) == if AllValid(RegistryOf(lang, n)) then Ok(RegistryOf(lang, n)) else Err(BadModels(IllegalModel))
  {
    SameTextsParse(lang, models, n.models);
  }

  lemma ScriptsLoad(lang: Language, n: Network)
    requires WellFormed(lang, n)
    ensures forall s <- ScriptsOf(ScriptEntries(lang.layout, n.scripts)) :: lang.script(s.text)
  {
    var scripts := ScriptsOf(ScriptEntries(lang.layout, n.scripts));
    forall i | 0 <= i < |scripts|
      ensures lang.script(scripts[i].text)
    {
      assert n.scripts[i] in n.scripts;
    }
  }

  lemma ReadBack(lang: Language, n: Network)
    requires WellFormed(lang, n) && Proper(lang.layout) && IdsRight(lang.layout, n) && NamesRight(lang, n)
    ensures StillValid(lang, n) ==> FromArchive(lang, Entries(lang, n)) == Ok(Loaded(lang, n))
    ensures !StillValid(lang, n) ==> FromArchive(lang, Entries(lang, n)).Err?
  {
    var l := lang.layout;
    ModelsSelected(lang, n);
    ScriptsSelected(lang, n);
    TopFacts(l, n);
    TopFoundBack(lang, n, l.package);
    TopFoundBack(lang, n, l.readme);
    TopFoundBack(lang, n, l.acl);
    TopFoundBack(lang, n, l.query);
    ModelsLoad(lang, n, ModelsOf(ModelEntries(lang, n.models)));
    ScriptsLoad(lang, n);
    assert RulesFrom(l.acl, TextOf(n.acl)) == n.acl && RulesFrom(l.query, TextOf(n.query)) == n.query;
  }

  // ----- The theorem -----

  /** If as many files are selected as were written, no two were written under the same path and
      all of them are selected. */
  lemma CountForcesPaths(z: Zip, paths: seq<string>, matches: string -> bool)
    requires Distinct(Paths(z)) && (forall p <- Paths(z) :: matches(p) ==> p in paths)
    requires |Select(z, matches)| == |paths|
    ensures Distinct(paths) && forall p <- paths :: matches(p)
  {
    var selected := Paths(Select(z, matches));
    SelectDistinct(z, matches);
    MembersSize(selected);
    MembersSize(paths);
    PathsMembers(z);
    PathsMembers(Select(z, matches));
    assert ToSet(selected) <= ToSet(paths) by {
      forall p | p in selected
        ensures p in paths
      {
        assert p in Paths(z);
      }
    }
    SubsetSize(ToSet(selected), ToSet(paths));
    forall p | p in paths
      ensures matches(p)
    {
      assert p in ToSet(selected);
    }
  }

  /** Every path of an archive that a pattern matches is one of the group the pattern is for. */
  lemma MatchedPaths(lang: Language, n: Network)
    requires WellFormed(lang, n) && Proper(lang.layout) && IdsPlain(n)
    ensures Distinct(Paths(ToArchive(lang, n)))
    ensures forall p <- Paths(ToArchive(lang, n)) ::
              && (IsModelPath(lang.layout)(p) ==> p in InDir(lang.layout.modelDir, ModelNames(lang, n.models)))
              && (IsScriptPath(lang.layout)(p) ==> p in InDir(lang.layout.scriptDir, ScriptNames(n.scripts)))
  {
    var l, z := lang.layout, ToArchive(lang, n);
    NamesHaveNoSlash(lang, n);
    PutAllPaths([], Entries(lang, n));
    AllPaths(lang, n);
    TopNotMatched(l, n);
    InDirMatchesNot(l.scriptDir, ScriptNames(n.scripts), l.modelDir, l.modelExt);
    InDirMatchesNot(l.modelDir, ModelNames(lang, n.models), l.scriptDir, l.scriptExt);
    forall p | p in Paths(z)
      ensures p in Paths(Entries(lang, n))
    {
      assert p in ToSet(Paths(z));
    }
  }

  lemma CountForcesNames(lang: Language, n: Network)
    requires WellFormed(lang, n) && Proper(lang.layout) && IdsRight(lang.layout, n)
    requires |Select(ToArchive(lang, n), IsModelPath(lang.layout))| == |n.models|
    requires |Select(ToArchive(lang, n), IsScriptPath(lang.layout))| == |n.scripts|
    ensures NamesRight(lang, n)
  {
    var l, z := lang.layout, ToArchive(lang, n);
    NamesHaveNoSlash(lang, n);
    RightIsPlain(l, n);
    MatchedPaths(lang, n);
    CountForcesPaths(z, InDir(l.modelDir, ModelNames(lang, n.models)), IsModelPath(l));
    CountForcesPaths(z, InDir(l.scriptDir, ScriptNames(n.scripts)), IsScriptPath(l));
    InDirDistinct(l.modelDir, ModelNames(lang, n.models));
    InDirDistinct(l.scriptDir, ScriptNames(n.scripts));
    InDirMatches(l.modelDir, ModelNames(lang, n.models), l.modelExt);
    InDirMatches(l.scriptDir, ScriptNames(n.scripts), l.scriptExt);
  }

  lemma FaithfulIsEnough(lang: Language, n: Network)
    requires WellFormed(lang, n) && Proper(lang.layout) && IdsRight(lang.layout, n) && NamesRight(lang, n)
    ensures FromArchive(lang, ToArchive(lang, n)) == Ok(Loaded(lang, n)) <== StillValid(lang, n)
    ensures FromArchive(lang, ToArchive(lang, n)).Err? <== !StillValid(lang, n)
  {
    WrittenAsIs(lang, n);
    ReadBack(lang, n);
  }

  lemma SameContentForcesNames(lang: Language, n: Network)
    requires WellFormed(lang, n) && Proper(lang.layout)
    requires FromArchive(lang, ToArchive(lang, n)).Ok? && SameContent(FromArchive(lang, ToArchive(lang, n)).value, n)
    ensures IdsRight(lang.layout, n) && NamesRight(lang, n)
  {
    CountForcesNames(lang, n);
  }

  /** Models and scripts are named by their paths in the archive. */
  predicate Relocated(lang: Language, n: Network, m: Network)
    requires |n.models| == |m.models| && |n.scripts| == |m.scripts|
  {
    && (forall i :: 0 <= i < |n.models| ==> n.models[i].fileName == Some(lang.layout.modelDir + ModelName(lang, m.models[i])))
    && (forall i :: 0 <= i < |n.scripts| ==> n.scripts[i].id == lang.layout.scriptDir + Basename(m.scripts[i].id))
  }

  /** Reading an archive back gives the network's package, README, rules, model texts and script
      texts exactly when the ACL and query files have the names they are looked for under, the base
      names of models and of scripts are distinct and end in the extension they are looked for
      with, and models and rules are still valid together. */
  lemma RoundTripIff(lang: Language, n: Network)
    requires WellFormed(lang, n) && Proper(lang.layout)
    ensures
      var back := FromArchive(lang, ToArchive(lang, n));
      var faithful := IdsRight(lang.layout, n) && NamesRight(lang, n) && StillValid(lang, n);
      && (back.Ok? && SameContent(back.value, n) <==> faithful)
      && (faithful ==> back == Ok(Loaded(lang, n)) && Relocated(lang, back.value, n))
  {
    var back := FromArchive(lang, ToArchive(lang, n));
    if back.Ok? && SameContent(back.value, n) {
      SameContentForcesNames(lang, n);
    }
    if IdsRight(lang.layout, n) && NamesRight(lang, n) {
      FaithfulIsEnough(lang, n);
      assert SameContent(Loaded(lang, n), n);
    }
  }

  // ----- The program's own layout -----

  /** The round trip in the program's own names. */
  lemma ComposerRoundTrip(lang: Language, n: Network)
    requires WellFormed(lang, n) && lang.layout == COMPOSER
    ensures
      var back := FromArchive(lang, ToArchive(lang, n));
      back.Ok? && SameContent(back.value, n) <==>
        && (n.acl.Some? ==> n.acl.value.id == "permissions.acl") && (n.query.Some? ==> n.query.value.id == "queries.qry")
        && Distinct(ModelNames(lang, n.models)) && Distinct(ScriptNames(n.scripts))
        && (forall name <- ModelNames(lang, n.models) :: GoodName(name, ".cto"))
        && (forall name <- ScriptNames(n.scripts) :: GoodName(name, ".js"))
        && StillValid(lang, n)
  {
    ComposerIsProper();
    RoundTripIff(lang, n);
  }

  /** Where a faithful archive holds what. */
  lemma ComposerPlaces(lang: Language, n: Network)
    requires WellFormed(lang, n) && lang.layout == COMPOSER && IdsRight(COMPOSER, n) && NamesRight(lang, n)
    ensures
      var z := ToArchive(lang, n);
      && Get(z, "package.json") == Some(n.package) && Get(z, "README.md") == Visible(n.readme)
      && Get(z, "permissions.acl") == TextOf(n.acl) && Get(z, "queries.qry") == TextOf(n.query)
      && (forall i :: 0 <= i < |n.models| ==> Entry("models/" + ModelName(lang, n.models[i]), n.models[i].text) in z)
      && (forall i :: 0 <= i < |n.scripts| ==> Entry("lib/" + Basename(n.scripts[i].id), n.scripts[i].text) in z)
  {
    ComposerIsProper();
    WrittenAsIs(lang, n);
    PlacesAre(lang, n);
  }

  lemma PlacesAre(lang: Language, n: Network)
    requires WellFormed(lang, n) && Proper(lang.layout) && IdsRight(lang.layout, n)
    ensures
      var l, es := lang.layout, Entries(lang, n);
      && Get(es, l.package) == Some(n.package) && Get(es, l.readme) == Visible(n.readme)
      && Get(es, l.acl) == TextOf(n.acl) && Get(es, l.query) == TextOf(n.query)
      && (forall i :: 0 <= i < |n.models| ==> Entry(l.modelDir + ModelName(lang, n.models[i]), n.models[i].text) in es)
      && (forall i :: 0 <= i < |n.scripts| ==> Entry(l.scriptDir + Basename(n.scripts[i].id), n.scripts[i].text) in es)
  {
    var l := lang.layout;
    TopFacts(l, n);
    TopFoundBack(lang, n, l.package);
    TopFoundBack(lang, n, l.readme);
    TopFoundBack(lang, n, l.acl);
    TopFoundBack(lang, n, l.query);
    forall i | 0 <= i < |n.models|
      ensures Entry(l.modelDir + ModelName(lang, n.models[i]), n.models[i].text) in Entries(lang, n)
    {
      assert ModelEntries(lang, n.models)[i] in ModelEntries(lang, n.models);
    }
    forall i | 0 <= i < |n.scripts|
      ensures Entry(l.scriptDir + Basename(n.scripts[i].id), n.scripts[i].text) in Entries(lang, n)
    {
      assert ScriptEntries(l, n.scripts)[i] in ScriptEntries(l, n.scripts);
    }
  }

  // ----- Under which names models and scripts are written -----

  /** A model read from a file is stored under the file's own name, and so is a script, whatever
      directory the file was in. */
  lemma StoredUnderFileName(lang: Language, m: Model, s: Script, dir: string, name: string)
    requires IsName(name) && Proper(lang.layout)
    requires m.fileName == Some(dir + "/" + name) && s.id == dir + "/" + name
    ensures ModelEntry(lang, m) == Entry(lang.layout.modelDir + name, m.text)
    ensures ScriptEntry(lang.layout, s) == Entry(lang.layout.scriptDir + name, s.text)
  {
    BasenameOf(dir, name);
    assert (dir + "/" + name)[|dir|] == '/';
  }

  /** A model without a file name is stored under its namespace. */
  lemma StoredUnderNamespace(lang: Language, m: Model)
    requires lang.parse(m.text).Some? && m.fileName in {None, Some(""), Some(lang.layout.noName)}
    ensures ModelEntry(lang, m) == Entry(lang.layout.modelDir + lang.parse(m.text).value.namespace + lang.layout.modelExt, m.text)
  {
    assert ModelName(lang, m) == lang.parse(m.text).value.namespace + lang.layout.modelExt;
    assert lang.layout.modelDir + ModelName(lang, m) == lang.layout.modelDir + lang.parse(m.text).value.namespace + lang.layout.modelExt;
  }

  predicate Unnamed(l: Layout, m: Model) {
    m.fileName in {None, Some(""), Some(l.noName)}
  }

  /** Models without file names never get in each other's way: their names in the archive are distinct
      and end as they should. */
  lemma UnnamedModelsAreRight(lang: Language, n: Network)
    requires WellFormed(lang, n) && forall m <- n.models :: Unnamed(lang.layout, m)
    requires forall f <- FilesOf(lang, n) :: NoLineBreak(f.namespace)
    ensures Distinct(ModelNames(lang, n.models))
    ensures forall name <- ModelNames(lang, n.models) :: GoodName(name, lang.layout.modelExt)
  {
    var files, ext := FilesOf(lang, n), lang.layout.modelExt;
    BatchTheorems.RegisterIff(ClearModelFiles(lang.system), files);
    forall i | 0 <= i < |n.models|
      ensures ModelNames(lang, n.models)[i] == files[i].namespace + ext && GoodName(files[i].namespace + ext, ext)
    {
      assert n.models[i] in n.models && files[i] in files;
      var name := files[i].namespace + ext;
      assert name[|name| - |ext|..] == ext && name[..|name| - |ext|] == files[i].namespace;
    }
    forall i, j | 0 <= i < j < |n.models|
      ensures ModelNames(lang, n.models)[i] != ModelNames(lang, n.models)[j]
    {
      assert BatchTheorems.Names(files)[i] != BatchTheorems.Names(files)[j];
      var a, b := files[i].namespace + ext, files[j].namespace + ext;
      assert a[..|a| - |ext|] == files[i].namespace && b[..|b| - |ext|] == files[j].namespace;
    }
  }

  /** What is read: exactly a package file that is accepted, with models, scripts and rules that pass. */
  lemma LoadsIff(lang: Language, z: Zip)
    ensures
      var l, r := lang.layout, FromArchive(lang, z);
      var models := LoadModels(lang, ModelsOf(Select(z, IsModelPath(l))));
      var package, acl, query := Get(z, l.package), Get(z, l.acl), Get(z, l.query);
      && (r == Err(NoPackageJson) <==> package == None)
      && (r.Ok? <==>
            && package.Some? && lang.package(package.value) && models.Ok?
            && (forall e <- Select(z, IsScriptPath(l)) :: lang.script(e.contents))
            && (acl.Some? ==> lang.acl(models.value, acl.value))
            && (query.Some? ==> lang.query(models.value, query.value)))
  {
    var l := lang.layout;
    ScriptsPass(lang, Select(z, IsScriptPath(l)));
    ModelsNeedNoPackage(lang, ModelsOf(Select(z, IsModelPath(l))));
  }

  lemma ScriptsPass(lang: Language, z: Zip)
    ensures (exists s <- ScriptsOf(z) :: !lang.script(s.text)) <==> exists e <- z :: !lang.script(e.contents)
  {
    if s :| s in ScriptsOf(z) && !lang.script(s.text) {
      var i :| 0 <= i < |z| && ScriptsOf(z)[i] == s;
      assert z[i] in z;
    }
    if e :| e in z && !lang.script(e.contents) {
      var i :| 0 <= i < |z| && z[i] == e;
      assert ScriptsOf(z)[i] in ScriptsOf(z);
    }
  }

  lemma ModelsNeedNoPackage(lang: Language, models: seq<Model>)
    ensures LoadModels(lang, models) != Err(NoPackageJson)
  {
  }

  // ----- A second round trip -----

  /** The base name of a selected path is what the path has behind its directory. */
  lemma SelectedName(dir: string, ext: string, name: string)
    requires IsDir(dir) && '/' !in ext && ext != "" && '/' !in name && Matches(dir + name, dir, ext)
    ensures Basename(dir + name) == name && GoodName(name, ext)
  {
    MatchesOwnDir(dir, name, ext);
    assert dir + name == dir[..|dir| - 1] + "/" + name;
    BasenameOf(dir[..|dir| - 1], name);
  }

  lemma SelectedBase(dir: string, names: seq<string>, ext: string, p: string)
    requires IsDir(dir) && '/' !in ext && ext != "" && p in InDir(dir, names) && Matches(p, dir, ext)
    requires forall name <- names :: '/' !in name
    ensures p == dir + Basename(p) && GoodName(Basename(p), ext) && '/' in p
  {
    var i :| 0 <= i < |names| && InDir(dir, names)[i] == p;
    SelectedName(dir, ext, names[i]);
    assert p[|dir| - 1] == '/';
  }

  /** All paths are where the writer puts files, under names the reader looks for. */
  ghost predicate Canonical(z: Zip, dir: string, ext: string) {
    && Distinct(Paths(z))
    && forall i :: 0 <= i < |z| ==> var p := z[i].path; p == dir + Basename(p) && GoodName(Basename(p), ext) && '/' in p
  }

  lemma SelectedCanonical(lang: Language, n: Network)
    requires WellFormed(lang, n) && Proper(lang.layout) && IdsPlain(n)
    ensures Canonical(Select(ToArchive(lang, n), IsModelPath(lang.layout)), lang.layout.modelDir, lang.layout.modelExt)
    ensures Canonical(Select(ToArchive(lang, n), IsScriptPath(lang.layout)), lang.layout.scriptDir, lang.layout.scriptExt)
  {
    var l, z := lang.layout, ToArchive(lang, n);
    MatchedPaths(lang, n);
    NamesHaveNoSlash(lang, n);
    PathsMembers(z);
    SelectDistinct(z, IsModelPath(l));
    SelectDistinct(z, IsScriptPath(l));
    var models, scripts := Select(z, IsModelPath(l)), Select(z, IsScriptPath(l));
    forall i | 0 <= i < |models|
      ensures var p := models[i].path; p == l.modelDir + Basename(p) && GoodName(Basename(p), l.modelExt) && '/' in p
    {
      assert models[i] in models;
      SelectedBase(l.modelDir, ModelNames(lang, n.models), l.modelExt, models[i].path);
    }
    forall i | 0 <= i < |scripts|
      ensures var p := scripts[i].path; p == l.scriptDir + Basename(p) && GoodName(Basename(p), l.scriptExt) && '/' in p
    {
      assert scripts[i] in scripts;
      SelectedBase(l.scriptDir, ScriptNames(n.scripts), l.scriptExt, scripts[i].path);
    }
  }

  lemma CanonicalNames(z: Zip, dir: string, ext: string, names: seq<string>)
    requires Canonical(z, dir, ext) && |names| == |z| && forall i :: 0 <= i < |z| ==> names[i] == Basename(z[i].path)
    ensures Distinct(names) && forall name <- names :: GoodName(name, ext)
  {
    assert InDir(dir, names) == Paths(z);
    InDirDistinct(dir, names);
  }

  lemma {:induction false} GetPut(z: Zip, p: string, c: string, x: string)
    ensures Get(Put(z, p, c), x) == if x == p then Some(c) else Get(z, x)
  {
    if z != [] {
      GetPut(z[1..], p, c, x);
    }
  }

  lemma {:induction false} GetPutAll(z: Zip, es: seq<Entry>, x: string)
    requires forall e <- es :: e.path != x
    ensures Get(PutAll(z, es), x) == Get(z, x)
    decreases |es|
  {
    if es != [] {
      GetPut(z, es[0].path, es[0].contents, x);
      GetPutAll(Put(z, es[0].path, es[0].contents), es[1..], x);
    }
  }

  lemma {:induction false} PutAllConcat(z: Zip, a: seq<Entry>, b: seq<Entry>)
    ensures PutAll(z, a + b) == PutAll(PutAll(z, a), b)
    decreases |a|
  {
    if a == [] {
      assert a + b == b;
    } else {
      assert (a + b)[0] == a[0] && (a + b)[1..] == a[1..] + b;
      PutAllConcat(Put(z, a[0].path, a[0].contents), a[1..], b);
    }
  }

  /** What is written under the README's name: the README, unless a rules file has that name too. */
  function ReadmeWritten(l: Layout, n: Network): Option<string> {
    if n.query.Some? && n.query.value.id == l.readme then Some(n.query.value.text)
    else if n.acl.Some? && n.acl.value.id == l.readme then Some(n.acl.value.text)
    else if n.readme == Some("") then None
    else n.readme
  }

  lemma GetPutOne(z: Zip, es: seq<Entry>, e: Entry, x: string)
    ensures Get(PutAll(z, es + [e]), x) == if x == e.path then Some(e.contents) else Get(PutAll(z, es), x)
  {
    PutAllConcat(z, es, [e]);
    assert [e][1..] == [];
    GetPut(PutAll(z, es), e.path, e.contents, x);
  }

  lemma TopReadme(l: Layout, n: Network)
    requires Proper(l)
    ensures Get(PutAll([], TopEntries(l, n)), l.readme) == ReadmeWritten(l, n)
  {
    var names := [l.package, l.readme, l.acl, l.query];
    assert names[0] != names[1];
    var first := [] + [Entry(l.package, n.package)];
    GetPutOne([], [], Entry(l.package, n.package), l.readme);
    var second := first + OptionalEntry(l.readme, Visible(n.readme));
    if Visible(n.readme).Some? {
      GetPutOne([], first, Entry(l.readme, n.readme.value), l.readme);
    }
    assert Get(PutAll([], second), l.readme) == Visible(n.readme) by {
      assert Visible(n.readme).None? ==> second == first;
    }
    RulesReadme(second, n.acl, l.readme);
    RulesReadme(second + RulesEntry(n.acl), n.query, l.readme);
    assert TopEntries(l, n) == second + RulesEntry(n.acl) + RulesEntry(n.query);
  }

  lemma RulesReadme(es: seq<Entry>, rules: Option<Rules>, x: string)
    ensures Get(PutAll([], es + RulesEntry(rules)), x) ==
              if rules.Some? && rules.value.id == x then Some(rules.value.text) else Get(PutAll([], es), x)
  {
    if rules.Some? {
      GetPutOne([], es, Entry(rules.value.id, rules.value.text), x);
    } else {
      assert es + RulesEntry(rules) == es;
    }
  }

  lemma OthersNotReadme(lang: Language, n: Network)
    requires Proper(lang.layout)
    ensures forall e <- ModelEntries(lang, n.models) + ScriptEntries(lang.layout, n.scripts) :: e.path != lang.layout.readme
  {
    var l := lang.layout;
    var rest := ModelEntries(lang, n.models) + ScriptEntries(l, n.scripts);
    assert l.readme in [l.package, l.readme, l.acl, l.query];
    forall e | e in rest
      ensures '/' in e.path
    {
      var i :| 0 <= i < |rest| && rest[i] == e;
      assert e.path[if i < |n.models| then |l.modelDir| - 1 else |l.scriptDir| - 1] == '/';
    }
  }

  lemma ReadmeBack(lang: Language, n: Network)
    requires Proper(lang.layout)
    ensures Get(ToArchive(lang, n), lang.layout.readme) == ReadmeWritten(lang.layout, n)
  {
    var top, rest := TopEntries(lang.layout, n), ModelEntries(lang, n.models) + ScriptEntries(lang.layout, n.scripts);
    assert Entries(lang, n) == top + rest;
    PutAllConcat([], top, rest);
    OthersNotReadme(lang, n);
    GetPutAll(PutAll([], top), rest, lang.layout.readme);
    TopReadme(lang.layout, n);
  }

  /** Whatever loads has passed all checks. */
  lemma LoadedIsValid(lang: Language, z: Zip, n: Network)
    requires PlainNamespaces(lang) && FromArchive(lang, z) == Ok(n)
    ensures WellFormed(lang, n) && IdsRight(lang.layout, n) && StillValid(lang, n)
    ensures n.models == ModelsOf(Select(z, IsModelPath(lang.layout))) && n.scripts == ScriptsOf(Select(z, IsScriptPath(lang.layout)))
    ensures n.readme == Get(z, lang.layout.readme)
  {
  }

  /** Models that carry canonical paths keep them. */
  lemma ModelsStay(lang: Language, z: Zip)
    requires Proper(lang.layout) && Canonical(z, lang.layout.modelDir, lang.layout.modelExt)
    ensures ModelEntries(lang, ModelsOf(z)) == z
    ensures Distinct(ModelNames(lang, ModelsOf(z)))
    ensures forall name <- ModelNames(lang, ModelsOf(z)) :: GoodName(name, lang.layout.modelExt)
  {
    forall i | 0 <= i < |z|
      ensures ModelName(lang, ModelsOf(z)[i]) == Basename(z[i].path)
    {
      assert z[i].path != "" && z[i].path != lang.layout.noName;
    }
    CanonicalNames(z, lang.layout.modelDir, lang.layout.modelExt, ModelNames(lang, ModelsOf(z)));
  }

  /** Scripts that carry canonical paths keep them. */
  lemma ScriptsStay(l: Layout, z: Zip)
    requires Proper(l) && Canonical(z, l.scriptDir, l.scriptExt)
    ensures ScriptEntries(l, ScriptsOf(z)) == z
    ensures Distinct(ScriptNames(ScriptsOf(z)))
    ensures forall name <- ScriptNames(ScriptsOf(z)) :: GoodName(name, l.scriptExt)
  {
    CanonicalNames(z, l.scriptDir, l.scriptExt, ScriptNames(ScriptsOf(z)));
  }

  /** A valid network whose models and scripts carry canonical paths comes back unchanged, but for an
      empty README. */
  lemma CanonicalComesBack(lang: Language, n: Network, models: Zip, scripts: Zip)
    requires Proper(lang.layout) && WellFormed(lang, n) && IdsRight(lang.layout, n) && StillValid(lang, n)
    requires Canonical(models, lang.layout.modelDir, lang.layout.modelExt) && n.models == ModelsOf(models)
    requires Canonical(scripts, lang.layout.scriptDir, lang.layout.scriptExt) && n.scripts == ScriptsOf(scripts)
    ensures FromArchive(lang, ToArchive(lang, n)) == Ok(n.(readme := Visible(n.readme)))
  {
    ModelsStay(lang, models);
    ScriptsStay(lang.layout, scripts);
    FaithfulIsEnough(lang, n);
    assert Loaded(lang, n) == n.(readme := Visible(n.readme));
  }

  /** With ACL and query files named without slashes, a second round trip changes nothing at all, even
      when the first one lost models, scripts or rules; the one exception is an empty rules file that
      was written in the README's place. */
  lemma SecondTripChangesNothing(lang: Language, n: Network)
    requires WellFormed(lang, n) && Proper(lang.layout) && IdsPlain(n)
    ensures
      var back := FromArchive(lang, ToArchive(lang, n));
      back.Ok? ==> (FromArchive(lang, ToArchive(lang, back.value)) == back <==> ReadmeWritten(lang.layout, n) != Some(""))
  {
    var back := FromArchive(lang, ToArchive(lang, n));
    if back.Ok? {
      var z := ToArchive(lang, n);
      SelectedCanonical(lang, n);
      ReadmeBack(lang, n);
      LoadedIsValid(lang, z, back.value);
      CanonicalComesBack(lang, back.value, Select(z, IsModelPath(lang.layout)), Select(z, IsScriptPath(lang.layout)));
    }
  }
}
