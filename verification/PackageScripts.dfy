/** The stamping and the checking script, with their nested loops. */
module PackageScripts {
  import opened Wrappers
  import opened PackageVersions

  /** The dependencies of one package on one other. */
  method StampOne(deps: Dependencies, name: Option<string>, version: string) returns (after: Dependencies)
    ensures after == StampDependencies(deps, if name.Some? then {name.value} else {}, version)
  {
    after := deps;
    var keys := deps.Keys;
    while keys != {}
      invariant keys <= deps.Keys && after.Keys == deps.Keys
      invariant forall d <- deps :: after[d] == if d !in keys && name == Some(d) then version else deps[d]
    {
      var d :| d in keys;
      if name == Some(d) {
        after := after[d := version];
      }
      keys := keys - {d};
    }
  }

  lemma StampMore(deps: Dependencies, names: set<string>, more: set<string>, version: string)
    ensures StampDependencies(StampDependencies(deps, names, version), more, version) == StampDependencies(deps, names + more, version)
  {
  }

  ghost function NamesOf(packages: map<string, Package>, some: set<string>): set<string> {
    set i | i in some && i in packages && packages[i].name.Some? :: packages[i].name.value
  }

  lemma NamesOfMore(packages: map<string, Package>, some: set<string>, j: string)
    requires j in packages
    ensures NamesOf(packages, some + {j}) == NamesOf(packages, some) + if packages[j].name.Some? then {packages[j].name.value} else {}
  {
  }

  /** One package against all others. */
  method StampAgainstAll(p: Package, packages: map<string, Package>, version: string) returns (after: Package)
    ensures after == p.(dependencies := StampDependencies(p.dependencies, NamesIn(packages), version),
                        devDependencies := StampDependencies(p.devDependencies, NamesIn(packages), version))
  {
    var dependencies, devDependencies := p.dependencies, p.devDependencies;
    var others := packages.Keys;
    ghost var done: set<string> := {};
    while others != {}
      invariant done !! others && done + others == packages.Keys
      invariant dependencies == StampDependencies(p.dependencies, NamesOf(packages, done), version)
      invariant devDependencies == StampDependencies(p.devDependencies, NamesOf(packages, done), version)
    {
      var j :| j in others;
      var name := packages[j].name;
      StampMore(p.dependencies, NamesOf(packages, done), if name.Some? then {name.value} else {}, version);
      StampMore(p.devDependencies, NamesOf(packages, done), if name.Some? then {name.value} else {}, version);
      NamesOfMore(packages, done, j);
      dependencies := StampOne(dependencies, name, version);
      devDependencies := StampOne(devDependencies, name, version);
      others, done := others - {j}, done + {j};
    }
    assert NamesOf(packages, done) == NamesIn(packages);
    after := p.(dependencies := dependencies, devDependencies := devDependencies);
  }

  /** The files on disk. */
  class Workspace {
    var repository: Repository

    constructor (repository: Repository)
      ensures this.repository == repository
    {
      this.repository := repository;
    }

    method StampAll(timestamp: string)
      modifies this
      ensures repository == Stamp(old(repository), TargetVersion(old(repository), timestamp))
    {
      ghost var given := repository;
      var version := TargetVersion(repository, timestamp);
      repository := repository.(lerna := repository.lerna.(version := version));
      repository := repository.(root := repository.root.(version := version));
      var packages := map i | i in repository.packages :: repository.packages[i].(version := version);
      var names := packages.Keys;
      ghost var before := repository.packages;
      while names != {}
        invariant repository == given.(lerna := given.lerna.(version := version), root := given.root.(version := version))
        invariant names <= packages.Keys && packages.Keys == before.Keys && NamesIn(packages) == NamesIn(before)
        invariant forall i <- before :: packages[i] ==
                    if i in names then before[i].(version := version) else StampPackage(before[i], NamesIn(before), version)
      {
        var i :| i in names;
        var after := StampAgainstAll(packages[i], packages, version);
        SameNames(packages, i, after);
        packages := packages[i := after];
        names := names - {i};
      }
      repository := repository.(packages := packages);
      assert packages == Stamp(given, version).packages;
    }

    /** Checks every file against lerna's version, and collects, file by file, the dependencies
        on names of the repository that are at another version. */
    method CheckAll(valid: string -> bool) returns (verdict: Verdict, bad: map<Label, seq<Bad>>)
      ensures verdict == Check(repository, valid)
      ensures verdict != InvalidVersion ==>
                forall l, b :: l in bad && b in bad[l] <==> l in Files(repository) && IsBad(repository, Files(repository)[l], b)
    {
      var target := repository.lerna.version;
      bad := map[];
      if !valid(target) {
        return InvalidVersion, bad;
      }
      var files := Files(repository);
      var versions := VersionsAgree(files, target);
      var labels := files.Keys;
      while labels != {}
        invariant labels <= files.Keys && bad.Keys !! labels && bad.Keys <= files.Keys
        invariant forall l, b :: l in bad && b in bad[l] <==> l in files.Keys - labels && IsBad(repository, files[l], b)
        invariant forall l <- bad :: bad[l] != []
      {
        var l :| l in labels;
        var found := CheckAgainstAll(repository, files[l]);
        if found != [] {
          bad := bad[l := found];
        }
        labels := labels - {l};
      }
      verdict := if versions && bad == map[] then Agreed else Mismatch;
      VerdictIs(repository, valid, bad);
    }
  }

  datatype Label = Lerna | Root | Directory(name: string)

  datatype Bad = Bad(dependency: string, currentValue: string)

  function Files(r: Repository): map<Label, Package> {
    map[Lerna := r.lerna, Root := r.root] + map i | i in r.packages :: Directory(i) := r.packages[i]
  }

  predicate BadAmong(deps: Dependencies, b: Bad, target: string) {
    b.dependency in deps && deps[b.dependency] == b.currentValue && b.currentValue != target
  }

  ghost predicate IsBad(r: Repository, p: Package, b: Bad) {
    Named(r, b.dependency) && (BadAmong(p.dependencies, b, r.lerna.version) || BadAmong(p.devDependencies, b, r.lerna.version))
  }

  lemma FilesAreChecked(r: Repository)
    ensures forall p :: IsChecked(r, p) <==> exists l :: l in Files(r) && Files(r)[l] == p
    ensures forall name :: Named(r, name) <==> exists l :: l in Files(r) && Files(r)[l].name == Some(name)
  {
    var files := Files(r);
    assert files[Lerna] == r.lerna && files[Root] == r.root;
    forall p | IsChecked(r, p)
      ensures exists l :: l in files && files[l] == p
    {
      if i :| i in r.packages && r.packages[i] == p {
        assert files[Directory(i)] == p;
      }
    }
    forall name | Named(r, name)
      ensures exists l :: l in files && files[l].name == Some(name)
    {
      if i :| i in r.packages && r.packages[i].name == Some(name) {
        assert files[Directory(i)].name == Some(name);
      }
    }
  }

  lemma AgreesIffNothingBad(r: Repository, p: Package)
    ensures PackageAgrees(r, p) <==> p.version == r.lerna.version && forall b :: !IsBad(r, p, b)
  {
    if forall b :: !IsBad(r, p, b) {
      forall d | d in p.dependencies && Named(r, d)
        ensures p.dependencies[d] == r.lerna.version
      {
        assert !IsBad(r, p, Bad(d, p.dependencies[d]));
      }
      forall d | d in p.devDependencies && Named(r, d)
        ensures p.devDependencies[d] == r.lerna.version
      {
        assert !IsBad(r, p, Bad(d, p.devDependencies[d]));
      }
    }
  }

  lemma VerdictIs(r: Repository, valid: string -> bool, bad: map<Label, seq<Bad>>)
    requires valid(r.lerna.version)
    requires forall l, b :: l in bad && b in bad[l] <==> l in Files(r) && IsBad(r, Files(r)[l], b)
    requires forall l <- bad :: bad[l] != []
    ensures Check(r, valid) == Agreed <==> bad == map[] && forall l <- Files(r) :: Files(r)[l].version == r.lerna.version
  {
    FilesAreChecked(r);
    forall p
      ensures PackageAgrees(r, p) <==> p.version == r.lerna.version && forall b :: !IsBad(r, p, b)
    {
      AgreesIffNothingBad(r, p);
    }
    if bad != map[] {
      var l :| l in bad;
      assert bad[l][0] in bad[l];
    }
  }

  method VersionsAgree(files: map<Label, Package>, target: string) returns (agree: bool)
    ensures agree <==> forall l <- files :: files[l].version == target
  {
    var labels := files.Keys;
    while labels != {}
      invariant labels <= files.Keys
      invariant forall l <- files.Keys - labels :: files[l].version == target
    {
      var l :| l in labels;
      if files[l].version != target {
        return false;
      }
      labels := labels - {l};
    }
    agree := true;
  }

  method CheckOne(deps: Dependencies, name: Option<string>, target: string) returns (bad: seq<Bad>)
    ensures forall b :: b in bad <==> name == Some(b.dependency) && BadAmong(deps, b, target)
  {
    bad := [];
    var keys := deps.Keys;
    while keys != {}
      invariant keys <= deps.Keys
      invariant forall b :: b in bad <==> b.dependency !in keys && name == Some(b.dependency) && BadAmong(deps, b, target)
    {
      var d :| d in keys;
      if name == Some(d) && deps[d] != target {
        bad := bad + [Bad(d, deps[d])];
      }
      keys := keys - {d};
    }
  }

  /** One package against all files, itself included. */
  method CheckAgainstAll(r: Repository, p: Package) returns (bad: seq<Bad>)
    ensures forall b :: b in bad <==> IsBad(r, p, b)
  {
    var files, target := Files(r), r.lerna.version;
    bad := [];
    var others := files.Keys;
    while others != {}
      invariant others <= files.Keys
      invariant forall b :: b in bad <==>
                  && (exists l :: l in files.Keys - others && files[l].name == Some(b.dependency))
                  && (BadAmong(p.dependencies, b, target) || BadAmong(p.devDependencies, b, target))
    {
      var l :| l in others;
      var some := CheckOne(p.dependencies, files[l].name, target);
      var more := CheckOne(p.devDependencies, files[l].name, target);
      bad := bad + some + more;
      others := others - {l};
    }
    FilesAreChecked(r);
  }

  lemma SameNames(packages: map<string, Package>, i: string, p: Package)
    requires i in packages && p.name == packages[i].name
    ensures NamesIn(packages[i := p]) == NamesIn(packages)
  {
    var after := packages[i := p];
    forall name
      ensures name in NamesIn(after) <==> name in NamesIn(packages)
    {
      if name in NamesIn(packages) {
        var j :| j in packages && packages[j].name == Some(name);
        assert after[j].name == Some(name);
      }
    }
  }
}
