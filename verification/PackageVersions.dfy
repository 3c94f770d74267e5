/** Stamping one version on all packages of the repository, and checking that all agree. */
module PackageVersions {
  import opened Wrappers
  import opened Strings

  type Dependencies = map<string, string>

  /** A package.json; lerna.json is read the same way and usually has no name. */
  datatype Package = Package(name: Option<string>, version: string, dependencies: Dependencies, devDependencies: Dependencies)

  /** The packages directory maps directory names to packages. */
  datatype Repository = Repository(lerna: Package, root: Package, packages: map<string, Package>)

  datatype Verdict = Agreed | Mismatch | InvalidVersion

  // ----- Stamping -----

  function NamesIn(packages: map<string, Package>): set<string> {
    set i | i in packages && packages[i].name.Some? :: packages[i].name.value
  }

  function StampDependencies(deps: Dependencies, names: set<string>, version: string): (r: Dependencies)
    ensures r.Keys == deps.Keys
  {
    map d | d in deps :: if d in names then version else deps[d]
  }

  function StampPackage(p: Package, names: set<string>, version: string): Package {
    p.(version := version, dependencies := StampDependencies(p.dependencies, names, version),
       devDependencies := StampDependencies(p.devDependencies, names, version))
  }

  /** The version without an earlier stamp: from the first hyphen to the end of the line, all goes. */
  function Cut(version: string): (cut: string)
    ensures |cut| <= |version|
  {
    if version == [] then []
    else if version[0] == '-' then FromLineBreak(version)
    else [version[0]] + Cut(version[1..])
  }

  function FromLineBreak(s: string): (rest: string)
    ensures |rest| <= |s|
  {
    if s == [] || IsLineBreak(s[0]) then s else FromLineBreak(s[1..])
  }

  /** The version that is stamped: the result of cutting off an earlier stamp is thrown away. */
  function TargetVersion(r: Repository, timestamp: string): string {
    r.lerna.version + "-" + timestamp
  }

  function Stamp(r: Repository, version: string): Repository {
    Repository(r.lerna.(version := version), r.root.(version := version),
      map i | i in r.packages :: StampPackage(r.packages[i], NamesIn(r.packages), version))
  }

  // ----- Checking -----

  /** Everything the checking script looks at: both files at the top and all packages. */
  ghost predicate IsChecked(r: Repository, p: Package) {
    p == r.lerna || p == r.root || exists i :: i in r.packages && r.packages[i] == p
  }

  predicate Named(r: Repository, name: string) {
    r.lerna.name == Some(name) || r.root.name == Some(name) || name in NamesIn(r.packages)
  }

  ghost predicate DependenciesAgree(r: Repository, deps: Dependencies) {
    forall d <- deps :: Named(r, d) ==> deps[d] == r.lerna.version
  }

  ghost predicate PackageAgrees(r: Repository, p: Package) {
    p.version == r.lerna.version && DependenciesAgree(r, p.dependencies) && DependenciesAgree(r, p.devDependencies)
  }

  ghost function Check(r: Repository, valid: string -> bool): Verdict {
    if !valid(r.lerna.version) then InvalidVersion
    else if forall p :: IsChecked(r, p) ==> PackageAgrees(r, p) then Agreed
    else Mismatch
  }

  // ----- Stamp, then check -----

  /** A dependency list the stamping does not touch, or does not have to: what it says about names
      the checking script knows is already the new version. */
  ghost predicate AlreadyAt(r: Repository, deps: Dependencies, version: string) {
    forall d <- deps :: Named(r, d) ==> deps[d] == version
  }

  /** Dependencies on the names that are checked but not stamped. */
  ghost predicate TopNamesAt(r: Repository, deps: Dependencies, version: string) {
    forall d <- deps :: (r.lerna.name == Some(d) || r.root.name == Some(d)) && d !in NamesIn(r.packages) ==> deps[d] == version
  }

  /** The root (and lerna.json) have no sibling dependency at another version, and no package
      depends on the root's or lerna's own name at another version. */
  ghost predicate Stampable(r: Repository, version: string) {
    && AlreadyAt(r, r.lerna.dependencies, version) && AlreadyAt(r, r.lerna.devDependencies, version)
    && AlreadyAt(r, r.root.dependencies, version) && AlreadyAt(r, r.root.devDependencies, version)
    && forall i <- r.packages ::
         TopNamesAt(r, r.packages[i].dependencies, version) && TopNamesAt(r, r.packages[i].devDependencies, version)
  }

  lemma StampKeepsNames(r: Repository, version: string)
    ensures NamesIn(Stamp(r, version).packages) == NamesIn(r.packages)
    ensures forall d :: Named(Stamp(r, version), d) <==> Named(r, d)
  {
    var after := Stamp(r, version);
    forall name
      ensures name in NamesIn(after.packages) <==> name in NamesIn(r.packages)
    {
      if name in NamesIn(r.packages) {
        var i :| i in r.packages && r.packages[i].name == Some(name);
        assert after.packages[i].name == Some(name);
      }
    }
  }

  lemma StampedAgree(r: Repository, deps: Dependencies, version: string)
    ensures DependenciesAgree(Stamp(r, version), StampDependencies(deps, NamesIn(r.packages), version)) <==>
              TopNamesAt(r, deps, version)
  {
    var after, stamped := Stamp(r, version), StampDependencies(deps, NamesIn(r.packages), version);
    StampKeepsNames(r, version);
    if DependenciesAgree(after, stamped) {
      forall d | d in deps && (r.lerna.name == Some(d) || r.root.name == Some(d)) && d !in NamesIn(r.packages)
        ensures deps[d] == version
      {
        assert Named(after, d) && d in stamped;
      }
    }
  }

  lemma UntouchedAgree(r: Repository, deps: Dependencies, version: string)
    ensures DependenciesAgree(Stamp(r, version), deps) <==> AlreadyAt(r, deps, version)
  {
    StampKeepsNames(r, version);
  }

  lemma PackageAgreesIff(r: Repository, i: string, version: string)
    requires i in r.packages
    ensures PackageAgrees(Stamp(r, version), Stamp(r, version).packages[i]) <==>
              TopNamesAt(r, r.packages[i].dependencies, version) && TopNamesAt(r, r.packages[i].devDependencies, version)
  {
    StampedAgree(r, r.packages[i].dependencies, version);
    StampedAgree(r, r.packages[i].devDependencies, version);
  }

  lemma TopAgrees(r: Repository, version: string)
    ensures PackageAgrees(Stamp(r, version), Stamp(r, version).lerna) <==>
              AlreadyAt(r, r.lerna.dependencies, version) && AlreadyAt(r, r.lerna.devDependencies, version)
    ensures PackageAgrees(Stamp(r, version), Stamp(r, version).root) <==>
              AlreadyAt(r, r.root.dependencies, version) && AlreadyAt(r, r.root.devDependencies, version)
  {
    UntouchedAgree(r, r.lerna.dependencies, version);
    UntouchedAgree(r, r.lerna.devDependencies, version);
    UntouchedAgree(r, r.root.dependencies, version);
    UntouchedAgree(r, r.root.devDependencies, version);
  }

  /** After stamping, the checking script finds agreement exactly when the version is a valid one, the root
      has no dependency on a package of the repository at another version, and no package depends
      on a name that only the top files have at another version. */
  lemma StampThenCheck(r: Repository, version: string, valid: string -> bool)
    ensures Check(Stamp(r, version), valid) == Agreed <==> valid(version) && Stampable(r, version)
  {
    var after := Stamp(r, version);
    TopAgrees(r, version);
    forall i | i in r.packages
      ensures PackageAgrees(after, after.packages[i]) <==>
                TopNamesAt(r, r.packages[i].dependencies, version) && TopNamesAt(r, r.packages[i].devDependencies, version)
    {
      PackageAgreesIff(r, i, version);
    }
    assert IsChecked(after, after.lerna) && IsChecked(after, after.root);
    if forall p :: IsChecked(after, p) ==> PackageAgrees(after, p) {
      forall i | i in r.packages
        ensures TopNamesAt(r, r.packages[i].dependencies, version) && TopNamesAt(r, r.packages[i].devDependencies, version)
      {
        assert IsChecked(after, after.packages[i]);
      }
    }
  }

  /** Stamping changes versions and dependencies on packages of the repository, and nothing else;
      stamping the same version again changes nothing. */
  lemma StampTouchesOnlySiblings(r: Repository, version: string, i: string, d: string)
    requires i in r.packages
    ensures
      var before, after := r.packages[i], Stamp(r, version).packages[i];
      && after.name == before.name && after.version == version
      && after.dependencies.Keys == before.dependencies.Keys && after.devDependencies.Keys == before.devDependencies.Keys
      && (d in before.dependencies && d !in NamesIn(r.packages) ==> after.dependencies[d] == before.dependencies[d])
      && (d in before.devDependencies && d !in NamesIn(r.packages) ==> after.devDependencies[d] == before.devDependencies[d])
    ensures Stamp(Stamp(r, version), version) == Stamp(r, version)
  {
    StampKeepsNames(r, version);
    var once, twice := Stamp(r, version), Stamp(Stamp(r, version), version);
    forall j | j in r.packages
      ensures twice.packages[j] == once.packages[j]
    {
      assert twice.packages[j].dependencies == once.packages[j].dependencies;
      assert twice.packages[j].devDependencies == once.packages[j].devDependencies;
    }
    assert twice.packages == once.packages;
  }

  // ----- Stamp, then stamp again -----

  lemma {:induction false} CutIff(version: string)
    ensures Cut(version) == version <==> '-' !in version
    ensures |Cut(version)| == |version| ==> Cut(version) == version
  {
    if version != [] {
      if version[0] == '-' {
        assert FromLineBreak(version) == FromLineBreak(version[1..]);
      } else {
        CutIff(version[1..]);
        assert version == [version[0]] + version[1..];
      }
    }
  }

  /** The new stamp replaces an earlier one exactly when there is none: a version that already has
      a hyphen keeps all it has. */
  lemma StampReplacesIff(r: Repository, timestamp: string)
    ensures TargetVersion(r, timestamp) == Cut(r.lerna.version) + "-" + timestamp <==> '-' !in r.lerna.version
  {
    CutIff(r.lerna.version);
    assert |TargetVersion(r, timestamp)| == |r.lerna.version| + 1 + |timestamp|;
  }

  /** Stamps pile up: whatever the repository, a second stamping appends to the first. */
  lemma StampsPileUp(r: Repository, first: string, second: string)
    ensures
      var once := Stamp(r, TargetVersion(r, first));
      && TargetVersion(once, second) == r.lerna.version + "-" + first + "-" + second
      && TargetVersion(once, second) != Cut(once.lerna.version) + "-" + second
  {
    var once := Stamp(r, TargetVersion(r, first));
    assert once.lerna.version[|r.lerna.version|] == '-';
    StampReplacesIff(once, second);
  }
}
