/** The catalogue of sample networks: choosing a version of each package, and ordering them. */
module Samples {
  import opened Wrappers
  import opened Collections
  import opened Sorting
  import opened Strings

  // ----- Precedence of versions: section 11 of Semantic Versioning 2.0.0 -----

  datatype Identifier = Numeric(n: nat) | Alphanumeric(s: string)

  datatype Version = Version(major: nat, minor: nat, patch: nat, pre: seq<Identifier>, build: string)

  function Sign(less: bool, equal: bool): int {
    if less then -1 else if equal then 0 else 1
  }

  /** Numeric identifiers come before alphanumeric ones. */
  function CompareIdentifiers(a: Identifier, b: Identifier): int {
    match (a, b)
    case (Numeric(m), Numeric(n)) => Sign(m < n, m == n)
    case (Numeric(_), Alphanumeric(_)) => -1
    case (Alphanumeric(_), Numeric(_)) => 1
    case (Alphanumeric(s), Alphanumeric(t)) => Sign(Less(s, t), s == t)
  }

  /** Left to right; if all of the shorter list agree, the longer list comes later. */
  function ComparePre(a: seq<Identifier>, b: seq<Identifier>): int
    decreases |a|
  {
    if a == [] || b == [] then Sign(|a| < |b|, |a| == |b|)
    else
      var c := CompareIdentifiers(a[0], b[0]);
      if c != 0 then c else ComparePre(a[1..], b[1..])
  }

  /** Major, minor and patch version, then a prerelease before the release; builds do not count. */
  function Compare(a: Version, b: Version): int {
    if a.major != b.major then Sign(a.major < b.major, false)
    else if a.minor != b.minor then Sign(a.minor < b.minor, false)
    else if a.patch != b.patch then Sign(a.patch < b.patch, false)
    else if a.pre == [] || b.pre == [] then Sign(a.pre != [] && b.pre == [], a.pre == b.pre)
    else ComparePre(a.pre, b.pre)
  }

  /** The order `sort(semver.rcompare)` sorts into. */
  predicate NotBefore(a: Version, b: Version) {
    Compare(a, b) >= 0
  }

  // ----- Choosing a version -----

  /** The package.json of one published version; a version range is what it admits. */
  datatype Metadata = Metadata(name: string, version: Version, engines: Option<Engines>, description: string,
                               networkImage: string, networkImageAnimated: string, tarball: string)

  datatype Engines = Engines(composer: Option<Version -> bool>)

  /** What is published of one package. */
  type Published = map<Version, Metadata>

  datatype Sample = Sample(name: string, description: string, version: Version,
                           networkImage: string, networkImageAnimated: string, tarball: string)

  /** A prerelease of Composer counts as the release it leads to. */
  function VersionToUse(composer: Version): Version {
    if composer.pre != [] then composer.(pre := [], build := "") else composer
  }

  predicate Supported(m: Metadata, composer: Version) {
    m.engines.Some? && m.engines.value.composer.Some? && m.engines.value.composer.value(VersionToUse(composer))
  }

  /** A published release whose range of supported Composers admits the least release that is not
      before this one. */
  predicate Eligible(published: Published, composer: Version, v: Version) {
    && v in published && v.pre == []
    && match published[v].engines
       case None => false
       case Some(Engines(None)) => false
       case Some(Engines(Some(admits))) => admits(VersionToUse(composer))
  }

  function Filter<T(!new)>(items: seq<T>, keep: T -> bool): (r: seq<T>)
    ensures forall x :: x in r <==> x in items && keep(x)
  {
    if items == [] then []
    else
      var rest := Filter(items[1..], keep);
      assert items == [items[0]] + items[1..];
      if keep(items[0]) then [items[0]] + rest else rest
  }

  /** The chain of sort and filters, over the versions in the order in which they are listed. */
  function Versions(published: Published, composer: Version, listed: seq<Version>): seq<Version>
    requires forall v <- listed :: v in published
  {
    var sorted := SortBy(listed, NotBefore);
    Filter(Filter(sorted, IsRelease()), IsSupported(published, composer))
  }

  function SampleOf(m: Metadata): Sample {
    Sample(m.name, m.description, m.version, m.networkImage, m.networkImageAnimated, m.tarball)
  }

  /** A package with the order in which its versions are listed. */
  datatype Package = Package(published: Published, listed: seq<Version>)

  ghost predicate Valid(p: Package) {
    ToSet(p.listed) == p.published.Keys
  }

  /** At most one entry for each package: the first version left. */
  function Choose(p: Package, composer: Version): seq<Sample>
    requires Valid(p)
  {
    var versions := Versions(p.published, composer, p.listed);
    if versions == [] then [] else
      assert versions[0] in versions;
      [SampleOf(p.published[versions[0]])]
  }

  function Catalogue(packages: seq<Package>, composer: Version): seq<Sample>
    requires AllValid(packages)
  {
    if packages == [] then [] else Choose(packages[0], composer) + Catalogue(packages[1..], composer)
  }

  ghost predicate AllValid(packages: seq<Package>) {
    forall p <- packages :: Valid(p)
  }

  /** What is listed after the first `i` packages, in front of the rest of the catalogue. */
  ghost predicate Progress(packages: seq<Package>, i: nat, composer: Version, options: seq<Sample>)
    requires AllValid(packages) && i <= |packages|
  {
    && AllValid(packages[i..])
    && Catalogue(packages, composer) == options + Catalogue(packages[i..], composer)
  }

  lemma CatalogueUnfolds(packages: seq<Package>, i: nat, composer: Version)
    requires i < |packages| && AllValid(packages[i..])
    ensures AllValid(packages[i + 1..]) && Valid(packages[i])
    ensures Catalogue(packages[i..], composer) == Choose(packages[i], composer) + Catalogue(packages[i + 1..], composer)
  {
    var rest := packages[i..];
    assert rest[0] == packages[i] && rest[1..] == packages[i + 1..];
    assert packages[i] in rest;
    forall p | p in packages[i + 1..]
      ensures Valid(p)
    {
      assert p in rest[1..];
    }
  }

  lemma CatalogueStep(packages: seq<Package>, i: nat, composer: Version, options: seq<Sample>)
    requires AllValid(packages) && i < |packages| && Progress(packages, i, composer, options)
    ensures Valid(packages[i]) && Progress(packages, i + 1, composer, options + Choose(packages[i], composer))
  {
    CatalogueUnfolds(packages, i, composer);
    Regroup(options, Choose(packages[i], composer), Catalogue(packages[i + 1..], composer));
  }

  lemma CatalogueEnds(packages: seq<Package>, composer: Version, options: seq<Sample>)
    requires AllValid(packages)
    ensures Progress(packages, 0, composer, [])
    ensures Progress(packages, |packages|, composer, options) ==> options == Catalogue(packages, composer)
  {
    assert packages[0..] == packages;
  }

  method DownloadMetaData(packages: seq<Package>, composer: Version) returns (options: seq<Sample>)
    requires AllValid(packages)
    ensures options == Catalogue(packages, composer)
  {
    options := [];
    CatalogueEnds(packages, composer, options);
    for i := 0 to |packages|
      invariant Progress(packages, i, composer, options)
    {
      CatalogueStep(packages, i, composer, options);
      var entry := MakeEntry(packages[i], composer);
      options := options + entry;
    }
    CatalogueEnds(packages, composer, options);
  }

  method MakeEntry(p: Package, composer: Version) returns (entry: seq<Sample>)
    requires Valid(p)
    ensures entry == Choose(p, composer)
  {
    var versions := Versions(p.published, composer, p.listed);
    if versions == [] {
      return [];
    }
    assert versions[0] in versions;
    entry := [SampleOf(p.published[versions[0]])];
  }

  // ----- Precedence is a total preorder -----

  lemma IdentifiersOrdered(a: Identifier, b: Identifier, c: Identifier)
    ensures CompareIdentifiers(a, b) == -CompareIdentifiers(b, a)
    ensures CompareIdentifiers(a, b) == 0 <==> a == b
    ensures CompareIdentifiers(a, b) >= 0 && CompareIdentifiers(b, c) >= 0 ==> CompareIdentifiers(a, c) >= 0
  {
    if a.Alphanumeric? && b.Alphanumeric? {
      LessTotal(a.s, b.s);
      if Less(a.s, b.s) {
        LessAsymmetric(a.s, b.s);
      } else if Less(b.s, a.s) {
        LessAsymmetric(b.s, a.s);
      }
      if c.Alphanumeric? {
        if NotAfter(c.s, b.s) && NotAfter(b.s, a.s) {
          NotAfterTransitive(c.s, b.s, a.s);
        }
        LessTotal(b.s, c.s);
        LessTotal(a.s, c.s);
      }
    }
  }

  lemma {:induction false} PreOrdered(a: seq<Identifier>, b: seq<Identifier>, c: seq<Identifier>)
    ensures ComparePre(a, b) == -ComparePre(b, a)
    ensures ComparePre(a, b) == 0 <==> a == b
    ensures ComparePre(a, b) >= 0 && ComparePre(b, c) >= 0 ==> ComparePre(a, c) >= 0
    decreases |a|
  {
    if a != [] && b != [] {
      assert a == [a[0]] + a[1..] && b == [b[0]] + b[1..];
      if c != [] {
        IdentifiersOrdered(a[0], b[0], c[0]);
        IdentifiersOrdered(b[0], c[0], a[0]);
        IdentifiersOrdered(c[0], a[0], b[0]);
        PreOrdered(a[1..], b[1..], c[1..]);
      } else {
        IdentifiersOrdered(a[0], b[0], a[0]);
        PreOrdered(a[1..], b[1..], []);
      }
    }
  }

  /** Every two versions compare, one way or the other, and comparisons carry over. */
  lemma PrecedenceIsTotal()
    ensures TotalPreorder(NotBefore)
  {
    forall a, b
      ensures NotBefore(a, b) || NotBefore(b, a)
    {
      PreOrdered(a.pre, b.pre, a.pre);
    }
    forall a, b, c | NotBefore(a, b) && NotBefore(b, c)
      ensures NotBefore(a, c)
    {
      PreOrdered(a.pre, b.pre, c.pre);
    }
  }

  // ----- What precedence is -----

  /** Major before minor before patch, and then a prerelease before its release; builds do not count. */
  lemma CoreDecides(a: Version, b: Version)
    ensures a.major < b.major ==> Compare(a, b) < 0
    ensures a.major == b.major && a.minor < b.minor ==> Compare(a, b) < 0
    ensures a.major == b.major && a.minor == b.minor && a.patch < b.patch ==> Compare(a, b) < 0
    ensures a.major == b.major && a.minor == b.minor && a.patch == b.patch && a.pre != [] && b.pre == [] ==> Compare(a, b) < 0
    ensures Compare(a, b) == 0 <==> a.(build := "") == b.(build := "")
    ensures Compare(a, b) == -Compare(b, a)
  {
    PreOrdered(a.pre, b.pre, a.pre);
  }

  /** Between prereleases of one version the first identifier that differs decides, numbers by their
      value, texts by their characters, numbers before texts; a list that goes on comes later. */
  lemma {:induction false} IdentifiersDecide(a: Version, common: seq<Identifier>, x: Identifier, y: Identifier, s: seq<Identifier>, t: seq<Identifier>)
    requires x != y
    ensures
      var less := match (x, y)
                  case (Numeric(m), Numeric(n)) => m < n
                  case (Alphanumeric(p), Alphanumeric(q)) => Less(p, q)
                  case _ => x.Numeric?;
      Compare(a.(pre := common + [x] + s), a.(pre := common + [y] + t)) < 0 <==> less
    ensures Compare(a.(pre := common + [x]), a.(pre := common + [x] + [y] + s)) < 0
  {
    CommonFirst(common, [x] + s, [y] + t);
    assert common + ([x] + s) == common + [x] + s && common + ([y] + t) == common + [y] + t;
    IdentifiersOrdered(x, y, x);
    CommonFirst(common + [x], [], [y] + s);
    assert (common + [x]) + [] == common + [x] && (common + [x]) + ([y] + s) == common + [x] + [y] + s;
  }

  lemma {:induction false} CommonFirst(common: seq<Identifier>, s: seq<Identifier>, t: seq<Identifier>)
    ensures ComparePre(common + s, common + t) == ComparePre(s, t)
  {
    if common == [] {
      assert common + s == s && common + t == t;
    } else {
      assert (common + s)[0] == common[0] == (common + t)[0];
      assert (common + s)[1..] == common[1..] + s && (common + t)[1..] == common[1..] + t;
      IdentifiersOrdered(common[0], common[0], common[0]);
      CommonFirst(common[1..], s, t);
    }
  }

  /** The version that ranges are asked about is the least release that does not precede this one. */
  lemma LeastRelease(v: Version, w: Version)
    ensures VersionToUse(v).pre == [] && Compare(VersionToUse(v), v) >= 0
    ensures w.pre == [] && Compare(w, v) >= 0 ==> Compare(w, VersionToUse(v)) >= 0
  {
    CoreDecides(VersionToUse(v), v);
  }

  // ----- The version that is chosen -----

  lemma {:induction false} FilterSorted<T(!new)>(items: seq<T>, keep: T -> bool, le: (T, T) -> bool)
    requires Sorted(items, le)
    ensures Sorted(Filter(items, keep), le)
  {
    if items != [] {
      SortedTail(items, le);
      FilterSorted(items[1..], keep, le);
      SortedCons(items[0], Filter(items[1..], keep), le);
    }
  }

  lemma SupportedIff(published: Published, composer: Version, v: Version)
    ensures v in published && v.pre == [] && Supported(published[v], composer) <==> Eligible(published, composer, v)
  {
  }

  function IsRelease(): Version -> bool {
    (v: Version) => v.pre == []
  }

  function IsSupported(published: Published, composer: Version): Version -> bool {
    (v: Version) => v in published && Supported(published[v], composer)
  }

  lemma VersionsSorted(p: Package, composer: Version)
    requires Valid(p)
    ensures Sorted(Versions(p.published, composer, p.listed), NotBefore)
  {
    PrecedenceIsTotal();
    SortBySorted(p.listed, NotBefore);
    FilterSorted(SortBy(p.listed, NotBefore), IsRelease(), NotBefore);
    FilterSorted(Filter(SortBy(p.listed, NotBefore), IsRelease()), IsSupported(p.published, composer), NotBefore);
  }

  /** Exactly the eligible versions are left, the highest first. */
  lemma VersionsAre(p: Package, composer: Version)
    requires Valid(p)
    ensures forall v :: v in Versions(p.published, composer, p.listed) <==> Eligible(p.published, composer, v)
    ensures Sorted(Versions(p.published, composer, p.listed), NotBefore)
  {
    VersionsSorted(p, composer);
    SameMembers(SortBy(p.listed, NotBefore), p.listed);
    forall v
      ensures v in Versions(p.published, composer, p.listed) <==> Eligible(p.published, composer, v)
    {
      SupportedIff(p.published, composer, v);
      assert v in p.published <==> v in ToSet(p.listed);
    }
  }

  ghost predicate IsHighest(p: Package, composer: Version, v: Version) {
    Eligible(p.published, composer, v) && forall w :: Eligible(p.published, composer, w) ==> Compare(v, w) >= 0
  }

  /** The entry shows what the release's package.json says. */
  predicate Shows(s: Sample, m: Metadata) {
    && s.name == m.name && s.description == m.description && s.version == m.version && s.tarball == m.tarball
    && s.networkImage == m.networkImage && s.networkImageAnimated == m.networkImageAnimated
  }

  /** A package has an entry exactly when one of its releases supports this Composer, and then it
      is the entry of a release that supports it and that no other such release precedes. */
  lemma ChosenIsHighest(p: Package, composer: Version)
    requires Valid(p)
    ensures Choose(p, composer) == [] <==> forall v :: !Eligible(p.published, composer, v)
    ensures Choose(p, composer) != [] ==> exists v :: IsHighest(p, composer, v) && |Choose(p, composer)| == 1 && Shows(Choose(p, composer)[0], p.published[v])
  {
    var versions := Versions(p.published, composer, p.listed);
    VersionsAre(p, composer);
    if versions != [] {
      assert Eligible(p.published, composer, versions[0]);
      assert Shows(Choose(p, composer)[0], p.published[versions[0]]);
      forall w | Eligible(p.published, composer, w)
        ensures Compare(versions[0], w) >= 0
      {
        var i :| 0 <= i < |versions| && versions[i] == w;
        if i == 0 {
          PreOrdered(w.pre, w.pre, w.pre);
        } else {
          assert NotBefore(versions[0], versions[i]);
        }
      }
    }
  }

  // ----- Ordering the catalogue -----

  predicate NameNotAfter(a: Sample, b: Sample) {
    NotAfter(Lower(a.name), Lower(b.name))
  }

  /** The primary samples in the order given, then the others by lower-case name. */
  function SortSamples(samples: seq<Sample>, primary: string): seq<Sample> {
    Filter(samples, IsPrimary(primary)) + SortBy(Filter(samples, IsOther(primary)), NameNotAfter)
  }

  function IsPrimary(primary: string): Sample -> bool {
    (s: Sample) => s.name == primary
  }

  function IsOther(primary: string): Sample -> bool {
    (s: Sample) => s.name != primary
  }

  lemma {:induction false} FilterSplits<T(!new)>(items: seq<T>, keep: T -> bool, other: T -> bool)
    requires forall x :: keep(x) <==> !other(x)
    ensures multiset(Filter(items, keep)) + multiset(Filter(items, other)) == multiset(items)
  {
    if items != [] {
      assert items == [items[0]] + items[1..];
      FilterSplits(items[1..], keep, other);
    }
  }

  /** Nothing is lost or added, the primary samples come first, and the others are in
      case-insensitive order. */
  lemma SortedSamples(samples: seq<Sample>, primary: string)
    ensures multiset(SortSamples(samples, primary)) == multiset(samples)
    ensures Arranged(SortSamples(samples, primary), primary)
  {
    var first, rest := Filter(samples, IsPrimary(primary)), SortBy(Filter(samples, IsOther(primary)), NameNotAfter);
    FilterSplits(samples, IsPrimary(primary), IsOther(primary));
    NamesAreOrdered();
    SortBySorted(Filter(samples, IsOther(primary)), NameNotAfter);
    SameMembers(rest, Filter(samples, IsOther(primary)));
    PrimaryFirst(first, rest, primary);
  }

  /** The order is that of the lower-case names, which forget exactly the case. */
  lemma NamesUpToCase(a: Sample, b: Sample)
    ensures !Less(Lower(a.name), Lower(b.name)) && !Less(Lower(b.name), Lower(a.name)) <==> SameUpToCase(a.name, b.name)
  {
    LowerForgetsCase(a.name, b.name);
    LessTotal(Lower(a.name), Lower(b.name));
    LessIrreflexive(Lower(a.name));
  }

  lemma PrimaryFirst(first: seq<Sample>, rest: seq<Sample>, primary: string)
    requires (forall s <- first :: s.name == primary) && (forall s <- rest :: s.name != primary) && Sorted(rest, NameNotAfter)
    ensures Arranged(first + rest, primary)
  {
    forall i | 0 <= i < |first + rest|
      ensures (first + rest)[i] == if i < |first| then first[i] else rest[i - |first|]
    {
    }
  }

  ghost predicate Arranged(sorted: seq<Sample>, primary: string) {
    forall i, j :: 0 <= i < j < |sorted| ==>
      && (sorted[j].name == primary ==> sorted[i].name == primary)
      && (sorted[i].name != primary ==> !Less(Lower(sorted[j].name), Lower(sorted[i].name)))
  }

  lemma NamesAreOrdered()
    ensures TotalPreorder(NameNotAfter)
  {
    NotAfterIsTotal();
  }

  /** The loops: once over the samples for the primary name, once for the others. */
  method SortSampleList(samples: seq<Sample>, primary: string) returns (sorted: seq<Sample>)
    ensures sorted == SortSamples(samples, primary)
  {
    sorted := Primaries(samples, primary);
    var others := Others(samples, primary);
    sorted := Append(sorted, SortBy(others, NameNotAfter));
  }

  method Append(first: seq<Sample>, rest: seq<Sample>) returns (all: seq<Sample>)
    ensures all == first + rest
  {
    all := first;
    for i := 0 to |rest|
      invariant all == first + rest[..i]
    {
      all := all + [rest[i]];
    }
    assert rest[..|rest|] == rest;
  }

  method Primaries(samples: seq<Sample>, primary: string) returns (found: seq<Sample>)
    ensures found == Filter(samples, IsPrimary(primary))
  {
    found := [];
    for j := 0 to |samples|
      invariant Filter(samples, IsPrimary(primary)) == found + Filter(samples[j..], IsPrimary(primary))
    {
      FilterStep(found, samples, j, IsPrimary(primary));
      if primary == samples[j].name {
        found := found + [samples[j]];
      }
    }
  }

  method Others(samples: seq<Sample>, primary: string) returns (others: seq<Sample>)
    ensures others == Filter(samples, IsOther(primary))
  {
    others := [];
    for i := 0 to |samples|
      invariant Filter(samples, IsOther(primary)) == others + Filter(samples[i..], IsOther(primary))
    {
      FilterStep(others, samples, i, IsOther(primary));
      if samples[i].name != primary {
        others := others + [samples[i]];
      }
    }
  }

  lemma FilterStep<T(!new)>(found: seq<T>, items: seq<T>, i: nat, keep: T -> bool)
    requires i < |items|
    ensures found + Filter(items[i..], keep) == (if keep(items[i]) then found + [items[i]] else found) + Filter(items[i + 1..], keep)
  {
    assert items[i..][0] == items[i] && items[i..][1..] == items[i + 1..];
  }
}
