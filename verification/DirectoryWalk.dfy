/** Finding the model and script files of a business network below a directory. */
module DirectoryWalk {
  import opened Wrappers
  import opened Collections
  import opened Strings
  import opened FilePaths

  datatype Node = File(contents: string) | Dir(listing: Listing)

  /** What readdir returns, in the file system's own order. */
  datatype Listing = Empty | Entry(name: string, node: Node, rest: Listing)

  function NamesIn(l: Listing): set<string> {
    match l
    case Empty => {}
    case Entry(name, _, rest) => {name} + NamesIn(rest)
  }

  /** No directory has two entries of the same name. */
  ghost predicate Valid(l: Listing) {
    match l
    case Empty => true
    case Entry(name, node, rest) =>
      && IsName(name) && name !in NamesIn(rest) && Valid(rest)
      && (node.Dir? ==> Valid(node.listing))
  }

  /** The file reached by going through the entries `segs`. */
  function Find(l: Listing, segs: seq<string>): Option<string> {
    if segs == [] then None
    else
      match l
      case Empty => None
      case Entry(name, node, rest) =>
        if name != segs[0] then Find(rest, segs)
        else if node.Dir? then Find(node.listing, segs[1..])
        else if |segs| == 1 then Some(node.contents) else None
  }

  /** Text behind the first `n` characters. */
  function Behind(s: string, n: nat): string {
    if n <= |s| then s[n..] else ""
  }

  predicate HasNodeModules(dir: string, base: string) {
    "node_modules" in Split(Behind(dir, |base|), '/')
  }

  predicate IsFileInNodeModuleDir(file: string, base: string) {
    HasNodeModules(DirOf(file), base)
  }

  predicate Accepts(file: string, base: string, glob: string -> bool) {
    !IsFileInNodeModuleDir(file, base) && glob(file)
  }

  /** The file list walkSync collects below `dir`; with `prune` off, acceptsDir is always true. */
  function Walk(l: Listing, dir: string, base: string, prune: bool): seq<string>
    decreases l
  {
    match l
    case Empty => []
    case Entry(name, node, rest) =>
      Here(name, node, dir, base, prune) + Walk(rest, dir, base, prune)
  }

  /** What walkSync collects from one entry of `dir`. */
  function Here(name: string, node: Node, dir: string, base: string, prune: bool): seq<string>
    decreases node
  {
    var path := Join(dir, name);
    match node
    case File(_) => [path]
    case Dir(listing) => if prune && IsFileInNodeModuleDir(path, base) then [] else Walk(listing, path, base, prune)
  }

  function Accepted(items: seq<string>, base: string, glob: string -> bool): (r: seq<string>)
    ensures forall p :: p in r <==> p in items && Accepts(p, base, glob)
  {
    if items == [] then []
    else
      var rest := Accepted(items[1..], base, glob);
      assert items == [items[0]] + items[1..];
      if Accepts(items[0], base, glob) then [items[0]] + rest else rest
  }

  /** Every file below `dir` under its full path. */
  function Files(l: Listing, dir: string): map<string, string>
    decreases l
  {
    match l
    case Empty => map[]
    case Entry(name, node, rest) =>
      Files(rest, dir) + FilesHere(name, node, dir)
  }

  function FilesHere(name: string, node: Node, dir: string): map<string, string>
    decreases node
  {
    match node
    case File(contents) => map[Join(dir, name) := contents]
    case Dir(listing) => Files(listing, Join(dir, name))
  }

  // ----- The text test for node_modules -----

  /** Splitting the path behind the base finds a name exactly if a directory passed through has it. */
  lemma PassedThrough(base: string, segs: seq<string>, name: string)
    requires Resolved(base) && Names(segs) && segs != [] && name != ""
    ensures name in Split(Behind(DirOf(Below(base, segs)), |base|), '/') <==> name in segs[..|segs| - 1]
  {
    var init, last := segs[..|segs| - 1], segs[|segs| - 1];
    assert segs == init + [last];
    BelowStep(base, init, last);
    SplitBelow(base, init);
    JoinResolved(Below(base, init), last);
    PartsHave(base, init, name);
  }

  /** The test is on the entries passed before the last one. */
  lemma NodeModulesTest(base: string, segs: seq<string>)
    requires Resolved(base) && Names(segs) && segs != []
    ensures IsFileInNodeModuleDir(Below(base, segs), base) <==> "node_modules" in segs[..|segs| - 1]
  {
    PassedThrough(base, segs, "node_modules");
  }

  lemma NodeModulesBelow(base: string, dir: string, name: string)
    requires Resolved(base) && Resolved(dir) && base <= dir && IsName(name)
    ensures IsFileInNodeModuleDir(Join(dir, name), base) == HasNodeModules(dir, base)
    ensures HasNodeModules(dir, base) ==> HasNodeModules(Join(dir, name), base)
    ensures Resolved(Join(dir, name)) && base <= Join(dir, name)
  {
    JoinResolved(dir, name);
    JoinBehind(base, dir, name);
    if HasNodeModules(dir, base) {
      SplitAppend(dir[|base|..], '/', name);
      if base == "/" && dir == base {
        assert Split("", '/') == [""];
        assert "node_modules" != "";
      }
    }
  }

  // ----- Pruning -----

  lemma {:induction false} AcceptedConcat(a: seq<string>, b: seq<string>, base: string, glob: string -> bool)
    ensures Accepted(a + b, base, glob) == Accepted(a, base, glob) + Accepted(b, base, glob)
  {
    if a == [] {
      assert a + b == b;
    } else {
      assert (a + b)[0] == a[0] && (a + b)[1..] == a[1..] + b;
      AcceptedConcat(a[1..], b, base, glob);
    }
  }

  /** Nothing below a node_modules directory is accepted. */
  lemma {:induction false} RejectedBelow(l: Listing, dir: string, base: string, glob: string -> bool)
    requires Valid(l) && Resolved(base) && Resolved(dir) && base <= dir && HasNodeModules(dir, base)
    ensures Accepted(Walk(l, dir, base, false), base, glob) == []
    decreases l
  {
    match l {
      case Empty =>
      case Entry(name, node, rest) =>
        NodeModulesBelow(base, dir, name);
        RejectedBelow(rest, dir, base, glob);
        if node.Dir? {
          RejectedBelow(node.listing, Join(dir, name), base, glob);
        }
        AcceptedConcat(Here(name, node, dir, base, false), Walk(rest, dir, base, false), base, glob);
    }
  }

  /** Pruning loses no accepted file and does not change the order they are found in. */
  lemma {:induction false} PruningKeepsAccepted(l: Listing, dir: string, base: string, glob: string -> bool)
    requires Valid(l) && Resolved(base) && Resolved(dir) && base <= dir
    ensures Accepted(Walk(l, dir, base, true), base, glob) == Accepted(Walk(l, dir, base, false), base, glob)
    decreases l
  {
    match l {
      case Empty =>
      case Entry(name, node, rest) =>
        NodeModulesBelow(base, dir, name);
        PruningKeepsAccepted(rest, dir, base, glob);
        HereKeepsAccepted(name, node, dir, base, glob);
        AcceptedConcat(Here(name, node, dir, base, true), Walk(rest, dir, base, true), base, glob);
        AcceptedConcat(Here(name, node, dir, base, false), Walk(rest, dir, base, false), base, glob);
    }
  }

  lemma {:induction false} HereKeepsAccepted(name: string, node: Node, dir: string, base: string, glob: string -> bool)
    requires IsName(name) && (node.Dir? ==> Valid(node.listing)) && Resolved(base) && Resolved(dir) && base <= dir
    ensures Accepted(Here(name, node, dir, base, true), base, glob) == Accepted(Here(name, node, dir, base, false), base, glob)
    decreases node
  {
    NodeModulesBelow(base, dir, name);
    var path := Join(dir, name);
    if node.Dir? {
      if IsFileInNodeModuleDir(path, base) {
        RejectedBelow(node.listing, path, base, glob);
      } else {
        PruningKeepsAccepted(node.listing, path, base, glob);
      }
    }
  }

  // ----- What is walked -----

  ghost predicate FoundAt(l: Listing, dir: string, p: string, c: string, segs: seq<string>) {
    segs != [] && Names(segs) && segs[0] in NamesIn(l) && p == Below(dir, segs) && Find(l, segs) == Some(c)
  }

  /** Every path in the file map leads to its file. */
  lemma {:induction false} FilesAreFound(l: Listing, dir: string, p: string)
    requires Valid(l) && p in Files(l, dir)
    ensures exists segs :: FoundAt(l, dir, p, Files(l, dir)[p], segs)
    decreases l
  {
    var c := Files(l, dir)[p];
    match l {
      case Entry(name, node, rest) =>
        var path := Join(dir, name);
        if node.Dir? && p in Files(node.listing, path) {
          FilesAreFound(node.listing, path, p);
          var segs :| FoundAt(node.listing, path, p, c, segs);
          assert ([name] + segs)[1..] == segs;
          assert FoundAt(l, dir, p, c, [name] + segs);
        } else if node.File? && p == path {
          assert Below(dir, [name]) == Below(path, []);
          assert FoundAt(l, dir, p, c, [name]);
        } else {
          FilesAreFound(rest, dir, p);
          var segs :| FoundAt(rest, dir, p, c, segs);
          assert FoundAt(l, dir, p, c, segs);
        }
    }
  }

  lemma {:induction false} FindInNames(l: Listing, segs: seq<string>)
    requires Valid(l) && Find(l, segs).Some?
    ensures segs != [] && segs[0] in NamesIn(l) && Names(segs)
  {
    match l {
      case Entry(name, node, rest) =>
        if name != segs[0] {
          FindInNames(rest, segs);
        } else {
          if node.Dir? {
            FindInNames(node.listing, segs[1..]);
          }
          assert segs == [segs[0]] + segs[1..];
        }
    }
  }

  /** Paths through different entries of one directory differ. */
  lemma Apart(l: Listing, m: Listing, dir: string)
    requires Resolved(dir) && Valid(l) && Valid(m) && NamesIn(l) !! NamesIn(m)
    ensures Files(l, dir).Keys !! Files(m, dir).Keys
  {
    forall p | p in Files(l, dir)
      ensures p !in Files(m, dir)
    {
      if p in Files(m, dir) {
        FilesAreFound(l, dir, p);
        FilesAreFound(m, dir, p);
        var s :| FoundAt(l, dir, p, Files(l, dir)[p], s);
        var t :| FoundAt(m, dir, p, Files(m, dir)[p], t);
        BelowInjective(dir, s, t);
      }
    }
  }

  lemma HeadApart(l: Listing, dir: string)
    requires Resolved(dir) && Valid(l) && l.Entry?
    ensures FilesHere(l.name, l.node, dir).Keys !! Files(l.rest, dir).Keys
  {
    assert Files(Entry(l.name, l.node, Empty), dir) == Files(Empty, dir) + FilesHere(l.name, l.node, dir);
    Apart(Entry(l.name, l.node, Empty), l.rest, dir);
  }

  /** The path of every file is in the file map. */
  lemma {:induction false} FoundAreFiles(l: Listing, dir: string, segs: seq<string>)
    requires Valid(l) && Resolved(dir) && Find(l, segs).Some?
    ensures Below(dir, segs) in Files(l, dir) && Files(l, dir)[Below(dir, segs)] == Find(l, segs).value
    decreases l
  {
    match l {
      case Entry(name, node, rest) =>
        HeadApart(l, dir);
        if name != segs[0] {
          FoundAreFiles(rest, dir, segs);
          assert Below(dir, segs) !in FilesHere(name, node, dir);
        } else if node.Dir? {
          JoinResolved(dir, name);
          FoundAreFiles(node.listing, Join(dir, name), segs[1..]);
        } else {
          assert Below(dir, segs) == Below(Join(dir, name), segs[1..]);
        }
    }
  }

  /** The walk without pruning lists every file once; with pruning, some of the files once. */
  lemma {:induction false} WalkListsFiles(l: Listing, dir: string, base: string, prune: bool)
    requires Valid(l) && Resolved(dir)
    ensures ToSet(Walk(l, dir, base, prune)) <= Files(l, dir).Keys
    ensures !prune ==> ToSet(Walk(l, dir, base, prune)) == Files(l, dir).Keys
    ensures Distinct(Walk(l, dir, base, prune))
    decreases l
  {
    match l {
      case Empty =>
      case Entry(name, node, rest) =>
        HereListsFiles(name, node, dir, base, prune);
        WalkListsFiles(rest, dir, base, prune);
        HeadApart(l, dir);
        Together(Here(name, node, dir, base, prune), FilesHere(name, node, dir).Keys,
                 Walk(rest, dir, base, prune), Files(rest, dir).Keys);
    }
  }

  lemma {:induction false} HereListsFiles(name: string, node: Node, dir: string, base: string, prune: bool)
    requires IsName(name) && (node.Dir? ==> Valid(node.listing)) && Resolved(dir)
    ensures ToSet(Here(name, node, dir, base, prune)) <= FilesHere(name, node, dir).Keys
    ensures !prune ==> ToSet(Here(name, node, dir, base, prune)) == FilesHere(name, node, dir).Keys
    ensures Distinct(Here(name, node, dir, base, prune))
    decreases node
  {
    if node.Dir? {
      JoinResolved(dir, name);
      WalkListsFiles(node.listing, Join(dir, name), base, prune);
    }
  }

  lemma Together<T>(a: seq<T>, s: set<T>, b: seq<T>, t: set<T>)
    requires Distinct(a) && Distinct(b) && ToSet(a) <= s && ToSet(b) <= t && s !! t
    ensures Distinct(a + b) && ToSet(a + b) <= s + t
    ensures ToSet(a) == s && ToSet(b) == t ==> ToSet(a + b) == s + t
  {
    assert ToSet(a + b) == ToSet(a) + ToSet(b);
    forall x | x in a
      ensures x !in b
    {
      assert x in ToSet(a);
      assert x in b ==> x in ToSet(b);
    }
    DistinctConcat(a, b);
  }

  lemma {:induction false} AcceptedAscending(items: seq<string>, base: string, glob: string -> bool)
    requires Ascending(items)
    ensures Ascending(Accepted(items, base, glob))
  {
    if items != [] {
      AscendingTail(items);
      AcceptedAscending(items[1..], base, glob);
      AscendingCons(items[0], Accepted(items[1..], base, glob));
    }
  }

  lemma SortedAccepted(items: seq<string>, base: string, glob: string -> bool)
    requires Distinct(items)
    ensures Ascending(Accepted(Sort(items), base, glob))
    ensures ToSet(Accepted(Sort(items), base, glob)) == ToSet(Accepted(items, base, glob))
  {
    SortAscending(items);
    SortMembers(items);
    AcceptedAscending(Sort(items), base, glob);
  }

  /** Processing a pruned walk processes the same files in the same order as processing a full one. */
  lemma PruningIsSound(l: Listing, base: string, glob: string -> bool)
    requires Valid(l) && Resolved(base)
    ensures Accepted(Sort(Walk(l, base, base, true)), base, glob) == Accepted(Sort(Walk(l, base, base, false)), base, glob)
  {
    var pruned, full := Walk(l, base, base, true), Walk(l, base, base, false);
    PruningKeepsAccepted(l, base, base, glob);
    WalkListsFiles(l, base, base, true);
    WalkListsFiles(l, base, base, false);
    SortedAccepted(pruned, base, glob);
    SortedAccepted(full, base, glob);
    AscendingUnique(Accepted(Sort(pruned), base, glob), Accepted(Sort(full), base, glob));
  }

  // ----- The program -----

  /** The listed names are paths of files below the base, each with its contents. */
  ghost predicate Genuine(l: Listing, base: string, names: seq<string>, contents: seq<string>)
    requires |names| == |contents|
  {
    forall i :: 0 <= i < |names| ==> IsFileOf(l, base, names[i], contents[i])
  }

  ghost predicate IsFileOf(l: Listing, base: string, p: string, c: string) {
    exists segs :: FoundAt(l, base, p, c, segs)
  }

  /** Of the files below the base, those are listed that pass the glob and have no node_modules
      directory between them and the base. */
  ghost predicate Complete(l: Listing, base: string, glob: string -> bool, names: seq<string>) {
    forall segs | Names(segs) && Find(l, segs).Some? ::
      Below(base, segs) in names <==> "node_modules" !in segs[..|segs| - 1] && glob(Below(base, segs))
  }

  lemma AcceptedExactly(l: Listing, base: string, glob: string -> bool, segs: seq<string>)
    requires Valid(l) && Resolved(base) && Names(segs) && Find(l, segs).Some?
    ensures Below(base, segs) in Accepted(Sort(Walk(l, base, base, false)), base, glob) <==>
              "node_modules" !in segs[..|segs| - 1] && glob(Below(base, segs))
  {
    var full := Walk(l, base, base, false);
    WalkListsFiles(l, base, base, false);
    SortMembers(full);
    FoundAreFiles(l, base, segs);
    NodeModulesTest(base, segs);
    assert Below(base, segs) in ToSet(full);
  }

  lemma AcceptedComplete(l: Listing, base: string, glob: string -> bool)
    requires Valid(l) && Resolved(base)
    ensures Ascending(Accepted(Sort(Walk(l, base, base, false)), base, glob))
    ensures Complete(l, base, glob, Accepted(Sort(Walk(l, base, base, false)), base, glob))
  {
    WalkListsFiles(l, base, base, false);
    SortAscending(Walk(l, base, base, false));
    AcceptedAscending(Sort(Walk(l, base, base, false)), base, glob);
    forall segs | Names(segs) && Find(l, segs).Some?
      ensures Below(base, segs) in Accepted(Sort(Walk(l, base, base, false)), base, glob) <==>
                "node_modules" !in segs[..|segs| - 1] && glob(Below(base, segs))
    {
      AcceptedExactly(l, base, glob, segs);
    }
  }

  ghost predicate ReadFrom(files: map<string, string>, names: seq<string>, contents: seq<string>) {
    && |names| == |contents|
    && forall i :: 0 <= i < |names| ==> names[i] in files && contents[i] == files[names[i]]
  }

  lemma ReadIsGenuine(l: Listing, base: string, names: seq<string>, contents: seq<string>)
    requires Valid(l) && ReadFrom(Files(l, base), names, contents)
    ensures Genuine(l, base, names, contents)
  {
    forall i | 0 <= i < |names|
      ensures IsFileOf(l, base, names[i], contents[i])
    {
      FilesAreFound(l, base, names[i]);
    }
  }

  lemma AcceptedIsRight(l: Listing, base: string, glob: string -> bool, contents: seq<string>)
    requires Valid(l) && Resolved(base)
    requires ReadFrom(Files(l, base), Accepted(Sort(Walk(l, base, base, true)), base, glob), contents)
    ensures
      var names := Accepted(Sort(Walk(l, base, base, true)), base, glob);
      Ascending(names) && Genuine(l, base, names, contents) && Complete(l, base, glob, names)
  {
    PruningIsSound(l, base, glob);
    AcceptedComplete(l, base, glob);
    ReadIsGenuine(l, base, Accepted(Sort(Walk(l, base, base, true)), base, glob), contents);
  }

  lemma ItemsAreFiles(l: Listing, base: string)
    requires Valid(l) && Resolved(base)
    ensures forall p <- Sort(Walk(l, base, base, true)) :: p in Files(l, base)
  {
    var walked := Walk(l, base, base, true);
    WalkListsFiles(l, base, base, true);
    SortMembers(walked);
    assert forall p <- Sort(walked) :: p in ToSet(walked);
  }

  lemma WalkStep(out: seq<string>, l: Listing, dir: string, base: string)
    requires l.Entry?
    ensures out + Walk(l, dir, base, true) == (out + Here(l.name, l.node, dir, base, true)) + Walk(l.rest, dir, base, true)
  {
    Regroup(out, Here(l.name, l.node, dir, base, true), Walk(l.rest, dir, base, true));
  }

  method WalkSync(l: Listing, dir: string, filelist: seq<string>, base: string) returns (out: seq<string>)
    ensures out == filelist + Walk(l, dir, base, true)
    decreases l
  {
    out := filelist;
    var rest := l;
    while rest.Entry?
      invariant rest == l || rest < l
      invariant filelist + Walk(l, dir, base, true) == out + Walk(rest, dir, base, true)
      decreases rest
    {
      WalkStep(out, rest, dir, base);
      out := WalkEntry(rest.name, rest.node, dir, out, base);
      rest := rest.rest;
    }
  }

  /** The body of walkSync's loop. */
  method WalkEntry(name: string, node: Node, dir: string, filelist: seq<string>, base: string) returns (out: seq<string>)
    ensures out == filelist + Here(name, node, dir, base, true)
    decreases node
  {
    out := filelist;
    var nestedPath := Join(dir, name);
    match node {
      case Dir(listing) =>
        if !IsFileInNodeModuleDir(nestedPath, base) {
          out := WalkSync(listing, nestedPath, out, base);
        }
      case File(_) =>
        out := out + [nestedPath];
    }
  }

  /** Reads the accepted files below `path`, in ascending order of their paths, into parallel
      lists of names and contents. */
  method ProcessDirectory(l: Listing, path: string, glob: string -> bool)
    returns (names: seq<string>, contents: seq<string>)
    requires Valid(l) && Resolved(path)
    ensures Ascending(names) && |names| == |contents|
    ensures Genuine(l, path, names, contents) && Complete(l, path, glob, names)
  {
    var walked := WalkSync(l, path, [], path);
    assert walked == Walk(l, path, path, true);
    var items := Sort(walked);
    ItemsAreFiles(l, path);
    names, contents := ReadAccepted(Files(l, path), items, path, glob);
    AcceptedIsRight(l, path, glob, contents);
  }

  /** The loop over processFile. */
  method ReadAccepted(files: map<string, string>, items: seq<string>, base: string, glob: string -> bool)
    returns (names: seq<string>, contents: seq<string>)
    requires forall p <- items :: p in files
    ensures names == Accepted(items, base, glob) && ReadFrom(files, names, contents)
  {
    names, contents := [], [];
    for i := 0 to |items|
      invariant Accepted(items, base, glob) == names + Accepted(items[i..], base, glob)
      invariant ReadFrom(files, names, contents)
    {
      assert items[i..][0] == items[i] && items[i..][1..] == items[i + 1..];
      if Accepts(items[i], base, glob) {
        names, contents := names + [items[i]], contents + [files[items[i]]];
      }
    }
  }
}
