/** File paths with forward slashes, as Node's path functions treat them. */
module FilePaths {
  import opened Strings

  /** The name of a directory entry. */
  predicate IsName(s: string) {
    s != [] && '/' !in s
  }

  /** A resolved directory path: absolute, and without a slash at the end unless it is the root. */
  predicate Resolved(dir: string) {
    dir != [] && dir[0] == '/' && (|dir| > 1 ==> dir[|dir| - 1] != '/')
  }

  function Join(dir: string, name: string): string {
    if dir != [] && dir[|dir| - 1] == '/' then dir + name else dir + "/" + name
  }

  function Trim(p: string): string {
    if p != [] && p[|p| - 1] == '/' then Trim(p[..|p| - 1]) else p
  }

  /** path.parse(p).dir */
  function DirOf(p: string): string {
    var i := LastIndexOf(Trim(p), '/');
    if i > 0 then Trim(p)[..i] else if p != [] && p[0] == '/' then "/" else ""
  }

  /** path.basename(p) */
  function Basename(p: string): (name: string)
    ensures '/' !in name
  {
    Trim(p)[LastIndexOf(Trim(p), '/') + 1..]
  }

  lemma JoinResolved(dir: string, name: string)
    requires Resolved(dir) && IsName(name)
    ensures Resolved(Join(dir, name)) && |Join(dir, name)| > 1 && dir <= Join(dir, name)
    ensures DirOf(Join(dir, name)) == dir
  {
    var p := Join(dir, name);
    assert p[|p| - 1] == name[|name| - 1];
    assert Trim(p) == p;
    LastIndexUnique(p, '/', |p| - |name| - 1);
  }

  lemma BasenameOf(dir: string, name: string)
    requires IsName(name)
    ensures Basename(dir + "/" + name) == name
  {
    var p := dir + "/" + name;
    assert p[|p| - 1] == name[|name| - 1];
    LastIndexUnique(p, '/', |dir|);
  }

  /** Slashes at the end do not count. */
  lemma BasenameTrailing(p: string)
    ensures Basename(p + "/") == Basename(p) && DirOf(p + "/") == (if p == "" then "/" else DirOf(p))
  {
    assert (p + "/")[..|p|] == p;
    assert Trim(p + "/") == Trim(p);
  }

  // ----- Paths below a directory -----

  ghost predicate Names(segs: seq<string>) {
    forall s <- segs :: IsName(s)
  }

  /** The path reached from `dir` through the entries `segs`. */
  function Below(dir: string, segs: seq<string>): string
    decreases segs
  {
    if segs == [] then dir else Below(Join(dir, segs[0]), segs[1..])
  }

  lemma BelowStep(dir: string, segs: seq<string>, name: string)
    ensures Below(dir, segs + [name]) == Join(Below(dir, segs), name)
    decreases segs
  {
    if segs == [] {
      assert Below(dir, [name]) == Below(Join(dir, name), []);
    } else {
      assert (segs + [name])[1..] == segs[1..] + [name];
      BelowStep(Join(dir, segs[0]), segs[1..], name);
    }
  }

  lemma JoinBehind(dir: string, above: string, name: string)
    requires Resolved(dir) && Resolved(above) && dir <= above && IsName(name)
    ensures dir <= Join(above, name) && |dir| < |Join(above, name)|
    ensures Join(above, name)[|dir|..] ==
              if dir == "/" && above == dir then name else above[|dir|..] + ['/'] + name
  {
    if above == "/" {
      assert dir == "/";
      assert Join(above, name)[1..] == name;
    } else {
      assert Join(above, name)[|dir|..] == above[|dir|..] + "/" + name;
    }
  }

  /** Splitting behind the directory gives the entries back, with one empty part in front unless
      the directory is the root. */
  function Parts(dir: string, segs: seq<string>): seq<string> {
    if segs == [] then [""] else if dir == "/" then segs else [""] + segs
  }

  lemma PartsHave(dir: string, segs: seq<string>, name: string)
    requires name != ""
    ensures name in Parts(dir, segs) <==> name in segs
  {
  }

  lemma {:induction false} SplitBelow(dir: string, segs: seq<string>)
    requires Resolved(dir) && Names(segs)
    ensures Resolved(Below(dir, segs)) && dir <= Below(dir, segs)
    ensures segs != [] ==> |dir| < |Below(dir, segs)|
    ensures Split(Below(dir, segs)[|dir|..], '/') == Parts(dir, segs)
  {
    if segs != [] {
      var init, last := segs[..|segs| - 1], segs[|segs| - 1];
      assert segs == init + [last];
      SplitBelow(dir, init);
      BelowStep(dir, init, last);
      var above := Below(dir, init);
      JoinResolved(above, last);
      JoinBehind(dir, above, last);
      SplitStep(dir, above, init, last);
    }
  }

  lemma SplitStep(dir: string, above: string, init: seq<string>, last: string)
    requires Resolved(dir) && Resolved(above) && dir <= above && IsName(last)
    requires (init == []) == (above == dir)
    requires Split(above[|dir|..], '/') == Parts(dir, init)
    ensures dir <= Join(above, last) && Split(Join(above, last)[|dir|..], '/') == Parts(dir, init + [last])
  {
    JoinBehind(dir, above, last);
    SplitAppend(above[|dir|..], '/', last);
    if init == [] && dir == "/" {
      assert Parts(dir, init + [last]) == [last];
    } else {
      assert Parts(dir, init + [last]) == Parts(dir, init) + [last];
    }
  }

  /** Different entries, different paths. */
  lemma BelowInjective(dir: string, s: seq<string>, t: seq<string>)
    requires Resolved(dir) && Names(s) && Names(t) && Below(dir, s) == Below(dir, t)
    ensures s == t
  {
    SplitBelow(dir, s);
    SplitBelow(dir, t);
    if s != [] && t != [] {
      assert dir != "/" ==> s == Parts(dir, s)[1..] && t == Parts(dir, t)[1..];
    }
  }
}
