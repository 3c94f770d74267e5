/** A zip as the list of its files in the order in which their paths were first written. */
module ZipFiles {
  import opened Wrappers
  import opened Collections

  datatype Entry = Entry(path: string, contents: string)

  type Zip = seq<Entry>

  function Paths(z: Zip): (paths: seq<string>)
    ensures |paths| == |z| && forall i :: 0 <= i < |z| ==> paths[i] == z[i].path
  {
    seq(|z|, i requires 0 <= i < |z| => z[i].path)
  }

  /** zip.file(path, contents): a path written twice keeps its place and its last contents. */
  function Put(z: Zip, path: string, contents: string): Zip {
    if z == [] then [Entry(path, contents)]
    else if z[0].path == path then [Entry(path, contents)] + z[1..]
    else [z[0]] + Put(z[1..], path, contents)
  }

  function PutAll(z: Zip, entries: seq<Entry>): Zip
    decreases |entries|
  {
    if entries == [] then z else PutAll(Put(z, entries[0].path, entries[0].contents), entries[1..])
  }

  /** zip.file(path) */
  function Get(z: Zip, path: string): Option<string> {
    if z == [] then None
    else if z[0].path == path then Some(z[0].contents)
    else Get(z[1..], path)
  }

  /** zip.file(regular expression) */
  function Select(z: Zip, matches: string -> bool): (r: Zip)
    ensures forall e :: e in r <==> e in z && matches(e.path)
  {
    if z == [] then []
    else
      assert z == [z[0]] + z[1..];
      if matches(z[0].path) then [z[0]] + Select(z[1..], matches) else Select(z[1..], matches)
  }

  lemma PathsMembers(z: Zip)
    ensures forall p :: p in Paths(z) <==> exists e <- z :: e.path == p
  {
    forall p
      ensures p in Paths(z) <==> exists e <- z :: e.path == p
    {
      if p in Paths(z) {
        var i :| 0 <= i < |z| && Paths(z)[i] == p;
        assert z[i] in z;
      }
      if exists e <- z :: e.path == p {
        var e :| e in z && e.path == p;
        var i :| 0 <= i < |z| && z[i] == e;
        assert Paths(z)[i] == p;
      }
    }
  }

  lemma PathsConcat(a: Zip, b: Zip)
    ensures Paths(a + b) == Paths(a) + Paths(b)
  {
  }

  lemma {:induction false} PutPath(z: Zip, path: string, contents: string)
    ensures Paths(Put(z, path, contents)) == if path in Paths(z) then Paths(z) else Paths(z) + [path]
  {
    if z != [] {
      assert z == [z[0]] + z[1..];
      PathsConcat([z[0]], z[1..]);
      if z[0].path == path {
        PathsConcat([Entry(path, contents)], z[1..]);
      } else {
        PutPath(z[1..], path, contents);
        PathsConcat([z[0]], Put(z[1..], path, contents));
      }
    }
  }

  lemma {:induction false} PutNew(z: Zip, path: string, contents: string)
    requires path !in Paths(z)
    ensures Put(z, path, contents) == z + [Entry(path, contents)]
  {
    if z != [] {
      assert z[0].path == Paths(z)[0];
      forall p | p in Paths(z[1..])
        ensures p in Paths(z)
      {
        var i :| 0 <= i < |z[1..]| && Paths(z[1..])[i] == p;
        assert Paths(z)[i + 1] == p;
      }
      PutNew(z[1..], path, contents);
    }
  }

  /** Writing files under paths of their own writes them one behind the other. */
  lemma {:induction false} PutAllNew(z: Zip, entries: seq<Entry>)
    requires Distinct(Paths(z + entries))
    ensures PutAll(z, entries) == z + entries
    decreases |entries|
  {
    if entries == [] {
      assert z + entries == z;
    } else {
      var e := entries[0];
      assert Paths(z + entries)[|z|] == e.path;
      forall i | 0 <= i < |z|
        ensures Paths(z)[i] != e.path
      {
        assert Paths(z + entries)[i] == Paths(z)[i];
      }
      PutNew(z, e.path, e.contents);
      assert z + entries == (z + [e]) + entries[1..];
      PutAllNew(z + [e], entries[1..]);
    }
  }

  /** Whatever is written, no path appears twice and no other path appears. */
  lemma {:induction false} PutAllPaths(z: Zip, entries: seq<Entry>)
    requires Distinct(Paths(z))
    ensures Distinct(Paths(PutAll(z, entries)))
    ensures ToSet(Paths(PutAll(z, entries))) == ToSet(Paths(z)) + ToSet(Paths(entries))
    decreases |entries|
  {
    if entries != [] {
      var e := entries[0];
      var next := Put(z, e.path, e.contents);
      PutPath(z, e.path, e.contents);
      if e.path !in Paths(z) {
        DistinctSnoc(Paths(z), e.path);
      }
      PutAllPaths(next, entries[1..]);
      assert entries == [e] + entries[1..];
      PathsConcat([e], entries[1..]);
      assert ToSet(Paths(entries)) == {e.path} + ToSet(Paths(entries[1..]));
      assert ToSet(Paths(next)) == ToSet(Paths(z)) + {e.path};
    }
  }

  lemma {:induction false} SelectConcat(a: Zip, b: Zip, matches: string -> bool)
    ensures Select(a + b, matches) == Select(a, matches) + Select(b, matches)
  {
    if a == [] {
      assert a + b == b;
    } else {
      assert (a + b)[0] == a[0] && (a + b)[1..] == a[1..] + b;
      SelectConcat(a[1..], b, matches);
    }
  }

  lemma {:induction false} SelectAll(z: Zip, matches: string -> bool)
    requires forall p <- Paths(z) :: matches(p)
    ensures Select(z, matches) == z
  {
    if z != [] {
      assert z == [z[0]] + z[1..];
      PathsConcat([z[0]], z[1..]);
      assert z[0].path == Paths(z)[0];
      SelectAll(z[1..], matches);
    }
  }

  lemma {:induction false} SelectNone(z: Zip, matches: string -> bool)
    requires forall p <- Paths(z) :: !matches(p)
    ensures Select(z, matches) == []
  {
    if z != [] {
      assert z == [z[0]] + z[1..];
      PathsConcat([z[0]], z[1..]);
      assert z[0].path == Paths(z)[0];
      SelectNone(z[1..], matches);
    }
  }

  lemma {:induction false} SelectDistinct(z: Zip, matches: string -> bool)
    requires Distinct(Paths(z))
    ensures Distinct(Paths(Select(z, matches)))
  {
    if z != [] {
      assert z == [z[0]] + z[1..];
      PathsConcat([z[0]], z[1..]);
      DistinctCons(z[0].path, Paths(z[1..]));
      SelectDistinct(z[1..], matches);
      var rest := Select(z[1..], matches);
      PathsMembers(z[1..]);
      PathsMembers(rest);
      DistinctCons(z[0].path, Paths(rest));
      PathsConcat([z[0]], rest);
    }
  }

  lemma {:induction false} GetNone(z: Zip, path: string)
    ensures Get(z, path).None? <==> path !in Paths(z)
  {
    if z != [] {
      assert z == [z[0]] + z[1..];
      PathsConcat([z[0]], z[1..]);
      GetNone(z[1..], path);
    }
  }

  lemma {:induction false} GetConcat(a: Zip, b: Zip, path: string)
    ensures Get(a + b, path) == if path in Paths(a) then Get(a, path) else Get(b, path)
  {
    GetNone(a, path);
    if a == [] {
      assert a + b == b;
    } else {
      assert (a + b)[0] == a[0] && (a + b)[1..] == a[1..] + b;
      assert a == [a[0]] + a[1..];
      PathsConcat([a[0]], a[1..]);
      GetConcat(a[1..], b, path);
    }
  }
}
