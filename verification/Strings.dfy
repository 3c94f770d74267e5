/** Strings compared by code point, as Fabric orders world-state keys and as JavaScript's
    default sort orders the names used here. */
module Strings {
  import opened Collections
  import opened Sorting

  const NUL: char := '\0'
  const MAX: char := '\U{10FFFF}'

  predicate Less(a: string, b: string) {
    b != [] && (a == [] || a[0] < b[0] || (a[0] == b[0] && Less(a[1..], b[1..])))
  }

  lemma {:induction false} LessIrreflexive(a: string)
    ensures !Less(a, a)
  {
    if a != [] {
      LessIrreflexive(a[1..]);
    }
  }

  lemma {:induction false} LessTransitive(a: string, b: string, c: string)
    requires Less(a, b) && Less(b, c)
    ensures Less(a, c)
  {
    if a != [] && a[0] == b[0] == c[0] {
      LessTransitive(a[1..], b[1..], c[1..]);
    }
  }

  lemma {:induction false} LessTotal(a: string, b: string)
    ensures Less(a, b) || a == b || Less(b, a)
  {
    if a != [] && b != [] && a[0] == b[0] {
      LessTotal(a[1..], b[1..]);
      assert a == [a[0]] + a[1..] && b == [b[0]] + b[1..];
    }
  }

  lemma LessAsymmetric(a: string, b: string)
    requires Less(a, b)
    ensures a != b && !Less(b, a)
  {
    LessIrreflexive(a);
    if Less(b, a) {
      LessTransitive(a, b, a);
    }
  }

  /** A common prefix does not matter. */
  lemma {:induction false} LessPrefix(p: string, a: string, b: string)
    ensures Less(p + a, p + b) <==> Less(a, b)
  {
    if p == [] {
      assert p + a == a && p + b == b;
    } else {
      LessPrefix(p[1..], a, b);
      assert (p + a)[1..] == p[1..] + a && (p + b)[1..] == p[1..] + b;
    }
  }

  /** Nothing lies between a key and the key with a NUL appended. */
  lemma {:induction false} SuccessorTight(a: string, b: string)
    ensures Less(a, b) <==> !Less(b, a + [NUL])
  {
    if a != [] && b != [] {
      assert (a + [NUL])[0] == a[0] && (a + [NUL])[1..] == a[1..] + [NUL];
      SuccessorTight(a[1..], b[1..]);
    }
  }

  /** The keys from `p` up to `p` followed by the largest character are those that start with `p`. */
  lemma {:induction false} PrefixRange(p: string, k: string)
    requires MAX !in k
    ensures !Less(k, p) && Less(k, p + [MAX]) <==> p <= k
  {
    if p == [] {
    } else if k != [] {
      assert (p + [MAX])[0] == p[0] && (p + [MAX])[1..] == p[1..] + [MAX];
      PrefixRange(p[1..], k[1..]);
      assert p <= k <==> p[0] == k[0] && p[1..] <= k[1..] by {
        if p[0] == k[0] && p[1..] <= k[1..] {
          assert p == [p[0]] + p[1..];
          assert k[..|p|] == [k[0]] + k[1..][..|p| - 1];
        }
      }
    }
  }

  predicate AtMost(least: string, keys: set<string>) {
    forall k <- keys :: k == least || Less(least, k)
  }

  lemma {:induction false} LeastExists(keys: set<string>)
    requires keys != {}
    ensures exists k :: k in keys && AtMost(k, keys)
  {
    var x :| x in keys;
    var rest := keys - {x};
    if rest == {} {
      assert keys == {x};
      assert AtMost(x, keys);
    } else {
      LeastExists(rest);
      var y :| y in rest && AtMost(y, rest);
      LessTotal(x, y);
      if Less(x, y) {
        forall k | k in keys
          ensures k == x || Less(x, k)
        {
          if k in rest && k != y {
            LessTransitive(x, y, k);
          }
        }
        assert AtMost(x, keys);
      } else {
        assert AtMost(y, keys);
      }
    }
  }

  function Least(keys: set<string>): (least: string)
    requires keys != {}
    ensures least in keys && AtMost(least, keys)
  {
    LeastExists(keys);
    assert forall j, k :: j in keys && AtMost(j, keys) && k in keys && AtMost(k, keys) ==> j == k by {
      forall j, k | j in keys && AtMost(j, keys) && k in keys && AtMost(k, keys)
        ensures j == k
      {
        if j != k {
          LessAsymmetric(j, k);
        }
      }
    }
    var k :| k in keys && AtMost(k, keys);
    k
  }

  lemma LeastUnique(keys: set<string>, k: string)
    requires k in keys && AtMost(k, keys)
    ensures k == Least(keys)
  {
    if k != Least(keys) {
      LessAsymmetric(k, Least(keys));
    }
  }

  /** The values of `m` in ascending order of their keys. */
  function InOrder<V>(m: map<string, V>): (values: seq<V>)
    decreases |m.Keys|
  {
    if m.Keys == {} then []
    else
      var k := Least(m.Keys);
      assert (m - {k}).Keys == m.Keys - {k};
      [m[k]] + InOrder(m - {k})
  }

  ghost predicate Ascending(keys: seq<string>) {
    forall i, j :: 0 <= i < j < |keys| ==> Less(keys[i], keys[j])
  }

  /** Listing values along an ascending sequence of all keys is the only way to list them in order. */
  lemma {:induction false} InOrderUnique<V>(m: map<string, V>, keys: seq<string>, values: seq<V>)
    requires Ascending(keys) && |keys| == |values| && m.Keys == ToSet(keys)
    requires forall i :: 0 <= i < |keys| ==> m[keys[i]] == values[i]
    ensures values == InOrder(m)
  {
    if keys == [] {
      assert m.Keys == {};
    } else {
      assert AtMost(keys[0], m.Keys);
      LeastUnique(m.Keys, keys[0]);
      var rest := m - {keys[0]};
      LessIrreflexive(keys[0]);
      assert ToSet(keys[1..]) == ToSet(keys) - {keys[0]} by {
        forall k | k in keys[1..] ensures k in keys && k != keys[0] {}
        forall k | k in keys && k != keys[0] ensures k in keys[1..] {}
      }
      InOrderUnique(rest, keys[1..], values[1..]);
    }
  }

  /** There is only one way to list a set of strings in ascending order. */
  lemma AscendingUnique(a: seq<string>, b: seq<string>)
    requires Ascending(a) && Ascending(b) && ToSet(a) == ToSet(b)
    ensures a == b
  {
    var m := map k | k in ToSet(a) :: k;
    InOrderUnique(m, a, a);
    InOrderUnique(m, b, b);
  }

  // ----- Sorting -----

  predicate NotAfter(a: string, b: string) {
    !Less(b, a)
  }

  lemma NotAfterIsTotal()
    ensures TotalPreorder(NotAfter)
  {
    forall a, b
      ensures NotAfter(a, b) || NotAfter(b, a)
    {
      if Less(a, b) {
        LessAsymmetric(a, b);
      }
    }
    forall a, b, c | NotAfter(a, b) && NotAfter(b, c)
      ensures NotAfter(a, c)
    {
      NotAfterTransitive(a, b, c);
    }
  }

  lemma NotAfterTransitive(a: string, b: string, c: string)
    requires NotAfter(a, b) && NotAfter(b, c)
    ensures NotAfter(a, c)
  {
    LessTotal(a, b);
    LessTotal(b, c);
    if a != b && b != c {
      LessTransitive(a, b, c);
      LessAsymmetric(a, c);
    }
  }

  /** items.sort() */
  function Sort(items: seq<string>): (r: seq<string>)
    ensures multiset(r) == multiset(items)
  {
    SortBy(items, NotAfter)
  }

  lemma AscendingTail(items: seq<string>)
    requires Ascending(items) && items != []
    ensures Ascending(items[1..]) && forall y <- items[1..] :: Less(items[0], y)
  {
  }

  lemma AscendingCons(x: string, items: seq<string>)
    requires Ascending(items) && forall y <- items :: Less(x, y)
    ensures Ascending([x] + items)
  {
  }

  lemma SortMembers(items: seq<string>)
    ensures forall y :: y in Sort(items) <==> y in items
  {
    SameMembers(Sort(items), items);
  }

  /** Sorting distinct strings lists the same strings in strictly ascending order. */
  lemma SortAscending(items: seq<string>)
    requires Distinct(items)
    ensures Ascending(Sort(items))
  {
    var r := Sort(items);
    NotAfterIsTotal();
    SortBySorted(items, NotAfter);
    DistinctIsOnce(items);
    SortMembers(items);
    DistinctIsOnce(r);
    forall i, j | 0 <= i < j < |r|
      ensures Less(r[i], r[j])
    {
      LessTotal(r[i], r[j]);
      assert NotAfter(r[i], r[j]);
    }
  }

  lemma InOrderStep<V>(before: seq<V>, m: map<string, V>)
    requires m.Keys != {}
    ensures before + InOrder(m) == (before + [m[Least(m.Keys)]]) + InOrder(m - {Least(m.Keys)})
  {
  }

  /** Upper case of the ASCII letters. */
  function Upper(s: string): string {
    seq(|s|, i requires 0 <= i < |s| => if 'a' <= s[i] <= 'z' then s[i] - 'a' + 'A' else s[i])
  }

  /** Lower case of the ASCII letters. */
  function Lower(s: string): string {
    seq(|s|, i requires 0 <= i < |s| => if 'A' <= s[i] <= 'Z' then s[i] - 'A' + 'a' else s[i])
  }

  /** The same character, or the two cases of one ASCII letter. */
  predicate SameLetter(c: char, d: char) {
    c == d || ('a' <= c <= 'z' && d as int == c as int - 32) || ('a' <= d <= 'z' && c as int == d as int - 32)
  }

  predicate SameUpToCase(s: string, t: string) {
    |s| == |t| && forall i :: 0 <= i < |s| ==> SameLetter(s[i], t[i])
  }

  /** Upper case is the one spelling without lower-case letters that is the same up to case. */
  lemma UpperIff(s: string, t: string)
    ensures t == Upper(s) <==> SameUpToCase(s, t) && forall c <- t :: !('a' <= c <= 'z')
  {
    if SameUpToCase(s, t) && forall c <- t :: !('a' <= c <= 'z') {
      forall i | 0 <= i < |t|
        ensures t[i] == Upper(s)[i]
      {
        assert t[i] in t && SameLetter(s[i], t[i]);
      }
    }
  }

  /** Lower case forgets exactly the case. */
  lemma LowerForgetsCase(s: string, t: string)
    ensures Lower(s) == Lower(t) <==> SameUpToCase(s, t)
  {
    if Lower(s) == Lower(t) {
      assert |s| == |Lower(s)| == |Lower(t)| == |t|;
      forall i | 0 <= i < |s|
        ensures SameLetter(s[i], t[i])
      {
        assert Lower(s)[i] == Lower(t)[i];
      }
    }
    if SameUpToCase(s, t) {
      forall i | 0 <= i < |s|
        ensures Lower(s)[i] == Lower(t)[i]
      {
        assert SameLetter(s[i], t[i]);
      }
    }
  }

  /** What a dot in a regular expression does not match. */
  predicate IsLineBreak(c: char) {
    c == '\n' || c == '\r' || c == '\U{2028}' || c == '\U{2029}'
  }

  // ----- Separators -----

  /** s.lastIndexOf(c) */
  function LastIndexOf(s: string, c: char): (i: int)
    ensures -1 <= i < |s|
    ensures i >= 0 ==> s[i] == c
    ensures forall j :: i < j < |s| ==> s[j] != c
  {
    if s == [] then -1
    else if s[|s| - 1] == c then |s| - 1
    else LastIndexOf(s[..|s| - 1], c)
  }

  lemma LastIndexUnique(s: string, c: char, i: int)
    requires -1 <= i < |s| && (i >= 0 ==> s[i] == c) && forall j :: i < j < |s| ==> s[j] != c
    ensures LastIndexOf(s, c) == i
  {
  }

  /** s.split(sep): a text without separators is one part. */
  function Split(s: string, sep: char): (parts: seq<string>)
    ensures parts != []
  {
    if s == [] then [""]
    else
      var rest := Split(s[1..], sep);
      if s[0] == sep then [""] + rest else [[s[0]] + rest[0]] + rest[1..]
  }

  /** A text without separators, appended behind a separator, is one more part. */
  lemma {:induction false} SplitAppend(s: string, sep: char, last: string)
    requires sep !in last
    ensures Split(last, sep) == [last]
    ensures Split(s + [sep] + last, sep) == Split(s, sep) + [last]
  {
    SplitOne(last, sep);
    if s == [] {
      assert (s + [sep] + last)[1..] == last;
    } else {
      SplitAppend(s[1..], sep, last);
      assert (s + [sep] + last)[1..] == s[1..] + [sep] + last;
    }
  }

  lemma {:induction false} SplitOne(s: string, sep: char)
    requires sep !in s
    ensures Split(s, sep) == [s]
  {
    if s != [] {
      SplitOne(s[1..], sep);
      assert s == [s[0]] + s[1..];
    }
  }
}
