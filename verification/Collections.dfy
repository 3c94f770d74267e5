/** Facts about sizes of finite sets, maps and sequences that several components use. */
module Collections {

  function ToSet<T>(xs: seq<T>): set<T> {
    set x | x in xs
  }

  ghost predicate Distinct<T>(xs: seq<T>) {
    forall i, j :: 0 <= i < j < |xs| ==> xs[i] != xs[j]
  }

  /** { 0, ..., n-1 } */
  ghost function Upto(n: nat): (r: set<nat>)
    ensures |r| == n
    ensures forall i: nat :: i in r <==> i < n
  {
    if n == 0 then {} else Upto(n - 1) + {n - 1}
  }

  lemma {:induction false} DistinctSize<T>(xs: seq<T>)
    requires Distinct(xs)
    ensures |ToSet(xs)| == |xs|
  {
    if xs != [] {
      DistinctSize(xs[1..]);
      assert xs == [xs[0]] + xs[1..];
      assert ToSet(xs) == {xs[0]} + ToSet(xs[1..]);
    }
  }

  lemma SubsetSize<T>(a: set<T>, b: set<T>)
    requires a <= b
    ensures |a| <= |b|
    ensures |a| == |b| ==> a == b
  {
    assert b == a + (b - a);
  }

  /** An injective map takes as many values as it has keys. */
  lemma {:induction false} InjectiveSize<K, V>(m: map<K, V>)
    requires forall k <- m, l <- m :: k != l ==> m[k] != m[l]
    ensures |m.Values| == |m|
    decreases |m|
  {
    if m.Keys == {} {
      assert m.Values == {};
    } else {
      var k :| k in m;
      var rest := m - {k};
      InjectiveSize(rest);
      assert m == rest[k := m[k]];
      assert m.Values == rest.Values + {m[k]} by {
        forall v | v in m.Values ensures v in rest.Values + {m[k]} {
          var l :| l in m && m[l] == v;
          assert l == k || (l in rest && rest[l] == v);
        }
        forall v | v in rest.Values ensures v in m.Values {
          var l :| l in rest && rest[l] == v;
          assert l in m;
        }
      }
    }
  }

  /** No repetition by index is no repetition by count. */
  lemma {:induction false} DistinctIsOnce<T>(xs: seq<T>)
    ensures Distinct(xs) <==> forall x <- xs :: multiset(xs)[x] == 1
  {
    if xs != [] {
      var rest := xs[1..];
      DistinctIsOnce(rest);
      assert xs == [xs[0]] + rest;
      if Distinct(xs) {
        assert xs[0] !in rest;
      } else if Distinct(rest) {
        var i, j :| 0 <= i < j < |xs| && xs[i] == xs[j];
        assert i == 0 && xs[0] == rest[j - 1];
        assert multiset(xs)[xs[0]] >= 2;
      } else {
        var x :| x in rest && multiset(rest)[x] != 1;
        assert multiset(xs)[x] >= 2;
      }
    }
  }

  lemma DistinctCons<T>(x: T, xs: seq<T>)
    ensures Distinct([x] + xs) <==> x !in xs && Distinct(xs)
  {
    var all := [x] + xs;
    assert forall i :: 0 <= i < |xs| ==> xs[i] == all[i + 1];
    if Distinct(all) {
      forall i | 0 <= i < |xs|
        ensures xs[i] != x
      {
        assert all[0] != all[i + 1];
      }
      forall i, j | 0 <= i < j < |xs|
        ensures xs[i] != xs[j]
      {
        assert all[i + 1] != all[j + 1];
      }
    } else if x !in xs {
      var i, j :| 0 <= i < j < |all| && all[i] == all[j];
      assert all[j] == xs[j - 1];
      assert all[i] == xs[i - 1] || i == 0;
    }
  }

  lemma DistinctSnoc<T>(xs: seq<T>, x: T)
    requires Distinct(xs) && x !in xs
    ensures Distinct(xs + [x]) && ToSet(xs + [x]) == ToSet(xs) + {x}
  {
    forall i, j | 0 <= i < j < |xs + [x]|
      ensures (xs + [x])[i] != (xs + [x])[j]
    {
      assert (xs + [x])[i] == xs[i];
    }
  }

  lemma DistinctConcat<T>(a: seq<T>, b: seq<T>)
    requires Distinct(a) && Distinct(b) && forall x <- a :: x !in b
    ensures Distinct(a + b)
  {
    forall i, j | 0 <= i < j < |a + b|
      ensures (a + b)[i] != (a + b)[j]
    {
      assert i < |a| ==> a[i] !in b;
    }
  }

  /** A sequence has as many members as places exactly when none is repeated. */
  lemma {:induction false} MembersSize<T>(xs: seq<T>)
    ensures |ToSet(xs)| <= |xs|
    ensures |ToSet(xs)| == |xs| <==> Distinct(xs)
  {
    if xs != [] {
      var rest := xs[1..];
      MembersSize(rest);
      assert xs == [xs[0]] + rest;
      DistinctCons(xs[0], rest);
      assert ToSet(xs) == {xs[0]} + ToSet(rest);
    }
  }

  lemma SameMembers<T>(xs: seq<T>, ys: seq<T>)
    requires multiset(xs) == multiset(ys)
    ensures forall x :: x in xs <==> x in ys
  {
    assert forall x :: x in xs <==> x in multiset(xs);
    assert forall x :: x in ys <==> x in multiset(ys);
  }

  lemma ConsPrefix<T>(a: T, s: seq<T>, b: T, t: seq<T>)
    ensures [a] + s <= [b] + t <==> a == b && s <= t
  {
    assert ([a] + s)[0] == a && ([a] + s)[1..] == s && ([b] + t)[0] == b && ([b] + t)[1..] == t;
    if |s| <= |t| {
      assert ([b] + t)[..|s| + 1] == [b] + t[..|s|];
    }
  }

  lemma Regroup<T>(a: seq<T>, b: seq<T>, c: seq<T>)
    ensures a + (b + c) == (a + b) + c
  {
  }

  function Without<T>(xs: seq<T>, i: nat): seq<T>
    requires i < |xs|
  {
    xs[..i] + xs[i + 1..]
  }

  lemma WithoutMultiset<T>(xs: seq<T>, i: nat)
    requires i < |xs|
    ensures multiset(xs) == multiset{xs[i]} + multiset(Without(xs, i))
    ensures forall x :: x in Without(xs, i) ==> x in xs
  {
    assert xs == xs[..i] + [xs[i]] + xs[i + 1..];
  }

  lemma MultisetCancel<T>(x: T, a: multiset<T>, b: multiset<T>)
    requires multiset{x} + a == multiset{x} + b
    ensures a == b
  {
    assert a == multiset{x} + a - multiset{x};
    assert b == multiset{x} + b - multiset{x};
  }
}
