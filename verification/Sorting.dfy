/** Array.prototype.sort with a comparison. */
module Sorting {
  import opened Collections

  /** What a comparison has to be for sorting to make sense: any two elements compare one way or
      the other, and comparisons carry over. */
  ghost predicate TotalPreorder<T(!new)>(le: (T, T) -> bool) {
    && (forall a, b :: le(a, b) || le(b, a))
    && (forall a, b, c :: le(a, b) && le(b, c) ==> le(a, c))
  }

  ghost predicate Sorted<T>(items: seq<T>, le: (T, T) -> bool) {
    forall i, j :: 0 <= i < j < |items| ==> le(items[i], items[j])
  }

  function InsertBy<T>(x: T, items: seq<T>, le: (T, T) -> bool): (r: seq<T>)
    ensures multiset(r) == multiset([x] + items)
  {
    if items == [] || le(x, items[0]) then [x] + items
    else
      assert items == [items[0]] + items[1..];
      [items[0]] + InsertBy(x, items[1..], le)
  }

  function SortBy<T>(items: seq<T>, le: (T, T) -> bool): (r: seq<T>)
    ensures multiset(r) == multiset(items)
  {
    if items == [] then []
    else
      assert items == [items[0]] + items[1..];
      InsertBy(items[0], SortBy(items[1..], le), le)
  }

  lemma SortedCons<T>(x: T, items: seq<T>, le: (T, T) -> bool)
    requires Sorted(items, le) && forall y <- items :: le(x, y)
    ensures Sorted([x] + items, le)
  {
  }

  lemma SortedTail<T>(items: seq<T>, le: (T, T) -> bool)
    requires Sorted(items, le) && items != []
    ensures Sorted(items[1..], le) && forall y <- items[1..] :: le(items[0], y)
  {
  }

  lemma {:induction false} InsertSorted<T(!new)>(x: T, items: seq<T>, le: (T, T) -> bool)
    requires TotalPreorder(le) && Sorted(items, le)
    ensures Sorted(InsertBy(x, items, le), le)
  {
    if items != [] {
      SortedTail(items, le);
      if le(x, items[0]) {
        forall y | y in items
          ensures le(x, y)
        {
          assert y == items[0] || y in items[1..];
        }
        SortedCons(x, items, le);
      } else {
        InsertSorted(x, items[1..], le);
        SameMembers(InsertBy(x, items[1..], le), [x] + items[1..]);
        SortedCons(items[0], InsertBy(x, items[1..], le), le);
      }
    }
  }

  /** Sorting sorts. */
  lemma {:induction false} SortBySorted<T(!new)>(items: seq<T>, le: (T, T) -> bool)
    requires TotalPreorder(le)
    ensures Sorted(SortBy(items, le), le)
  {
    if items != [] {
      SortBySorted(items[1..], le);
      InsertSorted(items[0], SortBy(items[1..], le), le);
    }
  }
}
