/** The flat, ordered world state and the composite keys that lay collections out in it. */
module CompositeKeys {
  import opened Wrappers
  import opened Collections
  import opened Strings

  type World = map<string, string>

  const COLLECTION_OBJECT_TYPE := "$syscollections"
  const LOG_LEVEL_KEY := "ComposerLogLevel"

  /** Characters that a composite key may not take from its parts. */
  predicate Plain(s: string) {
    NUL !in s && MAX !in s
  }

  function Join(objectType: string, attribute: string): string {
    objectType + [NUL] + attribute + [NUL]
  }

  /** The prefix shared by all composite keys of one object type. */
  function Partial(objectType: string): string {
    objectType + [NUL]
  }

  datatype KeyError = ReservedCharacter

  /** ChaincodeStub.CreateCompositeKey with a single attribute. */
  function CompositeKey(objectType: string, attribute: string): (r: Result<string, KeyError>) {
    if Plain(objectType) && Plain(attribute) then Ok(Join(objectType, attribute))
    else Err(ReservedCharacter)
  }

  function CollectionKey(id: string): string {
    Join(COLLECTION_OBJECT_TYPE, id)
  }

  predicate InRange(k: string, from: string, until: string) {
    !Less(k, from) && Less(k, until)
  }

  function Slice(w: World, from: string, until: string): World {
    map k | k in w && InRange(k, from, until) :: w[k]
  }

  /** The keys that a scan of one collection visits. */
  function Scan(w: World, objectType: string): World {
    Slice(w, Partial(objectType), Partial(objectType) + [MAX])
  }

  /** Two composite keys are equal only if their parts are. */
  lemma JoinInjective(c: string, i: string, d: string, j: string)
    requires Plain(c) && Plain(d) && Join(c, i) == Join(d, j)
    ensures c == d && i == j
  {
    PartialDecides(c, d, j);
    PartialDecides(c, c, i);
    assert Join(c, i) == Partial(c) + (i + [NUL]);
    assert Join(d, j) == Partial(d) + (j + [NUL]);
    assert i + [NUL] == Join(c, i)[|c| + 1..] == j + [NUL];
    assert i == (i + [NUL])[..|i|];
  }

  /** A key belongs to a collection's range only if it was made for that very collection, even
      when one collection ID is a prefix of another. */
  lemma {:induction false} PartialDecides(c: string, d: string, j: string)
    requires Plain(c) && Plain(d)
    ensures Partial(c) <= Join(d, j) <==> c == d
  {
    if c != [] && d != [] {
      PartialDecides(c[1..], d[1..], j);
      assert Partial(c) == [c[0]] + Partial(c[1..]) && Join(d, j) == [d[0]] + Join(d[1..], j);
      assert c == [c[0]] + c[1..] && d == [d[0]] + d[1..];
      ConsPrefix(c[0], Partial(c[1..]), d[0], Join(d[1..], j));
    } else {
      assert Partial(c)[0] == (if c == [] then NUL else c[0]) && Join(d, j)[0] == (if d == [] then NUL else d[0]);
      assert Partial([]) == [NUL] && Join([], j)[..1] == [NUL];
    }
  }

  /** The scan range of a collection holds exactly its own object keys. */
  lemma ScanRange(c: string, k: string)
    requires Plain(c) && MAX !in k
    ensures InRange(k, Partial(c), Partial(c) + [MAX]) <==> Partial(c) <= k
  {
    PrefixRange(Partial(c), k);
  }

  /** Keys of one collection are ordered as its object IDs are. */
  lemma JoinOrder(c: string, i: string, j: string)
    requires Plain(i) && Plain(j)
    ensures Less(Join(c, i), Join(c, j)) <==> Less(i, j)
  {
    assert Join(c, i) == Partial(c) + (i + [NUL]) && Join(c, j) == Partial(c) + (j + [NUL]);
    LessPrefix(Partial(c), i + [NUL], j + [NUL]);
    TerminatedOrder(i, j);
  }

  lemma {:induction false} TerminatedOrder(i: string, j: string)
    requires Plain(i) && Plain(j)
    ensures Less(i + [NUL], j + [NUL]) <==> Less(i, j)
  {
    if i != [] && j != [] {
      assert (i + [NUL])[1..] == i[1..] + [NUL] && (j + [NUL])[1..] == j[1..] + [NUL];
      TerminatedOrder(i[1..], j[1..]);
    } else if i == [] && j != [] {
      assert (j + [NUL])[0] == j[0] && j[0] in j;
    } else if i != [] {
      assert (i + [NUL])[0] == i[0] && i[0] in i;
    }
  }
}
