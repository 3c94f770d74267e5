/** Dotted type names: splitting off the last segment, wildcards, and what they match. */
module ModelUtil {
  import opened Wrappers
  import opened Collections
  import opened Strings

  const SYSTEM_NAMESPACE := "org.hyperledger.composer.system"

  datatype NameError = NoName

  /** fqn.lastIndexOf('.') */
  function LastDot(s: string): int {
    LastIndexOf(s, '.')
  }

  function ShortName(fqn: string): (name: string)
    ensures '.' !in name
  {
    fqn[LastDot(fqn) + 1..]
  }

  function Namespace(fqn: string): Result<string, NameError> {
    if fqn == [] then Err(NoName)
    else if LastDot(fqn) == -1 then Ok("")
    else Ok(fqn[..LastDot(fqn)])
  }

  function FullyQualifiedName(namespace: string, name: string): string {
    if namespace != [] then namespace + "." + name else name
  }

  predicate IsWildcardName(fqn: string) {
    ShortName(fqn) == "*"
  }

  predicate IsRecursiveWildcardName(fqn: string) {
    ShortName(fqn) == "**"
  }

  predicate IsPrimitiveType(name: string) {
    name in ["Boolean", "String", "DateTime", "Double", "Integer", "Long"]
  }

  /** A type: its namespace, and the names of itself and everything it extends. */
  datatype Type = Type(namespace: string, instanceOf: set<string>)

  function IsMatchingType(t: Type, fqn: string): Result<bool, NameError> {
    match Namespace(fqn)
    case Err(e) => Err(e)
    case Ok(ns) =>
      Ok(|| fqn in t.instanceOf
         || (IsWildcardName(fqn) && t.namespace == ns)
         || (IsRecursiveWildcardName(fqn) && ns + "." <= t.namespace + ".")
         || (IsRecursiveWildcardName(fqn) && ns == []))
  }

  // ----- Splitting off the last segment and joining again -----

  /** Rejoining namespace and short name gives the name back exactly when its last dot is not
      its first character; in particular for every non-empty name that does not start with a dot. */
  lemma SplitThenJoin(fqn: string)
    requires fqn != []
    ensures Namespace(fqn).Ok?
    ensures FullyQualifiedName(Namespace(fqn).value, ShortName(fqn)) == fqn <==> LastDot(fqn) != 0
    ensures fqn[0] != '.' ==> LastDot(fqn) != 0
  {
    var i := LastDot(fqn);
    if i == -1 {
      assert ShortName(fqn) == fqn;
    } else if i == 0 {
      assert |ShortName(fqn)| < |fqn|;
    } else {
      assert fqn[..i] + "." + fqn[i + 1..] == fqn;
    }
  }

  /** Splitting a joined name gives back the parts exactly when the short name has no dot. */
  lemma JoinThenSplit(namespace: string, name: string)
    requires namespace != []
    ensures ShortName(FullyQualifiedName(namespace, name)) == name && Namespace(FullyQualifiedName(namespace, name)) == Ok(namespace)
       <==> '.' !in name
  {
    var fqn := FullyQualifiedName(namespace, name);
    if '.' !in name {
      LastIndexUnique(fqn, '.', |namespace|);
      assert fqn[|namespace| + 1..] == name && fqn[..|namespace|] == namespace;
    }
  }

  // ----- Wildcards and segments -----

  /** The segments of a dotted name; a name without dots is one segment. */
  function Segments(s: string): seq<string> {
    Split(s, '.')
  }

  /** The character test for recursive wildcards is the test on segments. */
  lemma {:induction false} PrefixIsSegmentPrefix(ns: string, name: string)
    ensures ns + "." <= name + "." <==> Segments(ns) <= Segments(name)
  {
    if name == [] || ns == [] {
      PrefixBase(ns, name);
    } else {
      PrefixIsSegmentPrefix(ns[1..], name[1..]);
      assert ns + "." == [ns[0]] + (ns[1..] + ".") && name + "." == [name[0]] + (name[1..] + ".");
      ConsPrefix(ns[0], ns[1..] + ".", name[0], name[1..] + ".");
      if ns[0] == '.' || name[0] == '.' {
        if ns[0] == name[0] {
          ConsPrefix("", Segments(ns[1..]), "", Segments(name[1..]));
        } else {
          assert Segments(ns)[0] != Segments(name)[0];
        }
      } else {
        HeadPrefix(ns[0], Segments(ns[1..]), name[0], Segments(name[1..]));
      }
    }
  }

  lemma {:induction false} PrefixBase(ns: string, name: string)
    requires name == [] || ns == []
    ensures ns + "." <= name + "." <==> Segments(ns) <= Segments(name)
  {
    if ns == [] && name != [] {
      assert ns + "." == "." && (name + ".")[0] == name[0];
      assert (name + ".")[..1] == [name[0]];
      if name[0] == '.' {
        assert Segments(name)[..1] == [""];
      } else {
        assert Segments(name)[0] != "";
      }
    } else if ns != [] {
      assert (ns + ".")[0] == ns[0] && |ns + "."| > 1;
      if ns[0] == '.' {
        assert |Segments(ns)| > 1;
      } else {
        assert Segments(ns)[0] != "";
      }
    }
  }

  lemma HeadPrefix(a: char, s: seq<string>, b: char, t: seq<string>)
    requires s != [] && t != []
    ensures [[a] + s[0]] + s[1..] <= [[b] + t[0]] + t[1..] <==> a == b && s <= t
  {
    ConsPrefix([a] + s[0], s[1..], [b] + t[0], t[1..]);
    ConsPrefix(s[0], s[1..], t[0], t[1..]);
    assert s == [s[0]] + s[1..] && t == [t[0]] + t[1..];
    assert ([a] + s[0])[0] == a && ([b] + t[0])[0] == b && ([a] + s[0])[1..] == s[0] && ([b] + t[0])[1..] == t[0];
  }

  /** What a type's names can be: identifiers have no stars. */
  ghost predicate Named(t: Type) {
    forall n <- t.instanceOf :: '*' !in n
  }

  /** A name without a star matches exactly the type of that name and what extends it; no name at all
      is an error. */
  lemma PlainNameMatches(t: Type, fqn: string)
    requires '*' !in fqn
    ensures IsMatchingType(t, fqn) == if fqn == [] then Err(NoName) else Ok(fqn in t.instanceOf)
  {
    assert forall c <- ShortName(fqn) :: c in fqn;
    assert '*' in "*" && '*' in "**";
  }

  /** `ns.**` matches exactly the types whose namespace's segments start with those of `ns`. */
  lemma RecursiveWildcardMatches(t: Type, ns: string)
    requires Named(t) && ns != []
    ensures IsMatchingType(t, FullyQualifiedName(ns, "**")) == Ok(Segments(ns) <= Segments(t.namespace))
  {
    JoinThenSplit(ns, "**");
    PrefixIsSegmentPrefix(ns, t.namespace);
    assert '*' in FullyQualifiedName(ns, "**");
  }

  lemma SplitWildcard(ns: string, star: string)
    requires '.' !in star && star != []
    ensures ShortName(FullyQualifiedName(ns, star)) == star && Namespace(FullyQualifiedName(ns, star)) == Ok(ns)
    ensures forall c <- star :: c in FullyQualifiedName(ns, star)
  {
    if ns != [] {
      JoinThenSplit(ns, star);
    } else {
      LastIndexUnique(star, '.', -1);
    }
  }

  /** `ns.*` matches exactly the types of namespace `ns`. */
  lemma WildcardMatches(t: Type, ns: string)
    requires Named(t)
    ensures IsMatchingType(t, FullyQualifiedName(ns, "*")) == Ok(t.namespace == ns)
  {
    SplitWildcard(ns, "*");
    assert '*' in "*" && '*' in FullyQualifiedName(ns, "*");
  }

  /** `ns.*` matches exactly the types of namespace `ns`, and `ns.**` matches whatever it matches. */
  lemma WildcardImpliesRecursive(t: Type, ns: string)
    requires Named(t)
    ensures IsMatchingType(t, FullyQualifiedName(ns, "*")) == Ok(t.namespace == ns)
    ensures t.namespace == ns ==> IsMatchingType(t, FullyQualifiedName(ns, "**")) == Ok(true)
  {
    WildcardMatches(t, ns);
    SplitWildcard(ns, "**");
    assert ns + "." <= ns + ".";
  }

  /** A bare `**` matches every type. */
  lemma BareRecursiveMatchesAll(t: Type)
    ensures IsMatchingType(t, "**") == Ok(true)
  {
    LastIndexUnique("**", '.', -1);
  }
}
