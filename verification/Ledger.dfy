/** The flat composite-key store refines what its callers see: a set of collections, a map from
    (collection, object) to value, and the log level. */
module Ledger {
  import opened Wrappers
  import opened Strings
  import opened CompositeKeys
  import opened DataServiceSpec

  datatype Ledger = Ledger(collections: set<string>, objects: map<(string, string), string>, logLevel: Option<string>)

  datatype Op =
    | CreateCollectionOp(id: string, force: bool)
    | DeleteCollectionOp(id: string)
    | GetCollectionOp(id: string)
    | ExistsCollectionOp(id: string)
    | AddOp(c: string, id: string, json: string, force: bool)
    | UpdateOp(c: string, id: string, json: string)
    | RemoveOp(c: string, id: string)
    | GetOp(c: string, id: string)
    | ExistsOp(c: string, id: string)
    | GetAllOp(c: string)
    | SetLogLevelOp(level: string)
    | GetLogLevelOp

  /** loggingservice.go: the log level is one more key of the same store. */
  function SetLogLevel(w: World, level: string): (World, Reply) {
    (w[LOG_LEVEL_KEY := Upper(level)], Done)
  }

  function GetLogLevel(w: World): Reply {
    if LOG_LEVEL_KEY in w then Level(Some(w[LOG_LEVEL_KEY])) else Level(None)
  }

  function FlatStep(w: World, op: Op): (World, Reply) {
    match op
    case CreateCollectionOp(id, force) => CreateCollection(w, id, force)
    case DeleteCollectionOp(id) => DeleteCollection(w, id)
    case GetCollectionOp(id) => (w, GetCollection(w, id))
    case ExistsCollectionOp(id) => (w, ExistsCollection(w, id))
    case AddOp(c, id, json, force) => Add(w, c, id, json, force)
    case UpdateOp(c, id, json) => Update(w, c, id, json)
    case RemoveOp(c, id) => Remove(w, c, id)
    case GetOp(c, id) => (w, Get(w, c, id))
    case ExistsOp(c, id) => (w, ExistsObject(w, c, id))
    case GetAllOp(c) => (w, GetAll(w, c))
    case SetLogLevelOp(level) => SetLogLevel(w, level)
    case GetLogLevelOp => (w, GetLogLevel(w))
  }

  /** The objects of one collection, by object ID. */
  function Members(l: Ledger, c: string): map<string, string> {
    map p | p in l.objects && p.0 == c :: p.1 := l.objects[p]
  }

  /** The same operations on the two-level view. */
  function LedgerStep(l: Ledger, op: Op): (Ledger, Reply) {
    match op
    case CreateCollectionOp(id, force) =>
      if !Plain(id) then (l, Failure(BadKey(ReservedCharacter)))
      else if !force && id in l.collections then (l, Failure(CollectionExists(id)))
      else (l.(collections := l.collections + {id}), Handle(id))
    case DeleteCollectionOp(id) =>
      if !Plain(id) then (l, Failure(BadKey(ReservedCharacter)))
      else (l.(collections := l.collections - {id},
               objects := map p | p in l.objects && p.0 != id :: l.objects[p]), Done)
    case GetCollectionOp(id) =>
      (l, if !Plain(id) then Failure(BadKey(ReservedCharacter))
          else if id in l.collections then Handle(id) else Failure(NoSuchCollection(id)))
    case ExistsCollectionOp(id) =>
      (l, if !Plain(id) then Failure(BadKey(ReservedCharacter)) else Exists(id in l.collections))
    case AddOp(c, id, json, force) =>
      if !Plain(c) || !Plain(id) then (l, Failure(BadKey(ReservedCharacter)))
      else if !force && (c, id) in l.objects then (l, Failure(ObjectExists(id)))
      else (l.(objects := l.objects[(c, id) := json]), Done)
    case UpdateOp(c, id, json) =>
      if !Plain(c) || !Plain(id) then (l, Failure(BadKey(ReservedCharacter)))
      else if (c, id) !in l.objects then (l, Failure(NoSuchObject(id)))
      else (l.(objects := l.objects[(c, id) := json]), Done)
    case RemoveOp(c, id) =>
      if !Plain(c) || !Plain(id) then (l, Failure(BadKey(ReservedCharacter)))
      else if (c, id) !in l.objects then (l, Failure(NoSuchObject(id)))
      else (l.(objects := l.objects - {(c, id)}), Done)
    case GetOp(c, id) =>
      (l, if !Plain(c) || !Plain(id) then Failure(BadKey(ReservedCharacter))
          else if (c, id) in l.objects then Object(l.objects[(c, id)]) else Failure(NoSuchObject(id)))
    case ExistsOp(c, id) =>
      (l, if !Plain(c) || !Plain(id) then Failure(BadKey(ReservedCharacter)) else Exists((c, id) in l.objects))
    case GetAllOp(c) =>
      (l, if !Plain(c) then Failure(BadKey(ReservedCharacter)) else Objects(InOrder(Members(l, c))))
    case SetLogLevelOp(level) => (l.(logLevel := Some(Upper(level))), Done)
    case GetLogLevelOp => (l, Level(l.logLevel))
  }

  /** A key of the kind this code writes. */
  ghost predicate Written(k: string) {
    k == LOG_LEVEL_KEY || exists c, i :: Plain(c) && Plain(i) && k == Join(c, i)
  }

  /** The store and the two-level view agree on the collection or object that a key stands for. */
  ghost predicate Agree(w: World, l: Ledger, c: string, i: string) {
    if c == COLLECTION_OBJECT_TYPE then Join(c, i) in w <==> i in l.collections
    else
      && (Join(c, i) in w <==> (c, i) in l.objects)
      && (Join(c, i) in w ==> w[Join(c, i)] == l.objects[(c, i)])
  }

  /** `w` lays out `l` and holds nothing else. */
  ghost predicate Represents(w: World, l: Ledger) {
    && (forall c, i {:trigger Agree(w, l, c, i)} :: Plain(c) && Plain(i) ==> Agree(w, l, c, i))
    && (forall k {:trigger Written(k)} :: k in w ==> Written(k))
    && l.logLevel == (if LOG_LEVEL_KEY in w then Some(w[LOG_LEVEL_KEY]) else None)
    && (forall id <- l.collections :: Plain(id))
    && (forall p <- l.objects :: Plain(p.0) && Plain(p.1) && p.0 != COLLECTION_OBJECT_TYPE)
  }

  /** Operations on objects name a collection other than the reserved one, or an object ID that no
      key can be made from. */
  predicate Admissible(op: Op) {
    match op
    case DeleteCollectionOp(id) => id != COLLECTION_OBJECT_TYPE
    case AddOp(c, id, _, _) => c != COLLECTION_OBJECT_TYPE || !Plain(id)
    case UpdateOp(c, id, _) => c != COLLECTION_OBJECT_TYPE || !Plain(id)
    case RemoveOp(c, id) => c != COLLECTION_OBJECT_TYPE || !Plain(id)
    case GetOp(c, id) => c != COLLECTION_OBJECT_TYPE || !Plain(id)
    case ExistsOp(c, id) => c != COLLECTION_OBJECT_TYPE || !Plain(id)
    case GetAllOp(c) => c != COLLECTION_OBJECT_TYPE
    case _ => true
  }

  lemma EmptyStore()
    ensures Represents(map[], Ledger({}, map[], None))
  {
  }

  /** The log level's key is not a composite key. */
  lemma LogKeyApart(c: string, i: string)
    ensures Join(c, i) != LOG_LEVEL_KEY && !(Partial(c) <= LOG_LEVEL_KEY)
  {
    assert Join(c, i)[|c|] == NUL && Partial(c)[|c|] == NUL;
    assert NUL !in LOG_LEVEL_KEY;
  }

  /** Writing one composite key changes what that key stands for and nothing else. */
  lemma OtherKeys(w: World, w': World, l: Ledger, l': Ledger, c: string, i: string, d: string, j: string)
    requires Plain(c) && Plain(i) && Plain(d) && Plain(j) && (c, i) != (d, j)
    requires w' - {Join(c, i)} == w - {Join(c, i)}
    requires if c == COLLECTION_OBJECT_TYPE then l'.objects == l.objects && l'.collections - {i} == l.collections - {i}
             else l'.collections == l.collections && l'.objects - {(c, i)} == l.objects - {(c, i)}
    requires Agree(w, l, d, j)
    ensures Agree(w', l', d, j)
  {
    if Join(c, i) == Join(d, j) {
      JoinInjective(c, i, d, j);
    }
    var k := Join(d, j);
    assert k in w' <==> k in w' - {Join(c, i)};
    assert k in w <==> k in w - {Join(c, i)};
    assert k in w' ==> w'[k] == (w' - {Join(c, i)})[k] == w[k];
    if d == COLLECTION_OBJECT_TYPE {
      assert j in l'.collections <==> j in l.collections by {
        if c == COLLECTION_OBJECT_TYPE {
          assert j in l'.collections <==> j in l'.collections - {i};
          assert j in l.collections <==> j in l.collections - {i};
        }
      }
    } else if c != COLLECTION_OBJECT_TYPE {
      var p := (d, j);
      assert p in l'.objects <==> p in l'.objects - {(c, i)};
      assert p in l.objects <==> p in l.objects - {(c, i)};
      assert p in l.objects ==> l.objects[p] == (l.objects - {(c, i)})[p];
      assert p in l'.objects ==> l'.objects[p] == (l'.objects - {(c, i)})[p];
    }
  }

  /** A store that differs at one composite key represents a ledger that differs in what it stands for. */
  lemma OneKey(w: World, w': World, l: Ledger, l': Ledger, c: string, i: string)
    requires Represents(w, l) && Plain(c) && Plain(i)
    requires w' - {Join(c, i)} == w - {Join(c, i)}
    requires if c == COLLECTION_OBJECT_TYPE then l'.objects == l.objects && l'.collections - {i} == l.collections - {i}
             else l'.collections == l.collections && l'.objects - {(c, i)} == l.objects - {(c, i)}
    requires Agree(w', l', c, i) && l'.logLevel == l.logLevel
    ensures Represents(w', l')
  {
    forall d, j | Plain(d) && Plain(j)
      ensures Agree(w', l', d, j)
    {
      assert Agree(w, l, d, j);
      if (c, i) != (d, j) {
        OtherKeys(w, w', l, l', c, i, d, j);
      }
    }
    forall k | k in w'
      ensures Written(k)
    {
      if k != Join(c, i) {
        assert k in w' - {Join(c, i)};
        assert k in w && Written(k);
      }
    }
    LogKeyApart(c, i);
    assert LOG_LEVEL_KEY in w' <==> LOG_LEVEL_KEY in w' - {Join(c, i)};
    assert LOG_LEVEL_KEY in w <==> LOG_LEVEL_KEY in w - {Join(c, i)};
    assert LOG_LEVEL_KEY in w ==> (w - {Join(c, i)})[LOG_LEVEL_KEY] == w[LOG_LEVEL_KEY];
    assert LOG_LEVEL_KEY in w' ==> (w' - {Join(c, i)})[LOG_LEVEL_KEY] == w'[LOG_LEVEL_KEY];
    forall id | id in l'.collections
      ensures Plain(id)
    {
      assert id == i || id in l'.collections - {i};
    }
    forall p | p in l'.objects
      ensures Plain(p.0) && Plain(p.1) && p.0 != COLLECTION_OBJECT_TYPE
    {
      assert p == (c, i) || p in l'.objects - {(c, i)};
    }
  }

  lemma InScan(w: World, id: string, c: string, i: string)
    requires Plain(id) && Plain(c) && Plain(i)
    ensures Join(c, i) in Scan(w, id) <==> Join(c, i) in w && c == id
  {
    ScanRange(id, Join(c, i));
    PartialDecides(id, c, i);
  }

  lemma DeleteRefines(w: World, l: Ledger, id: string)
    requires Represents(w, l) && Plain(id) && id != COLLECTION_OBJECT_TYPE
    ensures Represents(DeleteCollection(w, id).0, LedgerStep(l, DeleteCollectionOp(id)).0)
  {
    var scanned := w - Scan(w, id).Keys;
    var l1 := l.(objects := map p | p in l.objects && p.0 != id :: l.objects[p]);
    forall c, i | Plain(c) && Plain(i)
      ensures Agree(scanned, l1, c, i)
    {
      assert Agree(w, l, c, i);
      InScan(w, id, c, i);
    }
    forall k | k in scanned
      ensures Written(k)
    {
      assert k in w;
    }
    ScanRange(id, LOG_LEVEL_KEY);
    LogKeyApart(id, "");
    assert Represents(scanned, l1);
    OneKey(scanned, scanned - {CollectionKey(id)}, l1, l1.(collections := l.collections - {id}), COLLECTION_OBJECT_TYPE, id);
  }

  /** Listing along IDs and listing along composite keys give the same sequence. */
  lemma {:induction false} SameOrder(byId: map<string, string>, byKey: World, c: string)
    requires Plain(c) && LaidOut(byId, byKey, c)
    ensures InOrder(byId) == InOrder(byKey)
    decreases |byId|
  {
    if byId.Keys == {} {
      assert byKey.Keys == {};
    } else {
      var i := Least(byId.Keys);
      SameLeast(byId, byKey, c);
      SameRest(byId, byKey, c, i);
      SameOrder(byId - {i}, byKey - {Join(c, i)}, c);
    }
  }

  ghost predicate LaidOut(byId: map<string, string>, byKey: World, c: string) {
    && (forall i <- byId :: Plain(i) && Join(c, i) in byKey && byKey[Join(c, i)] == byId[i])
    && (forall k <- byKey :: exists i :: i in byId && k == Join(c, i))
  }

  lemma SameLeast(byId: map<string, string>, byKey: World, c: string)
    requires Plain(c) && LaidOut(byId, byKey, c) && byId.Keys != {}
    ensures byKey.Keys != {} && Least(byKey.Keys) == Join(c, Least(byId.Keys))
  {
    var i := Least(byId.Keys);
    forall k | k in byKey
      ensures k == Join(c, i) || Less(Join(c, i), k)
    {
      var j :| j in byId && k == Join(c, j);
      JoinOrder(c, i, j);
    }
    LeastUnique(byKey.Keys, Join(c, i));
  }

  lemma SameRest(byId: map<string, string>, byKey: World, c: string, i: string)
    requires Plain(c) && LaidOut(byId, byKey, c) && i in byId
    ensures LaidOut(byId - {i}, byKey - {Join(c, i)}, c) && |byId - {i}| < |byId|
  {
    forall j | j in byId && j != i
      ensures Join(c, j) != Join(c, i)
    {
      if Join(c, j) == Join(c, i) {
        JoinInjective(c, j, c, i);
      }
    }
    forall k | k in byKey - {Join(c, i)}
      ensures exists j :: j in byId - {i} && k == Join(c, j)
    {
      var j :| j in byId && k == Join(c, j);
      assert j in byId - {i};
    }
    assert (byId - {i}).Keys == byId.Keys - {i};
  }

  /** getAll returns exactly the collection's objects, once each, ordered by object ID. */
  lemma GetAllRefines(w: World, l: Ledger, c: string)
    requires Represents(w, l) && Plain(c) && c != COLLECTION_OBJECT_TYPE
    ensures InOrder(Scan(w, c)) == InOrder(Members(l, c))
  {
    forall i | i in Members(l, c)
      ensures Plain(i) && Join(c, i) in Scan(w, c) && Scan(w, c)[Join(c, i)] == Members(l, c)[i]
    {
      assert (c, i) in l.objects;
      assert Agree(w, l, c, i);
      InScan(w, c, c, i);
    }
    forall k | k in Scan(w, c)
      ensures exists i :: i in Members(l, c) && k == Join(c, i)
    {
      assert k in w && Written(k);
      ScanRange(c, LOG_LEVEL_KEY);
      LogKeyApart(c, "");
      var d, i :| Plain(d) && Plain(i) && k == Join(d, i);
      InScan(w, c, d, i);
      assert Agree(w, l, c, i);
      assert (c, i) in l.objects;
    }
    SameOrder(Members(l, c), Scan(w, c), c);
  }

  lemma LogLevelRefines(w: World, l: Ledger, level: string)
    requires Represents(w, l)
    ensures Represents(SetLogLevel(w, level).0, LedgerStep(l, SetLogLevelOp(level)).0)
  {
    var w', l' := SetLogLevel(w, level).0, LedgerStep(l, SetLogLevelOp(level)).0;
    forall c, i | Plain(c) && Plain(i)
      ensures Agree(w', l', c, i)
    {
      assert Agree(w, l, c, i);
      LogKeyApart(c, i);
    }
    forall k | k in w'
      ensures Written(k)
    {
      assert k in w ==> Written(k);
    }
  }

  /** The operation gives the same reply on both, and leaves them in correspondence. */
  ghost predicate Refined(w: World, l: Ledger, op: Op) {
    var (w', flat), (l', seen) := FlatStep(w, op), LedgerStep(l, op);
    Represents(w', l') && flat == seen
  }

  /** Every operation does to the flat store what it does to the two-level view, with the same
      reply, whatever IDs it is given. */
  lemma StepRefines(w: World, l: Ledger, op: Op)
    requires Represents(w, l) && Admissible(op)
    ensures Refined(w, l, op)
  {
    var w', l' := FlatStep(w, op).0, LedgerStep(l, op).0;
    match op {
      case CreateCollectionOp(id, _) => CollectionRefines(w, l, op, id);
      case GetCollectionOp(id) => CollectionRefines(w, l, op, id);
      case ExistsCollectionOp(id) => CollectionRefines(w, l, op, id);
      case DeleteCollectionOp(id) => if Plain(id) { DeleteRefines(w, l, id); }
      case AddOp(c, id, _, _) => ObjectRefines(w, l, op, c, id);
      case UpdateOp(c, id, _) => ObjectRefines(w, l, op, c, id);
      case RemoveOp(c, id) => ObjectRefines(w, l, op, c, id);
      case GetOp(c, id) => ObjectRefines(w, l, op, c, id);
      case ExistsOp(c, id) => ObjectRefines(w, l, op, c, id);
      case GetAllOp(c) => if Plain(c) { GetAllRefines(w, l, c); }
      case SetLogLevelOp(level) => LogLevelRefines(w, l, level);
      case GetLogLevelOp =>
    }
  }

  lemma CollectionRefines(w: World, l: Ledger, op: Op, id: string)
    requires Represents(w, l)
    requires (op.CreateCollectionOp? || op.GetCollectionOp? || op.ExistsCollectionOp?) && op.id == id
    ensures Refined(w, l, op)
  {
    if Plain(id) {
      assert Agree(w, l, COLLECTION_OBJECT_TYPE, id);
      var w', l' := FlatStep(w, op).0, LedgerStep(l, op).0;
      if op.CreateCollectionOp? {
        OneKey(w, w', l, l', COLLECTION_OBJECT_TYPE, id);
      }
    }
  }

  lemma ObjectRefines(w: World, l: Ledger, op: Op, c: string, id: string)
    requires Represents(w, l) && (c != COLLECTION_OBJECT_TYPE || !Plain(id))
    requires (op.AddOp? || op.UpdateOp? || op.RemoveOp? || op.GetOp? || op.ExistsOp?) && op.c == c && op.id == id
    ensures Refined(w, l, op)
  {
    if Plain(c) && Plain(id) {
      assert Agree(w, l, c, id);
      var w', l' := FlatStep(w, op).0, LedgerStep(l, op).0;
      OneKey(w, w', l, l', c, id);
    }
  }

  function RunFlat(w: World, ops: seq<Op>): (World, seq<Reply>)
    decreases |ops|
  {
    if ops == [] then (w, [])
    else
      var (w1, reply) := FlatStep(w, ops[0]);
      var (w2, replies) := RunFlat(w1, ops[1..]);
      (w2, [reply] + replies)
  }

  function RunLedger(l: Ledger, ops: seq<Op>): (Ledger, seq<Reply>)
    decreases |ops|
  {
    if ops == [] then (l, [])
    else
      var (l1, reply) := LedgerStep(l, ops[0]);
      var (l2, replies) := RunLedger(l1, ops[1..]);
      (l2, [reply] + replies)
  }

  /** Store refinement: over every sequence of operations no caller can tell the flat
      composite-key store from the two-level one. */
  lemma {:induction false} StoreRefinesLedger(w: World, l: Ledger, ops: seq<Op>)
    requires Represents(w, l) && forall op <- ops :: Admissible(op)
    ensures Represents(RunFlat(w, ops).0, RunLedger(l, ops).0) && RunFlat(w, ops).1 == RunLedger(l, ops).1
    decreases |ops|
  {
    if ops != [] {
      StepRefines(w, l, ops[0]);
      StoreRefinesLedger(FlatStep(w, ops[0]).0, LedgerStep(l, ops[0]).0, ops[1..]);
    }
  }

  /** In particular from the empty store. */
  lemma FreshStoreRefinesLedger(ops: seq<Op>)
    requires forall op <- ops :: Admissible(op)
    ensures RunFlat(map[], ops).1 == RunLedger(Ledger({}, map[], None), ops).1
  {
    EmptyStore();
    StoreRefinesLedger(map[], Ledger({}, map[], None), ops);
  }

  // ----- The reserved collection ID -----

  /** The store after one collection was created. */
  function OneCollection(id: string): (World, Ledger) {
    (FlatStep(map[], CreateCollectionOp(id, true)).0, LedgerStep(Ledger({}, map[], None), CreateCollectionOp(id, true)).0)
  }

  lemma OneCollectionIs(id: string)
    requires Plain(id)
    ensures
      var (w, l) := OneCollection(id);
      && w == map[Join(COLLECTION_OBJECT_TYPE, id) := CollectionRecord(id)] && l == Ledger({id}, map[], None)
      && Represents(w, l) && Join(COLLECTION_OBJECT_TYPE, id) in Scan(w, COLLECTION_OBJECT_TYPE)
  {
    ReservedIdIsPlain();
    EmptyStore();
    StepRefines(map[], Ledger({}, map[], None), CreateCollectionOp(id, true));
    InScan(OneCollection(id).0, COLLECTION_OBJECT_TYPE, COLLECTION_OBJECT_TYPE, id);
  }

  /** An object operation under the reserved ID, once a collection with the object's ID exists. */
  lemma ReservedObjectOpDiffers(op: Op)
    requires op.AddOp? || op.UpdateOp? || op.RemoveOp? || op.GetOp? || op.ExistsOp?
    requires op.c == COLLECTION_OBJECT_TYPE && Plain(op.id)
    ensures var (w, l) := OneCollection(op.id); Represents(w, l) && !Refined(w, l, op)
  {
    ReservedIdIsPlain();
    OneCollectionIs(op.id);
    var (w, l) := OneCollection(op.id);
    var l' := LedgerStep(l, op).0;
    if op.AddOp? {
      assert (COLLECTION_OBJECT_TYPE, op.id) in l'.objects;
      assert !Represents(FlatStep(w, op).0, l');
    }
  }

  lemma ListsDiffer(w: World, l: Ledger, c: string)
    requires Plain(c) && Scan(w, c) != map[] && l.objects == map[]
    ensures !Refined(w, l, GetAllOp(c))
  {
    assert |InOrder(Scan(w, c))| > 0;
    assert Members(l, c) == map[];
    assert InOrder(Members(l, c)) == [];
  }

  /** Listing the reserved ID, once a collection exists. */
  lemma ReservedListDiffers()
    ensures var (w, l) := OneCollection(""); Represents(w, l) && !Refined(w, l, GetAllOp(COLLECTION_OBJECT_TYPE))
  {
    ReservedIdIsPlain();
    OneCollectionIs("");
    var (w, l) := OneCollection("");
    ListsDiffer(w, l, COLLECTION_OBJECT_TYPE);
  }

  /** Deleting the reserved ID, once a collection exists. */
  lemma ReservedDeleteDiffers()
    ensures var (w, l) := OneCollection(""); Represents(w, l) && !Refined(w, l, DeleteCollectionOp(COLLECTION_OBJECT_TYPE))
  {
    ReservedIdIsPlain();
    OneCollectionIs("");
    var (w, l) := OneCollection("");
    StillListed(LedgerStep(l, DeleteCollectionOp(COLLECTION_OBJECT_TYPE)).0, FlatStep(w, DeleteCollectionOp(COLLECTION_OBJECT_TYPE)).0);
  }

  lemma StillListed(l: Ledger, w: World)
    requires "" in l.collections && Join(COLLECTION_OBJECT_TYPE, "") !in w
    ensures !Represents(w, l)
  {
    ReservedIdIsPlain();
    assert Plain("");
    assert !Agree(w, l, COLLECTION_OBJECT_TYPE, "");
  }

  /** Exactly the admissible operations refine in every store; each other one fails in a store that a
      single createCollection makes. */
  lemma StepRefinesIff(op: Op)
    ensures (forall w, l {:trigger Refined(w, l, op)} :: Represents(w, l) ==> Refined(w, l, op)) <==> Admissible(op)
  {
    if Admissible(op) {
      forall w, l | Represents(w, l)
        ensures Refined(w, l, op)
      {
        StepRefines(w, l, op);
      }
    } else if op.GetAllOp? || op.DeleteCollectionOp? {
      ReservedListDiffers();
      ReservedDeleteDiffers();
      var (w, l) := OneCollection("");
      assert Represents(w, l) && !Refined(w, l, op);
    } else {
      ReservedObjectOpDiffers(op);
      var (w, l) := OneCollection(op.id);
      assert Represents(w, l) && !Refined(w, l, op);
    }
  }

  /** What goes wrong: adding an object under the reserved ID creates a collection of that name,
      whatever the store holds. */
  lemma ReservedIdCreatesCollections(w: World, l: Ledger, id: string, json: string)
    requires Represents(w, l) && Plain(id) && id !in l.collections
    ensures ExistsCollection(w, id) == Exists(false)
    ensures ExistsCollection(Add(w, COLLECTION_OBJECT_TYPE, id, json, false).0, id) == Exists(true)
  {
    assert Agree(w, l, COLLECTION_OBJECT_TYPE, id);
    ReservedIdIsPlain();
  }

  /** ... and deleting it as a collection deletes the record of every collection there is. */
  lemma ReservedIdDeletesCollections(w: World, l: Ledger, id: string)
    requires Represents(w, l) && id in l.collections
    ensures ExistsCollection(w, id) == Exists(true)
    ensures ExistsCollection(DeleteCollection(w, COLLECTION_OBJECT_TYPE).0, id) == Exists(false)
  {
    ReservedIdIsPlain();
    assert Agree(w, l, COLLECTION_OBJECT_TYPE, id);
    InScan(w, COLLECTION_OBJECT_TYPE, COLLECTION_OBJECT_TYPE, id);
  }

  lemma ReservedIdIsPlain()
    ensures Plain(COLLECTION_OBJECT_TYPE)
  {
  }
}
