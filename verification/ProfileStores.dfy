/** Connection profile stores: single stores, and combinations of stores looked through in order.
    The single stores are shared objects, so the same one may appear several times. */
module ProfileStores {
  import opened Wrappers

  type Ref = nat

  /** Profile data is any JSON value; code that tests it treats null, false, 0 and "" as absent. */
  datatype Data = Truthy(json: string) | Falsy

  /** The environment store is fixed; a file system store takes writes unless the disk refuses. */
  datatype Kind = Env | Disk(writable: bool)

  datatype Content = Content(kind: Kind, profiles: map<string, Data>)

  type World = map<Ref, Content>

  datatype Store = Single(ref: Ref) | Combo(stores: Stores)

  datatype Stores = Nil | Cons(head: Store, tail: Stores)

  /** The content behind a reference; what does not exist reads as an empty environment. */
  function At(w: World, ref: Ref): Content {
    if ref in w then w[ref] else Content(Env, map[])
  }

  predicate Accepts(c: Content) {
    c.kind.Disk? && c.kind.writable
  }

  /** The single stores in the order in which a combination looks at them. */
  function Leaves(s: Store): seq<Ref> {
    match s
    case Single(ref) => [ref]
    case Combo(stores) => AllLeaves(stores)
  }

  function AllLeaves(stores: Stores): seq<Ref> {
    match stores
    case Nil => []
    case Cons(s, rest) => Leaves(s) + AllLeaves(rest)
  }

  // ----- Single stores -----

  function LoadSingle(c: Content, name: string): Option<Data> {
    if name !in c.profiles then None
    else if c.kind.Env? && c.profiles[name].Falsy? then None
    else Some(c.profiles[name])
  }

  function SaveSingle(w: World, ref: Ref, name: string, d: Data): (World, bool) {
    var c := At(w, ref);
    if Accepts(c) then (w[ref := c.(profiles := c.profiles[name := d])], true) else (w, false)
  }

  function DeleteSingle(w: World, ref: Ref, name: string): World {
    var c := At(w, ref);
    if Accepts(c) then w[ref := c.(profiles := c.profiles - {name})] else w
  }

  // ----- Combinations -----

  /** None if the promise rejects. */
  function Load(w: World, s: Store, name: string): Option<Data> {
    match s
    case Single(ref) => LoadSingle(At(w, ref), name)
    case Combo(stores) => LoadFirst(w, stores, name)
  }

  function LoadFirst(w: World, stores: Stores, name: string): Option<Data> {
    match stores
    case Nil => None
    case Cons(s, rest) =>
      var data := Load(w, s, name);
      if data.Some? && data.value.Truthy? then data else LoadFirst(w, rest, name)
  }

  function LoadAll(w: World, s: Store): map<string, Data> {
    match s
    case Single(ref) => At(w, ref).profiles
    case Combo(stores) => LoadEach(w, stores, map[])
  }

  /** Object.assign(thisConnectionProfiles, connectionProfiles): what is already there wins. */
  function LoadEach(w: World, stores: Stores, soFar: map<string, Data>): map<string, Data> {
    match stores
    case Nil => soFar
    case Cons(s, rest) => LoadEach(w, rest, LoadAll(w, s) + soFar)
  }

  /** The new contents, and whether the promise resolves. */
  function Save(w: World, s: Store, name: string, d: Data): (World, bool)
    decreases s
  {
    match s
    case Single(ref) => SaveSingle(w, ref, name, d)
    case Combo(stores) => SaveFirst(w, stores, name, d)
  }

  function SaveFirst(w: World, stores: Stores, name: string, d: Data): (World, bool)
    decreases stores
  {
    match stores
    case Nil => (w, false)
    case Cons(s, rest) =>
      var (after, saved) := Save(w, s, name, d);
      if saved then (after, true) else SaveFirst(after, rest, name, d)
  }

  /** A combination ignores the errors of its stores. */
  function Delete(w: World, s: Store, name: string): World
    decreases s
  {
    match s
    case Single(ref) => DeleteSingle(w, ref, name)
    case Combo(stores) => DeleteEach(w, stores, name)
  }

  function DeleteEach(w: World, stores: Stores, name: string): World
    decreases stores
  {
    match stores
    case Nil => w
    case Cons(s, rest) => DeleteEach(Delete(w, s, name), rest, name)
  }
}
