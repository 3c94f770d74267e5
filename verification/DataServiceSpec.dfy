/** What each callback-taking operation of the data service does to the flat store, and the
    one reply its callback gets. */
module DataServiceSpec {
  import opened Wrappers
  import opened Strings
  import opened CompositeKeys
  import opened JsonText

  datatype Error =
    | BadKey(error: KeyError)
    | CollectionExists(id: string)
    | NoSuchCollection(id: string)
    | ObjectExists(id: string)
    | NoSuchObject(id: string)

  datatype Reply =
    | Failure(error: Error)
    | Done
    | Handle(collectionID: string)   // a data collection object
    | Exists(present: bool)
    | Object(json: string)
    | Objects(jsons: seq<string>)
    | Level(stored: Option<string>)

  /** The JSON text stored for a collection: json.Marshal of an object with its ID. */
  function CollectionRecord(id: string): string {
    "{\"id\":" + Quote(id) + "}"
  }

  /** The ID that a stored record names. */
  function RecordedId(json: string): Option<string> {
    ReadBetween(json, "{\"id\":", "}")
  }

  function CreateCollection(w: World, id: string, force: bool): (World, Reply) {
    match CompositeKey(COLLECTION_OBJECT_TYPE, id)
    case Err(error) => (w, Failure(BadKey(error)))
    case Ok(key) =>
      if !force && key in w
      then (w, Failure(CollectionExists(id)))
      else (w[key := CollectionRecord(id)], Handle(id))
  }

  function DeleteCollection(w: World, id: string): (World, Reply) {
    match CompositeKey(COLLECTION_OBJECT_TYPE, id)
    case Err(error) => (w, Failure(BadKey(error)))
    case Ok(key) => (w - Scan(w, id).Keys - {key}, Done)
  }

  function GetCollection(w: World, id: string): Reply {
    match CompositeKey(COLLECTION_OBJECT_TYPE, id)
    case Err(error) => Failure(BadKey(error))
    case Ok(key) => if key in w then Handle(id) else Failure(NoSuchCollection(id))
  }

  function ExistsCollection(w: World, id: string): Reply {
    match CompositeKey(COLLECTION_OBJECT_TYPE, id)
    case Err(error) => Failure(BadKey(error))
    case Ok(key) => Exists(key in w)
  }

  function Add(w: World, c: string, id: string, json: string, force: bool): (World, Reply) {
    match CompositeKey(c, id)
    case Err(error) => (w, Failure(BadKey(error)))
    case Ok(key) =>
      if !force && key in w
      then (w, Failure(ObjectExists(id)))
      else (w[key := json], Done)
  }

  function Update(w: World, c: string, id: string, json: string): (World, Reply) {
    match CompositeKey(c, id)
    case Err(error) => (w, Failure(BadKey(error)))
    case Ok(key) =>
      if key !in w then (w, Failure(NoSuchObject(id)))
      else (w[key := json], Done)
  }

  function Remove(w: World, c: string, id: string): (World, Reply) {
    match CompositeKey(c, id)
    case Err(error) => (w, Failure(BadKey(error)))
    case Ok(key) =>
      if key !in w then (w, Failure(NoSuchObject(id)))
      else (w - {key}, Done)
  }

  function Get(w: World, c: string, id: string): Reply {
    match CompositeKey(c, id)
    case Err(error) => Failure(BadKey(error))
    case Ok(key) =>
      if key in w then Object(w[key])
      else Failure(NoSuchObject(id))
  }

  function ExistsObject(w: World, c: string, id: string): Reply {
    match CompositeKey(c, id)
    case Err(error) => Failure(BadKey(error))
    case Ok(key) => Exists(key in w)
  }

  function GetAll(w: World, c: string): Reply {
    if Plain(c) then Objects(InOrder(Scan(w, c)))
    else Failure(BadKey(ReservedCharacter))
  }
}
