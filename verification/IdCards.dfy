/** Identity cards: migrating their metadata, and writing and reading them as archives and as
    directories. */
module IdCards {
  import opened Wrappers
  import opened Collections
  import opened ZipFiles

  /** JSON values, as far as the program looks at them. */
  datatype Value = Num(n: int) | Str(s: string) | Json(text: string, truthy: bool)

  predicate Truthy(v: Option<Value>) {
    v.Some? &&
    match v.value
    case Num(n) => n != 0
    case Str(s) => s != ""
    case Json(_, truthy) => truthy
  }

  /** The metadata object: the members the program knows, and all others. */
  datatype Metadata = Metadata(version: Option<Value>, userName: Option<Value>, enrollmentId: Option<Value>,
                               name: Option<Value>, others: map<string, Value>)

  datatype Profile = Profile(name: Option<Value>, others: map<string, Value>)

  datatype Card = Card(metadata: Metadata, profile: Profile, credentials: map<string, string>)

  datatype Error = NoConnection | NoMetadata | BadJson | IncompatibleVersion | NoUserName | NoProfileName

  const CURRENT_VERSION := Some(Num(1))

  // ----- The constructor -----

  /** The step from version 0 to version 1. */
  function FromVersionZero(m: Metadata): Metadata {
    Metadata(Some(Num(1)), m.enrollmentId, None, None, m.others)
  }

  function Migrate(m: Metadata): Result<Metadata, Error> {
    if Truthy(m.version) || m.version == Some(Num(0)) then
      var current := if m.version == Some(Num(0)) then FromVersionZero(m) else m;
      if current.version != CURRENT_VERSION then Err(IncompatibleVersion) else Ok(current)
    else Ok(m.(version := CURRENT_VERSION))
  }

  function New(m: Metadata, profile: Profile): Result<Card, Error> {
    match Migrate(m)
    case Err(e) => Err(e)
    case Ok(current) =>
      if !Truthy(current.userName) then Err(NoUserName)
      else if !Truthy(profile.name) then Err(NoProfileName)
      else Ok(Card(current, profile, map[]))
  }

  // ----- Archives -----

  /** File names inside a card archive, and the text of metadata and profiles. */
  datatype Format = Format(connection: string, metadata: string, credentials: string,
                           writeMetadata: Metadata -> string, readMetadata: string -> Option<Metadata>,
                           writeProfile: Profile -> string, readProfile: string -> Option<Profile>)

  predicate IsPlain(name: string) {
    name != "" && '/' !in name
  }

  /** The pattern for files directly inside the directory `dir`, which ends in a slash. */
  function IsChild(dir: string): string -> bool {
    path => dir <= path && IsPlain(path[|dir|..])
  }

  function CredentialEntries(dir: string, credentials: map<string, string>, order: seq<string>): (es: seq<Entry>)
    requires forall name <- order :: name in credentials
    ensures |es| == |order| && forall i :: 0 <= i < |es| ==> order[i] in credentials && es[i] == Entry(dir + order[i], credentials[order[i]])
  {
    seq(|order|, i requires 0 <= i < |order| => Entry(dir + order[i], credentials[order[i]]))
  }

  function TopEntries(f: Format, c: Card): seq<Entry> {
    [Entry(f.connection, f.writeProfile(c.profile)), Entry(f.metadata, f.writeMetadata(c.metadata))]
  }

  /** The files written; `order` is the order of the credential names in their object. */
  function Entries(f: Format, c: Card, order: seq<string>): seq<Entry>
    requires forall name <- order :: name in c.credentials
  {
    TopEntries(f, c) + CredentialEntries(f.credentials, c.credentials, order)
  }

  function ToArchive(f: Format, c: Card, order: seq<string>): Zip
    requires forall name <- order :: name in c.credentials
  {
    PutAll([], Entries(f, c, order))
  }

  /** Metadata read from a file: what has no version is version zero. */
  function Dated(m: Metadata): Metadata {
    if Truthy(m.version) then m else m.(version := Some(Num(0)))
  }

  /** obj[file.name.slice(n)] = contents, for one file after the other. */
  function CredentialsFrom(files: Zip, n: nat): map<string, string> {
    if files == [] then map[]
    else
      var e := files[|files| - 1];
      CredentialsFrom(files[..|files| - 1], n)[if n <= |e.path| then e.path[n..] else "" := e.contents]
  }

  function Load(f: Format, connection: Option<string>, metadata: Option<string>, credentials: map<string, string>): Result<Card, Error> {
    if connection.None? then Err(NoConnection)
    else if metadata.None? then Err(NoMetadata)
    else if f.readProfile(connection.value).None? || f.readMetadata(metadata.value).None? then Err(BadJson)
    else match New(Dated(f.readMetadata(metadata.value).value), f.readProfile(connection.value).value)
      case Err(e) => Err(e)
      case Ok(c) => Ok(c.(credentials := credentials))
  }

  function FromArchive(f: Format, z: Zip): Result<Card, Error> {
    Load(f, Get(z, f.connection), Get(z, f.metadata), CredentialsFrom(Select(z, IsChild(f.credentials)), |f.credentials|))
  }

  // ----- Directories -----

  /** A card directory: its two files and, if it exists, the directory of credential files. */
  datatype Directory = Directory(connection: Option<string>, metadata: Option<string>, credentials: Option<map<string, string>>)

  function OldCredentials(d: Directory): map<string, string> {
    if d.credentials.Some? then d.credentials.value else map[]
  }

  function ToDirectory(f: Format, c: Card, d: Directory): Directory {
    Directory(Some(f.writeProfile(c.profile)), Some(f.writeMetadata(c.metadata)), Some(OldCredentials(d) + c.credentials))
  }

  function FromDirectory(f: Format, d: Directory): Result<Card, Error> {
    if d.metadata.None? then Err(NoMetadata)
    else if f.readMetadata(d.metadata.value).None? then Err(BadJson)
    else Load(f, d.connection, d.metadata, OldCredentials(d))
  }

  // ----- Migration -----

  /** A card that the constructor accepts is of the current version, and building a card from its
      metadata again changes nothing. */
  lemma MigrationIsIdempotent(m: Metadata, profile: Profile)
    ensures
      var c := New(m, profile);
      c.Ok? ==> c.value.metadata.version == CURRENT_VERSION && New(c.value.metadata, profile) == c
  {
  }

  /** Exactly which metadata make a card, and whose user it is: version 0 names the user in
      enrollmentId, every accepted other version in userName. Members the migration does not
      know are kept. */
  lemma AcceptedIff(m: Metadata, profile: Profile)
    ensures
      var user := if m.version == Some(Num(0)) then m.enrollmentId else m.userName;
      var c := New(m, profile);
      && (c.Ok? <==> (Truthy(m.version) ==> m.version == CURRENT_VERSION) && Truthy(user) && Truthy(profile.name))
      && (c.Ok? ==> c.value.metadata.userName == user && c.value.metadata.others == m.others)
  {
  }

  /** A card as the constructor leaves it, with any credentials. */
  predicate Valid(c: Card) {
    c.metadata.version == CURRENT_VERSION && Truthy(c.metadata.userName) && Truthy(c.profile.name)
  }

  lemma NewIsValid(m: Metadata, profile: Profile)
    ensures New(m, profile).Ok? ==> Valid(New(m, profile).value)
  {
  }

  // ----- Archive round trip -----

  /** File names inside the archive differ, and JSON texts read back to what was written. */
  ghost predicate Sound(f: Format) {
    && f.connection != f.metadata && '/' !in f.connection && '/' !in f.metadata
    && f.credentials != "" && f.credentials[|f.credentials| - 1] == '/'
    && (forall m :: f.readMetadata(f.writeMetadata(m)) == Some(m))
    && (forall p :: f.readProfile(f.writeProfile(p)) == Some(p))
  }

  ghost predicate Lists(order: seq<string>, credentials: map<string, string>) {
    Distinct(order) && forall name :: name in order <==> name in credentials
  }

  function PlainOnes(credentials: map<string, string>): map<string, string> {
    map name | name in credentials && IsPlain(name) :: credentials[name]
  }

  lemma CredentialPaths(f: Format, credentials: map<string, string>, order: seq<string>)
    requires Sound(f) && Lists(order, credentials)
    ensures
      var paths := Paths(CredentialEntries(f.credentials, credentials, order));
      Distinct(paths) && f.connection !in paths && f.metadata !in paths
  {
    var dir, paths := f.credentials, Paths(CredentialEntries(f.credentials, credentials, order));
    forall i, j | 0 <= i < j < |order|
      ensures paths[i] != paths[j]
    {
      assert paths[i][|dir|..] == order[i] && paths[j][|dir|..] == order[j];
    }
    forall i | 0 <= i < |order|
      ensures '/' in paths[i]
    {
      assert paths[i][|dir| - 1] == '/';
    }
  }

  lemma WrittenAsIs(f: Format, c: Card, order: seq<string>)
    requires Sound(f) && Lists(order, c.credentials)
    ensures ToArchive(f, c, order) == Entries(f, c, order)
  {
    var top, rest := TopEntries(f, c), CredentialEntries(f.credentials, c.credentials, order);
    CredentialPaths(f, c.credentials, order);
    PathsConcat(top, rest);
    assert Paths(top) == [f.connection, f.metadata];
    DistinctConcat(Paths(top), Paths(rest));
    assert [] + Entries(f, c, order) == Entries(f, c, order);
    PutAllNew([], Entries(f, c, order));
  }

  lemma CredentialsSnoc(files: Zip, e: Entry, n: nat)
    requires n <= |e.path|
    ensures CredentialsFrom(files + [e], n) == CredentialsFrom(files, n)[e.path[n..] := e.contents]
  {
    assert (files + [e])[..|files|] == files;
  }

  lemma SelectSnoc(files: Zip, e: Entry, matches: string -> bool)
    ensures Select(files + [e], matches) == if matches(e.path) then Select(files, matches) + [e] else Select(files, matches)
  {
    SelectConcat(files, [e], matches);
    assert [e][1..] == [];
  }

  /** The credentials with plain names among those listed. */
  function PlainListed(credentials: map<string, string>, order: seq<string>): map<string, string>
    requires forall name <- order :: name in credentials
  {
    if order == [] then map[]
    else
      var init, last := order[..|order| - 1], order[|order| - 1];
      if IsPlain(last) then PlainListed(credentials, init)[last := credentials[last]] else PlainListed(credentials, init)
  }

  lemma {:induction false} PlainListedIs(credentials: map<string, string>, order: seq<string>)
    requires forall name <- order :: name in credentials
    ensures forall name :: name in PlainListed(credentials, order) <==> name in order && IsPlain(name)
    ensures forall name <- PlainListed(credentials, order) :: PlainListed(credentials, order)[name] == credentials[name]
  {
    if order != [] {
      PlainListedIs(credentials, order[..|order| - 1]);
      assert order == order[..|order| - 1] + [order[|order| - 1]];
    }
  }

  lemma PlainListedAll(credentials: map<string, string>, order: seq<string>)
    requires Lists(order, credentials)
    ensures PlainListed(credentials, order) == PlainOnes(credentials)
  {
    PlainListedIs(credentials, order);
  }

  lemma EntriesStep(dir: string, credentials: map<string, string>, order: seq<string>, last: string)
    requires (forall name <- order :: name in credentials) && last in credentials
    ensures CredentialEntries(dir, credentials, order + [last]) ==
              CredentialEntries(dir, credentials, order) + [Entry(dir + last, credentials[last])]
  {
  }

  /** What is read from the children of the credentials directory. */
  function ReadChildren(dir: string, es: Zip): map<string, string> {
    CredentialsFrom(Select(es, IsChild(dir)), |dir|)
  }

  lemma CredentialsStep(dir: string, es: Zip, last: string, contents: string)
    ensures ReadChildren(dir, es + [Entry(dir + last, contents)]) ==
              if IsPlain(last) then ReadChildren(dir, es)[last := contents] else ReadChildren(dir, es)
  {
    var e := Entry(dir + last, contents);
    SelectSnoc(es, e, IsChild(dir));
    assert e.path[|dir|..] == last;
    if IsPlain(last) {
      CredentialsSnoc(Select(es, IsChild(dir)), e, |dir|);
    }
  }

  /** The credentials read from the written files are those with plain names. */
  lemma {:induction false} CredentialsBack(dir: string, credentials: map<string, string>, order: seq<string>)
    requires forall name <- order :: name in credentials
    ensures ReadChildren(dir, CredentialEntries(dir, credentials, order)) == PlainListed(credentials, order)
  {
    if order != [] {
      var init, last := order[..|order| - 1], order[|order| - 1];
      assert order == init + [last];
      CredentialsBack(dir, credentials, init);
      EntriesStep(dir, credentials, init, last);
      CredentialsStep(dir, CredentialEntries(dir, credentials, init), last, credentials[last]);
    }
  }

  lemma ChildHasSlash(dir: string, path: string)
    requires dir != "" && dir[|dir| - 1] == '/'
    ensures IsChild(dir)(path) ==> '/' in path
  {
    if dir <= path {
      assert path[|dir| - 1] == dir[|dir| - 1];
    }
  }

  lemma TopFacts(f: Format, c: Card)
    requires Sound(f)
    ensures Paths(TopEntries(f, c)) == [f.connection, f.metadata]
    ensures Get(TopEntries(f, c), f.connection) == Some(f.writeProfile(c.profile))
    ensures Get(TopEntries(f, c), f.metadata) == Some(f.writeMetadata(c.metadata))
    ensures Select(TopEntries(f, c), IsChild(f.credentials)) == []
  {
    ChildHasSlash(f.credentials, f.connection);
    ChildHasSlash(f.credentials, f.metadata);
    SelectNone(TopEntries(f, c), IsChild(f.credentials));
    assert TopEntries(f, c)[1..][0] == Entry(f.metadata, f.writeMetadata(c.metadata));
  }

  lemma TopBack(f: Format, c: Card, order: seq<string>)
    requires Sound(f) && Lists(order, c.credentials)
    ensures Get(Entries(f, c, order), f.connection) == Some(f.writeProfile(c.profile))
    ensures Get(Entries(f, c, order), f.metadata) == Some(f.writeMetadata(c.metadata))
    ensures Select(Entries(f, c, order), IsChild(f.credentials)) ==
              Select(CredentialEntries(f.credentials, c.credentials, order), IsChild(f.credentials))
  {
    var rest := CredentialEntries(f.credentials, c.credentials, order);
    TopFacts(f, c);
    GetConcat(TopEntries(f, c), rest, f.connection);
    GetConcat(TopEntries(f, c), rest, f.metadata);
    SelectConcat(TopEntries(f, c), rest, IsChild(f.credentials));
  }

  lemma NewIsSame(c: Card)
    requires Valid(c)
    ensures New(Dated(c.metadata), c.profile) == Ok(c.(credentials := map[]))
  {
  }

  /** A card read back from its archive is the card with exactly those of its credentials whose
      names are non-empty and free of slashes. */
  lemma ArchiveRoundTrip(f: Format, c: Card, order: seq<string>)
    requires Sound(f) && Valid(c) && Lists(order, c.credentials)
    ensures FromArchive(f, ToArchive(f, c, order)) == Ok(c.(credentials := PlainOnes(c.credentials)))
  {
    NewIsSame(c);
    WrittenAsIs(f, c, order);
    TopBack(f, c, order);
    CredentialsBack(f.credentials, c.credentials, order);
    PlainListedAll(c.credentials, order);
  }

  /** A card survives its archive exactly when all credential names are non-empty and slash-free. */
  lemma SurvivesArchiveIff(f: Format, c: Card, order: seq<string>)
    requires Sound(f) && Valid(c) && Lists(order, c.credentials)
    ensures FromArchive(f, ToArchive(f, c, order)) == Ok(c) <==> forall name <- c.credentials :: name != "" && '/' !in name
  {
    ArchiveRoundTrip(f, c, order);
    if PlainOnes(c.credentials) == c.credentials {
      forall name | name in c.credentials
        ensures IsPlain(name)
      {
        assert name in PlainOnes(c.credentials);
      }
    }
  }

  /** So it is for every card the constructor makes, from metadata of whatever version. */
  lemma NewCardSurvivesIff(f: Format, m: Metadata, profile: Profile, credentials: map<string, string>, order: seq<string>)
    requires Sound(f) && New(m, profile).Ok? && Lists(order, credentials)
    ensures
      var c := New(m, profile).value.(credentials := credentials);
      FromArchive(f, ToArchive(f, c, order)) == Ok(c) <==> forall name <- credentials :: name != "" && '/' !in name
  {
    NewIsValid(m, profile);
    SurvivesArchiveIff(f, New(m, profile).value.(credentials := credentials), order);
  }

  // ----- Older cards -----

  /** Why the constructor refuses: the version first, then the user, then the profile. */
  lemma RefusedBecause(m: Metadata, profile: Profile)
    ensures New(m, profile) == Err(IncompatibleVersion) <==> Truthy(m.version) && m.version != Some(Num(1))
    ensures New(m, profile) == Err(NoProfileName) ==> !Truthy(profile.name)
    ensures New(m, profile) == Err(NoUserName) ==> !Truthy(if m.version == Some(Num(0)) then m.enrollmentId else m.userName)
    ensures New(m, profile).Err? ==> New(m, profile).error in {IncompatibleVersion, NoUserName, NoProfileName}
  {
  }

  /** What is read from an archive whose two files can be read: metadata without a version, or of
      version 0, migrate, so that enrollmentId becomes userName and name goes; metadata of version 1
      come as they are; no other version is read. */
  lemma ReadMigrates(f: Format, z: Zip, m: Metadata, profile: Profile)
    requires Get(z, f.connection).Some? && f.readProfile(Get(z, f.connection).value) == Some(profile)
    requires Get(z, f.metadata).Some? && f.readMetadata(Get(z, f.metadata).value) == Some(m)
    ensures
      var r := FromArchive(f, z);
      if !Truthy(m.version) then
        && (r.Ok? <==> Truthy(m.enrollmentId) && Truthy(profile.name))
        && (r.Ok? ==> r.value.metadata == Metadata(Some(Num(1)), m.enrollmentId, None, None, m.others) && r.value.profile == profile)
      else
        && (r.Ok? <==> m.version == Some(Num(1)) && Truthy(m.userName) && Truthy(profile.name))
        && (r.Ok? ==> r.value.metadata == m && r.value.profile == profile)
  {
    AcceptedIff(Dated(m), profile);
  }

  /** An archive without one of the two files is refused, and named so. */
  lemma MissingFile(f: Format, z: Zip)
    ensures FromArchive(f, z) == Err(NoConnection) <==> Get(z, f.connection).None?
    ensures FromArchive(f, z) == Err(NoMetadata) <==> Get(z, f.connection).Some? && Get(z, f.metadata).None?
  {
  }

  // ----- Directory round trip -----

  /** After saving a card into a directory, loading gives its metadata and profile, and the old
      credential files overridden by the card's. So the card itself comes back exactly when every
      old credential file belongs to one of its credentials, as in a fresh directory. */
  lemma DirectoryRoundTrip(f: Format, c: Card, d: Directory)
    requires Sound(f) && Valid(c)
    ensures
      var back := FromDirectory(f, ToDirectory(f, c, d));
      && back == Ok(c.(credentials := OldCredentials(d) + c.credentials))
      && (back == Ok(c) <==> OldCredentials(d).Keys <= c.credentials.Keys)
  {
    assert (OldCredentials(d) + c.credentials).Keys == OldCredentials(d).Keys + c.credentials.Keys;
    if OldCredentials(d).Keys <= c.credentials.Keys {
      assert OldCredentials(d) + c.credentials == c.credentials;
    }
  }
}
