/** The card constructor, writers and readers, step by step. */
module IdCardFiles {
  import opened Wrappers
  import opened Collections
  import opened ZipFiles
  import opened IdCards

  /** The constructor rewrites the metadata it is given before it checks them. */
  method NewCard(given: Metadata, profile: Profile) returns (r: Result<Card, Error>)
    ensures r == New(given, profile)
  {
    var m := given;
    if Truthy(m.version) || m.version == Some(Num(0)) {
      if m.version == Some(Num(0)) {
        m := m.(userName := m.enrollmentId);
        m := m.(enrollmentId := None);
        m := m.(name := None);
        m := m.(version := Some(Num(1)));
      }
      if m.version != CURRENT_VERSION {
        return Err(IncompatibleVersion);
      }
    } else {
      m := m.(version := CURRENT_VERSION);
    }
    if !Truthy(m.userName) {
      return Err(NoUserName);
    }
    if !Truthy(profile.name) {
      return Err(NoProfileName);
    }
    r := Ok(Card(m, profile, map[]));
  }

  method WriteArchive(f: Format, c: Card, order: seq<string>) returns (zip: Zip)
    requires Sound(f) && Lists(order, c.credentials)
    ensures zip == ToArchive(f, c, order)
  {
    zip := Put([], f.connection, f.writeProfile(c.profile));
    zip := Put(zip, f.metadata, f.writeMetadata(c.metadata));
    ghost var es := CredentialEntries(f.credentials, c.credentials, order);
    ghost var top, all := zip, Entries(f, c, order);
    assert all[1..][0] == all[1] && all[1..][1..] == es;
    assert PutAll([], all) == PutAll(Put([], f.connection, f.writeProfile(c.profile)), all[1..]);
    for i := 0 to |order|
      invariant PutAll(top, es) == PutAll(zip, es[i..])
    {
      assert es[i..][0] == es[i] && es[i..][1..] == es[i + 1..];
      zip := Put(zip, f.credentials + order[i], c.credentials[order[i]]);
    }
  }

  method ReadCredentials(files: Zip, n: nat) returns (credentials: map<string, string>)
    requires forall e <- files :: n <= |e.path|
    ensures credentials == CredentialsFrom(files, n)
  {
    credentials := map[];
    for i := 0 to |files|
      invariant credentials == CredentialsFrom(files[..i], n)
    {
      assert files[..i + 1] == files[..i] + [files[i]];
      CredentialsSnoc(files[..i], files[i], n);
      credentials := credentials[files[i].path[n..] := files[i].contents];
    }
    assert files[..|files|] == files;
  }

  method ReadArchive(f: Format, zip: Zip) returns (r: Result<Card, Error>)
    ensures r == FromArchive(f, zip)
  {
    var connection, metadata := Get(zip, f.connection), Get(zip, f.metadata);
    if connection.None? {
      return Err(NoConnection);
    }
    if metadata.None? {
      return Err(NoMetadata);
    }
    var credentials := ReadCredentials(Select(zip, IsChild(f.credentials)), |f.credentials|);
    r := ReadCard(f, connection.value, metadata.value, credentials);
  }

  method ReadCard(f: Format, connection: string, metadata: string, credentials: map<string, string>) returns (r: Result<Card, Error>)
    ensures r == Load(f, Some(connection), Some(metadata), credentials)
  {
    var profile, m := f.readProfile(connection), f.readMetadata(metadata);
    if profile.None? || m.None? {
      return Err(BadJson);
    }
    var given := m.value;
    if !Truthy(given.version) {
      given := given.(version := Some(Num(0)));
    }
    r := NewCard(given, profile.value);
    if r.Ok? {
      r := Ok(r.value.(credentials := credentials));
    }
  }

  /** Writes one file for each credential. */
  method WriteCredentials(files: map<string, string>, credentials: map<string, string>) returns (after: map<string, string>)
    ensures after == files + credentials
  {
    after := files;
    var names := credentials.Keys;
    while names != {}
      invariant names <= credentials.Keys
      invariant after.Keys == files.Keys + (credentials.Keys - names)
      invariant forall name <- after :: after[name] == if name in credentials.Keys - names then credentials[name] else files[name]
    {
      var name :| name in names;
      after := after[name := credentials[name]];
      names := names - {name};
    }
  }

  /** A directory on disk that cards are saved into and loaded from. */
  class CardDirectory {
    var content: Directory

    constructor (content: Directory)
      ensures this.content == content
    {
      this.content := content;
    }

    /** Writes the two files, then one file for each credential; other credential files stay. */
    method Save(f: Format, c: Card)
      requires forall name <- c.credentials :: IsPlain(name) && name != "." && name != ".."
      modifies this
      ensures content == ToDirectory(f, c, old(content))
    {
      content := content.(metadata := Some(f.writeMetadata(c.metadata)));
      content := content.(connection := Some(f.writeProfile(c.profile)));
      var files := WriteCredentials(OldCredentials(content), c.credentials);
      content := content.(credentials := Some(files));
    }

    method LoadCard(f: Format) returns (r: Result<Card, Error>)
      ensures r == FromDirectory(f, content)
    {
      if content.metadata.None? {
        return Err(NoMetadata);
      }
      if f.readMetadata(content.metadata.value).None? {
        return Err(BadJson);
      }
      if content.connection.None? {
        return Err(NoConnection);
      }
      var credentials := OldCredentials(content);
      r := ReadCard(f, content.connection.value, content.metadata.value, credentials);
    }
  }
}
