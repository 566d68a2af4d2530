/** The profile store (internal/config/writer.go): one JSON file per profile,
    `profiles/<name>.json`, relative to the working directory. */
module Writer {
  import opened Text
  import opened Results
  import opened Models
  import opened Fs

  /** `getConfigDir`. */
  const ConfigDir: string := "profiles"

  /** Where the profile called `name` is stored. */
  function ProfilePath(name: string): string {
    PathJoin(ConfigDir, name + ".json")
  }

  // ---------------------------------------------------------------------------
  // Reading
  // ---------------------------------------------------------------------------

  /** `ReadConfig`: the empty name means "default"; a missing file or a
      directory cannot be read; a file that is not a JSON profile does not
      decode. */
  function ReadConfig(files: map<string, Node>, profileName: string): (r: Result<Config>)
    ensures r.Ok? <==> ProfilePath(if profileName == "" then "default" else profileName) in files
                       && files[ProfilePath(if profileName == "" then "default" else profileName)].Record?
  {
    var name := if profileName == "" then "default" else profileName;
    var path := ProfilePath(name);
    if path !in files || files[path] == Dir then Err("error reading file")
    else if files[path].Record? then Ok(files[path].cfg)
    else Err("error decoding JSON")
  }

  // ---------------------------------------------------------------------------
  // Cleaning the user list
  // ---------------------------------------------------------------------------

  /** What `removeNullChars` returns: the printable characters, trimmed. */
  function Sanitized(s: string): (r: string)
    ensures NoControl(r) && IsTrimmed(r)
  {
    TrimSpace(Printable(s))
  }

  /** `removeNullChars`: keeps the characters with code >= 32 other than
      127, in order, then trims white space. */
  method RemoveNullChars(s: string) returns (r: string)
    ensures r == Sanitized(s)
  {
    var kept := "";
    var i := 0;
    while i < |s|
      invariant 0 <= i <= |s|
      invariant kept == Printable(s[..i])
    {
      assert s[..i + 1][..i] == s[..i];
      if s[i] as int >= 32 && s[i] as int != 127 {
        kept := kept + [s[i]];
      }
      i := i + 1;
    }
    assert s[..i] == s;
    r := TrimSpace(kept);
  }

  lemma SanitizedIdempotent(s: string)
    ensures Sanitized(Sanitized(s)) == Sanitized(s)
  {
    var r := Sanitized(s);
    assert Printable(r) == r;
  }

  /** A user that is already clean: non-empty, trimmed, printable. */
  predicate CleanUser(u: string) {
    u != "" && IsTrimmed(u) && NoControl(u)
  }

  /** The form in which `WriteConfig` stores one user: trimmed, then
      sanitised. */
  function StoredUser(u: string): (r: string)
    ensures NoControl(r) && IsTrimmed(r)
  {
    Sanitized(TrimSpace(u))
  }

  /** The user list `WriteConfig` stores: each user trimmed and sanitised,
      the ones that end up empty dropped, order and repeats kept. */
  function CleanedUsers(users: seq<string>): (r: seq<string>)
    ensures |r| <= |users|
  {
    if users == [] then []
    else
      var init := CleanedUsers(users[..|users| - 1]);
      var u := StoredUser(users[|users| - 1]);
      if u != "" then init + [u] else init
  }

  /** Every stored user is clean: non-empty, trimmed and free of control
      characters. */
  lemma {:induction false} CleanedUsersAreClean(users: seq<string>)
    ensures forall k | 0 <= k < |CleanedUsers(users)| :: CleanUser(CleanedUsers(users)[k])
    decreases |users|
  {
    if users != [] {
      var init := users[..|users| - 1];
      CleanedUsersAreClean(init);
      var r := CleanedUsers(init);
      var u := StoredUser(users[|users| - 1]);
      assert CleanedUsers(users) == if u != "" then r + [u] else r;
      if u != "" {
        forall k | 0 <= k < |r + [u]| ensures CleanUser((r + [u])[k]) {
          if k < |r| {
            assert (r + [u])[k] == r[k];
          }
        }
      }
    }
  }

  /** The user-cleaning loop shared by `WriteConfig` and `WriteConfigWithName`. */
  method CleanUsers(users: seq<string>) returns (cleaned: seq<string>)
    ensures cleaned == CleanedUsers(users)
  {
    cleaned := [];
    var i := 0;
    while i < |users|
      invariant 0 <= i <= |users|
      invariant cleaned == CleanedUsers(users[..i])
    {
      assert users[..i + 1][..i] == users[..i];
      var u := TrimSpace(users[i]);
      u := RemoveNullChars(u);
      if u != "" {
        cleaned := cleaned + [u];
      }
      i := i + 1;
    }
    assert users[..i] == users;
  }

  /** Cleaning works user by user: it distributes over concatenation, so the
      relative order of the users is kept. */
  lemma {:induction false} CleanedUsersAppend(a: seq<string>, b: seq<string>)
    ensures CleanedUsers(a + b) == CleanedUsers(a) + CleanedUsers(b)
    decreases |b|
  {
    if b != [] {
      var b', x := b[..|b| - 1], b[|b| - 1];
      assert b == b' + [x];
      assert a + b == (a + b') + [x];
      CleanedUsersAppend(a, b');
      CleanedUsersSnoc(a + b', x);
      CleanedUsersSnoc(b', x);
    } else {
      assert a + b == a;
    }
  }

  /** A list of clean users is stored unchanged: cleaning neither reorders
      nor removes case-insensitive (or exact) duplicates. */
  lemma {:induction false} CleanedUsersOfClean(users: seq<string>)
    requires forall k | 0 <= k < |users| :: CleanUser(users[k])
    ensures CleanedUsers(users) == users
    decreases |users|
  {
    if users != [] {
      var init := users[..|users| - 1];
      var u := users[|users| - 1];
      assert forall k | 0 <= k < |init| :: init[k] == users[k];
      CleanedUsersOfClean(init);
      CleanUserFixed(u);
      assert CleanedUsers(users) == CleanedUsers(init) + [u];
      SplitLast(users);
    }
  }

  /** Cleaning one more user appends its cleaned form, unless it is empty. */
  lemma CleanedUsersSnoc(init: seq<string>, u: string)
    ensures CleanedUsers(init + [u]) ==
              CleanedUsers(init) + (if StoredUser(u) != "" then [StoredUser(u)] else [])
  {
    assert (init + [u])[..|init|] == init;
  }


  lemma CleanedPair(a: string, b: string, x: string)
    requires CleanedUsers([a]) == [x] && CleanedUsers([b]) == [x]
    ensures CleanedUsers([a, b]) == [x, x]
  {
    CleanedUsersAppend([a], [b]);
    assert [a] + [b] == [a, b];
  }

  lemma CleanedSingle(a: string, x: string)
    requires StoredUser(a) == x && x != ""
    ensures CleanedUsers([a]) == [x]
  {
    assert [a][..0] == [];
  }

  lemma SplitLast(s: seq<string>)
    requires s != []
    ensures s == s[..|s| - 1] + [s[|s| - 1]]
  {
  }

  lemma CleanUserFixed(u: string)
    requires CleanUser(u)
    ensures StoredUser(u) == u
  {
    assert Printable(u) == u;
  }

  lemma CleanedUsersIdempotent(users: seq<string>)
    ensures CleanedUsers(CleanedUsers(users)) == CleanedUsers(users)
  {
    CleanedUsersAreClean(users);
    CleanedUsersOfClean(CleanedUsers(users));
  }

  // ---------------------------------------------------------------------------
  // Writing
  // ---------------------------------------------------------------------------

  /** The store after saving `node` at `path`: the profile directory is made
      (when missing) and the file written, or the step that failed is
      reported and nothing after it happens. */
  function SaveOutcome(files: map<string, Node>, path: string, node: Node): (o: (Result<()>, map<string, Node>))
    ensures o.0.Ok? ==> path in o.1 && o.1[path] == node && IsDirAt(o.1, ConfigDir)
    ensures o.0.Err? ==> forall p | p in files && p != ConfigDir :: p in o.1 && o.1[p] == files[p]
    ensures forall p | p in files && p != path && p != ConfigDir :: p in o.1 && o.1[p] == files[p]
    ensures forall p | p in o.1 :: p in files || p == path || p == ConfigDir
    ensures o.0.Err? ==> forall p | p in o.1 :: p in files || p == ConfigDir
    ensures ConfigDir in files && ConfigDir != path ==> ConfigDir in o.1 && o.1[ConfigDir] == files[ConfigDir]
  {
    if !(IsDirAt(files, ConfigDir) || ConfigDir !in files) then (Err("error creating config directory"), files)
    else
      var mid := if IsDirAt(files, ConfigDir) then files else files[ConfigDir := Dir];
      if CanWrite(mid, path) then (Ok(()), mid[path := node])
      else (Err("error writing file"), mid)
  }

  /** Saving a profile under a plain name fails only when "profiles" is a file
      or "profiles/<name>.json" is a directory. */
  lemma SaveProfileSucceedsIff(files: map<string, Node>, name: string, node: Node)
    requires '/' !in name
    ensures SaveOutcome(files, ProfilePath(name), node).0.Ok? <==>
              (IsDirAt(files, ConfigDir) || ConfigDir !in files) && !IsDirAt(files, ProfilePath(name))
  {
    assert '/' !in name + ".json";
    DirOfChild(ConfigDir, name + ".json");
  }

  /** `WriteConfig`: stamps the creation time (`now`, RFC 3339 text), cleans
      the users, then saves under the config's own profile name. The Go
      function updates the record it is handed; the model
      returns the updated record instead. */
  method WriteConfig(fs: FileSystem, config: Config, now: string) returns (updated: Config, r: Result<()>)
    modifies fs
    ensures updated == config.(CreatedAt := now, Users := CleanedUsers(config.Users))
    ensures (r, fs.files) == SaveOutcome(old(fs.files), ProfilePath(config.ProfileName), Record(updated))
    ensures r.Ok? && config.ProfileName != "" ==> ReadConfig(fs.files, config.ProfileName) == Ok(updated)
  {
    var users := CleanUsers(config.Users);
    updated := config.(CreatedAt := now, Users := users);
    r := Save(fs, ProfilePath(config.ProfileName), Record(updated));
  }

  /** `WriteConfigWithName`: cleans the users and saves under `profileName`,
      leaving the record's own profile name and creation time as they are. */
  method WriteConfigWithName(fs: FileSystem, profileName: string, config: Config) returns (updated: Config, r: Result<()>)
    modifies fs
    ensures updated == config.(Users := CleanedUsers(config.Users))
    ensures (r, fs.files) == SaveOutcome(old(fs.files), ProfilePath(profileName), Record(updated))
    ensures r.Ok? && profileName != "" ==> ReadConfig(fs.files, profileName) == Ok(updated)
  {
    var users := CleanUsers(config.Users);
    updated := config.(Users := users);
    r := Save(fs, ProfilePath(profileName), Record(updated));
  }

  /** The directory-then-file steps the two writers share. */
  method Save(fs: FileSystem, path: string, node: Node) returns (r: Result<()>)
    modifies fs
    ensures (r, fs.files) == SaveOutcome(old(fs.files), path, node)
  {
    var made := MkdirAll(fs, ConfigDir);
    if !made {
      return Err("error creating config directory");
    }
    var written := WriteFile(fs, path, node);
    if !written {
      return Err("error writing file");
    }
    return Ok(());
  }

  // ---------------------------------------------------------------------------
  // Listing
  // ---------------------------------------------------------------------------

  /** Entry `e` of the profile directory names a stored profile: it is not a
      directory and its extension is ".json". */
  predicate IsProfileEntry(files: map<string, Node>, e: string) {
    var p := PathJoin(ConfigDir, e);
    !(p in files && files[p] == Dir) && Ext(e) == ".json"
  }

  /** The profile names among `entries`, in listing order. */
  function JsonProfiles(files: map<string, Node>, entries: seq<string>): (r: seq<string>)
    ensures |r| <= |entries|
  {
    if entries == [] then []
    else
      var init := JsonProfiles(files, entries[..|entries| - 1]);
      var e := entries[|entries| - 1];
      if IsProfileEntry(files, e) then init + [e[..|e| - 5]] else init
  }

  /** `ListConfigs`: a missing profile directory lists nothing; a "profiles"
      that is not a directory cannot be read; otherwise the ".json" files of
      the listing `entries`, their extension cut off, in listing order. */
  method ListConfigs(files: map<string, Node>, entries: seq<string>) returns (r: Result<seq<string>>)
    requires IsListing(files, ConfigDir, entries)
    ensures ConfigDir !in files ==> r == Ok([])
    ensures ConfigDir in files && files[ConfigDir] != Dir ==> r.Err?
    ensures IsDirAt(files, ConfigDir) ==> r == Ok(JsonProfiles(files, entries))
  {
    if ConfigDir !in files {
      return Ok([]);
    }
    if files[ConfigDir] != Dir {
      return Err("error reading profile directory");
    }
    var profiles := [];
    var i := 0;
    while i < |entries|
      invariant 0 <= i <= |entries|
      invariant profiles == JsonProfiles(files, entries[..i])
    {
      assert entries[..i + 1][..i] == entries[..i];
      var name := entries[i];
      var p := PathJoin(ConfigDir, name);
      if !(p in files && files[p] == Dir) && Ext(name) == ".json" {
        profiles := profiles + [name[..|name| - 5]];
      }
      i := i + 1;
    }
    assert entries[..i] == entries;
    return Ok(profiles);
  }

  lemma {:induction false} JsonProfilesHas(files: map<string, Node>, entries: seq<string>, k: nat)
    requires k < |entries| && IsProfileEntry(files, entries[k])
    ensures entries[k][..|entries[k]| - 5] in JsonProfiles(files, entries)
    decreases |entries|
  {
    if k < |entries| - 1 {
      assert entries[..|entries| - 1][k] == entries[k];
      JsonProfilesHas(files, entries[..|entries| - 1], k);
    }
  }

  lemma {:induction false} JsonProfilesFrom(files: map<string, Node>, entries: seq<string>, n: string)
    requires n in JsonProfiles(files, entries)
    ensures exists k | 0 <= k < |entries| :: entries[k] == n + ".json" && IsProfileEntry(files, entries[k])
    decreases |entries|
  {
    var init := JsonProfiles(files, entries[..|entries| - 1]);
    var e := entries[|entries| - 1];
    if n in init {
      JsonProfilesFrom(files, entries[..|entries| - 1], n);
      var k :| 0 <= k < |entries| - 1 && entries[..|entries| - 1][k] == n + ".json"
               && IsProfileEntry(files, entries[..|entries| - 1][k]);
      assert entries[k] == entries[..|entries| - 1][k];
    } else {
      assert IsProfileEntry(files, e) && n == e[..|e| - 5];
      assert HasSuffix(e, ".json");
      assert e == n + ".json";
    }
  }

  /** Every stored profile under a plain name is listed. */
  lemma StoredProfileListed(files: map<string, Node>, entries: seq<string>, name: string)
    requires IsListing(files, ConfigDir, entries)
    requires name != "" && '/' !in name
    requires ProfilePath(name) in files && files[ProfilePath(name)].Record?
    ensures name in JsonProfiles(files, entries)
  {
    var e := name + ".json";
    assert '/' !in e;
    ChildOfJoin(ConfigDir, e);
    var k :| 0 <= k < |entries| && entries[k] == e;
    ExtOfJson(name);
    assert e[..|e| - 5] == name;
    JsonProfilesHas(files, entries, k);
  }

  /** Every listed name is a ".json" file of the profile directory, so
      reading it never fails for lack of a file. */
  lemma ListedProfileStored(files: map<string, Node>, entries: seq<string>, name: string)
    requires IsListing(files, ConfigDir, entries)
    requires name in JsonProfiles(files, entries)
    ensures ProfilePath(name) in files && files[ProfilePath(name)] != Dir
  {
    JsonProfilesFrom(files, entries, name);
    var k :| 0 <= k < |entries| && entries[k] == name + ".json" && IsProfileEntry(files, entries[k]);
    assert PathJoin(ConfigDir, entries[k]) == ProfilePath(name);
  }

  /** After a successful `WriteConfig` under a plain name the profile is
      listed. */
  lemma WrittenProfileListed(files: map<string, Node>, name: string, c: Config, entries: seq<string>)
    requires name != "" && '/' !in name
    requires SaveOutcome(files, ProfilePath(name), Record(c)).0.Ok?
    requires IsListing(SaveOutcome(files, ProfilePath(name), Record(c)).1, ConfigDir, entries)
    ensures name in JsonProfiles(SaveOutcome(files, ProfilePath(name), Record(c)).1, entries)
  {
    StoredProfileListed(SaveOutcome(files, ProfilePath(name), Record(c)).1, entries, name);
  }
}
