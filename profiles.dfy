/** The `profiles list|show|delete` commands (internal/commands/profiles.go). */
module Profiles {
  import opened Text
  import opened Results
  import opened Models
  import opened Fs
  import opened Writer

  // ---------------------------------------------------------------------------
  // list
  // ---------------------------------------------------------------------------

  /** One line of the profile table. */
  datatype Row =
    | ProfileRow(name: string, profileType: string, server: string, company: string, created: string)
    | ErrorRow(name: string)

  /** `createdAt[:16]` when it is longer than 16 bytes. */
  function Truncate(s: string, n: nat): (r: string)
    ensures |r| <= n && HasPrefix(s, r)
    ensures |s| <= n ==> r == s
  {
    if |s| > n then s[..n] else s
  }

  /** The table row for the listed profile `name`. */
  function RowFor(files: map<string, Node>, name: string): Row {
    var cfg := ReadConfig(files, name);
    if cfg.Err? then ErrorRow(name)
    else ProfileRow(name, cfg.value.Type, cfg.value.ServerName, cfg.value.Company, Truncate(cfg.value.CreatedAt, 16))
  }

  /** The rows of `names`, one each, in order. */
  function Rows(files: map<string, Node>, names: seq<string>): (rows: seq<Row>)
    ensures |rows| == |names|
    ensures forall k | 0 <= k < |names| :: rows[k] == RowFor(files, names[k])
  {
    seq(|names|, k requires 0 <= k < |names| => RowFor(files, names[k]))
  }

  /** `ListCommand`: lists the profiles, then reads each one for its row; a
      profile that cannot be read still gets an "[error]" row. */
  method ListCommand(files: map<string, Node>, entries: seq<string>) returns (r: Result<seq<Row>>)
    requires IsListing(files, ConfigDir, entries)
    ensures ConfigDir in files && files[ConfigDir] != Dir ==> r.Err?
    ensures IsDirAt(files, ConfigDir) ==> r == Ok(Rows(files, JsonProfiles(files, entries)))
    ensures ConfigDir !in files ==> r == Ok([])
  {
    var profiles := ListConfigs(files, entries);
    if profiles.Err? {
      return Err("error reading profiles");
    }
    var rows := ProfileRows(files, profiles.value);
    return Ok(rows);
  }

  /** The table loop of `ListCommand`: reads each listed profile for its row. */
  method ProfileRows(files: map<string, Node>, names: seq<string>) returns (rows: seq<Row>)
    ensures rows == Rows(files, names)
  {
    rows := [];
    for i := 0 to |names|
      invariant |rows| == i
      invariant forall k | 0 <= k < i :: rows[k] == RowFor(files, names[k])
    {
      var cfg := ReadConfig(files, names[i]);
      if cfg.Err? {
        rows := rows + [ErrorRow(names[i])];
      } else {
        var createdAt := cfg.value.CreatedAt;
        if |createdAt| > 16 {
          createdAt := createdAt[..16];
        }
        rows := rows + [ProfileRow(names[i], cfg.value.Type, cfg.value.ServerName, cfg.value.Company, createdAt)];
      }
    }
  }

  /** Every listed profile has a row under its own name. For a non-empty
      name the profile is stored as a file, its row is an error row exactly
      when that file is not a JSON profile, and a readable profile's row
      carries at most 16 bytes of its timestamp. */
  lemma ListedRows(files: map<string, Node>, entries: seq<string>, k: nat)
    requires IsListing(files, ConfigDir, entries)
    requires k < |JsonProfiles(files, entries)|
    ensures var name := JsonProfiles(files, entries)[k];
            var row := Rows(files, JsonProfiles(files, entries))[k];
            && row.name == name
            && (name != "" ==>
                  && ProfilePath(name) in files
                  && (row.ErrorRow? <==> !files[ProfilePath(name)].Record?)
                  && (row.ProfileRow? ==> |row.created| <= 16 && HasPrefix(files[ProfilePath(name)].cfg.CreatedAt, row.created)))
  {
    var name := JsonProfiles(files, entries)[k];
    ListedProfileStored(files, entries, name);
  }

  // ---------------------------------------------------------------------------
  // show
  // ---------------------------------------------------------------------------

  /** `ShowCommand`: the profile shown and its record, the empty name
      meaning "default". */
  function ShowCommand(files: map<string, Node>, profileName: string): (r: Result<(string, Config)>)
    ensures r.Ok? ==> r.value.0 != "" && ReadConfig(files, r.value.0) == Ok(r.value.1)
    ensures r.Ok? <==> ReadConfig(files, profileName).Ok?
    ensures profileName == "" && r.Ok? ==> r.value.0 == "default"
  {
    var name := if profileName == "" then "default" else profileName;
    var cfg := ReadConfig(files, name);
    if cfg.Err? then Err("profile '" + name + "' not found") else Ok((name, cfg.value))
  }

  // ---------------------------------------------------------------------------
  // delete
  // ---------------------------------------------------------------------------

  /** The directory of a profile in the per-profile layout. */
  function ProfileDir(name: string): string {
    PathJoin(ConfigDir, name)
  }

  /** `DeleteCommand`, with the user's answer to the confirmation prompt as
      `response`: tries the per-profile directory first, then the flat file. */
  method DeleteCommand(fs: FileSystem, profileName: string, response: string) returns (r: Result<()>)
    modifies fs
    ensures profileName == "" ==> r == Err("please specify the profile name to delete") && fs.files == old(fs.files)
    ensures profileName != "" && response != "yes" && response != "y" ==> r == Ok(()) && fs.files == old(fs.files)
    ensures profileName != "" && (response == "yes" || response == "y") ==>
              if IsDirAt(old(fs.files), ProfileDir(profileName)) then
                r == Ok(()) && fs.files == WithoutTree(old(fs.files), ProfileDir(profileName))
              else if StatNotExist(old(fs.files), ProfilePath(profileName)) then
                r == Err("profile '" + profileName + "' not found") && fs.files == old(fs.files)
              else if Removable(old(fs.files), ProfilePath(profileName)) then
                r == Ok(()) && fs.files == old(fs.files) - {ProfilePath(profileName)}
              else r == Err("error deleting profile") && fs.files == old(fs.files)
  {
    if profileName == "" {
      return Err("please specify the profile name to delete");
    }
    if response != "yes" && response != "y" {
      return Ok(());
    }
    var profileDir := ProfileDir(profileName);
    var oldFilename := ProfilePath(profileName);
    if IsDirAt(fs.files, profileDir) {
      RemoveAll(fs, profileDir);
      return Ok(());
    }
    if StatNotExist(fs.files, oldFilename) {
      return Err("profile '" + profileName + "' not found");
    }
    var removed := Remove(fs, oldFilename);
    if !removed {
      return Err("error deleting profile");
    }
    return Ok(());
  }

  /** When "profiles" is a file, looking up a flat profile fails with
      ENOTDIR, so deleting it is not "not found" and the removal fails. */
  lemma FileStoreDeleteFails(files: map<string, Node>, name: string)
    requires ConfigDir in files && files[ConfigDir] != Dir && ProfilePath(name) !in files
    ensures !StatNotExist(files, ProfilePath(name)) && !Removable(files, ProfilePath(name))
  {
    assert ProfilePath(name)[..|ConfigDir| + 1] == ConfigDir + "/";
    assert IsUnder(ConfigDir, ProfilePath(name));
  }

  /** Deleting the per-profile directory leaves the flat file of the same
      profile where it was. */
  lemma DirectoryDeleteKeepsFlatFile(files: map<string, Node>, name: string)
    requires ProfilePath(name) in files
    ensures ProfilePath(name) in WithoutTree(files, ProfileDir(name))
    ensures WithoutTree(files, ProfileDir(name))[ProfilePath(name)] == files[ProfilePath(name)]
  {
    var p := ProfilePath(name);
    var d := ProfileDir(name);
    assert p[|d|] == '.';
  }

  /** A stored flat profile, being a file, can always be removed, so
      confirming its deletion removes it and reports success. */
  lemma StoredProfileRemovable(files: map<string, Node>, name: string)
    requires ProfilePath(name) in files && files[ProfilePath(name)].Record?
    ensures Removable(files, ProfilePath(name))
  {
  }

  /** Deleting a flat profile file makes the profile unreadable and touches
      no other path. */
  lemma FlatDeleteRemovesProfile(files: map<string, Node>, name: string)
    requires name != ""
    ensures ReadConfig(files - {ProfilePath(name)}, name).Err?
    ensures forall p | p in files && p != ProfilePath(name) :: (files - {ProfilePath(name)})[p] == files[p]
  {
  }
}
