/** Export to and import from YAML and CSV (internal/config/export.go). The
    YAML and CSV codecs are opaque: an exported YAML file holds the profile
    record, an exported CSV file holds its records as rows of cells. */
module Export {
  import opened Text
  import opened Results
  import opened Models
  import opened Fs
  import opened Validator
  import opened Writer

  /** `ExportFormat` is a Go string type; these are its three named values. */
  const FormatJSON: string := "json"
  const FormatYAML: string := "yaml"
  const FormatCSV: string := "csv"

  /** The separator between users in the CSV "Users" cell. */
  const UserSeparator: string := "; "

  const CsvHeader: seq<string> := ["Type", "ServerName", "ProfileName", "Company", "Users"]

  // ---------------------------------------------------------------------------
  // CSV rows
  // ---------------------------------------------------------------------------

  /** The records `exportCSV` writes: the header, then one data row. */
  function CsvRecords(c: Config): seq<seq<string>> {
    [CsvHeader, [c.Type, c.ServerName, c.ProfileName, c.Company, Join(c.Users, UserSeparator)]]
  }

  /** The cells of a split "Users" cell, each trimmed, the empty ones dropped,
      in order. */
  function TrimmedUsers(parts: seq<string>): (r: seq<string>)
    ensures |r| <= |parts|
    ensures forall k | 0 <= k < |r| :: r[k] != "" && IsTrimmed(r[k])
  {
    if parts == [] then []
    else
      var init := TrimmedUsers(parts[..|parts| - 1]);
      var u := TrimSpace(parts[|parts| - 1]);
      if u != "" then init + [u] else init
  }

  /** The users `ImportCSV` reads from the "Users" cell: none for an empty
      cell, otherwise the cell split on "; " and trimmed. */
  function CsvUsers(cell: string): seq<string> {
    if cell == "" then [] else TrimmedUsers(Split(cell, UserSeparator))
  }

  /** The record `ImportCSV` builds from the CSV records, before stamping:
      row 2 is the data row, anything after it is ignored. */
  function CsvConfig(records: seq<seq<string>>, profileName: string): Result<Config> {
    if |records| < 2 then Err("empty CSV")
    else if |records[1]| < 5 then Err("invalid CSV: missing columns")
    else
      var row := records[1];
      Ok(NewConfig().(
        Type := Lower(row[0]),
        ServerName := row[1],
        ProfileName := if profileName != "" then profileName else row[2],
        Company := row[3],
        Users := CsvUsers(row[4])))
  }

  /** The field-by-field assignments of `ImportCSV`, with its split loop. */
  method ParseCsvRecords(records: seq<seq<string>>, profileName: string) returns (r: Result<Config>)
    ensures r == CsvConfig(records, profileName)
  {
    if |records| < 2 {
      return Err("empty CSV");
    }
    var row := records[1];
    if |row| < 5 {
      return Err("invalid CSV: missing columns");
    }
    var config := NewConfig();
    config := config.(Type := Lower(row[0]));
    config := config.(ServerName := row[1]);
    config := config.(ProfileName := row[2]);
    if profileName != "" {
      config := config.(ProfileName := profileName);
    }
    config := config.(Company := row[3]);
    if row[4] != "" {
      var users := Split(row[4], UserSeparator);
      var i := 0;
      while i < |users|
        invariant 0 <= i <= |users|
        invariant config.Type == Lower(row[0]) && config.ServerName == row[1] && config.Company == row[3]
        invariant config.ProfileName == if profileName != "" then profileName else row[2]
        invariant config.CreatedAt == ""
        invariant config.Users == TrimmedUsers(users[..i])
      {
        assert users[..i + 1][..i] == users[..i];
        var cleaned := TrimSpace(users[i]);
        if cleaned != "" {
          config := config.(Users := config.Users + [cleaned]);
        }
        i := i + 1;
      }
      assert users[..i] == users;
    }
    return Ok(config);
  }

  lemma {:induction false} TrimmedUsersOfTrimmed(users: seq<string>)
    requires forall k | 0 <= k < |users| :: users[k] != "" && IsTrimmed(users[k])
    ensures TrimmedUsers(users) == users
    decreases |users|
  {
    if users != [] {
      var init := users[..|users| - 1];
      assert forall k | 0 <= k < |init| :: init[k] == users[k];
      TrimmedUsersOfTrimmed(init);
      assert users == init + [users[|users| - 1]];
    }
  }

  lemma JoinNonEmpty(xs: seq<string>, sep: string)
    requires |xs| >= 1 && xs[0] != ""
    ensures Join(xs, sep) != ""
  {
    if |xs| > 1 {
      assert Join(xs, sep)[0] == xs[0][0];
    }
  }

  /** Round trip of the "Users" cell: joining users that are non-empty,
      trimmed and free of "; " and splitting the cell again gives them back. */
  lemma CsvUsersRoundTrip(users: seq<string>)
    requires forall k | 0 <= k < |users| :: users[k] != "" && IsTrimmed(users[k]) && !Contains(users[k], UserSeparator)
    ensures CsvUsers(Join(users, UserSeparator)) == users
  {
    if users != [] {
      JoinNonEmpty(users, UserSeparator);
      assert BorderFree(UserSeparator) by {
        assert UserSeparator[1..] != UserSeparator[..1];
      }
      SplitJoin(users, UserSeparator);
      TrimmedUsersOfTrimmed(users);
    }
  }

  /** Round trip of a whole profile: importing the records `exportCSV` wrote
      gives the record back, without its timestamp, when the type is already
      lower case and the users survive the "Users" cell. */
  lemma CsvRoundTrip(c: Config)
    requires Lower(c.Type) == c.Type
    requires forall k | 0 <= k < |c.Users| :: c.Users[k] != "" && IsTrimmed(c.Users[k]) && !Contains(c.Users[k], UserSeparator)
    ensures CsvConfig(CsvRecords(c), "") == Ok(c.(CreatedAt := ""))
  {
    CsvUsersRoundTrip(c.Users);
  }

  /** `ImportCSV` fails on fewer than two records or a short data row, reads
      only the second record, lower-cases the type and lets a non-empty
      argument override the profile-name column. */
  lemma CsvConfigShape(records: seq<seq<string>>, profileName: string)
    ensures CsvConfig(records, profileName).Ok? <==> |records| >= 2 && |records[1]| >= 5
    ensures |records| >= 2 ==> CsvConfig(records, profileName) == CsvConfig(records[..2], profileName)
    ensures CsvConfig(records, profileName).Ok? ==>
              var c := CsvConfig(records, profileName).value;
              && c.Type == Lower(records[1][0])
              && (profileName != "" ==> c.ProfileName == profileName)
              && (profileName == "" ==> c.ProfileName == records[1][2])
              && (records[1][4] == "" ==> c.Users == [])
              && c.CreatedAt == ""
  {
  }

  // ---------------------------------------------------------------------------
  // The validation gate of both imports
  // ---------------------------------------------------------------------------

  /** Both imports refuse a record that `ValidateConfig` objects to, quoting
      the first message. */
  function Admitted(c: Config): (r: Result<Config>)
    ensures r.Ok? <==> Acceptable(c)
    ensures r.Ok? ==> r.value == c
    ensures r.Err? ==> HasPrefix(r.msg, "invalid configuration: ")
  {
    ValidationErrorsEmptyIff(c);
    var errors := ValidationErrors(c);
    if errors == [] then Ok(c) else Err("invalid configuration: " + errors[0].Message)
  }

  /** What an import reports and leaves behind, given the stamped record it
      prepared (or the error it stopped at): the writer stores the record
      with its users cleaned. */
  function ImportOutcome(files: map<string, Node>, prepared: Result<Config>): (Result<()>, map<string, Node>) {
    if prepared.Err? then (Err(prepared.msg), files)
    else
      var c := prepared.value;
      SaveOutcome(files, ProfilePath(c.ProfileName), Record(c.(Users := CleanedUsers(c.Users))))
  }

  /** The validate-then-write tail of both imports. */
  method AdmitAndWrite(fs: FileSystem, config: Config, now: string) returns (r: Result<()>)
    modifies fs
    ensures Admitted(config).Err? ==> r == Err(Admitted(config).msg) && fs.files == old(fs.files)
    ensures Admitted(config).Ok? ==>
              (r, fs.files) == SaveOutcome(old(fs.files), ProfilePath(config.ProfileName),
                                           Record(config.(CreatedAt := now, Users := CleanedUsers(config.Users))))
  {
    var errors := ValidateConfig(config);
    if |errors| > 0 {
      return Err("invalid configuration: " + errors[0].Message);
    }
    var _, written := WriteConfig(fs, config, now);
    return written;
  }

  // ---------------------------------------------------------------------------
  // ImportCSV
  // ---------------------------------------------------------------------------

  /** What `csv.Reader.ReadAll` accepts with its default settings: every
      record as wide as the first. */
  predicate Rectangular(records: seq<seq<string>>) {
    forall k | 0 <= k < |records| :: |records[k]| == |records[0]|
  }

  /** The record `ImportCSV` hands to the writer, or the error it stops at.
      Opening fails only for a missing path; a directory opens and then
      fails to read, like a file that is not CSV or has ragged records. */
  function CsvImport(files: map<string, Node>, filePath: string, profileName: string, now: string): Result<Config> {
    if filePath !in files then Err("error opening file")
    else if !files[filePath].Csv? || !Rectangular(files[filePath].rows) then Err("error reading CSV")
    else
      var parsed := CsvConfig(files[filePath].rows, profileName);
      if parsed.Err? then Err(parsed.msg) else Admitted(parsed.value.(CreatedAt := now))
  }

  /** A file whose later record is narrower than the header, or a
      directory, is a read failure, not a missing-columns one. */
  lemma RaggedCsvUnreadable(files: map<string, Node>, filePath: string, profileName: string, now: string)
    requires filePath in files
    requires files[filePath] == Dir ||
             (files[filePath].Csv? && exists k | 0 <= k < |files[filePath].rows| :: |files[filePath].rows[k]| != |files[filePath].rows[0]|)
    ensures CsvImport(files, filePath, profileName, now) == Err("error reading CSV")
  {
  }

  /** `ImportCSV`: reads the records, builds the record, stamps it, validates
      it and writes it under its profile name. */
  method ImportCSV(fs: FileSystem, filePath: string, profileName: string, now: string) returns (r: Result<()>)
    modifies fs
    ensures (r, fs.files) == ImportOutcome(old(fs.files), CsvImport(old(fs.files), filePath, profileName, now))
  {
    if filePath !in fs.files {
      return Err("error opening file");
    }
    if !fs.files[filePath].Csv? || !Rectangular(fs.files[filePath].rows) {
      return Err("error reading CSV");
    }
    var parsed := ParseCsvRecords(fs.files[filePath].rows, profileName);
    if parsed.Err? {
      return Err(parsed.msg);
    }
    var config := parsed.value.(CreatedAt := now);
    r := AdmitAndWrite(fs, config, now);
  }

  // ---------------------------------------------------------------------------
  // ImportYAML
  // ---------------------------------------------------------------------------

  /** The profile name `ImportYAML` stores under: the argument, else the
      file's own profile name, else the file's base name without extension. */
  function ImportName(profileName: string, fromFile: string, filePath: string): string {
    if profileName != "" then profileName
    else if fromFile != "" then fromFile
    else BaseOf(filePath[..|filePath| - |Ext(filePath)|])
  }

  lemma {:induction false} ExtOfSuffixFrom(stem: string, ext: string, j: nat)
    requires |ext| >= 1 && ext[0] == '.'
    requires forall k | 1 <= k < |ext| :: ext[k] != '.' && ext[k] != '/'
    requires 1 <= j <= |ext|
    ensures ExtFrom(stem + ext, |stem| + j) == ext
  {
    var p := stem + ext;
    if j == 1 {
      assert p[|stem|] == '.';
      assert p[|stem|..] == ext;
    } else {
      assert p[|stem| + j - 1] == ext[j - 1];
      ExtOfSuffixFrom(stem, ext, j - 1);
    }
  }

  /** A dotted suffix without further dots or separators is the extension. */
  lemma ExtOfSuffix(stem: string, ext: string)
    requires |ext| >= 1 && ext[0] == '.'
    requires forall k | 1 <= k < |ext| :: ext[k] != '.' && ext[k] != '/'
    ensures Ext(stem + ext) == ext
  {
    ExtOfSuffixFrom(stem, ext, |ext|);
  }

  /** With neither an argument nor a name in the file, "dir/web.yaml" is
      imported as "web". */
  lemma ImportNameFromFileName(dir: string, stem: string, ext: string)
    requires stem != "" && '/' !in stem
    requires |ext| >= 1 && ext[0] == '.'
    requires forall k | 1 <= k < |ext| :: ext[k] != '.' && ext[k] != '/'
    ensures ImportName("", "", PathJoin(dir, stem) + ext) == stem
  {
    var p := PathJoin(dir, stem);
    ExtOfSuffix(p, ext);
    assert (p + ext)[..|p + ext| - |ext|] == p;
    assert StripTrailingSlashes(p) == p;
    assert p[|dir|] == '/';
    assert forall k | |dir| < k < |p| :: p[k] == stem[k - |dir| - 1];
    assert LastSlash(p) == |dir|;
    assert p[|dir| + 1..] == stem;
  }

  /** The record `ImportYAML` hands to the writer, or the error it stops at. */
  function YamlImport(files: map<string, Node>, filePath: string, profileName: string, now: string): Result<Config> {
    if filePath !in files || files[filePath] == Dir then Err("error reading file")
    else if !files[filePath].Yaml? then Err("error decoding YAML")
    else
      var doc := files[filePath].doc;
      Admitted(doc.(ProfileName := ImportName(profileName, doc.ProfileName, filePath), CreatedAt := now))
  }

  /** `ImportYAML`: decodes the document, resolves the profile name, stamps,
      validates and writes it. */
  method ImportYAML(fs: FileSystem, filePath: string, profileName: string, now: string) returns (r: Result<()>)
    modifies fs
    ensures (r, fs.files) == ImportOutcome(old(fs.files), YamlImport(old(fs.files), filePath, profileName, now))
  {
    if filePath !in fs.files || fs.files[filePath] == Dir {
      return Err("error reading file");
    }
    if !fs.files[filePath].Yaml? {
      return Err("error decoding YAML");
    }
    var config := fs.files[filePath].doc;
    var name := profileName;
    if name == "" {
      name := config.ProfileName;
      if name == "" {
        name := BaseOf(filePath[..|filePath| - |Ext(filePath)|]);
      }
    }
    config := config.(ProfileName := name);
    config := config.(CreatedAt := now);
    r := AdmitAndWrite(fs, config, now);
  }

  /** What an import stores when it succeeds satisfies the profile invariant
      when its users are already clean (non-empty, trimmed, printable), as
      the users read from a CSV cell are unless they hold control characters. */
  lemma ImportedRecordAcceptable(c: Config)
    requires Admitted(c).Ok?
    requires forall k | 0 <= k < |c.Users| :: CleanUser(c.Users[k])
    ensures Acceptable(c.(Users := CleanedUsers(c.Users)))
  {
    CleanedUsersOfClean(c.Users);
  }

  /** Validation runs before the writer cleans the users, so an import can
      store users that collide once trimmed: `[" bob", "bob"]` passes and is
      stored as `["bob", "bob"]`. */
  lemma ValidationPrecedesCleaning()
    ensures var c := Config("classic", "web01", "web", "", [" bob", "bob"], "");
            Admitted(c).Ok? && !Acceptable(c.(Users := CleanedUsers(c.Users)))
  {
    SpacedPairAcceptable();
    SpacedPairCleaned();
    var stored := ["bob", "bob"];
    assert !NoCaseDuplicates(stored) by {
      assert stored[0] != "" && stored[1] != "" && Lower(stored[0]) == Lower(stored[1]);
    }
  }

  lemma SpacedPairAcceptable()
    ensures Acceptable(Config("classic", "web01", "web", "", [" bob", "bob"], ""))
  {
    var users := [" bob", "bob"];
    assert ProfileNameShape("web") by {
      forall k | 0 <= k < 3 ensures IsNameChar("web"[k]) { }
    }
    assert Lower(users[0]) != Lower(users[1]) by {
      assert |Lower(users[0])| == 4 && |Lower(users[1])| == 3;
    }
    assert NoCaseDuplicates(users);
  }

  lemma SpacedPairCleaned()
    ensures CleanedUsers([" bob", "bob"]) == ["bob", "bob"]
  {
    BobIsClean();
    SpacedBobTrims();
    var bob := "bob";
    CleanedSingle(" bob", bob);
    CleanedSingle(bob, bob);
    CleanedPair(" bob", bob, bob);
  }

  lemma BobIsClean()
    ensures StoredUser("bob") == "bob"
  {
    var bob := "bob";
    assert CleanUser(bob) by {
      assert NoControl(bob) by {
        forall k | 0 <= k < 3 ensures IsPrintable(bob[k]) { }
      }
    }
    CleanUserFixed(bob);
  }

  lemma SpacedBobTrims()
    ensures TrimSpace(" bob") == "bob"
  {
    assert " bob"[1..] == "bob";
    assert IsTrimmed("bob");
  }

  // ---------------------------------------------------------------------------
  // Export
  // ---------------------------------------------------------------------------

  /** The output path: the given one, else "exports/<name>.<format>". */
  function ExportPath(profileName: string, format: string, outputPath: string): string {
    if outputPath == "" then PathJoin("exports", profileName + "." + format) else outputPath
  }

  /** What `ExportConfig` reports and what the file system holds afterwards. */
  function ExportOutcome(files: map<string, Node>, profileName: string, format: string, outputPath: string)
    : (Result<()>, map<string, Node>)
  {
    var cfg := ReadConfig(files, profileName);
    if cfg.Err? then (Err("profile '" + profileName + "' not found"), files)
    else
      var path := ExportPath(profileName, format, outputPath);
      var dir := DirOf(path);
      if !(IsDirAt(files, dir) || dir !in files) then (Err("error creating directory"), files)
      else
        var mid := if IsDirAt(files, dir) then files else files[dir := Dir];
        if format == FormatYAML then
          if CanWrite(mid, path) then (Ok(()), mid[path := Yaml(cfg.value)]) else (Err("error writing file"), mid)
        else if format == FormatCSV then
          if CanWrite(mid, path) then (Ok(()), mid[path := Csv(CsvRecords(cfg.value))]) else (Err("error creating file"), mid)
        else if format == FormatJSON then (Err("use WriteConfig for JSON"), mid)
        else (Err("unsupported format: " + format), mid)
  }

  /** `exportYAML`. */
  method ExportYaml(fs: FileSystem, config: Config, outputPath: string) returns (r: Result<()>)
    modifies fs
    ensures r == if CanWrite(old(fs.files), outputPath) then Ok(()) else Err("error writing file")
    ensures fs.files == if r.Ok? then old(fs.files)[outputPath := Yaml(config)] else old(fs.files)
  {
    var ok := WriteFile(fs, outputPath, Yaml(config));
    return if ok then Ok(()) else Err("error writing file");
  }

  /** `exportCSV`: creates (truncates) the file, then writes the header and
      the data row; the rows reach the file when the writer is flushed. */
  method ExportCsv(fs: FileSystem, config: Config, outputPath: string) returns (r: Result<()>)
    modifies fs
    ensures r == if CanWrite(old(fs.files), outputPath) then Ok(()) else Err("error creating file")
    ensures fs.files == if r.Ok? then old(fs.files)[outputPath := Csv(CsvRecords(config))] else old(fs.files)
  {
    var created := WriteFile(fs, outputPath, Csv([]));
    if !created {
      return Err("error creating file");
    }
    var rows: seq<seq<string>> := [];
    rows := rows + [CsvHeader];
    var usersStr := Join(config.Users, UserSeparator);
    rows := rows + [[config.Type, config.ServerName, config.ProfileName, config.Company, usersStr]];
    assert rows == CsvRecords(config);
    fs.files := fs.files[outputPath := Csv(rows)];
    return Ok(());
  }

  /** `ExportConfig`: reads the profile, makes the output directory, then
      dispatches on the format. */
  method ExportConfig(fs: FileSystem, profileName: string, format: string, outputPath: string) returns (r: Result<()>)
    modifies fs
    ensures (r, fs.files) == ExportOutcome(old(fs.files), profileName, format, outputPath)
  {
    var cfg := ReadConfig(fs.files, profileName);
    if cfg.Err? {
      return Err("profile '" + profileName + "' not found");
    }
    var path := ExportPath(profileName, format, outputPath);
    var made := MkdirAll(fs, DirOf(path));
    if !made {
      return Err("error creating directory");
    }
    if format == FormatYAML {
      r := ExportYaml(fs, cfg.value, path);
    } else if format == FormatCSV {
      r := ExportCsv(fs, cfg.value, path);
    } else if format == FormatJSON {
      r := Err("use WriteConfig for JSON");
    } else {
      r := Err("unsupported format: " + format);
    }
  }

  /** Only YAML and CSV exports of a readable profile succeed; JSON and any
      other format are refused, and then no file but the output directory
      is created. */
  lemma ExportSucceedsOnlyForYamlAndCsv(files: map<string, Node>, profileName: string, format: string, outputPath: string)
    ensures ExportOutcome(files, profileName, format, outputPath).0.Ok? ==>
              (format == FormatYAML || format == FormatCSV) && ReadConfig(files, profileName).Ok?
    ensures format != FormatYAML && format != FormatCSV ==>
              var o := ExportOutcome(files, profileName, format, outputPath);
              o.0.Err? && forall p | p in o.1 :: p in files || o.1[p] == Dir
  {
  }

  /** A successful CSV export writes records that import back to the stored
      profile (without its timestamp), given a lower-case type and users
      that survive the "Users" cell. */
  lemma ExportedCsvImportsBack(files: map<string, Node>, profileName: string, outputPath: string)
    requires ExportOutcome(files, profileName, FormatCSV, outputPath).0.Ok?
    requires var c := ReadConfig(files, profileName).value;
             Lower(c.Type) == c.Type &&
             forall k | 0 <= k < |c.Users| :: c.Users[k] != "" && IsTrimmed(c.Users[k]) && !Contains(c.Users[k], UserSeparator)
    ensures var o := ExportOutcome(files, profileName, FormatCSV, outputPath);
            var path := ExportPath(profileName, FormatCSV, outputPath);
            path in o.1 && o.1[path].Csv? && Rectangular(o.1[path].rows) &&
            CsvConfig(o.1[path].rows, "") == Ok(ReadConfig(files, profileName).value.(CreatedAt := ""))
  {
    CsvRoundTrip(ReadConfig(files, profileName).value);
  }
}
