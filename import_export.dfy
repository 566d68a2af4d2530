/** The `export` and `import` commands (internal/commands/import_export.go):
    format normalisation, extension dispatch and the names they report. */
module ImportExport {
  import opened Text
  import opened Results
  import opened Fs
  import opened Writer
  import opened Export

  // ---------------------------------------------------------------------------
  // export
  // ---------------------------------------------------------------------------

  /** The format as the command sees it: lower-cased, "yaml" when omitted. */
  function NormalisedFormat(format: string): (f: string)
    ensures f != ""
  {
    var lower := Lower(format);
    if lower == "" then "yaml" else lower
  }

  /** The export format a normalised format string selects. */
  function FormatOf(f: string): Result<string> {
    if f == "yaml" || f == "yml" then Ok(FormatYAML)
    else if f == "csv" then Ok(FormatCSV)
    else if f == "json" then Ok(FormatJSON)
    else Err("unsupported format: " + f + " (use: yaml, csv)")
  }

  /** The path the command reports: built from the normalised format string
      the user typed, not from the export format. */
  function ReportedExportPath(profileName: string, outputPath: string, f: string): string {
    if outputPath == "" then "exports/" + profileName + "." + f else outputPath
  }

  /** What `ExportCommand` reports (the output path on success) and leaves
      behind. */
  function ExportCommandOutcome(files: map<string, Node>, profileName: string, outputPath: string, format: string)
    : (Result<string>, map<string, Node>)
  {
    if profileName == "" then (Err("please specify the profile to export"), files)
    else
      var f := NormalisedFormat(format);
      var selected := FormatOf(f);
      if selected.Err? then (Err(selected.msg), files)
      else
        var o := ExportOutcome(files, profileName, selected.value, outputPath);
        if o.0.Err? then (Err(o.0.msg), o.1)
        else (Ok(ReportedExportPath(profileName, outputPath, f)), o.1)
  }

  /** `ExportCommand`. */
  method ExportCommand(fs: FileSystem, profileName: string, outputPath: string, format: string) returns (r: Result<string>)
    modifies fs
    ensures (r, fs.files) == ExportCommandOutcome(old(fs.files), profileName, outputPath, format)
  {
    if profileName == "" {
      return Err("please specify the profile to export");
    }
    var f := Lower(format);
    if f == "" {
      f := "yaml";
    }
    var exportFormat: string;
    if f == "yaml" || f == "yml" {
      exportFormat := FormatYAML;
    } else if f == "csv" {
      exportFormat := FormatCSV;
    } else if f == "json" {
      exportFormat := FormatJSON;
    } else {
      return Err("unsupported format: " + f + " (use: yaml, csv)");
    }
    var exported := ExportConfig(fs, profileName, exportFormat, outputPath);
    if exported.Err? {
      return Err(exported.msg);
    }
    var reported := outputPath;
    if reported == "" {
      reported := "exports/" + profileName + "." + f;
    }
    return Ok(reported);
  }

  /** The format is case-insensitive and defaults to YAML: exactly "", "yaml",
      "yml", "csv" and "json" (in any case) are accepted. */
  lemma FormatAccepted(format: string)
    ensures FormatOf(NormalisedFormat(format)).Ok? <==>
              Lower(format) in {"", "yaml", "yml", "csv", "json"}
    ensures Lower(format) == "" ==> FormatOf(NormalisedFormat(format)) == Ok(FormatYAML)
    ensures Lower(format) == "yml" ==> FormatOf(NormalisedFormat(format)) == Ok(FormatYAML)
  {
  }

  /** An export that succeeds went through the YAML or CSV writer of a
      readable profile, and a JSON export never succeeds. */
  lemma ExportCommandSucceeds(files: map<string, Node>, profileName: string, outputPath: string, format: string)
    ensures ExportCommandOutcome(files, profileName, outputPath, format).0.Ok? ==>
              profileName != "" && FormatOf(NormalisedFormat(format)).Ok? &&
              FormatOf(NormalisedFormat(format)).value in {FormatYAML, FormatCSV}
    ensures NormalisedFormat(format) == "json" ==> ExportCommandOutcome(files, profileName, outputPath, format).0.Err?
  {
    if profileName != "" && FormatOf(NormalisedFormat(format)).Ok? {
      ExportSucceedsOnlyForYamlAndCsv(files, profileName, FormatOf(NormalisedFormat(format)).value, outputPath);
    }
  }

  /** Exporting with format "yml" and no output path writes
      "exports/<name>.yaml" but reports "exports/<name>.yml". */
  lemma YmlReportedPathDiffers(files: map<string, Node>, profileName: string)
    requires ExportCommandOutcome(files, profileName, "", "yml").0.Ok?
    ensures var o := ExportCommandOutcome(files, profileName, "", "yml");
            o.0.value == "exports/" + profileName + ".yml" &&
            ExportPath(profileName, FormatYAML, "") in o.1 &&
            ExportPath(profileName, FormatYAML, "") != o.0.value
  {
    assert Lower("yml") == "yml";
    var written := ExportPath(profileName, FormatYAML, "");
    var reported := "exports/" + profileName + ".yml";
    assert written[|written| - 1] == 'l' && reported[|reported| - 1] == 'l';
    assert |written| != |reported|;
  }

  // ---------------------------------------------------------------------------
  // import
  // ---------------------------------------------------------------------------

  /** Where `ImportCommand` sends a file path. */
  datatype ImportRoute =
    | NoPath
    | InvalidFile
    | ViaYaml
    | ViaJson
    | ViaCsv
    | Unsupported(ext: string)

  /** The dispatch on the lower-cased last four bytes of the path. The
      ".yaml" and ".json" comparisons are written against that four-byte
      string, so they can never hold. */
  function ImportRouteOf(filePath: string): ImportRoute {
    if filePath == "" then NoPath
    else if |filePath| > 4 then
      var ext := Lower(filePath[|filePath| - 4..]);
      if ext == ".yml" || ext == ".yaml" then ViaYaml
      else if ext == ".json" then ViaJson
      else if ext == ".csv" then ViaCsv
      else Unsupported(ext)
    else InvalidFile
  }

  /** Only ".yml" and ".csv" (in any case) reach an importer. */
  lemma ImportRouteIff(filePath: string)
    ensures ImportRouteOf(filePath) != ViaJson
    ensures ImportRouteOf(filePath) == ViaYaml <==> |filePath| > 4 && Lower(filePath[|filePath| - 4..]) == ".yml"
    ensures ImportRouteOf(filePath) == ViaCsv <==> |filePath| > 4 && Lower(filePath[|filePath| - 4..]) == ".csv"
    ensures ImportRouteOf(filePath) == InvalidFile <==> 1 <= |filePath| <= 4
  {
  }

  /** A ".yaml" or ".json" file is refused as an unsupported format, with the
      last four bytes as the reported extension. */
  lemma LongExtensionsUnsupported(stem: string, ext: string)
    requires ext == ".yaml" || ext == ".json"
    ensures ImportRouteOf(stem + ext) == Unsupported(ext[1..])
  {
    var p := stem + ext;
    assert p[|p| - 4..] == ext[1..];
    assert Lower(ext[1..]) == ext[1..];
  }

  /** The name `ImportCommand` reports: the argument, else "imported", whatever
      name the importer actually stored the profile under. */
  function ReportedImportName(profileName: string): string {
    if profileName == "" then "imported" else profileName
  }

  /** What `ImportCommand` reports and leaves behind. */
  function ImportCommandOutcome(files: map<string, Node>, filePath: string, profileName: string, now: string)
    : (Result<string>, map<string, Node>)
  {
    match ImportRouteOf(filePath)
    case NoPath => (Err("please specify the file path to import"), files)
    case InvalidFile => (Err("invalid file: " + filePath), files)
    case Unsupported(ext) => (Err("unsupported format: " + ext), files)
    case ViaYaml =>
      var o := ImportOutcome(files, YamlImport(files, filePath, profileName, now));
      (if o.0.Ok? then Ok(ReportedImportName(profileName)) else Err(o.0.msg), o.1)
    case ViaCsv =>
      var o := ImportOutcome(files, CsvImport(files, filePath, profileName, now));
      (if o.0.Ok? then Ok(ReportedImportName(profileName)) else Err(o.0.msg), o.1)
    case ViaJson => assert false; (Err(""), files)
  }

  /** `ImportCommand`. Its JSON branch is never taken (`ImportRouteIff`). */
  method ImportCommand(fs: FileSystem, filePath: string, profileName: string, now: string) returns (r: Result<string>)
    modifies fs
    ensures (r, fs.files) == ImportCommandOutcome(old(fs.files), filePath, profileName, now)
  {
    if filePath == "" {
      return Err("please specify the file path to import");
    }
    if |filePath| > 4 {
      var ext := Lower(filePath[|filePath| - 4..]);
      if ext == ".yml" || ext == ".yaml" {
        var imported := ImportYAML(fs, filePath, profileName, now);
        if imported.Err? {
          return Err(imported.msg);
        }
      } else if ext == ".json" {
        assert false;
      } else if ext == ".csv" {
        var imported := ImportCSV(fs, filePath, profileName, now);
        if imported.Err? {
          return Err(imported.msg);
        }
      } else {
        return Err("unsupported format: " + ext);
      }
    } else {
      return Err("invalid file: " + filePath);
    }
    var name := profileName;
    if name == "" {
      name := "imported";
    }
    return Ok(name);
  }

  /** An import that succeeds went through the YAML or CSV importer, stored
      the prepared record with cleaned users, and reports the argument or
      "imported". */
  lemma ImportCommandSucceeds(files: map<string, Node>, filePath: string, profileName: string, now: string)
    requires ImportCommandOutcome(files, filePath, profileName, now).0.Ok?
    ensures ImportCommandOutcome(files, filePath, profileName, now).0.value == ReportedImportName(profileName)
    ensures ImportRouteOf(filePath) in {ViaYaml, ViaCsv}
    ensures var prepared := if ImportRouteOf(filePath) == ViaYaml then YamlImport(files, filePath, profileName, now)
                            else CsvImport(files, filePath, profileName, now);
            prepared.Ok? &&
            var c := prepared.value;
            ImportCommandOutcome(files, filePath, profileName, now).1[ProfilePath(c.ProfileName)] ==
              Record(c.(Users := CleanedUsers(c.Users)))
  {
  }
}
