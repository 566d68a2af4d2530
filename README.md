# otori-cli profile wizard and store, in Dafny

This project models the core of otori-cli, a command-line tool that creates
and deploys Cowrie-based honeypots. It covers:

- **The interactive profile wizard** (`Form`). It has five fields: type,
  server name, profile name, company and users. Key events move between them
  and each field is validated as it is left. `GetConfig` builds the profile
  record from the fields.
- **The confirmation screen** (`Preview`).
- **The record and its validator** (`Models`, `Validator`).
- **The profile store.** It keeps `profiles/<name>.json` over an abstract
  file map (`Fs`, `Writer`).
- **YAML and CSV import and export** (`Export`), with the commands that
  dispatch on format and extension (`ImportExport`).
- **The `profiles list|show|delete` commands** (`Profiles`).
- **The checks and fsctl script of `deploy`** (`Deploy`).
- **The `status` command**: parsing `docker ps` output, adding stopped
  profiles, filtering (`StatusView`, `StatusCommand`).

State that the program changes in place is modelled as a class or as a
`FileSystem` object:

- the wizard, the preview and the status screen are classes;
- the store is a `FileSystem` object whose `files` map the operations
  reassign.

Each state-changing operation is a method. Its postcondition ties the
result and the new state to a pure function of the old state, such as
`SaveOutcome`, `ExportOutcome` or `ImportCommandOutcome`. The lemmas about
those functions are what the model proves.

Loops in the source stay loops. Each is proved against a function that
recurses from the back, so that the invariant reads "result so far ==
function of the prefix". These loops are `cleanUser`, `removeNullChars`,
the user-cleaning loop, `ListConfigs`, the CSV user split,
`generateFsctlCommands`, the `docker ps` line loop, `addStoppedProfiles`,
the profile filter, `ValidateConfig` and `GetConfig`.

Strings are Go byte strings. They are modelled as `seq<char>` under an ASCII
assumption:

- one character is one byte, so `len`, slicing and backspace count
  characters;
- `strings.ToLower` lowers only `A`-`Z`;
- `strings.TrimSpace` trims the six ASCII white-space characters.

Quirks of the code that the model keeps and proves:

- **Import extensions.** `ImportCommand` takes the last four bytes as the
  extension, so `.yaml` and `.json` files are always refused as unsupported
  (`ImportRouteIff`, `LongExtensionsUnsupported`).
- **Reported export path.** An export with format `yml` writes
  `exports/<name>.yaml` but reports `exports/<name>.yml`
  (`YmlReportedPathDiffers`).
- **Validation before cleaning.** Imports validate the record before the
  store cleans its users. Two users that differ only by surrounding spaces
  pass validation, and are then stored as duplicates
  (`ValidationPrecedesCleaning`).
- **Top-level honeyfs files.** A top-level file has parent `/`, which is not
  a base path, so it is preceded by `mkdir /` (`TopLevelFileMakesRoot`).
- **`cleanUser` order.** `cleanUser` trims before it removes control
  characters, so it can leave a leading space (`CleanedEntryMayStartWithSpace`).
- **The type selector.** It only requires a value, so a pre-filled `IA`
  passes the wizard but not the validator (`TypeFieldWeakerThanValidator`).

## Model

| member | source | states |
|---|---|---|
| Models.NewConfig | internal/models/config.go:14-19 | The new record is named "default", has no users, and every other field is empty |
| Validator.IsValidProfileName | internal/config/validator.go:78-92 | The per-character loop accepts exactly the names of 1 to 100 characters drawn from letters, digits, '-' and '_' |
| Validator.ShapedNameIsPlain | internal/config/validator.go:78-92 | A valid profile name is non-empty and has no '/' or '.', so it names one file directly inside the store |
| Validator.ValidateConfig | internal/config/validator.go:17-74 | The loop returns every rule's errors, in the order Type, ServerName, ProfileName, then a case-insensitive repeat per later non-empty user, in list order |
| Validator.NoDuplicateErrorsIff | internal/config/validator.go:60-72 | The user check reports nothing exactly when no two non-empty users are equal ignoring case |
| Validator.ValidationErrorsEmptyIff | internal/config/validator.go:17-74 | The error list is empty exactly when the type is "classic" or "ia", the server name has at least 3 bytes, the profile name is valid and there are no case-insensitive duplicate users |
| Validator.DuplicateBob | internal/config/validator.go:60-72 | ["bob", "BOB"] gives exactly one error, and it quotes the later spelling 'BOB' |
| Validator.NewConfigErrors | internal/config/validator.go:17-44 | A fresh record fails exactly on the required type and the required server name |
| Validator.ProfileExists | internal/config/validator.go:95-106 | The search finds the name exactly when listing succeeded and the name is listed |
| Fs.DirOfChild | internal/config/writer.go:38 | The directory of `dir/name` is `dir` when the name has no separator |
| Fs.ChildOfJoin | internal/config/writer.go:111-129 | `dir/name` is a direct child of `dir` named `name` |
| Fs.ExtOfJson | internal/config/writer.go:122 | The extension of `<stem>.json` is ".json" |
| Fs.MkdirAll | internal/config/writer.go:32-35 | Succeeds exactly when the path is a directory or absent; afterwards it is a directory and nothing else changed |
| Fs.WriteFile | internal/config/writer.go:47-49 | Succeeds exactly when the parent is a directory and the path is not one; replaces the path's content and nothing else |
| Fs.WithoutTree | internal/commands/profiles.go:166-173 | Removes exactly the directory and every path under it, keeping all other paths unchanged |
| Fs.RemoveAll | internal/commands/profiles.go:168 | The new map is the old one without the directory's tree |
| Fs.Remove | internal/commands/profiles.go:181 | Fails on a missing path or a non-empty directory; otherwise removes exactly that path |
| Writer.ReadConfig | internal/config/writer.go:91-108 | The empty name reads "default"; the read succeeds exactly when `profiles/<name>.json` exists, fails with a read error when it is missing and a decode error when it does not hold a record |
| Writer.Sanitized | internal/config/writer.go:138-147 | The result has no control character (code below 32 or 127) and no surrounding white space |
| Writer.StoredUser | internal/config/writer.go:20-29 | A user as stored, trimmed then sanitised, has no control character and no surrounding white space |
| Writer.RemoveNullChars | internal/config/writer.go:138-147 | The builder loop computes the sanitised string |
| Writer.SanitizedIdempotent | internal/config/writer.go:138-147 | Sanitising twice is sanitising once |
| Writer.CleanUsers | internal/config/writer.go:20-29 | The loop computes the cleaned user list |
| Writer.CleanedUsersAreClean | internal/config/writer.go:20-29 | Every stored user is non-empty, trimmed and free of control characters |
| Writer.CleanedUsersAppend | internal/config/writer.go:20-29 | Cleaning works entry by entry and keeps order: it distributes over concatenation |
| Writer.CleanedUsersSnoc | internal/config/writer.go:20-29 | Cleaning one more user appends its sanitised form when that is not empty |
| Writer.CleanedUsersOfClean | internal/config/writer.go:20-29 | Clean users are kept as they are, in order, with no deduplication |
| Writer.CleanedUsersIdempotent | internal/config/writer.go:20-29 | Cleaning an already cleaned list changes nothing |
| Writer.CleanedPair | internal/config/writer.go:20-29 | Two users that clean to the same name are both stored: no deduplication |
| Writer.SaveOutcome | internal/config/writer.go:31-51 | On success the path holds the new content under a store directory; every path other than the target and the store keeps its node, an existing store keeps its node, and no path appears besides the target and the store; a failure adds at most the store directory |
| Writer.SaveProfileSucceedsIff | internal/config/writer.go:31-51 | Saving a profile succeeds exactly when the store is a directory or absent and the profile's path is not a directory |
| Writer.WriteConfig | internal/config/writer.go:15-52 | Stamps CreatedAt with the given time, cleans the users, stores the record at `profiles/<ProfileName>.json` replacing any prior content, and reading it back returns that record |
| Writer.WriteConfigWithName | internal/config/writer.go:55-88 | Cleans the users but keeps CreatedAt and ProfileName, stores under the given name, and reading it back returns that record |
| Writer.ListConfigs | internal/config/writer.go:111-129 | A missing store lists nothing, a store that is not a directory is an error, and otherwise the loop returns the ".json" non-directory entries without their suffix, in directory order |
| Writer.JsonProfilesHas | internal/config/writer.go:122-126 | Every non-directory ".json" entry is listed under its name |
| Writer.JsonProfilesFrom | internal/config/writer.go:122-126 | Every listed name comes from a non-directory "<name>.json" entry |
| Writer.StoredProfileListed | internal/config/writer.go:111-129 | A stored profile record appears in the listing |
| Writer.ListedProfileStored | internal/config/writer.go:111-129 | A listed name has a file, never a directory, at its profile path |
| Writer.WrittenProfileListed | internal/config/writer.go:15-52 | A profile written successfully is listed afterwards |
| Export.TrimmedUsers | internal/config/export.go:164-174 | The CSV users are non-empty and trimmed |
| Export.ParseCsvRecords | internal/config/export.go:144-174 | The field-by-field import of the CSV records gives the record the CSV mapping defines, or its errors |
| Export.CsvConfigShape | internal/config/export.go:144-174 | Parsing fails exactly for fewer than two records or a second row shorter than five cells; later rows are ignored, the type is lower-cased, a given name overrides column 3, an empty users cell gives no users |
| Export.TrimmedUsersOfTrimmed | internal/config/export.go:164-174 | Trimmed non-empty users pass the split loop unchanged |
| Export.JoinNonEmpty | internal/config/export.go:84 | Joining users that start with a non-empty one gives a non-empty cell |
| Export.CsvUsersRoundTrip | internal/config/export.go:84 | Splitting the "; "-joined cell gives back trimmed, non-empty users free of "; " |
| Export.CsvRoundTrip | internal/config/export.go:80-93 | The exported rows import back to the same record without its timestamp, for a lower-case type and such users |
| Export.Admitted | internal/config/export.go:118-127 | An import is refused exactly when the record is not acceptable, with an "invalid configuration: " message |
| Export.AdmitAndWrite | internal/config/export.go:118-127 | A refused record leaves the store untouched; an accepted one is written with the timestamp |
| Export.ImportCSV | internal/config/export.go:131-185 | A missing file fails to open; a directory, a non-CSV file or records of unequal width fail to read; otherwise the parsed record is validated, stamped and written |
| Export.RaggedCsvUnreadable | internal/config/export.go:137-141 | A directory, or CSV records of unequal width, stop the import with "error reading CSV" |
| Export.ImportYAML | internal/config/export.go:99-128 | Read and decode failures are errors; otherwise the name is resolved and the record is validated, stamped and written |
| Export.ExtOfSuffix | internal/config/export.go:114 | The extension of `stem + ext` is `ext` when `ext` is a dot followed by no dot or slash |
| Export.ImportNameFromFileName | internal/config/export.go:111-116 | With no argument and no name in the file, the profile is named after the file's base name without its extension |
| Export.ImportedRecordAcceptable | internal/config/export.go:118-127 | A record that passed validation and whose users are already clean is still acceptable as stored |
| Export.ValidationPrecedesCleaning | internal/config/export.go:118-127 | Validation runs before cleaning, so [" bob", "bob"] is admitted and then stored as two equal users |
| Export.SpacedPairCleaned | internal/config/writer.go:20-29 | [" bob", "bob"] is stored as ["bob", "bob"] |
| Export.ExportYaml | internal/config/export.go:55-66 | Writes the YAML node exactly when the path can be written, and otherwise fails with a write error |
| Export.ExportCsv | internal/config/export.go:69-96 | Writes the header and data rows exactly when the file can be created, and otherwise fails with a create error |
| Export.ExportConfig | internal/config/export.go:25-52 | Missing profile, directory failure, JSON and unknown formats are errors; otherwise the YAML or CSV export at the default or given path |
| Export.ExportSucceedsOnlyForYamlAndCsv | internal/config/export.go:41-51 | Only YAML and CSV exports of a readable profile succeed; any other format adds no file |
| Export.ExportedCsvImportsBack | internal/config/export.go:69-96 | The CSV file written by a successful export has records of equal width, which import back to the stored profile without its timestamp |
| ImportExport.NormalisedFormat | internal/commands/import_export.go:20-23 | The lower-cased format, with "yaml" for an empty one, is never empty |
| ImportExport.ExportCommand | internal/commands/import_export.go:12-47 | An empty name, an unknown format or a failed export is an error; otherwise the reported path |
| ImportExport.FormatAccepted | internal/commands/import_export.go:20-35 | Exactly "", "yaml", "yml", "csv" and "json" are accepted, in any case; "" and "yml" select YAML |
| ImportExport.ExportCommandSucceeds | internal/commands/import_export.go:12-47 | A successful export had a name and a YAML or CSV format; "json" always fails |
| ImportExport.YmlReportedPathDiffers | internal/commands/import_export.go:41-43 | For "yml" with no output path, the reported path differs from the file written |
| ImportExport.ImportRouteIff | internal/commands/import_export.go:59-86 | The JSON route is never taken; YAML and CSV are chosen exactly by a last four bytes of ".yml" or ".csv" in any case; paths of 1 to 4 bytes are invalid |
| ImportExport.LongExtensionsUnsupported | internal/commands/import_export.go:60-83 | A ".yaml" or ".json" file is refused as unsupported, reporting its last four bytes |
| ImportExport.ImportCommand | internal/commands/import_export.go:50-94 | The extension dispatch, with the importer's effect on the store and "imported" as the default reported name |
| ImportExport.ImportCommandSucceeds | internal/commands/import_export.go:50-94 | A successful import went through the YAML or CSV importer, stored the prepared record with cleaned users, and reports the argument or "imported" |
| Profiles.Truncate | internal/commands/profiles.go:96-99 | The created time is cut to at most 16 bytes and is a prefix of the original |
| Profiles.ListCommand | internal/commands/profiles.go:71-108 | A listing failure is an error; otherwise one row per listed profile, an error row for an unreadable one |
| Profiles.ProfileRows | internal/commands/profiles.go:89-103 | The loop yields exactly one row per listed name, in order, each as the row definition gives it |
| Profiles.ListedRows | internal/commands/profiles.go:89-103 | Each row carries its profile's name; for a non-empty name the row is an error row exactly when the file is not a record, and a readable row's time is a prefix of at most 16 bytes |
| Profiles.ShowCommand | internal/commands/profiles.go:111-140 | Shows a readable profile, the empty name meaning "default"; otherwise not found |
| Profiles.FileStoreDeleteFails | internal/commands/profiles.go:175-183 | When "profiles" is a file, a flat profile is neither "not found" nor removable, so deleting it reports "error deleting profile" |
| Profiles.DeleteCommand | internal/commands/profiles.go:143-187 | An empty name is an error and an answer other than "yes"/"y" does nothing; a profile directory is removed whole; otherwise a flat file that `os.Stat` reports missing is not found (a lookup failing with ENOTDIR because "profiles" is a file is not), a removable one (any file, or an empty directory) is removed alone with success, and a failed removal changes nothing |
| Profiles.StoredProfileRemovable | internal/commands/profiles.go:180-183 | A stored profile file is always removable, so a confirmed flat delete of it succeeds |
| Profiles.DirectoryDeleteKeepsFlatFile | internal/commands/profiles.go:166-173 | Removing the profile directory leaves the profile's flat file as it was |
| Profiles.FlatDeleteRemovesProfile | internal/commands/profiles.go:176-186 | After the flat file is removed, the profile can no longer be read and no other path changed |
| Deploy.GenerateFsctlCommands | internal/commands/deploy.go:148-219 | The walk loop yields the commands the step function defines for the walk |
| Deploy.GeneratedWellFormed | internal/commands/deploy.go:176-213 | No path is made twice, every touched file's parent is a base path or made by an earlier mkdir, no command targets a base path, and the remembered set is exactly the mkdir targets |
| Deploy.MkdirTargetsAppend | internal/commands/deploy.go:176 | The made directories of a concatenation are the union of both parts' |
| Deploy.NoRepeatAfterStep | internal/commands/deploy.go:198-212 | One step makes only directories not made before |
| Deploy.ParentsAfterStep | internal/commands/deploy.go:204-213 | One step keeps every touched file's parent prepared |
| Deploy.AvoidsBaseAfterStep | internal/commands/deploy.go:191-196 | One step never targets a base path |
| Deploy.TouchedAppend | internal/commands/deploy.go:204-213 | The touched files of a concatenation are both parts' in order |
| Deploy.MkdirTargetsAre | internal/commands/deploy.go:180-212 | The mkdir commands target exactly each relevant directory and each relevant file's parent that the base image lacks; failed entries and the root call for none |
| Deploy.MadeDirs | internal/commands/deploy.go:176-212 | The remembered directories after any prefix of the walk are exactly those its entries call for |
| Deploy.TouchesAreFiles | internal/commands/deploy.go:180-213 | Exactly the walk's files that are not failed, not the root and not base paths are touched, each once, in walk order |
| Deploy.TopLevelFileMakesRoot | internal/commands/deploy.go:204-213 | A top-level file is preceded by "mkdir /" |
| Deploy.FsctlInputLines | internal/commands/deploy.go:96-98 | The fsctl input splits into the commands, then "exit", then nothing |
| Deploy.RunDeploy | internal/commands/deploy.go:33-98 | The empty name means "default"; an unreadable profile, a non-classic type and a compose file `os.Stat` reports missing (not an ENOTDIR failure) are errors in that order; otherwise the container "otori-<name>" and the fsctl input of the walk |
| Deploy.DeployOnlyClassic | internal/commands/deploy.go:35-58 | A deployment goes ahead exactly for a readable "classic" profile whose compose file is not reported missing |
| Deploy.FileProfileDirPassesComposeCheck | internal/commands/deploy.go:55-58 | When the profile's directory is a file, the absent compose file is not reported missing, so the deployment goes ahead |
| StatusView.ClassifyStatus | internal/tui/status.go:252-263 | "Up" anywhere means active, checked before "Exited" means stopped, anything else is an error; only an active container has an uptime, its status minus a leading "Up " |
| StatusView.ParseLine | internal/tui/status.go:236-244 | A line yields an entry exactly when it is not empty and has at least two "|" fields |
| StatusView.GetRunningHoneypots | internal/tui/status.go:225-282 | A failed command gives nothing; otherwise the loop parses the trimmed output's lines in order |
| StatusView.ParsedHoneypotsShaped | internal/tui/status.go:246-276 | Every entry is a classic honeypot on port 2222, its server name its profile, its profile its container name without "otori-" |
| StatusView.ParsedHoneypotsCount | internal/tui/status.go:235-244 | One entry per parsable line: empty lines and lines with fewer than two fields are dropped |
| StatusView.ParseFormattedLine | internal/tui/status.go:229-263 | A `name|status|ports` line parses back to that container name and the classification of that status |
| StatusView.ContainerNameRoundTrip | internal/tui/status.go:250 | The container name "otori-<profile>" is read back as that profile |
| StatusView.ClassifyExamples | internal/tui/status.go:252-263 | "Up 2 hours" is active with uptime "2 hours", an "Exited" status is stopped, "Created" is an error |
| StatusView.StatusModel.constructor | internal/tui/status.go:46-51 | The screen starts with the indicator lit and not quitting |
| StatusView.StatusModel.Update | internal/tui/status.go:66-81 | q, ctrl+c and esc quit; a tick toggles the indicator and asks for the next one; anything else changes nothing |
| StatusCommand.AddStoppedProfiles | internal/commands/status.go:60-95 | A failed listing leaves the list unchanged; otherwise the running list is kept as a prefix and the stopped entries follow |
| StatusCommand.StoppedEntriesIff | internal/commands/status.go:68-92 | An entry is added exactly for a listed profile that is not running and whose record reads, shown as stopped under "otori-<profile>" on port 2222 |
| StatusCommand.StoppedEntryShape | internal/commands/status.go:82-89 | Every added entry is stopped, named "otori-<profile>", on port 2222, for a readable profile that is not running |
| StatusCommand.NoProfileTwice | internal/commands/status.go:68-92 | No profile appears both as running and as stopped |
| StatusCommand.FilterByProfile | internal/commands/status.go:32-40 | An empty filter keeps everything; otherwise the loop keeps the matching entries in order |
| StatusCommand.MatchingIff | internal/commands/status.go:32-40 | The filter keeps exactly the entries of the given profile |
| StatusCommand.MatchingAll | internal/commands/status.go:32-40 | The filter drops nothing when every entry matches |
| StatusCommand.StatusHoneypots | internal/commands/status.go:22-40 | The shown list is the running entries, with the stopped profiles under the flag, then filtered |
| Form.SetValueKeepsLayout | internal/tui/form.go:84-123 | Editing one text or select value keeps the five-field layout |
| Form.ServerFieldMatchesValidator | internal/tui/form.go:439-465 | The server-name field is refused exactly when the validator rejects its trimmed value, with the same first message |
| Form.ProfileFieldMatchesValidator | internal/tui/form.go:457-461 | The profile-name field accepts exactly the empty and the valid names, and what it accepts, after the "default" fallback, the validator accepts |
| Form.TypeFieldWeakerThanValidator | internal/tui/form.go:444-447 | A pre-filled "IA" passes the wizard but not the validator |
| Form.TypeFieldAccepts | internal/tui/form.go:444-447 | The type selector accepts a value exactly when it is not blank after trimming, so a padded " ia " is accepted and a blank one refused |
| Form.DefaultedName | internal/tui/form.go:492-496 | The recorded profile name is never empty and keeps a given name |
| Form.ListEntry | internal/tui/form.go:186-192 | A list entry is no longer than the input and neither starts nor ends with NUL |
| Form.Flushed | internal/tui/form.go:186-192 | A flush adds the cleaned pending entry when it is non-empty, and nothing otherwise |
| Form.FlushIgnoresBlank | internal/tui/form.go:186-192 | Input made of spaces and a NUL adds no user |
| Form.CleanedEntry | internal/tui/form.go:468-480 | A cleaned user has no control character and is no longer than the entry |
| Form.CleanUser | internal/tui/form.go:468-480 | The rune loop computes the cleaned entry |
| Form.CleanedEntryMayStartWithSpace | internal/tui/form.go:468-480 | Trimming first means a control character before a space leaves that space at the start |
| Form.WizardUsersIff | internal/tui/form.go:500-506 | A recorded user is exactly a non-empty cleaned list entry |
| Form.WizardUsersOfClean | internal/tui/form.go:500-506 | Clean entries are recorded unchanged and in order |
| Form.WizardRecord | internal/tui/form.go:483-511 | The record holds each field's value, "default" for an empty profile name, the cleaned users and no timestamp |
| Form.FormModel.constructor | internal/tui/form.go:61-130 | A new form has empty fields and type "classic"; an edited one is pre-filled, with the selector on "ia" exactly when the type reads "ia" in any case |
| Form.FormModel.CtrlC | internal/tui/form.go:142-144 | Cancels from any field and changes nothing else |
| Form.FormModel.CtrlD | internal/tui/form.go:146-165 | On the list field, flushes the pending input and always leaves the field or finishes; elsewhere does nothing |
| Form.FormModel.NextField | internal/tui/form.go:158-164 | Leaving a field moves to the next one, or, on the last field, finishes the form and quits; nothing else changes |
| Form.FormModel.ValidateCurrentField | internal/tui/form.go:439-465 | Trims the value in place and accepts exactly when the field check passes, setting the error message otherwise |
| Form.FormModel.Enter | internal/tui/form.go:167-215 | On the list field, adds pending input or leaves the field with no minimum count; on a text or select field, leaves it only when validation passes, otherwise keeps the index and sets the error |
| Form.FormModel.Up | internal/tui/form.go:217-231 | On the selector, one option back, clamped at the first, with the value following; elsewhere one field back, clamped at the first, clearing input and error, without validation |
| Form.FormModel.Down | internal/tui/form.go:233-247 | On the selector, one option on, clamped at the last, with the value following; elsewhere one field on, clamped at the last, clearing input and error, without validation |
| Form.FormModel.Backspace | internal/tui/form.go:249-261 | Drops the last byte of the pending list input on the list field and of the value elsewhere, the selector included |
| Form.FormModel.Other | internal/tui/form.go:263-271 | Appends the key to the list input or a text value; the selector ignores it |
| Form.FormModel.Update | internal/tui/form.go:138-275 | The form keeps its invariant; it quits exactly when it finished or was cancelled; only ctrl+c cancels; it finishes only on the last field |
| Form.FormModel.GetConfig | internal/tui/form.go:483-511 | The loop applies each field to a new record as the switch defines |
| Preview.PreviewModel.constructor | internal/tui/preview.go:21-26 | "Yes" is preselected and nothing is decided |
| Preview.PreviewModel.Update | internal/tui/preview.go:34-58 | ctrl+c cancels, left/h and right/l move the selector, Enter decides by it; on termination exactly one of confirmed and cancelled holds; other keys change nothing; the record is never modified |

## Left out

- **Rendering.** `View`, `renderCard`, the logo and all styling are presentation only.
- **Running processes.** The docker calls of `deploy`, `stop` and `status` are not modelled, nor are the three-second wait or the status screen's 800 ms tick timer. The `docker ps` output comes in as an `Option<string>`, where `None` means the command failed. Ticks come in as messages.
- **`deploy` after the checks.** `RunDeploy` stops at the plan: the profile, the container name and the fsctl input. Starting the containers and piping the input into fsctl are not modelled.
- **Encodings.** JSON, YAML and CSV are not encoded. The store holds record values (`Record`, `Yaml`) and CSV as rows of cells. A file that does not hold the expected kind of node stands for one that fails to decode. A `Csv` node holds the records as written; `csv.Reader.ReadAll` refuses records narrower or wider than the first, so `ImportCSV` reports such a file, like a directory (which opens on Linux but cannot be read), as "error reading CSV". Quoting and other CSV syntax errors are not modelled, nor is the reader's rewriting of "\r\n" inside a quoted cell to "\n": the CSV round-trip lemmas hold for cells without "\r\n". Encoding errors, which cannot occur for these records, are not modelled.
- **Operating-system errors.** They are wrapped with `%w` in Go; the model keeps only the fixed message prefix. Permissions, partial writes and atomicity are not modelled.
- **Paths.** `filepath.Join` is modelled as joining with "/" without cleaning. `MkdirAll` makes the one directory it is given. In particular `profiles delete` on a name such as "a/.." (which Go resolves to the whole "profiles" store and removes it) or ".." (where Go's `os.RemoveAll` refuses "." and reports "error deleting profile directory") is reported "not found" by the model. `os.Stat`'s "does not exist" is read as: the path is absent and no path above it is a file (ENOTDIR otherwise), which assumes every stored path's parents are stored as directories.
- **The honeyfs walk.** It is an input sequence of entries, each with a relative path, a directory flag and a failure flag. An error from `filepath.Rel` is not modelled, because the walk only visits paths under its root.
- **Time.** The timestamp is a parameter.
- **Command-line glue.** The cobra wiring, flags, printing, `os.Exit`, the JSON output of `status` and the read of the confirmation answer are not modelled. The answer is a parameter of `DeleteCommand`.
- **init.go and edit.go.** They only sequence the wizard, the preview, validation and writing.
- **`GetConfigDir`.** It is not part of the source shown. The store root is the constant "profiles", which is what `getConfigDir` returns.
- **Non-ASCII text.** Unicode case folding and Unicode white space are not modelled.
- **Nil and empty lists.** The model does not tell a nil list from an empty one. These differ only in the JSON they encode to.
- **The form's `config` field.** `createModel` allocates a record for it and nothing reads it. It is not modelled.
- **Non-key messages.** The form and the preview ignore messages that are not keys. Their `Update` takes the key's name.
- Form.FormModel.Update: states the form invariant, termination and cancellation only. The per-key effects are stated on the methods it dispatches to.
- Profiles.ListedRows: says nothing about the file of an entry named ".json". That entry is listed under the empty name, and reading the empty name reads "default".
