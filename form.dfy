/** The profile wizard (internal/tui/form.go): five fields filled in one
    after the other, driven by key events, and the record built from them.
    Rendering is outside the model. */
module Form {
  import opened Text
  import opened Results
  import opened Models
  import opened Validator

  datatype FieldType = TextField | SelectField | ListField

  /** One field of the wizard; only `value` changes while it runs. */
  datatype Field = Field(
    name: string,
    caption: string,
    value: string,
    placeholder: string,
    required: bool,
    fieldType: FieldType,
    options: seq<string>)

  const TypeOptions: seq<string> := ["classic", "ia"]

  /** The index of the last field (users). */
  const LastField: int := 4

  /** The field names `GetConfig` and the validation dispatch on. */
  const KeyType: string := "type"
  const KeyServer: string := "serverName"
  const KeyProfile: string := "profileName"
  const KeyCompany: string := "company"
  const KeyUsers: string := "users"

  const ServerCaption: string := "Server name"
  const UsersPlaceholder: string := "one per line (Enter to add, Ctrl+D to finish)"

  /** The messages `validateCurrentField` gives besides "<caption> is required". */
  const ServerTooShortHint: string := "Server name must be at least 3 characters"
  const ProfileCharsHint: string := "Use only letters, numbers, hyphens and underscores"

  /** The five fields `createModel` builds, with the given pre-filled values. */
  function Layout(typeValue: string, serverValue: string, profileValue: string, companyValue: string): seq<Field> {
    [ Field(KeyType, "Profile type", typeValue, "", true, SelectField, TypeOptions),
      Field(KeyServer, ServerCaption, serverValue, "e.g. my-server", true, TextField, []),
      Field(KeyProfile, "Profile name", profileValue, "default if empty", false, TextField, []),
      Field(KeyCompany, "Company", companyValue, "optional", false, TextField, []),
      Field(KeyUsers, "Users", "", UsersPlaceholder, false, ListField, []) ]
  }

  /** The fields are the wizard's five, whatever has been typed into them. */
  predicate SameLayout(fields: seq<Field>) {
    |fields| == 5 && fields == Layout(fields[0].value, fields[1].value, fields[2].value, fields[3].value)
  }

  /** Changing one value keeps the layout; the list field's value stays
      empty. */
  lemma SetValueKeepsLayout(fields: seq<Field>, i: int, v: string)
    requires SameLayout(fields) && 0 <= i < 5 && (i == 4 ==> v == "")
    ensures SameLayout(fields[i := fields[i].(value := v)])
  {
    var f := fields[i := fields[i].(value := v)];
    var a, b, c, d := fields[0].value, fields[1].value, fields[2].value, fields[3].value;
    if i == 0 {
      assert f == Layout(v, b, c, d);
    } else if i == 1 {
      assert f == Layout(a, v, c, d);
    } else if i == 2 {
      assert f == Layout(a, b, v, d);
    } else if i == 3 {
      assert f == Layout(a, b, c, v);
    } else {
      assert f == fields;
    }
  }

  /** The selector position kept for a field name; a missing name reads as 0,
      as a Go map does. */
  function SelectIndexOf(selectIndex: map<string, int>, name: string): int {
    if name in selectIndex then selectIndex[name] else 0
  }

  // ---------------------------------------------------------------------------
  // Field validation
  // ---------------------------------------------------------------------------

  /** The message `validateCurrentField` gives for a field, judged on its
      trimmed value, or `None` when the field is accepted. */
  function FieldError(f: Field): Option<string> {
    var value := TrimSpace(f.value);
    if f.required && value == "" then Some(f.caption + " is required")
    else if f.name == KeyServer && |value| < 3 then Some(ServerTooShortHint)
    else if f.name == KeyProfile && |value| > 0 && !ProfileNameShape(value) then Some(ProfileCharsHint)
    else None
  }

  /** The server-name field and the validator agree: the field is refused
      exactly when the validator reports an error for its trimmed value, and
      with the same first message. */
  lemma ServerFieldMatchesValidator(v: string)
    ensures var errs := ServerNameErrors(TrimSpace(v));
            FieldError(Layout("", v, "", "")[1]) == if errs == [] then None else Some(errs[0].Message)
  {
    assert ServerCaption + " is required" == "Server name is required";
  }

  /** A profile-name field the wizard accepts yields, after `GetConfig`'s
      "default" fallback, a name the validator accepts; and an empty field is
      accepted. */
  lemma ProfileFieldMatchesValidator(v: string)
    ensures FieldError(Layout("", "", v, "")[2]).None? <==> TrimSpace(v) == "" || ProfileNameShape(TrimSpace(v))
    ensures FieldError(Layout("", "", v, "")[2]).None? ==>
              ProfileNameErrors(DefaultedName(TrimSpace(v))) == []
  {
    assert ProfileNameShape("default") by {
      assert forall k | 0 <= k < 7 :: IsNameChar("default"[k]);
    }
  }

  /** The type selector only demands a value: a pre-filled "IA" passes the
      wizard but not the validator. */
  lemma TypeFieldWeakerThanValidator()
    ensures FieldError(Layout("IA", "", "", "")[0]).None?
    ensures TypeErrors("IA") != []
  {
    var t := "IA";
    assert IsTrimmed(t);
    assert TrimSpace(t) == t;
    TypeFieldAccepts(t);
    assert t[0] == 'I';
    assert t != "classic" && t != "ia";
  }

  /** The type selector accepts exactly the values that are not blank,
      padded ones included. */
  lemma TypeFieldAccepts(t: string)
    ensures FieldError(Layout(t, "", "", "")[0]).None? <==> TrimSpace(t) != ""
  {
    var f := Layout(t, "", "", "")[0];
    assert f.name == KeyType && f.required;
    assert KeyType != KeyServer && KeyType != KeyProfile;
  }

  /** The profile name `GetConfig` records for a field value. */
  function DefaultedName(v: string): (r: string)
    ensures r != ""
    ensures v != "" ==> r == v
  {
    if v == "" then "default" else v
  }

  // ---------------------------------------------------------------------------
  // The user list
  // ---------------------------------------------------------------------------

  /** A pending list entry as Enter and ctrl+d clean it: white space, then
      NUL characters, trimmed from both ends. */
  function ListEntry(s: string): (r: string)
    ensures |r| <= |s|
    ensures r == [] || (r[0] != '\0' && r[|r| - 1] != '\0')
  {
    TrimChar(TrimSpace(s), '\0')
  }

  /** The user list after the pending input is flushed. */
  function Flushed(users: seq<string>, input: string): (r: seq<string>)
    ensures r == users || (input != "" && r == users + [ListEntry(input)] && ListEntry(input) != "")
  {
    if input == "" then users
    else if ListEntry(input) != "" then users + [ListEntry(input)]
    else users
  }

  /** A flush adds nothing for input that is all white space and NUL
      characters. */
  lemma FlushIgnoresBlank(users: seq<string>, n: nat)
    ensures Flushed(users, seq(n, _ => ' ') + ['\0']) == users
  {
    TrimSpaceOfSpaces(n, ['\0']);
    assert TrimChar(['\0'], '\0') == [];
  }

  /** Leading spaces do not change what `TrimSpace` keeps. */
  lemma {:induction false} TrimSpaceOfSpaces(n: nat, rest: string)
    requires rest != []
    ensures TrimSpace(seq(n, _ => ' ') + rest) == TrimSpace(rest)
  {
    if n > 0 {
      var s := seq(n, _ => ' ') + rest;
      assert s[1..] == seq(n - 1, _ => ' ') + rest;
      TrimSpaceOfSpaces(n - 1, rest);
    } else {
      assert seq(n, _ => ' ') + rest == rest;
    }
  }

  /** `cleanUser`'s result: the trimmed entry with its control characters
      dropped. */
  function CleanedEntry(user: string): (r: string)
    ensures NoControl(r) && |r| <= |user|
  {
    Printable(TrimSpace(user))
  }

  /** `cleanUser`: trims, then keeps the printable runes one by one. */
  method CleanUser(user: string) returns (r: string)
    ensures r == CleanedEntry(user)
  {
    var cleaned := TrimSpace(user);
    r := "";
    for i := 0 to |cleaned|
      invariant r == Printable(cleaned[..i])
    {
      assert cleaned[..i + 1][..i] == cleaned[..i];
      if cleaned[i] as int >= 32 && cleaned[i] as int != 127 {
        r := r + [cleaned[i]];
      }
    }
    assert cleaned[..|cleaned|] == cleaned;
  }

  /** Trimming comes first, so a control character in front of a space
      leaves that space at the start of the cleaned user. */
  lemma CleanedEntryMayStartWithSpace()
    ensures CleanedEntry("\U{01} a") == " a"
  {
    var s := "\U{01} a";
    assert IsTrimmed(s);
    assert s[..1] == "\U{01}" && s[..2] == "\U{01} " && s[..2][..1] == s[..1] && s[..1][..0] == [];
    assert Printable(s[..1]) == "";
    assert Printable(s[..2]) == " ";
    assert Printable(s) == Printable(s[..2]) + "a";
  }

  /** The users `GetConfig` records: each entry cleaned, the empty ones
      dropped, in list order. */
  function WizardUsers(listUsers: seq<string>): (r: seq<string>)
    ensures |r| <= |listUsers|
  {
    if listUsers == [] then []
    else
      var c := CleanedEntry(listUsers[|listUsers| - 1]);
      WizardUsers(listUsers[..|listUsers| - 1]) + (if c != "" then [c] else [])
  }

  /** A recorded user is the cleaned form of a list entry and is not empty;
      every non-empty cleaned entry is recorded. */
  lemma {:induction false} WizardUsersIff(listUsers: seq<string>, u: string)
    ensures u in WizardUsers(listUsers) <==>
              u != "" && exists k | 0 <= k < |listUsers| :: CleanedEntry(listUsers[k]) == u
  {
    if listUsers != [] {
      var init := listUsers[..|listUsers| - 1];
      WizardUsersIff(init, u);
      assert listUsers == init + [listUsers[|listUsers| - 1]];
      if u != "" && exists k | 0 <= k < |listUsers| :: CleanedEntry(listUsers[k]) == u {
        var k :| 0 <= k < |listUsers| && CleanedEntry(listUsers[k]) == u;
        if k < |init| {
          assert CleanedEntry(init[k]) == u;
        }
      }
    }
  }

  /** Entries that are already clean are recorded unchanged and in order. */
  lemma {:induction false} WizardUsersOfClean(listUsers: seq<string>)
    requires forall k | 0 <= k < |listUsers| :: listUsers[k] != "" && IsTrimmed(listUsers[k]) && NoControl(listUsers[k])
    ensures WizardUsers(listUsers) == listUsers
  {
    if listUsers != [] {
      var init := listUsers[..|listUsers| - 1];
      WizardUsersOfClean(init);
      assert listUsers == init + [listUsers[|listUsers| - 1]];
    }
  }

  // ---------------------------------------------------------------------------
  // GetConfig
  // ---------------------------------------------------------------------------

  /** What `GetConfig`'s switch does with one field. */
  function ApplyField(cfg: Config, f: Field, listUsers: seq<string>): Config {
    if f.name == KeyType then cfg.(Type := f.value)
    else if f.name == KeyServer then cfg.(ServerName := f.value)
    else if f.name == KeyProfile then cfg.(ProfileName := DefaultedName(f.value))
    else if f.name == KeyCompany then cfg.(Company := f.value)
    else if f.name == KeyUsers then cfg.(Users := cfg.Users + WizardUsers(listUsers))
    else cfg
  }

  /** The record after the first `n` fields were applied to `NewConfig()`. */
  function Filled(fields: seq<Field>, listUsers: seq<string>, n: nat): Config
    requires n <= |fields|
  {
    if n == 0 then NewConfig()
    else ApplyField(Filled(fields, listUsers, n - 1), fields[n - 1], listUsers)
  }

  /** The record the wizard's five fields give: each field's value, the
      empty profile name read as "default", the cleaned users, no timestamp. */
  lemma WizardRecord(fields: seq<Field>, listUsers: seq<string>)
    requires SameLayout(fields)
    ensures Filled(fields, listUsers, 5) ==
              Config(fields[0].value, fields[1].value, DefaultedName(fields[2].value), fields[3].value,
                     WizardUsers(listUsers), "")
  {
    assert Filled(fields, listUsers, 1) == NewConfig().(Type := fields[0].value);
    assert Filled(fields, listUsers, 2) == Filled(fields, listUsers, 1).(ServerName := fields[1].value);
    assert Filled(fields, listUsers, 3) == Filled(fields, listUsers, 2).(ProfileName := DefaultedName(fields[2].value));
    assert Filled(fields, listUsers, 4) == Filled(fields, listUsers, 3).(Company := fields[3].value);
    assert [] + WizardUsers(listUsers) == WizardUsers(listUsers);
  }

  // ---------------------------------------------------------------------------
  // The form
  // ---------------------------------------------------------------------------

  /** After Enter or ctrl+d leaves field `from`: the next field, or the form
      finished (and the program told to quit) on the last one. */
  predicate Advanced(from: int, current: int, finished: bool, quit: bool) {
    if from < LastField then current == from + 1 && !finished && !quit
    else current == from && finished && quit
  }

  class FormModel {
    var currentField: int
    var fields: seq<Field>
    var selectIndex: map<string, int>
    var listInput: string
    var listUsers: seq<string>
    var finished: bool
    var cancelled: bool
    var err: string

    /** The form's invariant: the five fields, a current index among them,
        and a type selector position among the options. */
    predicate Valid()
      reads this`fields, this`currentField, this`selectIndex
    {
      && SameLayout(fields)
      && 0 <= currentField <= LastField
      && KeyType in selectIndex
      && 0 <= selectIndex[KeyType] < |TypeOptions|
    }

    /** No quit has been issued yet, so key events still arrive. */
    predicate Running()
      reads this`finished, this`cancelled
    {
      !finished && !cancelled
    }

    /** `createModel`: empty fields and the "classic" type for a new profile,
        or the fields of `cfg` when editing one; the selector is on "ia"
        exactly when the type reads "ia" in any case. */
    constructor (cfg: Option<Config>)
      ensures Valid() && Running()
      ensures currentField == 0 && listInput == "" && err == ""
      ensures cfg.None? ==>
                fields == Layout("classic", "", "", "") && listUsers == [] && selectIndex == map[KeyType := 0]
      ensures cfg.Some? ==>
                && fields == Layout(cfg.value.Type, cfg.value.ServerName, cfg.value.ProfileName, cfg.value.Company)
                && listUsers == cfg.value.Users
                && selectIndex == map[KeyType := if Lower(cfg.value.Type) == "ia" then 1 else 0]
    {
      var typeValue := "classic";
      var serverValue := "";
      var profileValue := "";
      var companyValue := "";
      var usersList: seq<string> := [];
      var selectTypeIndex := 0;
      if cfg.Some? {
        typeValue := cfg.value.Type;
        serverValue := cfg.value.ServerName;
        profileValue := cfg.value.ProfileName;
        companyValue := cfg.value.Company;
        usersList := cfg.value.Users;
        if Lower(typeValue) == "ia" {
          selectTypeIndex := 1;
        }
      }
      currentField := 0;
      fields := Layout(typeValue, serverValue, profileValue, companyValue);
      selectIndex := map[KeyType := selectTypeIndex];
      listInput := "";
      listUsers := usersList;
      finished := false;
      cancelled := false;
      err := "";
    }

    /** ctrl+c: cancels from any field; nothing else changes. */
    method CtrlC() returns (quit: bool)
      requires Valid() && Running()
      modifies this
      ensures Valid() && cancelled && quit
      ensures finished == old(finished) && currentField == old(currentField) && fields == old(fields)
      ensures selectIndex == old(selectIndex) && listInput == old(listInput) && listUsers == old(listUsers)
      ensures err == old(err)
    {
      cancelled := true;
      return true;
    }

    /** ctrl+d: on the list field, flushes the pending input and then always
        leaves the field; on any other field it does nothing. */
    method CtrlD() returns (quit: bool)
      requires Valid() && Running()
      modifies this
      ensures Valid() && !cancelled
      ensures fields == old(fields) && selectIndex == old(selectIndex) && err == old(err)
      ensures old(fields[currentField].fieldType) != ListField ==>
                && !quit && !finished && currentField == old(currentField)
                && listInput == old(listInput) && listUsers == old(listUsers)
      ensures old(fields[currentField].fieldType) == ListField ==>
                && listUsers == Flushed(old(listUsers), old(listInput))
                && listInput == ""
                && Advanced(old(currentField), currentField, finished, quit)
    {
      quit := false;
      if fields[currentField].fieldType == ListField {
        if listInput != "" {
          var cleaned := TrimSpace(listInput);
          cleaned := TrimChar(cleaned, '\0');
          if cleaned != "" {
            listUsers := listUsers + [cleaned];
          }
          listInput := "";
        }
        quit := NextField();
      }
    }

    /** Leaving the current field, as Enter and ctrl+d do it: the next field,
        or, on the last one, the form finished and the program told to quit. */
    method NextField() returns (quit: bool)
      requires Valid() && !finished
      modifies this
      ensures Valid() && Advanced(old(currentField), currentField, finished, quit)
      ensures fields == old(fields) && selectIndex == old(selectIndex) && err == old(err)
      ensures listInput == old(listInput) && listUsers == old(listUsers) && cancelled == old(cancelled)
    {
      if currentField < |fields| - 1 {
        currentField := currentField + 1;
        return false;
      } else {
        finished := true;
        return true;
      }
    }

    /** `validateCurrentField`: trims the current value in place, then
        reports whether the field is accepted, setting `err` when not. */
    method ValidateCurrentField() returns (ok: bool)
      requires Valid()
      modifies this
      ensures Valid()
      ensures var f := old(fields[currentField]);
              && fields == old(fields)[currentField := f.(value := TrimSpace(f.value))]
              && (ok <==> FieldError(f).None?)
              && (ok ==> err == old(err))
              && (!ok ==> err == FieldError(f).value)
      ensures currentField == old(currentField) && selectIndex == old(selectIndex)
      ensures listInput == old(listInput) && listUsers == old(listUsers)
      ensures finished == old(finished) && cancelled == old(cancelled)
    {
      var field := fields[currentField];
      var value := TrimSpace(field.value);
      assert currentField == LastField ==> field.value == "" && value == "";
      SetValueKeepsLayout(fields, currentField, value);
      field := field.(value := value);
      fields := fields[currentField := field];
      ok := true;
      if field.required && value == "" {
        err := field.caption + " is required";
        ok := false;
      } else if field.name == KeyServer {
        if |value| < 3 {
          err := ServerTooShortHint;
          ok := false;
        }
      } else if field.name == KeyProfile {
        if |value| > 0 {
          var valid := IsValidProfileName(value);
          if !valid {
            err := ProfileCharsHint;
            ok := false;
          }
        }
      }
    }

    /** Enter. On the list field: a pending entry is added (when it is not
        blank) and the field kept; with no pending input the field is left.
        On a text or select field: the value is trimmed, and the field is left
        only when it is accepted, `err` being cleared then and set otherwise. */
    method Enter() returns (quit: bool)
      requires Valid() && Running()
      modifies this
      ensures Valid() && !cancelled && selectIndex == old(selectIndex)
      ensures old(fields[currentField].fieldType) == ListField ==>
                && fields == old(fields) && err == old(err) && listInput == ""
                && (old(listInput) != "" ==>
                      listUsers == Flushed(old(listUsers), old(listInput))
                      && currentField == old(currentField) && !finished && !quit)
                && (old(listInput) == "" ==>
                      listUsers == old(listUsers) && Advanced(old(currentField), currentField, finished, quit))
      ensures old(fields[currentField].fieldType) != ListField ==>
                var f := old(fields[currentField]);
                && fields == old(fields)[old(currentField) := f.(value := TrimSpace(f.value))]
                && listInput == old(listInput) && listUsers == old(listUsers)
                && (FieldError(f).Some? ==>
                      err == FieldError(f).value && currentField == old(currentField) && !finished && !quit)
                && (FieldError(f).None? ==> err == "" && Advanced(old(currentField), currentField, finished, quit))
    {
      quit := false;
      var fieldType := fields[currentField].fieldType;
      if fieldType == ListField {
        if listInput != "" {
          var cleaned := TrimSpace(listInput);
          cleaned := TrimChar(cleaned, '\0');
          if cleaned != "" {
            listUsers := listUsers + [cleaned];
          }
          listInput := "";
        } else {
          quit := NextField();
        }
      } else {
        var ok := ValidateCurrentField();
        if ok {
          err := "";
          quit := NextField();
        }
      }
    }

    /** Up. On the select field: one option back, stopping at the first, the
        value following the selector. Elsewhere: one field back, stopping at
        the first, clearing the pending input and the error; no validation. */
    method Up()
      requires Valid() && Running()
      modifies this
      ensures Valid() && Running() && listUsers == old(listUsers)
      ensures old(fields[currentField].fieldType) == SelectField ==>
                var name := old(fields[currentField].name);
                var idx := SelectIndexOf(old(selectIndex), name);
                && currentField == old(currentField) && listInput == old(listInput) && err == old(err)
                && (idx > 0 ==>
                      && selectIndex == old(selectIndex)[name := idx - 1]
                      && fields == old(fields)[currentField := old(fields[currentField]).(value := TypeOptions[idx - 1])])
                && (idx <= 0 ==> selectIndex == old(selectIndex) && fields == old(fields))
      ensures old(fields[currentField].fieldType) != SelectField ==>
                && fields == old(fields) && selectIndex == old(selectIndex)
                && (old(currentField) > 0 ==> currentField == old(currentField) - 1 && listInput == "" && err == "")
                && (old(currentField) == 0 ==>
                      currentField == 0 && listInput == old(listInput) && err == old(err))
    {
      var field := fields[currentField];
      if field.fieldType == SelectField {
        var idx := SelectIndexOf(selectIndex, field.name);
        if idx > 0 {
          idx := idx - 1;
          selectIndex := selectIndex[field.name := idx];
          fields := fields[currentField := field.(value := field.options[idx])];
        }
      } else if currentField > 0 {
        currentField := currentField - 1;
        listInput := "";
        err := "";
      }
    }

    /** Down. On the select field: one option on, stopping at the last, the
        value following the selector. Elsewhere: one field on, stopping at the
        last, clearing the pending input and the error; no validation. */
    method Down()
      requires Valid() && Running()
      modifies this
      ensures Valid() && Running() && listUsers == old(listUsers)
      ensures old(fields[currentField].fieldType) == SelectField ==>
                var name := old(fields[currentField].name);
                var idx := SelectIndexOf(old(selectIndex), name);
                && currentField == old(currentField) && listInput == old(listInput) && err == old(err)
                && (idx < |TypeOptions| - 1 ==>
                      && selectIndex == old(selectIndex)[name := idx + 1]
                      && fields == old(fields)[currentField := old(fields[currentField]).(value := TypeOptions[idx + 1])])
                && (idx >= |TypeOptions| - 1 ==> selectIndex == old(selectIndex) && fields == old(fields))
      ensures old(fields[currentField].fieldType) != SelectField ==>
                && fields == old(fields) && selectIndex == old(selectIndex)
                && (old(currentField) < LastField ==>
                      currentField == old(currentField) + 1 && listInput == "" && err == "")
                && (old(currentField) == LastField ==>
                      currentField == LastField && listInput == old(listInput) && err == old(err))
    {
      var field := fields[currentField];
      if field.fieldType == SelectField {
        var idx := SelectIndexOf(selectIndex, field.name);
        if idx < |field.options| - 1 {
          idx := idx + 1;
          selectIndex := selectIndex[field.name := idx];
          fields := fields[currentField := field.(value := field.options[idx])];
        }
      } else if currentField < |fields| - 1 {
        currentField := currentField + 1;
        listInput := "";
        err := "";
      }
    }

    /** Backspace: drops the last byte of the pending list input on the list
        field, and of the value on any other field, the selector included. */
    method Backspace()
      requires Valid() && Running()
      modifies this
      ensures Valid() && Running()
      ensures currentField == old(currentField) && selectIndex == old(selectIndex) && listUsers == old(listUsers)
      ensures old(fields[currentField].fieldType) == ListField ==>
                && fields == old(fields)
                && (old(listInput) != "" ==> listInput == old(listInput)[..|old(listInput)| - 1] && err == "")
                && (old(listInput) == "" ==> listInput == "" && err == old(err))
      ensures old(fields[currentField].fieldType) != ListField ==>
                var f := old(fields[currentField]);
                && listInput == old(listInput)
                && (f.value != "" ==>
                      fields == old(fields)[currentField := f.(value := f.value[..|f.value| - 1])] && err == "")
                && (f.value == "" ==> fields == old(fields) && err == old(err))
    {
      var field := fields[currentField];
      if field.fieldType == ListField {
        if |listInput| > 0 {
          listInput := listInput[..|listInput| - 1];
          err := "";
        }
      } else {
        if |field.value| > 0 {
          fields := fields[currentField := field.(value := field.value[..|field.value| - 1])];
          err := "";
        }
      }
    }

    /** Any other key: its name is appended to the pending list input or to a
        text value; the selector ignores it. */
    method Other(key: string)
      requires Valid() && Running()
      modifies this
      ensures Valid() && Running()
      ensures currentField == old(currentField) && selectIndex == old(selectIndex) && listUsers == old(listUsers)
      ensures old(fields[currentField].fieldType) == ListField ==>
                fields == old(fields) && listInput == old(listInput) + key && err == ""
      ensures old(fields[currentField].fieldType) == TextField ==>
                var f := old(fields[currentField]);
                fields == old(fields)[currentField := f.(value := f.value + key)] && listInput == old(listInput) && err == ""
      ensures old(fields[currentField].fieldType) == SelectField ==>
                fields == old(fields) && listInput == old(listInput) && err == old(err)
    {
      var field := fields[currentField];
      if field.fieldType == ListField {
        listInput := listInput + key;
        err := "";
      } else if field.fieldType != SelectField {
        fields := fields[currentField := field.(value := field.value + key)];
        err := "";
      }
    }

    /** `Update` for one key event, by the key's name; the result says
        whether the program was told to quit. */
    method Update(key: string) returns (quit: bool)
      requires Valid() && Running()
      modifies this
      ensures Valid()
      ensures quit <==> !Running()
      ensures key == "ctrl+c" ==> cancelled && !finished
      ensures key != "ctrl+c" ==> !cancelled
      ensures finished ==> key in {"ctrl+d", "enter"} && old(currentField) == LastField
    {
      quit := false;
      if key == "ctrl+c" {
        quit := CtrlC();
      } else if key == "ctrl+d" {
        quit := CtrlD();
      } else if key == "enter" {
        quit := Enter();
      } else if key == "up" {
        Up();
      } else if key == "down" {
        Down();
      } else if key == "backspace" {
        Backspace();
      } else {
        Other(key);
      }
    }

    /** `GetConfig`: the record the fields describe. */
    method GetConfig() returns (cfg: Config)
      ensures cfg == Filled(fields, listUsers, |fields|)
    {
      cfg := NewConfig();
      for i := 0 to |fields|
        invariant cfg == Filled(fields, listUsers, i)
      {
        var field := fields[i];
        if field.name == KeyType {
          cfg := cfg.(Type := field.value);
        } else if field.name == KeyServer {
          cfg := cfg.(ServerName := field.value);
        } else if field.name == KeyProfile {
          cfg := cfg.(ProfileName := field.value);
          if cfg.ProfileName == "" {
            cfg := cfg.(ProfileName := "default");
          }
        } else if field.name == KeyCompany {
          cfg := cfg.(Company := field.value);
        } else if field.name == KeyUsers {
          ghost var base := cfg;
          for j := 0 to |listUsers|
            invariant cfg == base.(Users := base.Users + WizardUsers(listUsers[..j]))
          {
            assert listUsers[..j + 1][..j] == listUsers[..j];
            var cleaned := CleanUser(listUsers[j]);
            ghost var added := if cleaned != "" then [cleaned] else [];
            assert WizardUsers(listUsers[..j + 1]) == WizardUsers(listUsers[..j]) + added;
            assert base.Users + WizardUsers(listUsers[..j + 1]) == base.Users + WizardUsers(listUsers[..j]) + added;
            if cleaned != "" {
              cfg := cfg.(Users := cfg.Users + [cleaned]);
            }
          }
          assert listUsers[..|listUsers|] == listUsers;
        }
      }
    }

    /** `IsFinished`. */
    function IsFinished(): (r: bool)
      reads this
      ensures r == finished
    {
      finished
    }

    /** `IsCancelled`. */
    function IsCancelled(): (r: bool)
      reads this
      ensures r == cancelled
    {
      cancelled
    }
  }
}
