/** Profile validation (internal/config/validator.go). */
module Validator {
  import opened Text
  import opened Results
  import opened Models

  datatype ValidationError = ValidationError(Field: string, Message: string)

  const TypeRequired := "Type is required"
  const TypeUnknown := "Type must be 'classic' or 'ia'"
  const ServerRequired := "Server name is required"
  const ServerTooShort := "Server name must be at least 3 characters"
  const ProfileRequired := "Profile name is required"
  const ProfileMalformed := "Profile name must contain only alphanumeric characters, hyphens and underscores"

  // ---------------------------------------------------------------------------
  // Profile names
  // ---------------------------------------------------------------------------

  predicate IsNameChar(c: char) {
    ('a' <= c <= 'z') || ('A' <= c <= 'Z') || ('0' <= c <= '9') || c == '-' || c == '_'
  }

  /** The shape a profile name must have: 1 to 100 bytes drawn from
      `[A-Za-z0-9_-]`. */
  predicate ProfileNameShape(name: string) {
    1 <= |name| <= 100 && forall k | 0 <= k < |name| :: IsNameChar(name[k])
  }

  /** `IsValidProfileName`: rejects the empty name and names over 100 bytes,
      then scans the characters and stops at the first one outside the class. */
  method IsValidProfileName(name: string) returns (ok: bool)
    ensures ok <==> ProfileNameShape(name)
  {
    if name == [] || |name| > 100 {
      return false;
    }
    var i := 0;
    while i < |name|
      invariant 0 <= i <= |name|
      invariant forall k | 0 <= k < i :: IsNameChar(name[k])
    {
      if !IsNameChar(name[i]) {
        return false;
      }
      i := i + 1;
    }
    return true;
  }

  /** A well-shaped name has no path separator and no dot, so it names one
      file directly inside the profile directory. */
  lemma ShapedNameIsPlain(name: string)
    requires ProfileNameShape(name)
    ensures '/' !in name && '.' !in name && name != ""
  {
  }

  // ---------------------------------------------------------------------------
  // The rules, field by field
  // ---------------------------------------------------------------------------

  function TypeErrors(t: string): seq<ValidationError> {
    if t == "" then [ValidationError("Type", TypeRequired)]
    else if t != "classic" && t != "ia" then [ValidationError("Type", TypeUnknown)]
    else []
  }

  function ServerNameErrors(s: string): seq<ValidationError> {
    if s == "" then [ValidationError("ServerName", ServerRequired)]
    else if |s| < 3 then [ValidationError("ServerName", ServerTooShort)]
    else []
  }

  function ProfileNameErrors(p: string): seq<ValidationError> {
    if p == "" then [ValidationError("ProfileName", ProfileRequired)]
    else if !ProfileNameShape(p) then
      [ValidationError("ProfileName", ProfileMalformed)]
    else []
  }

  function DuplicateError(user: string): ValidationError {
    ValidationError("Users", "Duplicate user '" + user + "'")
  }

  /** `users[i]` is non-empty and an earlier non-empty user has the same
      lower-case form. */
  predicate IsRepeat(users: seq<string>, i: nat)
    requires i < |users|
  {
    users[i] != "" && exists j | 0 <= j < i :: users[j] != "" && Lower(users[j]) == Lower(users[i])
  }

  /** One error per repeated user among the first `n`, quoting the later
      literal, in list order. */
  function DuplicateErrors(users: seq<string>, n: nat): seq<ValidationError>
    requires n <= |users|
  {
    if n == 0 then []
    else DuplicateErrors(users, n - 1) + (if IsRepeat(users, n - 1) then [DuplicateError(users[n - 1])] else [])
  }

  /** Everything `ValidateConfig` reports, in the order it reports it. */
  function ValidationErrors(c: Config): seq<ValidationError> {
    TypeErrors(c.Type) + ServerNameErrors(c.ServerName) + ProfileNameErrors(c.ProfileName)
      + DuplicateErrors(c.Users, |c.Users|)
  }

  // ---------------------------------------------------------------------------
  // ValidateConfig and ProfileExists
  // ---------------------------------------------------------------------------

  /** `ValidateConfig`: every rule is evaluated; the user loop remembers the
      lower-case form of each non-empty user it has seen. */
  method ValidateConfig(c: Config) returns (errors: seq<ValidationError>)
    ensures errors == ValidationErrors(c)
  {
    // The type and server-name rules, each an if/else-if append.
    errors := TypeErrors(c.Type) + ServerNameErrors(c.ServerName);

    if c.ProfileName == "" {
      errors := errors + [ValidationError("ProfileName", ProfileRequired)];
    } else {
      var ok := IsValidProfileName(c.ProfileName);
      if !ok {
        errors := errors + [ValidationError("ProfileName", ProfileMalformed)];
      }
    }

    ghost var fieldErrors := errors;
    assert fieldErrors == TypeErrors(c.Type) + ServerNameErrors(c.ServerName) + ProfileNameErrors(c.ProfileName);
    var uniqueUsers: set<string> := {};
    ghost var dups: seq<ValidationError> := [];
    var i := 0;
    while i < |c.Users|
      invariant 0 <= i <= |c.Users|
      invariant uniqueUsers == SeenLower(c.Users, i)
      invariant dups == DuplicateErrors(c.Users, i)
      invariant errors == fieldErrors + dups
    {
      SeenLowerStep(c.Users, i);
      var user := c.Users[i];
      if user != "" {
        var lowerUser := Lower(user);
        RepeatIffSeen(c.Users, i);
        if lowerUser in uniqueUsers {
          errors := errors + [DuplicateError(user)];
          dups := dups + [DuplicateError(user)];
        }
        uniqueUsers := uniqueUsers + {lowerUser};
      }
      i := i + 1;
    }
  }

  /** The lower-case forms of the non-empty users among the first `n`. */
  function SeenLower(users: seq<string>, n: nat): set<string>
    requires n <= |users|
  {
    set j | 0 <= j < n && users[j] != "" :: Lower(users[j])
  }

  lemma SeenLowerStep(users: seq<string>, i: nat)
    requires i < |users|
    ensures SeenLower(users, i + 1) == SeenLower(users, i) + (if users[i] != "" then {Lower(users[i])} else {})
  {
  }

  lemma RepeatIffSeen(users: seq<string>, i: nat)
    requires i < |users| && users[i] != ""
    ensures IsRepeat(users, i) <==> Lower(users[i]) in SeenLower(users, i)
  {
    if Lower(users[i]) in SeenLower(users, i) {
      var j :| 0 <= j < i && users[j] != "" && Lower(users[j]) == Lower(users[i]);
    }
  }

  /** `ProfileExists`, over the result of listing the profiles: false when
      the listing failed, otherwise a linear search for the exact name. */
  method ProfileExists(listing: Result<seq<string>>, profileName: string) returns (found: bool)
    ensures found <==> listing.Ok? && profileName in listing.value
  {
    if listing.Err? {
      return false;
    }
    var profiles := listing.value;
    var i := 0;
    while i < |profiles|
      invariant 0 <= i <= |profiles|
      invariant profileName !in profiles[..i]
    {
      if profiles[i] == profileName {
        return true;
      }
      i := i + 1;
    }
    assert profiles[..i] == profiles;
    return false;
  }

  // ---------------------------------------------------------------------------
  // What an empty error list means
  // ---------------------------------------------------------------------------

  /** No two non-empty users are equal once lower-cased. */
  predicate NoCaseDuplicates(users: seq<string>) {
    forall i, j | 0 <= i < j < |users| && users[i] != "" && users[j] != "" :: Lower(users[i]) != Lower(users[j])
  }

  /** The profile invariant, stated independently of the error messages. */
  predicate Acceptable(c: Config) {
    && (c.Type == "classic" || c.Type == "ia")
    && |c.ServerName| >= 3
    && ProfileNameShape(c.ProfileName)
    && NoCaseDuplicates(c.Users)
  }

  lemma {:induction false} NoDuplicateErrorsIff(users: seq<string>, n: nat)
    requires n <= |users|
    ensures DuplicateErrors(users, n) == [] <==> NoCaseDuplicates(users[..n])
  {
    if n > 0 {
      NoDuplicateErrorsIff(users, n - 1);
      var p := users[..n];
      assert users[..n - 1] == p[..n - 1];
      if IsRepeat(users, n - 1) {
        var j :| 0 <= j < n - 1 && users[j] != "" && Lower(users[j]) == Lower(users[n - 1]);
        assert p[j] == users[j] && p[n - 1] == users[n - 1];
      } else if NoCaseDuplicates(users[..n - 1]) {
        forall i, j | 0 <= i < j < |p| && p[i] != "" && p[j] != ""
          ensures Lower(p[i]) != Lower(p[j])
        {
          if j < n - 1 {
            assert p[i] == users[..n - 1][i] && p[j] == users[..n - 1][j];
          }
        }
      }
    }
  }

  /** `ValidateConfig` reports nothing exactly for profiles that satisfy the
      invariant: a known type, a server name of at least 3 bytes, a
      well-shaped profile name and no case-insensitive duplicate user. */
  lemma ValidationErrorsEmptyIff(c: Config)
    ensures ValidationErrors(c) == [] <==> Acceptable(c)
  {
    NoDuplicateErrorsIff(c.Users, |c.Users|);
    assert c.Users[..|c.Users|] == c.Users;
  }

  /** `["bob", "BOB"]` gives exactly one error, and it quotes "BOB". */
  lemma DuplicateBob()
    ensures DuplicateErrors(["bob", "BOB"], 2) == [ValidationError("Users", "Duplicate user 'BOB'")]
  {
    var users := ["bob", "BOB"];
    assert Lower(users[0]) == Lower(users[1]) by {
      assert Lower("bob") == "bob";
      assert Lower("BOB") == "bob";
    }
    assert IsRepeat(users, 1);
    assert !IsRepeat(users, 0);
    assert DuplicateErrors(users, 1) == [];
    assert DuplicateError("BOB") == ValidationError("Users", "Duplicate user 'BOB'");
  }

  /** A fresh `NewConfig()` fails on exactly the type and the server name:
      its profile name "default" is valid and it has no users. */
  lemma NewConfigErrors()
    ensures ValidationErrors(NewConfig()) ==
      [ValidationError("Type", TypeRequired), ValidationError("ServerName", ServerRequired)]
  {
    var name := "default";
    assert ProfileNameShape(name) by {
      forall k | 0 <= k < |name| ensures IsNameChar(name[k]) { }
    }
  }
}
