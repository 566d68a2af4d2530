/** The `status` command body (internal/commands/status.go): adding the
    stopped profiles to the running honeypots and filtering by profile. The
    JSON output and the screen are outside the model. */
module StatusCommand {
  import opened Text
  import opened Results
  import opened Models
  import opened Fs
  import opened Writer
  import opened StatusView

  /** The profiles some entry of the list belongs to. */
  function ProfilesOf(hps: seq<Honeypot>): set<string> {
    set k | 0 <= k < |hps| :: hps[k].Profile
  }

  /** The entry shown for a profile that is stored but not running. */
  function StoppedEntry(profileName: string, cfg: Config): Honeypot {
    Honeypot(ContainerPrefix + profileName, profileName, cfg.Type, Stopped, "", "", cfg.ServerName, DefaultPort)
  }

  /** The entries added for the listed `profiles`, in listing order: those
      not in `running` whose record can be read. */
  function StoppedEntries(files: map<string, Node>, profiles: seq<string>, running: set<string>): seq<Honeypot> {
    if profiles == [] then []
    else
      var p := profiles[|profiles| - 1];
      var cfg := ReadConfig(files, p);
      StoppedEntries(files, profiles[..|profiles| - 1], running)
        + (if p !in running && cfg.Ok? then [StoppedEntry(p, cfg.value)] else [])
  }

  /** `addStoppedProfiles`, over the store and the listing of its
      directory. */
  method AddStoppedProfiles(running: seq<Honeypot>, files: map<string, Node>, entries: seq<string>)
    returns (result: seq<Honeypot>)
    requires IsListing(files, ConfigDir, entries)
    ensures ConfigDir in files && files[ConfigDir] != Dir ==> result == running
    ensures ConfigDir !in files ==> result == running
    ensures IsDirAt(files, ConfigDir) ==>
              result == running + StoppedEntries(files, JsonProfiles(files, entries), ProfilesOf(running))
  {
    var profiles := ListConfigs(files, entries);
    if profiles.Err? {
      return running;
    }
    var runningMap: set<string> := {};
    for i := 0 to |running|
      invariant runningMap == ProfilesOf(running[..i])
    {
      assert running[..i + 1] == running[..i] + [running[i]];
      runningMap := runningMap + {running[i].Profile};
    }
    assert running[..|running|] == running;
    result := running;
    var names := profiles.value;
    for i := 0 to |names|
      invariant result == running + StoppedEntries(files, names[..i], runningMap)
    {
      assert names[..i + 1][..i] == names[..i];
      var profileName := names[i];
      if profileName !in runningMap {
        var cfg := ReadConfig(files, profileName);
        if cfg.Err? {
          continue;
        }
        result := result + [StoppedEntry(profileName, cfg.value)];
      }
    }
    assert names[..|names|] == names;
  }

  /** Every added entry is a readable listed profile that is not running,
      shown as stopped under its container name on port 2222; and every such
      profile gets one. */
  lemma {:induction false} StoppedEntriesIff(files: map<string, Node>, profiles: seq<string>, running: set<string>, h: Honeypot)
    ensures h in StoppedEntries(files, profiles, running) <==>
              && h.Profile in profiles
              && h.Profile !in running
              && ReadConfig(files, h.Profile).Ok?
              && h == StoppedEntry(h.Profile, ReadConfig(files, h.Profile).value)
  {
    if profiles != [] {
      var init := profiles[..|profiles| - 1];
      StoppedEntriesIff(files, init, running, h);
      assert profiles == init + [profiles[|profiles| - 1]];
    }
  }

  /** An added entry is stopped, named "otori-<profile>" and on port 2222. */
  lemma StoppedEntryShape(files: map<string, Node>, profiles: seq<string>, running: set<string>, h: Honeypot)
    requires h in StoppedEntries(files, profiles, running)
    ensures h.Status == Stopped && h.Name == ContainerPrefix + h.Profile && h.Port == DefaultPort
    ensures h.Profile !in running && ReadConfig(files, h.Profile).Ok?
  {
    StoppedEntriesIff(files, profiles, running, h);
  }

  /** With the flag, a profile is never shown both running and stopped. */
  lemma NoProfileTwice(files: map<string, Node>, running: seq<Honeypot>, profiles: seq<string>, i: nat, j: nat)
    requires var all := running + StoppedEntries(files, profiles, ProfilesOf(running));
             i < |running| <= j < |all|
    ensures var all := running + StoppedEntries(files, profiles, ProfilesOf(running));
            all[i].Profile != all[j].Profile
  {
    var added := StoppedEntries(files, profiles, ProfilesOf(running));
    var all := running + added;
    assert all[j] == added[j - |running|];
    StoppedEntriesIff(files, profiles, ProfilesOf(running), all[j]);
    assert all[i] == running[i];
  }

  /** The entries of `hps` whose profile is `profileName`, in order. */
  function Matching(hps: seq<Honeypot>, profileName: string): seq<Honeypot> {
    if hps == [] then []
    else
      var h := hps[|hps| - 1];
      Matching(hps[..|hps| - 1], profileName) + (if h.Profile == profileName then [h] else [])
  }

  /** The profile filter of the command body; the empty filter keeps all. */
  method FilterByProfile(hps: seq<Honeypot>, statusProfile: string) returns (shown: seq<Honeypot>)
    ensures statusProfile == "" ==> shown == hps
    ensures statusProfile != "" ==> shown == Matching(hps, statusProfile)
  {
    if statusProfile == "" {
      return hps;
    }
    var filtered: seq<Honeypot> := [];
    for i := 0 to |hps|
      invariant filtered == Matching(hps[..i], statusProfile)
    {
      assert hps[..i + 1][..i] == hps[..i];
      if hps[i].Profile == statusProfile {
        filtered := filtered + [hps[i]];
      }
    }
    assert hps[..|hps|] == hps;
    return filtered;
  }

  /** The filter keeps exactly the entries of the profile. */
  lemma {:induction false} MatchingIff(hps: seq<Honeypot>, profileName: string, h: Honeypot)
    ensures h in Matching(hps, profileName) <==> h in hps && h.Profile == profileName
  {
    if hps != [] {
      MatchingIff(hps[..|hps| - 1], profileName, h);
      assert hps == hps[..|hps| - 1] + [hps[|hps| - 1]];
    }
  }

  /** The filter drops nothing when every entry already matches. */
  lemma {:induction false} MatchingAll(hps: seq<Honeypot>, profileName: string)
    requires forall k | 0 <= k < |hps| :: hps[k].Profile == profileName
    ensures Matching(hps, profileName) == hps
  {
    if hps != [] {
      MatchingAll(hps[..|hps| - 1], profileName);
      assert hps == hps[..|hps| - 1] + [hps[|hps| - 1]];
    }
  }

  /** The list the `status` command shows: the running honeypots, with the
      stopped profiles when `all` is set, filtered by `statusProfile`. */
  method StatusHoneypots(dockerOutput: Option<string>, all: bool, statusProfile: string,
                         files: map<string, Node>, entries: seq<string>)
    returns (shown: seq<Honeypot>)
    requires IsListing(files, ConfigDir, entries)
    ensures var running := if dockerOutput.None? then [] else ParsedHoneypots(OutputLines(dockerOutput.value));
            var listed := if all && IsDirAt(files, ConfigDir)
                          then running + StoppedEntries(files, JsonProfiles(files, entries), ProfilesOf(running))
                          else running;
            shown == if statusProfile == "" then listed else Matching(listed, statusProfile)
  {
    var honeypots := GetRunningHoneypots(dockerOutput);
    if all {
      honeypots := AddStoppedProfiles(honeypots, files, entries);
    }
    shown := FilterByProfile(honeypots, statusProfile);
  }
}
