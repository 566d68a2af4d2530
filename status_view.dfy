/** The status screen (internal/tui/status.go): reading the `docker ps`
    output into honeypot entries, and the screen's blink and quit state. The
    docker call itself is outside the model; its output, or its failure, is
    an input. */
module StatusView {
  import opened Text
  import opened Results

  datatype HoneypotStatus = Active | Stopped | Error

  /** One honeypot as the status screen and the JSON output show it. */
  datatype Honeypot = Honeypot(
    Name: string,
    Profile: string,
    Type: string,
    Status: HoneypotStatus,
    Uptime: string,
    LastError: string,
    ServerName: string,
    Port: int)

  const ContainerPrefix: string := "otori-"
  const DefaultPort: int := 2222

  // ---------------------------------------------------------------------------
  // Parsing `docker ps`
  // ---------------------------------------------------------------------------

  /** The status column's meaning, and the uptime shown for a running
      container: "Up" anywhere means running, checked before "Exited". */
  function ClassifyStatus(statusStr: string): (r: (HoneypotStatus, string))
    ensures r.0 == Active <==> Contains(statusStr, "Up")
    ensures r.0 == Stopped <==> !Contains(statusStr, "Up") && Contains(statusStr, "Exited")
    ensures r.0 != Active ==> r.1 == ""
    ensures r.0 == Active ==> r.1 == TrimPrefix(statusStr, "Up ") && |r.1| <= |statusStr|
  {
    if Contains(statusStr, "Up") then (Active, TrimPrefix(statusStr, "Up "))
    else if Contains(statusStr, "Exited") then (Stopped, "")
    else (Error, "")
  }

  /** The entry for one line of output, if the line has a name and a status
      field. */
  function ParseLine(line: string): (r: Option<Honeypot>)
    ensures r.Some? <==> line != "" && |Split(line, "|")| >= 2
  {
    if line == "" then None
    else
      var parts := Split(line, "|");
      if |parts| < 2 then None
      else
        var containerName := parts[0];
        var profileName := TrimPrefix(containerName, ContainerPrefix);
        var (status, uptime) := ClassifyStatus(parts[1]);
        Some(Honeypot(containerName, profileName, "classic", status, uptime, "", profileName, DefaultPort))
  }

  /** The entries for the lines that parse, in line order. */
  function ParsedHoneypots(lines: seq<string>): (hps: seq<Honeypot>)
    ensures |hps| <= |lines|
  {
    if lines == [] then []
    else
      var last := ParseLine(lines[|lines| - 1]);
      ParsedHoneypots(lines[..|lines| - 1]) + (if last.Some? then [last.value] else [])
  }

  /** The lines of the output as `GetRunningHoneypots` cuts it. */
  function OutputLines(output: string): seq<string> {
    Split(TrimSpace(output), "\n")
  }

  /** The line loop of `GetRunningHoneypots`, given the output of `docker
      ps`, or `None` when the command failed. */
  method GetRunningHoneypots(output: Option<string>) returns (honeypots: seq<Honeypot>)
    ensures output.None? ==> honeypots == []
    ensures output.Some? ==> honeypots == ParsedHoneypots(OutputLines(output.value))
  {
    honeypots := [];
    if output.None? {
      return;
    }
    var lines := Split(TrimSpace(output.value), "\n");
    for i := 0 to |lines|
      invariant honeypots == ParsedHoneypots(lines[..i])
    {
      assert lines[..i + 1][..i] == lines[..i];
      var line := lines[i];
      if line == "" {
        continue;
      }
      var parts := Split(line, "|");
      if |parts| < 2 {
        continue;
      }
      var containerName := parts[0];
      var statusStr := parts[1];
      var profileName := TrimPrefix(containerName, ContainerPrefix);
      var status: HoneypotStatus;
      var uptime := "";
      if Contains(statusStr, "Up") {
        status := Active;
        uptime := TrimPrefix(statusStr, "Up ");
      } else if Contains(statusStr, "Exited") {
        status := Stopped;
      } else {
        status := Error;
      }
      var port := DefaultPort;
      honeypots := honeypots + [Honeypot(containerName, profileName, "classic", status, uptime, "", profileName, port)];
    }
    assert lines[..|lines|] == lines;
  }

  /** Every parsed entry is a classic honeypot on port 2222 whose server name
      is its profile, and whose profile is its container name without the
      "otori-" prefix. */
  predicate WellShaped(h: Honeypot) {
    && h.Type == "classic"
    && h.Port == DefaultPort
    && h.ServerName == h.Profile
    && h.Profile == TrimPrefix(h.Name, ContainerPrefix)
    && h.LastError == ""
    && (h.Status != Active ==> h.Uptime == "")
  }

  lemma {:induction false} ParsedHoneypotsShaped(lines: seq<string>)
    ensures forall k | 0 <= k < |ParsedHoneypots(lines)| :: WellShaped(ParsedHoneypots(lines)[k])
  {
    if lines != [] {
      ParsedHoneypotsShaped(lines[..|lines| - 1]);
    }
  }

  /** Lines that are empty or carry fewer than two fields are dropped, and
      every other line gives exactly one entry. */
  lemma {:induction false} ParsedHoneypotsCount(lines: seq<string>)
    ensures |ParsedHoneypots(lines)| == |ParsableLines(lines)|
  {
    if lines != [] {
      ParsedHoneypotsCount(lines[..|lines| - 1]);
    }
  }

  function ParsableLines(lines: seq<string>): (r: seq<string>)
    ensures forall k | 0 <= k < |r| :: r[k] != "" && |Split(r[k], "|")| >= 2
  {
    if lines == [] then []
    else
      var l := lines[|lines| - 1];
      ParsableLines(lines[..|lines| - 1]) + (if l != "" && |Split(l, "|")| >= 2 then [l] else [])
  }

  /** A line in the `{{.Names}}|{{.Status}}|{{.Ports}}` format parses back to
      the container's name and status. */
  lemma ParseFormattedLine(name: string, status: string, ports: string)
    requires '|' !in name && '|' !in status
    ensures var h := ParseLine(name + "|" + status + "|" + ports);
            && h.Some?
            && h.value.Name == name
            && h.value.Profile == TrimPrefix(name, ContainerPrefix)
            && (h.value.Status, h.value.Uptime) == ClassifyStatus(status)
  {
    assert BorderFree("|");
    AbsentCharNotContained(name, '|');
    AbsentCharNotContained(status, '|');
    SplitAfterField(name, "|", status + "|" + ports);
    assert name + "|" + status + "|" + ports == name + "|" + (status + "|" + ports);
    SplitAfterField(status, "|", ports);
  }

  /** The container `runDeploy` starts for a profile is read back as that
      profile. */
  lemma ContainerNameRoundTrip(profileName: string)
    ensures TrimPrefix(ContainerPrefix + profileName, ContainerPrefix) == profileName
  {
    assert (ContainerPrefix + profileName)[..|ContainerPrefix|] == ContainerPrefix;
  }

  /** The three outcomes on typical `docker ps` status texts; the uptime
      loses only the leading "Up ". */
  lemma ClassifyExamples()
    ensures ClassifyStatus("Up 2 hours") == (Active, "2 hours")
    ensures ClassifyStatus("Exited (0) 3 minutes ago").0 == Stopped
    ensures ClassifyStatus("Created").0 == Error
  {
    assert OccursAt("Up 2 hours", "Up", 0);
    assert OccursAt("Exited (0) 3 minutes ago", "Exited", 0);
    MissingFirstChar("Exited (0) 3 minutes ago", "Up");
    MissingFirstChar("Created", "Up");
    MissingFirstChar("Created", "Exited");
  }

  /** A string without the first character of `sub` does not contain it. */
  lemma MissingFirstChar(s: string, sub: string)
    requires sub != [] && forall k | 0 <= k < |s| :: s[k] != sub[0]
    ensures !Contains(s, sub)
  {
    forall k | 0 <= k <= |s| - |sub| ensures !OccursAt(s, sub, k) {
      assert s[k..k + |sub|][0] == s[k];
    }
  }

  // ---------------------------------------------------------------------------
  // The screen's state
  // ---------------------------------------------------------------------------

  datatype Msg = KeyMsg(key: string) | TickMsg | OtherMsg

  datatype Cmd = NoCmd | Quit | NextTick

  /** The keys that leave the status screen. */
  predicate IsQuitKey(key: string) {
    key == "q" || key == "ctrl+c" || key == "esc"
  }

  class StatusModel {
    var honeypots: seq<Honeypot>
    var blinkOn: bool
    var quitting: bool

    /** `NewStatusModel`: the indicator starts lit. */
    constructor (hps: seq<Honeypot>)
      ensures honeypots == hps && blinkOn && !quitting
    {
      honeypots := hps;
      blinkOn := true;
      quitting := false;
    }

    /** `Update`: a quit key quits, a tick toggles the indicator and asks for
        the next tick, and anything else changes nothing. */
    method Update(msg: Msg) returns (cmd: Cmd)
      modifies this
      ensures honeypots == old(honeypots)
      ensures msg.KeyMsg? && IsQuitKey(msg.key) ==>
                quitting && blinkOn == old(blinkOn) && cmd == Quit
      ensures msg.TickMsg? ==>
                blinkOn == !old(blinkOn) && quitting == old(quitting) && cmd == NextTick
      ensures msg.OtherMsg? || (msg.KeyMsg? && !IsQuitKey(msg.key)) ==>
                blinkOn == old(blinkOn) && quitting == old(quitting) && cmd == NoCmd
    {
      match msg {
        case KeyMsg(key) =>
          if key == "q" || key == "ctrl+c" || key == "esc" {
            quitting := true;
            return Quit;
          }
        case TickMsg =>
          blinkOn := !blinkOn;
          return NextTick;
        case OtherMsg =>
      }
      return NoCmd;
    }
  }
}
