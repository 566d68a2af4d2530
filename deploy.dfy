/** The `deploy` command (internal/commands/deploy.go): the checks before the
    containers start and the fsctl commands that add the profile's custom
    honeyfs paths to the honeypot's file-system image. Running docker, the
    three-second wait and fsctl itself are outside the model; the honeyfs
    walk is an input. */
module Deploy {
  import opened Text
  import opened Results
  import opened Models
  import opened Fs
  import opened Writer

  // ---------------------------------------------------------------------------
  // generateFsctlCommands
  // ---------------------------------------------------------------------------

  /** One visit of the honeyfs walk: the path relative to the honeyfs root
      ("." for the root itself), whether it is a directory, and whether the
      walk reported an error for it. */
  datatype WalkEntry = WalkEntry(relPath: string, isDir: bool, failed: bool)

  datatype FsctlCommand = Mkdir(path: string) | Touch(path: string)

  /** The command line fsctl reads. */
  function Render(c: FsctlCommand): string {
    match c
    case Mkdir(p) => "mkdir " + p
    case Touch(p) => "touch " + p
  }

  /** The paths the base Cowrie file-system image already has. */
  const BasePaths: set<string> := {
    "/etc", "/etc/passwd", "/etc/shadow", "/etc/group", "/etc/hostname",
    "/etc/hosts", "/etc/host.conf", "/etc/inittab", "/etc/issue", "/etc/issue.net",
    "/etc/motd", "/etc/resolv.conf",
    "/proc", "/proc/cpuinfo", "/proc/meminfo", "/proc/mounts", "/proc/version",
    "/proc/modules", "/proc/net", "/proc/net/arp"
  }

  /** The entry produces commands: it is neither failed, nor the root, nor a
      base path. */
  predicate Relevant(e: WalkEntry) {
    !e.failed && e.relPath != "." && "/" + e.relPath !in BasePaths
  }

  /** The commands one walk entry appends, and the directories made so far
      afterwards. */
  function Step(added: set<string>, e: WalkEntry): (set<string>, seq<FsctlCommand>) {
    if !Relevant(e) then (added, [])
    else
      var abs := "/" + e.relPath;
      if e.isDir then
        if abs in added then (added, []) else (added + {abs}, [Mkdir(abs)])
      else
        var parent := DirOf(abs);
        if parent !in BasePaths && parent !in added then (added + {parent}, [Mkdir(parent), Touch(abs)])
        else (added, [Touch(abs)])
  }

  /** The directories made and the commands produced by the first `n`
      entries of the walk. */
  function Generated(walk: seq<WalkEntry>, n: nat): (set<string>, seq<FsctlCommand>)
    requires n <= |walk|
  {
    if n == 0 then ({}, [])
    else
      var prev := Generated(walk, n - 1);
      var next := Step(prev.0, walk[n - 1]);
      (next.0, prev.1 + next.1)
  }

  /** `generateFsctlCommands` over the walk order. */
  method GenerateFsctlCommands(walk: seq<WalkEntry>) returns (commands: seq<FsctlCommand>)
    ensures commands == Generated(walk, |walk|).1
  {
    commands := [];
    var addedDirs: set<string> := {};
    for i := 0 to |walk|
      invariant (addedDirs, commands) == Generated(walk, i)
    {
      var e := walk[i];
      assert commands + [] == commands;
      if e.failed || e.relPath == "." {
        continue;
      }
      var absPath := "/" + e.relPath;
      if absPath in BasePaths {
        continue;
      }
      if e.isDir {
        if absPath !in addedDirs {
          commands := commands + [Mkdir(absPath)];
          addedDirs := addedDirs + {absPath};
        }
      } else {
        ghost var before := commands;
        var parentDir := DirOf(absPath);
        if parentDir !in BasePaths && parentDir !in addedDirs {
          commands := commands + [Mkdir(parentDir)];
          addedDirs := addedDirs + {parentDir};
        }
        commands := commands + [Touch(absPath)];
        assert commands == before + Step(Generated(walk, i).0, e).1;
      }
    }
  }

  /** The paths some mkdir command targets. */
  function MkdirTargets(cmds: seq<FsctlCommand>): set<string> {
    set i | 0 <= i < |cmds| && cmds[i].Mkdir? :: cmds[i].path
  }

  /** No path is the target of two mkdir commands. */
  predicate NoRepeatedMkdir(cmds: seq<FsctlCommand>) {
    forall i, j | 0 <= i < j < |cmds| && cmds[i].Mkdir? && cmds[j].Mkdir? :: cmds[i].path != cmds[j].path
  }

  /** Every touched file's parent is a base path or made by an earlier mkdir. */
  predicate ParentsPrepared(cmds: seq<FsctlCommand>) {
    forall j | 0 <= j < |cmds| && cmds[j].Touch? ::
      DirOf(cmds[j].path) in BasePaths || exists i | 0 <= i < j :: cmds[i] == Mkdir(DirOf(cmds[j].path))
  }

  /** No command targets a path the base image already has. */
  predicate AvoidsBase(cmds: seq<FsctlCommand>) {
    forall i | 0 <= i < |cmds| :: cmds[i].path !in BasePaths
  }

  /** The commands for any walk: each directory made once, each file's parent
      ready before the file is touched, the base image left alone; and the
      remembered directories are exactly the mkdir targets. */
  lemma {:induction false} GeneratedWellFormed(walk: seq<WalkEntry>, n: nat)
    requires n <= |walk|
    ensures var g := Generated(walk, n);
            g.0 == MkdirTargets(g.1) && NoRepeatedMkdir(g.1) && ParentsPrepared(g.1) && AvoidsBase(g.1)
  {
    if n > 0 {
      GeneratedWellFormed(walk, n - 1);
      var prev := Generated(walk, n - 1);
      var e := walk[n - 1];
      MkdirTargetsAppend(prev.1, Step(prev.0, e).1);
      NoRepeatAfterStep(prev.0, prev.1, e);
      ParentsAfterStep(prev.0, prev.1, e);
      AvoidsBaseAfterStep(prev.0, prev.1, e);
    }
  }

  lemma MkdirTargetsAppend(a: seq<FsctlCommand>, b: seq<FsctlCommand>)
    ensures MkdirTargets(a + b) == MkdirTargets(a) + MkdirTargets(b)
  {
    var ab := a + b;
    forall p | p in MkdirTargets(ab) ensures p in MkdirTargets(a) + MkdirTargets(b) {
      var i :| 0 <= i < |ab| && ab[i].Mkdir? && ab[i].path == p;
      if i < |a| {
        assert ab[i] == a[i];
      } else {
        assert ab[i] == b[i - |a|];
      }
    }
    forall p | p in MkdirTargets(a) ensures p in MkdirTargets(ab) {
      var i :| 0 <= i < |a| && a[i].Mkdir? && a[i].path == p;
      assert ab[i] == a[i];
    }
    forall p | p in MkdirTargets(b) ensures p in MkdirTargets(ab) {
      var i :| 0 <= i < |b| && b[i].Mkdir? && b[i].path == p;
      assert ab[|a| + i] == b[i];
    }
  }

  /** One step makes only directories not made before, and remembers them. */
  lemma NoRepeatAfterStep(added: set<string>, cmds: seq<FsctlCommand>, e: WalkEntry)
    requires added == MkdirTargets(cmds) && NoRepeatedMkdir(cmds)
    ensures Step(added, e).0 == added + MkdirTargets(Step(added, e).1)
    ensures NoRepeatedMkdir(cmds + Step(added, e).1)
  {
    var next := Step(added, e).1;
    var all := cmds + next;
    assert MkdirTargets(next) == Step(added, e).0 - added by {
      if |next| >= 1 && next[0].Mkdir? {
        assert next[0].path in MkdirTargets(next);
        assert MkdirTargets(next) == {next[0].path};
      } else {
        assert MkdirTargets(next) == {};
      }
    }
    forall i, j | 0 <= i < j < |all| && all[i].Mkdir? && all[j].Mkdir?
      ensures all[i].path != all[j].path
    {
      if j < |cmds| {
        assert all[i] == cmds[i] && all[j] == cmds[j];
      } else {
        assert all[j] == next[j - |cmds|];
        if i < |cmds| {
          assert all[i] == cmds[i];
          assert all[i].path in added;
        }
      }
    }
  }

  /** One step never targets a base path. */
  lemma AvoidsBaseAfterStep(added: set<string>, cmds: seq<FsctlCommand>, e: WalkEntry)
    requires AvoidsBase(cmds)
    ensures AvoidsBase(cmds + Step(added, e).1)
  {
    var next := Step(added, e).1;
    var all := cmds + next;
    forall i | 0 <= i < |all| ensures all[i].path !in BasePaths {
      if i < |cmds| {
        assert all[i] == cmds[i];
      } else {
        assert all[i] == next[i - |cmds|];
      }
    }
  }

  /** One step keeps every touched file's parent prepared. */
  lemma ParentsAfterStep(added: set<string>, cmds: seq<FsctlCommand>, e: WalkEntry)
    requires added == MkdirTargets(cmds) && ParentsPrepared(cmds)
    ensures ParentsPrepared(cmds + Step(added, e).1)
  {
    var next := Step(added, e).1;
    var all := cmds + next;
    forall j | 0 <= j < |all| && all[j].Touch?
      ensures DirOf(all[j].path) in BasePaths || exists i | 0 <= i < j :: all[i] == Mkdir(DirOf(all[j].path))
    {
      var parent := DirOf(all[j].path);
      if j < |cmds| {
        assert all[j] == cmds[j];
        if parent !in BasePaths {
          var i :| 0 <= i < j && cmds[i] == Mkdir(parent);
          assert all[i] == cmds[i];
        }
      } else if parent !in BasePaths {
        if parent in added {
          var i :| 0 <= i < |cmds| && cmds[i].Mkdir? && cmds[i].path == parent;
          assert all[i] == cmds[i];
        } else {
          assert next == [Mkdir(parent), all[j]];
          assert all[|cmds|] == Mkdir(parent);
        }
      }
    }
  }

  /** The files of the walk that get a touch command, in walk order. */
  function FileTargets(walk: seq<WalkEntry>): seq<string> {
    if walk == [] then []
    else
      var e := walk[|walk| - 1];
      FileTargets(walk[..|walk| - 1]) + (if Relevant(e) && !e.isDir then ["/" + e.relPath] else [])
  }

  /** The touched paths, in command order. */
  function Touched(cmds: seq<FsctlCommand>): seq<string> {
    if cmds == [] then []
    else Touched(cmds[..|cmds| - 1]) + (if cmds[|cmds| - 1].Touch? then [cmds[|cmds| - 1].path] else [])
  }

  lemma {:induction false} TouchedAppend(a: seq<FsctlCommand>, b: seq<FsctlCommand>)
    ensures Touched(a + b) == Touched(a) + Touched(b)
    decreases |b|
  {
    if b == [] {
      assert a + b == a;
    } else {
      assert (a + b)[..|a + b| - 1] == a + b[..|b| - 1];
      TouchedAppend(a, b[..|b| - 1]);
    }
  }

  /** Exactly the walk's relevant files are touched, each once, in walk
      order. */
  lemma {:induction false} TouchesAreFiles(walk: seq<WalkEntry>, n: nat)
    requires n <= |walk|
    ensures Touched(Generated(walk, n).1) == FileTargets(walk[..n])
  {
    if n > 0 {
      TouchesAreFiles(walk, n - 1);
      var prev := Generated(walk, n - 1);
      var e := walk[n - 1];
      var step := Step(prev.0, e).1;
      assert Generated(walk, n).1 == prev.1 + step;
      TouchedAppend(prev.1, step);
      TouchedByStep(prev.0, e);
      assert walk[..n][..n - 1] == walk[..n - 1];
      assert FileTargets(walk[..n]) ==
        FileTargets(walk[..n - 1]) + (if Relevant(e) && !e.isDir then ["/" + e.relPath] else []);
    }
  }

  /** One entry touches its own path exactly when it is a relevant file. */
  lemma TouchedByStep(added: set<string>, e: WalkEntry)
    ensures Touched(Step(added, e).1) == if Relevant(e) && !e.isDir then ["/" + e.relPath] else []
  {
    var abs := "/" + e.relPath;
    if Relevant(e) && e.isDir {
      TouchedOne(Mkdir(abs));
    } else if Relevant(e) {
      var parent := DirOf(abs);
      if parent !in BasePaths && parent !in added {
        var cmds := [Mkdir(parent), Touch(abs)];
        assert cmds[..1] == [Mkdir(parent)];
        TouchedOne(Mkdir(parent));
      } else {
        TouchedOne(Touch(abs));
      }
    }
  }

  lemma TouchedOne(c: FsctlCommand)
    ensures Touched([c]) == if c.Touch? then [c.path] else []
  {
    assert [c][..0] == [];
  }

  /** The directories the first `n` entries call for: each relevant
      directory, and the parent of each relevant file that the base image
      does not have. Failed entries and the root call for none. */
  function CalledForDirs(walk: seq<WalkEntry>, n: nat): set<string>
    requires n <= |walk|
  {
    (set k | 0 <= k < n && Relevant(walk[k]) && walk[k].isDir :: "/" + walk[k].relPath)
    + (set k | 0 <= k < n && Relevant(walk[k]) && !walk[k].isDir && DirOf("/" + walk[k].relPath) !in BasePaths
         :: DirOf("/" + walk[k].relPath))
  }

  /** The directories one entry calls for. */
  function EntryDirs(e: WalkEntry): set<string> {
    if !Relevant(e) then {}
    else if e.isDir then {"/" + e.relPath}
    else if DirOf("/" + e.relPath) !in BasePaths then {DirOf("/" + e.relPath)}
    else {}
  }

  /** Exactly the directories the walk calls for are made, and no other. */
  lemma MkdirTargetsAre(walk: seq<WalkEntry>, n: nat)
    requires n <= |walk|
    ensures MkdirTargets(Generated(walk, n).1) == CalledForDirs(walk, n)
  {
    GeneratedWellFormed(walk, n);
    MadeDirs(walk, n);
  }

  /** The remembered set after `n` entries is what they call for. */
  lemma {:induction false} MadeDirs(walk: seq<WalkEntry>, n: nat)
    requires n <= |walk|
    ensures Generated(walk, n).0 == CalledForDirs(walk, n)
  {
    if n == 0 {
      NothingCalledFor(walk);
    } else {
      MadeDirs(walk, n - 1);
      MadeDirsStep(walk, n);
    }
  }

  lemma MadeDirsStep(walk: seq<WalkEntry>, n: nat)
    requires 0 < n <= |walk|
    requires Generated(walk, n - 1).0 == CalledForDirs(walk, n - 1)
    ensures Generated(walk, n).0 == CalledForDirs(walk, n)
  {
    var prev := Generated(walk, n - 1).0;
    assert Generated(walk, n).0 == Step(prev, walk[n - 1]).0;
    StepRemembers(prev, walk[n - 1]);
    CalledForDirsStep(walk, n);
  }

  /** One step remembers the directories its entry calls for. */
  lemma StepRemembers(added: set<string>, e: WalkEntry)
    ensures Step(added, e).0 == added + EntryDirs(e)
  {
  }

  lemma NothingCalledFor(walk: seq<WalkEntry>)
    ensures CalledForDirs(walk, 0) == {}
  {
  }

  lemma CalledForDirsStep(walk: seq<WalkEntry>, n: nat)
    requires 0 < n <= |walk|
    ensures CalledForDirs(walk, n) == CalledForDirs(walk, n - 1) + EntryDirs(walk[n - 1])
  {
    var e := walk[n - 1];
    var abs := "/" + e.relPath;
    if Relevant(e) && e.isDir {
      assert abs in CalledForDirs(walk, n);
    } else if Relevant(e) && DirOf(abs) !in BasePaths {
      assert DirOf(abs) in CalledForDirs(walk, n);
    }
  }

  /** A file at the top of the honeyfs tree has parent "/", which is not a
      base path, so the first such file is preceded by "mkdir /". */
  lemma TopLevelFileMakesRoot(name: string)
    requires name != "" && name != "." && '/' !in name && "/" + name !in BasePaths
    ensures Generated([WalkEntry(name, false, false)], 1).1 == [Mkdir("/"), Touch("/" + name)]
  {
    var abs := "/" + name;
    assert LastSlash(abs) == 0 by {
      assert abs[0] == '/';
      assert forall k | 0 < k < |abs| :: abs[k] == name[k - 1];
    }
    assert DirOf(abs) == "/";
    assert "/" !in BasePaths;
    assert Step({}, WalkEntry(name, false, false)).1 == [Mkdir("/"), Touch(abs)];
    assert [] + [Mkdir("/"), Touch(abs)] == [Mkdir("/"), Touch(abs)];
  }

  // ---------------------------------------------------------------------------
  // The fsctl input
  // ---------------------------------------------------------------------------

  function RenderAll(cmds: seq<FsctlCommand>): (lines: seq<string>)
    ensures |lines| == |cmds|
    ensures forall k | 0 <= k < |cmds| :: lines[k] == Render(cmds[k])
  {
    seq(|cmds|, k requires 0 <= k < |cmds| => Render(cmds[k]))
  }

  /** What is piped into fsctl: one command per line and a closing "exit",
      and nothing at all when there are no commands. */
  function FsctlInput(cmds: seq<FsctlCommand>): Option<string> {
    if cmds == [] then None else Some(Join(RenderAll(cmds), "\n") + "\nexit\n")
  }

  /** Splitting the fsctl input into lines gives the commands in order, then
      "exit", then the empty remainder after the final newline, provided no
      path holds a newline. */
  lemma FsctlInputLines(cmds: seq<FsctlCommand>)
    requires cmds != []
    requires forall k | 0 <= k < |cmds| :: '\n' !in cmds[k].path
    ensures Split(FsctlInput(cmds).value, "\n") == RenderAll(cmds) + ["exit", ""]
  {
    var lines := RenderAll(cmds);
    var all := lines + ["exit", ""];
    forall i | 0 <= i < |all| ensures !Contains(all[i], "\n") {
      if i < |lines| {
        RenderedLineOneLine(cmds[i]);
      } else {
        AbsentCharNotContained(all[i], '\n');
      }
    }
    assert BorderFree("\n");
    SplitJoin(all, "\n");
    ExitTrailer(lines);
  }

  /** A rendered command is one line when its path is. */
  lemma RenderedLineOneLine(c: FsctlCommand)
    requires '\n' !in c.path
    ensures !Contains(Render(c), "\n")
  {
    var verb := if c.Mkdir? then "mkdir " else "touch ";
    assert Render(c) == verb + c.path;
    assert '\n' !in verb;
    AbsentCharNotContained(Render(c), '\n');
  }

  /** Joining the lines with "exit" and an empty line appended writes the
      final "\nexit\n". */
  lemma ExitTrailer(lines: seq<string>)
    requires lines != []
    ensures Join(lines + ["exit", ""], "\n") == Join(lines, "\n") + "\nexit\n"
  {
    JoinAppend(lines, "exit", "\n");
    JoinAppend(lines + ["exit"], "", "\n");
    assert lines + ["exit"] + [""] == lines + ["exit", ""];
    assert Join(lines, "\n") + "\n" + "exit" + "\n" + "" == Join(lines, "\n") + "\nexit\n";
  }

  // ---------------------------------------------------------------------------
  // runDeploy
  // ---------------------------------------------------------------------------

  /** What `runDeploy` has settled before it starts the containers. */
  datatype DeployPlan = DeployPlan(
    profileName: string,
    profileDir: string,
    containerName: string,
    fsctlInput: Option<string>)

  /** Where the profile's compose file must be. */
  function ComposePath(profileName: string): string {
    PathJoin(PathJoin(ConfigDir, profileName), "docker-compose.yml")
  }

  /** The checks `runDeploy` makes in order: the profile (default "default")
      is readable, of type "classic", and its compose file is not reported
      missing (a lookup that fails for another reason passes). */
  function DeployTarget(files: map<string, Node>, deployProfile: string): Result<(string, Config)> {
    var name := if deployProfile == "" then "default" else deployProfile;
    var cfg := ReadConfig(files, name);
    if cfg.Err? then Err("profile '" + name + "' not found")
    else if cfg.value.Type != "classic" then
      Err("profile '" + name + "' is of type '" + cfg.value.Type + "', only 'classic' profiles can be deployed with Docker")
    else if StatNotExist(files, ComposePath(name)) then Err("docker-compose.yml not found in profile '" + name + "'")
    else Ok((name, cfg.value))
  }

  /** `runDeploy` up to the docker calls, with the honeyfs walk given. */
  method RunDeploy(files: map<string, Node>, deployProfile: string, walk: seq<WalkEntry>) returns (r: Result<DeployPlan>)
    ensures DeployTarget(files, deployProfile).Err? ==> r == Err(DeployTarget(files, deployProfile).msg)
    ensures DeployTarget(files, deployProfile).Ok? ==>
              var name := DeployTarget(files, deployProfile).value.0;
              r == Ok(DeployPlan(name, PathJoin(ConfigDir, name), "otori-" + name,
                                 FsctlInput(Generated(walk, |walk|).1)))
  {
    var profileName := deployProfile;
    if profileName == "" {
      profileName := "default";
    }
    var cfg := ReadConfig(files, profileName);
    if cfg.Err? {
      return Err("profile '" + profileName + "' not found");
    }
    if cfg.value.Type != "classic" {
      return Err("profile '" + profileName + "' is of type '" + cfg.value.Type
                 + "', only 'classic' profiles can be deployed with Docker");
    }
    var profileDir := PathJoin(ConfigDir, profileName);
    if StatNotExist(files, PathJoin(profileDir, "docker-compose.yml")) {
      return Err("docker-compose.yml not found in profile '" + profileName + "'");
    }
    var containerName := "otori-" + profileName;
    var commands := GenerateFsctlCommands(walk);
    var input: Option<string> := None;
    if |commands| > 0 {
      input := Some(Join(RenderAll(commands), "\n") + "\nexit\n");
    }
    return Ok(DeployPlan(profileName, profileDir, containerName, input));
  }

  /** When the profile's directory is a file, looking up the compose file
      fails with ENOTDIR, which the compose check does not treat as missing. */
  lemma FileProfileDirPassesComposeCheck(files: map<string, Node>, name: string)
    requires PathJoin(ConfigDir, name) in files && files[PathJoin(ConfigDir, name)] != Dir
    ensures ComposePath(name) !in files ==> !StatNotExist(files, ComposePath(name))
  {
    var d := PathJoin(ConfigDir, name);
    assert ComposePath(name) == d + "/" + "docker-compose.yml";
    assert IsUnder(d, ComposePath(name));
  }

  /** Only a readable "classic" profile with a compose file is deployed, and
      the empty profile name means "default". */
  lemma DeployOnlyClassic(files: map<string, Node>, deployProfile: string)
    ensures DeployTarget(files, deployProfile).Ok? ==>
              var (name, cfg) := DeployTarget(files, deployProfile).value;
              && name == (if deployProfile == "" then "default" else deployProfile)
              && ReadConfig(files, name) == Ok(cfg)
              && cfg.Type == "classic"
              && !StatNotExist(files, ComposePath(name))
    ensures DeployTarget(files, deployProfile).Ok? <==>
              var name := if deployProfile == "" then "default" else deployProfile;
              ReadConfig(files, name).Ok? && ReadConfig(files, name).value.Type == "classic" && !StatNotExist(files, ComposePath(name))
  {
  }
}
