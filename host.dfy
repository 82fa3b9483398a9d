/** `HassInfo` and the stateful side of `HassBackup`: one Home Assistant host,
    the ssh prefix its commands run under, the commands it has issued, its
    disk gate, its lazily fetched addon catalogue and the running of one
    backup. */
module Host {
  import opened Outcomes
  import opened Ordering
  import opened SeqSets
  import opened Config
  import opened Folders
  import opened Addons
  import opened Backup

  const HostInfoFailed := "disabled: ha host info failed"
  const DivisionMessage := "unsupported operand type(s) for /"
  const ArgvMessage := "expected str, bytes or os.PathLike object"
  /** Backups are disabled below this many gigabytes of free disk. */
  const MinFreeGb: real := 2.0

  const HostInfoCmd := ["ha", "host", "info"]
  const AddonsCmd := ["ha", "addons"]

  function InfoCmd(slug: string): seq<string>
  {
    ["ha", "backups", "info", slug]
  }

  /** The ssh prefix `configure` appends to `cmd_args`, with the port turned
      into text as a command line needs it. */
  function SshPrefix(host: Option<string>, user: Option<string>, port: Scalar, profile: Option<string>): seq<string>
  {
    if host.None? || host.value == "localhost" then []
    else
      ["ssh"]
      + (if user.Some? then ["-l", user.value] else [])
      + (if port != Int(22) then ["-p", PyStr(port)] else [])
      + [host.value]
      + (if profile.Some? then ["source", profile.value, "&&"] else [])
  }

  /** The ssh prefix as `configure` writes it: the port is appended as the
      configuration holds it, so a numeric port stays a number. */
  function SshPrefixAsWritten(host: Option<string>, user: Option<string>, port: Scalar, profile: Option<string>): seq<Scalar>
  {
    if host.None? || host.value == "localhost" then []
    else
      [Text("ssh")]
      + (if user.Some? then [Text("-l"), Text(user.value)] else [])
      + (if port != Int(22) then [Text("-p"), port] else [])
      + [Text(host.value)]
      + (if profile.Some? then [Text("source"), Text(profile.value), Text("&&")] else [])
  }

  function Texts(xs: seq<string>): (r: seq<Scalar>)
    ensures |r| == |xs| && forall i :: 0 <= i < |xs| ==> r[i] == Text(xs[i])
  {
    if xs == [] then [] else [Text(xs[0])] + Texts(xs[1..])
  }

  /** `subprocess.run` refuses an argument vector holding a non-string. */
  function CheckArgv(argv: seq<Scalar>): (r: Result<seq<string>>)
    ensures r.Ok? <==> forall i :: 0 <= i < |argv| ==> argv[i].Text?
    ensures r.Ok? ==> Texts(r.value) == argv
  {
    if argv == [] then Ok([])
    else if !argv[0].Text? then Err(TypeError(ArgvMessage))
    else
      match CheckArgv(argv[1..])
      case Err(f) =>
        assert exists i :: 1 <= i < |argv| && !argv[i].Text? by {
          var j :| 0 <= j < |argv[1..]| && !argv[1..][j].Text?;
          assert argv[j + 1] == argv[1..][j];
        }
        Err(f)
      case Ok(rest) =>
        assert argv == [argv[0]] + argv[1..];
        Ok([argv[0].s] + rest)
  }

  /** The layout of the prefix: empty for a local host, otherwise `ssh`,
      then `-l user` when a user is set, `-p port` when the port is not 22,
      the host, and `source profile &&` when a profile is set. */
  lemma SshPrefixLayout(host: Option<string>, user: Option<string>, port: Scalar, profile: Option<string>)
    ensures var r := SshPrefix(host, user, port, profile);
      var u := if user.Some? then 2 else 0;
      var p := if port != Int(22) then 2 else 0;
      var s := if profile.Some? then 3 else 0;
      (r == [] <==> host.None? || host.value == "localhost") &&
      (r != [] ==>
        |r| == 2 + u + p + s && r[0] == "ssh" && r[1 + u + p] == host.value &&
        (user.Some? ==> r[1..3] == ["-l", user.value]) &&
        (port != Int(22) ==> r[1 + u..3 + u] == ["-p", PyStr(port)]) &&
        (profile.Some? ==> r[2 + u + p..] == ["source", profile.value, "&&"]))
  {
  }

  /** The written prefix and the corrected one differ only in the port's
      representation: every other element is the same text. */
  lemma SshPrefixAgrees(host: Option<string>, user: Option<string>, profile: Option<string>, port: Scalar)
    requires port.Text? || port == Int(22)
    ensures SshPrefixAsWritten(host, user, port, profile) == Texts(SshPrefix(host, user, port, profile))
  {
    if host.Some? && host.value != "localhost" {
      var u := if user.Some? then ["-l", user.value] else [];
      var p := if port != Int(22) then ["-p", PyStr(port)] else [];
      var s := if profile.Some? then ["source", profile.value, "&&"] else [];
      var wu := if user.Some? then [Text("-l"), Text(user.value)] else [];
      var wp := if port != Int(22) then [Text("-p"), port] else [];
      var ws := if profile.Some? then [Text("source"), Text(profile.value), Text("&&")] else [];
      assert Texts(u) == wu;
      assert Texts(p) == wp;
      assert Texts(s) == ws;
      assert Texts([host.value]) == [Text(host.value)];
      assert Texts(["ssh"]) == [Text("ssh")];
      calc {
        Texts(SshPrefix(host, user, port, profile));
        Texts(["ssh"] + u + p + [host.value] + s);
        { TextsAppend(["ssh"] + u + p + [host.value], s); }
        Texts(["ssh"] + u + p + [host.value]) + ws;
        { TextsAppend(["ssh"] + u + p, [host.value]); }
        Texts(["ssh"] + u + p) + [Text(host.value)] + ws;
        { TextsAppend(["ssh"] + u, p); }
        Texts(["ssh"] + u) + wp + [Text(host.value)] + ws;
        { TextsAppend(["ssh"], u); }
        [Text("ssh")] + wu + wp + [Text(host.value)] + ws;
        SshPrefixAsWritten(host, user, port, profile);
      }
    }
  }

  lemma {:induction false} TextsAppend(x: seq<string>, y: seq<string>)
    ensures Texts(x + y) == Texts(x) + Texts(y)
  {
    if x != [] {
      assert (x + y)[1..] == x[1..] + y;
      TextsAppend(x[1..], y);
    }
  }

  /** The input that shows it: `sshport: 2222` on a remote host makes the
      written prefix unusable by `subprocess.run`, while the corrected one
      passes `-p 2222`. */
  lemma NumericPortRejected()
    ensures CheckArgv(SshPrefixAsWritten(Some("pi"), None, Int(2222), None) + Texts(HostInfoCmd)) == Err(TypeError(ArgvMessage))
    ensures SshPrefix(Some("pi"), None, Int(2222), None) == ["ssh", "-p", "2222", "pi"]
  {
    var argv := SshPrefixAsWritten(Some("pi"), None, Int(2222), None) + Texts(HostInfoCmd);
    assert argv[2..][0] == Int(2222);
    assert CheckArgv(argv[2..]) == Err(TypeError(ArgvMessage));
    assert argv[1..][1..] == argv[2..];
    assert CheckArgv(argv[1..]) == Err(TypeError(ArgvMessage));
    assert DecimalDigits(2) == "2";
    assert DecimalDigits(22) == "22";
    assert DecimalDigits(222) == "222";
    assert DecimalDigits(2222) == "2222";
  }

  /** Every command issued so far exited with status 0. */
  ghost predicate AllSucceeded(exec: (nat, seq<string>) -> Completed, issued: seq<seq<string>>)
  {
    issued == [] ||
    (AllSucceeded(exec, issued[..|issued| - 1]) && exec(|issued| - 1, issued[|issued| - 1]).exitCode == 0)
  }

  /** The result of the last command issued, if any. */
  function LastResult(exec: (nat, seq<string>) -> Completed, issued: seq<seq<string>>): Option<Completed>
  {
    if issued == [] then None else Some(exec(|issued| - 1, issued[|issued| - 1]))
  }

  /** The command-running state of a host agrees with its history: it is
      enabled exactly while every command succeeded, the reason is set
      exactly when it is not, and the last result and runtime are those of
      the last command. */
  ghost predicate RunState(exec: (nat, seq<string>) -> Completed, issued: seq<seq<string>>, enabled: bool,
                           disableReason: Option<string>, lastCmdResult: Option<Completed>, lastCmdRuntime: Option<real>)
  {
    && enabled == AllSucceeded(exec, issued)
    && disableReason == (if enabled then None else Some(HostInfoFailed))
    && lastCmdResult == LastResult(exec, issued)
    && lastCmdRuntime == (if lastCmdResult.None? then None else Some(lastCmdResult.value.runtime))
  }

  /** The index of the first backup entry the constructor refuses, or the
      number of entries when it accepts them all. */
  function ValidPrefix(backups: seq<BackupConfig>): (n: nat)
    ensures n <= |backups|
    ensures forall j :: 0 <= j < n ==> BackupSpecFrom(backups[j]).Ok?
    ensures n < |backups| ==> BackupSpecFrom(backups[n]).Err?
  {
    if backups == [] then 0
    else if BackupSpecFrom(backups[0]).Err? then 0
    else
      var n := 1 + ValidPrefix(backups[1..]);
      assert forall j :: 1 <= j < |backups| ==> backups[j] == backups[1..][j - 1];
      n
  }

  /** The sort key of the catalogue. */
  function AddonName(a: Addon): string
  {
    a.name
  }

  /** The slugs of a catalogue, as the tool keeps them. */
  function SlugSet(installed: seq<Addon>): (r: set<string>)
    ensures r == InstalledSlugs(installed)
  {
    var r := set a | a in installed :: a.slug;
    assert forall s :: s in r ==> s in InstalledSlugs(installed);
    r
  }

  /** A backup resolves far enough to need the addon catalogue: it has a
      name and its folders resolve. */
  predicate NeedsCatalogue(spec: BackupSpec)
  {
    spec.name.Some? && ResolveFolders(spec.foldersInclude, spec.foldersExclude).Ok?
  }

  /** A successful `ha addons` whose reply has no `addons` key. */
  predicate CatalogueMissing(c: Completed)
  {
    c.exitCode == 0 && c.reply.addons.None?
  }

  /** The catalogue a fetch into an empty one leaves behind, given the
      result `c` of `ha addons`: the reply's list in display-name order when
      the command succeeded with an `addons` key, still empty otherwise. */
  ghost predicate Fetched(c: Completed, catalogue: seq<Addon>)
  {
    if c.exitCode == 0 && c.reply.addons.Some? then
      multiset(catalogue) == multiset(c.reply.addons.value) && SortedBy(catalogue, AddonName)
    else catalogue == []
  }

  /** The planning stage of `run_backup` took the history from `before` to
      `after`, the catalogue from `catalogueBefore` to `catalogue` and the raw
      `ha addons` reply from `rawBefore` to `raw`: the catalogue is fetched
      exactly when the name and the folders resolve and it is empty, a
      successful fetch records its reply, and the planned command line is
      the one the resulting catalogue gives, or the KeyError of a reply
      without `addons`. */
  ghost predicate Planned(exec: (nat, seq<string>) -> Completed, cmdArgs: seq<string>, spec: BackupSpec, stamp: string,
                          before: seq<seq<string>>, catalogueBefore: seq<Addon>, rawBefore: Option<Reply>,
                          after: seq<seq<string>>, catalogue: seq<Addon>, raw: Option<Reply>,
                          planned: Result<seq<string>>)
  {
    var fetch := NeedsCatalogue(spec) && catalogueBefore == [];
    var c := exec(|before|, cmdArgs + AddonsCmd);
    && after == before + (if fetch then [cmdArgs + AddonsCmd] else [])
    && (fetch ==> Fetched(c, catalogue))
    && (!fetch ==> catalogue == catalogueBefore)
    && raw == (if fetch && c.exitCode == 0 then Some(c.reply) else rawBefore)
    && planned == (if fetch && CatalogueMissing(c) then Err(KeyError("addons")) else PlannedArgv(spec, stamp, catalogue))
  }

  /** The backup command line of a backup against a catalogue: the dated
      name, then the resolved folders and addons. */
  function PlannedArgv(spec: BackupSpec, stamp: string, installed: seq<Addon>): (r: Result<seq<string>>)
    ensures r.Err? <==> spec.name.None? || ResolveCliArgs(spec, installed).Err?
    ensures r.Ok? ==> ParseBackupCommand(r.value) == Some((spec.name.value + "-" + stamp, ResolveCliArgs(spec, installed).value))
  {
    match GetName(spec.name, true, stamp)
    case Err(f) => Err(f)
    case Ok(name) =>
      match ResolveCliArgs(spec, installed)
      case Err(f) => Err(f)
      case Ok(args) =>
        BackupCommandRoundTrip(name.value, args);
        Ok(BackupCommand(name.value, args))
  }

  /** The outcome of one backup run. */
  datatype BackupRun =
    | Skipped
    | DryRun(argv: seq<string>)
    | CommandFailed(argv: seq<string>)
    | Created(argv: seq<string>, slug: string, size: real)

  /** The outcome `run_backup` as written ends with: when the backup command
      fails, `size` was never bound and the closing log line raises. */
  function AsWrittenOutcome(r: Result<BackupRun>): (w: Result<BackupRun>)
    ensures w != r <==> r.Ok? && r.value.CommandFailed?
    ensures r.Ok? && r.value.CommandFailed? ==> w == Err(UnboundLocalError("size"))
  {
    if r.Ok? && r.value.CommandFailed? then Err(UnboundLocalError("size")) else r
  }

  /** A `HassBackup` object: its configuration and what running it records. */
  class HassBackup {
    const spec: BackupSpec
    var slug: string
    var results: Reply
    var cmdRuntime: Option<real>

    constructor(spec: BackupSpec)
      ensures this.spec == spec && slug == "" && results == NoReply && cmdRuntime == None
    {
      this.spec := spec;
      slug := "";
      results := NoReply;
      cmdRuntime := None;
    }
  }

  /** The backup loop of `configure` over `backups` took the list from
      `before` to `after`: one new backup per entry, carrying the entry's
      spec, up to the first entry the constructor refuses, whose exception
      is `fault`. */
  ghost predicate BackupsAdded(backups: seq<BackupConfig>, fault: Option<Fault>, before: seq<HassBackup>, after: seq<HassBackup>)
  {
    var n := ValidPrefix(backups);
    && fault == (if n < |backups| then Some(BackupSpecFrom(backups[n]).fault) else None)
    && |after| == |before| + n
    && after[..|before|] == before
    && forall j :: 0 <= j < n ==> after[|before| + j].spec == BackupSpecFrom(backups[j]).value
  }

  /** A `HassInfo` object. The process runner is `exec`: the result of the
      k-th command issued with a given argument vector. `issued` is the
      history of argument vectors the object has run. */
  class HassInfo {
    const name: string
    const exec: (nat, seq<string>) -> Completed
    var config: Option<HostConfig>
    var enabled: bool
    var disableReason: Option<string>
    var host: Option<string>
    var user: Option<string>
    var sshPort: Scalar
    var sourceProfile: Option<string>
    var cmdArgs: seq<string>
    var issued: seq<seq<string>>
    var lastCmdResult: Option<Completed>
    var lastCmdRuntime: Option<real>
    var hostInfo: Option<Reply>
    var diskFreeGb: Option<real>
    var diskSize: Option<real>
    var diskFreePct: Option<real>
    var backupsDefined: seq<HassBackup>
    var backupsEnabled: bool
    var addonsInfo: seq<Addon>
    var addonsInstalled: set<string>
    var addonsInfoRaw: Option<Reply>

    /** The host stays enabled exactly while every command it issued
        succeeded, the disable reason is set exactly when it is not, the last
        result and runtime are those of the last command, and the installed
        set is the catalogue's slugs. */
    ghost predicate Valid()
      reads this`issued, this`enabled, this`disableReason, this`lastCmdResult, this`lastCmdRuntime
      reads this`addonsInfo, this`addonsInstalled
    {
      && RunState(exec, issued, enabled, disableReason, lastCmdResult, lastCmdRuntime)
      && addonsInstalled == InstalledSlugs(addonsInfo)
    }

    constructor(name: string, exec: (nat, seq<string>) -> Completed)
      ensures Valid()
      ensures this.name == name && this.exec == exec && config == None
      ensures enabled && disableReason == None
      ensures host == None && user == None && sshPort == Int(22) && sourceProfile == None
      ensures cmdArgs == [] && issued == [] && lastCmdResult == None && lastCmdRuntime == None
      ensures hostInfo == None && diskFreeGb == None && diskSize == None && diskFreePct == None
      ensures backupsDefined == [] && !backupsEnabled
      ensures addonsInfo == [] && addonsInstalled == {} && addonsInfoRaw == None
    {
      this.name := name;
      this.exec := exec;
      config := None;
      enabled := true;
      disableReason := None;
      host := None;
      user := None;
      sshPort := Int(22);
      sourceProfile := None;
      cmdArgs := [];
      issued := [];
      lastCmdResult := None;
      lastCmdRuntime := None;
      hostInfo := None;
      diskFreeGb := None;
      diskSize := None;
      diskFreePct := None;
      backupsDefined := [];
      backupsEnabled := false;
      addonsInfo := [];
      addonsInstalled := {};
      addonsInfoRaw := None;
    }

    /** `configure`: takes the truthy connection entries, appends the ssh
        prefix to `cmd_args`, and builds one backup per entry until the
        backup constructor raises. */
    method Configure(cfg: HostConfig) returns (fault: Option<Fault>)
      modifies this`config, this`host, this`user, this`sshPort, this`sourceProfile, this`cmdArgs
      modifies this`backupsDefined, this`backupsEnabled
      ensures config == Some(cfg)
      ensures host == (if Given(cfg.host) then cfg.host else old(host))
      ensures user == (if Given(cfg.user) then cfg.user else old(user))
      ensures sshPort == (if cfg.sshport.Some? && Truthy(cfg.sshport.value) then cfg.sshport.value else old(sshPort))
      ensures sourceProfile == (if Given(cfg.sourceNeeded) then cfg.sourceNeeded else old(sourceProfile))
      ensures cmdArgs == old(cmdArgs) + SshPrefix(host, user, sshPort, sourceProfile)
      ensures BackupsAdded(cfg.backups, fault, old(backupsDefined), backupsDefined)
      ensures forall j :: |old(backupsDefined)| <= j < |backupsDefined| ==> fresh(backupsDefined[j])
      ensures backupsEnabled == (old(backupsEnabled) || (fault == None && cfg.backups != []))
    {
      config := Some(cfg);
      TakeConnection(cfg);
      fault := DefineBackups(cfg.backups);
    }

    /** The `backups:` part of `configure`: the backups are built, and
        `backups_enabled` is set once a non-empty list is fully built. */
    method DefineBackups(backups: seq<BackupConfig>) returns (fault: Option<Fault>)
      modifies this`backupsDefined, this`backupsEnabled
      ensures BackupsAdded(backups, fault, old(backupsDefined), backupsDefined)
      ensures forall j :: |old(backupsDefined)| <= j < |backupsDefined| ==> fresh(backupsDefined[j])
      ensures backupsEnabled == (old(backupsEnabled) || (fault == None && backups != []))
    {
      fault := None;
      if backups != [] {
        fault := AddBackups(backups);
        if fault == None && |backupsDefined| > 0 {
          backupsEnabled := true;
        }
      } else {
        assert ValidPrefix(backups) == 0;
        assert backupsDefined[..|backupsDefined|] == backupsDefined;
      }
    }

    /** The connection part of `configure`: each entry is taken when truthy,
        then the ssh prefix is appended. */
    method TakeConnection(cfg: HostConfig)
      modifies this`host, this`user, this`sshPort, this`sourceProfile, this`cmdArgs
      ensures cmdArgs == old(cmdArgs) + SshPrefix(host, user, sshPort, sourceProfile)
      ensures host == (if Given(cfg.host) then cfg.host else old(host))
      ensures user == (if Given(cfg.user) then cfg.user else old(user))
      ensures sshPort == (if cfg.sshport.Some? && Truthy(cfg.sshport.value) then cfg.sshport.value else old(sshPort))
      ensures sourceProfile == (if Given(cfg.sourceNeeded) then cfg.sourceNeeded else old(sourceProfile))
    {
      if Given(cfg.host) {
        host := cfg.host;
      }
      if Given(cfg.user) {
        user := cfg.user;
      }
      if cfg.sshport.Some? && Truthy(cfg.sshport.value) {
        sshPort := cfg.sshport.value;
      }
      if Given(cfg.sourceNeeded) {
        sourceProfile := cfg.sourceNeeded;
      }
      AppendSshPrefix();
    }

    /** The `cmd_args` appends of `configure`. */
    method AppendSshPrefix()
      modifies this`cmdArgs
      ensures cmdArgs == old(cmdArgs) + SshPrefix(host, user, sshPort, sourceProfile)
    {
      var prefix: seq<string> := [];
      if host.Some? && host.value != "localhost" {
        prefix := ["ssh"];
        prefix := prefix + (if user.Some? then ["-l", user.value] else []);
        prefix := prefix + (if sshPort != Int(22) then ["-p", PyStr(sshPort)] else []);
        prefix := prefix + [host.value];
        prefix := prefix + (if sourceProfile.Some? then ["source", sourceProfile.value, "&&"] else []);
      }
      cmdArgs := cmdArgs + prefix;
    }

    /** The backup loop of `configure`. */
    method AddBackups(backups: seq<BackupConfig>) returns (fault: Option<Fault>)
      modifies this`backupsDefined
      ensures BackupsAdded(backups, fault, old(backupsDefined), backupsDefined)
      ensures forall j :: |old(backupsDefined)| <= j < |backupsDefined| ==> fresh(backupsDefined[j])
    {
      ghost var before := backupsDefined;
      for i := 0 to |backups|
        invariant |backupsDefined| == |before| + i
        invariant backupsDefined[..|before|] == before
        invariant forall j :: 0 <= j < i ==> BackupSpecFrom(backups[j]).Ok?
        invariant forall j :: 0 <= j < i ==> backupsDefined[|before| + j].spec == BackupSpecFrom(backups[j]).value
        invariant forall j :: |before| <= j < |backupsDefined| ==> fresh(backupsDefined[j])
      {
        var spec := BackupSpecFrom(backups[i]);
        if spec.Err? {
          assert ValidPrefix(backups) == i;
          return Some(spec.fault);
        }
        var b := new HassBackup(spec.value);
        backupsDefined := backupsDefined + [b];
      }
      assert ValidPrefix(backups) == |backups|;
      return None;
    }

    /** `run_cmd`: runs `cmd_args + cmd`, records its result and runtime,
        and disables the host for good when it exits non-zero. */
    method RunCmd(cmd: seq<string>) returns (ok: bool)
      requires Valid()
      modifies this`issued, this`lastCmdResult, this`lastCmdRuntime, this`enabled, this`disableReason
      ensures Valid()
      ensures issued == old(issued) + [cmdArgs + cmd]
      ensures lastCmdResult == Some(exec(|old(issued)|, cmdArgs + cmd))
      ensures ok <==> lastCmdResult.value.exitCode == 0
      ensures enabled == (old(enabled) && ok)
      ensures !ok ==> disableReason == Some(HostInfoFailed)
    {
      var argv := cmdArgs + cmd;
      var result := exec(|issued|, argv);
      issued := issued + [argv];
      lastCmdResult := Some(result);
      lastCmdRuntime := Some(result.runtime);
      assert issued[..|issued| - 1] == old(issued);
      if result.exitCode == 0 {
        return true;
      }
      assert exec(|issued| - 1, issued[|issued| - 1]).exitCode != 0;
      enabled := false;
      disableReason := Some(HostInfoFailed);
      return false;
    }

    /** `fetch_host_info`: runs `ha host info`, records the disk figures,
        and clears `backups_enabled` below 2 GB free. Missing figures raise
        TypeError and a zero total ZeroDivisionError. */
    method FetchHostInfo() returns (r: Result<bool>)
      requires Valid()
      modifies this`issued, this`lastCmdResult, this`lastCmdRuntime, this`enabled, this`disableReason
      modifies this`hostInfo, this`diskFreeGb, this`diskSize, this`diskFreePct, this`backupsEnabled
      ensures Valid()
      ensures issued == old(issued) + [cmdArgs + HostInfoCmd]
      ensures var c := lastCmdResult.value; var reply := c.reply;
        && (c.exitCode != 0 ==> r == Ok(false) && hostInfo == old(hostInfo) && diskFreeGb == old(diskFreeGb) && diskSize == old(diskSize))
        && (c.exitCode == 0 ==> hostInfo == Some(reply) && diskFreeGb == reply.diskFree && diskSize == reply.diskTotal)
        && (c.exitCode == 0 && (reply.diskFree.None? || reply.diskTotal.None?) ==> r == Err(TypeError(DivisionMessage)))
        && (c.exitCode == 0 && reply.diskFree.Some? && reply.diskTotal == Some(0.0) ==> r == Err(ZeroDivisionError))
        && (c.exitCode == 0 && reply.diskFree.Some? && reply.diskTotal.Some? && reply.diskTotal.value != 0.0 ==>
              r == Ok(true) && diskFreePct == Some(reply.diskFree.value / reply.diskTotal.value * 100.0))
      ensures r != Ok(true) ==> diskFreePct == old(diskFreePct) && backupsEnabled == old(backupsEnabled)
      ensures r == Ok(true) ==> backupsEnabled == (old(backupsEnabled) && diskFreeGb.value >= MinFreeGb)
    {
      var ok := RunCmd(HostInfoCmd);
      if !ok {
        return Ok(false);
      }
      var reply := lastCmdResult.value.reply;
      hostInfo := Some(reply);
      diskFreeGb := reply.diskFree;
      diskSize := reply.diskTotal;
      if reply.diskFree.None? || reply.diskTotal.None? {
        return Err(TypeError(DivisionMessage));
      }
      if reply.diskTotal.value == 0.0 {
        return Err(ZeroDivisionError);
      }
      diskFreePct := Some(reply.diskFree.value / reply.diskTotal.value * 100.0);
      if reply.diskFree.value < MinFreeGb {
        backupsEnabled := false;
      }
      return Ok(true);
    }

    /** `fetch_addons_installed`: runs `ha addons` and keeps its list sorted
        by display name as the catalogue. */
    method FetchAddonsInstalled() returns (r: Result<bool>)
      requires Valid()
      modifies this`issued, this`lastCmdResult, this`lastCmdRuntime, this`enabled, this`disableReason
      modifies this`addonsInfoRaw, this`addonsInfo, this`addonsInstalled
      ensures Valid()
      ensures issued == old(issued) + [cmdArgs + AddonsCmd]
      ensures lastCmdResult == Some(exec(|old(issued)|, cmdArgs + AddonsCmd))
      ensures var c := lastCmdResult.value;
        && (c.exitCode != 0 ==> r == Ok(false) && addonsInfoRaw == old(addonsInfoRaw) && addonsInfo == old(addonsInfo))
        && (c.exitCode == 0 ==> addonsInfoRaw == Some(c.reply))
        && (CatalogueMissing(c) ==> r == Err(KeyError("addons")) && addonsInfo == old(addonsInfo))
        && (c.exitCode == 0 && c.reply.addons.Some? ==>
              r == Ok(true) && multiset(addonsInfo) == multiset(c.reply.addons.value) && SortedBy(addonsInfo, AddonName))
    {
      var ok := RunCmd(AddonsCmd);
      if !ok {
        return Ok(false);
      }
      var reply := lastCmdResult.value.reply;
      addonsInfoRaw := Some(reply);
      if reply.addons.None? {
        return Err(KeyError("addons"));
      }
      var sorted := SortBy(reply.addons.value, AddonName);
      addonsInstalled := SlugSet(sorted);
      addonsInfo := sorted;
      return Ok(true);
    }

    /** `get_addons_installed`: the catalogue, fetched only while it is
        empty. */
    method GetAddonsInstalled() returns (r: Result<seq<Addon>>)
      requires Valid()
      modifies this`issued, this`lastCmdResult, this`lastCmdRuntime, this`enabled, this`disableReason
      modifies this`addonsInfoRaw, this`addonsInfo, this`addonsInstalled
      ensures Valid()
      ensures old(addonsInfo) != [] ==> unchanged(this) && r == Ok(addonsInfo)
      ensures old(addonsInfo) == [] ==>
        var c := exec(|old(issued)|, cmdArgs + AddonsCmd);
        && issued == old(issued) + [cmdArgs + AddonsCmd]
        && Fetched(c, addonsInfo)
        && addonsInfoRaw == (if c.exitCode == 0 then Some(c.reply) else old(addonsInfoRaw))
        && r == (if CatalogueMissing(c) then Err(KeyError("addons")) else Ok(addonsInfo))
    {
      if addonsInfo == [] {
        var fetched := FetchAddonsInstalled();
        if fetched.Err? {
          return Err(fetched.fault);
        }
      }
      return Ok(addonsInfo);
    }

    /** The part of `run_backup` before the dry-run test: the dated name,
        the folders, the catalogue and the addons, assembled into the
        backup command line. */
    method PlanBackup(spec: BackupSpec, stamp: string) returns (r: Result<seq<string>>)
      requires Valid()
      modifies this`issued, this`lastCmdResult, this`lastCmdRuntime, this`enabled, this`disableReason
      modifies this`addonsInfoRaw, this`addonsInfo, this`addonsInstalled
      ensures Valid()
      ensures Planned(exec, cmdArgs, spec, stamp, old(issued), old(addonsInfo), old(addonsInfoRaw), issued, addonsInfo, addonsInfoRaw, r)
    {
      var name := GetName(spec.name, true, stamp);
      if name.Err? {
        return Err(name.fault);
      }
      var folders := GetFolders(spec.foldersInclude, spec.foldersExclude);
      if folders.Err? {
        return Err(folders.fault);
      }
      r := PlanWithCatalogue(spec, stamp, name.value.value, folders.value);
    }

    /** The rest of the planning once the name and the folders are known:
        the catalogue, the addons and the argument list. */
    method PlanWithCatalogue(spec: BackupSpec, stamp: string, dated: string, folders: seq<string>)
      returns (r: Result<seq<string>>)
      requires Valid()
      requires GetName(spec.name, true, stamp) == Ok(Some(dated))
      requires ResolveFolders(spec.foldersInclude, spec.foldersExclude) == Ok(folders)
      modifies this`issued, this`lastCmdResult, this`lastCmdRuntime, this`enabled, this`disableReason
      modifies this`addonsInfoRaw, this`addonsInfo, this`addonsInstalled
      ensures Valid()
      ensures Planned(exec, cmdArgs, spec, stamp, old(issued), old(addonsInfo), old(addonsInfoRaw), issued, addonsInfo, addonsInfoRaw, r)
    {
      var installed := GetAddonsInstalled();
      if installed.Err? {
        return Err(installed.fault);
      }
      var addons := GetAddons(spec.addonsInclude, spec.addonsExclude, installed.value);
      if addons.Err? {
        return Err(addons.fault);
      }
      var args := CliArgsFor(folders, addons.value);
      return Ok(BackupCommand(dated, args));
    }

    /** What running the backup command at index `k` of the history leads
        to: a failed command, a reply without `slug` (KeyError), or the
        `ha backups info` of the new slug whose reply is recorded and whose
        `size` is required. */
    ghost predicate Executed(k: nat, argv: seq<string>, r: Result<BackupRun>, backup: HassBackup)
      reads this, backup
    {
      var first := exec(k, cmdArgs + argv);
      && |issued| > k && issued[k] == cmdArgs + argv
      && (first.exitCode != 0 ==> r == Ok(CommandFailed(argv)) && |issued| == k + 1)
      && (first.exitCode == 0 && first.reply.slug.None? ==> r == Err(KeyError("slug")) && |issued| == k + 1)
      && (first.exitCode == 0 && first.reply.slug.Some? ==>
            && backup.slug == first.reply.slug.value
            && backup.cmdRuntime == Some(first.runtime)
            && |issued| == k + 2
            && issued[k + 1] == cmdArgs + InfoCmd(backup.slug)
            && backup.results == exec(k + 1, issued[k + 1]).reply
            && r == (if backup.results.size.Some? then Ok(Created(argv, backup.slug, backup.results.size.value))
                     else Err(KeyError("size"))))
    }

    /** The backup command produced no new backup: it failed, or its reply
        had no `slug`. */
    predicate NoNewBackup(k: nat, argv: seq<string>)
      reads this`cmdArgs
    {
      exec(k, cmdArgs + argv).exitCode != 0 || exec(k, cmdArgs + argv).reply.slug.None?
    }

    /** The part of `run_backup` after the dry-run test. */
    method ExecuteBackup(backup: HassBackup, argv: seq<string>) returns (r: Result<BackupRun>)
      requires Valid()
      modifies this`issued, this`lastCmdResult, this`lastCmdRuntime, this`enabled, this`disableReason
      modifies backup`slug, backup`results, backup`cmdRuntime
      ensures Valid()
      ensures old(issued) <= issued
      ensures Executed(|old(issued)|, argv, r, backup)
      ensures NoNewBackup(|old(issued)|, argv) ==> unchanged(backup)
    {
      var ok := RunCmd(argv);
      if !ok {
        return Ok(CommandFailed(argv));
      }
      var reply := lastCmdResult.value.reply;
      if reply.slug.None? {
        return Err(KeyError("slug"));
      }
      backup.slug := reply.slug.value;
      backup.cmdRuntime := lastCmdRuntime;
      ghost var k := |issued|;
      var _ := RunCmd(InfoCmd(backup.slug));
      backup.results := lastCmdResult.value.reply;
      if backup.results.size.None? {
        return Err(KeyError("size"));
      }
      return Ok(Created(argv, backup.slug, backup.results.size.value));
    }

    /** `run_backup`, with the intended ending: a failed backup command is
        reported as such. A disabled backup issues nothing; a dry run issues
        at most the catalogue fetch. `planned` is the command line the
        planning stage produced and `k` the history index after it; for a
        skipped backup there is no planning, and `planned` is an empty
        command line that nothing reads. */
    method RunBackup(backup: HassBackup, dryrun: bool, stamp: string)
      returns (r: Result<BackupRun>, ghost planned: Result<seq<string>>, ghost k: nat)
      requires Valid()
      modifies this`issued, this`lastCmdResult, this`lastCmdRuntime, this`enabled, this`disableReason
      modifies this`addonsInfoRaw, this`addonsInfo, this`addonsInstalled
      modifies backup`slug, backup`results, backup`cmdRuntime
      ensures Valid()
      ensures !Truthy(backup.spec.enabled) <==> r == Ok(Skipped)
      ensures !Truthy(backup.spec.enabled) ==> unchanged(this) && unchanged(backup) && k == |issued|
      ensures Truthy(backup.spec.enabled) ==>
        k <= |issued| && Planned(exec, cmdArgs, backup.spec, stamp, old(issued), old(addonsInfo), old(addonsInfoRaw),
          issued[..k], addonsInfo, addonsInfoRaw, planned)
      ensures Truthy(backup.spec.enabled) && planned.Err? ==> r == Err(planned.fault) && |issued| == k && unchanged(backup)
      ensures Truthy(backup.spec.enabled) && planned.Ok? && dryrun ==> r == Ok(DryRun(planned.value)) && |issued| == k && unchanged(backup)
      ensures Truthy(backup.spec.enabled) && planned.Ok? && !dryrun ==> Executed(k, planned.value, r, backup)
      ensures Truthy(backup.spec.enabled) && planned.Ok? && !dryrun && NoNewBackup(k, planned.value) ==> unchanged(backup)
      ensures Truthy(backup.spec.enabled) && planned.Ok? && !dryrun && exec(k, cmdArgs + planned.value).exitCode != 0 ==>
        AsWrittenOutcome(r) == Err(UnboundLocalError("size"))
    {
      if !Truthy(backup.spec.enabled) {
        return Ok(Skipped), Ok([]), |issued|;
      }
      r, planned, k := RunEnabled(backup, dryrun, stamp);
    }

    /** `run_backup` past the test of `enabled`: the planning, then the dry
        run or the backup command. */
    method RunEnabled(backup: HassBackup, dryrun: bool, stamp: string)
      returns (r: Result<BackupRun>, ghost planned: Result<seq<string>>, ghost k: nat)
      requires Valid()
      requires Truthy(backup.spec.enabled)
      modifies this`issued, this`lastCmdResult, this`lastCmdRuntime, this`enabled, this`disableReason
      modifies this`addonsInfoRaw, this`addonsInfo, this`addonsInstalled
      modifies backup`slug, backup`results, backup`cmdRuntime
      ensures Valid()
      ensures r != Ok(Skipped)
      ensures k <= |issued|
      ensures Planned(exec, cmdArgs, backup.spec, stamp, old(issued), old(addonsInfo), old(addonsInfoRaw),
          issued[..k], addonsInfo, addonsInfoRaw, planned)
      ensures planned.Err? ==> r == Err(planned.fault) && |issued| == k && unchanged(backup)
      ensures planned.Ok? && dryrun ==> r == Ok(DryRun(planned.value)) && |issued| == k && unchanged(backup)
      ensures planned.Ok? && !dryrun ==> Executed(k, planned.value, r, backup)
      ensures planned.Ok? && !dryrun && NoNewBackup(k, planned.value) ==> unchanged(backup)
    {
      var plan := PlanBackup(backup.spec, stamp);
      planned := plan;
      k := |issued|;
      r := RunPlanned(backup, dryrun, plan);
    }

    /** `run_backup` once the command line is planned: the planning error,
        the dry run, or the backup command. */
    method RunPlanned(backup: HassBackup, dryrun: bool, planned: Result<seq<string>>) returns (r: Result<BackupRun>)
      requires Valid()
      modifies this`issued, this`lastCmdResult, this`lastCmdRuntime, this`enabled, this`disableReason
      modifies backup`slug, backup`results, backup`cmdRuntime
      ensures Valid()
      ensures r != Ok(Skipped)
      ensures |old(issued)| <= |issued| && issued[..|old(issued)|] == old(issued)
      ensures planned.Err? ==> r == Err(planned.fault) && issued == old(issued) && unchanged(backup)
      ensures planned.Ok? && dryrun ==> r == Ok(DryRun(planned.value)) && issued == old(issued) && unchanged(backup)
      ensures planned.Ok? && !dryrun ==> Executed(|old(issued)|, planned.value, r, backup)
      ensures planned.Ok? && !dryrun && NoNewBackup(|old(issued)|, planned.value) ==> unchanged(backup)
    {
      if planned.Err? {
        return Err(planned.fault);
      }
      if dryrun {
        return Ok(DryRun(planned.value));
      }
      r := ExecuteBackup(backup, planned.value);
      assert issued[..|old(issued)|] == old(issued);
    }
  }
}
