/** The value side of `HassBackup`: what its constructor extracts from one
    `backups:` entry, the dated backup name, the `--folders`/`--addons`
    argument list and the `ha backups new` command line. */
module Backup {
  import opened Outcomes
  import opened SeqSets
  import opened Config
  import opened Folders
  import opened Addons

  /** The configuration a `HassBackup` keeps: the name, the raw `enabled`
      value (tested for truthiness when the backup is run) and the four
      include/exclude lists. */
  datatype BackupSpec = BackupSpec(
    name: Option<string>,
    enabled: Scalar,
    foldersInclude: seq<string>,
    foldersExclude: seq<string>,
    addonsInclude: seq<string>,
    addonsExclude: seq<string>)

  const FolderExcludeMessage := "Folder exclude not implemented"
  const InitReturnMessage := "__init__() should return None, not 'bool'"
  const NameConcatMessage := "unsupported operand type(s) for +=: 'NoneType' and 'str'"

  /** `enabled: "false"` or `enabled: "False"`, the spelling the constructor
      tests for before anything else. */
  predicate FalseLiteral(cfg: BackupConfig)
  {
    cfg.enabled == Some(Text("false")) || cfg.enabled == Some(Text("False"))
  }

  /** The include list of a section, `[]` when the key is absent. */
  function IncludesOf(sec: Section): seq<string>
  {
    match sec.includes
    case Some(xs) => xs
    case None => []
  }

  /** The exclude list of a section, `[]` when the key is absent. */
  function ExcludesOf(sec: Section): seq<string>
  {
    match sec.excludes
    case Some(xs) => xs
    case None => []
  }

  /** The spec of a backup that stays disabled: the state of the object
      before the extraction of `enabled` and the lists. */
  function DisabledSpec(cfg: BackupConfig): (r: BackupSpec)
    ensures !Truthy(r.enabled) && r.name == cfg.name
    ensures r.foldersInclude == r.foldersExclude == r.addonsInclude == r.addonsExclude == []
  {
    BackupSpec(cfg.name, Bool(false), [], [], [], [])
  }

  /** The extraction after the `"false"` test: `enabled` defaults to true,
      each section is read only when it is a non-empty mapping, and a
      non-empty folder exclude aborts construction. */
  function ExtractSpec(cfg: BackupConfig): (r: Result<BackupSpec>)
    ensures r.Err? <==> SectionGiven(cfg.folders) && ExcludesOf(cfg.folders.value) != []
    ensures r.Err? ==> r.fault == NotImplementedError(FolderExcludeMessage)
    ensures r.Ok? ==> r.value.name == cfg.name && r.value.foldersExclude == []
    ensures r.Ok? ==> (Truthy(r.value.enabled) <==> cfg.enabled.None? || Truthy(cfg.enabled.value))
    ensures r.Ok? ==> r.value.foldersInclude == (if SectionGiven(cfg.folders) then IncludesOf(cfg.folders.value) else [])
    ensures r.Ok? ==> r.value.addonsInclude == (if SectionGiven(cfg.addons) then IncludesOf(cfg.addons.value) else [])
    ensures r.Ok? ==> r.value.addonsExclude == (if SectionGiven(cfg.addons) then ExcludesOf(cfg.addons.value) else [])
  {
    var enabled := if cfg.enabled.Some? then cfg.enabled.value else Bool(true);
    var folders := if SectionGiven(cfg.folders) then cfg.folders.value else Section(None, None);
    var addons := if SectionGiven(cfg.addons) then cfg.addons.value else Section(None, None);
    if ExcludesOf(folders) != [] then Err(NotImplementedError(FolderExcludeMessage))
    else Ok(BackupSpec(cfg.name, enabled, IncludesOf(folders), [], IncludesOf(addons), ExcludesOf(addons)))
  }

  /** `HassBackup.__init__` as written: returning `False` from `__init__`
      makes Python raise TypeError, so `enabled: "false"` aborts the whole
      host's configuration instead of disabling the backup. */
  function BackupSpecFromAsWritten(cfg: BackupConfig): (r: Result<BackupSpec>)
    ensures FalseLiteral(cfg) ==> r == Err(TypeError(InitReturnMessage))
    ensures !FalseLiteral(cfg) ==> r == ExtractSpec(cfg)
  {
    if FalseLiteral(cfg) then Err(TypeError(InitReturnMessage)) else ExtractSpec(cfg)
  }

  /** `HassBackup.__init__` as intended: `enabled: "false"` leaves the backup
      in its initial, disabled state. */
  function BackupSpecFrom(cfg: BackupConfig): (r: Result<BackupSpec>)
    ensures r.Err? <==> !FalseLiteral(cfg) && SectionGiven(cfg.folders) && ExcludesOf(cfg.folders.value) != []
    ensures r.Ok? ==> r.value.foldersExclude == []
    ensures r.Ok? ==> (Truthy(r.value.enabled) <==>
      !FalseLiteral(cfg) && (cfg.enabled.None? || Truthy(cfg.enabled.value)))
  {
    if FalseLiteral(cfg) then Ok(DisabledSpec(cfg)) else ExtractSpec(cfg)
  }

  /** The two constructors agree except on the `"false"` spelling, where the
      written one raises and the intended one yields a disabled backup. */
  lemma BackupSpecFromDiffers(cfg: BackupConfig)
    ensures BackupSpecFromAsWritten(cfg) != BackupSpecFrom(cfg) <==> FalseLiteral(cfg)
    ensures FalseLiteral(cfg) ==> BackupSpecFrom(cfg).Ok? && !Truthy(BackupSpecFrom(cfg).value.enabled)
  {
  }

  /** The input that shows it: a backup with `enabled: "false"`. */
  lemma DisabledBackupRaises()
    ensures BackupSpecFromAsWritten(BackupConfig(Some("nightly"), Some(Text("false")), None, None))
      == Err(TypeError(InitReturnMessage))
    ensures BackupSpecFrom(BackupConfig(Some("nightly"), Some(Text("false")), None, None))
      == Ok(BackupSpec(Some("nightly"), Bool(false), [], [], [], []))
  {
  }

  /** For a constructed backup, folder resolution can only fail on a `*`
      include: the constructor has already refused folder excludes. */
  lemma ConstructedFoldersFail(cfg: BackupConfig)
    requires BackupSpecFrom(cfg).Ok?
    ensures var spec := BackupSpecFrom(cfg).value;
      ResolveFolders(spec.foldersInclude, spec.foldersExclude).Err? <==> Wildcard in spec.foldersInclude
  {
    var spec := BackupSpecFrom(cfg).value;
    ResolveFoldersFails(spec.foldersInclude, spec.foldersExclude);
    ElemsEmpty([]);
  }

  /** `get_name`: the configured name with `-` and the date stamp appended
      when `addDate` is set (the `+=` on a missing name raises TypeError). */
  function GetName(name: Option<string>, addDate: bool, stamp: string): (r: Result<Option<string>>)
    ensures r.Err? <==> addDate && name.None?
    ensures r.Ok? && !addDate ==> r.value == name
    ensures r.Ok? && addDate ==> r.value.Some? && StripDate(r.value.value, stamp) == name
  {
    if !addDate then Ok(name)
    else if name.None? then Err(TypeError(NameConcatMessage))
    else
      var dated := name.value + "-" + stamp;
      assert dated[..|name.value|] == name.value;
      assert dated[|name.value|..] == "-" + stamp;
      Ok(Some(dated))
  }

  /** The inverse of dating a name: the name without its `-<stamp>` suffix. */
  function StripDate(dated: string, stamp: string): (r: Option<string>)
    ensures r.Some? ==> r.value + "-" + stamp == dated
  {
    var n := |dated| - |stamp| - 1;
    if n >= 0 && dated[n..] == "-" + stamp then
      assert dated == dated[..n] + dated[n..];
      Some(dated[..n])
    else None
  }

  /** `flag v` for every value, in order. */
  function FlagPairs(flag: string, values: seq<string>): (r: seq<string>)
    ensures |r| == 2 * |values|
    ensures forall i :: 0 <= i < |values| ==> r[2 * i] == flag && r[2 * i + 1] == values[i]
  {
    if values == [] then []
    else
      var r := [flag, values[0]] + FlagPairs(flag, values[1..]);
      assert forall i :: 1 <= i < |values| ==> r[2 * i] == FlagPairs(flag, values[1..])[2 * (i - 1)];
      assert forall i :: 1 <= i < |values| ==> r[2 * i + 1] == FlagPairs(flag, values[1..])[2 * (i - 1) + 1];
      r
  }

  lemma FlagPairsSnoc(flag: string, values: seq<string>, v: string)
    ensures FlagPairs(flag, values + [v]) == FlagPairs(flag, values) + [flag, v]
  {
    var a := FlagPairs(flag, values + [v]);
    var b := FlagPairs(flag, values) + [flag, v];
    forall k | 0 <= k < |a| ensures a[k] == b[k] {
      var i := k / 2;
      assert k == 2 * i || k == 2 * i + 1;
      assert (values + [v])[i] == if i < |values| then values[i] else v;
    }
  }

  /** `get_cli_args`: `--folders f` for each folder, then `--addons a` for
      each addon. */
  function CliArgs(folders: seq<string>, addons: seq<string>): (r: seq<string>)
    ensures |r| == 2 * (|folders| + |addons|)
  {
    FlagPairs("--folders", folders) + FlagPairs("--addons", addons)
  }

  /** Reads an argument list as `flag value` pairs and collects the values
      of one flag. */
  function ValuesOf(flag: string, args: seq<string>): seq<string>
    decreases |args|
  {
    if |args| < 2 then []
    else (if args[0] == flag then [args[1]] else []) + ValuesOf(flag, args[2..])
  }

  lemma {:induction false} ValuesOfAppend(flag: string, x: seq<string>, y: seq<string>)
    requires |x| % 2 == 0
    ensures ValuesOf(flag, x + y) == ValuesOf(flag, x) + ValuesOf(flag, y)
    decreases |x|
  {
    if x == [] {
      assert x + y == y;
    } else {
      assert (x + y)[2..] == x[2..] + y;
      assert (x + y)[0] == x[0] && (x + y)[1] == x[1];
      ValuesOfAppend(flag, x[2..], y);
    }
  }

  lemma {:induction false} ValuesOfFlagPairs(flag: string, other: string, values: seq<string>)
    ensures ValuesOf(flag, FlagPairs(other, values)) == if flag == other then values else []
  {
    if values != [] {
      var r := FlagPairs(other, values);
      assert r[2..] == FlagPairs(other, values[1..]);
      ValuesOfFlagPairs(flag, other, values[1..]);
      assert values == [values[0]] + values[1..];
    }
  }

  /** The argument list can be read back: its `--folders` values are the
      folders and its `--addons` values the addons, both in order. */
  lemma CliArgsRoundTrip(folders: seq<string>, addons: seq<string>)
    ensures ValuesOf("--folders", CliArgs(folders, addons)) == folders
    ensures ValuesOf("--addons", CliArgs(folders, addons)) == addons
  {
    ValuesOfAppend("--folders", FlagPairs("--folders", folders), FlagPairs("--addons", addons));
    ValuesOfAppend("--addons", FlagPairs("--folders", folders), FlagPairs("--addons", addons));
    ValuesOfFlagPairs("--folders", "--folders", folders);
    ValuesOfFlagPairs("--folders", "--addons", addons);
    ValuesOfFlagPairs("--addons", "--folders", folders);
    ValuesOfFlagPairs("--addons", "--addons", addons);
  }

  /** The two loops of `get_cli_args` over already resolved lists. */
  method CliArgsFor(folders: seq<string>, addons: seq<string>) returns (args: seq<string>)
    ensures args == CliArgs(folders, addons)
  {
    args := [];
    for i := 0 to |folders|
      invariant args == FlagPairs("--folders", folders[..i])
    {
      FlagPairsSnoc("--folders", folders[..i], folders[i]);
      assert folders[..i + 1] == folders[..i] + [folders[i]];
      args := args + ["--folders", folders[i]];
    }
    assert folders[..|folders|] == folders;
    ghost var prefix := args;
    for i := 0 to |addons|
      invariant args == prefix + FlagPairs("--addons", addons[..i])
    {
      FlagPairsSnoc("--addons", addons[..i], addons[i]);
      assert addons[..i + 1] == addons[..i] + [addons[i]];
      args := args + ["--addons", addons[i]];
    }
    assert addons[..|addons|] == addons;
  }

  /** `get_cli_args` of a backup against a catalogue: folders are resolved
      first, so a folder error wins over an addon error. */
  function ResolveCliArgs(spec: BackupSpec, installed: seq<Addon>): Result<seq<string>>
  {
    match ResolveFolders(spec.foldersInclude, spec.foldersExclude)
    case Err(f) => Err(f)
    case Ok(folders) =>
      match ResolveAddons(spec.addonsInclude, spec.addonsExclude, installed)
      case Err(f) => Err(f)
      case Ok(addons) => Ok(CliArgs(folders, addons))
  }

  /** The arguments of a backup carry exactly its resolved folders and
      addons, and fail exactly when one of the resolutions fails. */
  lemma ResolveCliArgsContents(spec: BackupSpec, installed: seq<Addon>)
    ensures ResolveCliArgs(spec, installed).Err? <==>
      ResolveFolders(spec.foldersInclude, spec.foldersExclude).Err? ||
      ResolveAddons(spec.addonsInclude, spec.addonsExclude, installed).Err?
    ensures ResolveCliArgs(spec, installed).Ok? ==>
      Ok(ValuesOf("--folders", ResolveCliArgs(spec, installed).value)) == ResolveFolders(spec.foldersInclude, spec.foldersExclude) &&
      Ok(ValuesOf("--addons", ResolveCliArgs(spec, installed).value)) == ResolveAddons(spec.addonsInclude, spec.addonsExclude, installed)
  {
    var f := ResolveFolders(spec.foldersInclude, spec.foldersExclude);
    var a := ResolveAddons(spec.addonsInclude, spec.addonsExclude, installed);
    if f.Ok? && a.Ok? {
      CliArgsRoundTrip(f.value, a.value);
    }
  }

  /** The fixed head of the backup command. */
  const BackupNew := ["ha", "backups", "new", "--name"]

  /** `ha backups new --name <name> --no-progress <args>`. */
  function BackupCommand(name: string, args: seq<string>): (r: seq<string>)
    ensures |r| == |args| + 6
  {
    BackupNew + [name, "--no-progress"] + args
  }

  /** Reads a backup command line back into its name and arguments. */
  function ParseBackupCommand(argv: seq<string>): Option<(string, seq<string>)>
  {
    if |argv| >= 6 && argv[..4] == BackupNew && argv[5] == "--no-progress" then Some((argv[4], argv[6..]))
    else None
  }

  lemma BackupCommandRoundTrip(name: string, args: seq<string>)
    ensures ParseBackupCommand(BackupCommand(name, args)) == Some((name, args))
  {
    var r := BackupCommand(name, args);
    assert r[..4] == BackupNew;
    assert r[6..] == args;
  }
}
