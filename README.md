# hass-backup in Dafny

`hass-backup.py` schedules Home Assistant backups. For each Home Assistant
host it reads a host record, including the list of backups to make. It then
runs `ha` commands on that host, directly or over ssh. Each backup's
folder and addon declarations are resolved into one
`ha backups new --name <name>-<date> --no-progress --folders … --addons …`
command line.

This project models the core of that program:

- **Target resolution in `HassBackup`.**
  - `get_folders`: include set, refused wildcard, refused exclude-only,
    `set.remove` of excludes, sorted, `homeassistant` first.
  - `get_addons`: exclude-only and `*` seeding from the installed
    catalogue, literal includes, excludes that are ignored when absent,
    sorted by display name, KeyError for an uninstalled slug.
  - `get_cli_args`, `get_name`, and what the constructor extracts from a
    backup record.
- **The host session `HassInfo`**, as a class whose methods update its
  fields:
  - `configure` (connection entries, the ssh prefix `cmd_args`, the
    backup list, `backups_enabled`);
  - `run_cmd` (the last result and runtime, and the one-way `enabled`
    flag with its reason);
  - the disk gate of `fetch_host_info`;
  - the lazily fetched addon catalogue of `fetch_addons_installed` and
    `get_addons_installed`;
  - `run_backup` (skip, planning, dry run, the backup command and the
    `ha backups info` follow-up).

Modules:

| module | file | contents |
|---|---|---|
| `Outcomes` | `outcomes.dfy` | `Option`, `Result`, and the Python exceptions the core raises (`Fault`) |
| `Ordering` | `ordering.dfy` | Python's `<=` on `str` and its stable `sorted` |
| `SeqSets` | `seqsets.dfy` | a Python `set` of strings as a duplicate-free sequence, with `add`, `discard`, and `remove` that raises |
| `Config` | `config.dfy` | the already-parsed host and backup records, and the parsed replies of `ha` commands |
| `Folders` | `folders.dfy` | `get_folders` |
| `Addons` | `addons.dfy` | `get_addons` |
| `Backup` | `backup.dfy` | the `HassBackup` constructor, `get_name`, `get_cli_args` and the backup command line |
| `Host` | `host.dfy` | the `HassInfo` and `HassBackup` objects and their methods |

The pure resolution steps follow one pattern:

- A recursive function over the declaration is the reference definition,
  and lemmas state its properties.
- A method with the source's loops is proved equal to that function.

The host is a class:

- The command runner is a parameter `exec: (nat, seq<string>) -> Completed`.
  It gives the result of the k-th command for a given argument vector: exit
  status, parsed reply and runtime.
- The object keeps `issued`, the history of argument vectors it has run.
- `Valid()` ties `enabled`, `disableReason`, `lastCmdResult` and
  `lastCmdRuntime` to that history. `enabled` holds exactly while every
  issued command exited 0.

Python exceptions are `Err(fault)` outcomes, never preconditions.

Three facts about the code shape the model:

- A disabled host still issues commands. Nothing consults `enabled` or
  `backups_enabled` before running a command.
- A dry run still fetches the addon catalogue when `get_cli_args` needs it.
- `run_cmd` keeps only the last result; the history `issued` exists only to
  state contracts.

`HassInfo` is built on the corrected definitions of the findings below:
- backups are constructed by `Backup.BackupSpecFrom`;
- the ssh port is written as text by `PyStr`;
- `RunBackup` reports a failed backup command as `CommandFailed`.

So on `enabled: "false"`, `Configure` appends a disabled backup where the
source raises TypeError. With `sshport: 2222`, `RunCmd` runs the command
where the source raises TypeError. When the backup command fails,
`RunBackup` returns `CommandFailed` where the source raises
UnboundLocalError at its closing log line. `Backup.BackupSpecFromAsWritten`,
`Host.SshPrefixAsWritten` and `Host.AsWrittenOutcome` keep the written
behaviour, and `RunBackup` states that its outcome under
`AsWrittenOutcome` is that UnboundLocalError.

## Model

| member | source | states |
|---|---|---|
| `Ordering.SortBy` | hass-backup.py:190 | Python's `sorted` with a key: the result is a permutation of the input in non-decreasing key order |
| `SeqSets.Add` | hass-backup.py:385 | `set.add`: the elements become the old ones plus `x`, and the set stays free of duplicates |
| `SeqSets.Discard` | hass-backup.py:400 | removing an element: the elements become the old ones minus `x`, still without duplicates |
| `SeqSets.AddEach` | hass-backup.py:379-385 | adding a list element by element yields the union of the set and the list |
| `SeqSets.DiscardEach` | hass-backup.py:425-431 | discarding a list element by element yields the set minus the list |
| `SeqSets.RemoveEachSucceeds` | hass-backup.py:390-391 | a `set.remove` loop succeeds iff every element is in the set and none repeats; the result is then the difference; on failure the KeyError names one of the elements |
| `SeqSets.DiscardAbsent` | hass-backup.py:427-431 | removing a missing element whose KeyError is swallowed leaves the set unchanged |
| `Folders.ResolveFoldersFails` | hass-backup.py:379-391 | folder resolution fails iff there is a `*` include (NotImplementedError), an exclude with nothing included (NotImplementedError), or an exclude that is not in the set or repeats (KeyError on an excluded name) |
| `Folders.ResolveFoldersOrder` | hass-backup.py:377-403 | a resolved folder list holds each included, non-excluded folder exactly once, in ascending order, with `homeassistant` first when present; an empty set stays empty |
| `Folders.HomeFirstOrder` | hass-backup.py:398-401 | moving `homeassistant` to the front of a sorted, duplicate-free list yields the folder order of its names |
| `Folders.FolderOrderUnique` | hass-backup.py:393-401 | only one list has the folder order of a given set of names, so the arbitrary iteration order of the Python set never shows |
| `Folders.IncludeFolders` | hass-backup.py:379-385 | the include loop raises on a `*` entry, and otherwise yields the set of the includes |
| `Folders.RemoveFolders` | hass-backup.py:390-391 | the exclude loop equals the `set.remove` sequence, KeyError included |
| `Folders.GetFolders` | hass-backup.py:374-403 | `get_folders` as written, with its loops, computes the reference resolution |
| `Folders.FoldersExample` | hass-backup.py:374-403 | includes `ssl, homeassistant, media` resolve to `homeassistant, media, ssl` |
| `Addons.NameOf` | hass-backup.py:196 | a slug has a catalogue name iff it is installed; the name returned is that of the last record carrying the slug, as when a dict is built from the list |
| `Addons.AddSlugs` | hass-backup.py:415-416 | adding the installed addons adds exactly the installed slugs |
| `Addons.IncludeEach` | hass-backup.py:418-423 | the include loop adds every installed slug when `*` is among the includes, plus every other include verbatim |
| `Addons.WorkingAddonsIsWorkingSet` | hass-backup.py:408-431 | the working set has no duplicates. It holds every installed slug when the declaration is exclude-only or includes `*`, plus the literal includes, minus the excludes |
| `Addons.FirstUninstalled` | hass-backup.py:434 | finds a working-set slug without a catalogue entry exactly when one exists |
| `Addons.ResolveAddonsFails` | hass-backup.py:434 | addon resolution fails iff some slug of the working set is not installed, and then raises KeyError on such a slug |
| `Addons.ResolveAddonsOrder` | hass-backup.py:433-436 | a resolved addon list is a permutation of the working set, holds only installed slugs, and is in non-decreasing order of display name |
| `Addons.ExcludeAbsentIsNoOp` | hass-backup.py:425-431 | for a declaration with at least one include or exclude, adding an exclude that is not in the working set changes neither the working set nor the result (an empty declaration is excluded because one exclude alone seeds every installed addon) |
| `Addons.ExcludeOnlyKeepsTheRest` | hass-backup.py:412-416 | an exclude-only declaration keeps every installed slug except the excluded ones |
| `Addons.WildcardExcludeExample` | hass-backup.py:418-431 | include `*` and exclude `a`, over installed `a` and `b`, give `b` |
| `Addons.ExcludeOnlyExample` | hass-backup.py:413-431 | exclude `x`, over installed `x` and `y`, gives `y` |
| `Addons.NameOrderExample` | hass-backup.py:433-436 | the list is ordered by display name, not slug: `b` (Alpha) comes before `a` (Zeta) |
| `Addons.AddInstalled` | hass-backup.py:415-416 | the seeding loop computes the reference `AddSlugs` |
| `Addons.IncludeAddons` | hass-backup.py:418-423 | the include loop computes the reference `IncludeEach` |
| `Addons.DiscardAddons` | hass-backup.py:425-431 | the exclude loop, with its KeyError swallowed, computes the reference `DiscardEach` |
| `Addons.GetAddons` | hass-backup.py:405-436 | `get_addons` as written, with its loops, computes the reference resolution |
| `Backup.DisabledSpec` | hass-backup.py:332-340 | the initial state of a backup object is disabled, keeps the configured name and has empty lists |
| `Backup.ExtractSpec` | hass-backup.py:345-357 | extraction fails with NotImplementedError iff a folder exclude is given. It keeps the name, defaults `enabled` to true, and reads each section's lists only when the section is given |
| `Backup.BackupSpecFromAsWritten` | hass-backup.py:342-343 | as written, `enabled: "false"` makes construction raise TypeError; any other record goes through extraction |
| `Backup.BackupSpecFrom` | hass-backup.py:328-357 | as intended: construction fails only on a folder exclude. The backup is enabled iff `enabled` is not the string `"false"`/`"False"` and is absent or truthy |
| `Backup.BackupSpecFromDiffers` | hass-backup.py:342-345 | the written and intended constructors differ exactly on the `"false"` spelling, where the intended one yields a disabled backup |
| `Backup.DisabledBackupRaises` | hass-backup.py:342-343 | a record `name: nightly, enabled: "false"` raises TypeError as written and is a disabled backup as intended |
| `Backup.ConstructedFoldersFail` | hass-backup.py:349-353 | for a constructed backup, folder resolution fails iff there is a `*` include |
| `Backup.GetName` | hass-backup.py:364-372 | raises TypeError iff the date is added to a missing name. Without the date the name is unchanged; with it, stripping `-<date>` gives back the name |
| `Backup.FlagPairs` | hass-backup.py:447-448 | a flag/value pair for every value, in order, twice as long as the values |
| `Backup.CliArgs` | hass-backup.py:444-454 | the argument list is 2 × (folders + addons) long |
| `Backup.CliArgsRoundTrip` | hass-backup.py:444-454 | reading the argument list back gives the folders as the `--folders` values and the addons as the `--addons` values, in order |
| `Backup.CliArgsFor` | hass-backup.py:444-454 | the two append loops of `get_cli_args` compute the reference argument list |
| `Backup.ResolveCliArgsContents` | hass-backup.py:438-454 | the arguments of a backup fail iff its folders or its addons fail to resolve; otherwise they carry exactly the resolved folders and addons |
| `Backup.BackupCommand` | hass-backup.py:259-261 | the backup command adds six fixed-position words to the arguments |
| `Backup.BackupCommandRoundTrip` | hass-backup.py:259-261 | the name and the arguments can be read back from the backup command line |
| `Host.CheckArgv` | hass-backup.py:136 | an argument vector is accepted iff every element is text |
| `Host.SshPrefixLayout` | hass-backup.py:100-114 | the ssh prefix is empty iff the host is unset or `localhost`. Otherwise, in order: `ssh`, `-l user` iff a user is set, `-p port` iff the port is not 22, the host, and `source profile &&` iff a profile is set |
| `Host.SshPrefixAgrees` | hass-backup.py:106-108 | with a text port or port 22, the written and the corrected prefix are the same words |
| `Host.NumericPortRejected` | hass-backup.py:106-108 | `sshport: 2222` on host `pi`: the written prefix makes the argument vector invalid (TypeError); the corrected one is `ssh -p 2222 pi` |
| `Host.ValidPrefix` | hass-backup.py:117-118 | the backups built before the constructor first raises: all entries before the index construct, the entry at it raises |
| `Host.SlugSet` | hass-backup.py:193 | the installed set is the set of catalogue slugs |
| `Host.PlannedArgv` | hass-backup.py:257-261 | the backup command fails iff the name is missing or the arguments fail; otherwise it reads back as the dated name and the resolved arguments |
| `Host.AsWrittenOutcome` | hass-backup.py:268-282 | the written ending differs from the intended one exactly when the backup command failed, and there it is UnboundLocalError on `size` |
| `Host.HassBackup.constructor` | hass-backup.py:339-340 | a new backup object has an empty slug and empty results |
| `Host.HassInfo.constructor` | hass-backup.py:36-73 | a new host is enabled, local, on port 22, with no commands run, no backups, no disk figures and an empty catalogue |
| `Host.HassInfo.Configure` | hass-backup.py:81-123 | truthy connection entries replace the old ones. `cmd_args` grows by the corrected ssh prefix (port as text) of the resulting connection. One backup is appended per entry, built by the corrected `BackupSpecFrom`, until it raises, and that exception is returned: on `enabled: "false"` a disabled backup is appended where the source raises TypeError. `backups_enabled` is set iff a non-empty list was fully built |
| `Host.HassInfo.TakeConnection` | hass-backup.py:87-97 | each connection entry is taken exactly when it is truthy, then the corrected ssh prefix (port as text, where the source appends a numeric port and `subprocess.run` later raises TypeError) is appended |
| `Host.HassInfo.AppendSshPrefix` | hass-backup.py:100-114 | `cmd_args` grows by exactly the corrected ssh prefix `SshPrefix`; a numeric port is written as text, where the source appends the int |
| `Host.HassInfo.DefineBackups` | hass-backup.py:116-121 | the backup list grows by the backups the corrected constructor `BackupSpecFrom` accepts (on `enabled: "false"` a disabled backup, where the source raises TypeError); `backups_enabled` is set iff a non-empty list was fully built |
| `Host.HassInfo.AddBackups` | hass-backup.py:117-118 | one new backup per entry, carrying that entry's configuration as the corrected `BackupSpecFrom` extracts it, up to the first one that raises |
| `Host.HassInfo.RunCmd` | hass-backup.py:127-153 | runs `cmd_args + cmd` and records its result and runtime; returns true iff exit status 0. `enabled` only ever goes false, with the disable reason set, and stays in step with the history |
| `Host.HassInfo.FetchHostInfo` | hass-backup.py:156-178 | a failed command changes no disk figure. A missing figure raises TypeError and a zero total ZeroDivisionError; otherwise the percentage is recorded. `backups_enabled` is only ever cleared, exactly when free disk is below 2.0 GB |
| `Host.HassInfo.FetchAddonsInstalled` | hass-backup.py:180-202 | the command run is `ha addons` and its result becomes the last result. A failed command keeps the catalogue. A reply without `addons` raises KeyError and keeps the catalogue. Otherwise the catalogue is the reply's list, permuted into display-name order, and the installed set is its slugs |
| `Host.HassInfo.GetAddonsInstalled` | hass-backup.py:204-210 | a non-empty catalogue is returned with no command issued and no field changed. An empty one is fetched first with `ha addons`: after a successful reply with `addons` the catalogue is that list in display-name order; after a failed command it stays empty; a reply without `addons` raises KeyError. The raw reply is recorded exactly when the command exits 0 |
| `Host.HassInfo.PlanBackup` | hass-backup.py:257-261 | name, folders, catalogue and addons, in the source's order. The catalogue is fetched exactly when the name and the folders resolve and the catalogue is empty, and is otherwise unchanged. A fetched catalogue is the reply's list in display-name order, or empty after a failed command. The raw reply is recorded exactly after a fetch that exits 0, and is otherwise unchanged. The result is the planned command line against the resulting catalogue, or KeyError when the reply lacks `addons` |
| `Host.HassInfo.PlanWithCatalogue` | hass-backup.py:446-452 | with the name and the folders resolved, the catalogue is fetched iff it is empty (as the reply's list in display-name order, or empty after a failed command) and is otherwise unchanged. The raw reply is recorded exactly after a fetch that exits 0, and is otherwise unchanged. The result is the planned command line against the resulting catalogue, or KeyError when the reply lacks `addons` |
| `Host.HassInfo.ExecuteBackup` | hass-backup.py:268-276 | runs the backup command. On failure the run reports it and the backup object is untouched. A reply without `slug` raises KeyError, also leaving the backup object untouched. Otherwise the slug and runtime are recorded, `ha backups info <slug>` is run, its reply becomes the results, and its `size` is required |
| `Host.HassInfo.RunBackup` | hass-backup.py:231-282 | a disabled backup is skipped with no command issued and no field of the host or the backup changed. Otherwise the planning and the catalogue are as for `PlanBackup`. An error or a dry run issues nothing after the planning and leaves the backup object untouched. A real run executes exactly the planned command line, and leaves the backup object untouched when that command fails or its reply has no `slug`. When it fails, the written ending `AsWrittenOutcome` of the result is UnboundLocalError on `size` |
| `Host.HassInfo.RunEnabled` | hass-backup.py:257-276 | for an enabled backup: the catalogue fetch happens exactly when the planning needs it, the catalogue is otherwise unchanged, and a fetched one is the reply's list in display-name order (empty after a failed command); the raw reply changes exactly after a fetch that exits 0. The planned command line is the one the resulting catalogue gives, or KeyError when the fetched reply lacks `addons`. A planning error or a dry run issues nothing more. A real run executes exactly the planned command line, and leaves the backup object untouched when it fails or its reply has no `slug` |
| `Host.HassInfo.RunPlanned` | hass-backup.py:265-276 | once planned: a planning error or a dry run issues nothing and leaves the backup object untouched; a real run executes the planned command line as `ExecuteBackup` states |

## Left out

- Process execution, ssh and the clock (`subprocess.run`, `time.time`): the runner is the parameter `exec`, and runtimes come from its results.
- The wall-clock date of `get_name`: it is the parameter `stamp`, already formatted as `%Y-%m-%d`.
- YAML parsing and dumping (`yaml.safe_load`, `parseyaml`, `__repr__`): configuration and replies arrive as the parsed records of `Config`. The model keeps only the keys the core reads.
- Replies and records of the wrong shape are not modelled: a non-mapping reply, a non-string name or host, `null` include/exclude lists, or list entries that are not strings.
- `get_prev_backup_info`: it is unfinished and reads a misspelled key, and no other code calls it.
- `main`, argparse and all logging: the orchestration loop is a plain sequence of calls, so it has no state of its own to verify.
- Backups run on the host object that defined them; the constructor's `hass` back-reference is not a field.
- `run_backup`'s `add_date` parameter: the source never passes it on (it always calls `get_name()` with the date), so the model always dates the name.
- `Host.HassInfo.FetchHostInfo`: the percentage is computed over `real` rather than floats, and its log line is left out.
- `Host.HassInfo.FetchAddonsInstalled`: the order among addons with equal display names is left unstated. The `sorted` call sorts the reply's list stably, so ties keep reply order. That order never reaches a result: `get_addons` collects the slugs in a set and sorts them again.
- `Addons.ResolveAddonsOrder`: likewise, ties in display name are ordered only up to the arbitrary order of the Python set.
- The `enabled`/`backups_enabled` gates: the source never consults them before issuing a command. `RunBackup` states this by not requiring `enabled`.

## Findings

| source | as written | input that shows it | evidently intended | confidence | as-written member | corrected member |
|---|---|---|---|---|---|---|
| hass-backup.py:342-343 | `return False` in `__init__` makes CPython raise TypeError, aborting the host's `configure` | a backup record `name: nightly, enabled: "false"` | the backup is kept in its initial, disabled state | high, not executed | `Backup.BackupSpecFromAsWritten`, `Backup.DisabledBackupRaises` | `Backup.BackupSpecFrom` |
| hass-backup.py:268-282 | when the backup command exits non-zero, `size` is never bound and the closing log line raises UnboundLocalError | an `exec` whose backup command exits 1 | the failed run is reported as a failure | high, not executed | `Host.AsWrittenOutcome` | `Host.HassInfo.RunBackup` |
| hass-backup.py:106-108 | a numeric `sshport` is appended to `cmd_args` as an int, and `subprocess.run` refuses a non-string argument with TypeError | `host: pi, sshport: 2222` | `-p 2222` as text | medium, not executed | `Host.SshPrefixAsWritten`, `Host.NumericPortRejected` | `Host.SshPrefix`, `Host.SshPrefixLayout` |
