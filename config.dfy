/** The already-parsed inputs of the tool: the host records of the YAML
    configuration file and the replies of the `ha` commands it runs. */
module Config {
  import opened Outcomes

  /** A YAML scalar as `yaml.safe_load` hands it over. */
  datatype Scalar = Null | Bool(b: bool) | Int(i: int) | Text(s: string)

  /** Python truthiness of a scalar. */
  predicate Truthy(v: Scalar)
  {
    match v
    case Null => false
    case Bool(b) => b
    case Int(i) => i != 0
    case Text(s) => s != ""
  }

  /** Truthiness of an optional string entry (`config.get(key)`). */
  predicate Given(v: Option<string>)
  {
    v.Some? && v.value != ""
  }

  function DecimalDigits(n: nat): (r: string)
    ensures |r| > 0
    ensures forall k :: 0 <= k < |r| ==> '0' <= r[k] <= '9'
  {
    if n < 10 then ["0123456789"[n]] else DecimalDigits(n / 10) + ["0123456789"[n % 10]]
  }

  /** Python's `str()` of a scalar. */
  function PyStr(v: Scalar): string
  {
    match v
    case Null => "None"
    case Bool(b) => if b then "True" else "False"
    case Int(i) => if i < 0 then "-" + DecimalDigits(-i) else DecimalDigits(i)
    case Text(s) => s
  }

  /** The include entry that stands for every item. */
  const Wildcard := "*"

  /** A `folders:` or `addons:` mapping; an absent key is `None`. */
  datatype Section = Section(includes: Option<seq<string>>, excludes: Option<seq<string>>)

  /** `bconfig.get("folders")` / `bconfig.get("addons")` is truthy when the
      mapping is present and has a key. */
  predicate SectionGiven(sec: Option<Section>)
  {
    sec.Some? && (sec.value.includes.Some? || sec.value.excludes.Some?)
  }

  /** One entry of a host's `backups:` list. */
  datatype BackupConfig = BackupConfig(
    name: Option<string>,
    enabled: Option<Scalar>,
    folders: Option<Section>,
    addons: Option<Section>)

  /** One host record of the configuration file. */
  datatype HostConfig = HostConfig(
    host: Option<string>,
    user: Option<string>,
    sshport: Option<Scalar>,
    sourceNeeded: Option<string>,
    backups: seq<BackupConfig>)

  /** One installed addon as listed by `ha addons`. */
  datatype Addon = Addon(slug: string, name: string)

  /** The keys of a parsed `ha` reply that the tool reads; `None` is a
      missing key. */
  datatype Reply = Reply(
    diskFree: Option<real>,
    diskTotal: Option<real>,
    addons: Option<seq<Addon>>,
    slug: Option<string>,
    size: Option<real>)

  /** An empty mapping, the initial `results` of a backup. */
  const NoReply := Reply(None, None, None, None, None)

  /** What running one command returns: its exit status, its parsed standard
      output and its wall-clock runtime in seconds. */
  datatype Completed = Completed(exitCode: int, reply: Reply, runtime: real)
}
