/** The Instance a pass reconciles, the backup parameters it carries, and what a
    pass depends on besides the store. */
module Instances {
  import opened Kube
  import opened Json
  import opened Names
  import opened Retention

  datatype Schedule = Schedule(name: string, cron: string, enabled: bool, retention: Option<RetentionSpec>,
      parameters: Payload)

  datatype StorageConfig = StorageConfig(storage: string, pitr: bool, schedules: seq<Schedule>)

  datatype BackupConfig = BackupConfig(enabled: bool, classRef: string, storages: seq<StorageConfig>)

  datatype EngineStorage = EngineStorage(size: int, storageClass: Option<string>)

  datatype Engine = Engine(image: string, version: string, replicas: Option<int>, storage: Option<EngineStorage>)

  const NO_ENGINE := Engine("", "", None, None)

  datatype Topology = TopologyUnset | Standalone | Galera | Replication | OtherTopology(name: string)

  datatype PointInTime = PointInTime(instanceRef: Option<string>, toDate: bool, date: Option<int>)

  datatype DataSource =
    | FromBackup(backup: Option<string>)
    | FromPointInTime(target: Option<PointInTime>)
    | FromElsewhere

  datatype Instance = Instance(
    name: string,
    versionBundle: string,
    topology: Topology,
    engine: Option<Engine>,
    backup: Option<BackupConfig>,
    dataSource: Option<DataSource>)

  /** The images and version bundles of the provider definition. */
  datatype Catalog = Catalog(images: map<string, string>, defaultImage: string, bundles: map<string, string>,
      defaultBundle: string)

  /** digest names objects; listing is the order in which a List call returns
      what it selects; gap is the time between the next two firings of a cron
      expression, sampled during the pass, or None when it does not parse. */
  datatype Env = Env(digest: Digest, listing: set<Key> -> seq<Key>, gap: string -> Option<int>, catalog: Catalog)

  ghost predicate Enumerates(order: seq<Key>, keys: set<Key>) {
    && (forall k :: k in keys <==> k in order)
    && (forall i, j | 0 <= i < j < |order| :: order[i] != order[j])
  }

  ghost predicate ValidEnv(env: Env) {
    && IsDigest(env.digest)
    && forall keys :: Enumerates(env.listing(keys), keys)
  }

  function TheEngine(inst: Instance): Engine {
    if inst.engine.Some? then inst.engine.value else NO_ENGINE
  }

  // ----- backup parameters (internal/provider/backup.go) ----------------------

  datatype Parameters = Parameters(kind: string, compression: string, databases: seq<string>,
      ignoreGlobalPriv: Option<bool>, target: string)

  const NO_PARAMETERS := Parameters("", "", [], None, "")

  function TextField(m: Fields, key: string): Option<string> {
    if key !in m || m[key].Null? then Some("")
    else if m[key].Str? then Some(m[key].s)
    else None
  }

  function FlagField(m: Fields, key: string): Option<Option<bool>> {
    if key !in m || m[key].Null? then Some(None)
    else if m[key].Bool? then Some(Some(m[key].b))
    else None
  }

  function ListField(m: Fields, key: string): Option<seq<string>> {
    if key !in m || m[key].Null? then Some([])
    else if m[key].Arr? && forall i | 0 <= i < |m[key].items| :: m[key].items[i].Str? || m[key].items[i].Null? then
      Some(seq(|m[key].items|,
          i requires 0 <= i < |m[key].items| => if m[key].items[i].Str? then m[key].items[i].s else ""))
    else None
  }

  function ParseParameters(p: Payload): Option<Parameters> {
    match p
    case NoPayload => Some(NO_PARAMETERS)
    case Garbled => None
    case Document(Null) => Some(NO_PARAMETERS)
    case Document(Obj(m)) =>
      (match (TextField(m, "type"), TextField(m, "compression"), ListField(m, "databases"),
          FlagField(m, "ignoreGlobalPriv"), TextField(m, "target"))
       case (Some(kind), Some(compression), Some(databases), Some(ignore), Some(target)) =>
         Some(Parameters(kind, compression, databases, ignore, target))
       case _ => None)
    case Document(_) => None
  }

  const LOGICAL := "logical"
  const PHYSICAL := "physical"

  /** An empty type, and any type that is not "physical", is logical. */
  function KindOf(p: Parameters): Kind {
    if p.kind == PHYSICAL then Physical else Logical
  }

  function TypeName(kind: Kind): string {
    if kind.Physical? then PHYSICAL else LOGICAL
  }

  // ----- backup storages ------------------------------------------------------

  datatype Resolved = NotPresent | NotS3 | ResolvedS3(s3: S3)

  predicate HasPrefix(s: string, prefix: string) {
    prefix <= s
  }

  function TrimPrefix(s: string, prefix: string): string {
    if HasPrefix(s, prefix) then s[|prefix|..] else s
  }

  /** The operator's S3 specification for a BackupStorage, under a prefix. */
  function ResolveS3(s: Store, storage: string, prefix: string): Resolved {
    if storage !in s.storages then NotPresent
    else match s.storages[storage].s3
      case None => NotS3
      case Some(l) => ResolvedS3(S3(
        l.bucket, TrimPrefix(TrimPrefix(l.endpointURL, "https://"), "http://"), l.region, prefix, l.credentials,
        HasPrefix(l.endpointURL, "https://")))
  }

  /** It depends on the declared storages only. */
  lemma SameStorages(s: Store, t: Store, storage: string, prefix: string)
    requires s.storages == t.storages
    ensures ResolveS3(s, storage, prefix) == ResolveS3(t, storage, prefix)
  {
  }
}
