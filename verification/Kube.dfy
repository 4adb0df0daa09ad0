/** The objects the provider reads and writes, and the cluster store holding
    them. The namespace is fixed: everything the provider does for an Instance
    happens in the Instance's namespace. */
module Kube {
  import opened Json

  datatype Option<+T> = None | Some(value: T)

  /** The label keys of internal/provider/backup_schedule.go and pitr.go; every
      other key is Unrelated. */
  datatype LabelKey =
    | ScheduleLabel
    | InstanceLabel
    | StorageLabel
    | ClassLabel
    | TypeLabel
    | PitrBaseLabel
    | Unrelated(key: string)

  type Labels = map<LabelKey, string>

  /** A controller reference. Two references to the same kind and name are the
      same controller, whatever their UID. */
  datatype Owner = Owner(kind: string, name: string)

  /** The operator's S3 specification, as resolved from a BackupStorage. */
  datatype S3 = S3(bucket: string, endpoint: string, region: string, prefix: string, credentials: string, tls: bool)

  datatype Kind = Logical | Physical

  function Other(kind: Kind): Kind {
    if kind.Logical? then Physical else Logical
  }

  /** Operator backup objects live under their kind (Backup or PhysicalBackup) and name. */
  datatype Key = Key(kind: Kind, name: string)

  datatype CronSchedule = CronSchedule(cron: string, suspend: bool, immediate: bool)

  /** The parts of the specification only one of the two kinds has. */
  datatype Content =
    | Unspecified
    | Dump(args: seq<string>, databases: seq<string>, ignoreGlobalPriv: Option<bool>)
    | Snapshot(target: string)

  /** An operator Backup or PhysicalBackup. */
  datatype BackupCR = BackupCR(
    labels: Labels,
    owner: Option<Owner>,
    mariadb: string,
    waitForIt: bool,
    storage: Option<S3>,
    maxRetention: int,
    inherited: Labels,
    schedule: Option<CronSchedule>,
    compression: string,
    content: Content)

  const BLANK := BackupCR(map[], None, "", false, None, 0, map[], None, "", Unspecified)

  /** The MariaDB fields the provider declares. */
  datatype MariaDBSpec = MariaDBSpec(
    image: string,
    replicas: int,
    size: Option<int>,
    storageClass: string,
    galera: bool,
    replication: bool,
    bootstrapFrom: Option<Json>,
    pitrRef: Option<string>,
    replicaTemplate: Option<string>)

  /** What the operator reports about a MariaDB. */
  datatype MariaDBStatus = MariaDBStatus(
    ready: bool,
    restored: bool,
    replayError: Option<string>,
    replaySkipped: bool,
    replayed: bool,
    replaying: bool)

  const NO_STATUS := MariaDBStatus(false, false, None, false, false, false)

  datatype MariaDB = MariaDB(spec: MariaDBSpec, status: MariaDBStatus)

  datatype Pitr = Pitr(owner: Option<Owner>, base: string, storage: Option<S3>)

  datatype Secret = Secret(kind: string, data: map<string, string>)

  datatype BackupStorage = BackupStorage(s3: Option<S3Location>)
  datatype S3Location = S3Location(bucket: string, endpointURL: string, region: string, credentials: string)

  /** The raw parameters of a schedule or an OpenEverest Backup: absent, bytes that
      are not JSON, or a JSON document. */
  datatype Payload = NoPayload | Garbled | Document(json: Json)

  datatype BackupState = StatePending | StateRunning | StateSucceeded | StateFailed

  /** The operator object an OpenEverest Backup records as its execution. */
  datatype ObjectRef = ObjectRef(kind: string, name: string)

  /** An OpenEverest Backup. */
  datatype EverestBackup = EverestBackup(
    origin: Option<string>,
    classRef: string,
    storage: string,
    scheduleName: string,
    parameters: Payload,
    state: BackupState,
    completedAt: Option<int>,
    operatorRef: Option<ObjectRef>)

  datatype RestoreState = RestorePending | RestoreRunning | RestoreSucceeded | RestoreFailed(message: string)

  /** An operator Restore; the state is what the operator reports. */
  datatype RestoreCR = RestoreCR(owner: Option<Owner>, mariadb: string, backup: string, state: RestoreState)

  datatype Store = Store(
    backups: map<Key, BackupCR>,
    mariadbs: map<string, MariaDB>,
    pitrs: map<string, Pitr>,
    secrets: map<string, Secret>,
    restores: map<string, RestoreCR>,
    storages: map<string, BackupStorage>,
    everestBackups: map<string, EverestBackup>)

  /** One successful API call that changes the store. */
  datatype Write =
    | PutBackup(key: Key, cr: BackupCR)
    | DeleteBackup(key: Key)
    | ApplyMariaDB(name: string, spec: MariaDBSpec)
    | PutPitr(name: string, pitr: Pitr)
    | DeletePitr(name: string)
    | CreateSecret(name: string, secret: Secret)
    | PutRestore(name: string, restore: RestoreCR)
    | DeleteRestore(name: string)

  /** Server-side apply sets the declared fields and leaves the status alone. */
  function Applied(mariadbs: map<string, MariaDB>, name: string, spec: MariaDBSpec): map<string, MariaDB> {
    mariadbs[name := MariaDB(spec, if name in mariadbs then mariadbs[name].status else NO_STATUS)]
  }

  function Performed(s: Store, w: Write): Store {
    match w
    case PutBackup(key, cr) => s.(backups := s.backups[key := cr])
    case DeleteBackup(key) => s.(backups := s.backups - {key})
    case ApplyMariaDB(name, spec) => s.(mariadbs := Applied(s.mariadbs, name, spec))
    case PutPitr(name, pitr) => s.(pitrs := s.pitrs[name := pitr])
    case DeletePitr(name) => s.(pitrs := s.pitrs - {name})
    case CreateSecret(name, secret) => s.(secrets := s.secrets[name := secret])
    case PutRestore(name, restore) => s.(restores := s.restores[name := restore])
    case DeleteRestore(name) => s.(restores := s.restores - {name})
  }

  function Replay(s: Store, ws: seq<Write>): Store
    decreases |ws|
  {
    if ws == [] then s else Replay(Performed(s, ws[0]), ws[1..])
  }

  lemma {:induction false} ReplayConcat(s: Store, a: seq<Write>, b: seq<Write>)
    ensures Replay(s, a + b) == Replay(Replay(s, a), b)
    decreases |a|
  {
    if a == [] {
      assert a + b == b;
    } else {
      assert (a + b)[0] == a[0] && (a + b)[1..] == a[1..] + b;
      ReplayConcat(Performed(s, a[0]), a[1..], b);
    }
  }
}
