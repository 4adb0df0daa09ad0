/** What one pass of the scheduled-backup reconciler does, as plans
    (internal/provider/backup_schedule.go and backup_physical.go). */
module Schedules {
  import opened Kube
  import opened Names
  import opened Plans
  import opened Instances
  import opened ClusterApi
  import opened Retention

  /** A declared schedule together with the storage it is declared on. */
  datatype Entry = Entry(storage: string, schedule: Schedule)

  function EntriesOf(c: StorageConfig): seq<Entry> {
    seq(|c.schedules|, j requires 0 <= j < |c.schedules| => Entry(c.storage, c.schedules[j]))
  }

  function Entries(storages: seq<StorageConfig>): seq<Entry> {
    if storages == [] then []
    else Entries(storages[..|storages| - 1]) + EntriesOf(storages[|storages| - 1])
  }

  function Declared(inst: Instance): seq<Entry> {
    if inst.backup.Some? && inst.backup.value.enabled then Entries(inst.backup.value.storages) else []
  }

  function ClassRef(inst: Instance): string {
    if inst.backup.Some? then inst.backup.value.classRef else ""
  }

  function ScheduledLabels(instance: string, class_: string, schedule: string, storage: string, kind: Kind): Labels {
    map[ScheduleLabel := schedule, InstanceLabel := instance, StorageLabel := storage,
        ClassLabel := class_, TypeLabel := TypeName(kind)]
  }

  /** What an entry asks for, once its parameters, storage and retention are known. */
  datatype Goal = Goal(key: Key, labels: Labels, mariadb: string, storage: S3, retention: int, schedule: Schedule,
      parameters: Parameters)

  datatype Aim = Blocked(outcome: Outcome) | AimAt(goal: Goal)

  function MariaDBOwner(instance: string): Owner {
    Owner("MariaDB", instance)
  }

  function AimOf(s: Store, env: Env, inst: Instance, e: Entry): Aim {
    match ParseParameters(e.schedule.parameters)
    case None => Blocked(Misconfigured)
    case Some(p) =>
      if inst.name !in s.mariadbs then Blocked(Waiting)
      else match ResolveS3(s, e.storage, inst.name)
        case NotPresent => Blocked(Waiting)
        case NotS3 => Blocked(Misconfigured)
        case ResolvedS3(s3) =>
          match DeriveMaxRetention(env.gap, e.schedule.cron, e.schedule.retention)
          case None => Blocked(Misconfigured)
          case Some(retention) =>
            AimAt(Goal(
              Key(KindOf(p), ScheduledName(env.digest, inst.name, e.schedule.name)),
              ScheduledLabels(inst.name, ClassRef(inst), e.schedule.name, e.storage, KindOf(p)),
              inst.name, s3, retention, e.schedule, p))
  }

  /** The fields set only when the object is created. */
  function Created(g: Goal): BackupCR {
    BLANK.(labels := g.labels, mariadb := g.mariadb, waitForIt := true, storage := Some(g.storage),
           maxRetention := if g.key.kind.Logical? then g.retention else 0, inherited := g.labels)
  }

  function ContentOf(kind: Kind, p: Parameters): Content {
    if kind.Logical? then Dump(["--flush-privileges"], p.databases, p.ignoreGlobalPriv)
    else Snapshot(if p.target != "" then p.target else "PreferReplica")
  }

  /** The fields set on every pass. An unset compression leaves the old one. */
  function Refreshed(g: Goal, cr: BackupCR): BackupCR {
    cr.(maxRetention := if g.key.kind.Physical? then g.retention else cr.maxRetention,
        schedule := Some(CronSchedule(g.schedule.cron, !g.schedule.enabled, false)),
        compression := if g.parameters.compression != "" then g.parameters.compression else cr.compression,
        content := ContentOf(g.key.kind, g.parameters))
  }

  /** The storage is immutable on both kinds, the retention on logical backups. */
  predicate Outdated(g: Goal, cr: BackupCR) {
    cr.storage != Some(g.storage) || (g.key.kind.Logical? && cr.maxRetention != g.retention)
  }

  predicate OutdatedIn(s: Store, g: Goal) {
    g.key in s.backups && Outdated(g, s.backups[g.key])
  }

  function Next(s: Store, g: Goal): BackupCR {
    Refreshed(g, if g.key in s.backups then s.backups[g.key] else Created(g))
  }

  function Rival(key: Key): Key {
    Key(Other(key.kind), key.name)
  }

  /** Recreate the object if an immutable field changed, else create or update it. */
  function TakeOverPlan(s: Store, g: Goal): Plan {
    if OutdatedIn(s, g) then Plan([DeleteBackup(g.key)], Waiting)
    else UpsertPlan(s, g.key, Next(s, g), MariaDBOwner(g.mariadb))
  }

  function GoalPlan(s: Store, g: Goal): Plan {
    var d := DeletePlan(s, Rival(g.key));
    Then(d, TakeOverPlan(After(s, d), g))
  }

  function EntryPlan(s: Store, env: Env, inst: Instance, e: Entry): Plan {
    match AimOf(s, env, inst, e)
    case Blocked(outcome) => Stop(outcome)
    case AimAt(g) => GoalPlan(s, g)
  }

  function EntriesPlan(s: Store, env: Env, inst: Instance, es: seq<Entry>): Plan {
    if es == [] then Stop(Done)
    else
      var p := EntriesPlan(s, env, inst, es[..|es| - 1]);
      Then(p, EntryPlan(After(s, p), env, inst, es[|es| - 1]))
  }

  predicate Wants(e: Entry, kind: Kind) {
    var p := ParseParameters(e.schedule.parameters);
    p.Some? && KindOf(p.value) == kind
  }

  /** The names the pass has marked as desired for one kind. */
  function Desired(env: Env, inst: Instance, es: seq<Entry>, kind: Kind): set<string> {
    set e | e in es && Wants(e, kind) :: ScheduledName(env.digest, inst.name, e.schedule.name)
  }

  predicate Stale(backups: map<Key, BackupCR>, key: Key, desired: set<string>) {
    key in backups && ScheduleLabel in backups[key].labels && key.name !in desired
  }

  function StaleWrites(backups: map<Key, BackupCR>, order: seq<Key>, desired: set<string>): seq<Write> {
    if order == [] then []
    else
      var key := order[|order| - 1];
      StaleWrites(backups, order[..|order| - 1], desired) +
          if Stale(backups, key, desired) then [DeleteBackup(key)] else []
  }

  function PrunePlan(s: Store, env: Env, inst: Instance, kind: Kind): Plan {
    Plan(StaleWrites(s.backups, env.listing(Listed(s.backups, kind, inst.name)),
        Desired(env, inst, Declared(inst), kind)), Done)
  }

  function SchedulesPlan(s: Store, env: Env, inst: Instance): Plan {
    var p := EntriesPlan(s, env, inst, Declared(inst));
    var s1 := After(s, p);
    var q := PrunePlan(s1, env, inst, Logical);
    Then(p, Then(q, PrunePlan(After(s1, q), env, inst, Physical)))
  }

  // ----- the entries of a prefix come first -----------------------------------

  lemma {:induction false} EntriesPrefix(s: Store, env: Env, inst: Instance, es: seq<Entry>, m: nat)
    requires m <= |es|
    ensures EntriesPlan(s, env, inst, es[..m]).writes <= EntriesPlan(s, env, inst, es).writes
    ensures !EntriesPlan(s, env, inst, es[..m]).outcome.Done? ==>
              EntriesPlan(s, env, inst, es[..m]) == EntriesPlan(s, env, inst, es)
    decreases |es|
  {
    if m == |es| {
      assert es[..m] == es;
    } else {
      var init := es[..|es| - 1];
      assert init[..m] == es[..m];
      EntriesPrefix(s, env, inst, init, m);
    }
  }

  lemma {:induction false} EntriesSplit(storages: seq<StorageConfig>, i: nat)
    requires i <= |storages|
    ensures Entries(storages[..i]) <= Entries(storages)
    decreases |storages|
  {
    if i == |storages| {
      assert storages[..i] == storages;
    } else {
      var init := storages[..|storages| - 1];
      assert init[..i] == storages[..i];
      EntriesSplit(init, i);
    }
  }
}
