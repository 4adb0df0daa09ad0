/** Point-in-time recovery: the base PhysicalBackup and the PointInTimeRecovery
    object (internal/provider/pitr.go). */
module PitrSync {
  import opened Kube
  import opened Names
  import opened Plans
  import opened Instances
  import opened ClusterApi
  import opened Retention
  import opened Schedules

  // ----- which storage, which schedule ----------------------------------------

  datatype PitrChoice = NoPitr | OnePitr(config: StorageConfig) | TooManyPitr

  function PitrStorages(storages: seq<StorageConfig>): seq<StorageConfig> {
    if storages == [] then []
    else
      var last := storages[|storages| - 1];
      PitrStorages(storages[..|storages| - 1]) + if last.pitr then [last] else []
  }

  function PitrStorage(inst: Instance): PitrChoice {
    if inst.backup.None? || !inst.backup.value.enabled then NoPitr
    else
      var enabled := PitrStorages(inst.backup.value.storages);
      if enabled == [] then NoPitr else if |enabled| == 1 then OnePitr(enabled[0]) else TooManyPitr
  }

  /** The i-th storage has PITR on, while backups are enabled. */
  predicate PitrAt(inst: Instance, i: nat) {
    && inst.backup.Some? && inst.backup.value.enabled
    && i < |inst.backup.value.storages| && inst.backup.value.storages[i].pitr
  }

  ghost predicate NoneHasPitr(inst: Instance) {
    forall i: nat :: !PitrAt(inst, i)
  }

  ghost predicate OnlyPitr(inst: Instance, config: StorageConfig) {
    exists i: nat | PitrAt(inst, i) :: config == inst.backup.value.storages[i] &&
                                       forall j: nat | PitrAt(inst, j) :: j == i
  }

  ghost predicate TwoHavePitr(inst: Instance) {
    exists i: nat, j: nat | i < j :: PitrAt(inst, i) && PitrAt(inst, j)
  }

  lemma {:induction false} NoPitrFound(storages: seq<StorageConfig>)
    ensures PitrStorages(storages) == [] <==> forall i | 0 <= i < |storages| :: !storages[i].pitr
    decreases |storages|
  {
    if storages != [] {
      var init := storages[..|storages| - 1];
      NoPitrFound(init);
      assert forall i | 0 <= i < |init| :: init[i] == storages[i];
    }
  }

  lemma {:induction false} OnePitrFound(storages: seq<StorageConfig>) returns (i: nat)
    requires |PitrStorages(storages)| == 1
    ensures i < |storages| && storages[i].pitr && PitrStorages(storages) == [storages[i]]
    ensures forall j | 0 <= j < |storages| && storages[j].pitr :: j == i
    decreases |storages|
  {
    var n, init := |storages| - 1, storages[..|storages| - 1];
    assert forall j | 0 <= j < n :: init[j] == storages[j];
    if storages[n].pitr {
      i := n;
      NoPitrFound(init);
    } else {
      i := OnePitrFound(init);
    }
  }

  lemma {:induction false} TwoPitrFound(storages: seq<StorageConfig>) returns (i: nat, j: nat)
    requires |PitrStorages(storages)| >= 2
    ensures i < j < |storages| && storages[i].pitr && storages[j].pitr
    decreases |storages|
  {
    var n, init := |storages| - 1, storages[..|storages| - 1];
    assert forall j | 0 <= j < n :: init[j] == storages[j];
    if storages[n].pitr {
      NoPitrFound(init);
      i :| 0 <= i < n && init[i].pitr;
      j := n;
    } else {
      i, j := TwoPitrFound(init);
    }
  }

  /** Which storage is chosen: the only one with PITR on, none, or an error when two
      have it. */
  lemma PitrStorageIff(inst: Instance)
    ensures PitrStorage(inst) == NoPitr <==> NoneHasPitr(inst)
    ensures forall config :: PitrStorage(inst) == OnePitr(config) <==> OnlyPitr(inst, config)
    ensures PitrStorage(inst) == TooManyPitr <==> TwoHavePitr(inst)
  {
    hide PitrStorages;
    if inst.backup.Some? && inst.backup.value.enabled {
      var storages := inst.backup.value.storages;
      NoPitrFound(storages);
      if |PitrStorages(storages)| == 1 {
        var i := OnePitrFound(storages);
        assert PitrAt(inst, i);
        assert OnlyPitr(inst, storages[i]);
      } else if |PitrStorages(storages)| > 1 {
        var i, j := TwoPitrFound(storages);
        assert PitrAt(inst, i) && PitrAt(inst, j);
      }
    }
  }

  datatype BaseSchedule = BadParameters | NoPhysical | BaseOn(schedule: Schedule)

  function FirstPhysical(schedules: seq<Schedule>): BaseSchedule {
    if schedules == [] then NoPhysical
    else match ParseParameters(schedules[0].parameters)
      case None => BadParameters
      case Some(p) => if KindOf(p) == Physical then BaseOn(schedules[0]) else FirstPhysical(schedules[1..])
  }

  // ----- the plans ------------------------------------------------------------

  function BaseKey(env: Env, inst: Instance): Key {
    Key(Physical, BaseName(env.digest, inst.name))
  }

  function InstanceOwner(instance: string): Owner {
    Owner("Instance", instance)
  }

  function NextBase(s: Store, key: Key, inst: Instance, s3: S3, retention: int, schedule: Schedule): BackupCR {
    var cr := if key in s.backups then s.backups[key]
              else BLANK.(labels := map[InstanceLabel := inst.name, PitrBaseLabel := "true"],
                          mariadb := inst.name, waitForIt := true, storage := Some(s3));
    cr.(maxRetention := retention,
        schedule := Some(CronSchedule(schedule.cron, !schedule.enabled, true)),
        content := ContentOf(Physical, NO_PARAMETERS))
  }

  function BasePlan(s: Store, env: Env, inst: Instance, storage: string, schedule: Schedule): Plan {
    match ResolveS3(s, storage, inst.name)
    case NotPresent => Stop(Waiting)
    case NotS3 => Stop(Misconfigured)
    case ResolvedS3(s3) =>
      match DeriveMaxRetention(env.gap, schedule.cron, schedule.retention)
      case None => Stop(Misconfigured)
      case Some(retention) =>
        UpsertPlan(s, BaseKey(env, inst), NextBase(s, BaseKey(env, inst), inst, s3, retention, schedule),
            MariaDBOwner(inst.name))
  }

  function BinlogPrefix(instance: string): string {
    instance + "-binlog"
  }

  function NextPitr(s: Store, env: Env, inst: Instance, s3: S3): Pitr {
    var name := PitrName(inst.name);
    var base := if name in s.pitrs then s.pitrs[name].base else BaseName(env.digest, inst.name);
    Pitr(Some(InstanceOwner(inst.name)), base, Some(s3))
  }

  function PitrCRPlan(s: Store, env: Env, inst: Instance, storage: string): Plan {
    match ResolveS3(s, storage, BinlogPrefix(inst.name))
    case NotPresent => Stop(Waiting)
    case NotS3 => Stop(Misconfigured)
    case ResolvedS3(s3) =>
      var name, next := PitrName(inst.name), NextPitr(s, env, inst, s3);
      if name in s.pitrs && !Ownable(s.pitrs[name].owner, InstanceOwner(inst.name)) then Stop(Conflicted)
      else if name in s.pitrs && s.pitrs[name] == next then Stop(Done)
      else Plan([PutPitr(name, next)], Done)
  }

  function DeletePitrPlan(s: Store, inst: Instance): Plan {
    if PitrName(inst.name) in s.pitrs then Plan([DeletePitr(PitrName(inst.name))], Done) else Stop(Done)
  }

  function TeardownPlan(s: Store, env: Env, inst: Instance): Plan {
    var p := DeletePitrPlan(s, inst);
    Then(p, DeletePlan(After(s, p), BaseKey(env, inst)))
  }

  function SetupPlan(s: Store, env: Env, inst: Instance, storage: string, schedule: Schedule): Plan {
    var p := BasePlan(s, env, inst, storage, schedule);
    Then(p, PitrCRPlan(After(s, p), env, inst, storage))
  }

  function PitrPlan(s: Store, env: Env, inst: Instance): Plan {
    match PitrStorage(inst)
    case TooManyPitr => Stop(Misconfigured)
    case NoPitr => TeardownPlan(s, env, inst)
    case OnePitr(config) =>
      if inst.name !in s.mariadbs then Stop(Waiting)
      else match FirstPhysical(config.schedules)
        case BadParameters => Stop(Misconfigured)
        case NoPhysical => Stop(Misconfigured)
        case BaseOn(schedule) => SetupPlan(s, env, inst, config.storage, schedule)
  }

  /** The reference the MariaDB should carry: only to an object that exists. */
  function DesiredPitrRef(s: Store, inst: Instance): Option<string> {
    if PitrStorage(inst).OnePitr? && PitrName(inst.name) in s.pitrs then Some(PitrName(inst.name)) else None
  }

  // ----- the reconciler, step by step -----------------------------------------

  method PitrEnabledStorage(inst: Instance) returns (choice: PitrChoice)
    ensures choice == NoPitr <==> NoneHasPitr(inst)
    ensures forall config :: choice == OnePitr(config) <==> OnlyPitr(inst, config)
    ensures choice == TooManyPitr <==> TwoHavePitr(inst)
    ensures choice == PitrStorage(inst)
  {
    PitrStorageIff(inst);
    if inst.backup.None? || !inst.backup.value.enabled { return NoPitr; }
    var storages := inst.backup.value.storages;
    var found: Option<StorageConfig> := None;
    var count := 0;
    var i := 0;
    while i < |storages|
      invariant i <= |storages|
      invariant count == |PitrStorages(storages[..i])|
      invariant found == if count == 0 then None else Some(PitrStorages(storages[..i])[0])
    {
      assert storages[..i + 1][..i] == storages[..i];
      if storages[i].pitr {
        count := count + 1;
        if found.None? { found := Some(storages[i]); }
      }
      i := i + 1;
    }
    assert storages[..i] == storages;
    choice := if count > 1 then TooManyPitr else if found.None? then NoPitr else OnePitr(found.value);
  }

  method FirstPhysicalSchedule(config: StorageConfig) returns (r: BaseSchedule)
    ensures r == FirstPhysical(config.schedules)
  {
    var i := 0;
    while i < |config.schedules|
      invariant i <= |config.schedules|
      invariant FirstPhysical(config.schedules) == FirstPhysical(config.schedules[i..])
    {
      var params := ParseParameters(config.schedules[i].parameters);
      if params.None? { return BadParameters; }
      if KindOf(params.value) == Physical { return BaseOn(config.schedules[i]); }
      i := i + 1;
    }
    r := NoPhysical;
  }

  method ResolveStorage(c: Cluster, storage: string, prefix: string) returns (out: Outcome, s3: Option<S3>)
    modifies c`failures
    ensures c.failures == old(c.failures) + Failures(out)
    ensures out == Aborted || match ResolveS3(c.State(), storage, prefix)
                              case NotPresent => out == Waiting
                              case NotS3 => out == Misconfigured
                              case ResolvedS3(v) => out == Done && s3 == Some(v)
  {
    var found := c.Get(c.storages, storage);
    s3 := None;
    match found {
      case Failed => out := Aborted;
      case Missing => out := Waiting;
      case Present(_) =>
        var r := ResolveS3(Store(map[], map[], map[], map[], map[], c.storages, map[]), storage, prefix);
        out := if r.NotS3? then Misconfigured else Done;
        s3 := if r.ResolvedS3? then Some(r.s3) else None;
    }
  }

  method ReconcileBase(c: Cluster, env: Env, inst: Instance, storage: string, schedule: Schedule) returns (out: Outcome)
    modifies c
    ensures c.RanSince(old(c.State()), old(c.log), BasePlan(old(c.State()), env, inst, storage, schedule), out)
    ensures c.failures == old(c.failures) + Failures(out)
  {
    var s3;
    out, s3 := ResolveStorage(c, storage, inst.name);
    if out != Done { return; }
    var retention := DeriveMaxRetention(env.gap, schedule.cron, schedule.retention);
    if retention.None? { return Misconfigured; }
    var key := BaseKey(env, inst);
    var next := NextBase(Store(c.backups, map[], map[], map[], map[], map[], map[]), key, inst, s3.value,
        retention.value, schedule);
    out := c.CreateOrUpdate(key, next, MariaDBOwner(inst.name));
  }

  method ReconcilePitr(c: Cluster, env: Env, inst: Instance, storage: string) returns (out: Outcome)
    modifies c
    ensures c.RanSince(old(c.State()), old(c.log), PitrCRPlan(old(c.State()), env, inst, storage), out)
    ensures c.failures == old(c.failures) + Failures(out)
  {
    var s3;
    out, s3 := ResolveStorage(c, storage, BinlogPrefix(inst.name));
    if out != Done { return; }
    var name := PitrName(inst.name);
    var found := c.Get(c.pitrs, name);
    var next := Pitr(Some(InstanceOwner(inst.name)), BaseName(env.digest, inst.name), s3);
    match found {
      case Failed => return Aborted;
      case Missing =>
      case Present(pitr) =>
        next := next.(base := pitr.base);
        if !Ownable(pitr.owner, InstanceOwner(inst.name)) { return Conflicted; }
        if pitr == next { return Done; }
    }
    out := c.Perform(PutPitr(name, next));
  }

  method TeardownPitr(c: Cluster, env: Env, inst: Instance) returns (out: Outcome)
    modifies c
    ensures c.RanSince(old(c.State()), old(c.log), TeardownPlan(old(c.State()), env, inst), out)
    ensures c.failures == old(c.failures) + Failures(out)
  {
    ghost var s0, l0 := c.State(), c.log;
    ghost var p := DeletePitrPlan(s0, inst);
    var found := c.Get(c.pitrs, PitrName(inst.name));
    match found {
      case Failed => out := Aborted;
      case Missing => out := Done;
      case Present(_) => out := c.Perform(DeletePitr(PitrName(inst.name)));
    }
    ghost var s1, l1 := c.State(), c.log;
    if out != Done {
      RanStop(s0, l0, s1, l1, p, DeletePlan(After(s0, p), BaseKey(env, inst)), out);
      return;
    }
    out := c.DeleteIfPresent(BaseKey(env, inst));
    RanThen(s0, l0, s1, l1, c.State(), c.log, p, DeletePlan(s1, BaseKey(env, inst)), out);
  }

  method SyncPITR(c: Cluster, env: Env, inst: Instance) returns (out: Outcome)
    modifies c
    ensures c.RanSince(old(c.State()), old(c.log), PitrPlan(old(c.State()), env, inst), out)
    ensures c.failures == old(c.failures) + Failures(out)
  {
    var choice := PitrEnabledStorage(inst);
    if choice.TooManyPitr? { return Misconfigured; }
    if choice.NoPitr? {
      out := TeardownPitr(c, env, inst);
      return;
    }
    var mdb := c.Get(c.mariadbs, inst.name);
    match mdb {
      case Failed => return Aborted;
      case Missing => return Waiting;
      case Present(_) =>
    }
    var base := FirstPhysicalSchedule(choice.config);
    if !base.BaseOn? { return Misconfigured; }
    ghost var s0, l0 := c.State(), c.log;
    ghost var p := BasePlan(s0, env, inst, choice.config.storage, base.schedule);
    out := ReconcileBase(c, env, inst, choice.config.storage, base.schedule);
    ghost var s1, l1 := c.State(), c.log;
    if out != Done {
      RanStop(s0, l0, s1, l1, p, PitrCRPlan(After(s0, p), env, inst, choice.config.storage), out);
      return;
    }
    out := ReconcilePitr(c, env, inst, choice.config.storage);
    RanThen(s0, l0, s1, l1, c.State(), c.log, p, PitrCRPlan(s1, env, inst, choice.config.storage), out);
  }
}
