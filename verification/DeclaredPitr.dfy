/** What point-in-time recovery is when a pass over it succeeds, and how it ends when
    it does not, in the fields of the declaration (internal/provider/pitr.go). */
module DeclaredPitr {
  import opened Kube
  import opened Names
  import opened Plans
  import opened Instances
  import opened ClusterApi
  import opened Retention
  import opened Schedules
  import opened Convergence
  import opened PitrSync
  import opened Settling
  import opened DeclaredPlaces
  import opened DeclaredRetention
  import opened DeclaredPasses

  // ----- the schedule the base follows ----------------------------------------

  /** The k-th schedule is physical, and those before it are readable and are not. */
  predicate FirstPhysicalAt(schedules: seq<Schedule>, k: nat) {
    && k < |schedules| && Readable(schedules[k].parameters) && SaysPhysical(schedules[k].parameters)
    && forall l | 0 <= l < k :: Readable(schedules[l].parameters) && !SaysPhysical(schedules[l].parameters)
  }

  /** The k-th schedule is the first that is unreadable, and none before is physical. */
  predicate FirstUnreadableAt(schedules: seq<Schedule>, k: nat) {
    && k < |schedules| && !Readable(schedules[k].parameters)
    && forall l | 0 <= l < k :: Readable(schedules[l].parameters) && !SaysPhysical(schedules[l].parameters)
  }

  lemma {:induction false} FirstPhysicalIs(schedules: seq<Schedule>)
    ensures match FirstPhysical(schedules)
            case BaseOn(schedule) => exists k: nat :: FirstPhysicalAt(schedules, k) && schedules[k] == schedule
            case BadParameters => exists k: nat :: FirstUnreadableAt(schedules, k)
            case NoPhysical => forall k | 0 <= k < |schedules| ::
              Readable(schedules[k].parameters) && !SaysPhysical(schedules[k].parameters)
    decreases |schedules|
  {
    hide ParseParameters, Readable, SaysPhysical, Takes, SaysText, ContentOf, KindOf;
    if schedules != [] {
      ParametersRead(schedules[0].parameters);
      KindSaidIs(schedules[0].parameters);
      var rest := schedules[1..];
      if Readable(schedules[0].parameters) && !SaysPhysical(schedules[0].parameters) {
        FirstPhysicalIs(rest);
        match FirstPhysical(rest)
        case BaseOn(schedule) =>
          var k: nat :| FirstPhysicalAt(rest, k) && rest[k] == schedule;
          assert FirstPhysicalAt(schedules, k + 1);
        case BadParameters =>
          var k: nat :| FirstUnreadableAt(rest, k);
          assert FirstUnreadableAt(schedules, k + 1);
        case NoPhysical =>
          assert forall k | 1 <= k < |schedules| :: schedules[k] == rest[k - 1];
      } else if SaysPhysical(schedules[0].parameters) && Readable(schedules[0].parameters) {
        assert FirstPhysicalAt(schedules, 0);
      } else {
        assert FirstUnreadableAt(schedules, 0);
      }
    }
  }

  lemma KindSaidIs(p: Payload)
    ensures KindSaid(p) == Physical <==> SaysPhysical(p)
  {
  }

  // ----- the two objects ------------------------------------------------------

  function BaseObject(env: Env, inst: Instance): Key {
    Key(Physical, "mdb-pitr-" + env.digest(inst.name + "\0pitr-base"))
  }

  function PitrObject(inst: Instance): string {
    inst.name + "-pitr"
  }

  /** The base backup follows the schedule, at once and then by its cron; what is set
      on creation is what was declared then. */
  ghost predicate BaseUp(s: Store, t: Store, env: Env, inst: Instance, storage: string, schedule: Schedule) {
    && BaseObject(env, inst) in t.backups
    && var cr := t.backups[BaseObject(env, inst)];
       && KeptFor(env.gap, schedule, cr.maxRetention)
       && cr.schedule == Some(CronSchedule(schedule.cron, !schedule.enabled, true))
       && cr.content == Snapshot("PreferReplica")
       && cr.owner == Some(Owner("MariaDB", inst.name))
       && if BaseObject(env, inst) in s.backups then
            && SameOrigin(s.backups[BaseObject(env, inst)], cr)
            && cr.storage == s.backups[BaseObject(env, inst)].storage
            && cr.compression == s.backups[BaseObject(env, inst)].compression
          else
            && PlacedOn(s, storage, inst.name, cr.storage)
            && cr.labels == map[InstanceLabel := inst.name, PitrBaseLabel := "true"] && cr.inherited == map[]
            && cr.mariadb == inst.name && cr.waitForIt && cr.compression == ""
  }

  /** The PITR object archives to the storage, under the Instance's own prefix, and
      builds on that base unless it was made for another. */
  predicate PitrUp(s: Store, t: Store, env: Env, inst: Instance, storage: string) {
    && PitrObject(inst) in t.pitrs
    && var pitr := t.pitrs[PitrObject(inst)];
       && PlacedOn(s, storage, inst.name + "-binlog", pitr.storage)
       && pitr.owner == Some(Owner("Instance", inst.name))
       && pitr.base == if PitrObject(inst) in s.pitrs then s.pitrs[PitrObject(inst)].base
                       else BaseObject(env, inst).name
  }

  predicate PitrTaken(s: Store, inst: Instance) {
    PitrObject(inst) in s.pitrs && s.pitrs[PitrObject(inst)].owner.Some?
      && s.pitrs[PitrObject(inst)].owner.value != Owner("Instance", inst.name)
  }

  /** How setting up ends. */
  ghost predicate SetupEnds(s: Store, env: Env, inst: Instance, storage: string, schedule: Schedule, outcome: Outcome) {
    if storage !in s.storages then outcome == Waiting
    else if s.storages[storage].s3.None? || !exists age :: KeptFor(env.gap, schedule, age) then outcome == Misconfigured
    else if TakenByAnother(s, BaseObject(env, inst), Owner("MariaDB", inst.name)) || PitrTaken(s, inst) then
      outcome == Conflicted
    else outcome == Done
  }

  lemma BaseWritten(s: Store, env: Env, inst: Instance, storage: string, schedule: Schedule, s3: S3, age: int)
    requires PlacedOn(s, storage, inst.name, Some(s3)) && KeptFor(env.gap, schedule, age)
    ensures var key := BaseObject(env, inst);
      var p := UpsertPlan(s, key, NextBase(s, key, inst, s3, age, schedule), MariaDBOwner(inst.name));
      var t := After(s, p);
      && t == s.(backups := t.backups) && (forall other | other != key :: SameAt(s, t, other))
      && (if TakenByAnother(s, key, Owner("MariaDB", inst.name)) then p == Stop(Conflicted) else p.outcome == Done)
      && (p.outcome == Done ==> BaseUp(s, t, env, inst, storage, schedule))
  {
    hide PlacedOn, KeptFor, BaseObject;
    var key := BaseObject(env, inst);
    AfterUpsert(s, key, NextBase(s, key, inst, s3, age, schedule), MariaDBOwner(inst.name));
  }

  lemma BaseDecides(s: Store, env: Env, inst: Instance, storage: string, schedule: Schedule)
    ensures var p, t := BasePlan(s, env, inst, storage, schedule), After(s, BasePlan(s, env, inst, storage, schedule));
      && t == s.(backups := t.backups) && (forall key | key != BaseObject(env, inst) :: SameAt(s, t, key))
      && (p.outcome == Done ==> BaseUp(s, t, env, inst, storage, schedule))
      && if storage !in s.storages then p == Stop(Waiting)
         else if s.storages[storage].s3.None? || !exists age :: KeptFor(env.gap, schedule, age) then
           p == Stop(Misconfigured)
         else if TakenByAnother(s, BaseObject(env, inst), Owner("MariaDB", inst.name)) then p == Stop(Conflicted)
         else p.outcome == Done
  {
    ResolvedPlace(s, storage, inst.name);
    forall age ensures DeriveMaxRetention(env.gap, schedule.cron, schedule.retention) == Some(age) <==>
                       KeptFor(env.gap, schedule, age) {
      RetentionKept(env.gap, schedule, age);
    }
    hide ResolveS3, DeriveMaxRetention, PointsAt, KeptFor, NextBase, UpsertPlan, BaseUp, TakenByAnother, Replay;
    AfterNothing(s);
    var retention := DeriveMaxRetention(env.gap, schedule.cron, schedule.retention);
    if ResolveS3(s, storage, inst.name).ResolvedS3? && retention.Some? {
      BaseWritten(s, env, inst, storage, schedule, ResolveS3(s, storage, inst.name).s3, retention.value);
    }
  }

  lemma PitrCRDecides(s: Store, env: Env, inst: Instance, storage: string)
    ensures storage !in s.storages ==> PitrCRPlan(s, env, inst, storage) == Stop(Waiting)
    ensures storage in s.storages && s.storages[storage].s3.None? ==>
              PitrCRPlan(s, env, inst, storage) == Stop(Misconfigured)
    ensures storage in s.storages && s.storages[storage].s3.Some? ==>
      var p, t := PitrCRPlan(s, env, inst, storage), After(s, PitrCRPlan(s, env, inst, storage));
      && t == s.(pitrs := t.pitrs)
      && (forall name | name != PitrObject(inst) :: SamePitrAt(s, t, name))
      && p.outcome == (if PitrTaken(s, inst) then Conflicted else Done)
      && (PitrTaken(s, inst) ==> t == s)
      && (p.outcome == Done ==> PitrUp(s, t, env, inst, storage))
  {
    ResolvedPlace(s, storage, inst.name + "-binlog");
    hide ResolveS3, PointsAt;
    AfterNothing(s);
    if ResolveS3(s, storage, BinlogPrefix(inst.name)).ResolvedS3? {
      var pitr := NextPitr(s, env, inst, ResolveS3(s, storage, BinlogPrefix(inst.name)).s3);
      AfterWrite(s, PutPitr(PitrName(inst.name), pitr), Done);
    }
  }

  predicate SamePitrAt(s: Store, t: Store, name: string) {
    (name in s.pitrs <==> name in t.pitrs) && (name in s.pitrs ==> s.pitrs[name] == t.pitrs[name])
  }

  lemma SetupDecides(s: Store, env: Env, inst: Instance, storage: string, schedule: Schedule)
    ensures var p := SetupPlan(s, env, inst, storage, schedule);
      var t := After(s, p);
      && SetupEnds(s, env, inst, storage, schedule, p.outcome) && OnlyPitrObjects(s, t, env, inst)
      && (p.outcome == Done ==> BaseUp(s, t, env, inst, storage, schedule) && PitrUp(s, t, env, inst, storage))
      && (p.outcome != Done ==> forall name :: SamePitrAt(s, t, name))
  {
    hide BasePlan, PitrCRPlan, KeptFor, PointsAt, BaseObject, PitrObject, Replay;
    BaseDecides(s, env, inst, storage, schedule);
    var p := BasePlan(s, env, inst, storage, schedule);
    var u := After(s, p);
    AfterThen(s, p, PitrCRPlan(u, env, inst, storage));
    if storage in s.storages && s.storages[storage].s3.Some? {
      PitrCRDecides(u, env, inst, storage);
      if p.outcome == Done { BothTouched(s, u, After(u, PitrCRPlan(u, env, inst, storage)), env, inst); }
    }
    if p.outcome != Done { BothTouched(s, u, u, env, inst); }
  }

  lemma BothTouched(s: Store, u: Store, t: Store, env: Env, inst: Instance)
    requires u == s.(backups := u.backups) && t == u.(pitrs := t.pitrs)
    requires forall key | key != BaseObject(env, inst) :: SameAt(s, u, key)
    requires forall name | name != PitrObject(inst) :: SamePitrAt(u, t, name)
    ensures OnlyPitrObjects(s, t, env, inst)
  {
    hide BaseObject, PitrObject;
    forall key | key != BaseObject(env, inst) ensures SameAt(s, t, key) {
      assert SameAt(s, u, key);
    }
    forall name | name != PitrObject(inst) ensures SamePitrAt(s, t, name) {
      assert SamePitrAt(u, t, name);
    }
  }

  /** Nothing but the Instance's two PITR objects differs. */
  ghost predicate OnlyPitrObjects(s: Store, t: Store, env: Env, inst: Instance) {
    && t == s.(backups := t.backups, pitrs := t.pitrs)
    && (forall key | key != BaseObject(env, inst) :: SameAt(s, t, key))
    && (forall name | name != PitrObject(inst) :: SamePitrAt(s, t, name))
  }

  // ----- a whole pass ---------------------------------------------------------

  /** The base follows the first physical schedule of this storage. */
  ghost predicate SetUpOn(s: Store, t: Store, env: Env, inst: Instance, config: StorageConfig, k: nat) {
    && FirstPhysicalAt(config.schedules, k)
    && BaseUp(s, t, env, inst, config.storage, config.schedules[k])
    && PitrUp(s, t, env, inst, config.storage)
  }

  /** How a pass ends with PITR on for this storage alone. */
  ghost predicate OneEnds(s: Store, env: Env, inst: Instance, config: StorageConfig, outcome: Outcome) {
    if inst.name !in s.mariadbs then outcome == Waiting
    else if !exists k: nat :: FirstPhysicalAt(config.schedules, k) then outcome == Misconfigured
    else exists k: nat | FirstPhysicalAt(config.schedules, k) ::
      SetupEnds(s, env, inst, config.storage, config.schedules[k], outcome)
  }

  /** With PITR on for one storage, a pass that succeeds leaves the base and the PITR
      object as declared; with none, both are gone; with two, it is an error. Whatever
      it does, nothing else is touched. */
  lemma PitrDecides(s: Store, env: Env, inst: Instance)
    ensures var p, t := PitrPlan(s, env, inst), After(s, PitrPlan(s, env, inst));
      && OnlyPitrObjects(s, t, env, inst)
      && (TwoHavePitr(inst) ==> p == Stop(Misconfigured))
      && (NoneHasPitr(inst) ==>
            p.outcome == Done && BaseObject(env, inst) !in t.backups && PitrObject(inst) !in t.pitrs)
      && (forall config | OnlyPitr(inst, config) ::
            && OneEnds(s, env, inst, config, p.outcome)
            && (p.outcome == Done ==> exists k: nat :: SetUpOn(s, t, env, inst, config, k)))
  {
    PitrStorageIff(inst);
    hide PitrStorage, NoneHasPitr, OnlyPitr, TwoHavePitr, SetupPlan, TeardownPlan, BaseUp, PitrUp, SetupEnds, SameAt,
        SamePitrAt, FirstPhysical, BaseObject, PitrObject, Readable, SaysPhysical, FirstUnreadableAt, Replay;
    AfterNothing(s);
    match PitrStorage(inst)
    case TooManyPitr => NothingTouched(s, env, inst);
    case NoPitr =>
      GoneAfterTeardown(s, env, inst);
    case OnePitr(config) =>
      NothingTouched(s, env, inst);
      FirstPhysicalIs(config.schedules);
      OneFirst(config.schedules);
      if inst.name in s.mariadbs && FirstPhysical(config.schedules).BaseOn? {
        var schedule := FirstPhysical(config.schedules).schedule;
        var k: nat :| FirstPhysicalAt(config.schedules, k) && config.schedules[k] == schedule;
        SetupDecides(s, env, inst, config.storage, schedule);
        assert PitrPlan(s, env, inst) == SetupPlan(s, env, inst, config.storage, schedule);
        var t := After(s, PitrPlan(s, env, inst));
        assert PitrPlan(s, env, inst).outcome == Done ==> SetUpOn(s, t, env, inst, config, k);
      }
  }

  lemma NothingTouched(s: Store, env: Env, inst: Instance)
    ensures OnlyPitrObjects(s, s, env, inst)
  {
  }

  lemma OneFirst(schedules: seq<Schedule>)
    ensures (exists k: nat :: FirstUnreadableAt(schedules, k)) ==> !exists k: nat :: FirstPhysicalAt(schedules, k)
  {
    hide Readable, SaysPhysical;
  }

  lemma GoneAfterTeardown(s: Store, env: Env, inst: Instance)
    ensures var t := After(s, TeardownPlan(s, env, inst));
      && TeardownPlan(s, env, inst).outcome == Done && OnlyPitrObjects(s, t, env, inst)
      && BaseObject(env, inst) !in t.backups && PitrObject(inst) !in t.pitrs
  {
    TeardownRun(s, env, inst);
  }
}
