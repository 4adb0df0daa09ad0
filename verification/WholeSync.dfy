/** Repeated whole Sync passes over a fixed specification: exactly how many wait,
    what the first success leaves, and when nothing changes any more. */
module WholeSync {
  import opened Kube
  import opened Names
  import opened Plans
  import opened Instances
  import opened Retention
  import opened Schedules
  import opened Convergence
  import opened ScheduledPasses
  import opened ScheduledRuns
  import opened PitrSync
  import opened TemplateSync
  import opened Seeding
  import opened MariaDBSync
  import opened Provider
  import opened Settling

  /** The MariaDB exists, everything declared resolves, and no object this Instance
      manages is owned by another controller or labelled as something it is not. */
  ghost predicate SyncReady(s: Store, env: Env, inst: Instance) {
    && MariaDBReady(s, env, inst)
    && Settleable(s, env, inst)
    && TemplateReady(s, inst) && PitrReady(s, env, inst)
    && !Ours(s.backups, inst, TemplateKey(inst)) && !Ours(s.backups, inst, BaseKey(env, inst))
  }

  /** How many objects must still be recreated. */
  ghost function ToRecreate(s: Store, env: Env, inst: Instance): nat {
    TemplatePending(s, inst) + PendingCount(s, env, inst)
  }

  /** Everything is in place, but the MariaDB may not reference the PITR object yet. */
  ghost predicate Settled(s: Store, env: Env, inst: Instance) {
    && SyncReady(s, env, inst)
    && Converged(s, env, inst) && TemplateSettled(s, inst) && PitrSettled(s, env, inst)
    && s.mariadbs[inst.name].spec.replicaTemplate == DesiredTemplateRef(inst)
  }

  // ----- changes that do not matter to the other steps ------------------------

  lemma SpecialKeys(env: Env, inst: Instance)
    requires ValidEnv(env)
    ensures TemplateKey(inst) != BaseKey(env, inst)
    ensures !Derived(env, inst, TemplateKey(inst).name) && !Derived(env, inst, BaseKey(env, inst).name)
  {
    NameSpacesDisjoint(env.digest, inst.name, "", inst.name, inst.name);
    forall e | e in Declared(inst)
      ensures ScheduledName(env.digest, inst.name, e.schedule.name) != TemplateKey(inst).name
      ensures ScheduledName(env.digest, inst.name, e.schedule.name) != BaseKey(env, inst).name
    {
      NameSpacesDisjoint(env.digest, inst.name, e.schedule.name, inst.name, inst.name);
    }
  }

  /** A step that only touches a special key, and does not label it as ours, leaves
      the schedules' standing as it is. */
  lemma SchedulesUnmoved(s: Store, t: Store, env: Env, inst: Instance, special: Key)
    requires Settleable(s, env, inst)
    requires s.storages == t.storages && (inst.name in s.mariadbs <==> inst.name in t.mariadbs)
    requires forall k | k != special :: SameAt(s, t, k)
    requires !Derived(env, inst, special.name)
    ensures Settleable(t, env, inst) && PendingCount(t, env, inst) == PendingCount(s, env, inst)
    ensures Converged(s, env, inst) && !Ours(t.backups, inst, special) ==> Converged(t, env, inst)
  {
    hide AllInSync, AllTakeable, OutdatedKeys, AimOf, Compatible, IsGoalKey, Derived;
    AimsKept(s, t, env, inst, Declared(inst));
    GoalsLeft(s, t, env, inst);
    SameGoals(s, t, Goals(s, env, inst, Declared(inst)));
    forall key | Ours(t.backups, inst, key) && key != special ensures Ours(s.backups, inst, key) {
      assert SameAt(s, t, key);
    }
  }

  lemma TemplateUnmoved(s: Store, t: Store, inst: Instance)
    requires s.storages == t.storages && SameAt(s, t, TemplateKey(inst))
    ensures TemplateReady(s, inst) ==> TemplateReady(t, inst)
    ensures TemplatePending(t, inst) == TemplatePending(s, inst)
    ensures TemplateSettled(s, inst) ==> TemplateSettled(t, inst)
  {
    hide TemplateName, ReplicaPrefix;
  }

  predicate SamePitr(s: Store, t: Store, name: string) {
    (name in s.pitrs <==> name in t.pitrs) && (name in s.pitrs ==> s.pitrs[name] == t.pitrs[name])
  }

  lemma PitrUnmoved(s: Store, t: Store, env: Env, inst: Instance)
    requires s.storages == t.storages && SamePitr(s, t, PitrName(inst.name)) && SameAt(s, t, BaseKey(env, inst))
    ensures PitrReady(s, env, inst) ==> PitrReady(t, env, inst)
    ensures PitrSettled(s, env, inst) ==> PitrSettled(t, env, inst)
  {
    hide BaseName, PitrName, BinlogPrefix;
  }

  lemma PitrSettledReady(s: Store, t: Store, env: Env, inst: Instance)
    requires PitrReady(s, env, inst) && PitrSettled(t, env, inst) && s.storages == t.storages
    ensures PitrReady(t, env, inst)
  {
    hide BaseName, PitrName, BinlogPrefix;
  }

  // ----- the steps of one pass, for a ready store -----------------------------

  function Redeployed(s: Store, env: Env, inst: Instance): map<string, MariaDB>
    requires inst.name in s.mariadbs
  {
    s.mariadbs[inst.name := MariaDB(AppliedSpec(s, env, inst), s.mariadbs[inst.name].status)]
  }

  lemma ApplyStep(s: Store, env: Env, inst: Instance)
    requires SyncReady(s, env, inst)
    ensures var p, t := MariaDBPlan(s, env, inst), After(s, MariaDBPlan(s, env, inst));
      && p.outcome == Done
      && t == s.(mariadbs := Redeployed(s, env, inst))
      && SyncReady(t, env, inst)
      && TemplatePending(t, inst) == TemplatePending(s, inst)
      && PendingCount(t, env, inst) == PendingCount(s, env, inst)
      && (Converged(s, env, inst) ==> Converged(t, env, inst))
      && (TemplateSettled(s, inst) ==> TemplateSettled(t, inst))
      && (PitrSettled(s, env, inst) ==> PitrSettled(t, env, inst))
  {
    SpecialKeys(env, inst);
    hide MariaDBPlan, AppliedSpec, Settleable, TemplateSettled, PitrSettled, PitrReady, TemplateReady, Converged,
        Derived;
    MariaDBRun(s, env, inst);
    var t := After(s, MariaDBPlan(s, env, inst));
    SchedulesUnmoved(s, t, env, inst, TemplateKey(inst));
    TemplateUnmoved(s, t, inst);
    PitrUnmoved(s, t, env, inst);
  }

  lemma TemplateUnlabelled(s: Store, t: Store, inst: Instance)
    requires !Ours(s.backups, inst, TemplateKey(inst))
    requires TemplateKey(inst) in t.backups ==>
               if TemplateKey(inst) in s.backups
               then SameIdentity(s.backups[TemplateKey(inst)], t.backups[TemplateKey(inst)])
               else t.backups[TemplateKey(inst)].labels == map[]
    ensures !Ours(t.backups, inst, TemplateKey(inst))
  {
    hide TemplateName;
  }

  lemma TemplateStep(s: Store, env: Env, inst: Instance)
    requires SyncReady(s, env, inst)
    ensures var p, t := TemplatePlan(s, inst), After(s, TemplatePlan(s, inst));
      && t == s.(backups := t.backups)
      && SyncReady(t, env, inst)
      && TemplatePending(t, inst) == 0 && PendingCount(t, env, inst) == PendingCount(s, env, inst)
      && if TemplatePending(s, inst) == 1 then p.outcome == Waiting else p.outcome == Done && TemplateSettled(t, inst)
  {
    SpecialKeys(env, inst);
    hide TemplatePlan, Settleable, TemplateSettled, PitrSettled, PitrReady, TemplateReady, TemplatePending, Converged,
        Derived, PendingCount, TemplateName, BaseName, Replay;
    TemplateRun(s, inst);
    var t := After(s, TemplatePlan(s, inst));
    TemplateUnlabelled(s, t, inst);
    hide Ours;
    SchedulesUnmoved(s, t, env, inst, TemplateKey(inst));
    PitrUnmoved(s, t, env, inst);
    SameOurs(s, t, inst, BaseKey(env, inst));
  }

  lemma SameOurs(s: Store, t: Store, inst: Instance, key: Key)
    requires SameAt(s, t, key)
    ensures Ours(s.backups, inst, key) <==> Ours(t.backups, inst, key)
  {
  }

  lemma SchedulesStep(s: Store, env: Env, inst: Instance)
    requires SyncReady(s, env, inst) && TemplateSettled(s, inst)
    ensures var p, t := SchedulesPlan(s, env, inst), After(s, SchedulesPlan(s, env, inst));
      && t == s.(backups := t.backups)
      && SyncReady(t, env, inst) && TemplateSettled(t, inst)
      && TemplatePending(t, inst) == TemplatePending(s, inst)
      && if PendingCount(s, env, inst) == 0 then p.outcome == Done && Converged(t, env, inst)
         else p.outcome == Waiting && PendingCount(t, env, inst) == PendingCount(s, env, inst) - 1
  {
    SpecialKeys(env, inst);
    PassFrame(s, env, inst);
    hide SchedulesPlan, Settleable, TemplateSettled, PitrSettled, PitrReady, TemplateReady, TemplatePending, Converged,
        Derived;
    ThroughoutEnds(x => Framed(s, env, inst, x), s, SchedulesPlan(s, env, inst).writes);
    PassRun(s, env, inst);
    var t := After(s, SchedulesPlan(s, env, inst));
    assert SameAt(s, t, TemplateKey(inst)) && SameAt(s, t, BaseKey(env, inst));
    TemplateUnmoved(s, t, inst);
    PitrUnmoved(s, t, env, inst);
  }

  lemma PitrStep(s: Store, env: Env, inst: Instance)
    requires SyncReady(s, env, inst) && TemplateSettled(s, inst) && Converged(s, env, inst)
    ensures var p, t := PitrPlan(s, env, inst), After(s, PitrPlan(s, env, inst));
      && p.outcome == Done
      && t == s.(backups := t.backups, pitrs := t.pitrs)
      && SyncReady(t, env, inst) && TemplateSettled(t, inst) && Converged(t, env, inst) && PitrSettled(t, env, inst)
  {
    SpecialKeys(env, inst);
    hide PitrPlan, Settleable, TemplateSettled, PitrSettled, PitrReady, TemplateReady, Converged, Derived;
    PitrRun(s, env, inst);
    var t := After(s, PitrPlan(s, env, inst));
    SchedulesUnmoved(s, t, env, inst, BaseKey(env, inst));
    assert SameAt(s, t, TemplateKey(inst));
    TemplateUnmoved(s, t, inst);
    PitrSettledReady(s, t, env, inst);
  }

  lemma SyncAfter(s: Store, env: Env, inst: Instance)
    ensures var p0 := MariaDBPlan(s, env, inst);
      var s1 := After(s, p0);
      var p1 := TemplatePlan(s1, inst);
      var s2 := After(s1, p1);
      var p2 := SchedulesPlan(s2, env, inst);
      var s3 := After(s2, p2);
      var p3 := PitrPlan(s3, env, inst);
      && (p0.outcome == Done && p1.outcome != Done ==>
            SyncPlan(s, env, inst).outcome == p1.outcome && After(s, SyncPlan(s, env, inst)) == s2)
      && (p0.outcome == p1.outcome == Done && p2.outcome != Done ==>
            SyncPlan(s, env, inst).outcome == p2.outcome && After(s, SyncPlan(s, env, inst)) == s3)
      && (p0.outcome == p1.outcome == p2.outcome == Done ==>
            SyncPlan(s, env, inst).outcome == p3.outcome && After(s, SyncPlan(s, env, inst)) == After(s3, p3))
  {
    hide MariaDBPlan, TemplatePlan, SchedulesPlan, PitrPlan, Replay;
    var p0 := MariaDBPlan(s, env, inst);
    var s1 := After(s, p0);
    var p1 := TemplatePlan(s1, inst);
    var s2 := After(s1, p1);
    var p2 := SchedulesPlan(s2, env, inst);
    var s3 := After(s2, p2);
    AfterThen(s2, p2, PitrPlan(s3, env, inst));
    AfterThen(s1, p1, SyncTail(s2, env, inst));
    AfterThen(s, p0, SyncRest(s1, env, inst));
  }

  /** One whole pass: recreate exactly one object and wait, or settle. */
  lemma {:induction false} SyncStep(s: Store, env: Env, inst: Instance)
    requires SyncReady(s, env, inst)
    ensures var p, t := SyncPlan(s, env, inst), After(s, SyncPlan(s, env, inst));
      && t == s.(mariadbs := Redeployed(s, env, inst), backups := t.backups, pitrs := t.pitrs)
      && SyncReady(t, env, inst)
      && if ToRecreate(s, env, inst) == 0 then p.outcome == Done && Settled(t, env, inst)
         else p.outcome == Waiting && ToRecreate(t, env, inst) == ToRecreate(s, env, inst) - 1
  {
    hide SyncPlan, MariaDBPlan, TemplatePlan, SchedulesPlan, PitrPlan, Replay, After,
         SyncReady, TemplateSettled, PitrSettled, TemplatePending, PendingCount, Converged;
    SyncAfter(s, env, inst);
    ApplyStep(s, env, inst);
    var s1 := After(s, MariaDBPlan(s, env, inst));
    TemplateStep(s1, env, inst);
    if TemplatePending(s, inst) != 1 {
      var s2 := After(s1, TemplatePlan(s1, inst));
      SchedulesStep(s2, env, inst);
      if PendingCount(s, env, inst) == 0 {
        PitrStep(After(s2, SchedulesPlan(s2, env, inst)), env, inst);
      }
    }
  }

  /** From a settled store, a pass touches the MariaDB only. */
  lemma SettledStep(s: Store, env: Env, inst: Instance)
    requires Settled(s, env, inst)
    ensures var p, t := SyncPlan(s, env, inst), After(s, SyncPlan(s, env, inst));
      && p == Plan([ApplyMariaDB(inst.name, AppliedSpec(s, env, inst))], Done)
      && t == s.(mariadbs := Redeployed(s, env, inst))
      && Settled(t, env, inst)
  {
    hide SyncPlan, MariaDBPlan, TemplatePlan, SchedulesPlan, PitrPlan,
         TemplateSettled, PitrSettled, TemplatePending, PendingCount, Converged;
    SyncAfter(s, env, inst);
    ApplyStep(s, env, inst);
    var t := After(s, MariaDBPlan(s, env, inst));
    TemplateFixed(t, inst);
    PassFixed(t, env, inst);
    PitrFixed(t, env, inst);
    assert After(t, Stop(Done)) == t;
    OnlyApplied(s, env, inst);
  }

  lemma OnlyApplied(s: Store, env: Env, inst: Instance)
    requires MariaDBReady(s, env, inst)
    ensures MariaDBPlan(s, env, inst) == Plan([ApplyMariaDB(inst.name, AppliedSpec(s, env, inst))], Done)
    ensures SyncRest(After(s, MariaDBPlan(s, env, inst)), env, inst) == Stop(Done) ==>
              SyncPlan(s, env, inst) == MariaDBPlan(s, env, inst)
  {
  }

  /** The reference to the PITR object is the one wanted. */
  ghost predicate Referenced(s: Store, env: Env, inst: Instance) {
    inst.name in s.mariadbs && s.mariadbs[inst.name].spec == AppliedSpec(s, env, inst)
  }

  lemma RedeployedTwice(s: Store, env: Env, inst: Instance)
    requires inst.name in s.mariadbs
    ensures Referenced(s.(mariadbs := Redeployed(s, env, inst)), env, inst)
    ensures Referenced(s, env, inst) ==> s.(mariadbs := Redeployed(s, env, inst)) == s
  {
    AppliedTreeTwice(s.mariadbs[inst.name].spec.bootstrapFrom);
    if Referenced(s, env, inst) { assert Redeployed(s, env, inst) == s.mariadbs; }
  }

  // ----- repeated passes ------------------------------------------------------

  /** Passes over one provider definition, deriving the same retentions. */
  ghost predicate SyncSteady(envs: nat -> Env, inst: Instance) {
    forall n: nat :: SteadyWith(envs(0), envs(n), inst) && envs(n).catalog == envs(0).catalog
  }

  lemma {:induction false} EntryDeclared(storages: seq<StorageConfig>, config: StorageConfig, schedule: Schedule)
    requires config in storages && schedule in config.schedules
    ensures Entry(config.storage, schedule) in Entries(storages)
    decreases |storages|
  {
    var init, last := storages[..|storages| - 1], storages[|storages| - 1];
    if config in init {
      EntryDeclared(init, config, schedule);
    } else {
      assert config == last;
      var j :| 0 <= j < |last.schedules| && last.schedules[j] == schedule;
      assert EntriesOf(last)[j] == Entry(config.storage, schedule);
    }
  }

  lemma {:induction false} PitrStorageDeclared(storages: seq<StorageConfig>)
    ensures forall config | config in PitrStorages(storages) :: config in storages
    decreases |storages|
  {
    if storages != [] { PitrStorageDeclared(storages[..|storages| - 1]); }
  }

  lemma {:induction false} FirstPhysicalDeclared(schedules: seq<Schedule>)
    ensures FirstPhysical(schedules).BaseOn? ==> FirstPhysical(schedules).schedule in schedules
    decreases |schedules|
  {
    if schedules != [] { FirstPhysicalDeclared(schedules[1..]); }
  }

  /** The base backup follows a declared schedule, so its retention is steady too. */
  lemma SameBase(env: Env, env': Env, inst: Instance)
    requires SteadyWith(env, env', inst)
    ensures BaseRetention(env, inst) == BaseRetention(env', inst)
  {
    match PitrStorage(inst)
    case OnePitr(config) =>
      var storages := inst.backup.value.storages;
      PitrStorageDeclared(storages);
      FirstPhysicalDeclared(config.schedules);
      if FirstPhysical(config.schedules).BaseOn? {
        assert config == PitrStorages(storages)[0];
        EntryDeclared(storages, config, FirstPhysical(config.schedules).schedule);
      }
    case _ =>
  }

  lemma SteadySync(s: Store, env: Env, env': Env, inst: Instance)
    requires SteadyWith(env, env', inst) && env'.catalog == env.catalog
    requires SyncReady(s, env, inst) || SyncReady(s, env', inst)
    ensures SyncReady(s, env, inst) && SyncReady(s, env', inst)
    ensures ToRecreate(s, env', inst) == ToRecreate(s, env, inst)
    ensures Settled(s, env', inst) <==> Settled(s, env, inst)
    ensures AppliedSpec(s, env', inst) == AppliedSpec(s, env, inst)
  {
    hide DeriveMaxRetention, BaseName, PitrName, TemplateName;
    SameBase(env, env', inst);
    SteadyGoals(s, env, env', inst);
  }

  /** What others may do between two passes: anything that leaves the schedules, this
      MariaDB's specification, its replica template, base backup and PITR object. */
  ghost predicate LeavesSync(env: Env, inst: Instance, s: Store, t: Store) {
    && LeavesSchedules(env, inst, s, t)
    && (inst.name in s.mariadbs ==> t.mariadbs[inst.name].spec == s.mariadbs[inst.name].spec)
    && SameAt(s, t, TemplateKey(inst)) && SameAt(s, t, BaseKey(env, inst)) && SamePitr(s, t, PitrName(inst.name))
  }

  /** None of that matters to the passes. */
  lemma SyncLeft(s: Store, t: Store, env: Env, inst: Instance)
    requires LeavesSync(env, inst, s, t)
    ensures SyncReady(s, env, inst) ==> SyncReady(t, env, inst) && ToRecreate(t, env, inst) == ToRecreate(s, env, inst)
    ensures Settled(s, env, inst) ==> Settled(t, env, inst)
    ensures Referenced(s, env, inst) ==> Referenced(t, env, inst)
  {
    hide LeavesSchedules, Settleable, Converged, Pending, TemplateReady, TemplateSettled, TemplatePending, PitrReady,
        PitrSettled, TemplateName, BaseName, PitrName, AppliedTree;
    assert s.storages == t.storages && (inst.name in s.mariadbs <==> inst.name in t.mariadbs) by {
      LeftPresent(env, inst, s, t);
    }
    SchedulesLeft(s, t, env, inst);
    TemplateUnmoved(s, t, inst);
    PitrUnmoved(s, t, env, inst);
  }

  lemma LeftPresent(env: Env, inst: Instance, s: Store, t: Store)
    requires LeavesSchedules(env, inst, s, t)
    ensures s.storages == t.storages && (inst.name in s.mariadbs <==> inst.name in t.mariadbs)
  {
  }

  lemma SyncLeftTwice(env: Env, inst: Instance, s: Store, t: Store, u: Store)
    requires LeavesSync(env, inst, s, t) && LeavesSync(env, inst, t, u)
    ensures LeavesSync(env, inst, s, u)
  {
    hide LeavesSchedules, TemplateName, BaseName, PitrName;
    LeftPresent(env, inst, s, t);
    LeftTwice(env, inst, s, t, u);
  }

  lemma SyncLeftUnder(env: Env, env': Env, inst: Instance, s: Store, t: Store)
    requires LeavesSync(env, inst, s, t) && env.digest == env'.digest
    ensures LeavesSync(env', inst, s, t)
  {
    hide LeavesSchedules, TemplateName, BaseName, PitrName;
    LeavesUnder(env, env', inst, s, t);
  }

  /** Each store is what a Sync pass makes of the one before, and others then leave. */
  ghost predicate Syncs(st: nat -> Store, envs: nat -> Env, inst: Instance) {
    forall n: nat :: OneSync(st, envs, inst, n)
  }

  ghost predicate OneSync(st: nat -> Store, envs: nat -> Env, inst: Instance, n: nat) {
    LeavesSync(envs(n), inst, After(st(n), SyncPlan(st(n), envs(n), inst)), st(n + 1))
  }

  lemma NthSync(st: nat -> Store, envs: nat -> Env, inst: Instance, n: nat)
    requires Syncs(st, envs, inst) && SyncSteady(envs, inst) && SyncReady(st(n), envs(0), inst)
    ensures var p, u := SyncPlan(st(n), envs(n), inst), st(n + 1);
      && SyncReady(u, envs(0), inst)
      && if ToRecreate(st(n), envs(0), inst) == 0 then p.outcome == Done && Settled(u, envs(0), inst)
         else p.outcome == Waiting && ToRecreate(u, envs(0), inst) == ToRecreate(st(n), envs(0), inst) - 1
  {
    hide SyncPlan, SyncReady, ToRecreate, Settled, SteadyWith, LeavesSync, Replay;
    assert OneSync(st, envs, inst, n);
    SteadySync(st(n), envs(0), envs(n), inst);
    SyncStep(st(n), envs(n), inst);
    SyncLeft(After(st(n), SyncPlan(st(n), envs(n), inst)), st(n + 1), envs(n), inst);
    SteadySync(st(n + 1), envs(0), envs(n), inst);
  }

  lemma NthSettled(st: nat -> Store, envs: nat -> Env, inst: Instance, n: nat)
    requires Syncs(st, envs, inst) && SyncSteady(envs, inst) && Settled(st(n), envs(0), inst)
    ensures var p, t, u := SyncPlan(st(n), envs(n), inst), st(n), st(n + 1);
      && p.outcome == Done && Settled(u, envs(0), inst) && Referenced(u, envs(0), inst)
      && (Referenced(t, envs(0), inst) ==>
            && p == Plan([ApplyMariaDB(inst.name, t.mariadbs[inst.name].spec)], Done)
            && After(t, p) == t && LeavesSync(envs(0), inst, t, u))
  {
    hide SyncPlan, ToRecreate, SteadyWith, AppliedSpec, Converged, TemplateSettled, PitrSettled, LeavesSync, Replay;
    var t, u := st(n), After(st(n), SyncPlan(st(n), envs(n), inst));
    SteadySync(t, envs(0), envs(n), inst);
    SettledStep(t, envs(n), inst);
    assert Redeployed(t, envs(n), inst) == Redeployed(t, envs(0), inst);
    SteadySync(u, envs(0), envs(n), inst);
    RedeployedTwice(t, envs(0), inst);
    SteadyDigest(envs(0), envs(n), inst);
    assert OneSync(st, envs, inst, n);
    SyncLeftUnder(envs(n), envs(0), inst, u, st(n + 1));
    SyncLeft(u, st(n + 1), envs(0), inst);
  }

  lemma SteadyDigest(env: Env, env': Env, inst: Instance)
    requires SteadyWith(env, env', inst)
    ensures env.digest == env'.digest
  {
  }

  lemma {:induction false} SyncsSoFar(st: nat -> Store, envs: nat -> Env, inst: Instance, n: nat)
    requires Syncs(st, envs, inst) && SyncSteady(envs, inst)
    requires SyncReady(st(0), envs(0), inst) && n <= ToRecreate(st(0), envs(0), inst)
    ensures SyncReady(st(n), envs(0), inst)
    ensures ToRecreate(st(n), envs(0), inst) == ToRecreate(st(0), envs(0), inst) - n
    decreases n
  {
    hide SyncPlan, SyncReady, ToRecreate, SyncSteady, Syncs;
    if n > 0 {
      SyncsSoFar(st, envs, inst, n - 1);
      NthSync(st, envs, inst, n - 1);
    }
  }

  lemma {:induction false} SettledAfter(st: nat -> Store, envs: nat -> Env, inst: Instance, n: nat)
    requires Syncs(st, envs, inst) && SyncSteady(envs, inst)
    requires SyncReady(st(0), envs(0), inst) && n > ToRecreate(st(0), envs(0), inst)
    ensures var k := ToRecreate(st(0), envs(0), inst);
      && Settled(st(n), envs(0), inst)
      && (n > k + 1 ==> Referenced(st(n), envs(0), inst) && LeavesSync(envs(0), inst, st(k + 2), st(n)))
    decreases n
  {
    hide SyncPlan, SyncReady, ToRecreate, Settled, SyncSteady, Syncs, Referenced, LeavesSync;
    var k := ToRecreate(st(0), envs(0), inst);
    if n == k + 1 {
      SyncsSoFar(st, envs, inst, n - 1);
      NthSync(st, envs, inst, n - 1);
    } else {
      SettledAfter(st, envs, inst, n - 1);
      NthSettled(st, envs, inst, n - 1);
      if n == k + 2 {
        SyncAlone(envs(0), inst, st(n));
      } else {
        SyncLeftTwice(envs(0), inst, st(k + 2), st(n - 1), st(n));
      }
    }
  }

  lemma SyncAlone(env: Env, inst: Instance, s: Store)
    ensures LeavesSync(env, inst, s, s)
  {
    LeftAlone(env, inst, s);
  }

  /** Settling: with k objects to recreate, template included, the first k passes
      wait and every later one succeeds. After pass k + 1 everything is in place,
      and the MariaDB names the replica template exactly when there is one, on the
      first storage. After pass k + 2 it names the PITR object exactly when PITR is
      on, that object exists, every later pass only re-applies the MariaDB as it is,
      and what is the Instance's own stays. Others may act between any two passes. */
  lemma {:induction false} SyncSettles(st: nat -> Store, envs: nat -> Env, inst: Instance, n: nat)
    requires Syncs(st, envs, inst) && SyncSteady(envs, inst) && SyncReady(st(0), envs(0), inst)
    ensures var k, t := ToRecreate(st(0), envs(0), inst), st(n);
      && SyncPlan(t, envs(n), inst).outcome == (if n < k then Waiting else Done)
      && (n > k ==>
            && Settled(t, envs(0), inst)
            && (t.mariadbs[inst.name].spec.replicaTemplate == Some(TemplateKey(inst).name) <==>
                  && TemplateKey(inst) in t.backups
                  && TemplateS3(t, inst).ResolvedS3?
                  && t.backups[TemplateKey(inst)].storage == Some(TemplateS3(t, inst).s3)))
      && (n > k + 1 ==>
            && SyncPlan(t, envs(n), inst) == Plan([ApplyMariaDB(inst.name, t.mariadbs[inst.name].spec)], Done)
            && After(t, SyncPlan(t, envs(n), inst)) == t
            && LeavesSync(envs(0), inst, st(k + 2), t)
            && t.mariadbs[inst.name].spec.pitrRef ==
                (if PitrStorage(inst).OnePitr? then Some(PitrName(inst.name)) else None)
            && (PitrStorage(inst).OnePitr? <==> PitrName(inst.name) in t.pitrs && BaseKey(envs(0), inst) in t.backups))
  {
    hide SyncPlan, SyncReady, ToRecreate, SyncSteady, Converged, BaseName, PitrName, TemplateName, ReplicaPrefix,
        Syncs, LeavesSync;
    var k := ToRecreate(st(0), envs(0), inst);
    if n <= k {
      SyncsSoFar(st, envs, inst, n);
      NthSync(st, envs, inst, n);
    } else {
      SettledAfter(st, envs, inst, n);
      NthSettled(st, envs, inst, n);
      SettledRefs(st(n), envs(0), inst);
    }
  }

  lemma SettledRefs(t: Store, env: Env, inst: Instance)
    requires Settled(t, env, inst)
    ensures t.mariadbs[inst.name].spec.replicaTemplate == Some(TemplateKey(inst).name) <==>
              && TemplateKey(inst) in t.backups
              && TemplateS3(t, inst).ResolvedS3?
              && t.backups[TemplateKey(inst)].storage == Some(TemplateS3(t, inst).s3)
    ensures Referenced(t, env, inst) ==>
              t.mariadbs[inst.name].spec.pitrRef ==
                  if PitrStorage(inst).OnePitr? then Some(PitrName(inst.name)) else None
    ensures PitrStorage(inst).OnePitr? <==> PitrName(inst.name) in t.pitrs && BaseKey(env, inst) in t.backups
  {
    hide Converged, BaseName, PitrName, TemplateName, ReplicaPrefix, Settleable, AppliedTree, Replicas, EngineSize,
        StorageClass;
  }
}
