/** Whole Sync passes under a clock, with others acting in between: exactly when
    they settle for good. */
module EventualSync {
  import opened Kube
  import opened Names
  import opened Plans
  import opened Instances
  import opened ClusterApi
  import opened Retention
  import opened Schedules
  import opened Convergence
  import opened ScheduledPasses
  import opened ScheduledRuns
  import opened PitrSync
  import opened TemplateSync
  import opened MariaDBSync
  import opened Provider
  import opened Settling
  import opened WholeSync
  import opened ScheduleFixpoints
  import opened EventualSettling
  import opened CronClock

  /** As SyncReady, but whether schedules of one name agree is left open. */
  ghost predicate SyncAimed(s: Store, env: Env, inst: Instance) {
    && ValidEnv(env) && MariaDBReady(s, env, inst)
    && Aimed(s, env, inst, Declared(inst)) && AllTakeable(s, Goals(s, env, inst, Declared(inst)))
    && TemplateReady(s, inst) && PitrReady(s, env, inst)
    && !Ours(s.backups, inst, TemplateKey(inst)) && !Ours(s.backups, inst, BaseKey(env, inst))
  }

  // ----- a pass keeps it ------------------------------------------------------

  lemma AimedFrom(s: Store, t: Store, env: Env, inst: Instance)
    requires SyncAimed(s, env, inst) && s.storages == t.storages && inst.name in t.mariadbs
    requires AllTakeable(t, Goals(s, env, inst, Declared(inst)))
    requires TemplateReady(t, inst) && PitrReady(t, env, inst)
    requires !Ours(t.backups, inst, TemplateKey(inst)) && !Ours(t.backups, inst, BaseKey(env, inst))
    ensures SyncAimed(t, env, inst)
  {
    hide AimOf, AllTakeable, TemplateReady, PitrReady, Ours;
    AimsKept(s, t, env, inst, Declared(inst));
  }

  /** A step that touches one special key only. */
  lemma TakeableBeside(s: Store, t: Store, env: Env, inst: Instance, special: Key)
    requires Aimed(s, env, inst, Declared(inst)) && AllTakeable(s, Goals(s, env, inst, Declared(inst)))
    requires (forall k | k != special :: SameAt(s, t, k)) && !Derived(env, inst, special.name)
    ensures AllTakeable(t, Goals(s, env, inst, Declared(inst)))
  {
    hide AimOf, AllTakeable, Derived;
    GoalsLeft(s, t, env, inst);
    SameGoals(s, t, Goals(s, env, inst, Declared(inst)));
  }

  lemma AimedApply(s: Store, env: Env, inst: Instance)
    requires SyncAimed(s, env, inst)
    ensures var p, t := MariaDBPlan(s, env, inst), After(s, MariaDBPlan(s, env, inst));
      p.outcome == Done && SyncAimed(t, env, inst) && t.storages == s.storages
  {
    SpecialKeys(env, inst);
    hide MariaDBPlan, AppliedSpec, Aimed, AllTakeable, PitrReady, TemplateReady, Derived;
    MariaDBRun(s, env, inst);
    var t := After(s, MariaDBPlan(s, env, inst));
    TakeableBeside(s, t, env, inst, TemplateKey(inst));
    TemplateUnmoved(s, t, inst);
    PitrUnmoved(s, t, env, inst);
    AimedFrom(s, t, env, inst);
  }

  lemma AimedTemplate(s: Store, env: Env, inst: Instance)
    requires SyncAimed(s, env, inst)
    ensures var t := After(s, TemplatePlan(s, inst)); SyncAimed(t, env, inst) && t.storages == s.storages
  {
    SpecialKeys(env, inst);
    hide TemplatePlan, Aimed, AllTakeable, PitrReady, TemplateReady, TemplateSettled, TemplatePending, Derived;
    TemplateRun(s, inst);
    var t := After(s, TemplatePlan(s, inst));
    TakeableBeside(s, t, env, inst, TemplateKey(inst));
    assert SameAt(s, t, BaseKey(env, inst));
    PitrUnmoved(s, t, env, inst);
    AimedFrom(s, t, env, inst);
  }

  lemma AimedSchedules(s: Store, env: Env, inst: Instance)
    requires SyncAimed(s, env, inst)
    ensures var t := After(s, SchedulesPlan(s, env, inst)); SyncAimed(t, env, inst) && t.storages == s.storages
  {
    SpecialKeys(env, inst);
    PassFrame(s, env, inst);
    hide SchedulesPlan, AimOf, AllTakeable, PitrReady, TemplateReady, Derived, AllOwn, OfInstance;
    ThroughoutEnds(x => Framed(s, env, inst, x), s, SchedulesPlan(s, env, inst).writes);
    var gs, t := Goals(s, env, inst, Declared(inst)), After(s, SchedulesPlan(s, env, inst));
    PassOwns(s, env, inst);
    SameTargets(s, s, env, env, inst);
    OwnWrites(s, inst, gs, SchedulesPlan(s, env, inst).writes);
    assert SameAt(s, t, TemplateKey(inst)) && SameAt(s, t, BaseKey(env, inst));
    TemplateUnmoved(s, t, inst);
    PitrUnmoved(s, t, env, inst);
    AimedFrom(s, t, env, inst);
  }

  lemma AimedPitr(s: Store, env: Env, inst: Instance)
    requires SyncAimed(s, env, inst)
    ensures var t := After(s, PitrPlan(s, env, inst)); SyncAimed(t, env, inst) && t.storages == s.storages
  {
    SpecialKeys(env, inst);
    hide PitrPlan, Aimed, AllTakeable, PitrSettled, PitrReady, TemplateReady, Derived;
    PitrRun(s, env, inst);
    var t := After(s, PitrPlan(s, env, inst));
    TakeableBeside(s, t, env, inst, BaseKey(env, inst));
    assert SameAt(s, t, TemplateKey(inst));
    TemplateUnmoved(s, t, inst);
    PitrSettledReady(s, t, env, inst);
    AimedFrom(s, t, env, inst);
  }

  lemma AimedPass(s: Store, env: Env, inst: Instance)
    requires SyncAimed(s, env, inst)
    ensures var t := After(s, SyncPlan(s, env, inst)); SyncAimed(t, env, inst) && t.storages == s.storages
  {
    hide SyncPlan, MariaDBPlan, TemplatePlan, SchedulesPlan, PitrPlan, Replay, After, SyncAimed;
    SyncAfter(s, env, inst);
    AimedApply(s, env, inst);
    var s1 := After(s, MariaDBPlan(s, env, inst));
    AimedTemplate(s1, env, inst);
    var s2 := After(s1, TemplatePlan(s1, inst));
    AimedSchedules(s2, env, inst);
    AimedPitr(After(s2, SchedulesPlan(s2, env, inst)), env, inst);
  }

  lemma AimedLeft(s: Store, t: Store, env: Env, inst: Instance)
    requires SyncAimed(s, env, inst) && LeavesSync(env, inst, s, t)
    ensures SyncAimed(t, env, inst) && t.storages == s.storages
  {
    hide AimOf, AllTakeable, PitrReady, TemplateReady, LeavesSchedules, TemplateName, BaseName, PitrName;
    LeftPresent(env, inst, s, t);
    SchedulesLeft(s, t, env, inst);
    TakeableKept(s, t, env, inst);
    TemplateUnmoved(s, t, inst);
    PitrUnmoved(s, t, env, inst);
    AimedFrom(s, t, env, inst);
  }

  lemma TakeableKept(s: Store, t: Store, env: Env, inst: Instance)
    requires Aimed(s, env, inst, Declared(inst)) && AllTakeable(s, Goals(s, env, inst, Declared(inst)))
    requires LeavesSchedules(env, inst, s, t)
    ensures AllTakeable(t, Goals(s, env, inst, Declared(inst)))
  {
    hide AimOf, AllTakeable, Ours;
    GoalsLeft(s, t, env, inst);
    SameGoals(s, t, Goals(s, env, inst, Declared(inst)));
  }

  /** What one clock is ready for, another that could be aimed before is too. */
  lemma AimedUnder(s: Store, t: Store, env: Env, env': Env, inst: Instance)
    requires SyncAimed(t, env, inst) && SyncAimed(s, env', inst) && s.storages == t.storages
    requires env.digest == env'.digest && env.catalog == env'.catalog
    ensures SyncAimed(t, env', inst)
  {
    hide AimOf, AllTakeable, TemplateReady, Ours, OfInstance, BaseName, PitrName, TemplateName;
    AimsKept(s, t, env', inst, Declared(inst));
    SameTargets(t, t, env, env', inst);
    SameTakeable(t, Goals(t, env, inst, Declared(inst)), Goals(t, env', inst, Declared(inst)));
    BaseReady(s, t, env, env', inst);
  }

  lemma BaseReady(s: Store, t: Store, env: Env, env': Env, inst: Instance)
    requires PitrReady(t, env, inst) && PitrReady(s, env', inst) && s.storages == t.storages
    requires env.digest == env'.digest
    ensures PitrReady(t, env', inst)
  {
    hide DeriveMaxRetention, BaseName, PitrName;
  }

  // ----- every pass is ready --------------------------------------------------

  /** Passes with one digest and catalog, each of which can be aimed. */
  ghost predicate AlwaysReady(s: Store, envs: nat -> Env, inst: Instance) {
    forall n: nat :: ReadyAt(s, envs, inst, n)
  }

  ghost predicate ReadyAt(s: Store, envs: nat -> Env, inst: Instance, n: nat) {
    && envs(n).digest == envs(0).digest && envs(n).catalog == envs(0).catalog
    && SyncAimed(s, envs(n), inst)
  }

  lemma {:induction false} ReadyAlways(st: nat -> Store, envs: nat -> Env, inst: Instance, n: nat)
    requires Syncs(st, envs, inst) && AlwaysReady(st(0), envs, inst)
    ensures AlwaysReady(st(n), envs, inst) && st(n).storages == st(0).storages
    decreases n
  {
    hide SyncPlan, SyncAimed, LeavesSync, Replay;
    if n > 0 {
      ReadyAlways(st, envs, inst, n - 1);
      assert ReadyAt(st(n - 1), envs, inst, n - 1) && OneSync(st, envs, inst, n - 1);
      AimedPass(st(n - 1), envs(n - 1), inst);
      AimedLeft(After(st(n - 1), SyncPlan(st(n - 1), envs(n - 1), inst)), st(n), envs(n - 1), inst);
      forall k: nat ensures ReadyAt(st(n), envs, inst, k) {
        assert ReadyAt(st(n - 1), envs, inst, k);
        AimedUnder(st(n - 1), st(n), envs(n - 1), envs(k), inst);
      }
    }
  }

  // ----- settling for good ----------------------------------------------------

  /** A pass that succeeds, re-applies the MariaDB as it already is, and writes
      nothing else. */
  ghost predicate QuietSync(st: nat -> Store, envs: nat -> Env, inst: Instance, n: nat) {
    && inst.name in st(n).mariadbs
    && SyncPlan(st(n), envs(n), inst) == Plan([ApplyMariaDB(inst.name, st(n).mariadbs[inst.name].spec)], Done)
  }

  ghost predicate QuietSyncsFrom(st: nat -> Store, envs: nat -> Env, inst: Instance, m: nat) {
    forall n: nat | m <= n :: QuietSync(st, envs, inst, n)
  }

  ghost predicate SyncSettlesForGood(st: nat -> Store, envs: nat -> Env, inst: Instance) {
    exists m: nat :: QuietSyncsFrom(st, envs, inst, m)
  }

  ghost predicate AgreeWhen(s: Store, envs: nat -> Env, inst: Instance, m: nat)
    requires AlwaysReady(s, envs, inst)
  {
    assert ReadyAt(s, envs, inst, m);
    Compatible(Goals(s, envs(m), inst, Declared(inst)))
  }

  lemma QuietParts(s: Store, env: Env, inst: Instance)
    requires SyncAimed(s, env, inst)
    requires SyncPlan(s, env, inst) == Plan([ApplyMariaDB(inst.name, s.mariadbs[inst.name].spec)], Done)
    ensures After(s, SyncPlan(s, env, inst)) == s && SchedulesPlan(s, env, inst) == Stop(Done)
  {
    hide TemplatePlan, SchedulesPlan, PitrPlan, AppliedSpec, MariaDBPlan, SyncAimed, AimOf;
    assert MariaDBReady(s, env, inst) by { AimedReady(s, env, inst); }
    OnlyApplied(s, env, inst);
    var p := MariaDBPlan(s, env, inst);
    var rest := SyncRest(After(s, p), env, inst);
    assert |p.writes + rest.writes| == 1 && (p.writes + rest.writes)[0] == p.writes[0];
    ApplyAsIs(s, inst);
    AfterNothing(s);
  }

  lemma AimedReady(s: Store, env: Env, inst: Instance)
    requires SyncAimed(s, env, inst)
    ensures MariaDBReady(s, env, inst)
  {
  }

  lemma ApplyAsIs(s: Store, inst: Instance)
    requires inst.name in s.mariadbs
    ensures After(s, Plan([ApplyMariaDB(inst.name, s.mariadbs[inst.name].spec)], Done)) == s
  {
    AfterWrite(s, ApplyMariaDB(inst.name, s.mariadbs[inst.name].spec), Done);
    assert s.mariadbs[inst.name := s.mariadbs[inst.name]] == s.mariadbs;
  }

  lemma QuietSyncConverged(st: nat -> Store, envs: nat -> Env, inst: Instance, n: nat)
    requires Syncs(st, envs, inst) && AlwaysReady(st(0), envs, inst) && QuietSync(st, envs, inst, n)
    ensures Converged(st(n), envs(n), inst)
    ensures LeavesSync(envs(0), inst, st(n), st(n + 1))
  {
    hide SyncPlan, SchedulesPlan, AimOf, AllInSync, AllTakeable, LeavesSync;
    ReadyAlways(st, envs, inst, n);
    assert ReadyAt(st(n), envs, inst, n) && OneSync(st, envs, inst, n);
    QuietParts(st(n), envs(n), inst);
    QuietIffConverged(st(n), envs(n), inst);
    SyncLeftUnder(envs(n), envs(0), inst, st(n), st(n + 1));
  }

  lemma {:induction false} QuietSyncsStay(st: nat -> Store, envs: nat -> Env, inst: Instance, m: nat, n: nat)
    requires Syncs(st, envs, inst) && AlwaysReady(st(0), envs, inst) && QuietSyncsFrom(st, envs, inst, m) && m <= n
    ensures LeavesSync(envs(0), inst, st(m), st(n))
    decreases n
  {
    hide SyncPlan, LeavesSync, Syncs, AlwaysReady;
    if m < n {
      QuietSyncsStay(st, envs, inst, m, n - 1);
      assert QuietSync(st, envs, inst, n - 1);
      QuietSyncConverged(st, envs, inst, n - 1);
      SyncLeftTwice(envs(0), inst, st(m), st(n - 1), st(n));
    } else {
      SyncAlone(envs(0), inst, st(m));
    }
  }

  lemma QuietSyncsSteady(st: nat -> Store, envs: nat -> Env, inst: Instance, m: nat)
    requires Syncs(st, envs, inst) && AlwaysReady(st(0), envs, inst) && QuietSyncsFrom(st, envs, inst, m)
    ensures SteadyFrom(envs, inst, m) && AgreeWhen(st(0), envs, inst, m)
  {
    hide SyncPlan, SteadyWith, Syncs, LeavesSync, SyncAimed, Converged;
    assert QuietSync(st, envs, inst, m);
    QuietSyncConverged(st, envs, inst, m);
    forall n: nat | m <= n ensures SteadyWith(envs(m), envs(n), inst) {
      assert QuietSync(st, envs, inst, n);
      QuietSyncConverged(st, envs, inst, n);
      QuietSyncsStay(st, envs, inst, m, n);
      StillConverged(st, envs, inst, m, n);
    }
    ConvergedAgree(st, envs, inst, m);
  }

  lemma StillConverged(st: nat -> Store, envs: nat -> Env, inst: Instance, m: nat, n: nat)
    requires AlwaysReady(st(0), envs, inst) && LeavesSync(envs(0), inst, st(m), st(n))
    requires Converged(st(m), envs(m), inst) && Converged(st(n), envs(n), inst)
    ensures SteadyWith(envs(m), envs(n), inst)
  {
    hide AimOf, AllTakeable, AllInSync, PitrReady, TemplateReady, Ours, LeavesSchedules;
    assert ReadyAt(st(0), envs, inst, m) && ReadyAt(st(0), envs, inst, n);
    LeavesUnder(envs(0), envs(m), inst, st(m), st(n));
    SchedulesLeft(st(m), st(n), envs(m), inst);
    BothConvergedSteady(st(n), envs(m), envs(n), inst);
  }

  lemma ConvergedAgree(st: nat -> Store, envs: nat -> Env, inst: Instance, m: nat)
    requires Syncs(st, envs, inst) && AlwaysReady(st(0), envs, inst) && Converged(st(m), envs(m), inst)
    ensures AgreeWhen(st(0), envs, inst, m)
  {
    hide AimOf, AllTakeable, InSync, PitrReady, TemplateReady, Ours, Syncs, Compatible;
    ReadyAlways(st, envs, inst, m);
    assert ReadyAt(st(0), envs, inst, m) && ReadyAt(st(m), envs, inst, m);
    AimsKept(st(0), st(m), envs(m), inst, Declared(inst));
    SameInstance(st(m), envs(m), inst);
    AllMetCompatible(st(m), Goals(st(m), envs(m), inst, Declared(inst)), inst.name);
  }

  lemma SyncsLater(st: nat -> Store, envs: nat -> Env, inst: Instance, m: nat)
    requires Syncs(st, envs, inst)
    ensures Syncs(Later(st, m), Later(envs, m), inst)
  {
    hide SyncPlan, LeavesSync, Replay;
    forall n: nat ensures OneSync(Later(st, m), Later(envs, m), inst, n) {
      assert OneSync(st, envs, inst, m + n);
    }
  }

  lemma ReadyWhenAgreed(st: nat -> Store, envs: nat -> Env, inst: Instance, m: nat)
    requires Syncs(st, envs, inst) && AlwaysReady(st(0), envs, inst) && AgreeWhen(st(0), envs, inst, m)
    ensures SyncReady(st(m), envs(m), inst)
  {
    hide AimOf, AllTakeable, PitrReady, TemplateReady, Ours, Syncs, Compatible;
    ReadyAlways(st, envs, inst, m);
    assert ReadyAt(st(0), envs, inst, m) && ReadyAt(st(m), envs, inst, m);
    AimsKept(st(0), st(m), envs(m), inst, Declared(inst));
  }

  lemma SteadyLaterSync(s: Store, envs: nat -> Env, inst: Instance, m: nat)
    requires AlwaysReady(s, envs, inst) && SteadyFrom(envs, inst, m)
    ensures SyncSteady(Later(envs, m), inst)
  {
    hide SteadyWith, SyncAimed;
    forall n: nat
      ensures SteadyWith(Later(envs, m)(0), Later(envs, m)(n), inst)
      ensures Later(envs, m)(n).catalog == Later(envs, m)(0).catalog
    {
      assert SteadyWith(envs(m), envs(m + n), inst);
      assert ReadyAt(s, envs, inst, m) && ReadyAt(s, envs, inst, m + n);
    }
  }

  lemma QuietSyncLater(st: nat -> Store, envs: nat -> Env, inst: Instance, m: nat, n: nat)
    requires Syncs(st, envs, inst) && SyncReady(st(m), envs(m), inst) && SyncSteady(Later(envs, m), inst)
    requires n > m + ToRecreate(st(m), envs(m), inst) + 1
    ensures QuietSync(st, envs, inst, n)
  {
    hide SyncPlan, SyncReady, ToRecreate, SyncSteady, Converged, Syncs, LeavesSync, TemplateSettled, PitrSettled;
    var later, later' := Later(st, m), Later(envs, m);
    assert later(0) == st(m) && later'(0) == envs(m) && later(n - m) == st(n) && later'(n - m) == envs(n);
    SyncsLater(st, envs, inst, m);
    SyncSettles(later, later', inst, n - m);
    SettledPresent(st(n), envs(m), inst);
  }

  lemma SettledPresent(s: Store, env: Env, inst: Instance)
    requires Settled(s, env, inst)
    ensures inst.name in s.mariadbs
  {
  }

  /** Exactly when Sync settles for good, whatever the clock and whatever others do
      in between: if and only if from some pass on all derive the same retentions,
      and the schedules of one name then agree. */
  lemma SyncSettlesForGoodIff(st: nat -> Store, envs: nat -> Env, inst: Instance)
    requires Syncs(st, envs, inst) && AlwaysReady(st(0), envs, inst)
    ensures SyncSettlesForGood(st, envs, inst) <==>
              exists m: nat :: SteadyFrom(envs, inst, m) && AgreeWhen(st(0), envs, inst, m)
  {
    hide QuietSyncsFrom, SteadyFrom, AgreeWhen, AlwaysReady, Syncs;
    if SyncSettlesForGood(st, envs, inst) {
      var m: nat :| QuietSyncsFrom(st, envs, inst, m);
      QuietSyncsSteady(st, envs, inst, m);
    }
    if m: nat :| SteadyFrom(envs, inst, m) && AgreeWhen(st(0), envs, inst, m) {
      SettlesAfter(st, envs, inst, m);
    }
  }

  lemma SettlesAfter(st: nat -> Store, envs: nat -> Env, inst: Instance, m: nat)
    requires Syncs(st, envs, inst) && AlwaysReady(st(0), envs, inst)
    requires SteadyFrom(envs, inst, m) && AgreeWhen(st(0), envs, inst, m)
    ensures SyncSettlesForGood(st, envs, inst)
  {
    hide SyncReady, ToRecreate, SyncSteady, SteadyFrom, AgreeWhen, AlwaysReady, QuietSync, Syncs;
    ReadyWhenAgreed(st, envs, inst, m);
    SteadyLaterSync(st(0), envs, inst, m);
    var first := m + ToRecreate(st(m), envs(m), inst) + 2;
    forall n: nat | first <= n ensures QuietSync(st, envs, inst, n) {
      QuietSyncLater(st, envs, inst, m, n);
    }
    assert QuietSyncsFrom(st, envs, inst, first);
  }

  // ----- read off the crons ---------------------------------------------------

  lemma ReadyDigest(s: Store, envs: nat -> Env, inst: Instance)
    requires AlwaysReady(s, envs, inst)
    ensures OneDigest(envs)
  {
    hide AimOf, AllTakeable, TemplateReady, PitrReady, Ours;
    forall n: nat ensures ValidEnv(envs(n)) && envs(n).digest == envs(0).digest { assert ReadyAt(s, envs, inst, n); }
  }

  lemma SameAgreementSync(s: Store, envs: nat -> Env, inst: Instance, m: nat)
    requires AlwaysReady(s, envs, inst) && Steady(envs, inst) && AgreeWhen(s, envs, inst, m)
    ensures AgreeWhen(s, envs, inst, 0)
  {
    hide SteadyWith, AimOf, Compatible, AllTakeable, TemplateReady, PitrReady, Ours;
    assert ReadyAt(s, envs, inst, 0) && ReadyAt(s, envs, inst, m) && SteadyWith(envs(0), envs(m), inst);
    SteadyGoals(s, envs(0), envs(m), inst);
  }

  /** Under a clock that moves forward past every firing, with crons whose gaps
      repeat, Sync settles for good if and only if every schedule with a count has a
      cron all of whose gaps give the same age, and schedules of one name agree. */
  lemma SyncSettlesIffEven(st: nat -> Store, cal: Calendar, envs: nat -> Env, at: nat -> int, inst: Instance)
    requires Syncs(st, envs, inst) && AlwaysReady(st(0), envs, inst)
    requires Timed(cal, envs, at) && Forward(at) && AllVisited(cal, at, Declared(inst))
    requires forall e | e in Declared(inst) :: CronPeriodic(cal, e)
    ensures SyncSettlesForGood(st, envs, inst) <==>
              (forall e | e in Declared(inst) :: EntryEven(cal, e)) && AgreeWhen(st(0), envs, inst, 0)
  {
    hide Timed, Forward, AllVisited, SyncSettlesForGood, Declared, SteadyWith, AgreeWhen, AlwaysReady, Syncs, OneDigest;
    ReadyDigest(st(0), envs, inst);
    SyncSettlesForGoodIff(st, envs, inst);
    if SyncSettlesForGood(st, envs, inst) {
      var m: nat :| SteadyFrom(envs, inst, m) && AgreeWhen(st(0), envs, inst, m);
      ClockSteadyIff(cal, envs, at, inst);
      AllEven(cal, Declared(inst));
      EvenWhateverTheClock(cal, envs, at, inst);
      SameAgreementSync(st(0), envs, inst, m);
    }
    if (forall e | e in Declared(inst) :: EntryEven(cal, e)) && AgreeWhen(st(0), envs, inst, 0) {
      EvenWhateverTheClock(cal, envs, at, inst);
      assert SteadyFrom(envs, inst, 0);
    }
  }
}
