/** Scheduled backups under a clock: the retention of a count is sampled anew on
    every pass, and on logical backups it is immutable. Exactly when repeated passes
    settle for good. */
module EventualSettling {
  import opened Kube
  import opened Names
  import opened Plans
  import opened Instances
  import opened ClusterApi
  import opened Retention
  import opened Schedules
  import opened Convergence
  import opened ScheduledPasses
  import opened ScheduledRuns
  import opened ScheduleFixpoints

  /** Passes with one digest, each of which can be aimed. */
  ghost predicate AlwaysAimed(s: Store, envs: nat -> Env, inst: Instance) {
    forall n: nat :: AimedAt(s, envs, inst, n)
  }

  ghost predicate AimedAt(s: Store, envs: nat -> Env, inst: Instance, n: nat) {
    ValidEnv(envs(n)) && envs(n).digest == envs(0).digest && Aimed(s, envs(n), inst, Declared(inst))
  }

  // ----- a pass leaves behind only what is ours -------------------------------

  predicate OwnWrite(inst: Instance, w: Write) {
    w.PutBackup? ==> w.cr.owner == Some(MariaDBOwner(inst.name))
  }

  ghost predicate AllOwn(inst: Instance, ws: seq<Write>) {
    forall n | 0 <= n < |ws| :: OwnWrite(inst, ws[n])
  }

  lemma EntryOwns(x: Store, env: Env, inst: Instance, e: Entry)
    ensures AllOwn(inst, EntryPlan(x, env, inst, e).writes)
  {
    hide ParseParameters, ScheduledName, ResolveS3, GoalPlan;
    match AimOf(x, env, inst, e)
    case Blocked(_) =>
    case AimAt(g) => GoalWrites(x, g);
  }

  lemma {:induction false} EntriesOwn(s: Store, env: Env, inst: Instance, es: seq<Entry>)
    ensures AllOwn(inst, EntriesPlan(s, env, inst, es).writes)
    decreases |es|
  {
    hide EntryPlan, OwnWrite, Replay;
    if es != [] {
      var init := es[..|es| - 1];
      EntriesOwn(s, env, inst, init);
      EntryOwns(After(s, EntriesPlan(s, env, inst, init)), env, inst, es[|es| - 1]);
    }
  }

  lemma {:induction false} StaleOwn(inst: Instance, backups: map<Key, BackupCR>, order: seq<Key>, desired: set<string>)
    ensures AllOwn(inst, StaleWrites(backups, order, desired))
    decreases |order|
  {
    hide Stale;
    if order != [] { StaleOwn(inst, backups, order[..|order| - 1], desired); }
  }

  lemma PassOwns(s: Store, env: Env, inst: Instance)
    ensures AllOwn(inst, SchedulesPlan(s, env, inst).writes)
  {
    hide EntriesPlan, StaleWrites, OwnWrite, Desired, Listed, Replay;
    var p := EntriesPlan(s, env, inst, Declared(inst));
    EntriesOwn(s, env, inst, Declared(inst));
    var s1 := After(s, p);
    var q := PrunePlan(s1, env, inst, Logical);
    StaleOwn(inst, s1.backups, env.listing(Listed(s1.backups, Logical, inst.name)),
      Desired(env, inst, Declared(inst), Logical));
    var s2 := After(s1, q);
    StaleOwn(inst, s2.backups, env.listing(Listed(s2.backups, Physical, inst.name)),
      Desired(env, inst, Declared(inst), Physical));
  }

  ghost predicate OfInstance(gs: seq<Goal>, inst: Instance) {
    forall i | 0 <= i < |gs| :: gs[i].mariadb == inst.name
  }

  lemma OwnStep(x: Store, inst: Instance, gs: seq<Goal>, w: Write)
    requires AllTakeable(x, gs) && OfInstance(gs, inst) && OwnWrite(inst, w)
    ensures AllTakeable(Performed(x, w), gs)
  {
    forall i | 0 <= i < |gs| ensures Takeable(Performed(x, w), gs[i]) {
      assert Takeable(x, gs[i]);
    }
  }

  lemma {:induction false} OwnWrites(x: Store, inst: Instance, gs: seq<Goal>, ws: seq<Write>)
    requires AllTakeable(x, gs) && OfInstance(gs, inst) && AllOwn(inst, ws)
    ensures AllTakeable(Replay(x, ws), gs)
    decreases |ws|
  {
    hide AllTakeable, OfInstance, OwnWrite, Performed;
    if ws != [] {
      assert OwnWrite(inst, ws[0]);
      OwnStep(x, inst, gs, ws[0]);
      assert forall n | 0 <= n < |ws[1..]| :: ws[1..][n] == ws[n + 1];
      OwnWrites(Performed(x, ws[0]), inst, gs, ws[1..]);
    }
  }

  ghost predicate AllDerived(env: Env, inst: Instance, gs: seq<Goal>) {
    forall i | 0 <= i < |gs| :: Derived(env, inst, gs[i].key.name)
  }

  lemma TakeableLeft(env: Env, inst: Instance, gs: seq<Goal>, t: Store, u: Store)
    requires AllTakeable(t, gs) && AllDerived(env, inst, gs) && LeavesSchedules(env, inst, t, u)
    ensures AllTakeable(u, gs)
  {
    hide Derived, Ours;
    forall i | 0 <= i < |gs| ensures Takeable(u, gs[i]) {
      assert Takeable(t, gs[i]) && SameAt(t, u, gs[i].key);
    }
  }

  /** Whatever the passes derive and wherever they wait, the declared objects stay
      ours to take. */
  lemma {:induction false} TakeableAlways(st: nat -> Store, envs: nat -> Env, inst: Instance, gs: seq<Goal>, n: nat)
    requires Passes(st, envs, inst) && forall k: nat :: envs(k).digest == envs(0).digest
    requires AllTakeable(st(0), gs) && OfInstance(gs, inst) && AllDerived(envs(0), inst, gs)
    ensures AllTakeable(st(n), gs)
    decreases n
  {
    hide SchedulesPlan, AllTakeable, OfInstance, AllOwn, Replay, LeavesSchedules, AllDerived, Passes;
    if n > 0 {
      TakeableAlways(st, envs, inst, gs, n - 1);
      var t, env := st(n - 1), envs(n - 1);
      PassOwns(t, env, inst);
      OwnWrites(t, inst, gs, SchedulesPlan(t, env, inst).writes);
      var u := After(t, SchedulesPlan(t, env, inst));
      NextLeaves(st, envs, inst, n - 1);
      TakeableLeft(envs(0), inst, gs, u, st(n));
    }
  }

  /** In the terms of the first pass. */
  lemma NextLeaves(st: nat -> Store, envs: nat -> Env, inst: Instance, n: nat)
    requires Passes(st, envs, inst) && envs(n).digest == envs(0).digest
    ensures LeavesSchedules(envs(0), inst, After(st(n), SchedulesPlan(st(n), envs(n), inst)), st(n + 1))
  {
    hide SchedulesPlan, Replay, Ours, SameAt;
    assert PassStep(st, envs, inst, n);
    LeavesUnder(envs(n), envs(0), inst, After(st(n), SchedulesPlan(st(n), envs(n), inst)), st(n + 1));
  }

  /** Which objects are asked for does not depend on the clock. */
  lemma SameTargets(s: Store, t: Store, env: Env, env': Env, inst: Instance)
    requires env.digest == env'.digest
    requires Aimed(s, env, inst, Declared(inst)) && Aimed(t, env', inst, Declared(inst))
    ensures var gs, gs' := Goals(s, env, inst, Declared(inst)), Goals(t, env', inst, Declared(inst));
      && OfInstance(gs, inst) && OfInstance(gs', inst)
      && |gs| == |gs'| && forall i | 0 <= i < |gs| :: gs[i].key == gs'[i].key && gs[i].mariadb == gs'[i].mariadb
  {
    hide ParseParameters, ScheduledName, ResolveS3, DeriveMaxRetention;
  }

  lemma SameTakeable(x: Store, gs: seq<Goal>, gs': seq<Goal>)
    requires |gs| == |gs'| && forall i | 0 <= i < |gs| :: gs[i].key == gs'[i].key && gs[i].mariadb == gs'[i].mariadb
    requires AllTakeable(x, gs)
    ensures AllTakeable(x, gs')
  {
    forall i | 0 <= i < |gs'| ensures Takeable(x, gs'[i]) {
      assert Takeable(x, gs[i]);
    }
  }

  // ----- settling for good ----------------------------------------------------

  /** From some pass on, every pass succeeds and writes nothing. */
  ghost predicate SettlesForGood(st: nat -> Store, envs: nat -> Env, inst: Instance) {
    exists m: nat :: QuietFrom(st, envs, inst, m)
  }

  ghost predicate QuietFrom(st: nat -> Store, envs: nat -> Env, inst: Instance, m: nat) {
    forall n: nat | m <= n :: QuietPass(st, envs, inst, n)
  }

  /** From the m-th pass on, all derive the same retentions. */
  ghost predicate SteadyFrom(envs: nat -> Env, inst: Instance, m: nat) {
    forall n: nat | m <= n :: SteadyWith(envs(m), envs(n), inst)
  }

  ghost predicate AgreedAt(s: Store, envs: nat -> Env, inst: Instance, m: nat)
    requires AlwaysAimed(s, envs, inst)
  {
    assert AimedAt(s, envs, inst, m);
    Compatible(Goals(s, envs(m), inst, Declared(inst)))
  }

  /** No declared object belongs to another controller to begin with. */
  ghost predicate StartsTakeable(s: Store, envs: nat -> Env, inst: Instance)
    requires AlwaysAimed(s, envs, inst)
  {
    assert AimedAt(s, envs, inst, 0);
    AllTakeable(s, Goals(s, envs(0), inst, Declared(inst)))
  }

  lemma AimedEnvs(s: Store, envs: nat -> Env, inst: Instance)
    requires AlwaysAimed(s, envs, inst)
    ensures forall k: nat :: ValidEnv(envs(k)) && envs(k).digest == envs(0).digest
  {
    forall k: nat ensures ValidEnv(envs(k)) && envs(k).digest == envs(0).digest { assert AimedAt(s, envs, inst, k); }
  }

  lemma {:induction false} QuietStays(st: nat -> Store, envs: nat -> Env, inst: Instance, m: nat, n: nat)
    requires Passes(st, envs, inst) && AlwaysAimed(st(0), envs, inst) && QuietFrom(st, envs, inst, m) && m <= n
    ensures LeavesSchedules(envs(m), inst, st(m), st(n))
    decreases n
  {
    hide SchedulesPlan, LeavesSchedules, Passes, AlwaysAimed;
    if m < n {
      QuietStays(st, envs, inst, m, n - 1);
      AimedEnvs(st(0), envs, inst);
      assert QuietPass(st, envs, inst, n - 1);
      AfterNothing(st(n - 1));
      NextLeaves(st, envs, inst, n - 1);
      LeavesUnder(envs(0), envs(m), inst, st(n - 1), st(n));
      LeftTwice(envs(m), inst, st(m), st(n - 1), st(n));
    } else {
      LeftAlone(envs(m), inst, st(m));
    }
  }

  /** An object in sync holds the retention the pass derived. */
  lemma RetentionStored(t: Store, env: Env, inst: Instance, i: nat)
    requires Aimed(t, env, inst, Declared(inst)) && i < |Declared(inst)|
    requires AllInSync(t, Goals(t, env, inst, Declared(inst)))
    ensures var e, key := Declared(inst)[i], Goals(t, env, inst, Declared(inst))[i].key;
      && key in t.backups
      && DeriveMaxRetention(env.gap, e.schedule.cron, e.schedule.retention) == Some(t.backups[key].maxRetention)
  {
    hide ParseParameters, ScheduledName, ResolveS3, DeriveMaxRetention;
    assert InSync(t, Goals(t, env, inst, Declared(inst))[i]);
  }

  /** Two passes that both find a store in line derive the same retentions. */
  lemma BothConvergedSteady(t: Store, env: Env, env': Env, inst: Instance)
    requires ValidEnv(env) && ValidEnv(env') && env.digest == env'.digest
    requires Converged(t, env, inst) && Converged(t, env', inst)
    ensures SteadyWith(env, env', inst)
  {
    hide DeriveMaxRetention, AimOf, AllInSync, ValidEnv;
    SameTargets(t, t, env, env', inst);
    forall e | e in Declared(inst)
      ensures DeriveMaxRetention(env.gap, e.schedule.cron, e.schedule.retention) ==
              DeriveMaxRetention(env'.gap, e.schedule.cron, e.schedule.retention)
    {
      var i :| 0 <= i < |Declared(inst)| && Declared(inst)[i] == e;
      RetentionStored(t, env, inst, i);
      RetentionStored(t, env', inst, i);
    }
  }

  lemma QuietConverged(st: nat -> Store, envs: nat -> Env, inst: Instance, n: nat)
    requires Passes(st, envs, inst) && AlwaysAimed(st(0), envs, inst) && QuietPass(st, envs, inst, n)
    ensures Converged(st(n), envs(n), inst)
  {
    hide SchedulesPlan, AimOf, AllInSync, Passes;
    AimedEnvs(st(0), envs, inst);
    PassesFrame(st, envs, inst, n);
    assert AimedAt(st(0), envs, inst, n);
    AimsKept(st(0), st(n), envs(n), inst, Declared(inst));
    QuietIffConverged(st(n), envs(n), inst);
  }

  lemma QuietIsSteady(st: nat -> Store, envs: nat -> Env, inst: Instance, m: nat)
    requires Passes(st, envs, inst) && AlwaysAimed(st(0), envs, inst) && QuietFrom(st, envs, inst, m)
    ensures SteadyFrom(envs, inst, m) && AgreedAt(st(0), envs, inst, m)
  {
    hide AimOf, InSync, Compatible, SchedulesPlan, SteadyWith, LeavesSchedules, Passes;
    assert QuietPass(st, envs, inst, m);
    QuietConverged(st, envs, inst, m);
    AimedEnvs(st(0), envs, inst);
    forall n: nat | m <= n ensures SteadyWith(envs(m), envs(n), inst) {
      assert QuietPass(st, envs, inst, n);
      QuietConverged(st, envs, inst, n);
      QuietStays(st, envs, inst, m, n);
      SchedulesLeft(st(m), st(n), envs(m), inst);
      BothConvergedSteady(st(n), envs(m), envs(n), inst);
    }
    assert AimedAt(st(0), envs, inst, m);
    PassesFrame(st, envs, inst, m);
    AimsKept(st(0), st(m), envs(m), inst, Declared(inst));
    SameInstance(st(m), envs(m), inst);
    AllMetCompatible(st(m), Goals(st(m), envs(m), inst, Declared(inst)), inst.name);
  }

  function Later<T>(xs: nat -> T, m: nat): nat -> T {
    (k: nat) => xs(m + k)
  }

  lemma PassesLater(st: nat -> Store, envs: nat -> Env, inst: Instance, m: nat)
    requires Passes(st, envs, inst)
    ensures Passes(Later(st, m), Later(envs, m), inst)
  {
    hide SchedulesPlan, LeavesSchedules, Replay;
    forall n: nat ensures PassStep(Later(st, m), Later(envs, m), inst, n) {
      assert PassStep(st, envs, inst, m + n);
    }
  }

  lemma SettleableLater(st: nat -> Store, envs: nat -> Env, inst: Instance, m: nat)
    requires Passes(st, envs, inst) && AlwaysAimed(st(0), envs, inst)
    requires AgreedAt(st(0), envs, inst, m) && StartsTakeable(st(0), envs, inst)
    ensures Settleable(st(m), envs(m), inst)
  {
    hide AimOf, AllTakeable, Compatible, OfInstance, Passes, Derived;
    assert AimedAt(st(0), envs, inst, 0) && AimedAt(st(0), envs, inst, m);
    AimedEnvs(st(0), envs, inst);
    var s, t := st(0), st(m);
    var gs, gs' := Goals(s, envs(0), inst, Declared(inst)), Goals(s, envs(m), inst, Declared(inst));
    PassesFrame(st, envs, inst, m);
    AimsKept(s, t, envs(m), inst, Declared(inst));
    SameTargets(s, s, envs(0), envs(m), inst);
    forall i | 0 <= i < |gs| ensures Derived(envs(0), inst, gs[i].key.name) { DerivedGoal(s, envs(0), inst, i); }
    TakeableAlways(st, envs, inst, gs, m);
    SameTakeable(t, gs, gs');
  }

  lemma SteadyLater(envs: nat -> Env, inst: Instance, m: nat)
    requires SteadyFrom(envs, inst, m)
    ensures Steady(Later(envs, m), inst)
  {
    hide SteadyWith;
    forall n: nat ensures SteadyWith(Later(envs, m)(0), Later(envs, m)(n), inst) {
      assert SteadyWith(envs(m), envs(m + n), inst);
    }
  }

  lemma SteadySettles(st: nat -> Store, envs: nat -> Env, inst: Instance, m: nat)
    requires Passes(st, envs, inst) && AlwaysAimed(st(0), envs, inst)
    requires SteadyFrom(envs, inst, m) && AgreedAt(st(0), envs, inst, m) && StartsTakeable(st(0), envs, inst)
    ensures SettlesForGood(st, envs, inst)
  {
    SettleableLater(st, envs, inst, m);
    SteadyLater(envs, inst, m);
    hide Settleable, Pending, Steady, SteadyFrom, AlwaysAimed, AgreedAt, StartsTakeable, QuietPass, Later, Passes;
    var first := m + |Pending(st(m), envs(m), inst)| + 1;
    forall n: nat | first <= n ensures QuietPass(st, envs, inst, n) {
      QuietLater(st, envs, inst, m, n);
    }
    assert QuietFrom(st, envs, inst, first);
  }

  lemma QuietLater(st: nat -> Store, envs: nat -> Env, inst: Instance, m: nat, n: nat)
    requires Passes(st, envs, inst) && Settleable(st(m), envs(m), inst) && Steady(Later(envs, m), inst)
    requires n > m + |Pending(st(m), envs(m), inst)|
    ensures QuietPass(st, envs, inst, n)
  {
    hide Settleable, Pending, Steady, SchedulesPlan, Converged, Passes;
    var later, later' := Later(st, m), Later(envs, m);
    assert later(0) == st(m) && later'(0) == envs(m) && later(n - m) == st(n) && later'(n - m) == envs(n);
    PassesLater(st, envs, inst, m);
    Converges(later, later', inst, n - m);
  }

  /** Exactly when passes settle for good, whatever the clock and whatever others do
      in between: if and only if from some pass on all derive the same retentions,
      and the schedules then agree. */
  lemma SettlesForGoodIff(st: nat -> Store, envs: nat -> Env, inst: Instance)
    requires Passes(st, envs, inst) && AlwaysAimed(st(0), envs, inst) && StartsTakeable(st(0), envs, inst)
    ensures SettlesForGood(st, envs, inst) <==>
              exists m: nat :: SteadyFrom(envs, inst, m) && AgreedAt(st(0), envs, inst, m)
  {
    hide QuietFrom, SteadyFrom, AgreedAt, StartsTakeable, AlwaysAimed, Passes;
    if SettlesForGood(st, envs, inst) {
      var m: nat :| QuietFrom(st, envs, inst, m);
      QuietIsSteady(st, envs, inst, m);
    }
    if m: nat :| SteadyFrom(envs, inst, m) && AgreedAt(st(0), envs, inst, m) {
      SteadySettles(st, envs, inst, m);
    }
  }

  // ----- the input that shows it is needed ------------------------------------

  /** A converged store is out of line again as soon as a pass derives another
      retention for a logical schedule: the pass deletes its object and waits. */
  lemma NewRetentionRecreates(t: Store, env: Env, env': Env, inst: Instance, i: nat)
    requires Converged(t, env, inst) && i < |Declared(inst)|
    requires ValidEnv(env') && env'.digest == env.digest && Aimed(t, env', inst, Declared(inst))
    requires Compatible(Goals(t, env', inst, Declared(inst)))
    requires Goals(t, env, inst, Declared(inst))[i].key.kind == Logical
    requires Goals(t, env', inst, Declared(inst))[i].retention != Goals(t, env, inst, Declared(inst))[i].retention
    ensures SchedulesPlan(t, env', inst).outcome == Waiting
  {
    hide AimOf, SchedulesPlan, Compatible, InSync, Takeable, ValidEnv;
    var gs, gs' := Goals(t, env, inst, Declared(inst)), Goals(t, env', inst, Declared(inst));
    SameTargets(t, t, env, env', inst);
    InSyncTakeable(t, gs);
    SameTakeable(t, gs, gs');
    assert InSync(t, gs[i]);
    OtherRetentionOutdated(t, gs[i], gs'[i]);
    OutdatedKeysAre(t, gs', gs'[i].key);
    PassRun(t, env', inst);
  }

  lemma OtherRetentionOutdated(t: Store, g: Goal, g': Goal)
    requires InSync(t, g) && g.key == g'.key && g.key.kind == Logical && g'.retention != g.retention
    ensures OutdatedIn(t, g')
  {
  }

  /** One logical schedule on a weekday cron, keeping a number of copies: aligned to
      the gap of a day sampled before, its object is deleted when the gap sampled is
      the weekend's three days. */
  lemma WeekendGapRecreates(t: Store, env: Env, env': Env, inst: Instance, copies: nat)
    requires |Declared(inst)| == 1 && Declared(inst)[0].schedule.parameters == NoPayload
    requires Declared(inst)[0].schedule.retention == Some(RetentionSpec(Count, "", Some(copies)))
    requires copies >= 1 && 3 * DAY * (copies + 1) < TWO63
    requires ValidEnv(env') && env'.digest == env.digest
    requires env.gap(Declared(inst)[0].schedule.cron) == Some(DAY)
    requires env'.gap(Declared(inst)[0].schedule.cron) == Some(3 * DAY)
    requires Converged(t, env, inst)
    ensures SchedulesPlan(t, env', inst).outcome == Waiting
  {
    hide CountAge, ScheduledName, ResolveS3, AllInSync, ValidEnv, SchedulesPlan;
    CountAgeExactIff(DAY, copies);
    CountAgeExactIff(3 * DAY, copies);
    var e := Declared(inst)[0];
    assert AimOf(t, env, inst, e).AimAt? && AimOf(t, env', inst, e).AimAt?;
    NewRetentionRecreates(t, env, env', inst, 0);
  }
}
