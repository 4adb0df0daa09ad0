/** Whole passes of the scheduled-backup reconciler, repeated, aborted and framed. */
module ScheduledPasses {
  import opened Kube
  import opened Names
  import opened Plans
  import opened Instances
  import opened ClusterApi
  import opened Retention
  import opened Schedules
  import opened Convergence

  // ----- from entries to goals ------------------------------------------------

  /** Every entry is decodable, its storage resolves, its retention derives, and
      the MariaDB exists. */
  predicate Aimed(s: Store, env: Env, inst: Instance, es: seq<Entry>) {
    forall i | 0 <= i < |es| :: AimOf(s, env, inst, es[i]).AimAt?
  }

  function Goals(s: Store, env: Env, inst: Instance, es: seq<Entry>): (gs: seq<Goal>)
    requires Aimed(s, env, inst, es)
  {
    seq(|es|, i requires 0 <= i < |es| => AimOf(s, env, inst, es[i]).goal)
  }

  /** Aims depend on the storages and on the MariaDB being there, on nothing else. */
  lemma AimKept(s: Store, t: Store, env: Env, inst: Instance, e: Entry)
    requires s.storages == t.storages && (inst.name in s.mariadbs <==> inst.name in t.mariadbs)
    ensures AimOf(s, env, inst, e) == AimOf(t, env, inst, e)
  {
  }

  lemma AimsKept(s: Store, t: Store, env: Env, inst: Instance, es: seq<Entry>)
    requires s.storages == t.storages && (inst.name in s.mariadbs <==> inst.name in t.mariadbs)
    requires Aimed(s, env, inst, es)
    ensures Aimed(t, env, inst, es) && Goals(t, env, inst, es) == Goals(s, env, inst, es)
  {
    forall i | 0 <= i < |es| ensures AimOf(s, env, inst, es[i]) == AimOf(t, env, inst, es[i]) {
      AimKept(s, t, env, inst, es[i]);
    }
  }

  lemma {:induction false} EntriesAreGoals(s: Store, env: Env, inst: Instance, es: seq<Entry>)
    requires Aimed(s, env, inst, es)
    ensures EntriesPlan(s, env, inst, es) == GoalsPlan(s, Goals(s, env, inst, es))
    decreases |es|
  {
    hide AimOf, GoalPlan, Replay;
    if es != [] {
      var init, gs := es[..|es| - 1], Goals(s, env, inst, es);
      assert Goals(s, env, inst, init) == gs[..|gs| - 1];
      EntriesAreGoals(s, env, inst, init);
      GoalsFrame(s, gs[..|gs| - 1]);
      AimKept(s, After(s, GoalsPlan(s, gs[..|gs| - 1])), env, inst, es[|es| - 1]);
    }
  }

  // ----- pruning --------------------------------------------------------------

  function StaleKeys(s: Store, env: Env, inst: Instance, kind: Kind): set<Key> {
    set key | key in Listed(s.backups, kind, inst.name)
      && Stale(s.backups, key, Desired(env, inst, Declared(inst), kind))
  }

  function StaleIn(backups: map<Key, BackupCR>, order: seq<Key>, desired: set<string>): set<Key> {
    set key | key in order && Stale(backups, key, desired)
  }

  lemma StaleInMore(backups: map<Key, BackupCR>, order: seq<Key>, desired: set<string>)
    requires order != []
    ensures var last := order[|order| - 1];
            StaleIn(backups, order, desired) ==
            StaleIn(backups, order[..|order| - 1], desired) + if Stale(backups, last, desired) then {last} else {}
  {
    assert order == order[..|order| - 1] + [order[|order| - 1]];
  }

  lemma {:induction false} StaleRun(s: Store, order: seq<Key>, desired: set<string>)
    ensures Replay(s, StaleWrites(s.backups, order, desired)) ==
        s.(backups := s.backups - StaleIn(s.backups, order, desired))
    decreases |order|
  {
    hide Stale, Replay;
    if order == [] {
      NothingStale(s, desired);
    } else {
      var init, last := order[..|order| - 1], order[|order| - 1];
      StaleRun(s, init, desired);
      StaleInMore(s.backups, order, desired);
      hide StaleIn;
      var ws := StaleWrites(s.backups, init, desired);
      if Stale(s.backups, last, desired) {
        ReplayConcat(s, ws, [DeleteBackup(last)]);
        AfterWrite(Replay(s, ws), DeleteBackup(last), Done);
        LessOne(s.backups, StaleIn(s.backups, init, desired), last);
      } else {
        assert ws + [] == ws;
      }
    }
  }

  lemma NothingStale(s: Store, desired: set<string>)
    ensures Replay(s, []) == s.(backups := s.backups - StaleIn(s.backups, [], desired))
  {
    assert s.backups - StaleIn(s.backups, [], desired) == s.backups;
  }

  lemma LessOne(m: map<Key, BackupCR>, keys: set<Key>, key: Key)
    ensures m - (keys + {key}) == m - keys - {key}
  {
  }

  lemma PruneRun(s: Store, env: Env, inst: Instance, kind: Kind)
    requires ValidEnv(env)
    ensures After(s, PrunePlan(s, env, inst, kind)) == s.(backups := s.backups - StaleKeys(s, env, inst, kind))
  {
    var listed := Listed(s.backups, kind, inst.name);
    var order, desired := env.listing(listed), Desired(env, inst, Declared(inst), kind);
    assert Enumerates(order, listed);
    StaleRun(s, order, desired);
    assert StaleIn(s.backups, order, desired) == StaleKeys(s, env, inst, kind);
  }

  // ----- one pass -------------------------------------------------------------

  /** What convergence asks of the store and the declaration. */
  ghost predicate Settleable(s: Store, env: Env, inst: Instance) {
    && ValidEnv(env)
    && Aimed(s, env, inst, Declared(inst))
    && Compatible(Goals(s, env, inst, Declared(inst)))
    && AllTakeable(s, Goals(s, env, inst, Declared(inst)))
  }

  /** The declared objects that must be recreated. */
  ghost function Pending(s: Store, env: Env, inst: Instance): set<Key>
    requires Settleable(s, env, inst)
  {
    OutdatedKeys(s, Goals(s, env, inst, Declared(inst)))
  }

  /** Carries both this Instance's label and the schedule label. */
  predicate Ours(backups: map<Key, BackupCR>, inst: Instance, key: Key) {
    key in backups && HasLabel(backups[key], InstanceLabel, inst.name) && ScheduleLabel in backups[key].labels
  }

  predicate IsGoalKey(gs: seq<Goal>, key: Key) {
    exists i | 0 <= i < |gs| :: gs[i].key == key
  }

  /** Every declared schedule has its object, of the right kind and with the
      wanted fields, and no other object carries this Instance's schedule labels. */
  ghost predicate Converged(s: Store, env: Env, inst: Instance) {
    && Aimed(s, env, inst, Declared(inst))
    && var gs := Goals(s, env, inst, Declared(inst));
       && AllInSync(s, gs)
       && forall key :: Ours(s.backups, inst, key) ==> IsGoalKey(gs, key)
  }

  lemma DesiredKeys(s: Store, env: Env, inst: Instance, kind: Kind, name: string)
    requires Aimed(s, env, inst, Declared(inst))
    ensures name in Desired(env, inst, Declared(inst), kind) <==>
            IsGoalKey(Goals(s, env, inst, Declared(inst)), Key(kind, name))
  {
    hide ParseParameters, ScheduledName, KindOf, ResolveS3;
    var es, gs := Declared(inst), Goals(s, env, inst, Declared(inst));
    forall i | 0 <= i < |es|
      ensures Wants(es[i], gs[i].key.kind)
              && gs[i].key.name == ScheduledName(env.digest, inst.name, es[i].schedule.name)
      ensures es[i] in es && (Wants(es[i], kind) ==> gs[i].key.kind == kind)
    {
    }
    if name in Desired(env, inst, es, kind) {
      var e :| e in es && Wants(e, kind) && ScheduledName(env.digest, inst.name, e.schedule.name) == name;
      var i :| 0 <= i < |es| && es[i] == e;
      assert gs[i].key == Key(kind, name);
    }
    if IsGoalKey(gs, Key(kind, name)) {
      var i :| 0 <= i < |gs| && gs[i].key == Key(kind, name);
      assert es[i] in es && Wants(es[i], kind);
    }
  }

  /** Pruning both kinds removes exactly the labelled objects no schedule asks for. */
  lemma PruneBoth(s: Store, env: Env, inst: Instance)
    requires ValidEnv(env) && Aimed(s, env, inst, Declared(inst))
    ensures var q := PrunePlan(s, env, inst, Logical);
            var t := After(After(s, q), PrunePlan(After(s, q), env, inst, Physical));
            t == s.(backups := t.backups) &&
            forall key :: if Ours(s.backups, inst, key) && !IsGoalKey(Goals(s, env, inst, Declared(inst)), key)
                          then key !in t.backups else SameAt(s, t, key)
  {
    var q := PrunePlan(s, env, inst, Logical);
    var u := After(s, q);
    PruneRun(s, env, inst, Logical);
    PruneRun(u, env, inst, Physical);
    var t := After(u, PrunePlan(u, env, inst, Physical));
    forall key
      ensures if Ours(s.backups, inst, key) && !IsGoalKey(Goals(s, env, inst, Declared(inst)), key)
              then key !in t.backups else SameAt(s, t, key)
    {
      DesiredKeys(s, env, inst, key.kind, key.name);
      assert key in StaleKeys(s, env, inst, Logical) <==>
             key.kind == Logical && Ours(s.backups, inst, key) && !IsGoalKey(Goals(s, env, inst, Declared(inst)), key);
      assert key in StaleKeys(u, env, inst, Physical) <==>
             key.kind == Physical && Ours(u.backups, inst, key) && !IsGoalKey(Goals(s, env, inst, Declared(inst)), key);
      assert key.kind == Physical ==> SameAt(s, u, key);
    }
  }

  lemma SchedulesAfter(s: Store, env: Env, inst: Instance)
    ensures var p := EntriesPlan(s, env, inst, Declared(inst));
            var q := PrunePlan(After(s, p), env, inst, Logical);
            var u := After(After(s, p), q);
            if p.outcome.Done?
            then SchedulesPlan(s, env, inst).outcome == Done &&
                 After(s, SchedulesPlan(s, env, inst)) == After(u, PrunePlan(u, env, inst, Physical))
            else SchedulesPlan(s, env, inst) == p
  {
    var p := EntriesPlan(s, env, inst, Declared(inst));
    var q := PrunePlan(After(s, p), env, inst, Logical);
    var r := PrunePlan(After(After(s, p), q), env, inst, Physical);
    AfterThen(s, p, Then(q, r));
    AfterThen(After(s, p), q, r);
  }

  /** A pass either brings everything in line, or strictly shrinks the pending
      set by one and waits. */
  lemma PassRun(s: Store, env: Env, inst: Instance)
    requires Settleable(s, env, inst)
    ensures var p, t := SchedulesPlan(s, env, inst), After(s, SchedulesPlan(s, env, inst));
      && t == s.(backups := t.backups)
      && Settleable(t, env, inst)
      && if Pending(s, env, inst) == {} then p.outcome == Done && Converged(t, env, inst)
         else p.outcome == Waiting && exists f | f in Pending(s, env, inst) ::
               Pending(t, env, inst) == Pending(s, env, inst) - {f}
  {
    var es, gs := Declared(inst), Goals(s, env, inst, Declared(inst));
    EntriesAreGoals(s, env, inst, es);
    GoalsRun(s, gs);
    SchedulesAfter(s, env, inst);
    var u := After(s, GoalsPlan(s, gs));
    AimsKept(s, u, env, inst, es);
    if Pending(s, env, inst) == {} {
      PruneBoth(u, env, inst);
      var t := After(s, SchedulesPlan(s, env, inst));
      AimsKept(u, t, env, inst, es);
      PrunedInSync(u, t, inst, gs);
    }
  }

  /** Pruning leaves what is in sync in sync. */
  lemma PrunedInSync(u: Store, t: Store, inst: Instance, gs: seq<Goal>)
    requires AllInSync(u, gs)
    requires forall key ::
            if Ours(u.backups, inst, key) && !IsGoalKey(gs, key) then key !in t.backups else SameAt(u, t, key)
    ensures AllInSync(t, gs) && AllTakeable(t, gs)
    ensures forall key :: Ours(t.backups, inst, key) ==> IsGoalKey(gs, key)
  {
    forall i | 0 <= i < |gs| ensures InSync(t, gs[i]) {
      assert InSync(u, gs[i]);
      assert IsGoalKey(gs, gs[i].key) && SameAt(u, t, gs[i].key);
      assert Rival(gs[i].key) !in t.backups;
    }
    forall key | Ours(t.backups, inst, key) ensures IsGoalKey(gs, key) {
      assert key in u.backups;
    }
  }

  lemma {:induction false} GoalsFixedIff(s: Store, gs: seq<Goal>)
    ensures GoalsPlan(s, gs) == Stop(Done) <==> AllInSync(s, gs)
    decreases |gs|
  {
    hide GoalPlan, InSync, Replay;
    AfterNothing(s);
    if gs != [] {
      var init, last := gs[..|gs| - 1], gs[|gs| - 1];
      GoalsFixedIff(s, init);
      GoalFixedIff(s, last);
      if GoalsPlan(s, gs) == Stop(Done) {
        assert GoalsPlan(s, init) == Stop(Done);
        assert [] + GoalPlan(s, last).writes == GoalPlan(s, last).writes;
        assert forall i | 0 <= i < |gs| :: i < |init| ==> gs[i] == init[i];
      }
      if AllInSync(s, gs) {
        assert forall i | 0 <= i < |init| :: init[i] == gs[i];
        assert InSync(s, gs[|init|]);
      }
    }
  }

  lemma {:induction false} NothingStaleIff(backups: map<Key, BackupCR>, order: seq<Key>, desired: set<string>)
    ensures StaleWrites(backups, order, desired) == [] <==> StaleIn(backups, order, desired) == {}
    decreases |order|
  {
    hide Stale;
    if order != [] {
      NothingStaleIff(backups, order[..|order| - 1], desired);
      StaleInMore(backups, order, desired);
    }
  }

  lemma NothingPrunedIff(s: Store, env: Env, inst: Instance, kind: Kind)
    requires ValidEnv(env)
    ensures PrunePlan(s, env, inst, kind).writes == [] <==> StaleKeys(s, env, inst, kind) == {}
  {
    hide Stale, StaleWrites, Listed, Desired, Declared;
    var listed, desired := Listed(s.backups, kind, inst.name), Desired(env, inst, Declared(inst), kind);
    assert Enumerates(env.listing(listed), listed);
    NothingStaleIff(s.backups, env.listing(listed), desired);
    assert StaleIn(s.backups, env.listing(listed), desired) == StaleKeys(s, env, inst, kind);
  }

  /** What pruning one kind would remove: labelled objects no schedule asks for. */
  lemma StaleKeysAre(s: Store, env: Env, inst: Instance, kind: Kind, key: Key)
    requires Aimed(s, env, inst, Declared(inst))
    ensures key in StaleKeys(s, env, inst, kind) <==>
              key.kind == kind && Ours(s.backups, inst, key) && !IsGoalKey(Goals(s, env, inst, Declared(inst)), key)
  {
    hide Aimed, Goals, IsGoalKey, Desired, HasLabel;
    DesiredKeys(s, env, inst, key.kind, key.name);
    assert key == Key(key.kind, key.name);
  }

  /** A pass succeeds without writing anything exactly when all is as declared. */
  lemma QuietIffConverged(s: Store, env: Env, inst: Instance)
    requires ValidEnv(env) && Aimed(s, env, inst, Declared(inst))
    ensures SchedulesPlan(s, env, inst) == Stop(Done) <==> Converged(s, env, inst)
  {
    hide Aimed, Goals, GoalsPlan, EntriesPlan, PrunePlan, StaleKeys, AllInSync, IsGoalKey, Ours, Replay;
    var gs := Goals(s, env, inst, Declared(inst));
    EntriesAreGoals(s, env, inst, Declared(inst));
    GoalsFixedIff(s, gs);
    AfterNothing(s);
    NothingPrunedIff(s, env, inst, Logical);
    NothingPrunedIff(s, env, inst, Physical);
    PruneSucceeds(s, env, inst);
    if Converged(s, env, inst) {
      if key :| key in StaleKeys(s, env, inst, Logical) { StaleKeysAre(s, env, inst, Logical, key); }
      if key :| key in StaleKeys(s, env, inst, Physical) { StaleKeysAre(s, env, inst, Physical, key); }
    }
    if SchedulesPlan(s, env, inst) == Stop(Done) {
      forall key | Ours(s.backups, inst, key) ensures IsGoalKey(gs, key) {
        StaleKeysAre(s, env, inst, key.kind, key);
        assert key.kind == Logical || key.kind == Physical;
      }
    }
  }

  lemma PruneSucceeds(s: Store, env: Env, inst: Instance)
    ensures forall kind :: PrunePlan(s, env, inst, kind).outcome == Done
  {
  }

  /** Once converged, another pass changes nothing. */
  lemma PassFixed(s: Store, env: Env, inst: Instance)
    requires ValidEnv(env) && Converged(s, env, inst)
    ensures SchedulesPlan(s, env, inst) == Stop(Done)
    ensures After(s, SchedulesPlan(s, env, inst)) == s
  {
    hide Aimed, SchedulesPlan;
    QuietIffConverged(s, env, inst);
    AfterNothing(s);
  }

  // ----- repeated passes ------------------------------------------------------

  /** Two passes may list objects in different orders and sample the cron cadence
      at different times, but derive the same retentions. */
  ghost predicate SteadyWith(env: Env, env': Env, inst: Instance) {
    && ValidEnv(env) && ValidEnv(env') && env.digest == env'.digest
    && forall e | e in Declared(inst) ::
         DeriveMaxRetention(env.gap, e.schedule.cron, e.schedule.retention) ==
         DeriveMaxRetention(env'.gap, e.schedule.cron, e.schedule.retention)
  }

  ghost predicate Steady(envs: nat -> Env, inst: Instance) {
    forall n: nat :: SteadyWith(envs(0), envs(n), inst)
  }

  lemma SteadyGoals(s: Store, env: Env, env': Env, inst: Instance)
    requires SteadyWith(env, env', inst)
    requires Aimed(s, env, inst, Declared(inst)) || Aimed(s, env', inst, Declared(inst))
    ensures Aimed(s, env, inst, Declared(inst)) && Aimed(s, env', inst, Declared(inst))
    ensures Goals(s, env, inst, Declared(inst)) == Goals(s, env', inst, Declared(inst))
  {
    var es := Declared(inst);
    forall i | 0 <= i < |es| ensures AimOf(s, env, inst, es[i]) == AimOf(s, env', inst, es[i]) {
      assert es[i] in es;
    }
  }

  /** A name derived from one of the declared schedules. */
  predicate Derived(env: Env, inst: Instance, name: string) {
    exists e | e in Declared(inst) :: ScheduledName(env.digest, inst.name, e.schedule.name) == name
  }

  lemma DerivedGoal(s: Store, env: Env, inst: Instance, i: nat)
    requires Aimed(s, env, inst, Declared(inst)) && i < |Declared(inst)|
    ensures Derived(env, inst, Goals(s, env, inst, Declared(inst))[i].key.name)
  {
    assert Declared(inst)[i] in Declared(inst);
  }

  lemma SameDerived(env: Env, env': Env, inst: Instance, name: string)
    requires env.digest == env'.digest
    ensures Derived(env, inst, name) <==> Derived(env', inst, name)
  {
  }

  /** What others may do between two passes: anything but change the storages,
      create or delete the MariaDB, touch a declared schedule's object, or label
      another object as one. */
  ghost predicate LeavesSchedules(env: Env, inst: Instance, s: Store, t: Store) {
    && s.storages == t.storages && (inst.name in s.mariadbs <==> inst.name in t.mariadbs)
    && (forall key: Key | Derived(env, inst, key.name) :: SameAt(s, t, key))
    && (forall key: Key | Ours(t.backups, inst, key) :: Ours(s.backups, inst, key))
  }

  lemma {:induction false} SameGoals(s: Store, t: Store, gs: seq<Goal>)
    requires forall i | 0 <= i < |gs| :: SameAt(s, t, gs[i].key) && SameAt(s, t, Rival(gs[i].key))
    ensures AllTakeable(s, gs) ==> AllTakeable(t, gs)
    ensures OutdatedKeys(s, gs) == OutdatedKeys(t, gs)
    ensures AllInSync(s, gs) ==> AllInSync(t, gs)
  {
    hide InSync, OutdatedIn, Takeable;
    forall i | 0 <= i < |gs|
      ensures Takeable(s, gs[i]) ==> Takeable(t, gs[i])
      ensures OutdatedIn(s, gs[i]) <==> OutdatedIn(t, gs[i])
      ensures InSync(s, gs[i]) ==> InSync(t, gs[i])
    {
      SameGoal(s, t, gs[i]);
    }
    forall key ensures key in OutdatedKeys(s, gs) <==> key in OutdatedKeys(t, gs) {
      OutdatedKeysAre(s, gs, key);
      OutdatedKeysAre(t, gs, key);
    }
  }

  lemma SameGoal(s: Store, t: Store, g: Goal)
    requires SameAt(s, t, g.key) && SameAt(s, t, Rival(g.key))
    ensures Takeable(s, g) ==> Takeable(t, g)
    ensures OutdatedIn(s, g) <==> OutdatedIn(t, g)
    ensures InSync(s, g) ==> InSync(t, g)
  {
  }

  lemma GoalsLeft(s: Store, t: Store, env: Env, inst: Instance)
    requires Aimed(s, env, inst, Declared(inst))
    requires forall key: Key | Derived(env, inst, key.name) :: SameAt(s, t, key)
    ensures var gs := Goals(s, env, inst, Declared(inst));
      forall i | 0 <= i < |gs| :: SameAt(s, t, gs[i].key) && SameAt(s, t, Rival(gs[i].key))
  {
    hide AimOf, SameAt, Derived;
    var gs := Goals(s, env, inst, Declared(inst));
    forall i | 0 <= i < |gs| ensures SameAt(s, t, gs[i].key) && SameAt(s, t, Rival(gs[i].key)) {
      DerivedGoal(s, env, inst, i);
    }
  }

  /** None of that matters to the passes. */
  lemma SchedulesLeft(s: Store, t: Store, env: Env, inst: Instance)
    requires LeavesSchedules(env, inst, s, t)
    ensures Aimed(s, env, inst, Declared(inst)) ==>
              && Aimed(t, env, inst, Declared(inst))
              && Goals(t, env, inst, Declared(inst)) == Goals(s, env, inst, Declared(inst))
    ensures Settleable(s, env, inst) ==> Settleable(t, env, inst) && Pending(t, env, inst) == Pending(s, env, inst)
    ensures Converged(s, env, inst) ==> Converged(t, env, inst)
  {
    hide AllInSync, AllTakeable, OutdatedKeys, AimOf, Ours, Compatible, SameAt, Derived, IsGoalKey;
    if Aimed(s, env, inst, Declared(inst)) {
      AimsKept(s, t, env, inst, Declared(inst));
      GoalsLeft(s, t, env, inst);
      SameGoals(s, t, Goals(s, env, inst, Declared(inst)));
    }
  }

  /** Each store is what a pass makes of the one before, and others then leave. */
  ghost predicate Passes(st: nat -> Store, envs: nat -> Env, inst: Instance) {
    forall n: nat :: PassStep(st, envs, inst, n)
  }

  ghost predicate PassStep(st: nat -> Store, envs: nat -> Env, inst: Instance, n: nat) {
    LeavesSchedules(envs(n), inst, After(st(n), SchedulesPlan(st(n), envs(n), inst)), st(n + 1))
  }

  /** PassRun and PassFixed for the n-th pass, in the terms of the first. */
  lemma NthPass(st: nat -> Store, envs: nat -> Env, inst: Instance, n: nat)
    requires Passes(st, envs, inst) && Steady(envs, inst) && Settleable(st(n), envs(0), inst)
    ensures var p := SchedulesPlan(st(n), envs(n), inst);
      && Settleable(st(n + 1), envs(0), inst)
      && if Pending(st(n), envs(0), inst) == {} then p.outcome == Done && Converged(st(n + 1), envs(0), inst)
         else p.outcome == Waiting && |Pending(st(n + 1), envs(0), inst)| == |Pending(st(n), envs(0), inst)| - 1
  {
    hide SchedulesPlan, LeavesSchedules, Replay, Compatible, AllTakeable, AimOf, AllInSync, OutdatedKeys;
    assert PassStep(st, envs, inst, n) && SteadyWith(envs(0), envs(n), inst);
    SteadyGoals(st(n), envs(0), envs(n), inst);
    PassRun(st(n), envs(n), inst);
    var u := After(st(n), SchedulesPlan(st(n), envs(n), inst));
    SchedulesLeft(u, st(n + 1), envs(n), inst);
    SteadyGoals(st(n + 1), envs(0), envs(n), inst);
  }

  lemma NthPassFixed(st: nat -> Store, envs: nat -> Env, inst: Instance, n: nat)
    requires Passes(st, envs, inst) && Steady(envs, inst) && Converged(st(n), envs(0), inst)
    ensures SchedulesPlan(st(n), envs(n), inst) == Stop(Done)
    ensures LeavesSchedules(envs(0), inst, st(n), st(n + 1)) && Converged(st(n + 1), envs(0), inst)
  {
    hide SchedulesPlan, Replay, AllInSync, AimOf, SameAt, Ours;
    assert PassStep(st, envs, inst, n) && SteadyWith(envs(0), envs(n), inst);
    SteadyGoals(st(n), envs(0), envs(n), inst);
    PassFixed(st(n), envs(n), inst);
    SchedulesLeft(st(n), st(n + 1), envs(0), inst);
  }

  lemma {:induction false} PassesSoFar(st: nat -> Store, envs: nat -> Env, inst: Instance, n: nat)
    requires Passes(st, envs, inst) && Steady(envs, inst) && Settleable(st(0), envs(0), inst)
    requires n <= |Pending(st(0), envs(0), inst)|
    ensures Settleable(st(n), envs(0), inst)
    ensures |Pending(st(n), envs(0), inst)| == |Pending(st(0), envs(0), inst)| - n
    decreases n
  {
    hide SchedulesPlan, Settleable, Pending, Steady, Passes;
    if n > 0 {
      PassesSoFar(st, envs, inst, n - 1);
      NthPass(st, envs, inst, n - 1);
    }
  }

  /** Convergence: with k objects to recreate, the first k passes wait, pass k+1
      is the first to succeed, what it leaves is what was declared, every later
      pass succeeds without writing anything, and from then on the declared
      objects never change. Others may act between any two passes. */
  lemma Converges(st: nat -> Store, envs: nat -> Env, inst: Instance, n: nat)
    requires Passes(st, envs, inst) && Steady(envs, inst) && Settleable(st(0), envs(0), inst)
    ensures var k, p := |Pending(st(0), envs(0), inst)|, SchedulesPlan(st(n), envs(n), inst);
      && (n < k ==> p.outcome == Waiting)
      && (n >= k ==> p.outcome == Done)
      && (n > k ==> p == Stop(Done))
      && (n > k ==> Converged(st(n), envs(0), inst) && LeavesSchedules(envs(0), inst, st(k + 1), st(n)))
  {
    hide SchedulesPlan, Settleable, Pending, Steady, Converged, LeavesSchedules, Passes;
    if n <= |Pending(st(0), envs(0), inst)| {
      PassesSoFar(st, envs, inst, n);
      NthPass(st, envs, inst, n);
    } else {
      ConvergedAfter(st, envs, inst, n);
      NthPassFixed(st, envs, inst, n);
    }
  }

  lemma {:induction false} ConvergedAfter(st: nat -> Store, envs: nat -> Env, inst: Instance, n: nat)
    requires Passes(st, envs, inst) && Steady(envs, inst) && Settleable(st(0), envs(0), inst)
    requires n > |Pending(st(0), envs(0), inst)|
    ensures Converged(st(n), envs(0), inst)
    ensures LeavesSchedules(envs(0), inst, st(|Pending(st(0), envs(0), inst)| + 1), st(n))
    decreases n
  {
    hide SchedulesPlan, Settleable, Pending, Steady, Converged, LeavesSchedules, Passes;
    if n == |Pending(st(0), envs(0), inst)| + 1 {
      PassesSoFar(st, envs, inst, n - 1);
      NthPass(st, envs, inst, n - 1);
      LeftAlone(envs(0), inst, st(n));
    } else {
      ConvergedAfter(st, envs, inst, n - 1);
      NthPassFixed(st, envs, inst, n - 1);
      LeftTwice(envs(0), inst, st(|Pending(st(0), envs(0), inst)| + 1), st(n - 1), st(n));
    }
  }

  /** Others may do nothing. */
  lemma LeftAlone(env: Env, inst: Instance, s: Store)
    ensures LeavesSchedules(env, inst, s, s)
  {
  }

  /** It does not depend on the clock. */
  lemma LeavesUnder(env: Env, env': Env, inst: Instance, t: Store, u: Store)
    requires LeavesSchedules(env, inst, t, u) && env.digest == env'.digest
    ensures LeavesSchedules(env', inst, t, u)
  {
    hide Ours, SameAt;
    forall key: Key | Derived(env', inst, key.name) ensures SameAt(t, u, key) {
      SameDerived(env, env', inst, key.name);
    }
  }

  lemma LeftTwice(env: Env, inst: Instance, s: Store, t: Store, u: Store)
    requires LeavesSchedules(env, inst, s, t) && LeavesSchedules(env, inst, t, u)
    ensures LeavesSchedules(env, inst, s, u)
  {
    hide Derived;
    forall key: Key | Derived(env, inst, key.name) ensures SameAt(s, u, key) {
      assert SameAt(s, t, key) && SameAt(t, u, key);
    }
  }
}
