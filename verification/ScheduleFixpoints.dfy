/** Which declarations of schedules settle at all, and what a settled cluster holds
    after any history. */
module ScheduleFixpoints {
  import opened Kube
  import opened Names
  import opened Plans
  import opened Instances
  import opened Schedules
  import opened Convergence
  import opened ScheduledPasses
  import opened ScheduledRuns
  import Runs

  // ----- declarations that settle ---------------------------------------------

  /** Storages and the MariaDB stay through passes and what others do in between. */
  lemma {:induction false} PassesFrame(st: nat -> Store, envs: nat -> Env, inst: Instance, n: nat)
    requires Passes(st, envs, inst) && forall k: nat :: ValidEnv(envs(k))
    ensures st(n).storages == st(0).storages && (inst.name in st(n).mariadbs <==> inst.name in st(0).mariadbs)
    decreases n
  {
    hide SchedulesPlan, Replay;
    if n > 0 {
      PassesFrame(st, envs, inst, n - 1);
      assert PassStep(st, envs, inst, n - 1);
      var t := st(n - 1);
      PassFrame(t, envs(n - 1), inst);
      ThroughoutEnds(x => Framed(t, envs(n - 1), inst, x), t, SchedulesPlan(t, envs(n - 1), inst).writes);
    }
  }

  /** Two goals of one name that are both met agree. */
  lemma BothMetAgree(t: Store, g: Goal, h: Goal)
    requires InSync(t, g) && InSync(t, h) && g.key.name == h.key.name && g.mariadb == h.mariadb
    ensures Agree(g, h)
  {
    assert g.key.kind != h.key.kind ==> h.key == Rival(g.key);
  }

  lemma AllMetCompatible(t: Store, gs: seq<Goal>, instance: string)
    requires AllInSync(t, gs) && forall i | 0 <= i < |gs| :: gs[i].mariadb == instance
    ensures Compatible(gs)
  {
    hide InSync, Agree;
    forall i, j | 0 <= i < j < |gs| && gs[i].key.name == gs[j].key.name ensures Agree(gs[i], gs[j]) {
      assert InSync(t, gs[i]) && InSync(t, gs[j]);
      BothMetAgree(t, gs[i], gs[j]);
    }
  }

  /** A pass that succeeds without writing anything: a fixed point. */
  ghost predicate QuietPass(st: nat -> Store, envs: nat -> Env, inst: Instance, n: nat) {
    SchedulesPlan(st(n), envs(n), inst) == Stop(Done)
  }

  lemma QuietNeedsAgreement(st: nat -> Store, envs: nat -> Env, inst: Instance, n: nat)
    requires Passes(st, envs, inst) && Steady(envs, inst)
    requires Aimed(st(0), envs(0), inst, Declared(inst)) && QuietPass(st, envs, inst, n)
    ensures Compatible(Goals(st(0), envs(0), inst, Declared(inst)))
  {
    hide SchedulesPlan, Passes, Compatible, InSync, AimOf;
    forall k: nat ensures ValidEnv(envs(k)) { assert SteadyWith(envs(0), envs(k), inst); }
    PassesFrame(st, envs, inst, n);
    assert SteadyWith(envs(0), envs(n), inst);
    AimsKept(st(0), st(n), envs(0), inst, Declared(inst));
    SteadyGoals(st(n), envs(0), envs(n), inst);
    QuietIffConverged(st(n), envs(n), inst);
    SameInstance(st(0), envs(0), inst);
    AllMetCompatible(st(n), Goals(st(0), envs(0), inst, Declared(inst)), inst.name);
  }

  lemma AgreementSettles(st: nat -> Store, envs: nat -> Env, inst: Instance)
    requires Passes(st, envs, inst) && Steady(envs, inst) && Settleable(st(0), envs(0), inst)
    ensures QuietPass(st, envs, inst, |Pending(st(0), envs(0), inst)| + 1)
  {
    hide SchedulesPlan, Settleable, Pending, Steady, Converged, Passes;
    Converges(st, envs, inst, |Pending(st(0), envs(0), inst)| + 1);
  }

  /** Exactly when scheduled backups settle: from a store where every schedule can
      be aimed at and its object taken over, passes that derive the same retentions,
      with others acting in between, reach one that succeeds and writes nothing if
      and only if every two schedules that derive one name agree on kind, storage,
      retention, cron, enabled and content, and do not ask for two different
      compressions. */
  lemma SettlesIffAgreed(st: nat -> Store, envs: nat -> Env, inst: Instance)
    requires Passes(st, envs, inst) && Steady(envs, inst) && Aimed(st(0), envs(0), inst, Declared(inst))
    requires AllTakeable(st(0), Goals(st(0), envs(0), inst, Declared(inst)))
    ensures (exists n: nat :: QuietPass(st, envs, inst, n)) <==>
              Compatible(Goals(st(0), envs(0), inst, Declared(inst)))
  {
    hide QuietPass, Compatible, Passes;
    if n: nat :| QuietPass(st, envs, inst, n) {
      QuietNeedsAgreement(st, envs, inst, n);
    }
    if Compatible(Goals(st(0), envs(0), inst, Declared(inst))) {
      assert SteadyWith(envs(0), envs(0), inst);
      AgreementSettles(st, envs, inst);
    }
  }

  /** The same condition, read off the declaration: schedules of one name agree. */
  ghost predicate NamesAgree(s: Store, env: Env, inst: Instance)
    requires Aimed(s, env, inst, Declared(inst))
  {
    var es, gs := Declared(inst), Goals(s, env, inst, Declared(inst));
    forall i, j | 0 <= i < j < |es| && es[i].schedule.name == es[j].schedule.name :: Agree(gs[i], gs[j])
  }

  lemma NamesAgreeIff(s: Store, env: Env, inst: Instance)
    requires Aimed(s, env, inst, Declared(inst))
    requires SchedulesDistinguished(env.digest, inst.name, set e | e in Declared(inst) :: e.schedule.name)
    ensures NamesAgree(s, env, inst) <==> Compatible(Goals(s, env, inst, Declared(inst)))
  {
    hide ParseParameters, Agree, ResolveS3;
    var es, gs := Declared(inst), Goals(s, env, inst, Declared(inst));
    forall i, j | 0 <= i < j < |es|
      ensures gs[i].key.name == gs[j].key.name <==> es[i].schedule.name == es[j].schedule.name
    {
      assert es[i] in es && es[j] in es;
      if es[i].schedule.name != es[j].schedule.name {
        ScheduledNamesDiffer(env.digest, inst.name, es[i].schedule.name, es[j].schedule.name);
      }
    }
  }

  // ----- what is there after any history --------------------------------------

  /** One pass of the Instance under some specification, cut short anywhere, or
      something others do. */
  datatype SpecPass = SpecPass(env: Env, inst: Instance, cut: nat) | Others(store: Store)

  ghost predicate PassesOf(digest: Digest, instance: string, ps: seq<SpecPass>) {
    forall p | p in ps && p.SpecPass? :: ValidEnv(p.env) && p.env.digest == digest && p.inst.name == instance
  }

  function AfterPasses(s: Store, ps: seq<SpecPass>): Store {
    if ps == [] then s
    else
      var t := AfterPasses(s, ps[..|ps| - 1]);
      match ps[|ps| - 1]
      case SpecPass(env, inst, cut) => Replay(t, Runs.Cut(SchedulesPlan(t, env, inst).writes, cut))
      case Others(u) => u
  }

  /** Others never touch this object. */
  ghost predicate LeftToUs(s: Store, ps: seq<SpecPass>, key: Key) {
    forall n | 0 <= n < |ps| && ps[n].Others? :: SameAt(AfterPasses(s, ps[..n]), ps[n].store, key)
  }

  lemma LeftToUsBefore(s: Store, ps: seq<SpecPass>, key: Key)
    requires ps != [] && LeftToUs(s, ps, key)
    ensures LeftToUs(s, ps[..|ps| - 1], key)
    ensures ps[|ps| - 1].Others? ==> SameAt(AfterPasses(s, ps[..|ps| - 1]), AfterPasses(s, ps), key)
  {
    hide SchedulesPlan, Replay, Runs.Cut, SameAt;
    var init := ps[..|ps| - 1];
    assert forall n | 0 <= n < |init| :: init[n] == ps[n] && init[..n] == ps[..n];
  }

  /** Over any history of passes with any specifications, each cut short anywhere,
      whatever was not there before the first was made for a schedule of the
      Instance. */
  lemma {:induction false} HistoryStamps(digest: Digest, instance: string, s: Store, ps: seq<SpecPass>, key: Key)
    requires key !in s.backups && PassesOf(digest, instance, ps) && LeftToUs(s, ps, key)
    ensures StampedAt(digest, instance, key, AfterPasses(s, ps))
    decreases |ps|
  {
    hide SchedulesPlan, Replay, Runs.Cut, Stamp, LeftToUs;
    if ps != [] {
      var init, p := ps[..|ps| - 1], ps[|ps| - 1];
      assert p in ps && forall q | q in init :: q in ps;
      LeftToUsBefore(s, ps, key);
      HistoryStamps(digest, instance, s, init, key);
      if p.SpecPass? {
        var t := AfterPasses(s, init);
        PassStamps(t, p.env, p.inst, key);
        Runs.CutThroughout(y => StampedAt(p.env.digest, p.inst.name, key, y), t,
            SchedulesPlan(t, p.env, p.inst).writes, p.cut);
      }
    }
  }

  lemma {:induction false} StampsStay(st: nat -> Store, envs: nat -> Env, inst: Instance, n: nat)
    requires Passes(st, envs, inst) && Steady(envs, inst) && Stamped(envs(0), inst, st(0))
    ensures Stamped(envs(0), inst, st(n))
    decreases n
  {
    hide SchedulesPlan, Replay, Stamp, Derived;
    if n > 0 {
      StampsStay(st, envs, inst, n - 1);
      var t, env := st(n - 1), envs(n - 1);
      assert SteadyWith(envs(0), env, inst) && PassStep(st, envs, inst, n - 1);
      forall key: Key | Derived(envs(0), inst, key.name) ensures StampedAt(envs(0).digest, inst.name, key, st(n)) {
        SameDerived(envs(0), env, inst, key.name);
        PassStamps(t, env, inst, key);
        ThroughoutEnds(y => StampedAt(env.digest, inst.name, key, y), t, SchedulesPlan(t, env, inst).writes);
      }
    }
  }

  /** Nothing has a name derived from a declared schedule. */
  ghost predicate Untouched(env: Env, inst: Instance, s: Store) {
    forall key: Key | key in s.backups :: !Derived(env, inst, key.name)
  }

  /** After any such history, and then k + 1 passes over one specification with
      distinct schedules, the objects carrying this Instance's schedule labels are
      exactly the declared schedules' objects: as many as there are schedules, each
      in sync, and each made for this Instance and a schedule its name derives from. */
  lemma SettlesOnePerSchedule(s: Store, ps: seq<SpecPass>, st: nat -> Store, envs: nat -> Env, inst: Instance, n: nat)
    requires Untouched(envs(0), inst, s) && PassesOf(envs(0).digest, inst.name, ps) && st(0) == AfterPasses(s, ps)
    requires forall key: Key | Derived(envs(0), inst, key.name) :: LeftToUs(s, ps, key)
    requires Passes(st, envs, inst) && Steady(envs, inst) && Settleable(st(0), envs(0), inst)
    requires Distinct(Goals(st(0), envs(0), inst, Declared(inst)))
    requires n > |Pending(st(0), envs(0), inst)|
    ensures var t, gs := st(n), Goals(st(0), envs(0), inst, Declared(inst));
      && OursKeys(t, inst) == GoalKeys(gs) && |OursKeys(t, inst)| == |Declared(inst)|
      && AllInSync(t, gs)
      && forall key: Key | key in OursKeys(t, inst) ::
            key in t.backups && Stamp(envs(0).digest, inst.name, key, t.backups[key])
  {
    hide AfterPasses, SchedulesPlan, Pending, Stamp, Steady, AimOf, InSync, Passes, Derived, LeftToUs;
    var t, gs := st(n), Goals(st(0), envs(0), inst, Declared(inst));
    forall key: Key | Derived(envs(0), inst, key.name) ensures StampedAt(envs(0).digest, inst.name, key, st(0)) {
      HistoryStamps(envs(0).digest, inst.name, s, ps, key);
    }
    StampsStay(st, envs, inst, n);
    Converges(st, envs, inst, n);
    forall k: nat ensures ValidEnv(envs(k)) { SteadyIsValid(envs, inst, k); }
    PassesFrame(st, envs, inst, n);
    AimsKept(st(0), t, envs(0), inst, Declared(inst));
    OnePerSchedule(t, envs(0), inst);
    GoalKeysAre(gs);
    forall key: Key | key in OursKeys(t, inst) ensures Stamp(envs(0).digest, inst.name, key, t.backups[key]) {
      var i :| 0 <= i < |gs| && gs[i].key == key;
      DerivedGoal(st(0), envs(0), inst, i);
      assert StampedAt(envs(0).digest, inst.name, key, t);
    }
  }

  lemma SteadyIsValid(envs: nat -> Env, inst: Instance, k: nat)
    requires Steady(envs, inst)
    ensures ValidEnv(envs(k))
  {
    assert SteadyWith(envs(0), envs(k), inst);
  }
}
