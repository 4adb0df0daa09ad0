/** Where the sampled gap comes from: the firings of a cron expression, and the
    instant of the pass. Which declarations settle is then read off the crons
    (internal/provider/backup_schedule.go). */
module CronClock {
  import opened Kube
  import opened Instances
  import opened Retention
  import opened Schedules
  import opened Convergence
  import opened ScheduledPasses
  import opened EventualSettling

  // ----- sampling -------------------------------------------------------------

  /** What a cron expression means: it does not parse, never fires, or fires. */
  datatype Cron = Invalid | Silent | Firing(firings: Firings)

  type Calendar = string -> Cron

  /** The next firing after an instant, searching from the k-th. */
  function NextFrom(f: Firings, now: int, k: nat): (next: nat)
    ensures next >= k && now < f(next) && (next > k ==> f(next - 1) <= now)
    decreases if now < f(k) then 0 else now - f(k) + 1
  {
    if now < f(k) then k
    else
      assert f(k) < f(k + 1);
      NextFrom(f, now, k + 1)
  }

  function Gap(f: Firings, k: nat): (gap: int)
    ensures gap > 0
  {
    assert f(k) < f(k + 1);
    f(k + 1) - f(k)
  }

  /** What countRetention samples at an instant: the gap after the next firing. */
  function SampledGap(f: Firings, now: int): int {
    Gap(f, NextFrom(f, now, 0))
  }

  /** The n-th pass happens at instant at(n), and samples every cron there. */
  ghost predicate Timed(cal: Calendar, envs: nat -> Env, at: nat -> int) {
    forall n: nat, cron: string :: SampledAt(cal, envs, at, n, cron)
  }

  ghost predicate SampledAt(cal: Calendar, envs: nat -> Env, at: nat -> int, n: nat, cron: string) {
    envs(n).gap(cron) == match cal(cron)
                         case Invalid => None
                         case Silent => Some(0)
                         case Firing(f) => Some(SampledGap(f, at(n)))
  }

  /** Time does not go back. */
  ghost predicate Forward(at: nat -> int) {
    forall i: nat, j: nat | i <= j :: at(i) <= at(j)
  }

  /** Every firing is the next one during some pass, as when passes are made more
      often than the cron fires. */
  ghost predicate Visits(f: Firings, at: nat -> int) {
    forall k: nat :: Visited(f, at, k)
  }

  ghost predicate Visited(f: Firings, at: nat -> int, k: nat) {
    exists n: nat :: NextIs(f, at, n, k)
  }

  ghost predicate NextIs(f: Firings, at: nat -> int, n: nat, k: nat) {
    NextFrom(f, at(n), 0) == k
  }

  lemma NextForward(f: Firings, now: int, later: int)
    requires now <= later
    ensures NextFrom(f, now, 0) <= NextFrom(f, later, 0)
  {
    var a, b := NextFrom(f, now, 0), NextFrom(f, later, 0);
    if b < a {
      FiringsOrdered(f, b, a - 1);
    }
  }

  // ----- the ages of one schedule ---------------------------------------------

  /** Kept by a positive number of copies. */
  predicate Counted(e: Entry) {
    && e.schedule.retention.Some?
    && (e.schedule.retention.value.kind.Count? || e.schedule.retention.value.kind.Unset?)
    && e.schedule.retention.value.count.Some? && e.schedule.retention.value.count.value > 0
  }

  function Copies(e: Entry): int
    requires Counted(e)
  {
    e.schedule.retention.value.count.value
  }

  /** Of the other schedules, the retention does not depend on the clock. */
  lemma UncountedSteady(gap: string -> Option<int>, gap': string -> Option<int>, e: Entry)
    requires !Counted(e)
    ensures DeriveMaxRetention(gap, e.schedule.cron, e.schedule.retention) ==
        DeriveMaxRetention(gap', e.schedule.cron, e.schedule.retention)
  {
  }

  lemma CountedAge(cal: Calendar, envs: nat -> Env, at: nat -> int, n: nat, e: Entry)
    requires Timed(cal, envs, at) && Counted(e)
    ensures DeriveMaxRetention(envs(n).gap, e.schedule.cron, e.schedule.retention) ==
            match cal(e.schedule.cron)
            case Invalid => None
            case Silent => Some(CountAge(DAY, Copies(e)))
            case Firing(f) => Some(CountAge(SampledGap(f, at(n)), Copies(e)))
  {
    hide CountAge;
    assert SampledAt(cal, envs, at, n, e.schedule.cron);
  }

  /** From some firing on, every gap gives the same age. */
  ghost predicate AgesSettle(f: Firings, copies: int) {
    exists m: nat :: AgesFrom(f, copies, m)
  }

  ghost predicate AgesFrom(f: Firings, copies: int, m: nat) {
    forall k: nat | m <= k :: CountAge(Gap(f, k), copies) == CountAge(Gap(f, m), copies)
  }

  /** Every gap gives the same age. */
  ghost predicate AgesEven(f: Firings, copies: int) {
    forall k: nat :: CountAge(Gap(f, k), copies) == CountAge(Gap(f, 0), copies)
  }

  ghost predicate GapsEven(f: Firings) {
    forall k: nat :: Gap(f, k) == Gap(f, 0)
  }

  ghost predicate Fits(f: Firings, copies: int) {
    forall k: nat :: Gap(f, k) * (copies + 1) < TWO63
  }

  /** Unless an age wraps around, equal ages are equal gaps. */
  lemma AgesEvenIff(f: Firings, copies: int)
    requires copies > 0 && Fits(f, copies)
    ensures AgesEven(f, copies) <==> GapsEven(f)
  {
    hide CountAge;
    forall k: nat ensures CountAge(Gap(f, k), copies) == CountAge(Gap(f, 0), copies) <==> Gap(f, k) == Gap(f, 0) {
      SameAgeSameGap(f, copies, k);
    }
  }

  lemma SameAgeSameGap(f: Firings, copies: int, k: nat)
    requires copies > 0 && Fits(f, copies)
    ensures CountAge(Gap(f, k), copies) == CountAge(Gap(f, 0), copies) <==> Gap(f, k) == Gap(f, 0)
  {
    hide CountAge;
    var g, h := Gap(f, k), Gap(f, 0);
    assert g * (copies + 1) < TWO63 && h * (copies + 1) < TWO63;
    CountAgeExactIff(g, copies);
    CountAgeExactIff(h, copies);
    if g < h { MulMonotone(copies + 1, g + 1, h); }
    if h < g { MulMonotone(copies + 1, h + 1, g); }
  }

  /** The gaps repeat after p firings, as those of a cron do. */
  ghost predicate Periodic(f: Firings, p: nat) {
    p > 0 && forall k: nat :: Gap(f, k + p) == Gap(f, k)
  }

  lemma {:induction false} PeriodsOn(f: Firings, p: nat, k: nat, times: nat) returns (j: nat)
    requires Periodic(f, p)
    ensures j >= times && Gap(f, j) == Gap(f, k)
    decreases times
  {
    if times == 0 {
      j := k;
    } else {
      j := PeriodsOn(f, p, k, times - 1);
      assert Gap(f, j + p) == Gap(f, j);
      j := j + p;
    }
  }

  /** Gaps that repeat settle on one age only if there is just one. */
  lemma PeriodicAges(f: Firings, p: nat, copies: int)
    requires Periodic(f, p)
    ensures AgesSettle(f, copies) <==> AgesEven(f, copies)
  {
    hide CountAge, Gap;
    if AgesEven(f, copies) {
      assert AgesFrom(f, copies, 0);
    }
    if m: nat :| AgesFrom(f, copies, m) {
      forall k: nat ensures CountAge(Gap(f, k), copies) == CountAge(Gap(f, 0), copies) {
        var j := PeriodsOn(f, p, k, m);
        var i := PeriodsOn(f, p, 0, m);
      }
    }
  }

  // ----- steady retentions, schedule by schedule ------------------------------

  predicate SameRetention(env: Env, env': Env, e: Entry) {
    DeriveMaxRetention(env.gap, e.schedule.cron, e.schedule.retention) ==
    DeriveMaxRetention(env'.gap, e.schedule.cron, e.schedule.retention)
  }

  ghost predicate EntrySteadyFrom(envs: nat -> Env, e: Entry, m: nat) {
    forall n: nat | m <= n :: SameRetention(envs(m), envs(n), e)
  }

  ghost predicate EntrySettles(cal: Calendar, e: Entry) {
    Counted(e) && cal(e.schedule.cron).Firing? ==> AgesSettle(cal(e.schedule.cron).firings, Copies(e))
  }

  /** No positive count, or a cron all of whose gaps give the same age. */
  ghost predicate EntryEven(cal: Calendar, e: Entry) {
    Counted(e) && cal(e.schedule.cron).Firing? ==> AgesEven(cal(e.schedule.cron).firings, Copies(e))
  }

  ghost predicate CronVisited(cal: Calendar, at: nat -> int, e: Entry) {
    Counted(e) && cal(e.schedule.cron).Firing? ==> Visits(cal(e.schedule.cron).firings, at)
  }

  ghost predicate CronPeriodic(cal: Calendar, e: Entry) {
    Counted(e) && cal(e.schedule.cron).Firing? ==> exists p: nat :: Periodic(cal(e.schedule.cron).firings, p)
  }

  /** Even ages make every pass derive the same, at whatever instants. */
  lemma EvenIsSteady(cal: Calendar, envs: nat -> Env, at: nat -> int, e: Entry)
    requires Timed(cal, envs, at) && EntryEven(cal, e)
    ensures EntrySteadyFrom(envs, e, 0)
  {
    hide DeriveMaxRetention, CountAge, Gap, NextFrom;
    forall n: nat ensures SameRetention(envs(0), envs(n), e) {
      if Counted(e) {
        CountedAge(cal, envs, at, 0, e);
        CountedAge(cal, envs, at, n, e);
      } else {
        UncountedSteady(envs(0).gap, envs(n).gap, e);
      }
    }
  }

  lemma SettledIsSteady(cal: Calendar, envs: nat -> Env, at: nat -> int, e: Entry) returns (m: nat)
    requires Timed(cal, envs, at) && Forward(at) && EntrySettles(cal, e) && CronVisited(cal, at, e)
    ensures EntrySteadyFrom(envs, e, m)
  {
    hide DeriveMaxRetention, CountAge, Gap, NextFrom, Counted;
    m := 0;
    if Counted(e) && cal(e.schedule.cron).Firing? {
      var f := cal(e.schedule.cron).firings;
      var k: nat :| AgesFrom(f, Copies(e), k);
      assert Visited(f, at, k);
      m :| NextIs(f, at, m, k);
      forall n: nat | m <= n ensures SameRetention(envs(m), envs(n), e) {
        NextForward(f, at(m), at(n));
        CountedAge(cal, envs, at, m, e);
        CountedAge(cal, envs, at, n, e);
      }
    } else {
      forall n: nat ensures SameRetention(envs(0), envs(n), e) {
        if Counted(e) {
          CountedAge(cal, envs, at, 0, e);
          CountedAge(cal, envs, at, n, e);
        } else {
          UncountedSteady(envs(0).gap, envs(n).gap, e);
        }
      }
    }
  }

  lemma SteadyIsSettled(cal: Calendar, envs: nat -> Env, at: nat -> int, e: Entry, m: nat)
    requires Timed(cal, envs, at) && Forward(at) && CronVisited(cal, at, e) && EntrySteadyFrom(envs, e, m)
    ensures EntrySettles(cal, e)
  {
    hide DeriveMaxRetention, CountAge, Gap, NextFrom, Counted;
    if Counted(e) && cal(e.schedule.cron).Firing? {
      var f := cal(e.schedule.cron).firings;
      var first := NextFrom(f, at(m), 0);
      CountedAge(cal, envs, at, m, e);
      forall k: nat | first <= k ensures CountAge(Gap(f, k), Copies(e)) == CountAge(Gap(f, first), Copies(e)) {
        if first < k {
          assert Visited(f, at, k);
          var n: nat :| NextIs(f, at, n, k);
          if n < m { NextForward(f, at(n), at(m)); }
          assert SameRetention(envs(m), envs(n), e);
          CountedAge(cal, envs, at, n, e);
        }
      }
      assert AgesFrom(f, Copies(e), first);
    }
  }

  // ----- all schedules together -----------------------------------------------

  lemma LaterSteady(envs: nat -> Env, e: Entry, m: nat, n: nat)
    requires EntrySteadyFrom(envs, e, m) && m <= n
    ensures EntrySteadyFrom(envs, e, n)
  {
    hide DeriveMaxRetention;
    forall k: nat | n <= k ensures SameRetention(envs(n), envs(k), e) {
      assert SameRetention(envs(m), envs(n), e) && SameRetention(envs(m), envs(k), e);
    }
  }

  ghost predicate AllSettle(cal: Calendar, es: seq<Entry>) {
    forall e | e in es :: EntrySettles(cal, e)
  }

  ghost predicate AllVisited(cal: Calendar, at: nat -> int, es: seq<Entry>) {
    forall e | e in es :: CronVisited(cal, at, e)
  }

  lemma {:induction false} AllSteadyTogether(cal: Calendar, envs: nat -> Env, at: nat -> int, es: seq<Entry>)
    returns (m: nat)
    requires Timed(cal, envs, at) && Forward(at) && AllSettle(cal, es) && AllVisited(cal, at, es)
    ensures forall e | e in es :: EntrySteadyFrom(envs, e, m)
    decreases |es|
  {
    hide Timed, Forward, EntrySettles, CronVisited, EntrySteadyFrom;
    m := 0;
    if es != [] {
      var init, last := es[..|es| - 1], es[|es| - 1];
      assert last in es && forall e | e in init :: e in es;
      var a := AllSteadyTogether(cal, envs, at, init);
      var b := SettledIsSteady(cal, envs, at, last);
      m := if a < b then b else a;
      forall e | e in es ensures EntrySteadyFrom(envs, e, m) {
        LaterSteady(envs, e, if e in init then a else b, m);
      }
    }
  }

  ghost predicate OneDigest(envs: nat -> Env) {
    forall n: nat :: ValidEnv(envs(n)) && envs(n).digest == envs(0).digest
  }

  lemma SteadyFromEntries(envs: nat -> Env, inst: Instance, m: nat)
    requires OneDigest(envs)
    ensures SteadyFrom(envs, inst, m) <==> forall e | e in Declared(inst) :: EntrySteadyFrom(envs, e, m)
  {
    hide DeriveMaxRetention, ValidEnv, Declared;
    if SteadyFrom(envs, inst, m) {
      forall e, n: nat | e in Declared(inst) && m <= n ensures SameRetention(envs(m), envs(n), e) {
        assert SteadyWith(envs(m), envs(n), inst);
      }
    }
    if forall e | e in Declared(inst) :: EntrySteadyFrom(envs, e, m) {
      forall n: nat | m <= n ensures SteadyWith(envs(m), envs(n), inst) {
        forall e | e in Declared(inst) ensures SameRetention(envs(m), envs(n), e) {
          assert EntrySteadyFrom(envs, e, m);
        }
      }
    }
  }

  /** Under a clock that moves forward past every firing, the retentions become
      steady if and only if, of every schedule with a count, the gaps settle on one
      age. */
  lemma ClockSteadyIff(cal: Calendar, envs: nat -> Env, at: nat -> int, inst: Instance)
    requires OneDigest(envs) && Timed(cal, envs, at) && Forward(at) && AllVisited(cal, at, Declared(inst))
    ensures (exists m: nat :: SteadyFrom(envs, inst, m)) <==> AllSettle(cal, Declared(inst))
  {
    hide OneDigest, Timed, Forward, SteadyFrom, EntrySettles, CronVisited, EntrySteadyFrom, Declared;
    if m: nat :| SteadyFrom(envs, inst, m) {
      SteadyFromEntries(envs, inst, m);
      forall e | e in Declared(inst) ensures EntrySettles(cal, e) {
        SteadyIsSettled(cal, envs, at, e, m);
      }
    }
    if AllSettle(cal, Declared(inst)) {
      var m := AllSteadyTogether(cal, envs, at, Declared(inst));
      SteadyFromEntries(envs, inst, m);
    }
  }

  /** Whatever the instants, a declaration in which no schedule has a positive count
      on a cron of uneven ages makes every pass derive the same retentions. */
  lemma EvenWhateverTheClock(cal: Calendar, envs: nat -> Env, at: nat -> int, inst: Instance)
    requires OneDigest(envs) && Timed(cal, envs, at)
    requires forall e | e in Declared(inst) :: EntryEven(cal, e)
    ensures Steady(envs, inst)
  {
    hide Timed, EntryEven, EntrySteadyFrom, Declared, SteadyWith;
    forall e | e in Declared(inst) ensures EntrySteadyFrom(envs, e, 0) {
      EvenIsSteady(cal, envs, at, e);
    }
    SteadyFromEntries(envs, inst, 0);
  }

  /** Exactly which declarations settle for good, read off their crons: under a clock
      that moves forward past every firing, with crons whose gaps repeat, passes
      settle if and only if every schedule with a count has a cron all of whose gaps
      give the same age, and schedules of one name agree. */
  lemma SettlesIffEven(st: nat -> Store, cal: Calendar, envs: nat -> Env, at: nat -> int, inst: Instance)
    requires Passes(st, envs, inst) && AlwaysAimed(st(0), envs, inst) && StartsTakeable(st(0), envs, inst)
    requires Timed(cal, envs, at) && Forward(at) && AllVisited(cal, at, Declared(inst))
    requires forall e | e in Declared(inst) :: CronPeriodic(cal, e)
    ensures SettlesForGood(st, envs, inst) <==>
              (forall e | e in Declared(inst) :: EntryEven(cal, e)) && AgreedAt(st(0), envs, inst, 0)
  {
    hide Timed, Forward, AllVisited, SettlesForGood, StartsTakeable, Declared, SteadyWith, AgreedAt, AlwaysAimed,
        Passes;
    AimedEnvs(st(0), envs, inst);
    SettlesForGoodIff(st, envs, inst);
    if SettlesForGood(st, envs, inst) {
      var m: nat :| SteadyFrom(envs, inst, m) && AgreedAt(st(0), envs, inst, m);
      ClockSteadyIff(cal, envs, at, inst);
      AllEven(cal, Declared(inst));
      EvenWhateverTheClock(cal, envs, at, inst);
      SameAgreement(st(0), envs, inst, m);
    }
    if (forall e | e in Declared(inst) :: EntryEven(cal, e)) && AgreedAt(st(0), envs, inst, 0) {
      EvenWhateverTheClock(cal, envs, at, inst);
      assert SteadyFrom(envs, inst, 0);
    }
  }

  lemma AllEven(cal: Calendar, es: seq<Entry>)
    requires AllSettle(cal, es) && forall e | e in es :: CronPeriodic(cal, e)
    ensures forall e | e in es :: EntryEven(cal, e)
  {
    hide AgesSettle, AgesEven, Periodic, Counted;
    forall e | e in es ensures EntryEven(cal, e) {
      assert EntrySettles(cal, e) && CronPeriodic(cal, e);
      if Counted(e) && cal(e.schedule.cron).Firing? {
        var p: nat :| Periodic(cal(e.schedule.cron).firings, p);
        PeriodicAges(cal(e.schedule.cron).firings, p, Copies(e));
      }
    }
  }

  lemma SameAgreement(s: Store, envs: nat -> Env, inst: Instance, m: nat)
    requires AlwaysAimed(s, envs, inst) && Steady(envs, inst) && AgreedAt(s, envs, inst, m)
    ensures AgreedAt(s, envs, inst, 0)
  {
    hide SteadyWith, AimOf, Compatible;
    assert AimedAt(s, envs, inst, 0) && AimedAt(s, envs, inst, m) && SteadyWith(envs(0), envs(m), inst);
    SteadyGoals(s, envs(0), envs(m), inst);
  }
}
