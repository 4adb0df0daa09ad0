/** Scheduled backups converge: how many passes it takes, what the store then
    holds, and that nothing else is touched on the way. */
module Convergence {
  import opened Kube
  import opened Names
  import opened Plans
  import opened Instances
  import opened ClusterApi
  import opened Retention
  import opened Schedules

  // ----- one goal -------------------------------------------------------------

  /** No other controller owns the object this goal would update. */
  predicate Takeable(s: Store, g: Goal) {
    g.key in s.backups ==> Ownable(s.backups[g.key].owner, MariaDBOwner(g.mariadb))
  }

  /** The object the goal asks for exists with the wanted fields, and the
      same-named object of the other kind does not. */
  predicate InSync(s: Store, g: Goal) {
    && g.key in s.backups && Rival(g.key) !in s.backups
    && var cr := s.backups[g.key];
       && cr.storage == Some(g.storage)
       && cr.maxRetention == g.retention
       && cr.schedule == Some(CronSchedule(g.schedule.cron, !g.schedule.enabled, false))
       && cr.content == ContentOf(g.key.kind, g.parameters)
       && (g.parameters.compression != "" ==> cr.compression == g.parameters.compression)
       && cr.owner == Some(MariaDBOwner(g.mariadb))
  }

  predicate SameAt(s: Store, t: Store, key: Key) {
    (key in s.backups <==> key in t.backups) && (key in s.backups ==> s.backups[key] == t.backups[key])
  }

  lemma GoalStep(s: Store, g: Goal)
    requires Takeable(s, g)
    ensures var p, t := GoalPlan(s, g), After(s, GoalPlan(s, g));
      && t == s.(backups := t.backups)
      && (forall key: Key | key.name != g.key.name :: SameAt(s, t, key))
      && if OutdatedIn(s, g) then p.outcome == Waiting && g.key !in t.backups
         else p.outcome == Done && InSync(t, g) && CompressionKept(s, t, g)
  {
    var d := DeletePlan(s, Rival(g.key));
    AfterThen(s, d, TakeOverPlan(After(s, d), g));
    AfterDelete(s, Rival(g.key));
    AfterWrite(After(s, d), DeleteBackup(g.key), Waiting);
    AfterUpsert(After(s, d), g.key, Next(After(s, d), g), MariaDBOwner(g.mariadb));
  }

  /** A goal that asks for no compression leaves the one there is. */
  predicate CompressionKept(s: Store, t: Store, g: Goal) {
    g.key in s.backups && g.key in t.backups && g.parameters.compression == "" ==>
      t.backups[g.key].compression == s.backups[g.key].compression
  }

  /** A pass over a goal that is met changes nothing. */
  lemma GoalFixed(s: Store, g: Goal)
    requires InSync(s, g)
    ensures GoalPlan(s, g) == Stop(Done)
  {
    var cr := s.backups[g.key];
    assert Refreshed(g, cr).(owner := Some(MariaDBOwner(g.mariadb))) == cr;
  }

  /** And only then does it succeed without writing anything. */
  lemma GoalFixedIff(s: Store, g: Goal)
    ensures GoalPlan(s, g) == Stop(Done) <==> InSync(s, g)
  {
    if InSync(s, g) { GoalFixed(s, g); }
    if GoalPlan(s, g) == Stop(Done) {
      assert Rival(g.key) !in s.backups;
      assert After(s, Stop(Done)) == s;
    }
  }

  /** Whatever the goal, only backups are written. */
  lemma GoalFrame(s: Store, g: Goal)
    ensures var t := After(s, GoalPlan(s, g)); t == s.(backups := t.backups)
  {
    var d := DeletePlan(s, Rival(g.key));
    AfterThen(s, d, TakeOverPlan(After(s, d), g));
    AfterDelete(s, Rival(g.key));
    AfterWrite(After(s, d), DeleteBackup(g.key), Waiting);
    AfterUpsert(After(s, d), g.key, Next(After(s, d), g), MariaDBOwner(g.mariadb));
  }

  // ----- a list of goals ------------------------------------------------------

  function GoalsPlan(s: Store, gs: seq<Goal>): Plan {
    if gs == [] then Stop(Done)
    else
      var p := GoalsPlan(s, gs[..|gs| - 1]);
      Then(p, GoalPlan(After(s, p), gs[|gs| - 1]))
  }

  lemma {:induction false} GoalsFrame(s: Store, gs: seq<Goal>)
    ensures var t := After(s, GoalsPlan(s, gs)); t == s.(backups := t.backups)
    decreases |gs|
  {
    hide GoalPlan, Replay;
    if gs == [] {
      AfterNothing(s);
    } else {
      var init, last := gs[..|gs| - 1], gs[|gs| - 1];
      GoalsFrame(s, init);
      var p := GoalsPlan(s, init);
      AfterThen(s, p, GoalPlan(After(s, p), last));
      GoalFrame(After(s, p), last);
    }
  }

  predicate Distinct(gs: seq<Goal>) {
    forall i, j | 0 <= i < j < |gs| :: gs[i].key.name != gs[j].key.name
  }

  /** The two goals ask for the same object: kind, storage, retention, schedule and
      content, and no two different compressions. Labels are set on creation only. */
  predicate Agree(g: Goal, h: Goal) {
    && g.key == h.key && g.mariadb == h.mariadb
    && g.storage == h.storage && g.retention == h.retention
    && g.schedule.cron == h.schedule.cron && g.schedule.enabled == h.schedule.enabled
    && ContentOf(g.key.kind, g.parameters) == ContentOf(h.key.kind, h.parameters)
    && (g.parameters.compression == "" || h.parameters.compression == ""
        || g.parameters.compression == h.parameters.compression)
  }

  /** Goals of one name agree. */
  predicate Compatible(gs: seq<Goal>) {
    forall i, j | 0 <= i < j < |gs| && gs[i].key.name == gs[j].key.name :: Agree(gs[i], gs[j])
  }

  predicate AllTakeable(s: Store, gs: seq<Goal>) {
    forall i | 0 <= i < |gs| :: Takeable(s, gs[i])
  }

  predicate AllInSync(s: Store, gs: seq<Goal>) {
    forall i | 0 <= i < |gs| :: InSync(s, gs[i])
  }

  predicate Mentions(gs: seq<Goal>, name: string) {
    exists i | 0 <= i < |gs| :: gs[i].key.name == name
  }

  /** The objects that exist with an outdated immutable field. */
  function OutdatedKeys(s: Store, gs: seq<Goal>): set<Key> {
    if gs == [] then {}
    else OutdatedKeys(s, gs[..|gs| - 1]) + if OutdatedIn(s, gs[|gs| - 1]) then {gs[|gs| - 1].key} else {}
  }

  lemma {:induction false} OutdatedKeysAre(s: Store, gs: seq<Goal>, key: Key)
    ensures key in OutdatedKeys(s, gs) <==> exists i | 0 <= i < |gs| :: gs[i].key == key && OutdatedIn(s, gs[i])
    decreases |gs|
  {
    hide OutdatedIn;
    if gs != [] {
      var n, init := |gs| - 1, gs[..|gs| - 1];
      OutdatedKeysAre(s, init, key);
      if i :| 0 <= i < n && init[i].key == key && OutdatedIn(s, init[i]) {
        assert gs[i].key == key && OutdatedIn(s, gs[i]);
      }
      if i :| 0 <= i < |gs| && gs[i].key == key && OutdatedIn(s, gs[i]) {
        assert i < n ==> init[i].key == key && OutdatedIn(s, init[i]);
      }
    }
  }

  ghost predicate GoalsResult(s: Store, gs: seq<Goal>, p: Plan, t: Store) {
    && t == s.(backups := t.backups)
    && (forall key: Key | !Mentions(gs, key.name) :: SameAt(s, t, key))
    && AllTakeable(t, gs)
    && if OutdatedKeys(s, gs) == {} then p.outcome == Done && AllInSync(t, gs)
       else p.outcome == Waiting && exists f | f in OutdatedKeys(s, gs) ::
             OutdatedKeys(t, gs) == OutdatedKeys(s, gs) - {f}
  }

  /** A pass over the goals meets them all, or removes exactly one outdated
      object and waits. */
  lemma {:induction false} GoalsRun(s: Store, gs: seq<Goal>)
    requires Compatible(gs) && AllTakeable(s, gs)
    ensures GoalsResult(s, gs, GoalsPlan(s, gs), After(s, GoalsPlan(s, gs)))
    decreases |gs|
  {
    hide GoalPlan, Agree, OutdatedIn, InSync, Takeable;
    if gs == [] {
      AfterNothing(s);
    } else {
      var init, last := gs[..|gs| - 1], gs[|gs| - 1];
      CompatibleInit(gs);
      assert Takeable(s, last);
      GoalsRun(s, init);
      var p := GoalsPlan(s, init);
      var t := After(s, p);
      var q := GoalPlan(t, last);
      AfterThen(s, p, q);
      hide GoalsPlan, AllTakeable, Replay;
      if Mentions(init, last.key.name) {
        AgreedGoal(s, gs, p, t);
        if p.outcome.Done? {
          GoalStep(t, last);
          AgreedGoalRun(s, gs, p, t, q, After(t, q));
        }
      } else {
        NewGoal(s, gs, p, t);
        if p.outcome.Done? {
          GoalStep(t, last);
          NewGoalRun(s, gs, p, t, q, After(t, q));
        }
      }
    }
  }

  lemma CompatibleInit(gs: seq<Goal>)
    requires gs != [] && Compatible(gs)
    ensures Compatible(gs[..|gs| - 1])
    ensures forall i | 0 <= i < |gs| - 1 && gs[i].key.name == gs[|gs| - 1].key.name :: Agree(gs[i], gs[|gs| - 1])
    ensures forall s: Store | AllTakeable(s, gs) :: AllTakeable(s, gs[..|gs| - 1])
  {
    hide Agree, Takeable;
  }

  lemma MentionsMore(gs: seq<Goal>)
    requires gs != []
    ensures forall name :: Mentions(gs, name) <==> Mentions(gs[..|gs| - 1], name) || name == gs[|gs| - 1].key.name
  {
    var n, init := |gs| - 1, gs[..|gs| - 1];
    forall name | Mentions(init, name) ensures Mentions(gs, name) {
      var i :| 0 <= i < n && init[i].key.name == name;
      assert gs[i].key.name == name;
    }
    forall name | Mentions(gs, name) ensures Mentions(init, name) || name == gs[n].key.name {
      var i :| 0 <= i < |gs| && gs[i].key.name == name;
      assert i < n ==> init[i].key.name == name;
    }
    assert gs[n].key.name == gs[n].key.name;
  }

  lemma CompatiblePairs(gs: seq<Goal>, i: nat, j: nat)
    requires Compatible(gs) && i < |gs| && j < |gs| && gs[i].key.name == gs[j].key.name
    ensures Agree(gs[i], gs[j])
  {
    assert i < j ==> Agree(gs[i], gs[j]);
    assert j < i ==> Agree(gs[j], gs[i]);
  }

  /** Goals that agree find the object outdated, or takeable, together. */
  lemma AgreeTogether(s: Store, g: Goal, h: Goal)
    requires Agree(g, h)
    ensures g.key == h.key
    ensures OutdatedIn(s, g) <==> OutdatedIn(s, h)
    ensures Takeable(s, g) <==> Takeable(s, h)
    ensures InSync(s, g) ==> !OutdatedIn(s, h)
  {
  }

  /** Meeting one of them keeps the other met. */
  lemma AgreeKept(t: Store, u: Store, g: Goal, h: Goal)
    requires Agree(g, h) && InSync(t, g) && InSync(u, h) && CompressionKept(t, u, h)
    ensures InSync(u, g)
  {
  }

  /** A goal agreeing with an earlier one adds nothing to recreate. */
  lemma AgreedGoal(s: Store, gs: seq<Goal>, p: Plan, t: Store)
    requires gs != [] && Compatible(gs) && Mentions(gs[..|gs| - 1], gs[|gs| - 1].key.name)
    requires GoalsResult(s, gs[..|gs| - 1], p, t)
    ensures OutdatedKeys(s, gs) == OutdatedKeys(s, gs[..|gs| - 1])
            && OutdatedKeys(t, gs) == OutdatedKeys(t, gs[..|gs| - 1])
    ensures AllTakeable(t, gs)
    ensures OutdatedKeys(s, gs) == {} ==> !OutdatedIn(t, gs[|gs| - 1])
    ensures !p.outcome.Done? ==> GoalsResult(s, gs, p, t)
  {
    hide Agree, OutdatedIn, InSync, Takeable;
    var init, last := gs[..|gs| - 1], gs[|gs| - 1];
    var j :| 0 <= j < |init| && init[j].key.name == last.key.name;
    CompatibleInit(gs);
    assert Agree(gs[j], last) && init[j] == gs[j];
    AgreeTogether(s, gs[j], last);
    AgreeTogether(t, gs[j], last);
    OutdatedKeysAre(s, init, last.key);
    OutdatedKeysAre(t, init, last.key);
    MentionsMore(gs);
    forall i | 0 <= i < |gs| ensures Takeable(t, gs[i]) {
      if i < |init| { assert Takeable(t, init[i]); }
    }
  }

  lemma AgreedGoalRun(s: Store, gs: seq<Goal>, p: Plan, t: Store, q: Plan, u: Store)
    requires gs != [] && Compatible(gs) && Mentions(gs[..|gs| - 1], gs[|gs| - 1].key.name)
    requires GoalsResult(s, gs[..|gs| - 1], p, t) && p.outcome.Done?
    requires u == t.(backups := u.backups)
    requires forall key: Key | key.name != gs[|gs| - 1].key.name :: SameAt(t, u, key)
    requires q.outcome == Done && InSync(u, gs[|gs| - 1]) && CompressionKept(t, u, gs[|gs| - 1])
    requires OutdatedKeys(s, gs) == OutdatedKeys(s, gs[..|gs| - 1])
    ensures GoalsResult(s, gs, Then(p, q), u)
  {
    hide Agree, OutdatedIn, CompressionKept, InSync, SameAt, Takeable, Compatible, OutdatedKeys;
    var init, last := gs[..|gs| - 1], gs[|gs| - 1];
    CompatibleInit(gs);
    forall i | 0 <= i < |gs| ensures InSync(u, gs[i]) {
      if i < |init| {
        assert InSync(t, init[i]) && gs[i] == init[i];
        if gs[i].key.name == last.key.name {
          AgreeKept(t, u, gs[i], last);
        } else {
          InSyncElsewhere(t, u, gs[i]);
        }
      }
    }
    InSyncTakeable(u, gs);
    FrameMore(s, t, u, gs);
  }

  lemma InSyncTakeable(u: Store, gs: seq<Goal>)
    requires AllInSync(u, gs)
    ensures AllTakeable(u, gs) && OutdatedKeys(u, gs) == {}
  {
    forall i | 0 <= i < |gs| ensures Takeable(u, gs[i]) && !OutdatedIn(u, gs[i]) {
      assert InSync(u, gs[i]);
    }
    if key :| key in OutdatedKeys(u, gs) { OutdatedKeysAre(u, gs, key); }
  }

  /** A goal of a name not seen before finds its object untouched. */
  lemma NewGoal(s: Store, gs: seq<Goal>, p: Plan, t: Store)
    requires gs != [] && Compatible(gs) && AllTakeable(s, gs) && !Mentions(gs[..|gs| - 1], gs[|gs| - 1].key.name)
    requires GoalsResult(s, gs[..|gs| - 1], p, t)
    ensures SameAt(s, t, gs[|gs| - 1].key) && AllTakeable(t, gs)
    ensures OutdatedIn(t, gs[|gs| - 1]) <==> OutdatedIn(s, gs[|gs| - 1])
    ensures gs[|gs| - 1].key !in OutdatedKeys(s, gs[..|gs| - 1])
    ensures !p.outcome.Done? ==> GoalsResult(s, gs, p, t)
  {
    var init, last := gs[..|gs| - 1], gs[|gs| - 1];
    assert SameAt(s, t, last.key) && Takeable(s, last);
    OutdatedKeysAre(s, init, last.key);
    MentionsMore(gs);
    forall i | 0 <= i < |gs| ensures Takeable(t, gs[i]) {
      if i < |init| { assert Takeable(t, init[i]); }
    }
    if !p.outcome.Done? {
      var f :| f in OutdatedKeys(s, init) && OutdatedKeys(t, init) == OutdatedKeys(s, init) - {f};
      assert f in OutdatedKeys(s, gs) && OutdatedKeys(t, gs) == OutdatedKeys(s, gs) - {f};
    }
  }

  lemma NewGoalRun(s: Store, gs: seq<Goal>, p: Plan, t: Store, q: Plan, u: Store)
    requires gs != [] && AllTakeable(t, gs) && !Mentions(gs[..|gs| - 1], gs[|gs| - 1].key.name)
    requires GoalsResult(s, gs[..|gs| - 1], p, t) && p.outcome.Done?
    requires OutdatedIn(t, gs[|gs| - 1]) <==> OutdatedIn(s, gs[|gs| - 1])
    requires u == t.(backups := u.backups)
    requires forall key: Key | key.name != gs[|gs| - 1].key.name :: SameAt(t, u, key)
    requires if OutdatedIn(t, gs[|gs| - 1]) then q.outcome == Waiting && gs[|gs| - 1].key !in u.backups
             else q.outcome == Done && InSync(u, gs[|gs| - 1])
    ensures GoalsResult(s, gs, Then(p, q), u)
  {
    hide InSync, Takeable, OutdatedIn, SameAt;
    var init, last := gs[..|gs| - 1], gs[|gs| - 1];
    MentionsMore(gs);
    forall i | 0 <= i < |init| ensures InSync(u, init[i]) {
      assert InSync(t, init[i]) && init[i].key.name != last.key.name;
      InSyncElsewhere(t, u, init[i]);
    }
    InSyncTakeable(u, init);
    NothingToRecreate(u, last);
    forall i | 0 <= i < |gs| ensures Takeable(u, gs[i]) {
      if i < |init| { assert Takeable(u, init[i]); }
    }
    assert InSync(u, last) ==> AllInSync(u, gs);
    FrameMore(s, t, u, gs);
  }

  lemma FrameMore(s: Store, t: Store, u: Store, gs: seq<Goal>)
    requires gs != []
    requires forall key: Key | !Mentions(gs[..|gs| - 1], key.name) :: SameAt(s, t, key)
    requires forall key: Key | key.name != gs[|gs| - 1].key.name :: SameAt(t, u, key)
    ensures forall key: Key | !Mentions(gs, key.name) :: SameAt(s, u, key)
  {
    MentionsMore(gs);
    forall key: Key | !Mentions(gs, key.name) ensures SameAt(s, u, key) {
      assert SameAt(s, t, key) && SameAt(t, u, key);
    }
  }

  lemma InSyncElsewhere(t: Store, u: Store, g: Goal)
    requires InSync(t, g) && SameAt(t, u, g.key) && SameAt(t, u, Rival(g.key))
    ensures InSync(u, g)
  {
  }

  lemma NothingToRecreate(u: Store, g: Goal)
    requires g.key !in u.backups || InSync(u, g)
    ensures Takeable(u, g) && !OutdatedIn(u, g)
  {
  }
}
