/** What holds of scheduled-backup passes that may stop at any API call: they
    touch nothing they do not own, never lose ground, and keep the labels that
    make the result exactly one object per schedule. */
module ScheduledRuns {
  import opened Kube
  import opened Names
  import opened Plans
  import opened Instances
  import opened ClusterApi
  import Retention
  import opened Schedules
  import opened Convergence
  import opened ScheduledPasses

  /** Distinct schedule names, told apart by the digest, give distinct objects. */
  lemma {:induction false} DistinctSchedules(s: Store, env: Env, inst: Instance)
    requires Aimed(s, env, inst, Declared(inst))
    requires forall i, j | 0 <= i < j < |Declared(inst)| ::
            Declared(inst)[i].schedule.name != Declared(inst)[j].schedule.name
    requires SchedulesDistinguished(env.digest, inst.name, set e | e in Declared(inst) :: e.schedule.name)
    ensures Distinct(Goals(s, env, inst, Declared(inst))) && Compatible(Goals(s, env, inst, Declared(inst)))
  {
    var es, gs := Declared(inst), Goals(s, env, inst, Declared(inst));
    forall i, j | 0 <= i < j < |gs| ensures gs[i].key.name != gs[j].key.name {
      assert es[i] in es && es[j] in es;
      ScheduledNamesDiffer(env.digest, inst.name, es[i].schedule.name, es[j].schedule.name);
    }
  }

  // ----- frame ----------------------------------------------------------------

  /** A write to an object with a derived name, or to one labelled as ours in s. */
  predicate Touches(s: Store, env: Env, inst: Instance, w: Write) {
    (w.PutBackup? || w.DeleteBackup?)
      && (Derived(env, inst, w.key.name) || (w.DeleteBackup? && Ours(s.backups, inst, w.key)))
  }

  ghost predicate AllTouch(s: Store, env: Env, inst: Instance, ws: seq<Write>) {
    forall i | 0 <= i < |ws| :: Touches(s, env, inst, ws[i])
  }

  /** Everything else is as it was. */
  ghost predicate Framed(s: Store, env: Env, inst: Instance, x: Store) {
    && x == s.(backups := x.backups)
    && forall key: Key | !Derived(env, inst, key.name) && !Ours(s.backups, inst, key) :: SameAt(s, x, key)
  }

  lemma {:induction false} FramedWrites(s: Store, env: Env, inst: Instance, x: Store, ws: seq<Write>)
    requires Framed(s, env, inst, x) && AllTouch(s, env, inst, ws)
    ensures Throughout(y => Framed(s, env, inst, y), x, ws)
    decreases |ws|
  {
    if ws != [] {
      assert Touches(s, env, inst, ws[0]);
      FramedWrites(s, env, inst, Performed(x, ws[0]), ws[1..]);
    }
  }

  lemma EntryTouches(s: Store, x: Store, env: Env, inst: Instance, e: Entry)
    requires e in Declared(inst)
    ensures AllTouch(s, env, inst, EntryPlan(x, env, inst, e).writes)
  {
    match AimOf(x, env, inst, e)
    case Blocked(_) =>
    case AimAt(g) =>
      assert Derived(env, inst, g.key.name);
  }

  lemma {:induction false} EntriesTouch(s: Store, env: Env, inst: Instance, es: seq<Entry>)
    requires es <= Declared(inst)
    ensures AllTouch(s, env, inst, EntriesPlan(s, env, inst, es).writes)
    decreases |es|
  {
    if es != [] {
      var init := es[..|es| - 1];
      EntriesTouch(s, env, inst, init);
      assert es[|es| - 1] in Declared(inst);
      EntryTouches(s, After(s, EntriesPlan(s, env, inst, init)), env, inst, es[|es| - 1]);
    }
  }

  lemma {:induction false} StaleTouch(s: Store, x: Store, env: Env, inst: Instance, order: seq<Key>,
      desired: set<string>)
    requires Framed(s, env, inst, x)
    requires forall key | key in order :: HasLabelIn(x.backups, inst, key)
    ensures AllTouch(s, env, inst, StaleWrites(x.backups, order, desired))
    decreases |order|
  {
    if order != [] {
      var key := order[|order| - 1];
      StaleTouch(s, x, env, inst, order[..|order| - 1], desired);
      assert key in order;
      assert SameAt(s, x, key) || Derived(env, inst, key.name) || Ours(s.backups, inst, key);
    }
  }

  predicate HasLabelIn(backups: map<Key, BackupCR>, inst: Instance, key: Key) {
    key in backups && HasLabel(backups[key], InstanceLabel, inst.name)
  }

  lemma PruneTouches(s: Store, x: Store, env: Env, inst: Instance, kind: Kind)
    requires ValidEnv(env) && Framed(s, env, inst, x)
    ensures AllTouch(s, env, inst, PrunePlan(x, env, inst, kind).writes)
  {
    var listed := Listed(x.backups, kind, inst.name);
    assert Enumerates(env.listing(listed), listed);
    StaleTouch(s, x, env, inst, env.listing(listed), Desired(env, inst, Declared(inst), kind));
  }

  /** Frame: after every write of a pass, finished or not, only objects with a
      derived name or with both our labels can differ from before the pass. */
  lemma PassFrame(s: Store, env: Env, inst: Instance)
    requires ValidEnv(env)
    ensures AllTouch(s, env, inst, SchedulesPlan(s, env, inst).writes)
    ensures Throughout(x => Framed(s, env, inst, x), s, SchedulesPlan(s, env, inst).writes)
  {
    var inv := x => Framed(s, env, inst, x);
    var p := EntriesPlan(s, env, inst, Declared(inst));
    EntriesTouch(s, env, inst, Declared(inst));
    FramedWrites(s, env, inst, s, p.writes);
    ThroughoutEnds(inv, s, p.writes);
    var s1 := After(s, p);
    var q := PrunePlan(s1, env, inst, Logical);
    PruneTouches(s, s1, env, inst, Logical);
    FramedWrites(s, env, inst, s1, q.writes);
    ThroughoutEnds(inv, s1, q.writes);
    PruneTouches(s, After(s1, q), env, inst, Physical);
    FramedWrites(s, env, inst, s, SchedulesPlan(s, env, inst).writes);
  }

  /** Named after a schedule whose digest none of the declared schedules share. */
  ghost predicate ForeignSchedule(env: Env, inst: Instance, name: string, j: string, schedule: string) {
    && name == ScheduledName(env.digest, j, schedule)
    && forall e | e in Declared(inst) ::
          env.digest(ScheduleInput(inst.name, e.schedule.name)) != env.digest(ScheduleInput(j, schedule))
  }

  /** The names of objects other parts of the system own: the PITR bases and the
      replica templates of every Instance, the scheduled objects of another
      Instance, and whatever a user named outside the "mdb-sched-" space. */
  ghost predicate Bystander(env: Env, inst: Instance, name: string) {
    || (exists j :: name == BaseName(env.digest, j))
    || (exists j :: name == TemplateName(j))
    || (exists j, schedule :: ForeignSchedule(env, inst, name, j, schedule))
    || !("mdb-sched-" <= name)
  }

  /** A bystander without this Instance's schedule labels survives any pass, even
      one that is aborted. */
  lemma BystandersSurvive(s: Store, env: Env, inst: Instance, key: Key, n: nat)
    requires ValidEnv(env) && Bystander(env, inst, key.name) && !Ours(s.backups, inst, key)
    requires n <= |SchedulesPlan(s, env, inst).writes|
    ensures SameAt(s, Replay(s, SchedulesPlan(s, env, inst).writes[..n]), key)
  {
    PassFrame(s, env, inst);
    ThroughoutPrefix(x => Framed(s, env, inst, x), s, SchedulesPlan(s, env, inst).writes, n);
    forall e | e in Declared(inst) ensures ScheduledName(env.digest, inst.name, e.schedule.name) != key.name {
      var name := ScheduledName(env.digest, inst.name, e.schedule.name);
      if j :| key.name == BaseName(env.digest, j) {
        NameSpacesDisjoint(env.digest, inst.name, e.schedule.name, j, j);
      } else if j :| key.name == TemplateName(j) {
        NameSpacesDisjoint(env.digest, inst.name, e.schedule.name, j, j);
      } else if j, schedule :| ForeignSchedule(env, inst, key.name, j, schedule) {
        assert name[10..] == env.digest(ScheduleInput(inst.name, e.schedule.name));
        assert key.name[10..] == env.digest(ScheduleInput(j, schedule));
      } else {
        assert "mdb-sched-" <= name;
      }
    }
  }

  // ----- progress under aborts ------------------------------------------------

  /** A deletion, or a write of an up-to-date object we own. */
  predicate Benign(gs: seq<Goal>, w: Write) {
    || w.DeleteBackup?
    || (w.PutBackup? && forall i | 0 <= i < |gs| && gs[i].key == w.key ::
          !Outdated(gs[i], w.cr) && w.cr.owner == Some(MariaDBOwner(gs[i].mariadb)))
  }

  ghost predicate AllBenign(gs: seq<Goal>, ws: seq<Write>) {
    forall i | 0 <= i < |ws| :: Benign(gs, ws[i])
  }

  ghost predicate NoWorse(s: Store, gs: seq<Goal>, x: Store) {
    x == s.(backups := x.backups) && AllTakeable(x, gs) && OutdatedKeys(x, gs) <= OutdatedKeys(s, gs)
  }

  lemma BenignWrite(s: Store, gs: seq<Goal>, x: Store, w: Write)
    requires NoWorse(s, gs, x) && Benign(gs, w)
    ensures NoWorse(s, gs, Performed(x, w))
  {
    var y := Performed(x, w);
    forall i | 0 <= i < |gs| ensures Takeable(y, gs[i]) && (OutdatedIn(y, gs[i]) ==> OutdatedIn(x, gs[i])) {
      assert Takeable(x, gs[i]);
    }
    forall key | key in OutdatedKeys(y, gs) ensures key in OutdatedKeys(x, gs) {
      OutdatedKeysAre(y, gs, key);
      OutdatedKeysAre(x, gs, key);
    }
  }

  lemma {:induction false} BenignWrites(s: Store, gs: seq<Goal>, x: Store, ws: seq<Write>)
    requires NoWorse(s, gs, x) && AllBenign(gs, ws)
    ensures Throughout(y => NoWorse(s, gs, y), x, ws)
    decreases |ws|
  {
    if ws != [] {
      assert Benign(gs, ws[0]);
      BenignWrite(s, gs, x, ws[0]);
      BenignWrites(s, gs, Performed(x, ws[0]), ws[1..]);
    }
  }

  lemma {:induction false} GoalsBenign(s: Store, gs: seq<Goal>, n: nat)
    requires Compatible(gs) && n <= |gs|
    ensures AllBenign(gs, GoalsPlan(s, gs[..n]).writes)
    decreases n
  {
    if n > 0 {
      GoalsBenign(s, gs, n - 1);
      assert gs[..n][..n - 1] == gs[..n - 1];
      var t, g := After(s, GoalsPlan(s, gs[..n - 1])), gs[n - 1];
      GoalBenign(t, gs, n - 1);
    }
  }

  lemma GoalBenign(t: Store, gs: seq<Goal>, n: nat)
    requires Compatible(gs) && n < |gs|
    ensures AllBenign(gs, GoalPlan(t, gs[n]).writes)
  {
    var g, ws := gs[n], GoalPlan(t, gs[n]).writes;
    GoalWrites(t, g);
    forall k | 0 <= k < |ws| ensures Benign(gs, ws[k]) {
      if ws[k].PutBackup? {
        forall i | 0 <= i < |gs| && gs[i].key == ws[k].key
          ensures !Outdated(gs[i], ws[k].cr) && ws[k].cr.owner == Some(MariaDBOwner(gs[i].mariadb))
        {
          CompatiblePairs(gs, n, i);
        }
      }
    }
  }

  lemma GoalWrites(t: Store, g: Goal)
    ensures forall k | 0 <= k < |GoalPlan(t, g).writes| && GoalPlan(t, g).writes[k].PutBackup? ::
              var w := GoalPlan(t, g).writes[k];
              w.key == g.key && !Outdated(g, w.cr) && w.cr.owner == Some(MariaDBOwner(g.mariadb))
  {
    hide ContentOf;
    var d := DeletePlan(t, Rival(g.key));
    AfterDelete(t, Rival(g.key));
    hide Replay;
    assert OutdatedIn(After(t, d), g) == OutdatedIn(t, g);
  }

  lemma {:induction false} StaleBenign(gs: seq<Goal>, backups: map<Key, BackupCR>, order: seq<Key>,
      desired: set<string>)
    ensures AllBenign(gs, StaleWrites(backups, order, desired))
    decreases |order|
  {
    if order != [] { StaleBenign(gs, backups, order[..|order| - 1], desired); }
  }

  lemma PassBenign(s: Store, env: Env, inst: Instance)
    requires Settleable(s, env, inst)
    ensures AllBenign(Goals(s, env, inst, Declared(inst)), SchedulesPlan(s, env, inst).writes)
  {
    hide AimOf, Benign, EntriesPlan, GoalsPlan, StaleWrites, Takeable, Agree, Desired, Listed, Replay;
    var gs := Goals(s, env, inst, Declared(inst));
    EntriesAreGoals(s, env, inst, Declared(inst));
    GoalsBenign(s, gs, |gs|);
    assert gs[..|gs|] == gs;
    var s1 := After(s, GoalsPlan(s, gs));
    var q := PrunePlan(s1, env, inst, Logical);
    StaleBenign(gs, s1.backups, env.listing(Listed(s1.backups, Logical, inst.name)),
        Desired(env, inst, Declared(inst), Logical));
    var s2 := After(s1, q);
    StaleBenign(gs, s2.backups, env.listing(Listed(s2.backups, Physical, inst.name)),
        Desired(env, inst, Declared(inst), Physical));
  }

  /** Wherever a pass stops, nothing new has become outdated. */
  lemma {:induction false} AbortKeepsGround(s: Store, env: Env, inst: Instance, n: nat)
    requires Settleable(s, env, inst) && n <= |SchedulesPlan(s, env, inst).writes|
    ensures var t := Replay(s, SchedulesPlan(s, env, inst).writes[..n]);
            Settleable(t, env, inst) && Pending(t, env, inst) <= Pending(s, env, inst)
  {
    var gs, ws := Goals(s, env, inst, Declared(inst)), SchedulesPlan(s, env, inst).writes;
    PassBenign(s, env, inst);
    BenignWrites(s, gs, s, ws);
    ThroughoutPrefix(x => NoWorse(s, gs, x), s, ws, n);
    AimsKept(s, Replay(s, ws[..n]), env, inst, Declared(inst));
  }

  /** A pass of a run: its surroundings, and after how many writes it is cut short;
      it is complete when that is no fewer than it has. Or something others do. */
  datatype Turn = Pass(env: Env, cut: nat) | Others(store: Store)

  predicate Complete(s: Store, inst: Instance, p: Turn) {
    p.Pass? && p.cut >= |SchedulesPlan(s, p.env, inst).writes|
  }

  function RunTurn(s: Store, inst: Instance, p: Turn): Store {
    match p
    case Pass(env, cut) =>
      var ws := SchedulesPlan(s, env, inst).writes;
      Replay(s, if cut >= |ws| then ws else ws[..cut])
    case Others(t) => t
  }

  function RunAll(s: Store, inst: Instance, ps: seq<Turn>): Store {
    if ps == [] then s else RunTurn(RunAll(s, inst, ps[..|ps| - 1]), inst, ps[|ps| - 1])
  }

  predicate Waited(t: Store, inst: Instance, p: Turn) {
    Complete(t, inst, p) && SchedulesPlan(t, p.env, inst).outcome == Waiting
  }

  /** How many passes of the run went through to a WaitFor. */
  function Waits(s: Store, inst: Instance, ps: seq<Turn>): nat {
    if ps == [] then 0
    else
      var init := ps[..|ps| - 1];
      Waits(s, inst, init) + if Waited(RunAll(s, inst, init), inst, ps[|ps| - 1]) then 1 else 0
  }

  ghost predicate TurnOf(env: Env, inst: Instance, t: Store, p: Turn) {
    match p
    case Pass(env', _) => SteadyWith(env, env', inst)
    case Others(u) => LeavesSchedules(env, inst, t, u)
  }

  /** Passes that derive the same retentions, and others who leave the schedules. */
  ghost predicate RunOfTurns(s: Store, env: Env, inst: Instance, ps: seq<Turn>) {
    forall n | 0 <= n < |ps| :: TurnOf(env, inst, RunAll(s, inst, ps[..n]), ps[n])
  }

  /** Over any run, however often it is cut short, each of the objects to recreate
      costs at most one wait. */
  lemma {:induction false} RunBound(s: Store, env: Env, inst: Instance, ps: seq<Turn>)
    requires Settleable(s, env, inst) && RunOfTurns(s, env, inst, ps)
    ensures Settleable(RunAll(s, inst, ps), env, inst)
    ensures Waits(s, inst, ps) + PendingCount(RunAll(s, inst, ps), env, inst) <= PendingCount(s, env, inst)
    decreases |ps|
  {
    hide Settleable, Pending, TurnOf, Waited, RunTurn;
    if ps != [] {
      var init := ps[..|ps| - 1];
      assert forall n | 0 <= n < |init| :: init[n] == ps[n] && init[..n] == ps[..n];
      RunBound(s, env, inst, init);
      OneTurn(RunAll(s, inst, init), env, inst, ps[|ps| - 1]);
    }
  }

  /** And once none is left, the next complete pass converges. */
  lemma RunConverges(s: Store, env: Env, inst: Instance, ps: seq<Turn>, p: Turn)
    requires Settleable(s, env, inst) && RunOfTurns(s, env, inst, ps) && TurnOf(env, inst, RunAll(s, inst, ps), p)
    requires Waits(s, inst, ps) >= PendingCount(s, env, inst) && Complete(RunAll(s, inst, ps), inst, p)
    ensures Converged(RunAll(s, inst, ps + [p]), env, inst)
  {
    hide Settleable, Pending, TurnOf, Waited, RunTurn, Converged, Complete;
    assert (ps + [p])[..|ps|] == ps;
    RunBound(s, env, inst, ps);
    OneTurn(RunAll(s, inst, ps), env, inst, p);
  }

  ghost function PendingCount(s: Store, env: Env, inst: Instance): nat {
    if Settleable(s, env, inst) then |Pending(s, env, inst)| else 0
  }

  lemma OneTurn(t: Store, env: Env, inst: Instance, p: Turn)
    requires Settleable(t, env, inst) && TurnOf(env, inst, t, p)
    ensures var u := RunTurn(t, inst, p);
      && Settleable(u, env, inst)
      && PendingCount(u, env, inst) + (if Waited(t, inst, p) then 1 else 0) <= PendingCount(t, env, inst)
      && (Complete(t, inst, p) && PendingCount(t, env, inst) == 0 ==> Converged(u, env, inst))
  {
    hide SchedulesPlan, Settleable, Pending, Converged, SteadyWith, LeavesSchedules, Replay;
    match p
    case Others(u) => SchedulesLeft(t, u, env, inst);
    case Pass(env', cut) =>
      SteadyStanding(t, env, env', inst);
      var u := RunTurn(t, inst, p);
      if Complete(t, inst, p) {
        PassRun(t, env', inst);
        if Converged(u, env', inst) { NothingPending(u, env', inst); }
      } else {
        AbortKeepsGround(t, env', inst, cut);
        Retention.SubsetCount(Pending(u, env', inst), Pending(t, env', inst));
      }
      SteadyStanding(u, env, env', inst);
  }

  lemma NothingPending(t: Store, env: Env, inst: Instance)
    requires Settleable(t, env, inst) && Converged(t, env, inst)
    ensures Pending(t, env, inst) == {}
  {
    InSyncTakeable(t, Goals(t, env, inst, Declared(inst)));
  }

  /** Passes that derive the same retentions see a store the same way. */
  lemma SteadyStanding(t: Store, env: Env, env': Env, inst: Instance)
    requires SteadyWith(env, env', inst)
    ensures Settleable(t, env, inst) <==> Settleable(t, env', inst)
    ensures Settleable(t, env, inst) ==> Pending(t, env', inst) == Pending(t, env, inst)
    ensures Converged(t, env, inst) <==> Converged(t, env', inst)
  {
    hide AllInSync, AllTakeable, Compatible, Ours, IsGoalKey, OutdatedKeys, AimOf;
    var es := Declared(inst);
    if Aimed(t, env, inst, es) || Aimed(t, env', inst, es) { SteadyGoals(t, env, env', inst); }
  }

  // ----- labels: exactly one object per schedule ------------------------------

  /** Made for a schedule of the Instance: it backs up its MariaDB, its labels name
      the Instance, its kind and a schedule its name derives from, and its runs
      inherit the same labels. */
  predicate Stamp(digest: Digest, instance: string, key: Key, cr: BackupCR) {
    && cr.mariadb == instance && cr.waitForIt && cr.inherited == cr.labels
    && HasLabel(cr, InstanceLabel, instance) && HasLabel(cr, TypeLabel, TypeName(key.kind))
    && ScheduleLabel in cr.labels && ScheduledName(digest, instance, cr.labels[ScheduleLabel]) == key.name
  }

  predicate StampedAt(digest: Digest, instance: string, key: Key, x: Store) {
    key in x.backups ==> Stamp(digest, instance, key, x.backups[key])
  }

  /** Whatever is named after a declared schedule was made so. */
  ghost predicate Stamped(env: Env, inst: Instance, x: Store) {
    forall key: Key | Derived(env, inst, key.name) :: StampedAt(env.digest, inst.name, key, x)
  }

  predicate Stamps(digest: Digest, instance: string, key: Key, w: Write) {
    w.DeleteBackup? || (w.PutBackup? && (w.key == key ==> Stamp(digest, instance, key, w.cr)))
  }

  lemma {:induction false} StampedWrites(digest: Digest, instance: string, key: Key, x: Store, ws: seq<Write>)
    requires StampedAt(digest, instance, key, x)
    requires forall i | 0 <= i < |ws| :: Stamps(digest, instance, key, ws[i])
    ensures Throughout(y => StampedAt(digest, instance, key, y), x, ws)
    decreases |ws|
  {
    hide Stamp;
    if ws != [] {
      assert Stamps(digest, instance, key, ws[0]);
      StampedWrites(digest, instance, key, Performed(x, ws[0]), ws[1..]);
    }
  }

  lemma GoalStamps(x: Store, env: Env, inst: Instance, key: Key, g: Goal)
    requires StampedAt(env.digest, inst.name, key, x)
    requires Stamp(env.digest, inst.name, g.key, Created(g))
    ensures forall i | 0 <= i < |GoalPlan(x, g).writes| :: Stamps(env.digest, inst.name, key, GoalPlan(x, g).writes[i])
  {
    hide Outdated, ScheduledName, TypeName;
    AfterDelete(x, Rival(g.key));
  }

  lemma AimStamps(x: Store, env: Env, inst: Instance, e: Entry)
    requires AimOf(x, env, inst, e).AimAt?
    ensures var g := AimOf(x, env, inst, e).goal; Stamp(env.digest, inst.name, g.key, Created(g))
  {
    hide ParseParameters, ScheduledName, ResolveS3;
  }

  lemma EntryStamps(x: Store, env: Env, inst: Instance, key: Key, e: Entry)
    requires StampedAt(env.digest, inst.name, key, x)
    ensures Throughout(y => StampedAt(env.digest, inst.name, key, y), x, EntryPlan(x, env, inst, e).writes)
  {
    hide ParseParameters, ScheduledName, KindOf, GoalPlan, ResolveS3, Stamps, Stamp;
    match AimOf(x, env, inst, e)
    case Blocked(_) =>
    case AimAt(g) =>
      AimStamps(x, env, inst, e);
      GoalStamps(x, env, inst, key, g);
      StampedWrites(env.digest, inst.name, key, x, GoalPlan(x, g).writes);
  }

  lemma {:induction false} EntriesStamp(s: Store, env: Env, inst: Instance, key: Key, es: seq<Entry>)
    requires StampedAt(env.digest, inst.name, key, s)
    ensures Throughout(y => StampedAt(env.digest, inst.name, key, y), s, EntriesPlan(s, env, inst, es).writes)
    decreases |es|
  {
    hide EntryPlan, StampedAt, Replay;
    var inv := y => StampedAt(env.digest, inst.name, key, y);
    if es != [] {
      var init, last := es[..|es| - 1], es[|es| - 1];
      EntriesStamp(s, env, inst, key, init);
      var p := EntriesPlan(s, env, inst, init);
      ThroughoutEnds(inv, s, p.writes);
      EntryStamps(After(s, p), env, inst, key, last);
      ThroughoutThen(inv, s, p, EntryPlan(After(s, p), env, inst, last));
    }
  }

  lemma {:induction false} StaleStamps(env: Env, inst: Instance, key: Key, backups: map<Key, BackupCR>,
      order: seq<Key>, desired: set<string>)
    ensures forall i | 0 <= i < |StaleWrites(backups, order, desired)| ::
            Stamps(env.digest, inst.name, key, StaleWrites(backups, order, desired)[i])
    decreases |order|
  {
    if order != [] { StaleStamps(env, inst, key, backups, order[..|order| - 1], desired); }
  }

  lemma PruneStamps(s: Store, env: Env, inst: Instance, key: Key, kind: Kind)
    requires StampedAt(env.digest, inst.name, key, s)
    ensures Throughout(y => StampedAt(env.digest, inst.name, key, y), s, PrunePlan(s, env, inst, kind).writes)
  {
    hide StampedAt, Stamps;
    StaleStamps(env, inst, key, s.backups, env.listing(Listed(s.backups, kind, inst.name)),
        Desired(env, inst, Declared(inst), kind));
    StampedWrites(env.digest, inst.name, key, s, PrunePlan(s, env, inst, kind).writes);
  }

  /** Of every object that stays so, after every write of every pass, whatever it
      declares. */
  lemma PassStamps(s: Store, env: Env, inst: Instance, key: Key)
    requires StampedAt(env.digest, inst.name, key, s)
    ensures Throughout(y => StampedAt(env.digest, inst.name, key, y), s, SchedulesPlan(s, env, inst).writes)
  {
    hide EntriesPlan, PrunePlan, StampedAt, Replay;
    var inv := y => StampedAt(env.digest, inst.name, key, y);
    var p := EntriesPlan(s, env, inst, Declared(inst));
    EntriesStamp(s, env, inst, key, Declared(inst));
    ThroughoutEnds(inv, s, p.writes);
    var s1 := After(s, p);
    var q := PrunePlan(s1, env, inst, Logical);
    PruneStamps(s1, env, inst, key, Logical);
    ThroughoutEnds(inv, s1, q.writes);
    var r := PrunePlan(After(s1, q), env, inst, Physical);
    PruneStamps(After(s1, q), env, inst, key, Physical);
    ThroughoutThen(inv, s1, q, r);
    ThroughoutThen(inv, s, p, Then(q, r));
  }

  function OursKeys(s: Store, inst: Instance): set<Key> {
    set key | key in s.backups && Ours(s.backups, inst, key)
  }

  function GoalKeys(gs: seq<Goal>): (keys: set<Key>) {
    if gs == [] then {} else GoalKeys(gs[..|gs| - 1]) + {gs[|gs| - 1].key}
  }

  lemma {:induction false} GoalKeysAre(gs: seq<Goal>)
    requires Distinct(gs)
    ensures forall key :: key in GoalKeys(gs) <==> IsGoalKey(gs, key)
    ensures |GoalKeys(gs)| == |gs|
    decreases |gs|
  {
    if gs != [] {
      var n, init := |gs| - 1, gs[..|gs| - 1];
      GoalKeysAre(init);
      assert !IsGoalKey(init, gs[n].key);
      forall key ensures IsGoalKey(gs, key) <==> IsGoalKey(init, key) || key == gs[n].key {
        if i :| 0 <= i < n && init[i].key == key { assert gs[i].key == key; }
        if i :| 0 <= i < |gs| && gs[i].key == key { assert i < n ==> init[i].key == key; }
      }
    }
  }

  /** Once converged, the objects with this Instance's schedule labels are exactly
      the declared schedules' objects, one each. */
  lemma {:induction false} OnePerSchedule(s: Store, env: Env, inst: Instance)
    requires Converged(s, env, inst) && Stamped(env, inst, s)
    requires Distinct(Goals(s, env, inst, Declared(inst)))
    ensures OursKeys(s, inst) == GoalKeys(Goals(s, env, inst, Declared(inst)))
    ensures |OursKeys(s, inst)| == |Declared(inst)|
  {
    hide OursKeys, GoalKeys, InSync, Ours, ScheduledName, Outdated;
    var es, gs := Declared(inst), Goals(s, env, inst, Declared(inst));
    GoalKeysAre(gs);
    forall i | 0 <= i < |gs| ensures Ours(s.backups, inst, gs[i].key) {
      assert InSync(s, gs[i]) && es[i] in es;
      InSyncExists(s, gs[i]);
      DerivedGoal(s, env, inst, i);
      StampedIsOurs(s, env, inst, gs[i].key);
    }
    SameKeys(s, inst, gs);
  }

  lemma StampedIsOurs(s: Store, env: Env, inst: Instance, key: Key)
    requires Stamped(env, inst, s) && Derived(env, inst, key.name) && key in s.backups
    ensures Ours(s.backups, inst, key)
  {
    hide ScheduledName, Derived;
    assert StampedAt(env.digest, inst.name, key, s);
  }

  lemma InSyncExists(s: Store, g: Goal)
    requires InSync(s, g)
    ensures g.key in s.backups
  {
  }

  lemma SameKeys(s: Store, inst: Instance, gs: seq<Goal>)
    requires forall key :: key in GoalKeys(gs) <==> IsGoalKey(gs, key)
    requires forall i | 0 <= i < |gs| :: Ours(s.backups, inst, gs[i].key)
    requires forall key :: Ours(s.backups, inst, key) ==> IsGoalKey(gs, key)
    ensures OursKeys(s, inst) == GoalKeys(gs)
  {
  }

  // ----- why distinct names are asked for -------------------------------------

  /** Two schedules of one name and kind, on two storages. */
  predicate Contend(s: Store, env: Env, inst: Instance) {
    && |Declared(inst)| == 2 && Aimed(s, env, inst, Declared(inst))
    && var gs := Goals(s, env, inst, Declared(inst));
       gs[0].key == gs[1].key && gs[0].storage != gs[1].storage && AllTakeable(s, gs)
  }

  /** They never settle: from any store, every pass deletes what the one before
      created, and waits. */
  lemma {:induction false} SameNameNeverSettles(st: nat -> Store, envs: nat -> Env, inst: Instance, n: nat)
    requires Passes(st, envs, inst) && Steady(envs, inst) && Contend(st(0), envs(0), inst)
    ensures Contend(st(n), envs(0), inst) && SchedulesPlan(st(n), envs(n), inst).outcome == Waiting
    decreases n
  {
    hide SchedulesPlan, Contend, SteadyWith, Replay, LeavesSchedules;
    if n > 0 {
      SameNameNeverSettles(st, envs, inst, n - 1);
      assert SteadyWith(envs(0), envs(n - 1), inst) && PassStep(st, envs, inst, n - 1);
      StuckPass(st(n - 1), envs(0), envs(n - 1), inst);
      StillContend(After(st(n - 1), SchedulesPlan(st(n - 1), envs(n - 1), inst)), st(n), envs(0), envs(n - 1), inst);
    }
    assert SteadyWith(envs(0), envs(n), inst);
    StuckPass(st(n), envs(0), envs(n), inst);
  }

  lemma StillContend(s: Store, t: Store, env0: Env, env: Env, inst: Instance)
    requires SteadyWith(env0, env, inst) && Contend(s, env0, inst) && LeavesSchedules(env, inst, s, t)
    ensures Contend(t, env0, inst)
  {
    hide AimOf, AllTakeable, SameAt, Ours;
    assert LeavesSchedules(env0, inst, s, t);
    SchedulesLeft(s, t, env0, inst);
    GoalsLeft(s, t, env0, inst);
    SameGoals(s, t, Goals(s, env0, inst, Declared(inst)));
  }

  lemma StuckPass(s: Store, env0: Env, env: Env, inst: Instance)
    requires SteadyWith(env0, env, inst) && Contend(s, env0, inst)
    ensures var p, t := SchedulesPlan(s, env, inst), After(s, SchedulesPlan(s, env, inst));
      p.outcome == Waiting && t == s.(backups := t.backups) && Contend(t, env0, inst)
  {
    hide AimOf, Takeable, EntriesPlan, PrunePlan, Replay;
    var es := Declared(inst);
    SteadyGoals(s, env0, env, inst);
    var gs := Goals(s, env0, inst, es);
    SchedulesAfter(s, env, inst);
    SameInstance(s, env0, inst);
    StuckEntries(s, env, inst, es, gs);
    AimsKept(s, After(s, EntriesPlan(s, env, inst, es)), env0, inst, es);
  }

  lemma SameInstance(s: Store, env: Env, inst: Instance)
    requires Aimed(s, env, inst, Declared(inst))
    ensures var gs := Goals(s, env, inst, Declared(inst)); forall i | 0 <= i < |gs| :: gs[i].mariadb == inst.name
  {
    hide ParseParameters, ScheduledName, ResolveS3;
  }

  lemma TwoEntries(s: Store, env: Env, inst: Instance, es: seq<Entry>)
    requires |es| == 2
    ensures var p := EntryPlan(s, env, inst, es[0]);
            EntriesPlan(s, env, inst, es) == Then(p, EntryPlan(After(s, p), env, inst, es[1]))
  {
    var one, p := es[..1], EntryPlan(s, env, inst, es[0]);
    assert es[..|es| - 1] == one && one[..|one| - 1] == [] && one[0] == es[0];
    assert EntriesPlan(s, env, inst, one) == Then(Stop(Done), p);
    assert [] + p.writes == p.writes;
  }

  lemma StuckEntries(s: Store, env: Env, inst: Instance, es: seq<Entry>, gs: seq<Goal>)
    requires |es| == 2 && Aimed(s, env, inst, es) && gs == Goals(s, env, inst, es) && AllTakeable(s, gs)
    requires gs[0].key == gs[1].key && gs[0].storage != gs[1].storage && gs[0].mariadb == gs[1].mariadb
    ensures var p, t := EntriesPlan(s, env, inst, es), After(s, EntriesPlan(s, env, inst, es));
      p.outcome == Waiting && t == s.(backups := t.backups) && AllTakeable(t, gs)
  {
    hide EntriesPlan, Takeable, GoalPlan, InSync, OutdatedIn;
    TwoEntries(s, env, inst, es);
    var p := EntryPlan(s, env, inst, es[0]);
    assert p == GoalPlan(s, gs[0]);
    var t := After(s, p);
    var q := EntryPlan(t, env, inst, es[1]);
    AfterThen(s, p, q);
    StuckGoals(s, gs);
    if p.outcome.Done? {
      GoalStep(s, gs[0]);
      AimKept(s, t, env, inst, es[1]);
      assert q == GoalPlan(t, gs[1]);
    }
  }

  lemma StuckGoals(s: Store, gs: seq<Goal>)
    requires |gs| == 2 && AllTakeable(s, gs)
    requires gs[0].key == gs[1].key && gs[0].storage != gs[1].storage && gs[0].mariadb == gs[1].mariadb
    ensures var p, t := GoalPlan(s, gs[0]), After(s, GoalPlan(s, gs[0]));
      && t == s.(backups := t.backups)
      && if p.outcome.Done? then
           var u := After(t, GoalPlan(t, gs[1]));
           GoalPlan(t, gs[1]).outcome == Waiting && u == s.(backups := u.backups) && AllTakeable(u, gs)
         else p.outcome == Waiting && AllTakeable(t, gs)
  {
    hide GoalPlan;
    GoalStep(s, gs[0]);
    var t := After(s, GoalPlan(s, gs[0]));
    if GoalPlan(s, gs[0]).outcome.Done? {
      OtherStorageOutdated(s, t, gs);
      GoalStep(t, gs[1]);
    }
  }

  lemma OtherStorageOutdated(s: Store, t: Store, gs: seq<Goal>)
    requires |gs| == 2 && gs[0].key == gs[1].key && InSync(t, gs[0]) && gs[0].storage != gs[1].storage
    ensures OutdatedIn(t, gs[1])
    ensures gs[0].mariadb == gs[1].mariadb ==> Takeable(t, gs[1])
  {
  }
}
