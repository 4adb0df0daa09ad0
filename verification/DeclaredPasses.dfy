/** What one pass over the scheduled backups does, schedule by schedule and as a whole,
    decided by the declaration and the store
    (internal/provider/backup_schedule.go and backup_physical.go). */
module DeclaredPasses {
  import opened Kube
  import opened Names
  import opened Plans
  import opened Instances
  import opened ClusterApi
  import opened Retention
  import opened Schedules
  import opened Convergence
  import opened ScheduledPasses
  import opened DeclaredPlaces
  import opened DeclaredRetention
  import opened DeclaredSchedules

  // ----- what one schedule decides --------------------------------------------

  /** Its object exists with a field that cannot be changed in place: another place,
      or on a logical backup another age. */
  ghost predicate MustRecreate(s: Store, env: Env, inst: Instance, storage: string, schedule: Schedule) {
    && ObjectKey(env, inst, schedule) in s.backups
    && var cr := s.backups[ObjectKey(env, inst, schedule)];
       || !PlacedOn(s, storage, inst.name, cr.storage)
       || (!SaysPhysical(schedule.parameters) && !KeptFor(env.gap, schedule, cr.maxRetention))
  }

  /** Another controller has the object. */
  predicate TakenByAnother(s: Store, key: Key, owner: Owner) {
    key in s.backups && s.backups[key].owner.Some? && s.backups[key].owner.value != owner
  }

  /** How a schedule ends: unreadable parameters, a place that is no S3 or a retention
      that does not derive are errors; a missing MariaDB or storage, and an object to
      recreate, are waited for; another controller's object is refused. */
  ghost predicate Ends(s: Store, env: Env, inst: Instance, storage: string, schedule: Schedule, outcome: Outcome) {
    if !Readable(schedule.parameters) then outcome == Misconfigured
    else if inst.name !in s.mariadbs || storage !in s.storages then outcome == Waiting
    else if s.storages[storage].s3.None? || !exists age :: KeptFor(env.gap, schedule, age) then outcome == Misconfigured
    else if MustRecreate(s, env, inst, storage, schedule) then outcome == Waiting
    else if TakenByAnother(s, ObjectKey(env, inst, schedule), Owner("MariaDB", inst.name)) then outcome == Conflicted
    else outcome == Done
  }

  lemma EntryAims(s: Store, env: Env, inst: Instance, e: Entry)
    ensures match AimOf(s, env, inst, e)
            case Blocked(outcome) =>
              (outcome == Misconfigured || outcome == Waiting) && Ends(s, env, inst, e.storage, e.schedule, outcome)
              && !(Readable(e.schedule.parameters) && inst.name in s.mariadbs && e.storage in s.storages
                   && s.storages[e.storage].s3.Some? && exists age :: KeptFor(env.gap, e.schedule, age))
            case AimAt(g) =>
              && Readable(e.schedule.parameters) && inst.name in s.mariadbs
              && PlacedOn(s, e.storage, inst.name, Some(g.storage))
              && KeptFor(env.gap, e.schedule, g.retention)
              && g.key == ObjectKey(env, inst, e.schedule) && g.mariadb == inst.name
              && (OutdatedIn(s, g) <==> MustRecreate(s, env, inst, e.storage, e.schedule))
  {
    ParametersRead(e.schedule.parameters);
    ResolvedPlace(s, e.storage, inst.name);
    forall age ensures DeriveMaxRetention(env.gap, e.schedule.cron, e.schedule.retention) == Some(age) <==>
                       KeptFor(env.gap, e.schedule, age) {
      RetentionKept(env.gap, e.schedule, age);
    }
    hide ParseParameters, ResolveS3, DeriveMaxRetention, Readable, Takes, PointsAt, KeptFor, SaysPhysical, ContentOf;
  }

  predicate SameOrigin(a: BackupCR, b: BackupCR) {
    a.labels == b.labels && a.inherited == b.inherited && a.mariadb == b.mariadb && a.waitForIt == b.waitForIt
  }

  /** The labels of a declaration. */
  function StampOf(inst: Instance, storage: string, schedule: Schedule): Labels {
    map[ScheduleLabel := schedule.name, InstanceLabel := inst.name, StorageLabel := storage,
        ClassLabel := if inst.backup.Some? then inst.backup.value.classRef else "",
        TypeLabel := if SaysPhysical(schedule.parameters) then "physical" else "logical"]
  }

  /** The object is left as the declaration says, in place if it was there and new
      otherwise: with the labels of the declaration, for its runs too. */
  ghost predicate LeavesObject(s: Store, t: Store, env: Env, inst: Instance, storage: string, schedule: Schedule) {
    && ObjectFor(t, env, inst, storage, schedule)
    && var key := ObjectKey(env, inst, schedule);
       && var cr := t.backups[key];
          if key in s.backups then
            && SameOrigin(s.backups[key], cr)
            && Compresses(schedule.parameters, s.backups[key].compression, cr.compression)
          else
            && cr.labels == StampOf(inst, storage, schedule) && cr.inherited == cr.labels
            && cr.mariadb == inst.name && cr.waitForIt
            && Compresses(schedule.parameters, "", cr.compression)
  }

  lemma GoalOutcome(s: Store, g: Goal)
    ensures var p, t := GoalPlan(s, g), After(s, GoalPlan(s, g));
      && p.outcome == (if OutdatedIn(s, g) then Waiting
                       else if TakenByAnother(s, g.key, Owner("MariaDB", g.mariadb)) then Conflicted else Done)
      && (OutdatedIn(s, g) ==> g.key !in t.backups)
      && (p.outcome == Done ==> Takeable(s, g) && InSync(t, g) && GoalIdentity(s, t, g))
      && s.storages == t.storages && (g.mariadb in s.mariadbs <==> g.mariadb in t.mariadbs)
  {
    var d := DeletePlan(s, Rival(g.key));
    AfterThen(s, d, TakeOverPlan(After(s, d), g));
    AfterDelete(s, Rival(g.key));
    AfterWrite(After(s, d), DeleteBackup(g.key), Waiting);
    AfterUpsert(After(s, d), g.key, Next(After(s, d), g), MariaDBOwner(g.mariadb));
  }

  predicate GoalIdentity(s: Store, t: Store, g: Goal)
    requires g.key in t.backups
  {
    var cr := t.backups[g.key];
    && (g.key in s.backups ==> SameOrigin(s.backups[g.key], cr))
    && (g.key !in s.backups ==>
          cr.labels == g.labels && cr.inherited == g.labels && cr.mariadb == g.mariadb && cr.waitForIt)
    && (g.parameters.compression == "" ==>
          cr.compression == if g.key in s.backups then s.backups[g.key].compression else "")
  }

  lemma AimFields(s: Store, env: Env, inst: Instance, e: Entry)
    requires AimOf(s, env, inst, e).AimAt?
    ensures var g := AimOf(s, env, inst, e).goal;
      && SaysText(e.schedule.parameters, "compression", g.parameters.compression)
      && g.labels == StampOf(inst, e.storage, e.schedule)
  {
    ParametersRead(e.schedule.parameters);
    hide DeriveMaxRetention, ResolveS3, ScheduledName, ParseParameters, SaysPhysical;
  }

  /** What one declared schedule does, decided by the declaration and the store. */
  lemma EntryDecides(s: Store, env: Env, inst: Instance, e: Entry)
    ensures var p, t := EntryPlan(s, env, inst, e), After(s, EntryPlan(s, env, inst, e));
      && Ends(s, env, inst, e.storage, e.schedule, p.outcome)
      && (p.outcome == Done ==> LeavesObject(s, t, env, inst, e.storage, e.schedule))
      && (MustRecreate(s, env, inst, e.storage, e.schedule) && AimOf(s, env, inst, e).AimAt? ==>
            ObjectKey(env, inst, e.schedule) !in t.backups)
  {
    hide GoalPlan, Takes, PointsAt, KeptFor, ContentOf, ResolveS3, DeriveMaxRetention, Readable, Replay, InSync,
        ParseParameters, ScheduledLabels, StampOf, SaysPhysical, ScheduledName;
    EntryAims(s, env, inst, e);
    match AimOf(s, env, inst, e)
    case Blocked(_) =>
    case AimAt(g) =>
      var t := After(s, GoalPlan(s, g));
      AimFields(s, env, inst, e);
      GoalOutcome(s, g);
      if GoalPlan(s, g).outcome == Done {
        AimKept(s, t, env, inst, e);
        EntryMetIff(t, env, inst, e);
        SaidText(e.schedule.parameters, "compression", g.parameters.compression, "");
      }
  }

  /** An object to recreate, in terms of the declaration. */
  lemma PendingIff(s: Store, env: Env, inst: Instance, key: Key)
    requires Settleable(s, env, inst)
    ensures key in Pending(s, env, inst) <==>
              exists i: nat, j: nat | DeclaredAt(inst, i, j) && key == ObjectKey(env, inst, ScheduleAt(inst, i, j)) ::
                MustRecreate(s, env, inst, StorageAt(inst, i, j), ScheduleAt(inst, i, j))
  {
    hide AimOf, ObjectKey, MustRecreate, OutdatedIn, DeclaredAt, Compatible, AllTakeable, OutdatedKeys;
    DeclaredAre(inst);
    var es, gs := Declared(inst), Goals(s, env, inst, Declared(inst));
    OutdatedKeysAre(s, gs, key);
    forall n | 0 <= n < |es|
      ensures gs[n].key == ObjectKey(env, inst, es[n].schedule)
      ensures OutdatedIn(s, gs[n]) <==> MustRecreate(s, env, inst, es[n].storage, es[n].schedule)
    {
      EntryAims(s, env, inst, es[n]);
    }
    if key in Pending(s, env, inst) {
      var n :| 0 <= n < |gs| && gs[n].key == key && OutdatedIn(s, gs[n]);
      assert es[n] in es;
    }
    forall i: nat, j: nat | DeclaredAt(inst, i, j) && key == ObjectKey(env, inst, ScheduleAt(inst, i, j)) &&
                            MustRecreate(s, env, inst, StorageAt(inst, i, j), ScheduleAt(inst, i, j))
      ensures key in Pending(s, env, inst)
    {
      var n :| 0 <= n < |es| && es[n] == Entry(StorageAt(inst, i, j), ScheduleAt(inst, i, j));
    }
  }

  // ----- a whole pass over distinct names -------------------------------------

  /** No two of these schedules derive one name. */
  predicate NamedApart(env: Env, inst: Instance, es: seq<Entry>) {
    forall i, j | 0 <= i < j < |es| :: ObjectName(env, inst, es[i].schedule) != ObjectName(env, inst, es[j].schedule)
  }

  /** The store as the first schedules leave it: those without their names untouched. */
  ghost predicate LeftBy(s: Store, x: Store, env: Env, inst: Instance, es: seq<Entry>) {
    && s.storages == x.storages && (inst.name in s.mariadbs <==> inst.name in x.mariadbs)
    && forall key: Key | (forall i | 0 <= i < |es| :: key.name != ObjectName(env, inst, es[i].schedule)) ::
         SameAt(s, x, key)
  }

  lemma EndsAlike(s: Store, x: Store, env: Env, inst: Instance, e: Entry, outcome: Outcome)
    requires s.storages == x.storages && (inst.name in s.mariadbs <==> inst.name in x.mariadbs)
    requires SameAt(s, x, ObjectKey(env, inst, e.schedule))
    ensures Ends(s, env, inst, e.storage, e.schedule, outcome) <==> Ends(x, env, inst, e.storage, e.schedule, outcome)
  {
    hide Readable, KeptFor, ObjectKey, PointsAt;
  }

  lemma EntryElsewhere(x: Store, env: Env, inst: Instance, e: Entry)
    ensures var y := After(x, EntryPlan(x, env, inst, e));
      && x.storages == y.storages && (inst.name in x.mariadbs <==> inst.name in y.mariadbs)
      && forall key: Key | key.name != ObjectName(env, inst, e.schedule) :: SameAt(x, y, key)
  {
    hide GoalPlan, ResolveS3, DeriveMaxRetention, ParseParameters, Replay;
    AfterNothing(x);
    EntryMetIff(x, env, inst, e);
    match AimOf(x, env, inst, e)
    case Blocked(_) =>
    case AimAt(g) => GoalElsewhere(x, g);
  }

  lemma GoalElsewhere(x: Store, g: Goal)
    ensures var y := After(x, GoalPlan(x, g));
      && y == x.(backups := y.backups)
      && forall key: Key | key.name != g.key.name :: SameAt(x, y, key)
  {
    var d := DeletePlan(x, Rival(g.key));
    AfterThen(x, d, TakeOverPlan(After(x, d), g));
    AfterDelete(x, Rival(g.key));
    AfterWrite(After(x, d), DeleteBackup(g.key), Waiting);
    AfterUpsert(After(x, d), g.key, Next(After(x, d), g), MariaDBOwner(g.mariadb));
  }

  /** The first schedule that does not end well ends the pass, and while all do each
      has its object. */
  ghost predicate EntriesEnd(s: Store, env: Env, inst: Instance, es: seq<Entry>, p: Plan, x: Store) {
    && LeftBy(s, x, env, inst, es)
    && (p.outcome == Done <==> forall i | 0 <= i < |es| :: Ends(s, env, inst, es[i].storage, es[i].schedule, Done))
    && (p.outcome == Done ==> forall i | 0 <= i < |es| :: LeavesObject(s, x, env, inst, es[i].storage, es[i].schedule))
    && (p.outcome != Done ==> exists n | 0 <= n < |es| ::
          && Ends(s, env, inst, es[n].storage, es[n].schedule, p.outcome)
          && forall i | 0 <= i < n :: Ends(s, env, inst, es[i].storage, es[i].schedule, Done))
  }

  lemma {:induction false} EntriesDecide(s: Store, env: Env, inst: Instance, es: seq<Entry>)
    requires NamedApart(env, inst, es)
    ensures EntriesEnd(s, env, inst, es, EntriesPlan(s, env, inst, es), After(s, EntriesPlan(s, env, inst, es)))
    decreases |es|
  {
    hide EntryPlan, Ends, LeavesObject, ObjectName, SameAt, Replay;
    AfterNothing(s);
    if es == [] {
      NothingLeft(s, env, inst);
    } else {
      var init, last := es[..|es| - 1], es[|es| - 1];
      EntriesDecide(s, env, inst, init);
      var p := EntriesPlan(s, env, inst, init);
      var x := After(s, p);
      AfterThen(s, p, EntryPlan(x, env, inst, last));
      OneMore(s, env, inst, es, p, x);
    }
  }

  lemma NothingLeft(s: Store, env: Env, inst: Instance)
    ensures LeftBy(s, s, env, inst, [])
  {
  }

  lemma OneMore(s: Store, env: Env, inst: Instance, es: seq<Entry>, p: Plan, x: Store)
    requires es != [] && NamedApart(env, inst, es) && EntriesEnd(s, env, inst, es[..|es| - 1], p, x)
    ensures var q, y := EntryPlan(x, env, inst, es[|es| - 1]), After(x, EntryPlan(x, env, inst, es[|es| - 1]));
      && (p.outcome == Done ==> EntriesEnd(s, env, inst, es, Then(p, q), y))
      && (p.outcome != Done ==> EntriesEnd(s, env, inst, es, p, x))
  {
    hide EntryPlan, Ends, LeavesObject, ObjectName, SameAt, Replay;
    var n, init, last := |es| - 1, es[..|es| - 1], es[|es| - 1];
    assert forall i | 0 <= i < n :: init[i] == es[i];
    MoreLeft(s, x, env, inst, es);
    if p.outcome == Done {
      var q, y := EntryPlan(x, env, inst, last), After(x, EntryPlan(x, env, inst, last));
      EntryElsewhere(x, env, inst, last);
      EntryDecides(x, env, inst, last);
      LastUntouched(s, x, env, inst, es);
      forall outcome ensures Ends(s, env, inst, last.storage, last.schedule, outcome) <==>
                             Ends(x, env, inst, last.storage, last.schedule, outcome) {
        EndsAlike(s, x, env, inst, last, outcome);
      }
      EndsOnce(s, env, inst, last, q.outcome);
      LeftMore(s, x, y, env, inst, es);
      if q.outcome == Done {
        LeavesAlike(s, x, y, env, inst, last);
        forall i | 0 <= i < n ensures LeavesObject(s, y, env, inst, es[i].storage, es[i].schedule) {
          assert LeavesObject(s, x, env, inst, init[i].storage, init[i].schedule);
          StillLeft(s, x, y, env, inst, es[i], last);
        }
      }
    }
  }

  lemma EndsOnce(s: Store, env: Env, inst: Instance, e: Entry, outcome: Outcome)
    requires Ends(s, env, inst, e.storage, e.schedule, outcome)
    ensures Ends(s, env, inst, e.storage, e.schedule, Done) <==> outcome == Done
  {
    hide Readable, KeptFor, ObjectKey, PointsAt, MustRecreate;
  }

  lemma MoreLeft(s: Store, x: Store, env: Env, inst: Instance, es: seq<Entry>)
    requires es != [] && LeftBy(s, x, env, inst, es[..|es| - 1])
    ensures LeftBy(s, x, env, inst, es)
  {
    hide ObjectName, SameAt;
    assert forall i | 0 <= i < |es| - 1 :: es[..|es| - 1][i] == es[i];
  }

  lemma LastUntouched(s: Store, x: Store, env: Env, inst: Instance, es: seq<Entry>)
    requires es != [] && NamedApart(env, inst, es) && LeftBy(s, x, env, inst, es[..|es| - 1])
    ensures SameAt(s, x, ObjectKey(env, inst, es[|es| - 1].schedule))
  {
    hide ObjectName, SameAt;
    assert forall i | 0 <= i < |es| - 1 :: es[..|es| - 1][i] == es[i];
  }

  lemma LeftMore(s: Store, x: Store, y: Store, env: Env, inst: Instance, es: seq<Entry>)
    requires es != [] && LeftBy(s, x, env, inst, es)
    requires x.storages == y.storages && (inst.name in x.mariadbs <==> inst.name in y.mariadbs)
    requires forall key: Key | key.name != ObjectName(env, inst, es[|es| - 1].schedule) :: SameAt(x, y, key)
    ensures LeftBy(s, y, env, inst, es)
  {
    hide ObjectName;
    forall key: Key | forall i | 0 <= i < |es| :: key.name != ObjectName(env, inst, es[i].schedule)
      ensures SameAt(s, y, key)
    {
      assert SameAt(s, x, key) && SameAt(x, y, key);
    }
  }

  lemma LeavesAlike(s: Store, x: Store, y: Store, env: Env, inst: Instance, e: Entry)
    requires SameAt(s, x, ObjectKey(env, inst, e.schedule)) && LeavesObject(x, y, env, inst, e.storage, e.schedule)
    ensures LeavesObject(s, y, env, inst, e.storage, e.schedule)
  {
    hide ObjectFor, ObjectKey, StampOf, Compresses;
    ObjectThere(y, env, inst, e);
  }

  lemma ObjectThere(y: Store, env: Env, inst: Instance, e: Entry)
    requires ObjectFor(y, env, inst, e.storage, e.schedule)
    ensures ObjectKey(env, inst, e.schedule) in y.backups
  {
  }

  lemma StillLeft(s: Store, x: Store, y: Store, env: Env, inst: Instance, e: Entry, other: Entry)
    requires LeavesObject(s, x, env, inst, e.storage, e.schedule)
    requires x.storages == y.storages && (inst.name in x.mariadbs <==> inst.name in y.mariadbs)
    requires ObjectName(env, inst, e.schedule) != ObjectName(env, inst, other.schedule)
    requires forall key: Key | key.name != ObjectName(env, inst, other.schedule) :: SameAt(x, y, key)
    ensures LeavesObject(s, y, env, inst, e.storage, e.schedule)
  {
    hide ObjectName, Takes, PointsAt, KeptFor, Readable, StampOf, SaysText;
    var name := ObjectName(env, inst, e.schedule);
    assert SameAt(x, y, Key(Logical, name)) && SameAt(x, y, Key(Physical, name));
  }

  /** The name of some declared schedule's object. */
  ghost predicate AskedName(env: Env, inst: Instance, name: string) {
    exists i: nat, j: nat | DeclaredAt(inst, i, j) :: name == ObjectName(env, inst, ScheduleAt(inst, i, j))
  }

  ghost predicate AllEnd(s: Store, env: Env, inst: Instance) {
    forall i: nat, j: nat | DeclaredAt(inst, i, j) ::
      Ends(s, env, inst, StorageAt(inst, i, j), ScheduleAt(inst, i, j), Done)
  }

  /** The pass ends as the schedule at this place does, and all before it end well. */
  ghost predicate StopsAt(s: Store, env: Env, inst: Instance, i: nat, j: nat, outcome: Outcome) {
    && DeclaredAt(inst, i, j)
    && Ends(s, env, inst, StorageAt(inst, i, j), ScheduleAt(inst, i, j), outcome)
    && forall k: nat, l: nat | DeclaredAt(inst, k, l) && (k < i || (k == i && l < j)) ::
         Ends(s, env, inst, StorageAt(inst, k, l), ScheduleAt(inst, k, l), Done)
  }

  /** What a pass that succeeds leaves: every declared object, none of ours besides,
      and everything else as it was. */
  ghost predicate PassLeaves(s: Store, t: Store, env: Env, inst: Instance) {
    && t == s.(backups := t.backups)
    && AsAsked(t, env, inst)
    && (forall i: nat, j: nat | DeclaredAt(inst, i, j) ::
          LeavesObject(s, t, env, inst, StorageAt(inst, i, j), ScheduleAt(inst, i, j)))
    && forall key: Key | !AskedName(env, inst, key.name) ::
         if key in s.backups && LabelledOurs(s.backups[key], inst) then key !in t.backups else SameAt(s, t, key)
  }

  /** A whole pass over distinct names, decided by the declaration and the store: it
      succeeds if and only if every schedule ends well, ends as the first that does
      not, and what a success leaves is said in full. */
  lemma PassDecides(s: Store, env: Env, inst: Instance)
    requires ValidEnv(env) && NamedApart(env, inst, Declared(inst))
    ensures var p, t := SchedulesPlan(s, env, inst), After(s, SchedulesPlan(s, env, inst));
      && (p.outcome == Done <==> AllEnd(s, env, inst))
      && (p.outcome == Done ==> PassLeaves(s, t, env, inst))
      && (p.outcome != Done ==> exists i: nat, j: nat :: StopsAt(s, env, inst, i, j, p.outcome))
  {
    hide EntriesPlan, PrunePlan, SchedulesPlan, Ends, LeavesObject, ObjectName, DeclaredAt, Declared, Replay, AimOf,
        PassLeaves, StopsAt, LeftBy;
    var es, p := Declared(inst), EntriesPlan(s, env, inst, Declared(inst));
    EntriesDecide(s, env, inst, es);
    SchedulesAfter(s, env, inst);
    DeclaredAre(inst);
    if p.outcome == Done {
      SuccessLeaves(s, env, inst);
      AllOfThem(s, env, inst);
    } else {
      var n :| 0 <= n < |es| && Ends(s, env, inst, es[n].storage, es[n].schedule, p.outcome)
               && forall m | 0 <= m < n :: Ends(s, env, inst, es[m].storage, es[m].schedule, Done);
      var i, j := FirstStop(s, env, inst, n, p.outcome);
      EndsOnce(s, env, inst, es[n], p.outcome);
      StopMeans(s, env, inst, i, j, p.outcome);
    }
  }

  lemma StopMeans(s: Store, env: Env, inst: Instance, i: nat, j: nat, outcome: Outcome)
    requires StopsAt(s, env, inst, i, j, outcome) && outcome != Done
    ensures !AllEnd(s, env, inst)
  {
    hide Ends;
    EndsOnce(s, env, inst, Entry(StorageAt(inst, i, j), ScheduleAt(inst, i, j)), outcome);
  }

  lemma AllOfThem(s: Store, env: Env, inst: Instance)
    requires forall n | 0 <= n < |Declared(inst)| ::
      Ends(s, env, inst, Declared(inst)[n].storage, Declared(inst)[n].schedule, Done)
    ensures AllEnd(s, env, inst)
  {
    hide Ends, Declared;
    DeclaredAre(inst);
    forall i: nat, j: nat | DeclaredAt(inst, i, j)
      ensures Ends(s, env, inst, StorageAt(inst, i, j), ScheduleAt(inst, i, j), Done)
    {
      var n :| 0 <= n < |Declared(inst)| && Declared(inst)[n] == Entry(StorageAt(inst, i, j), ScheduleAt(inst, i, j));
    }
  }

  lemma {:induction false} BeforeRises(storages: seq<StorageConfig>, i: nat, k: nat)
    requires i < k <= |storages|
    ensures Before(storages, i) + |storages[i].schedules| <= Before(storages, k)
    decreases k
  {
    if i < k - 1 { BeforeRises(storages, i, k - 1); }
  }

  lemma FirstStop(s: Store, env: Env, inst: Instance, n: nat, outcome: Outcome) returns (i: nat, j: nat)
    requires n < |Declared(inst)|
    requires Ends(s, env, inst, Declared(inst)[n].storage, Declared(inst)[n].schedule, outcome)
    requires forall m | 0 <= m < n :: Ends(s, env, inst, Declared(inst)[m].storage, Declared(inst)[m].schedule, Done)
    ensures StopsAt(s, env, inst, i, j, outcome)
  {
    hide Ends, Entries;
    var storages := inst.backup.value.storages;
    i, j := EntryPlace(storages, n);
    forall k: nat, l: nat | DeclaredAt(inst, k, l) && (k < i || (k == i && l < j))
      ensures Ends(s, env, inst, StorageAt(inst, k, l), ScheduleAt(inst, k, l), Done)
    {
      EntriesInOrder(storages, k, l);
      if k < i { BeforeRises(storages, k, i); }
    }
  }

  lemma SuccessLeaves(s: Store, env: Env, inst: Instance)
    requires ValidEnv(env) && EntriesPlan(s, env, inst, Declared(inst)).outcome == Done
    requires EntriesEnd(s, env, inst, Declared(inst), EntriesPlan(s, env, inst, Declared(inst)),
               After(s, EntriesPlan(s, env, inst, Declared(inst))))
    ensures PassLeaves(s, After(s, SchedulesPlan(s, env, inst)), env, inst)
  {
    hide EntriesPlan, PrunePlan, SchedulesPlan, Ends, ObjectName, Replay, AimOf, LeavesObject, ObjectFor, EntryMet,
        InSync, DeclaredAt, Declared, IsGoalKey;
    var es, u := Declared(inst), After(s, EntriesPlan(s, env, inst, Declared(inst)));
    SchedulesAfter(s, env, inst);
    var t := After(s, SchedulesPlan(s, env, inst));
    forall n | 0 <= n < |es| ensures AimOf(u, env, inst, es[n]).AimAt? { ObjectAims(s, u, env, inst, es[n]); }
    PruneBoth(u, env, inst);
    EntriesFrame(s, env, inst);
    forall key ensures AskedFor(env, inst, key) <==> IsGoalKey(Goals(u, env, inst, es), key) {
      AskedIsGoal(u, env, inst, key);
    }
    PrunedLeaves(s, u, t, env, inst);
  }

  lemma EntriesFrame(s: Store, env: Env, inst: Instance)
    ensures var u := After(s, EntriesPlan(s, env, inst, Declared(inst))); u == s.(backups := u.backups)
  {
    FramedEntries(s, env, inst, Declared(inst));
  }

  lemma {:induction false} FramedEntries(s: Store, env: Env, inst: Instance, es: seq<Entry>)
    ensures var u := After(s, EntriesPlan(s, env, inst, es)); u == s.(backups := u.backups)
    decreases |es|
  {
    hide EntryPlan, Replay;
    AfterNothing(s);
    if es != [] {
      var p := EntriesPlan(s, env, inst, es[..|es| - 1]);
      FramedEntries(s, env, inst, es[..|es| - 1]);
      AfterThen(s, p, EntryPlan(After(s, p), env, inst, es[|es| - 1]));
      EntryBackupsOnly(After(s, p), env, inst, es[|es| - 1]);
    }
  }

  lemma EntryBackupsOnly(x: Store, env: Env, inst: Instance, e: Entry)
    ensures var y := After(x, EntryPlan(x, env, inst, e)); y == x.(backups := y.backups)
  {
    hide GoalPlan, AimOf, Replay;
    AfterNothing(x);
    match AimOf(x, env, inst, e)
    case Blocked(_) =>
    case AimAt(g) => GoalElsewhere(x, g);
  }

  lemma ObjectAims(s: Store, u: Store, env: Env, inst: Instance, e: Entry)
    requires LeavesObject(s, u, env, inst, e.storage, e.schedule)
    ensures AimOf(u, env, inst, e).AimAt?
  {
    hide AimOf, ObjectFor, InSync;
    EntryMetIff(u, env, inst, e);
  }

  lemma PrunedLeaves(s: Store, u: Store, t: Store, env: Env, inst: Instance)
    requires u == s.(backups := u.backups) && t == u.(backups := t.backups)
    requires LeftBy(s, u, env, inst, Declared(inst))
    requires forall n | 0 <= n < |Declared(inst)| ::
      LeavesObject(s, u, env, inst, Declared(inst)[n].storage, Declared(inst)[n].schedule)
    requires forall key ::
      if Ours(u.backups, inst, key) && !AskedFor(env, inst, key) then key !in t.backups else SameAt(u, t, key)
    ensures PassLeaves(s, t, env, inst)
  {
    hide LeavesObject, ObjectName, DeclaredAt, Declared, ObjectKey, ObjectFor, SameAt;
    DeclaredAre(inst);
    forall i: nat, j: nat | DeclaredAt(inst, i, j)
      ensures LeavesObject(s, t, env, inst, StorageAt(inst, i, j), ScheduleAt(inst, i, j))
      ensures ObjectFor(t, env, inst, StorageAt(inst, i, j), ScheduleAt(inst, i, j))
    {
      var n :| 0 <= n < |Declared(inst)| && Declared(inst)[n] == Entry(StorageAt(inst, i, j), ScheduleAt(inst, i, j));
      var schedule := ScheduleAt(inst, i, j);
      assert AskedFor(env, inst, ObjectKey(env, inst, schedule));
      ThroughPrune(s, u, t, env, inst, StorageAt(inst, i, j), schedule);
    }
    forall key | key in t.backups && LabelledOurs(t.backups[key], inst) ensures AskedFor(env, inst, key) {
      OursLabelled(u, t, env, inst, key);
    }
    forall key: Key | !AskedName(env, inst, key.name)
      ensures if key in s.backups && LabelledOurs(s.backups[key], inst) then key !in t.backups else SameAt(s, t, key)
    {
      NeitherAsked(env, inst, key);
      UnnamedAt(s, u, env, inst, key);
      UnaskedAt(s, u, t, env, inst, key);
    }
  }

  lemma UnnamedAt(s: Store, u: Store, env: Env, inst: Instance, key: Key)
    requires LeftBy(s, u, env, inst, Declared(inst)) && !AskedName(env, inst, key.name)
    ensures SameAt(s, u, key)
  {
    hide ObjectName, DeclaredAt, Declared, SameAt;
    DeclaredAre(inst);
    forall n | 0 <= n < |Declared(inst)| ensures key.name != ObjectName(env, inst, Declared(inst)[n].schedule) {
      var e := Declared(inst)[n];
      assert e in Declared(inst);
      var i: nat, j: nat :| DeclaredAt(inst, i, j) && e == Entry(StorageAt(inst, i, j), ScheduleAt(inst, i, j));
    }
  }

  lemma NeitherAsked(env: Env, inst: Instance, key: Key)
    requires !AskedName(env, inst, key.name)
    ensures !AskedFor(env, inst, key)
  {
    hide ObjectName;
  }

  lemma UnaskedAt(s: Store, u: Store, t: Store, env: Env, inst: Instance, key: Key)
    requires SameAt(s, u, key) && !AskedFor(env, inst, key)
    requires if Ours(u.backups, inst, key) && !AskedFor(env, inst, key) then key !in t.backups else SameAt(u, t, key)
    ensures if key in s.backups && LabelledOurs(s.backups[key], inst) then key !in t.backups else SameAt(s, t, key)
  {
    hide AskedFor;
  }

  lemma OursLabelled(u: Store, t: Store, env: Env, inst: Instance, key: Key)
    requires key in t.backups && LabelledOurs(t.backups[key], inst)
    requires if Ours(u.backups, inst, key) && !AskedFor(env, inst, key) then key !in t.backups else SameAt(u, t, key)
    ensures AskedFor(env, inst, key)
  {
    hide AskedFor;
  }

  /** Pruning keeps an asked-for object and does not bring its other kind back. */
  lemma ThroughPrune(s: Store, u: Store, t: Store, env: Env, inst: Instance, storage: string, schedule: Schedule)
    requires t == u.(backups := t.backups)
    requires LeavesObject(s, u, env, inst, storage, schedule)
    requires AskedFor(env, inst, ObjectKey(env, inst, schedule))
    requires forall key ::
      if Ours(u.backups, inst, key) && !AskedFor(env, inst, key) then key !in t.backups else SameAt(u, t, key)
    ensures LeavesObject(s, t, env, inst, storage, schedule) && ObjectFor(t, env, inst, storage, schedule)
  {
    hide Takes, PointsAt, KeptFor, Readable, StampOf, SaysText, AskedFor, SaysPhysical, ObjectName, Ours;
    var name := ObjectName(env, inst, schedule);
    assert SameAt(u, t, ObjectKey(env, inst, schedule));
    forall kind: Kind | Key(kind, name) !in u.backups ensures Key(kind, name) !in t.backups {
      NotBroughtBack(u, t, env, inst, Key(kind, name));
    }
  }

  lemma NotBroughtBack(u: Store, t: Store, env: Env, inst: Instance, key: Key)
    requires key !in u.backups
    requires if Ours(u.backups, inst, key) && !AskedFor(env, inst, key) then key !in t.backups else SameAt(u, t, key)
    ensures key !in t.backups
  {
    hide AskedFor;
  }
}
