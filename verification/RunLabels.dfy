/** Labels are set on creation only: which storage and class the runs of a scheduled
    backup mirror to once its declaration has changed
    (internal/provider/backup_schedule.go and backup.go). */
module RunLabels {
  import opened Kube
  import opened Names
  import opened Plans
  import opened Instances
  import opened ClusterApi
  import opened Retention
  import opened Schedules
  import opened Convergence
  import opened ScheduledPasses
  import opened ScheduleFixpoints
  import opened BackupSync
  import Runs

  // ----- one goal -------------------------------------------------------------

  predicate SameLabels(a: BackupCR, b: BackupCR) {
    a.labels == b.labels && a.inherited == b.inherited
  }

  /** After a goal is met, the labels of its object and those its runs inherit are
      the goal's if there was no such object, and otherwise the old ones. */
  lemma GoalLabels(s: Store, g: Goal)
    requires GoalPlan(s, g).outcome == Done
    ensures var t := After(s, GoalPlan(s, g));
      && g.key in t.backups
      && if g.key in s.backups then SameLabels(s.backups[g.key], t.backups[g.key])
         else t.backups[g.key].labels == t.backups[g.key].inherited == g.labels
  {
    hide Outdated, ContentOf;
    var d := DeletePlan(s, Rival(g.key));
    AfterThen(s, d, TakeOverPlan(After(s, d), g));
    AfterDelete(s, Rival(g.key));
    AfterUpsert(After(s, d), g.key, Next(After(s, d), g), MariaDBOwner(g.mariadb));
  }

  // ----- one pass -------------------------------------------------------------

  /** The labels are those creation puts on the object of a declared schedule. */
  predicate LabelledFor(env: Env, inst: Instance, e: Entry, key: Key, cr: BackupCR) {
    && ScheduledName(env.digest, inst.name, e.schedule.name) == key.name && Wants(e, key.kind)
    && cr.labels == cr.inherited
    && cr.inherited == ScheduledLabels(inst.name, ClassRef(inst), e.schedule.name, e.storage, key.kind)
  }

  predicate DeclaredLabels(env: Env, inst: Instance, key: Key, cr: BackupCR) {
    exists e | e in Declared(inst) :: LabelledFor(env, inst, e, key, cr)
  }

  /** An object that was there keeps its labels, a new one has those of a declared
      schedule. */
  predicate LabelsSince(env: Env, inst: Instance, key: Key, s: Store, cr: BackupCR) {
    if key in s.backups then SameLabels(s.backups[key], cr) else DeclaredLabels(env, inst, key, cr)
  }

  predicate LabelsAt(env: Env, inst: Instance, key: Key, s: Store, x: Store) {
    key in x.backups ==> LabelsSince(env, inst, key, s, x.backups[key])
  }

  predicate KeepsLabels(env: Env, inst: Instance, key: Key, s: Store, w: Write) {
    w.DeleteBackup? || (w.PutBackup? && (w.key == key ==> LabelsSince(env, inst, key, s, w.cr)))
  }

  ghost predicate AllLabel(env: Env, inst: Instance, key: Key, s: Store, ws: seq<Write>) {
    forall i | 0 <= i < |ws| :: KeepsLabels(env, inst, key, s, ws[i])
  }

  lemma {:induction false} LabelledWrites(env: Env, inst: Instance, key: Key, s: Store, x: Store, ws: seq<Write>)
    requires LabelsAt(env, inst, key, s, x) && AllLabel(env, inst, key, s, ws)
    ensures Throughout(y => LabelsAt(env, inst, key, s, y), x, ws)
    decreases |ws|
  {
    hide LabelsSince;
    if ws != [] {
      assert KeepsLabels(env, inst, key, s, ws[0]);
      LabelledWrites(env, inst, key, s, Performed(x, ws[0]), ws[1..]);
    }
  }

  /** No two declared schedules derive one name. */
  predicate DistinctNames(env: Env, instance: string, es: seq<Entry>) {
    forall i, j | 0 <= i < j < |es| ::
          ScheduledName(env.digest, instance, es[i].schedule.name) !=
          ScheduledName(env.digest, instance, es[j].schedule.name)
  }

  predicate NamesOne(env: Env, instance: string, es: seq<Entry>, name: string) {
    exists i | 0 <= i < |es| :: ScheduledName(env.digest, instance, es[i].schedule.name) == name
  }

  lemma EntryLabels(s: Store, x: Store, env: Env, inst: Instance, e: Entry, key: Key)
    requires e in Declared(inst)
    requires ScheduledName(env.digest, inst.name, e.schedule.name) == key.name ==> SameAt(s, x, key)
    ensures AllLabel(env, inst, key, s, EntryPlan(x, env, inst, e).writes)
    ensures ScheduledName(env.digest, inst.name, e.schedule.name) != key.name ==>
              SameAt(x, After(x, EntryPlan(x, env, inst, e)), key)
  {
    hide ParseParameters, ScheduledName, ResolveS3, GoalPlan, ScheduledLabels, Replay, LabelsSince;
    AfterNothing(x);
    match AimOf(x, env, inst, e)
    case Blocked(_) =>
    case AimAt(g) =>
      if g.key == key { NewLabels(env, inst, e, g); }
      GoalKeepsLabels(s, x, env, inst, g, key);
  }

  lemma NewLabels(env: Env, inst: Instance, e: Entry, g: Goal)
    requires e in Declared(inst) && Wants(e, g.key.kind)
    requires ScheduledName(env.digest, inst.name, e.schedule.name) == g.key.name
    requires g.labels == ScheduledLabels(inst.name, ClassRef(inst), e.schedule.name, e.storage, g.key.kind)
    ensures DeclaredLabels(env, inst, g.key, Created(g))
  {
    hide ScheduledName, ScheduledLabels, Wants;
    assert LabelledFor(env, inst, e, g.key, Created(g));
  }

  lemma GoalKeepsLabels(s: Store, x: Store, env: Env, inst: Instance, g: Goal, key: Key)
    requires g.key.name == key.name ==> SameAt(s, x, key)
    requires g.key == key ==> DeclaredLabels(env, inst, key, Created(g))
    ensures AllLabel(env, inst, key, s, GoalPlan(x, g).writes)
    ensures g.key.name != key.name ==> SameAt(x, After(x, GoalPlan(x, g)), key)
  {
    hide Outdated, ContentOf, DeclaredLabels;
    var d := DeletePlan(x, Rival(g.key));
    if g.key == key {
      var cr := Next(After(x, d), g).(owner := Some(MariaDBOwner(g.mariadb)));
      AfterDelete(x, Rival(g.key));
      if key !in s.backups { SameDeclaredLabels(env, inst, key, Created(g), cr); }
      assert LabelsSince(env, inst, key, s, cr);
    }
    AfterThen(x, d, TakeOverPlan(After(x, d), g));
    AfterDelete(x, Rival(g.key));
    AfterWrite(After(x, d), DeleteBackup(g.key), Waiting);
    AfterUpsert(After(x, d), g.key, Next(After(x, d), g), MariaDBOwner(g.mariadb));
  }

  lemma {:induction false} EntriesLabel(s: Store, env: Env, inst: Instance, es: seq<Entry>, key: Key)
    requires es <= Declared(inst) && DistinctNames(env, inst.name, es)
    ensures AllLabel(env, inst, key, s, EntriesPlan(s, env, inst, es).writes)
    ensures !NamesOne(env, inst.name, es, key.name) ==> SameAt(s, After(s, EntriesPlan(s, env, inst, es)), key)
    decreases |es|
  {
    hide EntryPlan, KeepsLabels, ScheduledName, Replay;
    AfterNothing(s);
    if es != [] {
      var init, last := es[..|es| - 1], es[|es| - 1];
      EntriesLabel(s, env, inst, init, key);
      var p := EntriesPlan(s, env, inst, init);
      var x := After(s, p);
      assert last in Declared(inst);
      if NamesOne(env, inst.name, init, key.name) {
        var i :| 0 <= i < |init| && ScheduledName(env.digest, inst.name, init[i].schedule.name) == key.name;
        assert init[i] == es[i];
      }
      EntryLabels(s, x, env, inst, last, key);
      AfterThen(s, p, EntryPlan(x, env, inst, last));
      if !NamesOne(env, inst.name, es, key.name) {
        assert es[|es| - 1] == last;
        assert !NamesOne(env, inst.name, init, key.name) by {
          assert forall i | 0 <= i < |init| :: init[i] == es[i];
        }
      }
    }
  }

  lemma {:induction false} StaleLabels(s: Store, env: Env, inst: Instance, key: Key, backups: map<Key, BackupCR>,
      order: seq<Key>, desired: set<string>)
    ensures AllLabel(env, inst, key, s, StaleWrites(backups, order, desired))
    decreases |order|
  {
    if order != [] { StaleLabels(s, env, inst, key, backups, order[..|order| - 1], desired); }
  }

  /** After every write of a pass, an object that was there before it still has its
      labels, and a new one has those of a declared schedule. */
  lemma PassLabels(s: Store, env: Env, inst: Instance, key: Key)
    requires DistinctNames(env, inst.name, Declared(inst))
    ensures Throughout(x => LabelsAt(env, inst, key, s, x), s, SchedulesPlan(s, env, inst).writes)
  {
    hide EntriesPlan, StaleWrites, KeepsLabels, Desired, Listed, Replay, DistinctNames, LabelsSince;
    var p := EntriesPlan(s, env, inst, Declared(inst));
    EntriesLabel(s, env, inst, Declared(inst), key);
    var s1 := After(s, p);
    var q := PrunePlan(s1, env, inst, Logical);
    StaleLabels(s, env, inst, key, s1.backups, env.listing(Listed(s1.backups, Logical, inst.name)),
        Desired(env, inst, Declared(inst), Logical));
    var s2 := After(s1, q);
    StaleLabels(s, env, inst, key, s2.backups, env.listing(Listed(s2.backups, Physical, inst.name)),
        Desired(env, inst, Declared(inst), Physical));
    OldLabels(s, env, inst, key);
    LabelledWrites(env, inst, key, s, s, SchedulesPlan(s, env, inst).writes);
  }

  lemma OldLabels(s: Store, env: Env, inst: Instance, key: Key)
    ensures LabelsAt(env, inst, key, s, s)
  {
  }

  // ----- histories ------------------------------------------------------------

  ghost predicate DistinctPasses(ps: seq<SpecPass>) {
    forall p | p in ps && p.SpecPass? :: DistinctNames(p.env, p.inst.name, Declared(p.inst))
  }

  /** Not there before pass n, and there ever since. */
  ghost predicate CreatedIn(s: Store, ps: seq<SpecPass>, key: Key, n: nat) {
    && n < |ps| && key !in AfterPasses(s, ps[..n]).backups
    && forall m | n < m <= |ps| :: key in AfterPasses(s, ps[..m]).backups
  }

  lemma OnePassLabels(s: Store, ps: seq<SpecPass>, key: Key)
    requires ps != [] && DistinctPasses(ps) && LeftToUs(s, ps, key)
    ensures var p, t, u := ps[|ps| - 1], AfterPasses(s, ps[..|ps| - 1]), AfterPasses(s, ps);
            if p.SpecPass? then LabelsAt(p.env, p.inst, key, t, u) else SameAt(t, u, key)
  {
    hide SchedulesPlan, Replay, Runs.Cut, DistinctNames, LabelsSince, LeftToUs;
    var p, t := ps[|ps| - 1], AfterPasses(s, ps[..|ps| - 1]);
    assert p in ps;
    if p.SpecPass? {
      PassLabels(t, p.env, p.inst, key);
      Runs.CutThroughout(y => LabelsAt(p.env, p.inst, key, t, y), t, SchedulesPlan(t, p.env, p.inst).writes, p.cut);
    } else {
      LeftToUsBefore(s, ps, key);
    }
  }

  /** Over any history of passes with any specifications, each cut short anywhere,
      with others acting in between, an object has the labels of the schedule it was
      created for, as declared then. */
  lemma {:induction false} LabelsOfCreation(s: Store, ps: seq<SpecPass>, key: Key, n: nat)
    requires DistinctPasses(ps) && LeftToUs(s, ps, key) && CreatedIn(s, ps, key, n)
    ensures ps[n].SpecPass? && key in AfterPasses(s, ps).backups
    ensures DeclaredLabels(ps[n].env, ps[n].inst, key, AfterPasses(s, ps).backups[key])
    decreases |ps|
  {
    hide AfterPasses, DistinctNames, DeclaredLabels, LeftToUs;
    var init := ps[..|ps| - 1];
    assert ps[..|ps|] == ps;
    assert forall q | q in init :: q in ps;
    OnePassLabels(s, ps, key);
    LeftToUsBefore(s, ps, key);
    if n < |init| {
      assert forall m | 0 <= m <= |init| :: init[..m] == ps[..m];
      LabelsOfCreation(s, init, key, n);
      assert init[..|init|] == init;
      var before, after := AfterPasses(s, init).backups[key], AfterPasses(s, ps).backups[key];
      SameDeclaredLabels(ps[n].env, ps[n].inst, key, before, after);
    }
  }

  lemma SameDeclaredLabels(env: Env, inst: Instance, key: Key, a: BackupCR, b: BackupCR)
    requires SameLabels(a, b) && DeclaredLabels(env, inst, key, a)
    ensures DeclaredLabels(env, inst, key, b)
  {
    hide ScheduledName, ScheduledLabels, Wants;
    var e :| e in Declared(inst) && LabelledFor(env, inst, e, key, a);
    assert LabelledFor(env, inst, e, key, b);
  }

  /** What a run mirrors to: the schedule, storage and class of the creation. So it
      mirrors to those of a later declaration of the name if and only if they are
      the same. */
  lemma RunsMirrorCreation(s: Store, ps: seq<SpecPass>, key: Key, n: nat, labels: Labels, inst: Instance, later: Entry)
    returns (e: Entry)
    requires DistinctPasses(ps) && LeftToUs(s, ps, key) && CreatedIn(s, ps, key, n)
    requires key in AfterPasses(s, ps).backups && RunOf(AfterPasses(s, ps).backups[key], labels)
    ensures ps[n].SpecPass? && e in Declared(ps[n].inst)
    ensures ScheduledName(ps[n].env.digest, ps[n].inst.name, e.schedule.name) == key.name
    ensures var m, made := Mirrored(labels), ps[n].inst;
      && (m.Some? <==> made.name != "" && ClassRef(made) != "" && e.storage != "" && e.schedule.name != "")
      && (m.Some? ==>
            && m.value.origin == Some(made.name) && m.value.scheduleName == e.schedule.name
            && (m.value.storage == later.storage <==> e.storage == later.storage)
            && (m.value.classRef == ClassRef(inst) <==> ClassRef(made) == ClassRef(inst)))
  {
    hide AfterPasses, DistinctNames, LeftToUs, ScheduledName, ScheduledLabels, Mirrored, Wants, RunOf,
        ParseParameters;
    LabelsOfCreation(s, ps, key, n);
    var cr, made := AfterPasses(s, ps).backups[key], ps[n].inst;
    e :| e in Declared(made) && LabelledFor(ps[n].env, made, e, key, cr);
    LabelsMirror(cr, made.name, ClassRef(made), e.schedule.name, e.storage, key.kind, labels);
  }

  // ----- the input that shows they can go stale -------------------------------

  /** One schedule moved to another BackupStorage that resolves to the same place, or
      to another class: the store is as declared, a pass writes nothing, and the runs
      still mirror to the storage and class declared before. */
  lemma MovedStorageMirrorsOld(t: Store, env: Env, inst: Instance, inst': Instance, storage: string, storage': string,
      schedule: Schedule, key: Key, labels: Labels)
    requires ValidEnv(env) && Converged(t, env, inst) && inst'.name == inst.name
    requires Declared(inst) == [Entry(storage, schedule)] && Declared(inst') == [Entry(storage', schedule)]
    requires ResolveS3(t, storage', inst.name) == ResolveS3(t, storage, inst.name)
    requires key in t.backups && LabelledFor(env, inst, Entry(storage, schedule), key, t.backups[key])
    requires RunOf(t.backups[key], labels) && Mirrored(labels).Some?
    ensures Converged(t, env, inst') && SchedulesPlan(t, env, inst') == Stop(Done)
    ensures Mirrored(labels).value.storage == storage && Mirrored(labels).value.classRef == ClassRef(inst)
    ensures storage != storage' ==> Mirrored(labels).value.storage != storage'
    ensures ClassRef(inst) != ClassRef(inst') ==> Mirrored(labels).value.classRef != ClassRef(inst')
  {
    hide ParseParameters, DeriveMaxRetention, ScheduledName, ResolveS3, ScheduledLabels, Mirrored, SchedulesPlan;
    LabelsMirror(t.backups[key], inst.name, ClassRef(inst), schedule.name, storage, key.kind, labels);
    assert AimOf(t, env, inst, Declared(inst)[0]).AimAt?;
    assert AimOf(t, env, inst', Declared(inst')[0]).AimAt?;
    assert Aimed(t, env, inst', Declared(inst'));
    OnlyLabelsDiffer(t, env, inst, inst');
    QuietIffConverged(t, env, inst');
  }

  /** Goals that differ in their labels only are met together. */
  lemma OnlyLabelsDiffer(t: Store, env: Env, inst: Instance, inst': Instance)
    requires Converged(t, env, inst) && Aimed(t, env, inst', Declared(inst')) && inst'.name == inst.name
    requires var gs, gs' := Goals(t, env, inst, Declared(inst)), Goals(t, env, inst', Declared(inst'));
      |gs| == |gs'| && forall i | 0 <= i < |gs| :: gs'[i] == gs[i].(labels := gs'[i].labels)
    ensures Converged(t, env, inst')
  {
    hide AimOf;
    var gs, gs' := Goals(t, env, inst, Declared(inst)), Goals(t, env, inst', Declared(inst'));
    forall i | 0 <= i < |gs'| ensures InSync(t, gs'[i]) { assert InSync(t, gs[i]); }
    forall key | Ours(t.backups, inst', key) ensures IsGoalKey(gs', key) {
      assert Ours(t.backups, inst, key);
      var i :| 0 <= i < |gs| && gs[i].key == key;
      assert gs'[i].key == key;
    }
  }
}
