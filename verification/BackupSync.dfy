/** On-demand backups, and the runs of scheduled ones mirrored as backups
    (internal/provider/backup.go, backup_physical.go, backup_schedule.go). */
module BackupSync {
  import opened Json
  import opened Kube
  import opened Plans
  import opened Instances
  import opened ClusterApi
  import opened Names
  import opened Retention
  import opened Schedules
  import opened ScheduledRuns
  import opened Seeding

  // ----- runs of scheduled backups --------------------------------------------

  datatype JobCondition = JobComplete(isTrue: bool, at: int) | JobFailed(isTrue: bool) | JobOther(isTrue: bool)

  datatype Job = Job(labels: Labels, conditions: seq<JobCondition>)

  /** The runtime's BackupExecutionStatus. */
  datatype Execution = Execution(state: BackupState, completedAt: Option<int>, operatorRef: Option<ObjectRef>)

  const PENDING := Execution(StatePending, None, None)

  predicate Decides(c: JobCondition) {
    c.isTrue && !c.JobOther?
  }

  function Decision(c: JobCondition): Execution
    requires Decides(c)
  {
    if c.JobComplete? then Execution(StateSucceeded, Some(c.at), None) else Execution(StateFailed, None, None)
  }

  /** The first true Complete or Failed condition decides; without one the run is
      still running. */
  predicate Reports(conditions: seq<JobCondition>, e: Execution) {
    && ((forall i | 0 <= i < |conditions| :: !Decides(conditions[i])) ==> e == Execution(StateRunning, None, None))
    && forall i | 0 <= i < |conditions| && Decides(conditions[i])
       && (forall j | 0 <= j < i :: !Decides(conditions[j])) ::
         e == Decision(conditions[i])
  }

  /** mapJobState. */
  method MapJobState(conditions: seq<JobCondition>) returns (e: Execution)
    ensures Reports(conditions, e)
  {
    for i := 0 to |conditions|
      invariant forall j | 0 <= j < i :: !Decides(conditions[j])
    {
      if !conditions[i].isTrue { continue; }
      match conditions[i] {
        case JobComplete(_, at) => return Execution(StateSucceeded, Some(at), None);
        case JobFailed(_) => return Execution(StateFailed, None, None);
        case JobOther(_) =>
      }
    }
    e := Execution(StateRunning, None, None);
  }

  function LabelOf(labels: Labels, key: LabelKey): string {
    if key in labels then labels[key] else ""
  }

  /** The backup a run Job is surfaced as; None for Jobs that are not such runs. */
  function Mirrored(labels: Labels): Option<EverestBackup> {
    var schedule, class_ := LabelOf(labels, ScheduleLabel), LabelOf(labels, ClassLabel);
    var storage, instance := LabelOf(labels, StorageLabel), LabelOf(labels, InstanceLabel);
    if schedule == "" || class_ == "" || storage == "" || instance == "" then None
    else
      var kind := LabelOf(labels, TypeLabel);
      Some(EverestBackup(Some(instance), class_, storage, schedule,
                         if kind != "" then Document(Obj(map["type" := Str(kind)])) else NoPayload,
                         StatePending, None, None))
  }

  /** The operator puts the inherited labels on every run Job, among others. */
  predicate RunOf(cr: BackupCR, labels: Labels) {
    forall k | k in cr.inherited :: k in labels && labels[k] == cr.inherited[k]
  }

  /** A run of an object that hands on the labels of a scheduled backup mirrors back
      to their schedule, storage, class and Instance, and reads as physical exactly
      when they say so; it is mirrored exactly when all four names are non-empty. */
  lemma LabelsMirror(cr: BackupCR, instance: string, class_: string, schedule: string, storage: string, kind: Kind,
      labels: Labels)
    requires cr.inherited == ScheduledLabels(instance, class_, schedule, storage, kind) && RunOf(cr, labels)
    ensures var m := Mirrored(labels);
      && (m.Some? <==> instance != "" && class_ != "" && storage != "" && schedule != "")
      && (m.Some? ==>
            && m.value.origin == Some(instance) && m.value.classRef == class_
            && m.value.storage == storage && m.value.scheduleName == schedule
            && ParseParameters(m.value.parameters).Some?
            && KindOf(ParseParameters(m.value.parameters).value) == kind)
  {
    hide ParseParameters;
    assert forall k | k in {ScheduleLabel, InstanceLabel, StorageLabel, ClassLabel, TypeLabel} :: k in cr.inherited;
    TypeReadsBack(kind);
  }

  /** So does one of the object created for a schedule. */
  lemma MirrorRoundTrip(s: Store, env: Env, inst: Instance, e: Entry, labels: Labels)
    requires AimOf(s, env, inst, e).AimAt?
    requires RunOf(Created(AimOf(s, env, inst, e).goal), labels)
    ensures var m, g := Mirrored(labels), AimOf(s, env, inst, e).goal;
      && (m.Some? <==> inst.name != "" && ClassRef(inst) != "" && e.storage != "" && e.schedule.name != "")
      && (m.Some? ==>
            && m.value.origin == Some(inst.name) && m.value.classRef == ClassRef(inst)
            && m.value.storage == e.storage && m.value.scheduleName == e.schedule.name
            && ParseParameters(m.value.parameters).Some?
            && KindOf(ParseParameters(m.value.parameters).value) == g.key.kind)
  {
    hide ParseParameters, DeriveMaxRetention, ResolveS3, ScheduledName, Mirrored, ScheduledLabels;
    var g := AimOf(s, env, inst, e).goal;
    LabelsMirror(Created(g), inst.name, ClassRef(inst), e.schedule.name, e.storage, g.key.kind, labels);
  }

  /** In particular a run of whatever was made for a schedule of the Instance mirrors
      back to this Instance, to that kind, and to a schedule the name derives from. */
  lemma RunsMirrorBack(x: Store, digest: Digest, instance: string, key: Key, labels: Labels)
    requires StampedAt(digest, instance, key, x) && key in x.backups
    requires RunOf(x.backups[key], labels) && Mirrored(labels).Some?
    ensures var m := Mirrored(labels).value;
      && m.origin == Some(instance)
      && ScheduledName(digest, instance, m.scheduleName) == key.name
      && ParseParameters(m.parameters).Some?
      && KindOf(ParseParameters(m.parameters).value) == key.kind
  {
    hide ParseParameters, ScheduledName;
    TypeReadsBack(key.kind);
  }

  lemma TypeReadsBack(kind: Kind)
    ensures ParseParameters(Document(Obj(map["type" := Str(TypeName(kind))]))).Some?
    ensures KindOf(ParseParameters(Document(Obj(map["type" := Str(TypeName(kind))]))).value) == kind
  {
    var m := map["type" := Str(TypeName(kind))];
    assert "compression" !in m && "databases" !in m && "ignoreGlobalPriv" !in m && "target" !in m;
  }

  // ----- on-demand backups ----------------------------------------------------

  function BackupOwner(name: string): Owner {
    Owner("Backup", name)
  }

  /** The operator object of a new on-demand backup. */
  function OnDemand(instance: string, s3: S3, kind: Kind, p: Parameters): BackupCR {
    BLANK.(mariadb := instance, waitForIt := true, storage := Some(s3),
           compression := p.compression, content := ContentOf(kind, p))
  }

  function BackupPlan(s: Store, instance: string, name: string, b: EverestBackup): Plan {
    if b.scheduleName != "" then Stop(Done)
    else match ParseParameters(b.parameters)
      case None => Stop(Misconfigured)
      case Some(p) =>
        var key := Key(KindOf(p), name);
        if instance !in s.mariadbs then Stop(Done)
        else if key in s.backups then UpsertPlan(s, key, s.backups[key], BackupOwner(name))
        else match ResolveS3(s, b.storage, instance)
          case NotPresent => Stop(Waiting)
          case NotS3 => Stop(Misconfigured)
          case ResolvedS3(s3) => UpsertPlan(s, key, OnDemand(instance, s3, KindOf(p), p), BackupOwner(name))
  }

  function RefOf(key: Key): ObjectRef {
    ObjectRef(if key.kind.Physical? then "PhysicalBackup" else "Backup", key.name)
  }

  /** The reference a completed SyncBackup reports. */
  function Recorded(s: Store, jobs: map<string, Job>, instance: string, name: string,
      b: EverestBackup): Option<ObjectRef> {
    if b.scheduleName != "" then (if name in jobs then Some(ObjectRef("Job", name)) else None)
    else if instance !in s.mariadbs || ParseParameters(b.parameters).None? then None
    else Some(RefOf(Key(KindOf(ParseParameters(b.parameters).value), name)))
  }

  method SyncScheduledRun(c: Cluster, jobs: map<string, Job>, name: string) returns (out: Outcome, exec: Execution)
    modifies c`failures
    ensures c.failures == old(c.failures) + Failures(out)
    ensures out == Done || out == Aborted
    ensures out == Done ==> exec.operatorRef == if name in jobs then Some(ObjectRef("Job", name)) else None
    ensures out == Done ==>
            if name in jobs then Reports(jobs[name].conditions, exec.(operatorRef := None)) else exec == PENDING
  {
    exec := PENDING;
    var job := c.Get(jobs, name);
    match job {
      case Failed => out := Aborted;
      case Missing => out := Done;
      case Present(j) =>
        out := Done;
        exec := MapJobState(j.conditions);
        exec := exec.(operatorRef := Some(ObjectRef("Job", name)));
    }
  }

  /** observed is what the operator reports on its object. */
  method SyncBackup(c: Cluster, jobs: map<string, Job>, instance: string, name: string, b: EverestBackup,
      observed: Execution)
    returns (out: Outcome, exec: Execution)
    modifies c
    ensures c.RanSince(old(c.State()), old(c.log), BackupPlan(old(c.State()), instance, name, b), out)
    ensures c.failures == old(c.failures) + Failures(out)
    ensures out == Done ==> exec.operatorRef == Recorded(old(c.State()), jobs, instance, name, b)
    ensures out == Done && b.scheduleName != "" ==>
              if name in jobs then Reports(jobs[name].conditions, exec.(operatorRef := None)) else exec == PENDING
    ensures out == Done && b.scheduleName == "" ==>
              exec == if exec.operatorRef.Some? then observed.(operatorRef := exec.operatorRef) else PENDING
  {
    hide ParseParameters, OnDemand, ContentOf, ResolveS3;
    exec := PENDING;
    if b.scheduleName != "" {
      out, exec := SyncScheduledRun(c, jobs, name);
      return;
    }
    var params := ParseParameters(b.parameters);
    if params.None? { return Misconfigured, PENDING; }
    var key := Key(KindOf(params.value), name);
    var mdb := c.Get(c.mariadbs, instance);
    if mdb.Failed? { return Aborted, PENDING; }
    if mdb.Missing? { return Done, PENDING; }
    var found := c.GetBackup(key);
    var next;
    match found {
      case Failed => return Aborted, PENDING;
      case Present(cr) => next := cr;
      case Missing =>
        var storage := c.Get(c.storages, b.storage);
        if storage.Failed? { return Aborted, PENDING; }
        var only := Store(map[], map[], map[], map[], map[], c.storages, map[]);
        var r := ResolveS3(only, b.storage, instance);
        SameStorages(c.State(), only, b.storage, instance);
        match r {
          case NotPresent => return Waiting, PENDING;
          case NotS3 => return Misconfigured, PENDING;
          case ResolvedS3(s3) => next := OnDemand(instance, s3, key.kind, params.value);
        }
    }
    if !Ownable(next.owner, BackupOwner(name)) { return Conflicted, PENDING; }
    var cr := next.(owner := Some(BackupOwner(name)));
    if found == Present(cr) {
      out := Done;
    } else {
      out := c.Perform(PutBackup(key, cr));
    }
    exec := observed.(operatorRef := Some(RefOf(key)));
  }

  function CleanupPlan(s: Store, name: string, b: EverestBackup): Plan {
    if b.scheduleName != "" then Stop(Done)
    else match ParseParameters(b.parameters)
      case None => Stop(Misconfigured)
      case Some(p) => DeletePlan(s, Key(KindOf(p), name))
  }

  /** There is nothing to delete: a mirrored run, or an object that is not there. */
  predicate Gone(s: Store, name: string, b: EverestBackup) {
    || b.scheduleName != ""
    || (ParseParameters(b.parameters).Some? && Key(KindOf(ParseParameters(b.parameters).value), name) !in s.backups)
  }

  /** gone is true exactly when there was nothing left to delete. */
  method CleanupBackup(c: Cluster, name: string, b: EverestBackup) returns (out: Outcome, gone: bool)
    modifies c
    ensures c.RanSince(old(c.State()), old(c.log), CleanupPlan(old(c.State()), name, b), out)
    ensures c.failures == old(c.failures) + Failures(out)
    ensures out == Done ==> (gone <==> Gone(old(c.State()), name, b))
    ensures out == Done && gone ==> CleanupPlan(old(c.State()), name, b) == Stop(Done) && c.State() == old(c.State())
    ensures out == Done && !gone ==> Gone(c.State(), name, b)
    ensures gone ==> out == Done
  {
    gone := false;
    if b.scheduleName != "" { return Done, true; }
    var params := ParseParameters(b.parameters);
    if params.None? { return Misconfigured, false; }
    var key := Key(KindOf(params.value), name);
    var found := c.GetBackup(key);
    match found {
      case Failed => out := Aborted;
      case Missing => out, gone := Done, true;
      case Present(_) =>
        out := c.Perform(DeleteBackup(key));
        AfterWrite(old(c.State()), DeleteBackup(key), Done);
    }
  }

  /** The runtime calls again until gone: with no failed call and nobody else acting,
      the second call is the last. */
  method FinalizeBackup(c: Cluster, name: string, b: EverestBackup) returns (out: Outcome, gone: bool)
    modifies c
    ensures c.failures == old(c.failures) + Failures(out)
    ensures c.failures == old(c.failures) ==>
              if b.scheduleName != "" || ParseParameters(b.parameters).Some?
              then out == Done && gone && Gone(c.State(), name, b) else out == Misconfigured && !gone
  {
    out, gone := CleanupBackup(c, name, b);
    if out == Done && !gone { out, gone := CleanupBackup(c, name, b); }
  }

  /** Syncing or cleaning up a mirrored run writes nothing. */
  lemma MirroredRunsAreReadOnly(s: Store, labels: Labels, instance: string, name: string)
    requires Mirrored(labels).Some?
    ensures BackupPlan(s, instance, name, Mirrored(labels).value) == Stop(Done)
    ensures CleanupPlan(s, name, Mirrored(labels).value) == Stop(Done)
  {
  }

  /** Cleaning up an on-demand backup undoes syncing it if and only if its name was
      free: cleanup deletes by name, whoever made the object. */
  lemma CleanupUndoesSync(s: Store, instance: string, name: string, b: EverestBackup)
    requires b.scheduleName == "" && ParseParameters(b.parameters).Some?
    ensures var t := After(s, BackupPlan(s, instance, name, b));
            After(t, CleanupPlan(t, name, b)) == s <==>
              Key(KindOf(ParseParameters(b.parameters).value), name) !in s.backups
  {
    hide ParseParameters, BackupPlan, DeletePlan;
    var key, t := Key(KindOf(ParseParameters(b.parameters).value), name), After(s, BackupPlan(s, instance, name, b));
    AfterDelete(t, key);
    OneKeyWritten(s, instance, name, b);
    if key !in s.backups { assert t.backups - {key} == s.backups; }
  }

  lemma OneKeyWritten(s: Store, instance: string, name: string, b: EverestBackup)
    requires b.scheduleName == "" && ParseParameters(b.parameters).Some?
    ensures var key := Key(KindOf(ParseParameters(b.parameters).value), name);
            var t := After(s, BackupPlan(s, instance, name, b));
            t == s.(backups := t.backups) && t.backups - {key} == s.backups - {key}
  {
    hide ParseParameters, BackupPlan;
    var p := BackupPlan(s, instance, name, b);
    FewWrites(s, instance, name, b);
    if p.writes == [] { AfterNothing(s); } else { AfterWrite(s, p.writes[0], p.outcome); }
  }

  /** An existing operator object keeps its whole specification. */
  lemma OnDemandSpecKept(s: Store, instance: string, name: string, b: EverestBackup, key: Key)
    requires key in s.backups
    ensures var t := After(s, BackupPlan(s, instance, name, b));
            key in t.backups && t.backups[key].(owner := None) == s.backups[key].(owner := None)
  {
    hide BackupPlan;
    var p := BackupPlan(s, instance, name, b);
    FewWrites(s, instance, name, b);
    if p.writes != [] { AfterWrite(s, p.writes[0], p.outcome); }
  }

  lemma FewWrites(s: Store, instance: string, name: string, b: EverestBackup)
    ensures var p := BackupPlan(s, instance, name, b);
      || p.writes == []
      || (|p.writes| == 1 && p == Plan([p.writes[0]], Done) && p.writes[0].PutBackup? &&
          p.writes[0].key == Key(KindOf(ParseParameters(b.parameters).value), name) &&
          (p.writes[0].key in s.backups ==>
                p.writes[0].cr == s.backups[p.writes[0].key].(owner := Some(BackupOwner(name)))) &&
          (p.writes[0].key !in s.backups ==> p.writes[0].cr.labels == map[]))
  {
    hide ParseParameters, ResolveS3, ContentOf;
  }

  // ----- backups as sources ---------------------------------------------------

  /** An Instance seeded from an on-demand backup reads exactly where the operator
      object made for that backup wrote, as long as the storage is declared the
      same. */
  lemma SeededWhereBackedUp(s: Store, source: string, name: string, b: EverestBackup, u: Store)
    requires b.scheduleName == "" && b.origin == Some(source) && ParseParameters(b.parameters).Some?
    requires Key(KindOf(ParseParameters(b.parameters).value), name) !in s.backups
    requires BackupPlan(s, source, name, b).writes != []
    requires u.storages == s.storages && name in u.everestBackups
    requires u.everestBackups[name].(state := b.state, completedAt := b.completedAt, operatorRef := b.operatorRef) == b
    requires ResolveBackup(u, name).SeedFrom?
    ensures var p := BackupPlan(s, source, name, b);
      && p.writes[0].PutBackup?
      && p.writes[0].cr.mariadb == source && ResolveBackup(u, name).source == source
      && p.writes[0].cr.storage == ResolveBackup(u, name).bootstrap.s3
      && (p.writes[0].key.kind == Physical <==> ResolveBackup(u, name).bootstrap.contentType == PHYSICAL_CONTENT)
  {
    hide ParseParameters, ResolveS3;
    SameStorages(s, u, b.storage, source);
  }

  /** And one seeded from a mirrored run reads where the schedule's object writes. */
  lemma SeededWhereScheduled(s: Store, env: Env, inst: Instance, e: Entry, labels: Labels, u: Store, name: string)
    requires AimOf(s, env, inst, e).AimAt?
    requires RunOf(Created(AimOf(s, env, inst, e).goal), labels) && Mirrored(labels).Some?
    requires u.storages == s.storages && name in u.everestBackups && ResolveBackup(u, name).SeedFrom?
    requires u.everestBackups[name].(state := StatePending, completedAt := None, operatorRef := None) ==
        Mirrored(labels).value
    ensures var g, seed := AimOf(s, env, inst, e).goal, ResolveBackup(u, name);
      && seed.source == inst.name && seed.bootstrap.s3 == Some(g.storage)
      && (g.key.kind == Physical <==> seed.bootstrap.contentType == PHYSICAL_CONTENT)
  {
    hide ParseParameters, ResolveS3, Mirrored, DeriveMaxRetention, ScheduledName;
    MirrorRoundTrip(s, env, inst, e, labels);
    SameStorages(s, u, e.storage, inst.name);
  }
}
