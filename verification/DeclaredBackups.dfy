/** What passes over on-demand backups and in-place restores leave and report, in the
    fields of the Backup and the Restore (internal/provider/backup.go and
    backup_physical.go). */
module DeclaredBackups {
  import opened Json
  import opened Kube
  import opened Plans
  import opened Instances
  import opened ClusterApi
  import opened Convergence
  import opened Schedules
  import opened BackupSync
  import opened DeclaredPlaces
  import opened DeclaredSchedules
  import opened DeclaredPasses
  import Restores

  // ----- on-demand backups ----------------------------------------------------

  /** The operator object has the Backup's name and the kind its parameters say. */
  function ObjectOf(name: string, b: EverestBackup): Key {
    Key(if SaysPhysical(b.parameters) then Physical else Logical, name)
  }

  /** A new one takes what was asked for to the place asked for, once. */
  predicate NewBackup(s: Store, instance: string, name: string, b: EverestBackup, cr: BackupCR) {
    && PlacedOn(s, b.storage, instance, cr.storage) && Takes(b.parameters, cr.content)
    && Compresses(b.parameters, "", cr.compression)
    && cr.mariadb == instance && cr.waitForIt && cr.owner == Some(Owner("Backup", name))
    && cr.labels == cr.inherited == map[] && cr.schedule == None && cr.maxRetention == 0
  }

  /** How a pass over a Backup ends. */
  predicate BackupEnds(s: Store, instance: string, name: string, b: EverestBackup, outcome: Outcome) {
    if b.scheduleName != "" then outcome == Done
    else if !Readable(b.parameters) then outcome == Misconfigured
    else if instance !in s.mariadbs then outcome == Done
    else if ObjectOf(name, b) in s.backups then
      outcome == if TakenByAnother(s, ObjectOf(name, b), Owner("Backup", name)) then Conflicted else Done
    else if b.storage !in s.storages then outcome == Waiting
    else if s.storages[b.storage].s3.None? then outcome == Misconfigured
    else outcome == Done
  }

  /** Nothing to do: a mirrored run, or no MariaDB to back up. */
  predicate NothingToBackUp(s: Store, instance: string, b: EverestBackup) {
    b.scheduleName != "" || instance !in s.mariadbs
  }

  lemma OnDemandWritten(s: Store, instance: string, name: string, b: EverestBackup, s3: S3)
    requires Readable(b.parameters) && PlacedOn(s, b.storage, instance, Some(s3))
    ensures ParseParameters(b.parameters).Some?
    ensures var q := ParseParameters(b.parameters).value;
      var cr := OnDemand(instance, s3, KindOf(q), q);
      KindOf(q) == ObjectOf(name, b).kind && cr.owner == None &&
      NewBackup(s, instance, name, b, cr.(owner := Some(BackupOwner(name))))
  {
    ParametersRead(b.parameters);
    hide ParseParameters, PointsAt, Readable, SaysPhysical, SaysDatabases, SaysFlag, ContentOf, KindOf, SaysText;
    SaidText(b.parameters, "compression", ParseParameters(b.parameters).value.compression, "");
  }

  /** What a pass over a Backup does: at most its own object is written, once in full,
      and afterwards only its owner is set. */
  lemma BackupDecides(s: Store, instance: string, name: string, b: EverestBackup)
    ensures var p, t, key := BackupPlan(s, instance, name, b), After(s, BackupPlan(s, instance, name, b)),
              ObjectOf(name, b);
      && BackupEnds(s, instance, name, b, p.outcome)
      && t == s.(backups := t.backups) && (forall other | other != key :: SameAt(s, t, other))
      && (NothingToBackUp(s, instance, b) || p.outcome != Done ==> t == s)
      && (p.outcome == Done && !NothingToBackUp(s, instance, b) ==>
            && key in t.backups
            && if key in s.backups then t.backups[key] == s.backups[key].(owner := Some(Owner("Backup", name)))
               else NewBackup(s, instance, name, b, t.backups[key]))
  {
    AfterNothing(s);
    ParametersRead(b.parameters);
    ResolvedPlace(s, b.storage, instance);
    hide ParseParameters, ResolveS3, PointsAt, Readable, Takes, SaysText, OnDemand, NewBackup, SaysPhysical, ContentOf,
        Replay;
    var key := ObjectOf(name, b);
    if ParseParameters(b.parameters).Some? && b.scheduleName == "" && instance in s.mariadbs {
      if key in s.backups {
        AfterUpsert(s, key, s.backups[key], BackupOwner(name));
      } else if ResolveS3(s, b.storage, instance).ResolvedS3? {
        var s3, q := ResolveS3(s, b.storage, instance).s3, ParseParameters(b.parameters).value;
        OnDemandWritten(s, instance, name, b, s3);
        AfterUpsert(s, key, OnDemand(instance, s3, KindOf(q), q), BackupOwner(name));
      }
    }
  }

  /** The object a completed pass reports, by its kind and name; none before there is
      anything to back up. */
  lemma RecordedIs(s: Store, jobs: map<string, Job>, instance: string, name: string, b: EverestBackup)
    ensures var ref := Recorded(s, jobs, instance, name, b);
      if b.scheduleName != "" then
        ref == if name in jobs then Some(ObjectRef("Job", name)) else None
      else if NothingToBackUp(s, instance, b) || !Readable(b.parameters) then ref == None
      else ref == Some(ObjectRef(if SaysPhysical(b.parameters) then "PhysicalBackup" else "Backup", name))
  {
    ParametersRead(b.parameters);
    hide ParseParameters, Readable, SaysPhysical, Takes, SaysText, ContentOf;
  }

  /** Cleaning up deletes that object by its name, and is done when it is not there. */
  lemma CleanupDecides(s: Store, name: string, b: EverestBackup)
    ensures var p, t, key := CleanupPlan(s, name, b), After(s, CleanupPlan(s, name, b)), ObjectOf(name, b);
      && p.outcome == (if b.scheduleName == "" && !Readable(b.parameters) then Misconfigured else Done)
      && t == (if b.scheduleName == "" && Readable(b.parameters) then s.(backups := s.backups - {key}) else s)
      && (Gone(s, name, b) <==> b.scheduleName != "" || (Readable(b.parameters) && key !in s.backups))
  {
    ParametersRead(b.parameters);
    hide ParseParameters, Readable, Takes, SaysText, ContentOf, SaysPhysical, DeletePlan, Replay;
    AfterNothing(s);
    AfterDelete(s, ObjectOf(name, b));
    assert DeletePlan(s, ObjectOf(name, b)).outcome == Done by { DeleteSucceeds(s, ObjectOf(name, b)); }
  }

  lemma DeleteSucceeds(s: Store, key: Key)
    ensures DeletePlan(s, key).outcome == Done
  {
  }

  // ----- runs of scheduled backups --------------------------------------------

  /** The i-th condition is the first true one that says the Job is over. */
  predicate OverAt(conditions: seq<JobCondition>, i: nat) {
    && i < |conditions| && conditions[i].isTrue && !conditions[i].JobOther?
    && forall j | 0 <= j < i :: !conditions[j].isTrue || conditions[j].JobOther?
  }

  /** What is reported of a run: succeeded at the time its Job completed, failed, or
      still running. */
  lemma ReportIs(conditions: seq<JobCondition>, e: Execution)
    requires Reports(conditions, e)
    ensures e.operatorRef == None
    ensures e.state == StateRunning <==> !exists i: nat :: OverAt(conditions, i)
    ensures forall i: nat | OverAt(conditions, i) ::
              if conditions[i].JobComplete? then e.state == StateSucceeded && e.completedAt == Some(conditions[i].at)
              else e.state == StateFailed && e.completedAt == None
    ensures e.state == StateRunning ==> e.completedAt == None
    ensures PENDING == Execution(StatePending, None, None)
  {
    if i: nat :| OverAt(conditions, i) {
      assert Decides(conditions[i]);
    } else {
      NeverOver(conditions);
    }
  }

  lemma {:induction false} NeverOver(conditions: seq<JobCondition>)
    requires !exists i: nat :: OverAt(conditions, i)
    ensures forall i | 0 <= i < |conditions| :: !Decides(conditions[i])
  {
    if i :| 0 <= i < |conditions| && Decides(conditions[i]) {
      var k := FirstOver(conditions, i);
    }
  }

  lemma {:induction false} FirstOver(conditions: seq<JobCondition>, i: nat) returns (k: nat)
    requires i < |conditions| && Decides(conditions[i])
    ensures OverAt(conditions, k)
    decreases i
  {
    if j :| 0 <= j < i && Decides(conditions[j]) {
      k := FirstOver(conditions, j);
    } else {
      k := i;
    }
  }

  predicate Names(labels: Labels, key: LabelKey) {
    key in labels && labels[key] != ""
  }

  /** A Job is mirrored exactly when its labels name a schedule, a class, a storage and
      an Instance, and then as these. */
  lemma MirrorReads(labels: Labels)
    ensures var m := Mirrored(labels);
      && (m.Some? <==> Names(labels, ScheduleLabel) && Names(labels, ClassLabel) && Names(labels, StorageLabel)
                       && Names(labels, InstanceLabel))
      && (m.Some? ==>
            && m.value.origin == Some(labels[InstanceLabel]) && m.value.classRef == labels[ClassLabel]
            && m.value.storage == labels[StorageLabel] && m.value.scheduleName == labels[ScheduleLabel]
            && (SaysPhysical(m.value.parameters) <==> TypeLabel in labels && labels[TypeLabel] == "physical")
            && m.value.parameters == (if Names(labels, TypeLabel)
                                      then Document(Obj(map["type" := Str(labels[TypeLabel])])) else NoPayload)
            && m.value.state == StatePending && m.value.completedAt == None && m.value.operatorRef == None)
  {
  }

  // ----- restores -------------------------------------------------------------

  /** The operator backup to restore: the recorded one, or else the Backup's own name. */
  predicate RestoresFrom(b: EverestBackup, name: string, backup: string) {
    if b.operatorRef.Some? && b.operatorRef.value.name != "" then backup == b.operatorRef.value.name else backup == name
  }

  /** The source succeeded, is logical, and was not taken from another Instance. */
  predicate MayRestore(s: Store, r: Restores.EverestRestore) {
    && r.fromBackup && r.backup != "" && r.backup in s.everestBackups
    && var b := s.everestBackups[r.backup];
       && Readable(b.parameters) && !SaysPhysical(b.parameters) && b.state == StateSucceeded
       && (b.origin.Some? ==> b.origin.value == r.instance)
  }

  /** It never may. */
  predicate CannotRestore(s: Store, r: Restores.EverestRestore) {
    || !r.fromBackup || r.backup == ""
    || (r.backup in s.everestBackups &&
        var b := s.everestBackups[r.backup];
        && Readable(b.parameters)
        && (SaysPhysical(b.parameters) || (b.origin.Some? && b.origin.value != r.instance) || b.state == StateFailed))
  }

  predicate TakenRestore(s: Store, name: string) {
    name in s.restores && s.restores[name].owner.Some? && s.restores[name].owner.value != Owner("Restore", name)
  }

  /** What a pass over a Restore does, and when it may be made or never will. */
  lemma RestoreDecides(s: Store, r: Restores.EverestRestore)
    ensures var p, t := Restores.RestorePlan(s, r), After(s, Restores.RestorePlan(s, r));
      && (Restores.Restorable(s, r) <==> MayRestore(s, r)) && (Restores.Unrestorable(s, r) <==> CannotRestore(s, r))
      && t == s.(restores := t.restores)
      && p.outcome == (if r.fromBackup && r.backup != "" && r.backup in s.everestBackups
                          && !Readable(s.everestBackups[r.backup].parameters) then Misconfigured
                       else if MayRestore(s, r) && TakenRestore(s, r.name) then Conflicted else Done)
      && (!MayRestore(s, r) || TakenRestore(s, r.name) ==> t == s)
      && (MayRestore(s, r) && !TakenRestore(s, r.name) ==>
            && r.name in t.restores && t.restores == s.restores[r.name := t.restores[r.name]]
            && var cr := t.restores[r.name];
               && cr.owner == Some(Owner("Restore", r.name))
               && if r.name in s.restores then cr == s.restores[r.name].(owner := cr.owner)
                  else cr.mariadb == r.instance && cr.state == RestorePending
                       && RestoresFrom(s.everestBackups[r.backup], r.backup, cr.backup))
  {
    if r.backup in s.everestBackups { ParametersRead(s.everestBackups[r.backup].parameters); }
    hide ParseParameters, Readable, Takes, SaysText, ContentOf, SaysPhysical, Replay;
    AfterNothing(s);
    if MayRestore(s, r) {
      var cr := Restores.NextRestore(s, r, s.everestBackups[r.backup]).(owner := Some(Restores.RestoreOwner(r.name)));
      AfterWrite(s, PutRestore(r.name, cr), Done);
    }
  }

  /** Cleaning up a Restore deletes the operator Restore of its name, and nothing else. */
  lemma RestoreCleanupDecides(s: Store, name: string)
    ensures var p, t := Restores.CleanupRestorePlan(s, name), After(s, Restores.CleanupRestorePlan(s, name));
      p.outcome == Done && t == s.(restores := s.restores - {name})
  {
    AfterNothing(s);
    AfterWrite(s, DeleteRestore(name), Done);
    if name !in s.restores { assert s.restores - {name} == s.restores; }
  }
}
