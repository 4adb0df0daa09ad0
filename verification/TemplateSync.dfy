/** The PhysicalBackup template new replicas are cloned from
    (internal/provider/replica_template.go). */
module TemplateSync {
  import opened Kube
  import opened Names
  import opened Plans
  import opened Instances
  import opened ClusterApi
  import opened Schedules
  import PitrSync

  function TemplateStorage(inst: Instance): Option<StorageConfig> {
    match inst.backup
    case None => None
    case Some(b) => if !b.enabled || b.storages == [] then None else Some(b.storages[0])
  }

  function TemplateKey(inst: Instance): Key {
    Key(Physical, TemplateName(inst.name))
  }

  function ReplicaPrefix(instance: string): string {
    instance + "-replica"
  }

  /** The MariaDB's reference to the template. */
  function DesiredTemplateRef(inst: Instance): Option<string> {
    if inst.topology != Replication || TemplateStorage(inst).None? then None else Some(TemplateName(inst.name))
  }

  function NextTemplate(s: Store, inst: Instance, s3: S3): BackupCR {
    var key := TemplateKey(inst);
    var cr := if key in s.backups then s.backups[key] else BLANK.(mariadb := inst.name, storage := Some(s3));
    cr.(schedule := Some(CronSchedule("", true, false)), content := Snapshot("PreferReplica"))
  }

  predicate TemplateOutdated(s: Store, inst: Instance, s3: S3) {
    TemplateKey(inst) in s.backups && s.backups[TemplateKey(inst)].storage != Some(s3)
  }

  function TemplatePlan(s: Store, inst: Instance): Plan {
    if DesiredTemplateRef(inst).None? then DeletePlan(s, TemplateKey(inst))
    else if inst.name !in s.mariadbs then Stop(Done)
    else match ResolveS3(s, TemplateStorage(inst).value.storage, ReplicaPrefix(inst.name))
      case NotPresent => Stop(Waiting)
      case NotS3 => Stop(Misconfigured)
      case ResolvedS3(s3) =>
        if TemplateOutdated(s, inst, s3) then Plan([DeleteBackup(TemplateKey(inst))], Waiting)
        else UpsertPlan(s, TemplateKey(inst), NextTemplate(s, inst, s3), MariaDBOwner(inst.name))
  }

  method SyncReplicaTemplate(c: Cluster, inst: Instance) returns (out: Outcome)
    modifies c
    ensures c.RanSince(old(c.State()), old(c.log), TemplatePlan(old(c.State()), inst), out)
    ensures c.failures == old(c.failures) + Failures(out)
  {
    var storage := TemplateStorage(inst);
    if inst.topology != Replication || storage.None? {
      out := c.DeleteIfPresent(TemplateKey(inst));
      return;
    }
    var mdb := c.Get(c.mariadbs, inst.name);
    match mdb {
      case Failed => return Aborted;
      case Missing => return Done;
      case Present(_) =>
    }
    var s3;
    out, s3 := PitrSync.ResolveStorage(c, storage.value.storage, ReplicaPrefix(inst.name));
    if out != Done { return; }
    var found := c.GetBackup(TemplateKey(inst));
    match found {
      case Failed => return Aborted;
      case Missing =>
      case Present(existing) =>
        if existing.storage != s3 {
          out := c.Perform(DeleteBackup(TemplateKey(inst)));
          if out == Done { out := Waiting; }
          return;
        }
    }
    var next := NextTemplate(Store(c.backups, map[], map[], map[], map[], map[], map[]), inst, s3.value);
    out := c.CreateOrUpdate(TemplateKey(inst), next, MariaDBOwner(inst.name));
  }
}
