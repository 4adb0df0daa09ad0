/** Whole Sync passes settle: after how many, and in what state. */
module Settling {
  import opened Kube
  import opened Names
  import opened Plans
  import opened Instances
  import opened ClusterApi
  import opened Retention
  import opened Schedules
  import opened Convergence
  import opened ScheduledPasses
  import opened ScheduledRuns
  import opened PitrSync
  import opened TemplateSync
  import opened Seeding
  import opened MariaDBSync
  import opened Provider

  // ----- the MariaDB ----------------------------------------------------------

  /** The image the pass deploys. */
  function Image(env: Env, inst: Instance): string {
    match DeployedImage(env.catalog, inst)
    case Some(image) => image
    case None => ""
  }

  function AppliedSpec(s: Store, env: Env, inst: Instance): MariaDBSpec
    requires inst.name in s.mariadbs
  {
    Redeclared(s.mariadbs[inst.name].spec, DesiredSpec(s, inst, Image(env, inst)))
  }

  ghost predicate MariaDBReady(s: Store, env: Env, inst: Instance) {
    inst.name in s.mariadbs && DeployedImage(env.catalog, inst).Some? && !PitrStorage(inst).TooManyPitr?
  }

  lemma MariaDBRun(s: Store, env: Env, inst: Instance)
    requires MariaDBReady(s, env, inst)
    ensures MariaDBPlan(s, env, inst).outcome == Done
    ensures After(s, MariaDBPlan(s, env, inst)) ==
            s.(mariadbs := s.mariadbs[inst.name := MariaDB(AppliedSpec(s, env, inst), s.mariadbs[inst.name].status)])
  {
    AfterWrite(s, ApplyMariaDB(inst.name, AppliedSpec(s, env, inst)), Done);
  }

  // ----- the template ---------------------------------------------------------

  function TemplateS3(s: Store, inst: Instance): Resolved {
    match TemplateStorage(inst)
    case None => NotPresent
    case Some(config) => ResolveS3(s, config.storage, ReplicaPrefix(inst.name))
  }

  predicate TemplateReady(s: Store, inst: Instance) {
    DesiredTemplateRef(inst).Some? ==>
      && TemplateS3(s, inst).ResolvedS3?
      && (TemplateKey(inst) in s.backups ==> Ownable(s.backups[TemplateKey(inst)].owner, MariaDBOwner(inst.name)))
  }

  /** One when the template must be recreated. */
  function TemplatePending(s: Store, inst: Instance): (n: nat)
    ensures n <= 1
  {
    var wanted := DesiredTemplateRef(inst).Some? && TemplateS3(s, inst).ResolvedS3?;
    if wanted && TemplateOutdated(s, inst, TemplateS3(s, inst).s3) then 1 else 0
  }

  /** The template exists, on the first storage, exactly when it is wanted. */
  predicate TemplateSettled(s: Store, inst: Instance) {
    var key := TemplateKey(inst);
    if DesiredTemplateRef(inst).None? then key !in s.backups
    else
      && TemplateS3(s, inst).ResolvedS3?
      && key in s.backups
      && s.backups[key].storage == Some(TemplateS3(s, inst).s3)
      && s.backups[key].schedule == Some(CronSchedule("", true, false))
      && s.backups[key].content == Snapshot("PreferReplica")
      && s.backups[key].owner == Some(MariaDBOwner(inst.name))
  }

  lemma TemplateRun(s: Store, inst: Instance)
    requires inst.name in s.mariadbs && TemplateReady(s, inst)
    ensures var p, t, key := TemplatePlan(s, inst), After(s, TemplatePlan(s, inst)), TemplateKey(inst);
      && t == s.(backups := t.backups)
      && (forall k | k != key :: SameAt(s, t, k))
      && (key in t.backups ==> if key in s.backups then SameIdentity(s.backups[key], t.backups[key])
                               else t.backups[key].mariadb == inst.name && t.backups[key].labels == map[])
      && TemplateReady(t, inst) && TemplatePending(t, inst) == 0
      && if TemplatePending(s, inst) == 1 then p.outcome == Waiting else p.outcome == Done && TemplateSettled(t, inst)
  {
    hide TemplateName, ReplicaPrefix;
    if DesiredTemplateRef(inst).None? {
      AfterDelete(s, TemplateKey(inst));
    } else {
      var s3 := TemplateS3(s, inst).s3;
      AfterWrite(s, DeleteBackup(TemplateKey(inst)), Waiting);
      AfterUpsert(s, TemplateKey(inst), NextTemplate(s, inst, s3), MariaDBOwner(inst.name));
    }
  }

  lemma TemplateFixed(s: Store, inst: Instance)
    requires inst.name in s.mariadbs && TemplateSettled(s, inst)
    ensures TemplatePlan(s, inst) == Stop(Done)
  {
    hide TemplateName, ReplicaPrefix;
    if DesiredTemplateRef(inst).Some? {
      var s3, cr := TemplateS3(s, inst).s3, s.backups[TemplateKey(inst)];
      assert NextTemplate(s, inst, s3).(owner := Some(MariaDBOwner(inst.name))) == cr;
    }
  }

  // ----- point-in-time recovery -----------------------------------------------

  predicate PitrReady(s: Store, env: Env, inst: Instance) {
    match PitrStorage(inst)
    case TooManyPitr => false
    case NoPitr => true
    case OnePitr(config) =>
      && FirstPhysical(config.schedules).BaseOn?
      && ResolveS3(s, config.storage, "").ResolvedS3?
      && BaseRetention(env, inst).Some?
      && (BaseKey(env, inst) in s.backups ==> Ownable(s.backups[BaseKey(env, inst)].owner, MariaDBOwner(inst.name)))
      && (PitrName(inst.name) in s.pitrs ==> Ownable(s.pitrs[PitrName(inst.name)].owner, InstanceOwner(inst.name)))
  }

  function BaseRetention(env: Env, inst: Instance): Option<int> {
    match PitrStorage(inst)
    case OnePitr(config) =>
      (match FirstPhysical(config.schedules)
       case BaseOn(schedule) => DeriveMaxRetention(env.gap, schedule.cron, schedule.retention)
       case _ => None)
    case _ => None
  }

  /** Both objects exist with the wanted fields when PITR is on, neither when off. */
  predicate PitrSettled(s: Store, env: Env, inst: Instance) {
    var key, name := BaseKey(env, inst), PitrName(inst.name);
    match PitrStorage(inst)
    case TooManyPitr => false
    case NoPitr => key !in s.backups && name !in s.pitrs
    case OnePitr(config) =>
      && FirstPhysical(config.schedules).BaseOn?
      && key in s.backups && name in s.pitrs
      && var cr, pitr, schedule := s.backups[key], s.pitrs[name], FirstPhysical(config.schedules).schedule;
         && Some(cr.maxRetention) == BaseRetention(env, inst)
         && cr.schedule == Some(CronSchedule(schedule.cron, !schedule.enabled, true))
         && cr.content == ContentOf(Physical, NO_PARAMETERS)
         && cr.owner == Some(MariaDBOwner(inst.name))
         && ResolveS3(s, config.storage, BinlogPrefix(inst.name)).ResolvedS3?
         && pitr.storage == Some(ResolveS3(s, config.storage, BinlogPrefix(inst.name)).s3)
         && pitr.owner == Some(InstanceOwner(inst.name))
  }

  /** What is set on creation stays. */
  predicate SameIdentity(a: BackupCR, b: BackupCR) {
    a.labels == b.labels && a.mariadb == b.mariadb && a.waitForIt == b.waitForIt && a.storage == b.storage
  }

  /** A new base backs up this MariaDB to the PITR storage, under the Instance's
      prefix, and is not labelled as a scheduled backup. */
  predicate NewBase(s: Store, inst: Instance, cr: BackupCR) {
    && cr.mariadb == inst.name && cr.waitForIt && ScheduleLabel !in cr.labels
    && PitrStorage(inst).OnePitr?
    && ResolveS3(s, PitrStorage(inst).config.storage, inst.name) ==
        (if cr.storage.Some? then ResolvedS3(cr.storage.value) else NotPresent)
  }

  lemma PitrRun(s: Store, env: Env, inst: Instance)
    requires inst.name in s.mariadbs && PitrReady(s, env, inst)
    ensures var p, t, key := PitrPlan(s, env, inst), After(s, PitrPlan(s, env, inst)), BaseKey(env, inst);
      && p.outcome == Done
      && t == s.(backups := t.backups, pitrs := t.pitrs)
      && (forall k | k != key :: SameAt(s, t, k))
      && (key in t.backups ==>
            if key in s.backups then SameIdentity(s.backups[key], t.backups[key]) else NewBase(s, inst, t.backups[key]))
      && PitrSettled(t, env, inst)
  {
    hide BaseName, PitrName, BinlogPrefix, SetupPlan, TeardownPlan;
    match PitrStorage(inst)
    case TooManyPitr =>
    case NoPitr => TeardownRun(s, env, inst);
    case OnePitr(config) =>
      var schedule := FirstPhysical(config.schedules).schedule;
      SetupRun(s, env, inst, config, schedule);
      SetupSettles(s, env, inst, config, schedule, After(s, SetupPlan(s, env, inst, config.storage, schedule)));
  }

  lemma SetupSettles(s: Store, env: Env, inst: Instance, config: StorageConfig, schedule: Schedule, t: Store)
    requires PitrReady(s, env, inst)
    requires PitrStorage(inst) == OnePitr(config) && FirstPhysical(config.schedules) == BaseOn(schedule)
    requires ResolveS3(s, config.storage, inst.name).ResolvedS3?
             && ResolveS3(s, config.storage, BinlogPrefix(inst.name)).ResolvedS3?
    requires t == s.(backups := s.backups[BaseKey(env, inst) :=
                         NextBase(s, BaseKey(env, inst), inst, ResolveS3(s, config.storage, inst.name).s3,
                             BaseRetention(env, inst).value, schedule)
                           .(owner := Some(MariaDBOwner(inst.name)))],
                     pitrs := s.pitrs[PitrName(inst.name) :=
                         NextPitr(s, env, inst, ResolveS3(s, config.storage, BinlogPrefix(inst.name)).s3)])
    ensures PitrSettled(t, env, inst)
    ensures var key := BaseKey(env, inst);
      && (forall k | k != key :: SameAt(s, t, k))
      && key in t.backups
      && if key in s.backups then SameIdentity(s.backups[key], t.backups[key]) else NewBase(s, inst, t.backups[key])
  {
    hide BaseName, PitrName, BinlogPrefix, DeriveMaxRetention;
  }

  lemma TeardownRun(s: Store, env: Env, inst: Instance)
    ensures var p, t := TeardownPlan(s, env, inst), After(s, TeardownPlan(s, env, inst));
      p.outcome == Done
        && t == s.(backups := s.backups - {BaseKey(env, inst)}, pitrs := s.pitrs - {PitrName(inst.name)})
  {
    hide BaseName, PitrName;
    var p := DeletePitrPlan(s, inst);
    AfterThen(s, p, DeletePlan(After(s, p), BaseKey(env, inst)));
    AfterWrite(s, DeletePitr(PitrName(inst.name)), Done);
    AfterDelete(After(s, p), BaseKey(env, inst));
    if PitrName(inst.name) !in s.pitrs { assert s.pitrs - {PitrName(inst.name)} == s.pitrs; }
  }

  lemma SetupRun(s: Store, env: Env, inst: Instance, config: StorageConfig, schedule: Schedule)
    requires inst.name in s.mariadbs && PitrReady(s, env, inst)
    requires PitrStorage(inst) == OnePitr(config) && FirstPhysical(config.schedules) == BaseOn(schedule)
    ensures var p := SetupPlan(s, env, inst, config.storage, schedule);
      var key, name := BaseKey(env, inst), PitrName(inst.name);
      var t := After(s, p);
      && p.outcome == Done
      && ResolveS3(s, config.storage, inst.name).ResolvedS3?
      && ResolveS3(s, config.storage, BinlogPrefix(inst.name)).ResolvedS3?
      && t == s.(backups :=
          s.backups[key :=
              NextBase(s, key, inst, ResolveS3(s, config.storage, inst.name).s3, BaseRetention(env, inst).value,
                  schedule)
                                               .(owner := Some(MariaDBOwner(inst.name)))],
                 pitrs := s.pitrs[name :=
                     NextPitr(s, env, inst, ResolveS3(s, config.storage, BinlogPrefix(inst.name)).s3)])
  {
    hide BaseName, PitrName, BinlogPrefix;
    var key := BaseKey(env, inst);
    var p := BasePlan(s, env, inst, config.storage, schedule);
    AfterThen(s, p, PitrCRPlan(After(s, p), env, inst, config.storage));
    var next := NextBase(s, key, inst, ResolveS3(s, config.storage, inst.name).s3, BaseRetention(env, inst).value,
        schedule);
    AfterUpsert(s, key, next, MariaDBOwner(inst.name));
    var t := After(s, p);
    var pitr := NextPitr(t, env, inst, ResolveS3(t, config.storage, BinlogPrefix(inst.name)).s3);
    AfterWrite(t, PutPitr(PitrName(inst.name), pitr), Done);
    if PitrName(inst.name) in s.pitrs && s.pitrs[PitrName(inst.name)] == pitr {
      assert s.pitrs[PitrName(inst.name) := pitr] == s.pitrs;
    }
  }

  lemma PitrFixed(s: Store, env: Env, inst: Instance)
    requires inst.name in s.mariadbs && PitrReady(s, env, inst) && PitrSettled(s, env, inst)
    ensures PitrPlan(s, env, inst) == Stop(Done)
  {
    hide BaseName, PitrName, BinlogPrefix;
    match PitrStorage(inst)
    case TooManyPitr =>
    case NoPitr => assert After(s, Stop(Done)) == s;
    case OnePitr(config) =>
      var key, schedule := BaseKey(env, inst), FirstPhysical(config.schedules).schedule;
      var s3 := ResolveS3(s, config.storage, inst.name).s3;
      var next := NextBase(s, key, inst, s3, BaseRetention(env, inst).value, schedule);
      assert next.(owner := Some(MariaDBOwner(inst.name))) == s.backups[key];
      assert BasePlan(s, env, inst, config.storage, schedule) == Stop(Done);
      assert After(s, Stop(Done)) == s;
  }
}
