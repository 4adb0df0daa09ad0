/** What one Sync pass that succeeds leaves, all of it in the fields of the declaration
    (internal/provider/provider.go). */
module DeclaredSync {
  import opened Kube
  import opened Names
  import opened Plans
  import opened Instances
  import opened Schedules
  import opened Convergence
  import opened ScheduledPasses
  import opened PitrSync
  import opened TemplateSync
  import opened MariaDBSync
  import opened Provider
  import opened WholeSync
  import opened DeclaredPlaces
  import opened DeclaredRetention
  import opened DeclaredSchedules
  import opened DeclaredPasses
  import opened DeclaredPitr
  import opened DeclaredSeeds
  import opened DeclaredMariaDB

  /** Nobody has labelled the template or the PITR base as a scheduled backup of ours. */
  predicate NotMislabelled(s: Store, env: Env, inst: Instance) {
    forall key | key in {TemplateObject(inst), BaseObject(env, inst)} && key in s.backups ::
      !LabelledOurs(s.backups[key], inst)
  }

  /** The MariaDB is as declared: updated in place, or created with seed and Secrets. */
  ghost predicate MariaDBLeft(s: Store, t: Store, env: Env, inst: Instance) {
    if inst.name in s.mariadbs then
      t.secrets == s.secrets && Updated(s, s.(mariadbs := t.mariadbs), env.catalog, inst)
    else CreatedFrom(s, s.(mariadbs := t.mariadbs, secrets := t.secrets), env.catalog, inst)
  }

  /** The template is up on the first storage when it is asked for, and gone otherwise. */
  ghost predicate TemplateLeft(s: Store, t: Store, inst: Instance) {
    if TemplateAsked(inst) then TemplateUp(s, t, inst) else TemplateObject(inst) !in t.backups
  }

  /** Both PITR objects are up on the one storage that has it on, or both are gone. */
  ghost predicate PitrLeft(s: Store, t: Store, env: Env, inst: Instance) {
    && !TwoHavePitr(inst)
    && (NoneHasPitr(inst) ==> BaseObject(env, inst) !in t.backups && PitrObject(inst) !in t.pitrs)
    && (forall config | OnlyPitr(inst, config) :: exists k: nat :: SetUpOn(s, t, env, inst, config, k))
  }

  ghost predicate OtherMariaDBs(s: Store, t: Store, inst: Instance) {
    forall name | name != inst.name ::
      (name in t.mariadbs <==> name in s.mariadbs) && (name in s.mariadbs ==> t.mariadbs[name] == s.mariadbs[name])
  }

  /** Nothing but what is the Instance's own has changed. */
  ghost predicate OthersLeft(s: Store, t: Store, env: Env, inst: Instance) {
    && t == s.(mariadbs := t.mariadbs, secrets := t.secrets, backups := t.backups, pitrs := t.pitrs)
    && OtherMariaDBs(s, t, inst) && SecretsKept(s, t)
    && (forall name | name != PitrObject(inst) :: SamePitrAt(s, t, name))
    && forall key: Key | key !in {TemplateObject(inst), BaseObject(env, inst)} && !AskedName(env, inst, key.name) ::
         if key in s.backups && LabelledOurs(s.backups[key], inst) then key !in t.backups else SameAt(s, t, key)
  }

  lemma DerivedIsAsked(env: Env, inst: Instance, name: string)
    ensures Derived(env, inst, name) <==> AskedName(env, inst, name)
  {
    hide DeclaredAt, Declared;
    DeclaredAre(inst);
    if Derived(env, inst, name) {
      var e :| e in Declared(inst) && ScheduledName(env.digest, inst.name, e.schedule.name) == name;
      var i: nat, j: nat :| DeclaredAt(inst, i, j) && e == Entry(StorageAt(inst, i, j), ScheduleAt(inst, i, j));
    }
    if AskedName(env, inst, name) {
      var i: nat, j: nat :| DeclaredAt(inst, i, j) && name == ObjectName(env, inst, ScheduleAt(inst, i, j));
      assert Entry(StorageAt(inst, i, j), ScheduleAt(inst, i, j)) in Declared(inst);
    }
  }

  lemma SpecialApart(env: Env, inst: Instance)
    requires ValidEnv(env)
    ensures TemplateObject(inst) != BaseObject(env, inst)
    ensures !AskedName(env, inst, TemplateObject(inst).name) && !AskedName(env, inst, BaseObject(env, inst).name)
  {
    hide Derived, AskedName, ValidEnv;
    SpecialKeys(env, inst);
    DerivedIsAsked(env, inst, TemplateObject(inst).name);
    DerivedIsAsked(env, inst, BaseObject(env, inst).name);
  }

  /** The four stores of a pass that succeeds. */
  lemma SyncSteps(s: Store, env: Env, inst: Instance) returns (s1: Store, s2: Store, s3: Store)
    requires SyncPlan(s, env, inst).outcome == Done
    ensures s1 == After(s, MariaDBPlan(s, env, inst)) && MariaDBPlan(s, env, inst).outcome == Done
    ensures s2 == After(s1, TemplatePlan(s1, inst)) && TemplatePlan(s1, inst).outcome == Done
    ensures s3 == After(s2, SchedulesPlan(s2, env, inst)) && SchedulesPlan(s2, env, inst).outcome == Done
    ensures PitrPlan(s3, env, inst).outcome == Done
    ensures After(s, SyncPlan(s, env, inst)) == After(s3, PitrPlan(s3, env, inst))
  {
    hide MariaDBPlan, TemplatePlan, SchedulesPlan, PitrPlan, Replay;
    s1 := After(s, MariaDBPlan(s, env, inst));
    s2 := After(s1, TemplatePlan(s1, inst));
    s3 := After(s2, SchedulesPlan(s2, env, inst));
    SyncAfter(s, env, inst);
  }

  lemma MariaDBStepLeaves(s: Store, s1: Store, env: Env, inst: Instance)
    requires s1 == After(s, MariaDBPlan(s, env, inst)) && MariaDBPlan(s, env, inst).outcome == Done
    ensures MariaDBLeft(s, s1, env, inst)
    ensures s1 == s.(mariadbs := s1.mariadbs, secrets := s1.secrets) && inst.name in s1.mariadbs
    ensures !TwoHavePitr(inst)
    ensures OtherMariaDBs(s, s1, inst) && SecretsKept(s, s1)
  {
    MariaDBDecides(s, env, inst);
    hide MariaDBPlan, SpecAsked, TwoHavePitr, NoneHasPitr, UnknownBundle, SeedEnds, Replay;
    if inst.name in s.mariadbs {
      assert s.(mariadbs := s1.mariadbs) == s1;
    } else {
      assert s.(mariadbs := s1.mariadbs, secrets := s1.secrets) == s1;
    }
  }

  lemma TemplateStepLeaves(s1: Store, s2: Store, env: Env, inst: Instance)
    requires s2 == After(s1, TemplatePlan(s1, inst)) && TemplatePlan(s1, inst).outcome == Done
    requires ValidEnv(env) && inst.name in s1.mariadbs && NotMislabelled(s1, env, inst)
    ensures TemplateLeft(s1, s2, inst) && NotMislabelled(s2, env, inst)
    ensures s2 == s1.(backups := s2.backups) && forall key | key != TemplateObject(inst) :: SameAt(s1, s2, key)
  {
    SpecialApart(env, inst);
    TemplateDecides(s1, inst);
    hide TemplatePlan, AskedName, ValidEnv, PlacedOn, BaseObject, TemplateObject, Replay;
    assert SameAt(s1, s2, BaseObject(env, inst));
    if TemplateObject(inst) in s2.backups && TemplateObject(inst) in s1.backups {
      assert s2.backups[TemplateObject(inst)].labels == s1.backups[TemplateObject(inst)].labels;
    }
  }

  lemma SchedulesStepLeaves(s2: Store, s3: Store, env: Env, inst: Instance)
    requires s3 == After(s2, SchedulesPlan(s2, env, inst)) && SchedulesPlan(s2, env, inst).outcome == Done
    requires ValidEnv(env) && NamedApart(env, inst, Declared(inst)) && NotMislabelled(s2, env, inst)
    ensures PassLeaves(s2, s3, env, inst) && NotMislabelled(s3, env, inst)
    ensures SameAt(s2, s3, TemplateObject(inst)) && SameAt(s2, s3, BaseObject(env, inst))
  {
    SpecialApart(env, inst);
    PassDecides(s2, env, inst);
    hide SchedulesPlan, AskedName, ValidEnv, AsAsked, LeavesObject, Declared, AllEnd, StopsAt, Replay;
  }

  lemma PitrStepLeaves(s3: Store, t: Store, env: Env, inst: Instance)
    requires t == After(s3, PitrPlan(s3, env, inst)) && PitrPlan(s3, env, inst).outcome == Done
    requires ValidEnv(env) && AsAsked(s3, env, inst) && NotMislabelled(s3, env, inst) && !TwoHavePitr(inst)
    ensures OnlyPitrObjects(s3, t, env, inst) && PitrLeft(s3, t, env, inst) && AsAsked(t, env, inst)
  {
    PitrDecides(s3, env, inst);
    SpecialApart(env, inst);
    ConvergedIffAsAsked(s3, env, inst);
    ConvergedIffAsAsked(t, env, inst);
    BaseUnlabelled(s3, t, env, inst);
    hide PitrPlan, AskedName, ValidEnv, AsAsked, Converged, SetUpOn, NoneHasPitr, OnlyPitr, TwoHavePitr, BaseObject,
        OneEnds, Replay;
    forall key: Key | Derived(env, inst, key.name) ensures SameAt(s3, t, key) {
      DerivedIsAsked(env, inst, key.name);
    }
    forall key: Key | Ours(t.backups, inst, key) ensures Ours(s3.backups, inst, key) {
      assert key != BaseObject(env, inst);
      assert SameAt(s3, t, key);
    }
    SchedulesLeft(s3, t, env, inst);
  }

  lemma BaseUnlabelled(s3: Store, t: Store, env: Env, inst: Instance)
    requires NotMislabelled(s3, env, inst) && !TwoHavePitr(inst)
    requires NoneHasPitr(inst) ==> BaseObject(env, inst) !in t.backups
    requires forall config | OnlyPitr(inst, config) :: exists k: nat :: SetUpOn(s3, t, env, inst, config, k)
    ensures !Ours(t.backups, inst, BaseObject(env, inst))
  {
    PitrStorageIff(inst);
    hide NoneHasPitr, OnlyPitr, TwoHavePitr, PitrStorage, BaseObject, PlacedOn, KeptFor, FirstPhysicalAt, PitrUp;
    if PitrStorage(inst).OnePitr? {
      var config := PitrStorage(inst).config;
      var k: nat :| SetUpOn(s3, t, env, inst, config, k);
    }
  }

  /** One Sync pass that succeeds, whatever the store was: the MariaDB, its credentials,
      the replica template, every scheduled backup and both PITR objects are as the
      declaration asks, and nothing else has changed. */
  lemma SyncLeaves(s: Store, env: Env, inst: Instance)
    requires ValidEnv(env) && NamedApart(env, inst, Declared(inst)) && NotMislabelled(s, env, inst)
    requires SyncPlan(s, env, inst).outcome == Done
    ensures var t := After(s, SyncPlan(s, env, inst));
      && MariaDBLeft(s, t, env, inst) && TemplateLeft(s, t, inst) && AsAsked(t, env, inst)
      && PitrLeft(s, t, env, inst) && OthersLeft(s, t, env, inst)
  {
    hide SyncPlan, MariaDBPlan, TemplatePlan, SchedulesPlan, PitrPlan, ValidEnv, Declared, After, MariaDBLeft,
        TemplateLeft, AsAsked, PitrLeft, PassLeaves, OnlyPitrObjects, OthersLeft, TwoHavePitr;
    var s1, s2, s3 := SyncSteps(s, env, inst);
    var t := After(s, SyncPlan(s, env, inst));
    MariaDBStepLeaves(s, s1, env, inst);
    TemplateStepLeaves(s1, s2, env, inst);
    SchedulesStepLeaves(s2, s3, env, inst);
    assert AsAsked(s3, env, inst) by { PassAsked(s2, s3, env, inst); }
    PitrStepLeaves(s3, t, env, inst);
    SpecialApart(env, inst);
    StepsTogether(s, s1, s2, s3, t, env, inst);
  }

  lemma PassAsked(s2: Store, s3: Store, env: Env, inst: Instance)
    requires PassLeaves(s2, s3, env, inst)
    ensures AsAsked(s3, env, inst)
  {
    hide AsAsked, LeavesObject;
  }

  lemma StepsTogether(s: Store, s1: Store, s2: Store, s3: Store, t: Store, env: Env, inst: Instance)
    requires s1 == s.(mariadbs := s1.mariadbs, secrets := s1.secrets) && s2 == s1.(backups := s2.backups)
    requires MariaDBLeft(s, s1, env, inst) && TemplateLeft(s1, s2, inst) && PassLeaves(s2, s3, env, inst)
    requires PitrLeft(s3, t, env, inst) && OnlyPitrObjects(s3, t, env, inst)
    requires forall key | key != TemplateObject(inst) :: SameAt(s1, s2, key)
    requires SameAt(s2, s3, TemplateObject(inst)) && SameAt(s2, s3, BaseObject(env, inst))
    requires TemplateObject(inst) != BaseObject(env, inst)
    requires OtherMariaDBs(s, s1, inst) && SecretsKept(s, s1)
    ensures MariaDBLeft(s, t, env, inst) && TemplateLeft(s, t, inst)
    ensures PitrLeft(s, t, env, inst) && OthersLeft(s, t, env, inst)
  {
    OthersThrough(s, s1, s2, s3, t, env, inst);
    hide MariaDBLeft, TemplateLeft, PitrLeft, AsAsked, LeavesObject, AskedName, OthersLeft, BaseObject, TemplateObject,
        OtherMariaDBs, SecretsKept;
    SameMariaDB(s, s1, t, env, inst);
    assert SameAt(s3, t, TemplateObject(inst)) && SameAt(s1, s2, BaseObject(env, inst));
    TemplateThrough(s, s1, s2, t, inst);
    PitrThrough(s, s3, t, env, inst);
  }

  lemma SameMariaDB(s: Store, s1: Store, t: Store, env: Env, inst: Instance)
    requires MariaDBLeft(s, s1, env, inst) && t.mariadbs == s1.mariadbs && t.secrets == s1.secrets
    ensures MariaDBLeft(s, t, env, inst)
  {
    hide Updated, CreatedFrom;
  }

  lemma TemplateThrough(s: Store, s1: Store, s2: Store, t: Store, inst: Instance)
    requires TemplateLeft(s1, s2, inst) && SameAt(s2, t, TemplateObject(inst))
    requires s1.backups == s.backups && s1.storages == s.storages
    ensures TemplateLeft(s, t, inst)
  {
    hide PointsAt;
  }

  lemma PitrThrough(s: Store, s3: Store, t: Store, env: Env, inst: Instance)
    requires PitrLeft(s3, t, env, inst) && s3.storages == s.storages && s3.pitrs == s.pitrs
    requires SameAt(s, s3, BaseObject(env, inst))
    ensures PitrLeft(s, t, env, inst)
  {
    hide NoneHasPitr, OnlyPitr, TwoHavePitr, FirstPhysicalAt, BaseObject, PitrObject;
    forall config | OnlyPitr(inst, config) ensures exists k: nat :: SetUpOn(s, t, env, inst, config, k) {
      var k: nat :| SetUpOn(s3, t, env, inst, config, k);
      SetUpAlike(s, s3, t, env, inst, config, k);
    }
  }

  lemma SetUpAlike(s: Store, s3: Store, t: Store, env: Env, inst: Instance, config: StorageConfig, k: nat)
    requires SetUpOn(s3, t, env, inst, config, k)
    requires s3.storages == s.storages && s3.pitrs == s.pitrs && SameAt(s, s3, BaseObject(env, inst))
    ensures SetUpOn(s, t, env, inst, config, k)
  {
    hide FirstPhysicalAt, BaseObject, PitrObject, PointsAt, KeptFor;
  }

  lemma OthersThrough(s: Store, s1: Store, s2: Store, s3: Store, t: Store, env: Env, inst: Instance)
    requires s1 == s.(mariadbs := s1.mariadbs, secrets := s1.secrets) && s2 == s1.(backups := s2.backups)
    requires PassLeaves(s2, s3, env, inst) && OnlyPitrObjects(s3, t, env, inst)
    requires forall key | key != TemplateObject(inst) :: SameAt(s1, s2, key)
    requires OtherMariaDBs(s, s1, inst) && SecretsKept(s, s1)
    ensures OthersLeft(s, t, env, inst)
  {
    hide AskedName, AsAsked, LeavesObject, BaseObject, TemplateObject, PitrObject;
    forall name | name != PitrObject(inst) ensures SamePitrAt(s, t, name) {
      assert SamePitrAt(s3, t, name);
    }
    forall key: Key | key !in {TemplateObject(inst), BaseObject(env, inst)} && !AskedName(env, inst, key.name)
      ensures if key in s.backups && LabelledOurs(s.backups[key], inst) then key !in t.backups else SameAt(s, t, key)
    {
      assert SameAt(s1, s2, key) && SameAt(s3, t, key);
    }
  }
}
