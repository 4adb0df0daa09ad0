/** The reference chain of point-in-time recovery: a MariaDB never references a
    PointInTimeRecovery that does not exist, nor that one a missing base backup,
    after any write of any run. */
module PitrChain {
  import opened Kube
  import opened Names
  import opened Plans
  import opened Instances
  import opened ClusterApi
  import opened Schedules
  import opened ScheduledPasses
  import opened ScheduledRuns
  import opened PitrSync
  import opened TemplateSync
  import opened Seeding
  import opened MariaDBSync
  import opened Provider
  import Convergence

  function BaseOf(digest: Digest, i: string): Key {
    Key(Physical, BaseName(digest, i))
  }

  predicate References(s: Store, i: string) {
    i in s.mariadbs && s.mariadbs[i].spec.pitrRef.Some?
  }

  /** The chain of Instance i: reference, PITR object, base backup. The base is not
      mistaken for a scheduled backup. */
  predicate Linked(digest: Digest, i: string, s: Store) {
    && (References(s, i) ==> s.mariadbs[i].spec.pitrRef == Some(PitrName(i)) && PitrName(i) in s.pitrs)
    && (PitrName(i) in s.pitrs ==> s.pitrs[PitrName(i)].base == BaseName(digest, i) && BaseOf(digest, i) in s.backups)
    && (BaseOf(digest, i) in s.backups ==> ScheduleLabel !in s.backups[BaseOf(digest, i)].labels)
  }

  // ----- writes that cannot affect the chain ----------------------------------

  predicate Harmless(digest: Digest, i: string, w: Write) {
    match w
    case PutBackup(key, _) => key != BaseOf(digest, i)
    case DeleteBackup(key) => key != BaseOf(digest, i)
    case ApplyMariaDB(name, _) => name != i
    case PutPitr(name, _) => name != PitrName(i)
    case DeletePitr(name) => name != PitrName(i)
    case CreateSecret(_, _) => true
    case PutRestore(_, _) => true
    case DeleteRestore(_) => true
  }

  ghost predicate AllHarmless(digest: Digest, i: string, ws: seq<Write>) {
    forall n | 0 <= n < |ws| :: Harmless(digest, i, ws[n])
  }

  /** The objects of the chain are as they were. */
  predicate SameLinks(digest: Digest, i: string, s: Store, x: Store) {
    && (i in s.mariadbs <==> i in x.mariadbs) && (i in s.mariadbs ==> s.mariadbs[i].spec == x.mariadbs[i].spec)
    && (PitrName(i) in s.pitrs <==> PitrName(i) in x.pitrs)
    && (PitrName(i) in s.pitrs ==> s.pitrs[PitrName(i)] == x.pitrs[PitrName(i)])
    && Convergence.SameAt(s, x, BaseOf(digest, i))
  }

  lemma HarmlessWrite(digest: Digest, i: string, s: Store, x: Store, w: Write)
    requires SameLinks(digest, i, s, x) && Harmless(digest, i, w)
    ensures SameLinks(digest, i, s, Performed(x, w))
  {
    hide BaseName, PitrName;
  }

  lemma SameLinksLinked(digest: Digest, i: string, s: Store, x: Store)
    requires Linked(digest, i, s) && SameLinks(digest, i, s, x)
    ensures Linked(digest, i, x)
  {
    hide BaseName, PitrName;
  }

  lemma {:induction false} HarmlessWrites(digest: Digest, i: string, s: Store, x: Store, ws: seq<Write>)
    requires Linked(digest, i, s) && SameLinks(digest, i, s, x) && AllHarmless(digest, i, ws)
    ensures Throughout(y => Linked(digest, i, y), x, ws)
    ensures SameLinks(digest, i, s, Replay(x, ws))
    decreases |ws|
  {
    hide Linked, SameLinks, Harmless, Performed;
    SameLinksLinked(digest, i, s, x);
    if ws != [] {
      assert Harmless(digest, i, ws[0]);
      HarmlessWrite(digest, i, s, x, ws[0]);
      HarmlessWrites(digest, i, s, Performed(x, ws[0]), ws[1..]);
    }
  }

  lemma ThenHarmless(digest: Digest, i: string, p: Plan, q: Plan)
    requires AllHarmless(digest, i, p.writes) && AllHarmless(digest, i, q.writes)
    ensures AllHarmless(digest, i, Then(p, q).writes)
  {
  }

  // ----- what each step does to the chain -------------------------------------

  /** Scheduled-backup passes of any Instance leave every chain alone. */
  lemma SchedulesHarmless(s: Store, env: Env, inst: Instance, i: string)
    requires ValidEnv(env) && Linked(env.digest, i, s)
    ensures AllHarmless(env.digest, i, SchedulesPlan(s, env, inst).writes)
  {
    PassFrame(s, env, inst);
    var ws := SchedulesPlan(s, env, inst).writes;
    forall n | 0 <= n < |ws| ensures Harmless(env.digest, i, ws[n]) {
      assert Touches(s, env, inst, ws[n]);
      if Derived(env, inst, ws[n].key.name) {
        var e :| e in Declared(inst) && ScheduledName(env.digest, inst.name, e.schedule.name) == ws[n].key.name;
        NameSpacesDisjoint(env.digest, inst.name, e.schedule.name, i, i);
      }
    }
  }

  lemma TemplateHarmless(s: Store, env: Env, inst: Instance, i: string)
    requires ValidEnv(env)
    ensures AllHarmless(env.digest, i, TemplatePlan(s, inst).writes)
  {
    NameSpacesDisjoint(env.digest, "", "", i, inst.name);
  }

  lemma CredentialsHarmless(s: Store, digest: Digest, inst: Instance, source: string, i: string)
    ensures AllHarmless(digest, i, CredentialsPlan(s, inst, source).writes)
  {
    var p := CopyPlan(s, RootSecretName(source), RootSecretName(inst.name));
    ThenHarmless(digest, i, p, CopyPlan(After(s, p), UserSecretName(source), UserSecretName(inst.name)));
  }

  /** Another Instance's pass. */
  lemma OthersHarmless(s: Store, env: Env, inst: Instance, i: string)
    requires ValidEnv(env) && Linked(env.digest, i, s)
    requires i != inst.name && BaseName(env.digest, i) != BaseName(env.digest, inst.name)
    ensures AllHarmless(env.digest, i, SyncPlan(s, env, inst).writes)
  {
    hide SchedulesPlan, TemplatePlan;
    PitrNamesDiffer(i, inst.name);
    var p := MariaDBPlan(s, env, inst);
    OthersMariaDB(s, env, inst, i);
    var s1 := After(s, p);
    HarmlessWrites(env.digest, i, s, s, p.writes);
    ThroughoutEnds(y => Linked(env.digest, i, y), s, p.writes);
    var q := TemplatePlan(s1, inst);
    TemplateHarmless(s1, env, inst, i);
    HarmlessWrites(env.digest, i, s1, s1, q.writes);
    ThroughoutEnds(y => Linked(env.digest, i, y), s1, q.writes);
    var s2 := After(s1, q);
    var r := SchedulesPlan(s2, env, inst);
    SchedulesHarmless(s2, env, inst, i);
    OthersPitr(After(s2, r), env, inst, i);
    ThenHarmless(env.digest, i, r, PitrPlan(After(s2, r), env, inst));
    ThenHarmless(env.digest, i, q, SyncTail(s2, env, inst));
    ThenHarmless(env.digest, i, p, SyncRest(s1, env, inst));
  }

  lemma OthersMariaDB(s: Store, env: Env, inst: Instance, i: string)
    requires i != inst.name
    ensures AllHarmless(env.digest, i, MariaDBPlan(s, env, inst).writes)
  {
    match ResolveSeed(s, inst)
    case SeedFrom(bootstrap, source) => CredentialsHarmless(s, env.digest, inst, source, i);
    case _ =>
  }

  lemma OthersPitr(s: Store, env: Env, inst: Instance, i: string)
    requires PitrName(i) != PitrName(inst.name) && BaseName(env.digest, i) != BaseName(env.digest, inst.name)
    ensures AllHarmless(env.digest, i, PitrPlan(s, env, inst).writes)
  {
    hide BaseName, PitrName;
    match PitrStorage(inst)
    case TooManyPitr =>
    case NoPitr =>
    case OnePitr(config) =>
      match FirstPhysical(config.schedules) {
        case BaseOn(schedule) =>
          var p := BasePlan(s, env, inst, config.storage, schedule);
          ThenHarmless(env.digest, i, p, PitrCRPlan(After(s, p), env, inst, config.storage));
        case _ =>
      }
  }

  // ----- the Instance's own pass ----------------------------------------------

  /** Applying the MariaDB keeps the chain, and leaves no reference when PITR is off. */
  lemma OwnMariaDB(s: Store, env: Env, inst: Instance)
    requires Linked(env.digest, inst.name, s)
    ensures var p := MariaDBPlan(s, env, inst);
      && Throughout(y => Linked(env.digest, inst.name, y), s, p.writes)
      && (p.outcome.Done? ==> inst.name in After(s, p).mariadbs && !PitrStorage(inst).TooManyPitr? &&
                              (PitrStorage(inst).NoPitr? ==> !References(After(s, p), inst.name)))
  {
    hide Linked, References, DesiredPitrRef;
    if DeployedImage(env.catalog, inst).Some? && !PitrStorage(inst).TooManyPitr? {
      var spec := DesiredSpec(s, inst, DeployedImage(env.catalog, inst).value);
      if inst.name in s.mariadbs {
        OwnApply(s, env, inst, Redeclared(s.mariadbs[inst.name].spec, spec));
      } else {
        OwnCreate(s, env, inst, spec);
      }
    }
  }

  lemma OwnCreate(s: Store, env: Env, inst: Instance, spec: MariaDBSpec)
    requires Linked(env.digest, inst.name, s) && spec.pitrRef == DesiredPitrRef(s, inst)
    ensures var p := CreatePlan(s, inst, spec);
      && Throughout(y => Linked(env.digest, inst.name, y), s, p.writes)
      && (p.outcome.Done? ==> inst.name in After(s, p).mariadbs &&
                              (PitrStorage(inst).NoPitr? ==> !References(After(s, p), inst.name)))
  {
    hide Linked, References, BootstrapTree, AppliedTree, CredentialsPlan;
    var inv := y => Linked(env.digest, inst.name, y);
    match ResolveSeed(s, inst)
    case SeedStop(_) =>
    case NoSeed => OwnApply(s, env, inst, spec);
    case SeedFrom(bootstrap, source) =>
      var c := CredentialsPlan(s, inst, source);
      CredentialsHarmless(s, env.digest, inst, source, inst.name);
      SameLinksSelf(env.digest, inst.name, s);
      HarmlessWrites(env.digest, inst.name, s, s, c.writes);
      ThroughoutEnds(inv, s, c.writes);
      CredentialsKeepPitrs(s, inst, source);
      var spec' := spec.(bootstrapFrom := AppliedTree(Some(BootstrapTree(bootstrap))));
      OwnApply(After(s, c), env, inst, spec');
      ThroughoutThen(inv, s, c, ApplyPlan(inst, spec'));
      AfterThen(s, c, ApplyPlan(inst, spec'));
  }

  lemma SameLinksSelf(digest: Digest, i: string, s: Store)
    ensures SameLinks(digest, i, s, s)
  {
  }

  lemma CredentialsKeepPitrs(s: Store, inst: Instance, source: string)
    ensures var t := After(s, CredentialsPlan(s, inst, source)); t == s.(secrets := t.secrets)
  {
    var p := CopyPlan(s, RootSecretName(source), RootSecretName(inst.name));
    var q := CopyPlan(After(s, p), UserSecretName(source), UserSecretName(inst.name));
    AfterThen(s, p, q);
    CopyKeeps(s, RootSecretName(source), RootSecretName(inst.name));
    CopyKeeps(After(s, p), UserSecretName(source), UserSecretName(inst.name));
  }

  lemma CopyKeeps(s: Store, src: string, dst: string)
    ensures var t := After(s, CopyPlan(s, src, dst)); t == s.(secrets := t.secrets)
  {
    if dst !in s.secrets && src in s.secrets {
      AfterWrite(s, CreateSecret(dst, s.secrets[src]), Done);
    }
  }

  lemma OwnApply(s: Store, env: Env, inst: Instance, spec: MariaDBSpec)
    requires Linked(env.digest, inst.name, s) && spec.pitrRef == DesiredPitrRef(s, inst)
    ensures Throughout(y => Linked(env.digest, inst.name, y), s, ApplyPlan(inst, spec).writes)
    ensures inst.name in After(s, ApplyPlan(inst, spec)).mariadbs
    ensures PitrStorage(inst).NoPitr? ==> !References(After(s, ApplyPlan(inst, spec)), inst.name)
  {
    hide BaseName, PitrName;
    AfterWrite(s, ApplyMariaDB(inst.name, spec), Done);
    var t := Performed(s, ApplyMariaDB(inst.name, spec));
    assert Linked(env.digest, inst.name, t);
    assert ApplyPlan(inst, spec).writes[1..] == [];
  }

  /** Setting PITR up: base first, then the object that references it. Tearing it
      down: the other way round, once no MariaDB references it. */
  lemma OwnPitr(s: Store, env: Env, inst: Instance)
    requires Linked(env.digest, inst.name, s)
    requires PitrStorage(inst).NoPitr? ==> !References(s, inst.name)
    ensures Throughout(y => Linked(env.digest, inst.name, y), s, PitrPlan(s, env, inst).writes)
  {
    var inv := y => Linked(env.digest, inst.name, y);
    match PitrStorage(inst)
    case TooManyPitr =>
    case NoPitr =>
      var p := DeletePitrPlan(s, inst);
      AfterWrite(s, DeletePitr(PitrName(inst.name)), Done);
      assert Throughout(inv, s, p.writes);
      var t := After(s, p);
      assert PitrName(inst.name) !in t.pitrs;
      assert Throughout(inv, t, DeletePlan(t, BaseKey(env, inst)).writes);
      ThroughoutThen(inv, s, p, DeletePlan(t, BaseKey(env, inst)));
    case OnePitr(config) =>
      match FirstPhysical(config.schedules) {
        case BaseOn(schedule) =>
          if inst.name in s.mariadbs { OwnSetup(s, env, inst, config.storage, schedule); }
        case _ =>
      }
  }

  lemma OwnSetup(s: Store, env: Env, inst: Instance, storage: string, schedule: Schedule)
    requires Linked(env.digest, inst.name, s)
    ensures Throughout(y => Linked(env.digest, inst.name, y), s, SetupPlan(s, env, inst, storage, schedule).writes)
  {
    hide BaseName, PitrName, BasePlan, PitrCRPlan, Linked, Replay, Throughout;
    var inv := y => Linked(env.digest, inst.name, y);
    var p := BasePlan(s, env, inst, storage, schedule);
    var t := After(s, p);
    OwnBase(s, env, inst, storage, schedule);
    if p.outcome.Done? {
      var q := PitrCRPlan(t, env, inst, storage);
      OwnPutPitr(t, env, inst, storage);
      ThroughoutThen(inv, s, p, q);
    }
  }

  lemma OwnPutPitr(t: Store, env: Env, inst: Instance, storage: string)
    requires Linked(env.digest, inst.name, t) && BaseOf(env.digest, inst.name) in t.backups
    ensures Throughout(y => Linked(env.digest, inst.name, y), t, PitrCRPlan(t, env, inst, storage).writes)
  {
    hide BaseName, PitrName, ResolveS3, BinlogPrefix;
    var ws := PitrCRPlan(t, env, inst, storage).writes;
    if ws != [] {
      assert Linked(env.digest, inst.name, Performed(t, ws[0]));
      assert ws[1..] == [];
    }
  }

  lemma OwnBase(s: Store, env: Env, inst: Instance, storage: string, schedule: Schedule)
    requires Linked(env.digest, inst.name, s)
    ensures var p := BasePlan(s, env, inst, storage, schedule);
      && Throughout(y => Linked(env.digest, inst.name, y), s, p.writes)
      && Linked(env.digest, inst.name, After(s, p))
      && (p.outcome.Done? ==> BaseOf(env.digest, inst.name) in After(s, p).backups)
  {
    hide BaseName, PitrName;
    var inv := y => Linked(env.digest, inst.name, y);
    var p := BasePlan(s, env, inst, storage, schedule);
    if p.writes != [] {
      AfterWrite(s, p.writes[0], Done);
      assert p.writes == [p.writes[0]];
      assert Linked(env.digest, inst.name, Performed(s, p.writes[0]));
      assert p.writes[1..] == [];
    } else {
      assert After(s, p) == s;
    }
  }

  lemma OwnPass(s: Store, env: Env, inst: Instance)
    requires ValidEnv(env) && Linked(env.digest, inst.name, s)
    ensures Throughout(y => Linked(env.digest, inst.name, y), s, SyncPlan(s, env, inst).writes)
  {
    hide MariaDBPlan, TemplatePlan, SchedulesPlan, PitrPlan;
    var i, inv := inst.name, y => Linked(env.digest, inst.name, y);
    var p := MariaDBPlan(s, env, inst);
    OwnMariaDB(s, env, inst);
    ThroughoutEnds(inv, s, p.writes);
    var s1 := After(s, p);
    if p.outcome.Done? {
      OwnRest(s1, env, inst);
    }
    ThroughoutThen(inv, s, p, SyncRest(s1, env, inst));
  }

  lemma OwnRest(s: Store, env: Env, inst: Instance)
    requires ValidEnv(env) && Linked(env.digest, inst.name, s)
    requires PitrStorage(inst).NoPitr? ==> !References(s, inst.name)
    ensures Throughout(y => Linked(env.digest, inst.name, y), s, SyncRest(s, env, inst).writes)
  {
    hide TemplatePlan, SchedulesPlan, PitrPlan;
    var inv := y => Linked(env.digest, inst.name, y);
    var q := TemplatePlan(s, inst);
    TemplateHarmless(s, env, inst, inst.name);
    HarmlessWrites(env.digest, inst.name, s, s, q.writes);
    ThroughoutEnds(inv, s, q.writes);
    var s2 := After(s, q);
    var r := SchedulesPlan(s2, env, inst);
    SchedulesHarmless(s2, env, inst, inst.name);
    HarmlessWrites(env.digest, inst.name, s2, s2, r.writes);
    ThroughoutEnds(inv, s2, r.writes);
    OwnPitr(After(s2, r), env, inst);
    ThroughoutThen(inv, s2, r, PitrPlan(After(s2, r), env, inst));
    ThroughoutThen(inv, s, q, SyncTail(s2, env, inst));
  }

  /** After every write of a pass of any Instance, every chain is intact. */
  lemma {:induction false} PassKeepsChain(s: Store, env: Env, inst: Instance, instances: set<string>, i: string)
    requires ValidEnv(env) && BasesDistinguished(env.digest, instances)
    requires inst.name in instances && i in instances && Linked(env.digest, i, s)
    ensures Throughout(y => Linked(env.digest, i, y), s, SyncPlan(s, env, inst).writes)
  {
    if i == inst.name {
      OwnPass(s, env, inst);
    } else {
      BaseNamesDiffer(env.digest, i, inst.name);
      OthersHarmless(s, env, inst, i);
      HarmlessWrites(env.digest, i, s, s, SyncPlan(s, env, inst).writes);
    }
  }
}
