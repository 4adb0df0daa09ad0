/** Seeding under crashes and retries: the order in which a seeded MariaDB and its
    credentials come into being, and what never changes afterwards. */
module SeedingRuns {
  import opened Json
  import opened Kube
  import opened Names
  import opened Plans
  import opened Instances
  import opened ClusterApi
  import opened Schedules
  import opened ScheduledPasses
  import opened ScheduledRuns
  import opened PitrSync
  import opened TemplateSync
  import opened Seeding
  import opened MariaDBSync
  import opened Provider

  // ----- only the first step writes MariaDBs and Secrets ----------------------

  predicate Quiet(w: Write) {
    w.PutBackup? || w.DeleteBackup? || w.PutPitr? || w.DeletePitr?
  }

  ghost predicate AllQuiet(ws: seq<Write>) {
    forall n | 0 <= n < |ws| :: Quiet(ws[n])
  }

  lemma ThenQuiet(p: Plan, q: Plan)
    requires AllQuiet(p.writes) && (p.outcome.Done? ==> AllQuiet(q.writes))
    ensures AllQuiet(Then(p, q).writes)
  {
    hide Quiet;
  }

  lemma RestIsQuiet(s: Store, env: Env, inst: Instance)
    requires ValidEnv(env)
    ensures AllQuiet(SyncRest(s, env, inst).writes)
  {
    hide TemplatePlan, SchedulesPlan, PitrPlan, AllQuiet, Then, ValidEnv, Replay;
    var q := TemplatePlan(s, inst);
    var s2 := After(s, q);
    var r := SchedulesPlan(s2, env, inst);
    var u := PitrPlan(After(s2, r), env, inst);
    TemplateQuiet(s, inst);
    SchedulesQuiet(s2, env, inst);
    PitrQuiet(After(s2, r), env, inst);
    ThenQuiet(r, u);
    ThenQuiet(q, Then(r, u));
  }

  lemma TemplateQuiet(s: Store, inst: Instance)
    ensures AllQuiet(TemplatePlan(s, inst).writes)
  {
    hide TemplateName, ReplicaPrefix, NextTemplate, ResolveS3;
  }

  lemma SchedulesQuiet(s: Store, env: Env, inst: Instance)
    requires ValidEnv(env)
    ensures AllQuiet(SchedulesPlan(s, env, inst).writes)
  {
    hide SchedulesPlan, Derived, ValidEnv;
    PassFrame(s, env, inst);
    var ws := SchedulesPlan(s, env, inst).writes;
    forall n | 0 <= n < |ws| ensures Quiet(ws[n]) {
      assert Touches(s, env, inst, ws[n]);
    }
  }

  lemma PitrQuiet(s: Store, env: Env, inst: Instance)
    ensures AllQuiet(PitrPlan(s, env, inst).writes)
  {
    hide BaseName, PitrName, BasePlan, PitrCRPlan, DeletePitrPlan, DeletePlan, AllQuiet, Then, Replay;
    match PitrStorage(inst)
    case TooManyPitr => NothingQuiet();
    case NoPitr =>
      var p := DeletePitrPlan(s, inst);
      PitrWritesQuiet(s, env, inst, "");
      DeleteQuiet(After(s, p), BaseKey(env, inst));
      ThenQuiet(p, DeletePlan(After(s, p), BaseKey(env, inst)));
    case OnePitr(config) =>
      NothingQuiet();
      match FirstPhysical(config.schedules)
      case BaseOn(schedule) =>
        var p := BasePlan(s, env, inst, config.storage, schedule);
        BaseQuiet(s, env, inst, config.storage, schedule);
        PitrWritesQuiet(After(s, p), env, inst, config.storage);
        ThenQuiet(p, PitrCRPlan(After(s, p), env, inst, config.storage));
      case _ =>
  }

  lemma NothingQuiet()
    ensures AllQuiet([])
  {
  }

  lemma PitrWritesQuiet(s: Store, env: Env, inst: Instance, storage: string)
    ensures AllQuiet(PitrCRPlan(s, env, inst, storage).writes) && AllQuiet(DeletePitrPlan(s, inst).writes)
  {
    hide PitrName, ResolveS3, NextPitr, BinlogPrefix;
  }

  lemma DeleteQuiet(s: Store, key: Key)
    ensures AllQuiet(DeletePlan(s, key).writes)
  {
  }

  lemma BaseQuiet(s: Store, env: Env, inst: Instance, storage: string, schedule: Schedule)
    ensures AllQuiet(BasePlan(s, env, inst, storage, schedule).writes)
  {
    hide BaseName, ResolveS3, NextBase;
  }

  // ----- the seeded creation --------------------------------------------------

  /** The source is there and finished: a Backup that succeeded, or a PITR object. */
  predicate SourceReady(s: Store, inst: Instance) {
    match inst.dataSource
    case Some(FromBackup(Some(name))) => name in s.everestBackups && s.everestBackups[name].state == StateSucceeded
    case Some(FromPointInTime(Some(pit))) => pit.instanceRef.Some? && PitrName(pit.instanceRef.value) in s.pitrs
    case _ => false
  }

  function SourceOf(s: Store, inst: Instance): string {
    match ResolveSeed(s, inst)
    case SeedFrom(_, source) => source
    case _ => ""
  }

  predicate CredentialsPresent(s: Store, instance: string) {
    RootSecretName(instance) in s.secrets && UserSecretName(instance) in s.secrets
  }

  /** What must be true just before each write of the step. */
  predicate WriteInOrder(s: Store, inst: Instance, before: Store, w: Write) {
    match w
    case ApplyMariaDB(name, spec) =>
      && name == inst.name
      && (name !in s.mariadbs && spec.bootstrapFrom.Some? ==>
            SourceReady(before, inst) && CredentialsPresent(before, inst.name))
    case CreateSecret(dst, secret) =>
      && dst !in before.secrets
      && SourceReady(before, inst)
      && var source := SourceOf(s, inst);
         || (dst == RootSecretName(inst.name) && RootSecretName(source) in before.secrets
            && secret == before.secrets[RootSecretName(source)])
         || (dst == UserSecretName(inst.name) && UserSecretName(source) in before.secrets
            && secret == before.secrets[UserSecretName(source)])
    case _ => Quiet(w)
  }

  ghost predicate InOrder(s: Store, inst: Instance, x: Store, ws: seq<Write>)
    decreases |ws|
  {
    ws != [] ==> WriteInOrder(s, inst, x, ws[0]) && InOrder(s, inst, Performed(x, ws[0]), ws[1..])
  }

  lemma {:induction false} InOrderConcat(s: Store, inst: Instance, x: Store, a: seq<Write>, b: seq<Write>)
    requires InOrder(s, inst, x, a) && InOrder(s, inst, Replay(x, a), b)
    ensures InOrder(s, inst, x, a + b)
    decreases |a|
  {
    hide WriteInOrder;
    if a == [] {
      assert a + b == b;
    } else {
      assert (a + b)[0] == a[0] && (a + b)[1..] == a[1..] + b;
      InOrderConcat(s, inst, Performed(x, a[0]), a[1..], b);
    }
  }

  lemma {:induction false} QuietInOrder(s: Store, inst: Instance, x: Store, ws: seq<Write>)
    requires AllQuiet(ws)
    ensures InOrder(s, inst, x, ws)
    decreases |ws|
  {
    if ws != [] {
      assert Quiet(ws[0]);
      QuietInOrder(s, inst, Performed(x, ws[0]), ws[1..]);
    }
  }

  lemma {:induction false} InOrderAt(s: Store, inst: Instance, x: Store, ws: seq<Write>, n: nat)
    requires InOrder(s, inst, x, ws) && n < |ws|
    ensures WriteInOrder(s, inst, Replay(x, ws[..n]), ws[n])
    decreases |ws|
  {
    hide WriteInOrder;
    if n > 0 {
      assert ws[..n][0] == ws[0] && ws[..n][1..] == ws[1..][..n - 1];
      InOrderAt(s, inst, Performed(x, ws[0]), ws[1..], n - 1);
    }
  }

  lemma CopyInOrder(s: Store, inst: Instance, x: Store, src: string, dst: string)
    requires SourceReady(x, inst)
    requires var source := SourceOf(s, inst);
             || (src == RootSecretName(source) && dst == RootSecretName(inst.name))
             || (src == UserSecretName(source) && dst == UserSecretName(inst.name))
    ensures var p, t := CopyPlan(x, src, dst), After(x, CopyPlan(x, src, dst));
      && InOrder(s, inst, x, p.writes)
      && t == x.(secrets := t.secrets) && x.secrets.Keys <= t.secrets.Keys
      && (p.outcome.Done? ==> dst in t.secrets)
  {
    hide RootSecretName, UserSecretName, SourceOf, SourceReady;
    var p := CopyPlan(x, src, dst);
    if dst !in x.secrets && src in x.secrets {
      AfterWrite(x, CreateSecret(dst, x.secrets[src]), Done);
      assert p.writes[1..] == [];
    } else {
      assert After(x, p) == x;
    }
  }

  lemma CreateInOrder(s: Store, inst: Instance, spec: MariaDBSpec)
    requires spec.bootstrapFrom == None
    ensures InOrder(s, inst, s, CreatePlan(s, inst, spec).writes)
  {
    hide RootSecretName, UserSecretName, PitrName, BootstrapTree;
    match ResolveSeed(s, inst)
    case SeedStop(_) =>
    case NoSeed => ApplyInOrder(s, inst, s, spec);
    case SeedFrom(bootstrap, source) =>
      assert SourceReady(s, inst);
      CreateSeeded(s, inst, spec.(bootstrapFrom := AppliedTree(Some(BootstrapTree(bootstrap)))), source);
  }

  lemma ApplyInOrder(s: Store, inst: Instance, x: Store, spec: MariaDBSpec)
    requires spec.bootstrapFrom.Some? && inst.name !in s.mariadbs ==>
            SourceReady(x, inst) && CredentialsPresent(x, inst.name)
    ensures InOrder(s, inst, x, ApplyPlan(inst, spec).writes)
  {
    hide RootSecretName, UserSecretName, PitrName;
    assert ApplyPlan(inst, spec).writes[1..] == [];
  }

  lemma CreateSeeded(s: Store, inst: Instance, spec: MariaDBSpec, source: string)
    requires source == SourceOf(s, inst) && SourceReady(s, inst)
    ensures InOrder(s, inst, s, Then(CredentialsPlan(s, inst, source), ApplyPlan(inst, spec)).writes)
  {
    hide RootSecretName, UserSecretName, PitrName, SourceOf;
    var p := CopyPlan(s, RootSecretName(source), RootSecretName(inst.name));
    CopyInOrder(s, inst, s, RootSecretName(source), RootSecretName(inst.name));
    var s1 := After(s, p);
    var q := CopyPlan(s1, UserSecretName(source), UserSecretName(inst.name));
    CopyInOrder(s, inst, s1, UserSecretName(source), UserSecretName(inst.name));
    var c := CredentialsPlan(s, inst, source);
    AfterThen(s, p, q);
    if p.outcome.Done? {
      InOrderConcat(s, inst, s, p.writes, q.writes);
      if q.outcome.Done? {
        ApplyInOrder(s, inst, After(s1, q), spec);
        InOrderConcat(s, inst, s, c.writes, ApplyPlan(inst, spec).writes);
      }
    }
  }

  lemma MariaDBInOrder(s: Store, env: Env, inst: Instance)
    ensures InOrder(s, inst, s, MariaDBPlan(s, env, inst).writes)
  {
    hide WriteInOrder, CreatePlan;
    if DeployedImage(env.catalog, inst).Some? && !PitrStorage(inst).TooManyPitr? {
      var spec := DesiredSpec(s, inst, DeployedImage(env.catalog, inst).value);
      if inst.name in s.mariadbs {
        ApplyInOrder(s, inst, s, Redeclared(s.mariadbs[inst.name].spec, spec));
      } else {
        CreateInOrder(s, inst, spec);
      }
    }
  }

  lemma SyncInOrder(s: Store, env: Env, inst: Instance)
    requires ValidEnv(env)
    ensures InOrder(s, inst, s, SyncPlan(s, env, inst).writes)
  {
    hide WriteInOrder, MariaDBPlan, SyncRest;
    var p := MariaDBPlan(s, env, inst);
    MariaDBInOrder(s, env, inst);
    if p.outcome.Done? {
      RestIsQuiet(After(s, p), env, inst);
      QuietInOrder(s, inst, After(s, p), SyncRest(After(s, p), env, inst).writes);
      InOrderConcat(s, inst, s, p.writes, SyncRest(After(s, p), env, inst).writes);
    }
  }

  /** Seeding order: wherever a pass stops, a seeded MariaDB is only ever created
      after its source was ready and both its Secrets existed; a Secret is only
      created where there was none, as a copy of the source's at that moment. */
  lemma {:induction false} SeedingOrder(s: Store, env: Env, inst: Instance, n: nat)
    requires ValidEnv(env) && n < |SyncPlan(s, env, inst).writes|
    ensures WriteInOrder(s, inst, Replay(s, SyncPlan(s, env, inst).writes[..n]), SyncPlan(s, env, inst).writes[n])
  {
    hide WriteInOrder, SyncPlan;
    SyncInOrder(s, env, inst);
    InOrderAt(s, inst, s, SyncPlan(s, env, inst).writes, n);
  }

  // ----- what never changes ---------------------------------------------------

  /** A stored bootstrapFrom that re-applying leaves alone; creation makes it so. */
  predicate SeedStable(s: Store, i: string) {
    i in s.mariadbs ==> AppliedTree(s.mariadbs[i].spec.bootstrapFrom) == s.mariadbs[i].spec.bootstrapFrom
  }

  /** From s to x: existing Secrets and the seed of i are untouched, and i has its
      credentials if it is seeded. */
  ghost predicate SeedKept(i: string, s: Store, x: Store) {
    && (forall name | name in s.secrets :: name in x.secrets && x.secrets[name] == s.secrets[name])
    && SeedStable(x, i)
    && (i in s.mariadbs ==>
          && i in x.mariadbs
          && x.mariadbs[i].spec.bootstrapFrom == s.mariadbs[i].spec.bootstrapFrom
          && x.mariadbs[i].spec.storageClass == s.mariadbs[i].spec.storageClass)
    && (i !in s.mariadbs && i in x.mariadbs && x.mariadbs[i].spec.bootstrapFrom.Some? ==> CredentialsPresent(x, i))
  }

  predicate KeepsSeed(i: string, s: Store, before: Store, w: Write) {
    match w
    case CreateSecret(name, _) => name !in before.secrets
    case ApplyMariaDB(name, spec) =>
      name == i ==>
        && AppliedTree(spec.bootstrapFrom) == spec.bootstrapFrom
        && (i in s.mariadbs ==>
              spec.bootstrapFrom == s.mariadbs[i].spec.bootstrapFrom
                && spec.storageClass == s.mariadbs[i].spec.storageClass)
        && (i !in s.mariadbs && spec.bootstrapFrom.Some? ==> CredentialsPresent(before, i))
    case _ => true
  }

  lemma SeedWrite(i: string, s: Store, x: Store, w: Write)
    requires SeedKept(i, s, x) && KeepsSeed(i, s, x, w)
    ensures SeedKept(i, s, Performed(x, w))
  {
    hide RootSecretName, UserSecretName, AppliedTree;
  }

  ghost predicate AllKeepSeed(i: string, s: Store, x: Store, ws: seq<Write>)
    decreases |ws|
  {
    ws != [] ==> KeepsSeed(i, s, x, ws[0]) && AllKeepSeed(i, s, Performed(x, ws[0]), ws[1..])
  }

  lemma {:induction false} SeedWrites(i: string, s: Store, x: Store, ws: seq<Write>)
    requires SeedKept(i, s, x) && AllKeepSeed(i, s, x, ws)
    ensures Throughout(y => SeedKept(i, s, y), x, ws)
    decreases |ws|
  {
    hide SeedKept, KeepsSeed;
    if ws != [] {
      SeedWrite(i, s, x, ws[0]);
      SeedWrites(i, s, Performed(x, ws[0]), ws[1..]);
    }
  }

  /** The only MariaDB a pass applies keeps or establishes a stable seed. */
  ghost predicate AppliesStably(s: Store, inst: Instance, ws: seq<Write>) {
    forall n | 0 <= n < |ws| && ws[n].ApplyMariaDB? ::
      && AppliedTree(ws[n].spec.bootstrapFrom) == ws[n].spec.bootstrapFrom
      && (inst.name in s.mariadbs ==>
            ws[n].spec.bootstrapFrom == AppliedTree(s.mariadbs[inst.name].spec.bootstrapFrom) &&
                                      ws[n].spec.storageClass == s.mariadbs[inst.name].spec.storageClass)
  }

  lemma {:induction false} OrderKeepsSeed(i: string, s: Store, inst: Instance, x: Store, ws: seq<Write>)
    requires InOrder(s, inst, x, ws) && AppliesStably(s, inst, ws)
    requires SeedStable(s, i)
    ensures AllKeepSeed(i, s, x, ws)
    decreases |ws|
  {
    hide RootSecretName, UserSecretName, AppliedTree, SourceReady, SourceOf;
    if ws != [] {
      assert forall n | 0 <= n < |ws[1..]| :: ws[1..][n] == ws[n + 1];
      OrderKeepsSeed(i, s, inst, Performed(x, ws[0]), ws[1..]);
    }
  }

  lemma CreateAppliesStably(s: Store, inst: Instance, spec: MariaDBSpec)
    requires inst.name !in s.mariadbs && spec.bootstrapFrom == None
    ensures AppliesStably(s, inst, CreatePlan(s, inst, spec).writes)
  {
    hide RootSecretName, UserSecretName, BootstrapTree;
    match ResolveSeed(s, inst)
    case SeedFrom(bootstrap, source) => AppliedTreeTwice(Some(BootstrapTree(bootstrap)));
    case _ =>
  }

  lemma MariaDBAppliesStably(s: Store, env: Env, inst: Instance)
    ensures AppliesStably(s, inst, MariaDBPlan(s, env, inst).writes)
  {
    hide CreatePlan;
    if DeployedImage(env.catalog, inst).Some? && !PitrStorage(inst).TooManyPitr? {
      var spec := DesiredSpec(s, inst, DeployedImage(env.catalog, inst).value);
      if inst.name in s.mariadbs {
        AppliedTreeTwice(s.mariadbs[inst.name].spec.bootstrapFrom);
      } else {
        CreateAppliesStably(s, inst, spec);
      }
    }
  }

  lemma SyncAppliesStably(s: Store, env: Env, inst: Instance)
    requires ValidEnv(env)
    ensures AppliesStably(s, inst, SyncPlan(s, env, inst).writes)
  {
    hide MariaDBPlan, SyncRest, AppliedTree;
    var p := MariaDBPlan(s, env, inst);
    MariaDBAppliesStably(s, env, inst);
    if p.outcome.Done? { RestIsQuiet(After(s, p), env, inst); }
  }

  /** After every write of any Instance's pass: no Secret that existed has changed,
      and the seed and storage class of i are what they were. */
  lemma {:induction false} PassKeepsSeeds(s: Store, env: Env, inst: Instance, i: string)
    requires ValidEnv(env) && SeedStable(s, i)
    ensures Throughout(y => SeedKept(i, s, y), s, SyncPlan(s, env, inst).writes)
  {
    hide SyncPlan;
    SyncInOrder(s, env, inst);
    SyncAppliesStably(s, env, inst);
    OrderKeepsSeed(i, s, inst, s, SyncPlan(s, env, inst).writes);
    SeedWrites(i, s, s, SyncPlan(s, env, inst).writes);
  }
}
