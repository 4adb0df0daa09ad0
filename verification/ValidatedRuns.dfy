/** Validate then Sync, as a state machine: what holds over every run of accepted
    edits, passes cut short anywhere, and changes by others. */
module ValidatedRuns {
  import opened Kube
  import opened Names
  import opened Plans
  import opened Instances
  import opened ClusterApi
  import opened Seeding
  import opened MariaDBSync
  import opened Provider
  import opened SeedingRuns
  import opened Decimal
  import opened ImageTag
  import opened Validation
  import opened Runs
  import PitrSync
  import TemplateSync

  // ----- one pass -------------------------------------------------------------

  /** A MariaDB declared for inst as it was when the pass began. */
  predicate AsDeclared(s: Store, catalog: Catalog, inst: Instance, spec: MariaDBSpec) {
    DeployedImage(catalog, inst).Some?
      && spec.(bootstrapFrom := None) == Declares(s, catalog, inst).(bootstrapFrom := None)
  }

  /** Nothing of this kind has changed but inst's own MariaDB, to what was declared. */
  ghost predicate Provisioned(s: Store, catalog: Catalog, inst: Instance, x: Store) {
    && (forall name | name != inst.name ::
          (name in x.mariadbs <==> name in s.mariadbs)
            && (name in s.mariadbs ==> x.mariadbs[name].spec == s.mariadbs[name].spec))
    && (inst.name in s.mariadbs ==> inst.name in x.mariadbs)
    && (inst.name in x.mariadbs ==>
          || (inst.name in s.mariadbs && x.mariadbs[inst.name].spec == s.mariadbs[inst.name].spec)
          || AsDeclared(s, catalog, inst, x.mariadbs[inst.name].spec))
  }

  predicate AppliesDeclared(s: Store, catalog: Catalog, inst: Instance, w: Write) {
    w.ApplyMariaDB? ==> w.name == inst.name && AsDeclared(s, catalog, inst, w.spec)
  }

  ghost predicate AllDeclared(s: Store, catalog: Catalog, inst: Instance, ws: seq<Write>) {
    forall n | 0 <= n < |ws| :: AppliesDeclared(s, catalog, inst, ws[n])
  }

  lemma MariaDBDeclared(s: Store, env: Env, inst: Instance)
    ensures AllDeclared(s, env.catalog, inst, MariaDBPlan(s, env, inst).writes)
  {
    hide RootSecretName, UserSecretName, AppliedTree, BootstrapTree, ResolveSeed, DesiredSpec, CopyPlan, WithBundle,
        ResolveImage, PitrSync.PitrStorage;
    if DeployedImage(env.catalog, inst).Some? && ResolveSeed(s, inst).SeedFrom? {
      CredentialsOnly(s, inst, ResolveSeed(s, inst).source);
    }
  }

  lemma CredentialsOnly(s: Store, inst: Instance, source: string)
    ensures forall n | 0 <= n < |CredentialsPlan(s, inst, source).writes| ::
            CredentialsPlan(s, inst, source).writes[n].CreateSecret?
  {
    hide RootSecretName, UserSecretName;
  }

  lemma SyncDeclared(s: Store, env: Env, inst: Instance)
    requires ValidEnv(env)
    ensures AllDeclared(s, env.catalog, inst, SyncPlan(s, env, inst).writes)
  {
    hide MariaDBPlan, SyncRest, AsDeclared;
    var p := MariaDBPlan(s, env, inst);
    MariaDBDeclared(s, env, inst);
    if p.outcome.Done? { RestIsQuiet(After(s, p), env, inst); }
  }

  lemma DeclaredWrite(s: Store, catalog: Catalog, inst: Instance, x: Store, w: Write)
    requires Provisioned(s, catalog, inst, x) && AppliesDeclared(s, catalog, inst, w)
    ensures Provisioned(s, catalog, inst, Performed(x, w))
  {
    hide AsDeclared;
  }

  lemma {:induction false} DeclaredWrites(s: Store, catalog: Catalog, inst: Instance, x: Store, ws: seq<Write>)
    requires Provisioned(s, catalog, inst, x) && AllDeclared(s, catalog, inst, ws)
    ensures Throughout(y => Provisioned(s, catalog, inst, y), x, ws)
    decreases |ws|
  {
    hide AppliesDeclared, Provisioned;
    if ws != [] {
      assert AppliesDeclared(s, catalog, inst, ws[0]);
      DeclaredWrite(s, catalog, inst, x, ws[0]);
      DeclaredWrites(s, catalog, inst, Performed(x, ws[0]), ws[1..]);
    }
  }

  /** After every write of a pass, the MariaDB is as before or as declared. */
  lemma {:induction false} PassProvisions(s: Store, env: Env, inst: Instance)
    requires ValidEnv(env)
    ensures Throughout(x => Provisioned(s, env.catalog, inst, x), s, SyncPlan(s, env, inst).writes)
  {
    hide SyncPlan;
    SyncDeclared(s, env, inst);
    DeclaredWrites(s, env.catalog, inst, s, SyncPlan(s, env, inst).writes);
  }

  // ----- runs -----------------------------------------------------------------

  /** The store and the specification the Instance currently has. */
  datatype Site = Site(store: Store, inst: Instance)

  datatype Action = Edit(inst: Instance) | Reconcile(env: Env, cut: nat) | Elsewhere(store: Store)

  function Next(site: Site, a: Action): Site {
    match a
    case Edit(inst) => site.(inst := inst)
    case Reconcile(env, cut) =>
      site.(store := Replay(site.store, Cut(SyncPlan(site.store, env, site.inst).writes, cut)))
    case Elsewhere(t) => site.(store := t)
  }

  /** An edit is admitted only when it validates against the store of that moment;
      the provider definition stays the same; others do not delete the MariaDB or
      change what the provider declares on it. */
  ghost predicate Allowed(catalog: Catalog, site: Site, a: Action) {
    match a
    case Edit(inst) => inst.name == site.inst.name && Validate(site.store, catalog, inst).Accepted?
    case Reconcile(env, _) => ValidEnv(env) && env.catalog == catalog
    case Elsewhere(t) =>
      var i := site.inst.name;
      (i in t.mariadbs <==> i in site.store.mariadbs)
        && (i in t.mariadbs ==> t.mariadbs[i].spec == site.store.mariadbs[i].spec)
  }

  function SiteAfter(site: Site, actions: seq<Action>): Site {
    if actions == [] then site else Next(SiteAfter(site, actions[..|actions| - 1]), actions[|actions| - 1])
  }

  ghost predicate ValidRun(catalog: Catalog, site: Site, actions: seq<Action>) {
    forall n | 0 <= n < |actions| :: Allowed(catalog, SiteAfter(site, actions[..n]), actions[n])
  }

  predicate Exists(site: Site) {
    site.inst.name in site.store.mariadbs
  }

  function SpecOf(site: Site): MariaDBSpec
    requires Exists(site)
  {
    site.store.mariadbs[site.inst.name].spec
  }

  /** The current specification validates, and what is provisioned can run. */
  predicate Sound(catalog: Catalog, site: Site) {
    && Validate(site.store, catalog, site.inst).Accepted?
    && (Exists(site) ==> ReplicaRule(ExistingTopology(SpecOf(site)), SpecOf(site).replicas))
  }

  /** From one site to the next, an existing MariaDB stays and makes progress. */
  predicate Advances(a: Site, b: Site) {
    b.inst.name == a.inst.name && (Exists(a) ==> Exists(b) && Progress(SpecOf(a), SpecOf(b)))
  }

  /** A specification that validated keeps validating while its own passes run. */
  lemma {:induction false} DeclaredStaysAccepted(s: Store, catalog: Catalog, inst: Instance, x: Store)
    requires Validate(s, catalog, inst).Accepted? && Provisioned(s, catalog, inst, x)
    requires inst.name in x.mariadbs && AsDeclared(s, catalog, inst, x.mariadbs[inst.name].spec)
    ensures Validate(x, catalog, inst).Accepted?
    ensures ReplicaRule(ExistingTopology(x.mariadbs[inst.name].spec), x.mariadbs[inst.name].spec.replicas)
    ensures inst.name in s.mariadbs ==> Progress(s.mariadbs[inst.name].spec, x.mariadbs[inst.name].spec)
  {
    hide PitrSync.PitrStorage, PitrSync.FirstPhysical, PitrSync.DesiredPitrRef, TemplateSync.DesiredTemplateRef,
        TemplateSync.TemplateStorage,
         AppliedTree, MinorVersion, WithBundle, ResolveImage, Validate, Provisioned;
    AcceptedOnUpdate(x, catalog, inst);
    if inst.name in s.mariadbs {
      AcceptedOnUpdate(s, catalog, inst);
    } else {
      AcceptedAtCreation(s, catalog, inst);
    }
  }

  lemma SameMariaDBAccepted(s: Store, t: Store, catalog: Catalog, inst: Instance)
    requires inst.name in s.mariadbs <==> inst.name in t.mariadbs
    requires inst.name in s.mariadbs ==> t.mariadbs[inst.name].spec == s.mariadbs[inst.name].spec
    ensures Validate(t, catalog, inst) == Validate(s, catalog, inst)
  {
    hide PitrSync.PitrStorage, PitrSync.FirstPhysical, TemplateSync.TemplateStorage, MinorVersion, WithBundle,
        ResolveImage;
  }

  lemma ProgressSelf(a: MariaDBSpec)
    ensures Progress(a, a)
  {
    hide MinorVersion;
  }

  lemma StepAdvances(catalog: Catalog, site: Site, a: Action)
    requires Sound(catalog, site) && Allowed(catalog, site, a)
    ensures Sound(catalog, Next(site, a)) && Advances(site, Next(site, a))
  {
    hide SyncPlan, Validate, Progress, ReplicaRule, Declares, Replay, Cut, AsDeclared;
    if Exists(site) { ProgressSelf(SpecOf(site)); }
    match a
    case Edit(_) =>
    case Elsewhere(t) => SameMariaDBAccepted(site.store, t, catalog, site.inst);
    case Reconcile(env, cut) =>
      var s, inst := site.store, site.inst;
      PassProvisions(s, env, inst);
      var t := Replay(s, Cut(SyncPlan(s, env, inst).writes, cut));
      CutThroughout(x => Provisioned(s, catalog, inst, x), s, SyncPlan(s, env, inst).writes, cut);
      if inst.name in t.mariadbs && AsDeclared(s, catalog, inst, t.mariadbs[inst.name].spec) {
        DeclaredStaysAccepted(s, catalog, inst, t);
      } else {
        SameMariaDBAccepted(s, t, catalog, inst);
      }
  }

  lemma {:induction false} RunIsSound(catalog: Catalog, site: Site, actions: seq<Action>)
    requires Sound(catalog, site) && ValidRun(catalog, site, actions)
    ensures Sound(catalog, SiteAfter(site, actions))
    decreases |actions|
  {
    hide Next, Sound, Allowed;
    if actions != [] {
      LastAction(catalog, site, actions);
      RunIsSound(catalog, site, actions[..|actions| - 1]);
      StepAdvances(catalog, SiteAfter(site, actions[..|actions| - 1]), actions[|actions| - 1]);
    }
  }

  lemma LastAction(catalog: Catalog, site: Site, actions: seq<Action>)
    requires actions != [] && ValidRun(catalog, site, actions)
    ensures ValidRun(catalog, site, actions[..|actions| - 1])
    ensures Allowed(catalog, SiteAfter(site, actions[..|actions| - 1]), actions[|actions| - 1])
  {
    hide Next, Allowed;
    var init := actions[..|actions| - 1];
    assert forall n | 0 <= n < |init| :: init[n] == actions[n] && init[..n] == actions[..n];
  }

  /** What cannot change for the worse, whatever happens in between. */
  predicate Keeps(a: Site, b: Site) {
    b.inst.name == a.inst.name &&
    (Exists(a) ==>
      && Exists(b)
      && ExistingTopology(SpecOf(b)) == ExistingTopology(SpecOf(a))
      && SpecOf(b).storageClass == SpecOf(a).storageClass
      && (SpecOf(a).size.Some? ==> SpecOf(b).size.Some? && SpecOf(a).size.value <= SpecOf(b).size.value))
  }

  /** Run safety: from any point of a run of accepted edits to any later one, the
      topology and the storage class are the same and the volume is no smaller; and
      the replica count is always one the topology can run with. */
  lemma {:induction false} RunSafety(catalog: Catalog, site: Site, actions: seq<Action>, m: nat)
    requires Sound(catalog, site) && ValidRun(catalog, site, actions) && m <= |actions|
    ensures var t := SiteAfter(site, actions);
      && Keeps(SiteAfter(site, actions[..m]), t)
      && (Exists(t) ==> ReplicaRule(ExistingTopology(SpecOf(t)), SpecOf(t).replicas))
    decreases |actions|
  {
    hide Next, Allowed, Validate, ReplicaRule;
    RunIsSound(catalog, site, actions);
    if m == |actions| {
      assert actions[..m] == actions;
    } else {
      var init := actions[..|actions| - 1];
      assert init[..m] == actions[..m];
      LastAction(catalog, site, actions);
      RunSafety(catalog, site, init, m);
      RunIsSound(catalog, site, init);
      StepAdvances(catalog, SiteAfter(site, init), actions[|actions| - 1]);
    }
  }

  /** Every MariaDB from the m-th store on has a tag that reads as a version. */
  predicate Tagged(site: Site, actions: seq<Action>, m: nat) {
    forall n | m <= n <= |actions| ::
      Exists(SiteAfter(site, actions[..n])) && MinorVersion(SpecOf(SiteAfter(site, actions[..n])).image).Some?
  }

  /** Along a stretch of a run in which every image is tagged with a version, the
      version never goes down. */
  lemma {:induction false} VersionsRise(catalog: Catalog, site: Site, actions: seq<Action>, m: nat)
    requires Sound(catalog, site) && ValidRun(catalog, site, actions) && m <= |actions|
    requires Tagged(site, actions, m)
    ensures Exists(SiteAfter(site, actions[..m])) && Exists(SiteAfter(site, actions))
    ensures NoDowngrade(SpecOf(SiteAfter(site, actions[..m])).image, SpecOf(SiteAfter(site, actions)).image)
    decreases |actions|
  {
    hide Next, Allowed, Validate, ReplicaRule, MinorVersion;
    assert actions[..|actions|] == actions;
    assert Exists(SiteAfter(site, actions[..|actions|]));
    if m < |actions| {
      var init := actions[..|actions| - 1];
      assert forall n | 0 <= n <= |init| :: init[..n] == actions[..n];
      LastAction(catalog, site, actions);
      VersionsRise(catalog, site, init, m);
      RunIsSound(catalog, site, init);
      assert MinorVersion(SpecOf(SiteAfter(site, actions[..|init|])).image).Some?;
      StepAdvances(catalog, SiteAfter(site, init), actions[|actions| - 1]);
    }
  }

  // ----- scale-out ------------------------------------------------------------

  /** On a replication cluster without a backup storage, an accepted specification
      adds replicas exactly when it declares no count and fewer than the default
      three are running. */
  lemma ScaleOutExactly(s: Store, catalog: Catalog, inst: Instance)
    requires inst.name in s.mariadbs && Validate(s, catalog, inst).Accepted?
    requires inst.topology == Replication && TemplateSync.TemplateStorage(inst).None?
    ensures DeployedImage(catalog, inst).Some?
    ensures Declares(s, catalog, inst).replicas > s.mariadbs[inst.name].spec.replicas <==>
            TheEngine(inst).replicas.None? && s.mariadbs[inst.name].spec.replicas < 3
  {
    hide PitrSync.PitrStorage, PitrSync.FirstPhysical, PitrSync.DesiredPitrRef, TemplateSync.DesiredTemplateRef,
        TemplateSync.TemplateStorage,
         AppliedTree, MinorVersion, WithBundle, ResolveImage, Validate;
    AcceptedOnUpdate(s, catalog, inst);
  }

  /** Over runs: no step taken under a storage-less specification adds replicas to
      a replication cluster, unless that specification leaves the count unset and
      fewer than three are running; edits and others' changes add none at all. */
  lemma ScaleOutSafety(catalog: Catalog, site: Site, actions: seq<Action>, n: nat)
    requires Sound(catalog, site) && ValidRun(catalog, site, actions) && n < |actions|
    requires Exists(SiteAfter(site, actions[..n]))
    ensures var a, b := SiteAfter(site, actions[..n]), SiteAfter(site, actions[..n + 1]);
      && Exists(b)
      && (SpecOf(b).replicas > SpecOf(a).replicas && a.inst.topology == Replication
          && TemplateSync.TemplateStorage(a.inst).None? ==>
            actions[n].Reconcile? && TheEngine(a.inst).replicas.None? && SpecOf(a).replicas < 3)
  {
    hide Sound, Allowed, SyncPlan, Replay, Cut, Validate, AsDeclared, TemplateSync.TemplateStorage;
    var prefix := actions[..n + 1];
    assert prefix[..n] == actions[..n] && prefix[n] == actions[n];
    PrefixValid(catalog, site, actions, n);
    PrefixValid(catalog, site, actions, n + 1);
    RunIsSound(catalog, site, actions[..n]);
    OneScaleOut(catalog, SiteAfter(site, actions[..n]), actions[n]);
  }

  lemma PrefixValid(catalog: Catalog, site: Site, actions: seq<Action>, n: nat)
    requires ValidRun(catalog, site, actions) && n <= |actions|
    ensures ValidRun(catalog, site, actions[..n])
    ensures n < |actions| ==> Allowed(catalog, SiteAfter(site, actions[..n]), actions[n])
  {
    hide Allowed, SiteAfter;
    var init := actions[..n];
    assert forall k | 0 <= k < n :: init[k] == actions[k] && init[..k] == actions[..k];
  }

  lemma OneScaleOut(catalog: Catalog, a: Site, action: Action)
    requires Sound(catalog, a) && Allowed(catalog, a, action) && Exists(a)
    ensures var b := Next(a, action);
      && Exists(b)
      && (SpecOf(b).replicas > SpecOf(a).replicas && a.inst.topology == Replication
          && TemplateSync.TemplateStorage(a.inst).None? ==>
            action.Reconcile? && TheEngine(a.inst).replicas.None? && SpecOf(a).replicas < 3)
  {
    hide SyncPlan, Validate, Declares, Replay, Cut, ReplicaRule, TemplateSync.TemplateStorage;
    match action
    case Edit(_) =>
    case Elsewhere(_) =>
    case Reconcile(env, cut) =>
      var s, inst := a.store, a.inst;
      PassProvisions(s, env, inst);
      CutThroughout(x => Provisioned(s, catalog, inst, x), s, SyncPlan(s, env, inst).writes, cut);
      if inst.topology == Replication && TemplateSync.TemplateStorage(inst).None? { ScaleOutExactly(s, catalog, inst); }
  }

  /** Such a step exists: dropping the count from a two-node cluster is accepted,
      and the next pass asks for three nodes with nothing to seed the third from. */
  lemma {:induction false} ScaleOutEscapes(s: Store, env: Env)
    requires s.mariadbs ==
        map["db" := MariaDB(MariaDBSpec("mariadb:11.4", 2, Some(10 * GI), "", false, true, None, None, None),
            NO_STATUS)]
    ensures var inst := Instance("db", "", Replication, Some(Engine("mariadb:11.4", "", None, None)), None, None);
      && Validate(s, env.catalog, inst).Accepted?
      && var t := After(s, MariaDBPlan(s, env, inst));
         "db" in t.mariadbs && t.mariadbs["db"].spec.replicas == 3
  {
    hide MinorVersion;
    var inst := Instance("db", "", Replication, Some(Engine("mariadb:11.4", "", None, None)), None, None);
    AfterWrite(s, ApplyMariaDB("db", Redeclared(s.mariadbs["db"].spec, DesiredSpec(s, inst, "mariadb:11.4"))), Done);
  }

  // ----- downgrades by way of an untagged image -------------------------------

  /** An image of a repository at a version. */
  function Rendered(repo: string, v: Version): string
    requires v.major >= 0 && v.minor >= 0
  {
    repo + ":" + Print(v.major) + "." + Print(v.minor)
  }

  predicate Printable(v: Version) {
    0 <= v.major <= INT_MAX && 0 <= v.minor <= INT_MAX
  }

  function WithImage(inst: Instance, image: string): Instance
    requires inst.engine.Some?
  {
    inst.(engine := Some(inst.engine.value.(image := image)))
  }

  /** Of an accepted specification, changing the image is refused exactly when both
      images are tagged and the new one is older. */
  lemma ImageChange(s: Store, catalog: Catalog, inst: Instance, image: string)
    requires inst.name in s.mariadbs && Validate(s, catalog, inst).Accepted? && image != ""
    ensures inst.engine.Some?
    ensures Validate(s, catalog, WithImage(inst, image)) ==
            if NoDowngrade(s.mariadbs[inst.name].spec.image, image) then Accepted else Rejected(Downgrade)
  {
    hide ValidateTopology, ValidateVersionDowngrade, ValidateStorageUpdate, ValidatePitr,
        ValidatePointInTimeDataSource, NoDowngrade;
    OtherChecksKept(s, inst, image);
    OnlyDowngrade(catalog, inst, s.mariadbs[inst.name].spec, image);
  }

  lemma OtherChecksKept(s: Store, inst: Instance, image: string)
    requires inst.name in s.mariadbs && inst.engine.Some?
    ensures var changed := WithImage(inst, image);
      && ValidateComponents(changed) == ValidateComponents(inst)
      && ValidateTopology(s, changed) == ValidateTopology(s, inst)
      && ValidateStorageUpdate(changed, s.mariadbs[inst.name].spec) ==
          ValidateStorageUpdate(inst, s.mariadbs[inst.name].spec)
      && ValidatePitr(changed) == ValidatePitr(inst)
      && ValidatePointInTimeDataSource(s, changed) == ValidatePointInTimeDataSource(s, inst)
  {
    var changed := WithImage(inst, image);
    assert PitrSync.PitrStorage(changed) == PitrSync.PitrStorage(inst);
    assert TemplateSync.TemplateStorage(changed) == TemplateSync.TemplateStorage(inst);
    hide PitrSync.PitrStorage, PitrSync.FirstPhysical, TemplateSync.TemplateStorage;
  }

  lemma OnlyDowngrade(catalog: Catalog, inst: Instance, existing: MariaDBSpec, image: string)
    requires inst.engine.Some? && image != ""
    ensures ValidateVersionDowngrade(catalog, WithImage(inst, image), existing) ==
            if NoDowngrade(existing.image, image) then Accepted else Rejected(Downgrade)
  {
    hide MinorVersion;
  }

  /** A pass whose first write gets through deploys the image asked for. */
  lemma ImageDeployed(s: Store, env: Env, inst: Instance, cut: nat)
    requires ValidEnv(env) && inst.name in s.mariadbs && Validate(s, env.catalog, inst).Accepted? && cut >= 1
    requires TheEngine(inst).image != ""
    ensures var t := Replay(s, Cut(SyncPlan(s, env, inst).writes, cut));
            inst.name in t.mariadbs && t.mariadbs[inst.name].spec.image == TheEngine(inst).image
  {
    AcceptedDeploys(s, env.catalog, inst);
    AppliedImage(s, env, inst);
    OneApply(s, env, inst);
    hide SyncPlan, SyncRest, Validate, Redeclared, MariaDBPlan, DesiredSpec, DeployedImage, Replay, Cut, AllQuiet;
    var p := MariaDBPlan(s, env, inst);
    FirstThenRest(s, env, inst);
    RestIsQuiet(After(s, p), env, inst);
    AfterFirst(s, inst, SyncPlan(s, env, inst).writes, cut);
  }

  lemma FirstThenRest(s: Store, env: Env, inst: Instance)
    requires MariaDBPlan(s, env, inst).outcome == Done && |MariaDBPlan(s, env, inst).writes| == 1
    ensures var p, ws := MariaDBPlan(s, env, inst), SyncPlan(s, env, inst).writes;
      |ws| >= 1 && ws[0] == p.writes[0] && ws[1..] == SyncRest(After(s, p), env, inst).writes
  {
    hide MariaDBPlan, SyncRest, Replay;
  }

  lemma AcceptedDeploys(s: Store, catalog: Catalog, inst: Instance)
    requires inst.name in s.mariadbs && Validate(s, catalog, inst).Accepted?
    ensures DeployedImage(catalog, inst).Some? && !PitrSync.PitrStorage(inst).TooManyPitr?
  {
    hide Validate, Progress, ReplicaRule, Replicas;
    AcceptedOnUpdate(s, catalog, inst);
  }

  /** Only the first write counts for the MariaDBs when the others are quiet. */
  lemma AfterFirst(s: Store, inst: Instance, ws: seq<Write>, cut: nat)
    requires ws != [] && AllQuiet(ws[1..]) && cut >= 1
    ensures Replay(s, Cut(ws, cut)).mariadbs == Performed(s, ws[0]).mariadbs
  {
    hide Performed, Quiet;
    var some := Cut(ws, cut);
    assert some[0] == ws[0] && some[1..] <= ws[1..];
    assert forall n | 0 <= n < |some[1..]| :: some[1..][n] == ws[1..][n];
    QuietKeepsMariaDBs(Performed(s, ws[0]), some[1..]);
  }

  lemma OneApply(s: Store, env: Env, inst: Instance)
    requires inst.name in s.mariadbs && DeployedImage(env.catalog, inst).Some?
             && !PitrSync.PitrStorage(inst).TooManyPitr?
    ensures MariaDBPlan(s, env, inst).outcome == Done && |MariaDBPlan(s, env, inst).writes| == 1
    ensures MariaDBPlan(s, env, inst).writes[0] ==
            ApplyMariaDB(inst.name,
                Redeclared(s.mariadbs[inst.name].spec, DesiredSpec(s, inst, DeployedImage(env.catalog, inst).value)))
  {
  }

  lemma AppliedImage(s: Store, env: Env, inst: Instance)
    requires inst.name in s.mariadbs && TheEngine(inst).image != ""
    ensures DeployedImage(env.catalog, inst) == Some(TheEngine(inst).image)
    ensures Redeclared(s.mariadbs[inst.name].spec, DesiredSpec(s, inst, TheEngine(inst).image)).image ==
        TheEngine(inst).image
  {
    hide AppliedTree, PitrSync.DesiredPitrRef;
  }

  lemma {:induction false} QuietKeepsMariaDBs(s: Store, ws: seq<Write>)
    requires AllQuiet(ws)
    ensures Replay(s, ws).mariadbs == s.mariadbs
    decreases |ws|
  {
    if ws != [] {
      assert Quiet(ws[0]);
      assert forall n | 0 <= n < |ws[1..]| :: ws[1..][n] == ws[n + 1];
      QuietKeepsMariaDBs(Performed(s, ws[0]), ws[1..]);
    }
  }

  /** Two edits of the image, each followed by a pass. */
  function Detour(inst: Instance, via: string, image: string, env: Env, cut: nat): seq<Action>
    requires inst.engine.Some?
  {
    [Edit(WithImage(inst, via)), Reconcile(env, cut), Edit(WithImage(inst, image)), Reconcile(env, cut)]
  }

  /** The run consists of allowed steps, and ends with the image deployed. */
  ghost predicate Deploys(catalog: Catalog, site: Site, actions: seq<Action>, image: string) {
    && ValidRun(catalog, site, actions)
    && Exists(SiteAfter(site, actions)) && SpecOf(SiteAfter(site, actions)).image == image
  }

  lemma DetourDeploys(catalog: Catalog, site: Site, via: string, image: string, env: Env, cut: nat)
    requires Sound(catalog, site) && Exists(site) && site.inst.engine.Some? && via != "" && image != ""
    requires NoDowngrade(SpecOf(site).image, via) && NoDowngrade(via, image)
    requires ValidEnv(env) && env.catalog == catalog && cut >= 1
    ensures Deploys(catalog, site, Detour(site.inst, via, image, env, cut), image)
  {
    hide NoDowngrade, Sound, Allowed, Next, SiteAfter, ValidRun, ValidEnv;
    var inst, es := site.inst, Detour(site.inst, via, image, env, cut);
    ImageStep(catalog, site, via, env, cut);
    var a1 := Next(site, es[0]);
    var a2 := Next(a1, es[1]);
    assert WithImage(a2.inst, image) == WithImage(inst, image);
    ImageStep(catalog, a2, image, env, cut);
    FourSteps(catalog, site, es, a1, a2, Next(a2, es[2]));
  }

  /** Why every image on the stretch must be tagged: from a MariaDB provisioned at
      one version, the edit to an older one is refused; but the run that goes by way
      of the untagged image of the same repository consists of accepted steps, and
      ends with the older version deployed. */
  lemma UntaggedHidesDowngrade(catalog: Catalog, site: Site, repo: string, v: Version, w: Version, env: Env, cut: nat)
    requires Printable(v) && Printable(w) && Older(w, v) && Repository(repo)
    requires Sound(catalog, site) && Exists(site) && SpecOf(site).image == Rendered(repo, v)
    requires ValidEnv(env) && env.catalog == catalog && cut >= 1
    ensures site.inst.engine.Some?
    ensures Validate(site.store, catalog, WithImage(site.inst, Rendered(repo, w))) == Rejected(Downgrade)
    ensures Deploys(catalog, site, Detour(site.inst, repo, Rendered(repo, w), env, cut), Rendered(repo, w))
  {
    hide Validate, NoDowngrade, Rendered, Older, Repository, Sound, ValidEnv, Deploys;
    Readings(repo, v, w);
    RefusedDirectly(catalog, site, Rendered(repo, w));
    DetourDeploys(catalog, site, repo, Rendered(repo, w), env, cut);
  }

  lemma RefusedDirectly(catalog: Catalog, site: Site, image: string)
    requires Sound(catalog, site) && Exists(site) && image != "" && !NoDowngrade(SpecOf(site).image, image)
    ensures site.inst.engine.Some? && Validate(site.store, catalog, WithImage(site.inst, image)) == Rejected(Downgrade)
  {
    hide Validate, NoDowngrade;
    ImageChange(site.store, catalog, site.inst, image);
  }

  /** Editing the image, unless that is a downgrade, and letting a pass begin. */
  lemma ImageStep(catalog: Catalog, site: Site, image: string, env: Env, cut: nat)
    requires Sound(catalog, site) && Exists(site) && image != "" && NoDowngrade(SpecOf(site).image, image)
    requires ValidEnv(env) && env.catalog == catalog && cut >= 1
    ensures site.inst.engine.Some?
    ensures var edited := Next(site, Edit(WithImage(site.inst, image)));
      var t := Next(edited, Reconcile(env, cut));
      && Allowed(catalog, site, Edit(WithImage(site.inst, image))) && Allowed(catalog, edited, Reconcile(env, cut))
      && Sound(catalog, t) && Exists(t)
      && SpecOf(t).image == image && t.inst == WithImage(site.inst, image)
  {
    hide Validate, NoDowngrade, SyncPlan, Replay, Cut, ReplicaRule, Progress;
    ImageChange(site.store, catalog, site.inst, image);
    var edited := Next(site, Edit(WithImage(site.inst, image)));
    StepAdvances(catalog, site, Edit(WithImage(site.inst, image)));
    StepAdvances(catalog, edited, Reconcile(env, cut));
    ImageDeployed(edited.store, env, edited.inst, cut);
  }

  lemma RenderedReads(repo: string, v: Version)
    requires Repository(repo) && Printable(v)
    ensures MinorVersion(Rendered(repo, v)) == Some(v) && Rendered(repo, v) != ""
  {
    hide MinorVersion, Print;
    var major, minor := Print(v.major), Print(v.minor);
    ImageRoundTrip(repo, v.major, v.minor, "", "");
    assert repo + ":" + (major + ("." + (minor + ""))) + "" == repo + ":" + major + "." + minor;
  }

  lemma Readings(repo: string, v: Version, w: Version)
    requires Repository(repo) && Printable(v) && Printable(w) && Older(w, v)
    ensures !NoDowngrade(Rendered(repo, v), Rendered(repo, w))
    ensures NoDowngrade(Rendered(repo, v), repo) && NoDowngrade(repo, Rendered(repo, w))
    ensures Rendered(repo, w) != "" && repo != ""
  {
    hide MinorVersion, Print;
    RenderedReads(repo, v);
    RenderedReads(repo, w);
    UntaggedNeverVersioned(repo, "");
    assert repo + "" == repo;
  }

  lemma FourSteps(catalog: Catalog, site: Site, es: seq<Action>, a1: Site, a2: Site, a3: Site)
    requires |es| == 4
    requires Allowed(catalog, site, es[0]) && a1 == Next(site, es[0])
    requires Allowed(catalog, a1, es[1]) && a2 == Next(a1, es[1])
    requires Allowed(catalog, a2, es[2]) && a3 == Next(a2, es[2])
    requires Allowed(catalog, a3, es[3])
    ensures ValidRun(catalog, site, es) && SiteAfter(site, es) == Next(a3, es[3])
  {
    hide Allowed, Next;
    assert es[..0] == [] && es[..1][..0] == [] && es[..2][..1] == es[..1];
    assert es[..3][..2] == es[..2] && es[..4][..3] == es[..3] && es[..4] == es;
    assert SiteAfter(site, es[..1]) == a1;
    assert SiteAfter(site, es[..2]) == a2;
    assert SiteAfter(site, es[..3]) == a3;
  }
}
