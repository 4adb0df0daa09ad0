/** What a pass leaves of the MariaDB and of the replica template, in the fields of
    the declaration (internal/provider/mariadb.go and replica_template.go). */
module DeclaredMariaDB {
  import opened Json
  import opened Kube
  import opened Plans
  import opened Instances
  import opened ClusterApi
  import opened Seeding
  import opened MariaDBSync
  import opened PitrSync
  import opened TemplateSync
  import opened Convergence
  import opened Schedules
  import opened DeclaredPlaces
  import opened DeclaredPasses
  import opened DeclaredSeeds

  // ----- what is declared -----------------------------------------------------

  function ImageOverride(inst: Instance): string {
    if inst.engine.Some? then inst.engine.value.image else ""
  }

  function VersionAsked(inst: Instance): string {
    if inst.engine.Some? then inst.engine.value.version else ""
  }

  /** The version bundle that fills in the version, "" when none is named at all. */
  function BundleAsked(catalog: Catalog, inst: Instance): string {
    if inst.versionBundle == "" then catalog.defaultBundle else inst.versionBundle
  }

  /** Neither an image nor a version is set, and the bundle asked for is not known. */
  predicate UnknownBundle(catalog: Catalog, inst: Instance) {
    && ImageOverride(inst) == "" && VersionAsked(inst) == ""
    && BundleAsked(catalog, inst) != "" && BundleAsked(catalog, inst) !in catalog.bundles
  }

  /** The version in force: the one asked for, or else the bundle's. */
  function InForce(catalog: Catalog, inst: Instance): string {
    if VersionAsked(inst) != "" then VersionAsked(inst)
    else if BundleAsked(catalog, inst) != "" && BundleAsked(catalog, inst) in catalog.bundles then
      catalog.bundles[BundleAsked(catalog, inst)]
    else ""
  }

  /** The image that runs: the override, else that of the version, else the default. */
  function ImageRun(catalog: Catalog, inst: Instance): string {
    var version := InForce(catalog, inst);
    if ImageOverride(inst) != "" then ImageOverride(inst)
    else if version != "" && version in catalog.images && catalog.images[version] != "" then catalog.images[version]
    else catalog.defaultImage
  }

  /** The declared count, else what the topology starts with. */
  predicate CountAsked(inst: Instance, replicas: int) {
    if inst.engine.Some? && inst.engine.value.replicas.Some? then replicas == inst.engine.value.replicas.value
    else replicas == if inst.topology in {Galera, Replication} then 3 else 1
  }

  /** The declared size, else ten gibibytes. */
  predicate SizeAsked(inst: Instance, size: Option<int>) {
    if inst.engine.Some? && inst.engine.value.storage.Some? && inst.engine.value.storage.value.size != 0 then
      size == Some(inst.engine.value.storage.value.size)
    else size == Some(10_737_418_240)
  }

  /** The declared class, "" when none is. */
  predicate ClassAsked(inst: Instance, class_: string) {
    if inst.engine.Some? && inst.engine.value.storage.Some? && inst.engine.value.storage.value.storageClass.Some? then
      class_ == inst.engine.value.storage.value.storageClass.value
    else class_ == ""
  }

  /** A replica template is kept for replication with a backup storage. */
  predicate TemplateAsked(inst: Instance) {
    inst.topology == Replication && inst.backup.Some? && inst.backup.value.enabled && inst.backup.value.storages != []
  }

  /** The specification says what is declared, apart from class and seed. */
  ghost predicate SpecAsked(s: Store, catalog: Catalog, inst: Instance, spec: MariaDBSpec) {
    && spec.image == ImageRun(catalog, inst)
    && CountAsked(inst, spec.replicas) && SizeAsked(inst, spec.size)
    && (spec.galera <==> inst.topology == Galera) && (spec.replication <==> inst.topology == Replication)
    && spec.pitrRef == (if !NoneHasPitr(inst) && inst.name + "-pitr" in s.pitrs then Some(inst.name + "-pitr")
                        else None)
    && spec.replicaTemplate == (if TemplateAsked(inst) then Some(inst.name + "-replica-tpl") else None)
  }

  lemma ImageAsked(catalog: Catalog, inst: Instance)
    ensures DeployedImage(catalog, inst).None? <==> UnknownBundle(catalog, inst)
    ensures DeployedImage(catalog, inst).Some? ==> DeployedImage(catalog, inst).value == ImageRun(catalog, inst)
  {
  }

  lemma DesiredAsked(s: Store, catalog: Catalog, inst: Instance, image: string)
    requires DeployedImage(catalog, inst) == Some(image) && PitrStorage(inst) != TooManyPitr
    ensures SpecAsked(s, catalog, inst, DesiredSpec(s, inst, image))
    ensures ClassAsked(inst, DesiredSpec(s, inst, image).storageClass)
  {
    ImageAsked(catalog, inst);
    PitrStorageIff(inst);
    hide PitrStorage, NoneHasPitr, OnlyPitr, TwoHavePitr, ImageRun, DeployedImage;
  }

  // ----- what a pass leaves of the MariaDB ------------------------------------

  /** The store differs in this MariaDB only, and its status is kept. */
  ghost predicate OnlyMariaDB(s: Store, t: Store, inst: Instance) {
    && inst.name in t.mariadbs
    && t.mariadbs == s.mariadbs[inst.name := t.mariadbs[inst.name]]
    && t.mariadbs[inst.name].status == (if inst.name in s.mariadbs then s.mariadbs[inst.name].status else NO_STATUS)
  }

  /** A MariaDB that was there gets everything declared but its class and its seed,
      which stay: a normal stored tree is not changed by declaring it again. */
  ghost predicate Updated(s: Store, t: Store, catalog: Catalog, inst: Instance) {
    && OnlyMariaDB(s, t, inst) && t == s.(mariadbs := t.mariadbs)
    && inst.name in s.mariadbs
    && var before, spec := s.mariadbs[inst.name].spec, t.mariadbs[inst.name].spec;
       && SpecAsked(s, catalog, inst, spec) && spec.storageClass == before.storageClass
       && (before.bootstrapFrom.None? ==> spec.bootstrapFrom.None?)
       && (before.bootstrapFrom.Some? && Normal(before.bootstrapFrom.value) && !Drops(before.bootstrapFrom.value) ==>
             spec.bootstrapFrom == before.bootstrapFrom)
  }

  /** A new one gets everything declared, and the seed and credentials of its source. */
  ghost predicate CreatedFrom(s: Store, t: Store, catalog: Catalog, inst: Instance) {
    && OnlyMariaDB(s, t, inst) && t == s.(mariadbs := t.mariadbs, secrets := t.secrets)
    && inst.name !in s.mariadbs
    && var spec := t.mariadbs[inst.name].spec;
       && SpecAsked(s, catalog, inst, spec) && ClassAsked(inst, spec.storageClass)
       && (NoSource(inst) ==> spec.bootstrapFrom == None && t.secrets == s.secrets)
       && (!NoSource(inst) ==> exists b, source :: SeededBy(s, t, inst, b, source))
  }

  ghost predicate SeededBy(s: Store, t: Store, inst: Instance, b: Bootstrap, source: string) {
    && SeedIs(s, inst, b, source)
    && inst.name in t.mariadbs && t.mariadbs[inst.name].spec.bootstrapFrom.Some?
    && SeedStored(t.mariadbs[inst.name].spec.bootstrapFrom.value, b)
    && Shared(s, t, RootOf(inst.name), RootOf(source)) && Shared(s, t, UserOf(inst.name), UserOf(source))
  }

  /** How a pass over the MariaDB ends. */
  ghost predicate MariaDBEnds(s: Store, catalog: Catalog, inst: Instance, outcome: Outcome) {
    if UnknownBundle(catalog, inst) || TwoHavePitr(inst) then outcome == Misconfigured
    else if inst.name in s.mariadbs || NoSource(inst) then outcome == Done
    else if !SeedEnds(s, inst, Done) then SeedEnds(s, inst, outcome)
    else
      forall b, source | SeedIs(s, inst, b, source) ::
        outcome == if Uncopied(s, inst, source) then Misconfigured else Done
  }

  lemma SeedUnique(s: Store, inst: Instance, b: Bootstrap, source: string, c: Bootstrap, origin: string)
    requires SeedIs(s, inst, b, source) && SeedIs(s, inst, c, origin)
    ensures source == origin
  {
  }

  /** What a pass over the MariaDB does, decided by the declaration and the store. */
  lemma MariaDBDecides(s: Store, env: Env, inst: Instance)
    ensures var p, t := MariaDBPlan(s, env, inst), After(s, MariaDBPlan(s, env, inst));
      && MariaDBEnds(s, env.catalog, inst, p.outcome) && SecretsKept(s, t)
      && (p.outcome == Done && inst.name in s.mariadbs ==> Updated(s, t, env.catalog, inst))
      && (p.outcome == Done && inst.name !in s.mariadbs ==> CreatedFrom(s, t, env.catalog, inst))
      && (p.outcome != Done ==> t == s.(secrets := t.secrets))
  {
    ImageAsked(env.catalog, inst);
    PitrStorageIff(inst);
    hide DeployedImage, PitrStorage, OnlyPitr, TwoHavePitr, DesiredSpec, CreatePlan, SpecAsked, UnknownBundle, ImageRun,
        SeedEnds, Updated, CreatedFrom, NoneHasPitr, SeedIs, Uncopied, Replay;
    AfterNothing(s);
    if DeployedImage(env.catalog, inst).Some? && !TwoHavePitr(inst) {
      var image := DeployedImage(env.catalog, inst).value;
      if inst.name in s.mariadbs {
        Update(s, env.catalog, inst, image);
        UpdateSecrets(s, After(s, MariaDBPlan(s, env, inst)), env.catalog, inst);
      } else {
        Creation(s, env.catalog, inst, image);
      }
    }
  }

  lemma UpdateSecrets(s: Store, t: Store, catalog: Catalog, inst: Instance)
    requires Updated(s, t, catalog, inst)
    ensures t.secrets == s.secrets
  {
    hide SpecAsked;
  }

  lemma Update(s: Store, catalog: Catalog, inst: Instance, image: string)
    requires inst.name in s.mariadbs
    requires DeployedImage(catalog, inst) == Some(image) && PitrStorage(inst) != TooManyPitr
    ensures Updated(s, After(s, ApplyPlan(inst, Redeclared(s.mariadbs[inst.name].spec, DesiredSpec(s, inst, image)))),
              catalog, inst)
  {
    DesiredAsked(s, catalog, inst, image);
    hide DeployedImage, PitrStorage, DesiredSpec, ImageRun, NoneHasPitr;
    var before := s.mariadbs[inst.name].spec;
    var spec := Redeclared(before, DesiredSpec(s, inst, image));
    AfterWrite(s, ApplyMariaDB(inst.name, spec), Done);
    if before.bootstrapFrom.Some? { FixedIffNormal(before.bootstrapFrom.value); }
  }

  lemma Creation(s: Store, catalog: Catalog, inst: Instance, image: string)
    requires inst.name !in s.mariadbs && !UnknownBundle(catalog, inst) && !TwoHavePitr(inst)
    requires DeployedImage(catalog, inst) == Some(image) && PitrStorage(inst) != TooManyPitr
    ensures var p := CreatePlan(s, inst, DesiredSpec(s, inst, image));
      && MariaDBEnds(s, catalog, inst, p.outcome) && SecretsKept(s, After(s, p))
      && (p.outcome == Done ==> CreatedFrom(s, After(s, p), catalog, inst))
      && (p.outcome != Done ==> After(s, p) == s.(secrets := After(s, p).secrets))
  {
    DesiredAsked(s, catalog, inst, image);
    DesiredPlain(s, inst, image);
    SeedDecides(s, inst);
    hide DeployedImage, PitrStorage, DesiredSpec, UnknownBundle, TwoHavePitr, SpecAsked, ResolveSeed, SeedEnds,
        SeedIs, Uncopied, CredentialsPlan, BootstrapTree, AppliedTree, SeededBy, Replay;
    AfterNothing(s);
    var spec := DesiredSpec(s, inst, image);
    match ResolveSeed(s, inst)
    case SeedStop(outcome) => EndsApart(s, inst, outcome);
    case NoSeed => AfterWrite(s, ApplyMariaDB(inst.name, spec), Done);
    case SeedFrom(b, source) =>
      SeededCreation(s, catalog, inst, spec, b, source);
      forall c, origin | SeedIs(s, inst, c, origin) ensures origin == source {
        SeedUnique(s, inst, b, source, c, origin);
      }
  }

  lemma SeededCreation(s: Store, catalog: Catalog, inst: Instance, spec: MariaDBSpec, b: Bootstrap, source: string)
    requires inst.name !in s.mariadbs && SeedIs(s, inst, b, source)
    requires SpecAsked(s, catalog, inst, spec) && ClassAsked(inst, spec.storageClass)
    ensures var seeded := spec.(bootstrapFrom := AppliedTree(Some(BootstrapTree(b))));
      var p := Then(CredentialsPlan(s, inst, source), ApplyPlan(inst, seeded));
      var t := After(s, p);
      && p.outcome == (if Uncopied(s, inst, source) then Misconfigured else Done)
      && SecretsKept(s, t)
      && (p.outcome != Done ==> t == s.(secrets := t.secrets))
      && (p.outcome == Done ==>
            && OnlyMariaDB(s, t, inst) && t == s.(mariadbs := t.mariadbs, secrets := t.secrets)
            && t.mariadbs[inst.name].spec == seeded && SeededBy(s, t, inst, b, source)
            && SpecAsked(s, catalog, inst, seeded))
  {
    SeedNamed(s, inst, b, source);
    SeedKeptStored(b);
    SpecSeeded(s, catalog, inst, spec, AppliedTree(Some(BootstrapTree(b))));
    hide SpecAsked, Shared, SeedIs, Uncopied, CredentialsPlan, BootstrapTree, SeedStored, AppliedTree, RootOf, UserOf,
        Replay;
    var seeded := spec.(bootstrapFrom := AppliedTree(Some(BootstrapTree(b))));
    var p := CredentialsPlan(s, inst, source);
    CredentialsDecide(s, inst, source);
    AfterThen(s, p, ApplyPlan(inst, seeded));
    AfterWrite(After(s, p), ApplyMariaDB(inst.name, seeded), Done);
    SharedStill(s, After(s, p), After(After(s, p), ApplyPlan(inst, seeded)), inst, source);
  }

  lemma SpecSeeded(s: Store, catalog: Catalog, inst: Instance, spec: MariaDBSpec, seed: Option<Json>)
    requires SpecAsked(s, catalog, inst, spec)
    ensures SpecAsked(s, catalog, inst, spec.(bootstrapFrom := seed))
  {
    hide ImageRun, NoneHasPitr;
  }

  lemma DesiredPlain(s: Store, inst: Instance, image: string)
    ensures DesiredSpec(s, inst, image).bootstrapFrom == None
  {
    hide PitrStorage;
  }

  lemma EndsApart(s: Store, inst: Instance, outcome: Outcome)
    requires SeedEnds(s, inst, outcome) && outcome != Done
    ensures !SeedEnds(s, inst, Done)
  {
  }

  lemma SeedNamed(s: Store, inst: Instance, b: Bootstrap, source: string)
    requires SeedIs(s, inst, b, source)
    ensures b.contentType != "" && (b.pitrRef.Some? ==> b.pitrRef.value != "")
  {
  }

  lemma SharedStill(s: Store, u: Store, t: Store, inst: Instance, source: string)
    requires t.secrets == u.secrets
    ensures Shared(s, u, RootOf(inst.name), RootOf(source)) ==> Shared(s, t, RootOf(inst.name), RootOf(source))
    ensures Shared(s, u, UserOf(inst.name), UserOf(source)) ==> Shared(s, t, UserOf(inst.name), UserOf(source))
  {
  }

  // ----- the template ---------------------------------------------------------

  function TemplateObject(inst: Instance): Key {
    Key(Physical, inst.name + "-replica-tpl")
  }

  /** A suspended, immediate-free snapshot to the first storage under the replica prefix. */
  ghost predicate TemplateUp(s: Store, t: Store, inst: Instance)
    requires TemplateAsked(inst)
  {
    && TemplateObject(inst) in t.backups
    && var cr := t.backups[TemplateObject(inst)];
       && PlacedOn(s, inst.backup.value.storages[0].storage, inst.name + "-replica", cr.storage)
       && cr.schedule == Some(CronSchedule("", true, false)) && cr.content == Snapshot("PreferReplica")
       && cr.owner == Some(Owner("MariaDB", inst.name))
       && if TemplateObject(inst) in s.backups then cr == s.backups[TemplateObject(inst)].(
                                                           schedule := cr.schedule, content := cr.content,
                                                           owner := cr.owner)
          else cr.labels == cr.inherited == map[] && cr.mariadb == inst.name && !cr.waitForIt
               && cr.maxRetention == 0 && cr.compression == ""
  }

  /** It exists, on another place than the first storage. */
  predicate TemplateMoved(s: Store, inst: Instance)
    requires TemplateAsked(inst)
  {
    TemplateObject(inst) in s.backups &&
    !PlacedOn(s, inst.backup.value.storages[0].storage, inst.name + "-replica",
        s.backups[TemplateObject(inst)].storage)
  }

  /** How a pass over a wanted template ends, with the MariaDB there. */
  predicate TemplateEnds(s: Store, inst: Instance, outcome: Outcome)
    requires TemplateAsked(inst)
  {
    var storage := inst.backup.value.storages[0].storage;
    if storage !in s.storages then outcome == Waiting
    else if s.storages[storage].s3.None? then outcome == Misconfigured
    else if TemplateMoved(s, inst) then outcome == Waiting
    else if TakenByAnother(s, TemplateObject(inst), Owner("MariaDB", inst.name)) then outcome == Conflicted
    else outcome == Done
  }

  lemma TemplateWritten(s: Store, inst: Instance, s3: S3)
    requires TemplateAsked(inst)
    requires PlacedOn(s, inst.backup.value.storages[0].storage, inst.name + "-replica", Some(s3))
    requires TemplateObject(inst) in s.backups ==> s.backups[TemplateObject(inst)].storage == Some(s3)
    ensures var key := TemplateObject(inst);
      var p := UpsertPlan(s, key, NextTemplate(s, inst, s3), MariaDBOwner(inst.name));
      var t := After(s, p);
      && t == s.(backups := t.backups) && (forall other | other != key :: SameAt(s, t, other))
      && p.outcome == (if TakenByAnother(s, key, Owner("MariaDB", inst.name)) then Conflicted else Done)
      && (p.outcome == Done ==> TemplateUp(s, t, inst))
  {
    hide PlacedOn;
    AfterUpsert(s, TemplateObject(inst), NextTemplate(s, inst, s3), MariaDBOwner(inst.name));
  }

  /** What a pass over the template does: gone when it is not asked for, up when it is,
      deleted and waited for when it is elsewhere. */
  lemma TemplateDecides(s: Store, inst: Instance)
    ensures var p, t := TemplatePlan(s, inst), After(s, TemplatePlan(s, inst));
      && t == s.(backups := t.backups) && (forall key | key != TemplateObject(inst) :: SameAt(s, t, key))
      && (!TemplateAsked(inst) ==> p.outcome == Done && TemplateObject(inst) !in t.backups)
      && (TemplateAsked(inst) && inst.name !in s.mariadbs ==> p == Stop(Done))
      && (TemplateAsked(inst) && inst.name in s.mariadbs ==>
            && TemplateEnds(s, inst, p.outcome)
            && (p.outcome == Done ==> TemplateUp(s, t, inst))
            && (inst.backup.value.storages[0].storage in s.storages && p.outcome == Waiting ==>
                  TemplateObject(inst) !in t.backups))
  {
    AfterNothing(s);
    if TemplateAsked(inst) {
      var storage := inst.backup.value.storages[0].storage;
      ResolvedPlace(s, storage, inst.name + "-replica");
      hide PointsAt, ResolveS3, UpsertPlan, NextTemplate, TemplateUp, Replay;
      AfterWrite(s, DeleteBackup(TemplateKey(inst)), Waiting);
      if ResolveS3(s, storage, inst.name + "-replica").ResolvedS3? {
        var s3 := ResolveS3(s, storage, inst.name + "-replica").s3;
        if TemplateObject(inst) !in s.backups || s.backups[TemplateObject(inst)].storage == Some(s3) {
          TemplateWritten(s, inst, s3);
        }
      }
    } else {
      AfterDelete(s, TemplateKey(inst));
    }
  }
}
