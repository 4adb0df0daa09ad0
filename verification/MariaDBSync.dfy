/** The MariaDB an Instance asks for, and how it is applied
    (internal/provider/mariadb.go). */
module MariaDBSync {
  import opened Json
  import opened Kube
  import opened Names
  import opened Plans
  import opened Instances
  import opened ClusterApi
  import opened Seeding
  import PitrSync
  import TemplateSync

  const STANDALONE_REPLICAS := 1
  const GALERA_REPLICAS := 3
  const REPLICATION_REPLICAS := 3

  function DefaultReplicas(topology: Topology): int {
    match topology
    case Galera => GALERA_REPLICAS
    case Replication => REPLICATION_REPLICAS
    case _ => STANDALONE_REPLICAS
  }

  function Replicas(inst: Instance): int {
    var engine := TheEngine(inst);
    if engine.replicas.Some? then engine.replicas.value else DefaultReplicas(inst.topology)
  }

  const GI := 1024 * 1024 * 1024

  /** Sizes are in bytes; a zero size means unset. */
  function EngineSize(engine: Engine): int {
    if engine.storage.Some? && engine.storage.value.size != 0 then engine.storage.value.size else 10 * GI
  }

  function StorageClass(engine: Engine): string {
    match engine.storage
    case None => ""
    case Some(storage) => if storage.storageClass.Some? then storage.storageClass.value else ""
  }

  /** The engine with its version filled in from the version bundle, unless an
      image or a version is set; None when the bundle does not exist. */
  function WithBundle(catalog: Catalog, inst: Instance): Option<Engine> {
    var engine := TheEngine(inst);
    if engine.image != "" || engine.version != "" then Some(engine)
    else
      var bundle := if inst.versionBundle != "" then inst.versionBundle else catalog.defaultBundle;
      if bundle == "" then Some(engine)
      else if bundle !in catalog.bundles then None
      else Some(engine.(version := catalog.bundles[bundle]))
  }

  function ResolveImage(catalog: Catalog, engine: Engine): string {
    if engine.image != "" then engine.image
    else
      var versioned := engine.version != "" && engine.version in catalog.images;
      var image := if versioned then catalog.images[engine.version] else "";
      if image == "" then catalog.defaultImage else image
  }

  /** The image Sync deploys; the runtime fills in the bundle version first. */
  function DeployedImage(catalog: Catalog, inst: Instance): Option<string> {
    match WithBundle(catalog, inst)
    case None => None
    case Some(engine) => Some(ResolveImage(catalog, engine))
  }

  /** The declared fields other than bootstrapFrom. */
  function DesiredSpec(s: Store, inst: Instance, image: string): MariaDBSpec {
    MariaDBSpec(
      image, Replicas(inst), Some(EngineSize(TheEngine(inst))), StorageClass(TheEngine(inst)),
      inst.topology == Galera, inst.topology == Replication, None,
      PitrSync.DesiredPitrRef(s, inst), TemplateSync.DesiredTemplateRef(inst))
  }

  function ApplyPlan(inst: Instance, spec: MariaDBSpec): Plan {
    Plan([ApplyMariaDB(inst.name, spec)], Done)
  }

  function CreatePlan(s: Store, inst: Instance, spec: MariaDBSpec): Plan {
    match ResolveSeed(s, inst)
    case SeedStop(outcome) => Stop(outcome)
    case NoSeed => ApplyPlan(inst, spec)
    case SeedFrom(bootstrap, source) =>
      Then(CredentialsPlan(s, inst, source),
          ApplyPlan(inst, spec.(bootstrapFrom := AppliedTree(Some(BootstrapTree(bootstrap))))))
  }

  /** Immutable once set: the stored bootstrapFrom and storage class are declared again. */
  function Redeclared(existing: MariaDBSpec, spec: MariaDBSpec): MariaDBSpec {
    spec.(bootstrapFrom := AppliedTree(existing.bootstrapFrom), storageClass := existing.storageClass)
  }

  function MariaDBPlan(s: Store, env: Env, inst: Instance): Plan {
    match DeployedImage(env.catalog, inst)
    case None => Stop(Misconfigured)
    case Some(image) =>
      if PitrSync.PitrStorage(inst).TooManyPitr? then Stop(Misconfigured)
      else
        var spec := DesiredSpec(s, inst, image);
        if inst.name in s.mariadbs then ApplyPlan(inst, Redeclared(s.mariadbs[inst.name].spec, spec))
        else CreatePlan(s, inst, spec)
  }

  /** desiredMariaDB; the PITR reference is looked up when one is wanted. */
  method DesiredMariaDB(c: Cluster, env: Env, inst: Instance) returns (out: Outcome, spec: Option<MariaDBSpec>)
    modifies c`failures
    ensures c.failures == old(c.failures) + Failures(out)
    ensures out == Done ==>
            spec.Some? && DeployedImage(env.catalog, inst).Some? && !PitrSync.PitrStorage(inst).TooManyPitr? &&
                            spec.value == DesiredSpec(c.State(), inst, DeployedImage(env.catalog, inst).value)
    ensures out != Done ==> out == Aborted || out == Misconfigured
    ensures out == Misconfigured ==> DeployedImage(env.catalog, inst).None? || PitrSync.PitrStorage(inst).TooManyPitr?
  {
    spec := None;
    var image := DeployedImage(env.catalog, inst);
    if image.None? { return Misconfigured, None; }
    var choice := PitrSync.PitrEnabledStorage(inst);
    var pitrRef: Option<string> := None;
    match choice {
      case TooManyPitr => return Misconfigured, None;
      case NoPitr =>
      case OnePitr(_) =>
        var name := PitrName(inst.name);
        var pitr := c.Get(c.pitrs, name);
        match pitr {
          case Failed => return Aborted, None;
          case Missing =>
          case Present(_) => pitrRef := Some(name);
        }
    }
    var engine := TheEngine(inst);
    out, spec := Done, Some(MariaDBSpec(
      image.value, Replicas(inst), Some(EngineSize(engine)), StorageClass(engine),
      inst.topology == Galera, inst.topology == Replication, None, pitrRef, TemplateSync.DesiredTemplateRef(inst)));
  }

  method SyncMariaDB(c: Cluster, env: Env, inst: Instance) returns (out: Outcome)
    modifies c
    ensures c.RanSince(old(c.State()), old(c.log), MariaDBPlan(old(c.State()), env, inst), out)
    ensures c.failures == old(c.failures) + Failures(out)
  {
    ghost var s0, l0 := c.State(), c.log;
    var desired;
    out, desired := DesiredMariaDB(c, env, inst);
    if out != Done { return; }
    var spec := desired.value;
    var existing := c.Get(c.mariadbs, inst.name);
    match existing {
      case Failed => return Aborted;
      case Present(mdb) =>
        // Handing field ownership over from the legacy manager changes no field.
        var failed := c.Fails();
        if failed { return Aborted; }
        spec := Redeclared(mdb.spec, spec);
      case Missing =>
        var seed := ResolveBootstrapFrom(c, inst);
        match seed {
          case SeedStop(outcome) => return outcome;
          case NoSeed =>
          case SeedFrom(bootstrap, source) =>
            spec := spec.(bootstrapFrom := AppliedTree(Some(BootstrapTree(bootstrap))));
            out := EnsureRestoreCredentials(c, inst, source);
            ghost var p, s1, l1 := CredentialsPlan(s0, inst, source), c.State(), c.log;
            if out != Done {
              RanStop(s0, l0, s1, l1, p, ApplyPlan(inst, spec), out);
              return;
            }
            out := c.Perform(ApplyMariaDB(inst.name, spec));
            RanThen(s0, l0, s1, l1, c.State(), c.log, p, ApplyPlan(inst, spec), out);
            return;
        }
    }
    out := c.Perform(ApplyMariaDB(inst.name, spec));
  }
}
