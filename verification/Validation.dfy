/** Admission: which specifications the provider accepts, judged against the
    MariaDB already provisioned (internal/provider/validate.go). */
module Validation {
  import opened Kube
  import opened Names
  import opened Plans
  import opened Instances
  import opened Seeding
  import opened MariaDBSync
  import opened ImageTag
  import PitrSync
  import TemplateSync

  datatype Rejection =
    | NoEngineComponent
    | TooFewReplicas
    | StorageTooSmall
    | UnsupportedTopology
    | StandaloneNotSingle
    | GaleraBelowQuorum
    | GaleraEven
    | ReplicationTooSmall
    | ScaleOutUnseeded
    | TopologyChanged
    | NoSuchBundle
    | Downgrade
    | StorageShrunk
    | StorageClassChanged
    | TooManyPitrStorages
    | PitrNeedsReplication
    | PitrNeedsPhysicalSchedule
    | RecoveryNeedsReplication

  datatype Verdict = Accepted | Rejected(reason: Rejection)

  function AndThen(first: Verdict, second: Verdict): Verdict {
    if first.Accepted? then second else first
  }

  function Normalized(topology: Topology): Topology {
    if topology == TopologyUnset then Standalone else topology
  }

  function ExistingTopology(spec: MariaDBSpec): Topology {
    if spec.galera then Galera else if spec.replication then Replication else Standalone
  }

  function ValidateComponents(inst: Instance): Verdict {
    match inst.engine
    case None => Rejected(NoEngineComponent)
    case Some(engine) =>
      if engine.replicas.Some? && engine.replicas.value < 1 then Rejected(TooFewReplicas)
      else if engine.storage.Some? && engine.storage.value.size != 0 && engine.storage.value.size < GI then
        Rejected(StorageTooSmall)
      else Accepted
  }

  function ValidateStandaloneReplicas(inst: Instance): Verdict {
    var engine := TheEngine(inst);
    if engine.replicas.Some? && engine.replicas.value != STANDALONE_REPLICAS then Rejected(StandaloneNotSingle)
    else Accepted
  }

  function ValidateGaleraReplicas(inst: Instance): Verdict {
    var engine := TheEngine(inst);
    var replicas := if engine.replicas.Some? then engine.replicas.value else GALERA_REPLICAS;
    if replicas < 3 then Rejected(GaleraBelowQuorum)
    else if replicas % 2 == 0 then Rejected(GaleraEven)
    else Accepted
  }

  function ValidateReplicationReplicas(inst: Instance): Verdict {
    var engine := TheEngine(inst);
    var replicas := if engine.replicas.Some? then engine.replicas.value else REPLICATION_REPLICAS;
    if replicas < 2 then Rejected(ReplicationTooSmall) else Accepted
  }

  /** New replicas are cloned from a backup, so adding some needs a backup storage.
      With no declared count there is nothing to compare, and the check passes. */
  function ValidateScaleOut(s: Store, inst: Instance): Verdict {
    var engine := TheEngine(inst);
    if TemplateSync.TemplateStorage(inst).Some? || inst.name !in s.mariadbs then Accepted
    else if engine.replicas.None? || engine.replicas.value <= s.mariadbs[inst.name].spec.replicas then Accepted
    else Rejected(ScaleOutUnseeded)
  }

  function ValidateTopologyImmutable(s: Store, inst: Instance): Verdict {
    if inst.name in s.mariadbs && ExistingTopology(s.mariadbs[inst.name].spec) != Normalized(inst.topology)
    then Rejected(TopologyChanged) else Accepted
  }

  function ValidateTopology(s: Store, inst: Instance): Verdict {
    var shape :=
      match inst.topology
      case TopologyUnset => ValidateStandaloneReplicas(inst)
      case Standalone => ValidateStandaloneReplicas(inst)
      case Galera => ValidateGaleraReplicas(inst)
      case Replication => AndThen(ValidateReplicationReplicas(inst), ValidateScaleOut(s, inst))
      case OtherTopology(_) => Rejected(UnsupportedTopology);
    AndThen(shape, ValidateTopologyImmutable(s, inst))
  }

  /** Lexicographically below. */
  predicate Older(a: Version, b: Version) {
    a.major < b.major || (a.major == b.major && a.minor < b.minor)
  }

  function ValidateVersionDowngrade(catalog: Catalog, inst: Instance, existing: MariaDBSpec): Verdict {
    match WithBundle(catalog, inst)
    case None => Rejected(NoSuchBundle)
    case Some(engine) =>
      match (MinorVersion(existing.image), MinorVersion(ResolveImage(catalog, engine)))
      case (Some(current), Some(desired)) => if Older(desired, current) then Rejected(Downgrade) else Accepted
      case _ => Accepted
  }

  function ValidateStorageUpdate(inst: Instance, existing: MariaDBSpec): Verdict {
    var engine := TheEngine(inst);
    if existing.size.Some? && EngineSize(engine) < existing.size.value then Rejected(StorageShrunk)
    else if engine.storage.None? || engine.storage.value.storageClass.None? || existing.storageClass == "" then Accepted
    else if engine.storage.value.storageClass.value != existing.storageClass then Rejected(StorageClassChanged)
    else Accepted
  }

  function ValidateEngineUpdate(s: Store, catalog: Catalog, inst: Instance): Verdict {
    if inst.name !in s.mariadbs then Accepted
    else
      var existing := s.mariadbs[inst.name].spec;
      AndThen(ValidateVersionDowngrade(catalog, inst, existing), ValidateStorageUpdate(inst, existing))
  }

  function ValidatePitr(inst: Instance): Verdict {
    match PitrSync.PitrStorage(inst)
    case TooManyPitr => Rejected(TooManyPitrStorages)
    case NoPitr => Accepted
    case OnePitr(config) =>
      if Normalized(inst.topology) != Replication then Rejected(PitrNeedsReplication)
      else if !PitrSync.FirstPhysical(config.schedules).BaseOn? then Rejected(PitrNeedsPhysicalSchedule)
      else Accepted
  }

  function ValidatePointInTimeDataSource(s: Store, inst: Instance): Verdict {
    if inst.dataSource.None? || !inst.dataSource.value.FromPointInTime? then Accepted
    else if Normalized(inst.topology) == Replication || inst.name in s.mariadbs then Accepted
    else Rejected(RecoveryNeedsReplication)
  }

  function Validate(s: Store, catalog: Catalog, inst: Instance): Verdict {
    AndThen(ValidateComponents(inst),
    AndThen(ValidateTopology(s, inst),
    AndThen(ValidateEngineUpdate(s, catalog, inst),
    AndThen(ValidatePitr(inst), ValidatePointInTimeDataSource(s, inst)))))
  }

  // ----- what acceptance means ------------------------------------------------

  /** The replica counts each topology can run with. */
  predicate ReplicaRule(topology: Topology, replicas: int) {
    match topology
    case Standalone => replicas == 1
    case Galera => replicas >= 3 && replicas % 2 == 1
    case Replication => replicas >= 2
    case _ => false
  }

  /** Neither image tag says that b is an older server than a. */
  predicate NoDowngrade(a: string, b: string) {
    MinorVersion(a).Some? && MinorVersion(b).Some? ==> !Older(MinorVersion(b).value, MinorVersion(a).value)
  }

  /** One MariaDB specification may replace the other. */
  predicate Progress(a: MariaDBSpec, b: MariaDBSpec) {
    && ExistingTopology(a) == ExistingTopology(b)
    && (a.size.Some? ==> b.size.Some? && a.size.value <= b.size.value)
    && NoDowngrade(a.image, b.image)
    && a.storageClass == b.storageClass
  }

  /** A storage class named on both sides is the same one. */
  predicate KeepsClass(engine: Engine, existing: MariaDBSpec) {
    engine.storage.Some? && engine.storage.value.storageClass.Some? && existing.storageClass != "" ==>
      engine.storage.value.storageClass.value == existing.storageClass
  }

  /** What Sync declares for this specification, bootstrapFrom aside. */
  function Declares(s: Store, catalog: Catalog, inst: Instance): MariaDBSpec
    requires DeployedImage(catalog, inst).Some?
  {
    var spec := DesiredSpec(s, inst, DeployedImage(catalog, inst).value);
    if inst.name in s.mariadbs then Redeclared(s.mariadbs[inst.name].spec, spec) else spec
  }

  /** What does not depend on anything provisioned. */
  predicate WellFormed(inst: Instance) {
    && inst.engine.Some? && (inst.engine.value.storage.Some? ==> EngineSize(inst.engine.value) >= GI)
    && ReplicaRule(Normalized(inst.topology), Replicas(inst))
    && (match PitrSync.PitrStorage(inst)
        case TooManyPitr => false
        case NoPitr => true
        case OnePitr(config) => inst.topology == Replication && PitrSync.FirstPhysical(config.schedules).BaseOn?)
  }

  lemma ShapeAccepted(s: Store, inst: Instance)
    ensures ValidateComponents(inst).Accepted? && ValidateTopology(s, inst).Accepted? && ValidatePitr(inst).Accepted?
            <==>
            WellFormed(inst) && (inst.topology == Replication ==> ValidateScaleOut(s, inst).Accepted?) &&
            ValidateTopologyImmutable(s, inst).Accepted?
  {
    hide TemplateSync.TemplateStorage, PitrSync.PitrStorage, PitrSync.FirstPhysical;
  }

  /** For a new Instance, admission accepts exactly the well-formed ones, where
      recovery to a point in time asks for replication. */
  lemma AcceptedAtCreation(s: Store, catalog: Catalog, inst: Instance)
    requires inst.name !in s.mariadbs
    ensures Validate(s, catalog, inst).Accepted? <==>
            WellFormed(inst)
              && (inst.dataSource.Some? && inst.dataSource.value.FromPointInTime? ==> inst.topology == Replication)
  {
    hide PitrSync.PitrStorage, PitrSync.FirstPhysical, Replicas;
    ShapeAccepted(s, inst);
  }

  /** For an existing one, it accepts exactly the well-formed specifications whose
      MariaDB may replace the provisioned one, that keep an explicit storage class,
      and that do not add replicas by number without a backup storage. */
  lemma AcceptedOnUpdate(s: Store, catalog: Catalog, inst: Instance)
    requires inst.name in s.mariadbs
    ensures Validate(s, catalog, inst).Accepted? <==>
            && WellFormed(inst) && DeployedImage(catalog, inst).Some?
            && Progress(s.mariadbs[inst.name].spec, Declares(s, catalog, inst))
            && KeepsClass(TheEngine(inst), s.mariadbs[inst.name].spec)
            && (inst.topology == Replication && TemplateSync.TemplateStorage(inst).None?
                && TheEngine(inst).replicas.Some? ==>
                  Replicas(inst) <= s.mariadbs[inst.name].spec.replicas)
  {
    hide PitrSync.PitrStorage, PitrSync.FirstPhysical, PitrSync.DesiredPitrRef, TemplateSync.DesiredTemplateRef,
        TemplateSync.TemplateStorage,
         AppliedTree, MinorVersion, WithBundle, ResolveImage;
    ShapeAccepted(s, inst);
    if WellFormed(inst) { UpdateAccepted(s, catalog, inst); }
  }

  lemma UpdateAccepted(s: Store, catalog: Catalog, inst: Instance)
    requires inst.name in s.mariadbs && inst.engine.Some?
             && Normalized(inst.topology) in {Standalone, Galera, Replication}
    ensures var a := s.mariadbs[inst.name].spec;
      ValidateTopologyImmutable(s, inst).Accepted? && ValidateEngineUpdate(s, catalog, inst).Accepted? <==>
        && DeployedImage(catalog, inst).Some?
        && Progress(a, Declares(s, catalog, inst))
        && KeepsClass(TheEngine(inst), a)
  {
    hide PitrSync.PitrStorage, PitrSync.FirstPhysical, PitrSync.DesiredPitrRef, TemplateSync.DesiredTemplateRef,
        TemplateSync.TemplateStorage,
         AppliedTree, MinorVersion, WithBundle, ResolveImage;
  }
}
