/** Which specifications are admitted and why others are not, in the fields of the
    specification and of the MariaDB provisioned for it
    (internal/provider/validate.go). */
module DeclaredAdmission {
  import opened Kube
  import opened Instances
  import opened ImageTag
  import opened PitrSync
  import opened MariaDBSync
  import opened TemplateSync
  import opened Validation
  import opened DeclaredPlaces
  import opened DeclaredPitr
  import opened DeclaredMariaDB

  // ----- what a specification must be -----------------------------------------

  /** One server, an odd quorum of at least three, or a primary with replicas. */
  predicate CountFits(topology: Topology, replicas: int) {
    match topology
    case TopologyUnset => replicas == 1
    case Standalone => replicas == 1
    case Galera => replicas >= 3 && replicas % 2 == 1
    case Replication => replicas >= 2
    case OtherTopology(_) => false
  }

  predicate CountsFit(inst: Instance) {
    if inst.engine.Some? && inst.engine.value.replicas.Some? then
      CountFits(inst.topology, inst.engine.value.replicas.value)
    else !inst.topology.OtherTopology?
  }

  /** A declared size is at least a gibibyte. */
  predicate SizeFits(inst: Instance) {
    inst.engine.Some? && inst.engine.value.storage.Some? && inst.engine.value.storage.value.size != 0 ==>
      inst.engine.value.storage.value.size >= 1_073_741_824
  }

  /** Point-in-time recovery is on for one storage at most, on a replication cluster,
      with a physical schedule to build on. */
  ghost predicate PitrFits(inst: Instance) {
    && !TwoHavePitr(inst)
    && (forall config | OnlyPitr(inst, config) ::
          inst.topology == Replication && exists k: nat :: FirstPhysicalAt(config.schedules, k))
  }

  ghost predicate Fits(inst: Instance) {
    inst.engine.Some? && SizeFits(inst) && CountsFit(inst) && PitrFits(inst)
  }

  predicate RecoversInTime(inst: Instance) {
    inst.dataSource.Some? && inst.dataSource.value.FromPointInTime?
  }

  lemma PitrFitsIff(inst: Instance)
    ensures ValidatePitr(inst).Accepted? <==>
              !TwoHavePitr(inst) && (forall config | OnlyPitr(inst, config) ::
                inst.topology == Replication && exists k: nat :: FirstPhysicalAt(config.schedules, k))
  {
    PitrStorageIff(inst);
    hide PitrStorage, OnlyPitr, TwoHavePitr, NoneHasPitr, FirstPhysical, FirstPhysicalAt, FirstUnreadableAt, Readable,
        SaysPhysical;
    if PitrStorage(inst).OnePitr? {
      var config := PitrStorage(inst).config;
      assert OnlyPitr(inst, config);
      FirstPhysicalIs(config.schedules);
      OneFirst(config.schedules);
      if FirstPhysical(config.schedules).NoPhysical? { NonePhysical(config.schedules); }
    }
  }

  lemma NonePhysical(schedules: seq<Schedule>)
    requires forall k | 0 <= k < |schedules| ::
      Readable(schedules[k].parameters) && !SaysPhysical(schedules[k].parameters)
    ensures !exists k: nat :: FirstPhysicalAt(schedules, k)
  {
    hide Readable, SaysPhysical;
  }

  lemma WellFormedIff(inst: Instance)
    ensures WellFormed(inst) <==> Fits(inst)
  {
    PitrFitsIff(inst);
    PitrStorageIff(inst);
    hide PitrStorage, OnlyPitr, TwoHavePitr, NoneHasPitr, FirstPhysical, FirstPhysicalAt;
  }

  /** A new Instance is admitted if and only if its specification fits, on a
      replication cluster when it recovers to a point in time. */
  lemma AdmittedAtCreation(s: Store, catalog: Catalog, inst: Instance)
    requires inst.name !in s.mariadbs
    ensures Validate(s, catalog, inst).Accepted? <==>
              Fits(inst) && (RecoversInTime(inst) ==> inst.topology == Replication)
  {
    hide Validate, WellFormed, Fits;
    AcceptedAtCreation(s, catalog, inst);
    WellFormedIff(inst);
  }

  // ----- what may replace what ------------------------------------------------

  /** The topology is the one provisioned; unset is standalone. */
  predicate SameTopology(existing: MariaDBSpec, topology: Topology) {
    if existing.galera then topology == Galera
    else if existing.replication then topology == Replication
    else topology in {TopologyUnset, Standalone}
  }

  predicate SmallerThan(inst: Instance, existing: MariaDBSpec) {
    && existing.size.Some?
    && (if inst.engine.Some? && inst.engine.value.storage.Some? && inst.engine.value.storage.value.size != 0
        then inst.engine.value.storage.value.size else 10_737_418_240) < existing.size.value
  }

  /** Both images read as versions and the one that would run is the older. */
  predicate RunsOlder(catalog: Catalog, inst: Instance, existing: MariaDBSpec) {
    && !UnknownBundle(catalog, inst)
    && var image := ImageRun(catalog, inst);
       && MinorVersion(existing.image).Some? && MinorVersion(image).Some?
       && var was, will := MinorVersion(existing.image).value, MinorVersion(image).value;
          will.major < was.major || (will.major == was.major && will.minor < was.minor)
  }

  /** An explicit class differs from one that is provisioned. */
  predicate OtherClass(inst: Instance, existing: MariaDBSpec) {
    && inst.engine.Some? && inst.engine.value.storage.Some? && inst.engine.value.storage.value.storageClass.Some?
    && existing.storageClass != "" && inst.engine.value.storage.value.storageClass.value != existing.storageClass
  }

  /** Replicas are added by number, with no backup storage to clone them from. */
  predicate UnseededGrowth(inst: Instance, existing: MariaDBSpec) {
    && inst.topology == Replication
    && !(inst.backup.Some? && inst.backup.value.enabled && inst.backup.value.storages != [])
    && inst.engine.Some? && inst.engine.value.replicas.Some? && inst.engine.value.replicas.value > existing.replicas
  }

  lemma TopologyIff(existing: MariaDBSpec, inst: Instance)
    requires Fits(inst)
    ensures ExistingTopology(existing) == Normalized(inst.topology) <==> SameTopology(existing, inst.topology)
  {
    hide PitrFits;
  }

  lemma DeclaredTopology(s: Store, inst: Instance, image: string)
    requires Fits(inst)
    ensures ExistingTopology(DesiredSpec(s, inst, image)) == Normalized(inst.topology)
  {
    hide PitrFits, PitrStorage;
  }

  lemma ProgressIff(s: Store, catalog: Catalog, inst: Instance)
    requires inst.name in s.mariadbs && Fits(inst) && DeployedImage(catalog, inst).Some?
    ensures var existing := s.mariadbs[inst.name].spec;
      Progress(existing, Declares(s, catalog, inst)) <==>
        && SameTopology(existing, inst.topology) && !SmallerThan(inst, existing) && !RunsOlder(catalog, inst, existing)
  {
    var existing := s.mariadbs[inst.name].spec;
    ImageAsked(catalog, inst);
    TopologyIff(existing, inst);
    DeclaredTopology(s, inst, DeployedImage(catalog, inst).value);
    hide Fits, PitrStorage, DesiredPitrRef, DesiredTemplateRef, DeployedImage, MinorVersion, UnknownBundle, ImageRun,
        Replicas, Normalized, SameTopology;
  }

  /** A specification is admitted over what is provisioned if and only if it fits, its
      version bundle is known, the topology stays, the volume does not shrink, the
      image is not older, the class stays, and no replica is added unseeded. */
  lemma AdmittedOnUpdate(s: Store, catalog: Catalog, inst: Instance)
    requires inst.name in s.mariadbs
    ensures var existing := s.mariadbs[inst.name].spec;
      Validate(s, catalog, inst).Accepted? <==>
        && Fits(inst) && !UnknownBundle(catalog, inst) && SameTopology(existing, inst.topology)
        && !SmallerThan(inst, existing) && !RunsOlder(catalog, inst, existing)
        && !OtherClass(inst, existing) && !UnseededGrowth(inst, existing)
  {
    AcceptedOnUpdate(s, catalog, inst);
    WellFormedIff(inst);
    ImageAsked(catalog, inst);
    if Fits(inst) && DeployedImage(catalog, inst).Some? { ProgressIff(s, catalog, inst); }
    hide Validate, WellFormed, Fits, Progress, Declares, DeployedImage, UnknownBundle, SameTopology, SmallerThan,
        RunsOlder;
  }

  // ----- why not --------------------------------------------------------------

  /** What each reason to refuse says of the specification. */
  ghost predicate Because(s: Store, catalog: Catalog, inst: Instance, reason: Rejection) {
    var replicas := if inst.engine.Some? then inst.engine.value.replicas else None;
    match reason
    case NoEngineComponent => inst.engine.None?
    case TooFewReplicas => replicas.Some? && replicas.value < 1
    case StorageTooSmall => !SizeFits(inst)
    case UnsupportedTopology => inst.topology.OtherTopology?
    case StandaloneNotSingle =>
      inst.topology in {TopologyUnset, Standalone} && replicas.Some? && replicas.value != 1
    case GaleraBelowQuorum => inst.topology == Galera && replicas.Some? && replicas.value < 3
    case GaleraEven => inst.topology == Galera && replicas.Some? && replicas.value % 2 == 0
    case ReplicationTooSmall => inst.topology == Replication && replicas.Some? && replicas.value < 2
    case ScaleOutUnseeded => inst.name in s.mariadbs && UnseededGrowth(inst, s.mariadbs[inst.name].spec)
    case TopologyChanged => inst.name in s.mariadbs && !SameTopology(s.mariadbs[inst.name].spec, inst.topology)
    case NoSuchBundle => UnknownBundle(catalog, inst)
    case Downgrade => inst.name in s.mariadbs && RunsOlder(catalog, inst, s.mariadbs[inst.name].spec)
    case StorageShrunk => inst.name in s.mariadbs && SmallerThan(inst, s.mariadbs[inst.name].spec)
    case StorageClassChanged => inst.name in s.mariadbs && OtherClass(inst, s.mariadbs[inst.name].spec)
    case TooManyPitrStorages => TwoHavePitr(inst)
    case PitrNeedsReplication => inst.topology != Replication && exists config :: OnlyPitr(inst, config)
    case PitrNeedsPhysicalSchedule =>
      exists config | OnlyPitr(inst, config) :: !exists k: nat :: FirstPhysicalAt(config.schedules, k)
    case RecoveryNeedsReplication =>
      RecoversInTime(inst) && inst.topology != Replication && inst.name !in s.mariadbs
  }

  lemma ShapeBecause(s: Store, catalog: Catalog, inst: Instance)
    ensures ValidateComponents(inst).Rejected? ==> Because(s, catalog, inst, ValidateComponents(inst).reason)
    ensures ValidateTopology(s, inst).Rejected? ==> Because(s, catalog, inst, ValidateTopology(s, inst).reason)
  {
    hide RunsOlder, SmallerThan, OtherClass, UnknownBundle;
  }

  lemma UpdateBecause(s: Store, catalog: Catalog, inst: Instance)
    ensures ValidateEngineUpdate(s, catalog, inst).Rejected? ==>
              Because(s, catalog, inst, ValidateEngineUpdate(s, catalog, inst).reason)
  {
    ImageAsked(catalog, inst);
    hide MinorVersion, UnseededGrowth, SameTopology, SizeFits;
  }

  lemma PitrBecause(s: Store, catalog: Catalog, inst: Instance)
    ensures ValidatePitr(inst).Rejected? ==> Because(s, catalog, inst, ValidatePitr(inst).reason)
  {
    PitrFitsIff(inst);
    PitrStorageIff(inst);
    hide PitrStorage, OnlyPitr, TwoHavePitr, NoneHasPitr, FirstPhysical, FirstPhysicalAt, RunsOlder, SmallerThan,
        OtherClass, UnknownBundle, UnseededGrowth, SameTopology, SizeFits;
    if PitrStorage(inst).OnePitr? { assert OnlyPitr(inst, PitrStorage(inst).config); }
  }

  /** Whatever is refused is refused for a reason that holds. */
  lemma RefusedBecause(s: Store, catalog: Catalog, inst: Instance)
    ensures Validate(s, catalog, inst).Rejected? ==> Because(s, catalog, inst, Validate(s, catalog, inst).reason)
  {
    hide ValidateComponents, ValidateTopology, ValidateEngineUpdate, ValidatePitr;
    ShapeBecause(s, catalog, inst);
    UpdateBecause(s, catalog, inst);
    PitrBecause(s, catalog, inst);
  }
}
