/** Seeding a new Instance: where its data comes from, and the credentials it
    must share with its source (internal/provider/datasource.go). */
module Seeding {
  import opened Json
  import opened Kube
  import opened Names
  import opened Plans
  import opened Instances
  import opened ClusterApi

  datatype Bootstrap = Bootstrap(s3: Option<S3>, contentType: string, pitrRef: Option<string>, targetTime: Option<int>)

  const LOGICAL_CONTENT := "Logical"
  const PHYSICAL_CONTENT := "Physical"

  function S3Tree(s3: S3): Json {
    Obj(map["bucket" := Str(s3.bucket), "endpoint" := Str(s3.endpoint), "region" := Str(s3.region),
            "prefix" := Str(s3.prefix), "credentials" := Str(s3.credentials), "tls" := Bool(s3.tls)])
  }

  /** The object as it is sent: absent pointers are null, absent text is "". */
  function BootstrapTree(b: Bootstrap): Json {
    Obj(map["s3" := if b.s3.Some? then S3Tree(b.s3.value) else Null,
            "backupContentType" := Str(b.contentType),
            "pointInTimeRecoveryRef" := if b.pitrRef.Some? then Obj(map["name" := Str(b.pitrRef.value)]) else Null,
            "targetRecoveryTime" := if b.targetTime.Some? then Num(b.targetTime.value) else Null])
  }

  /** What server-side apply stores for a declared subtree: its pruned form, or
      nothing if pruning drops it. */
  function AppliedTree(t: Option<Json>): Option<Json> {
    if t.None? || Drops(t.value) then None else Some(Pruned(t.value))
  }

  /** Declaring again what was stored stores the same: the field is never lost or
      changed by being re-applied. This rests on pruning being idempotent. */
  lemma AppliedTreeTwice(t: Option<Json>)
    ensures AppliedTree(AppliedTree(t)) == AppliedTree(t)
  {
    if t.Some? {
      DropsPruned(t.value);
      PrunedTwice(t.value);
    }
  }

  // ----- resolving the source -------------------------------------------------

  datatype Seed = NoSeed | SeedStop(outcome: Outcome) | SeedFrom(bootstrap: Bootstrap, source: string)

  function ResolveBackup(s: Store, name: string): Seed {
    if name !in s.everestBackups then SeedStop(Waiting)
    else
      var b := s.everestBackups[name];
      match ParseParameters(b.parameters)
      case None => SeedStop(Misconfigured)
      case Some(p) =>
        if b.state == StateFailed then SeedStop(Misconfigured)
        else if b.state != StateSucceeded then SeedStop(Waiting)
        else match b.origin
          case None => SeedStop(Panicked)
          case Some(source) =>
            match ResolveS3(s, b.storage, source)
            case NotPresent => SeedStop(Waiting)
            case NotS3 => SeedStop(Misconfigured)
            case ResolvedS3(s3) =>
              var content := if KindOf(p) == Physical then PHYSICAL_CONTENT else LOGICAL_CONTENT;
              SeedFrom(Bootstrap(Some(s3), content, None, b.completedAt), source)
  }

  function ResolvePointInTime(s: Store, pit: PointInTime): Seed {
    match pit.instanceRef
    case None => SeedStop(Misconfigured)
    case Some(source) =>
      if source == "" || (pit.toDate && pit.date.None?) then SeedStop(Misconfigured)
      else if PitrName(source) !in s.pitrs then SeedStop(Waiting)
      else
        var target := if pit.toDate then pit.date else None;
        SeedFrom(Bootstrap(None, PHYSICAL_CONTENT, Some(PitrName(source)), target), source)
  }

  function ResolveSeed(s: Store, inst: Instance): Seed {
    match inst.dataSource
    case None => NoSeed
    case Some(FromElsewhere) => NoSeed
    case Some(FromBackup(None)) => NoSeed
    case Some(FromBackup(Some(name))) => ResolveBackup(s, name)
    case Some(FromPointInTime(None)) => NoSeed
    case Some(FromPointInTime(Some(pit))) => ResolvePointInTime(s, pit)
  }

  // ----- credentials ----------------------------------------------------------

  function CopyPlan(s: Store, src: string, dst: string): Plan {
    if dst in s.secrets then Stop(Done)
    else if src !in s.secrets then Stop(Misconfigured)
    else Plan([CreateSecret(dst, s.secrets[src])], Done)
  }

  function CredentialsPlan(s: Store, inst: Instance, source: string): Plan {
    var p := CopyPlan(s, RootSecretName(source), RootSecretName(inst.name));
    Then(p, CopyPlan(After(s, p), UserSecretName(source), UserSecretName(inst.name)))
  }

  method CopyInstanceSecret(c: Cluster, src: string, dst: string) returns (out: Outcome)
    modifies c
    ensures c.RanSince(old(c.State()), old(c.log), CopyPlan(old(c.State()), src, dst), out)
    ensures c.failures == old(c.failures) + Failures(out)
  {
    var existing := c.Get(c.secrets, dst);
    match existing {
      case Failed => return Aborted;
      case Present(_) => return Done;
      case Missing =>
    }
    var source := c.Get(c.secrets, src);
    match source {
      case Failed => out := Aborted;
      case Missing => out := Misconfigured;
      case Present(secret) => out := c.Perform(CreateSecret(dst, secret));
    }
  }

  method EnsureRestoreCredentials(c: Cluster, inst: Instance, source: string) returns (out: Outcome)
    modifies c
    ensures c.RanSince(old(c.State()), old(c.log), CredentialsPlan(old(c.State()), inst, source), out)
    ensures c.failures == old(c.failures) + Failures(out)
  {
    ghost var s0, l0, p := c.State(), c.log, CopyPlan(c.State(), RootSecretName(source), RootSecretName(inst.name));
    out := CopyInstanceSecret(c, RootSecretName(source), RootSecretName(inst.name));
    ghost var s1, l1 := c.State(), c.log;
    if out != Done {
      RanStop(s0, l0, s1, l1, p, CopyPlan(After(s0, p), UserSecretName(source), UserSecretName(inst.name)), out);
      return;
    }
    out := CopyInstanceSecret(c, UserSecretName(source), UserSecretName(inst.name));
    RanThen(s0, l0, s1, l1, c.State(), c.log, p, CopyPlan(s1, UserSecretName(source), UserSecretName(inst.name)), out);
  }

  /** resolveBootstrapFrom, with every read a call that may fail. */
  method ResolveBootstrapFrom(c: Cluster, inst: Instance) returns (seed: Seed)
    modifies c`failures
    ensures c.failures == old(c.failures) + if seed == SeedStop(Aborted) then 1 else 0
    ensures seed == SeedStop(Aborted) || seed == ResolveSeed(c.State(), inst)
  {
    var everestBackups, pitrs := c.everestBackups, c.pitrs;
    match inst.dataSource {
      case Some(FromBackup(Some(name))) =>
        var source := c.Get(everestBackups, name);
        if source.Failed? { return SeedStop(Aborted); }
        if source.Missing? { return SeedStop(Waiting); }
        var b := source.value;
        var params := ParseParameters(b.parameters);
        if params.None? { return SeedStop(Misconfigured); }
        if b.state == StateFailed { return SeedStop(Misconfigured); }
        if b.state != StateSucceeded { return SeedStop(Waiting); }
        if b.origin.None? { return SeedStop(Panicked); }
        var storage := c.Get(c.storages, b.storage);
        if storage.Failed? { return SeedStop(Aborted); }
        if storage.Missing? { return SeedStop(Waiting); }
        var r := ResolveS3(Store(map[], map[], map[], map[], map[], c.storages, map[]), b.storage, b.origin.value);
        if r.NotS3? { return SeedStop(Misconfigured); }
        var content := if KindOf(params.value) == Physical then PHYSICAL_CONTENT else LOGICAL_CONTENT;
        seed := SeedFrom(Bootstrap(Some(r.s3), content, None, b.completedAt), b.origin.value);
      case Some(FromPointInTime(Some(pit))) =>
        if pit.instanceRef.None? || pit.instanceRef.value == "" { return SeedStop(Misconfigured); }
        if pit.toDate && pit.date.None? { return SeedStop(Misconfigured); }
        var name := PitrName(pit.instanceRef.value);
        var pitr := c.Get(pitrs, name);
        if pitr.Failed? { return SeedStop(Aborted); }
        if pitr.Missing? { return SeedStop(Waiting); }
        seed := SeedFrom(Bootstrap(None, PHYSICAL_CONTENT, Some(name), if pit.toDate then pit.date else None),
            pit.instanceRef.value);
      case _ => seed := NoSeed;
    }
  }
}
