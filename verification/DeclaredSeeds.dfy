/** Where a new Instance's data and credentials come from, in the fields of its data
    source, and what of it the stored MariaDB says
    (internal/provider/datasource.go). */
module DeclaredSeeds {
  import opened Json
  import opened Kube
  import opened Names
  import opened Plans
  import opened Instances
  import opened ClusterApi
  import opened Seeding
  import opened DeclaredPlaces

  // ----- the seed -------------------------------------------------------------

  /** Nothing to seed from: no source, one of another type, or one that names nothing. */
  predicate NoSource(inst: Instance) {
    inst.dataSource in {None, Some(FromElsewhere), Some(FromBackup(None)), Some(FromPointInTime(None))}
  }

  /** Why a backup cannot be read yet, or at all. */
  predicate BackupEnds(s: Store, name: string, outcome: Outcome) {
    if name !in s.everestBackups then outcome == Waiting
    else
      var b := s.everestBackups[name];
      if !Readable(b.parameters) || b.state == StateFailed then outcome == Misconfigured
      else if b.state != StateSucceeded then outcome == Waiting
      else if b.origin.None? then outcome == Panicked
      else if b.storage !in s.storages then outcome == Waiting
      else if s.storages[b.storage].s3.None? then outcome == Misconfigured
      else outcome == Done
  }

  /** The backup's place under its Instance's prefix, its kind, and when it completed. */
  predicate BackupSeed(s: Store, name: string, b: Bootstrap, source: string) {
    && name in s.everestBackups
    && var backup := s.everestBackups[name];
       && backup.origin == Some(source)
       && PlacedOn(s, backup.storage, source, b.s3)
       && b.contentType == (if SaysPhysical(backup.parameters) then "Physical" else "Logical")
       && b.pitrRef == None && b.targetTime == backup.completedAt
  }

  predicate TimeEnds(s: Store, point: PointInTime, outcome: Outcome) {
    if point.instanceRef.None? || point.instanceRef.value == "" || (point.toDate && point.date.None?) then
      outcome == Misconfigured
    else if point.instanceRef.value + "-pitr" !in s.pitrs then outcome == Waiting
    else outcome == Done
  }

  /** The source's PITR object, up to the declared date, or as far as it goes. */
  predicate TimeSeed(point: PointInTime, b: Bootstrap, source: string) {
    && point.instanceRef == Some(source)
    && b.s3 == None && b.contentType == "Physical" && b.pitrRef == Some(source + "-pitr")
    && (point.toDate ==> b.targetTime == point.date) && (!point.toDate ==> b.targetTime == None)
  }

  predicate SeedEnds(s: Store, inst: Instance, outcome: Outcome) {
    match inst.dataSource
    case Some(FromBackup(Some(name))) => BackupEnds(s, name, outcome)
    case Some(FromPointInTime(Some(point))) => TimeEnds(s, point, outcome)
    case _ => outcome == Done
  }

  predicate SeedIs(s: Store, inst: Instance, b: Bootstrap, source: string) {
    match inst.dataSource
    case Some(FromBackup(Some(name))) => BackupSeed(s, name, b, source)
    case Some(FromPointInTime(Some(point))) => TimeSeed(point, b, source)
    case _ => false
  }

  /** What the data source resolves to. */
  lemma SeedDecides(s: Store, inst: Instance)
    ensures match ResolveSeed(s, inst)
            case NoSeed => NoSource(inst)
            case SeedStop(outcome) => outcome != Done && !NoSource(inst) && SeedEnds(s, inst, outcome)
            case SeedFrom(b, source) => !NoSource(inst) && SeedEnds(s, inst, Done) && SeedIs(s, inst, b, source)
  {
    hide ResolveBackup, ResolvePointInTime, BackupEnds, TimeEnds, BackupSeed, TimeSeed;
    match inst.dataSource
    case Some(FromBackup(Some(name))) => BackupDecides(s, name);
    case Some(FromPointInTime(Some(point))) => TimeDecides(s, point);
    case _ =>
  }

  lemma BackupDecides(s: Store, name: string)
    ensures match ResolveBackup(s, name)
            case NoSeed => false
            case SeedStop(outcome) => outcome != Done && BackupEnds(s, name, outcome)
            case SeedFrom(b, source) => BackupEnds(s, name, Done) && BackupSeed(s, name, b, source)
  {
    if name in s.everestBackups {
      var b := s.everestBackups[name];
      ParametersRead(b.parameters);
      if b.origin.Some? { ResolvedPlace(s, b.storage, b.origin.value); }
    }
    hide ParseParameters, ResolveS3, PointsAt, Readable, SaysPhysical, Takes;
  }

  lemma TimeDecides(s: Store, point: PointInTime)
    ensures match ResolvePointInTime(s, point)
            case NoSeed => false
            case SeedStop(outcome) => outcome != Done && TimeEnds(s, point, outcome)
            case SeedFrom(b, source) => TimeEnds(s, point, Done) && TimeSeed(point, b, source)
  {
  }

  // ----- what is stored of it -------------------------------------------------

  /** A field of the stored tree, None when it is not there. */
  function FieldAt(tree: Json, key: string): Option<Json> {
    if tree.Obj? && key in tree.fields then Some(tree.fields[key]) else None
  }

  /** An absent text field reads as "". */
  predicate TextAt(tree: Json, key: string, text: string) {
    FieldAt(tree, key) == if text == "" then None else Some(Str(text))
  }

  predicate PlaceStored(tree: Json, s3: S3) {
    && TextAt(tree, "bucket", s3.bucket) && TextAt(tree, "endpoint", s3.endpoint) && TextAt(tree, "region", s3.region)
    && TextAt(tree, "prefix", s3.prefix) && TextAt(tree, "credentials", s3.credentials)
    && FieldAt(tree, "tls") == Some(Bool(s3.tls))
  }

  /** The stored tree says where to read, of what kind, from which PITR object and up
      to when; what is not set is not there. */
  predicate SeedStored(tree: Json, b: Bootstrap) {
    && TextAt(tree, "backupContentType", b.contentType)
    && (FieldAt(tree, "s3").Some? <==> b.s3.Some?)
    && (b.s3.Some? ==> PlaceStored(FieldAt(tree, "s3").value, b.s3.value))
    && (FieldAt(tree, "pointInTimeRecoveryRef").Some? <==> b.pitrRef.Some?)
    && (b.pitrRef.Some? ==> TextAt(FieldAt(tree, "pointInTimeRecoveryRef").value, "name", b.pitrRef.value))
    && FieldAt(tree, "targetRecoveryTime") == if b.targetTime.Some? then Some(Num(b.targetTime.value)) else None
  }

  /** Pruning keeps exactly the fields that do not drop. */
  lemma FieldKept(fields: Fields, key: string)
    ensures FieldAt(Pruned(Obj(fields)), key) ==
        if key in fields && !Drops(fields[key]) then Some(Pruned(fields[key])) else None
  {
  }

  lemma TextKept(fields: Fields, key: string, text: string)
    requires key in fields && fields[key] == Str(text)
    ensures TextAt(Pruned(Obj(fields)), key, text)
  {
    FieldKept(fields, key);
  }

  lemma PlaceKept(s3: S3)
    ensures PlaceStored(Pruned(S3Tree(s3)), s3) && !Drops(S3Tree(s3))
  {
    var fields := S3Tree(s3).fields;
    assert "tls" in fields && !Drops(fields["tls"]);
    FieldKept(fields, "tls");
    hide Pruned, FieldAt;
    TextKept(fields, "bucket", s3.bucket);
    TextKept(fields, "endpoint", s3.endpoint);
    TextKept(fields, "region", s3.region);
    TextKept(fields, "prefix", s3.prefix);
    TextKept(fields, "credentials", s3.credentials);
  }

  lemma RefKept(name: string)
    requires name != ""
    ensures var v := Obj(map["name" := Str(name)]); TextAt(Pruned(v), "name", name) && !Drops(v)
  {
    var v := Obj(map["name" := Str(name)]);
    TextKept(v.fields, "name", name);
    assert "name" in v.fields && !Drops(v.fields["name"]);
  }

  lemma SeedKeptStored(b: Bootstrap)
    requires b.contentType != "" && (b.pitrRef.Some? ==> b.pitrRef.value != "")
    ensures var stored := AppliedTree(Some(BootstrapTree(b))); stored.Some? && SeedStored(stored.value, b)
  {
    hide S3Tree, PlaceStored, FieldAt;
    var fields := BootstrapTree(b).fields;
    assert "backupContentType" in fields && !Drops(fields["backupContentType"]);
    if b.s3.Some? { PlaceKept(b.s3.value); }
    if b.pitrRef.Some? { RefKept(b.pitrRef.value); }
    TextKept(fields, "backupContentType", b.contentType);
    FieldKept(fields, "s3");
    FieldKept(fields, "pointInTimeRecoveryRef");
    FieldKept(fields, "targetRecoveryTime");
  }

  // ----- credentials ----------------------------------------------------------

  function RootOf(instance: string): string {
    "everest-secrets-" + instance + "-root"
  }

  function UserOf(instance: string): string {
    "everest-secrets-" + instance
  }

  /** A Secret the Instance had stays; one it lacked is the source's. */
  predicate Shared(s: Store, t: Store, dst: string, src: string) {
    && dst in t.secrets
    && if dst in s.secrets then t.secrets[dst] == s.secrets[dst]
       else src in t.secrets && t.secrets[dst] == t.secrets[src]
  }

  /** No Secret is changed or lost. */
  predicate SecretsKept(s: Store, t: Store) {
    forall name | name in s.secrets :: name in t.secrets && t.secrets[name] == s.secrets[name]
  }

  /** A Secret that is needed can be neither found nor copied. The user's is copied
      second, so that the root Secret just made may be its source. */
  predicate Uncopied(s: Store, inst: Instance, source: string) {
    || (RootOf(inst.name) !in s.secrets && RootOf(source) !in s.secrets)
    || (UserOf(inst.name) !in s.secrets && UserOf(source) !in s.secrets && UserOf(source) != RootOf(inst.name)
        && UserOf(inst.name) != RootOf(inst.name))
  }

  lemma CopyDecides(s: Store, src: string, dst: string)
    ensures var p, t := CopyPlan(s, src, dst), After(s, CopyPlan(s, src, dst));
      && t == s.(secrets := t.secrets)
      && p.outcome == (if dst !in s.secrets && src !in s.secrets then Misconfigured else Done)
      && t.secrets == if dst in s.secrets || src !in s.secrets then s.secrets else s.secrets[dst := s.secrets[src]]
  {
    AfterNothing(s);
    if src in s.secrets { AfterWrite(s, CreateSecret(dst, s.secrets[src]), Done); }
  }

  /** Seeding gives the Instance both Secrets, or fails when one cannot be had. */
  lemma CredentialsDecide(s: Store, inst: Instance, source: string)
    ensures var p, t := CredentialsPlan(s, inst, source), After(s, CredentialsPlan(s, inst, source));
      && t == s.(secrets := t.secrets)
      && p.outcome == (if Uncopied(s, inst, source) then Misconfigured else Done)
      && SecretsKept(s, t)
      && (forall name | name in t.secrets && name !in s.secrets :: name in {RootOf(inst.name), UserOf(inst.name)})
      && (p.outcome == Done ==>
            && Shared(s, t, RootOf(inst.name), RootOf(source)) && Shared(s, t, UserOf(inst.name), UserOf(source)))
  {
    hide CopyPlan, Replay;
    var p := CopyPlan(s, RootSecretName(source), RootSecretName(inst.name));
    var u := After(s, p);
    CopyDecides(s, RootOf(source), RootOf(inst.name));
    CopyDecides(u, UserOf(source), UserOf(inst.name));
    AfterThen(s, p, CopyPlan(u, UserOf(source), UserOf(inst.name)));
  }
}
