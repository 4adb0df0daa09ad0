/** What the provider reports: the progress of seeding, and the phase of the
    Instance (internal/provider/datasource.go and mariadb.go). */
module InstanceStatus {
  import opened Json
  import opened Kube
  import opened Names
  import opened Plans
  import opened Instances
  import opened ClusterApi
  import opened Seeding

  datatype SeedState = SeedRestoring | SeedSucceeded | SeedFailed

  datatype Message =
    | RestoringLogical
    | RestoringPhysical
    | RestoringBase
    | Replaying
    | FromLogical
    | FromPhysical
    | NoBinlogs
    | Recovered
    | ReplayFailed(error: string)
    | LogicalRestoreFailed(error: string)

  /** The runtime's DataSourceStatus. */
  datatype SeedStatus = SeedStatus(done: bool, state: SeedState, message: Message)

  function Succeeded(message: Message): SeedStatus {
    SeedStatus(true, SeedSucceeded, message)
  }

  function Restoring(message: Message): SeedStatus {
    SeedStatus(false, SeedRestoring, message)
  }

  function Failure(message: Message): SeedStatus {
    SeedStatus(true, SeedFailed, message)
  }

  /** What a reconcile has staged so far. */
  class Context {
    var staged: Option<SeedStatus>

    constructor ()
      ensures staged == None
    {
      staged := None;
    }
  }

  function PointInTimeStatus(st: MariaDBStatus): SeedStatus {
    if st.replayError.Some? then Failure(ReplayFailed(st.replayError.value))
    else if st.ready && st.replaySkipped then Succeeded(NoBinlogs)
    else if st.ready && st.replayed then Succeeded(Recovered)
    else if st.replaying then Restoring(Replaying)
    else Restoring(RestoringBase)
  }

  /** The operator's Restore for a logical bootstrapFrom; its name is the operator's. */
  function LogicalStatus(s: Store, st: MariaDBStatus, restore: string): SeedStatus {
    if st.restored && st.ready then Succeeded(FromLogical)
    else if restore in s.restores && s.restores[restore].state.RestoreFailed? then
      Failure(LogicalRestoreFailed(s.restores[restore].state.message))
    else Restoring(RestoringLogical)
  }

  /** What syncDataSourceStatus stages; None when it stages nothing. */
  function Staged(s: Store, inst: Instance, restore: string): Option<SeedStatus> {
    if inst.dataSource.None? || inst.name !in s.mariadbs then None
    else
      var mdb := s.mariadbs[inst.name];
      if mdb.spec.bootstrapFrom.None? then None
      else
        var tree := mdb.spec.bootstrapFrom.value;
        if Child(tree, "pointInTimeRecoveryRef").Obj? then Some(PointInTimeStatus(mdb.status))
        else if TextIn(tree, "backupContentType") == PHYSICAL_CONTENT then
          Some(if mdb.status.ready then Succeeded(FromPhysical)
               else Restoring(RestoringPhysical))
        else if TextIn(tree, "backupContentType") == LOGICAL_CONTENT then Some(LogicalStatus(s, mdb.status, restore))
        else None
  }

  function Restaged(before: Option<SeedStatus>, s: Store, inst: Instance, restore: string): Option<SeedStatus> {
    if Staged(s, inst, restore).Some? then Staged(s, inst, restore) else before
  }

  method SyncDataSourceStatus(c: Cluster, ctx: Context, inst: Instance, restore: string) returns (out: Outcome)
    modifies ctx, c`failures
    ensures c.failures == old(c.failures) + Failures(out)
    ensures out == Done || out == Aborted
    ensures ctx.staged == if out == Done then Restaged(old(ctx.staged), c.State(), inst, restore) else old(ctx.staged)
  {
    var restores := c.restores;
    if inst.dataSource.None? { return Done; }
    var found := c.Get(c.mariadbs, inst.name);
    if found.Failed? { return Aborted; }
    if found.Missing? || found.value.spec.bootstrapFrom.None? { return Done; }
    var st, tree := found.value.status, found.value.spec.bootstrapFrom.value;
    if Child(tree, "pointInTimeRecoveryRef").Obj? {
      ctx.staged := Some(PointInTimeStatus(st));
      return Done;
    }
    var content := TextIn(tree, "backupContentType");
    if content == PHYSICAL_CONTENT {
      ctx.staged := Some(if st.ready then Succeeded(FromPhysical)
                         else Restoring(RestoringPhysical));
    } else if content == LOGICAL_CONTENT {
      if st.restored && st.ready {
        ctx.staged := Some(Succeeded(FromLogical));
        return Done;
      }
      var r := c.Get(restores, restore);
      if r.Failed? { return Aborted; }
      if r.Present? && r.value.state.RestoreFailed? {
        ctx.staged := Some(Failure(LogicalRestoreFailed(r.value.state.message)));
      } else {
        ctx.staged := Some(Restoring(RestoringLogical));
      }
    }
    out := Done;
  }

  // ----- the phase ------------------------------------------------------------

  datatype Proxy = ProxyOff | ProxyUnreadable | ProxyPending | ProxyUp(tls: bool)

  /** What Status reads besides the store: the proxy, the TLS setting (None when it
      cannot be resolved), and whether the CA bundle of whichever serves is there. */
  datatype Surroundings = Surroundings(proxy: Proxy, tls: Option<bool>, caBundle: bool)

  datatype Phase = Provisioning | Seeding | Failed(message: Message) | Ready(password: string) | Erroneous

  const PASSWORD_KEY := "password"

  function Details(s: Store, inst: Instance, around: Surroundings): Phase {
    if UserSecretName(inst.name) !in s.secrets then Provisioning
    else
      var data := s.secrets[UserSecretName(inst.name)].data;
      var tls := if around.proxy.ProxyUp? then Some(around.proxy.tls) else around.tls;
      if tls.None? then Erroneous
      else if tls.value && !around.caBundle then Provisioning
      else Ready(if PASSWORD_KEY in data then data[PASSWORD_KEY] else "")
  }

  function StatusOf(s: Store, inst: Instance, staged: Option<SeedStatus>, around: Surroundings): Phase {
    if inst.name !in s.mariadbs then Provisioning
    else if staged.Some? && staged.value.state == SeedFailed then Phase.Failed(staged.value.message)
    else if staged.Some? && !staged.value.done then Seeding
    else if s.mariadbs[inst.name].status.ready then
      match around.proxy
      case ProxyUnreadable => Erroneous
      case ProxyPending => Provisioning
      case _ => Details(s, inst, around)
    else Provisioning
  }

  method StatusMariaDB(c: Cluster, ctx: Context, inst: Instance, around: Surroundings) returns (phase: Phase)
    modifies c`failures
    ensures c.failures == old(c.failures) || (c.failures == old(c.failures) + 1 && phase == Erroneous)
    ensures c.failures == old(c.failures) ==> phase == StatusOf(c.State(), inst, ctx.staged, around)
  {
    var found := c.Get(c.mariadbs, inst.name);
    if found.Failed? { return Erroneous; }
    if found.Missing? { return Provisioning; }
    match ctx.staged {
      case Some(status) =>
        if status.state == SeedFailed { return Phase.Failed(status.message); }
        if !status.done { return Seeding; }
      case None =>
    }
    if !found.value.status.ready { return Provisioning; }
    if around.proxy.ProxyUnreadable? { return Erroneous; }
    if around.proxy.ProxyPending? { return Provisioning; }
    var secret := c.Get(c.secrets, UserSecretName(inst.name));
    if secret.Failed? { return Erroneous; }
    if secret.Missing? { return Provisioning; }
    var tls := if around.proxy.ProxyUp? then Some(around.proxy.tls) else around.tls;
    if tls.None? { return Erroneous; }
    if tls.value && !around.caBundle { return Provisioning; }
    var data := secret.value.data;
    phase := Ready(if PASSWORD_KEY in data then data[PASSWORD_KEY] else "");
  }

  // ----- ready implies seeded -------------------------------------------------

  /** inst's MariaDB was created by the provider, seeded from b. */
  predicate SeededFrom(s: Store, inst: Instance, b: Bootstrap) {
    inst.name in s.mariadbs && s.mariadbs[inst.name].spec.bootstrapFrom == AppliedTree(Some(BootstrapTree(b)))
  }

  /** A bootstrap the provider resolves from some data source. */
  predicate Resolvable(b: Bootstrap) {
    (b.contentType == LOGICAL_CONTENT || b.contentType == PHYSICAL_CONTENT)
      && (b.pitrRef.Some? ==> b.pitrRef.value != "")
  }

  lemma ResolvedIsResolvable(s: Store, inst: Instance)
    requires ResolveSeed(s, inst).SeedFrom?
    ensures Resolvable(ResolveSeed(s, inst).bootstrap)
  {
  }

  /** What distinguishes the kinds of seeding survives pruning and storing. */
  lemma StoredBootstrap(b: Bootstrap)
    requires Resolvable(b)
    ensures var tree := AppliedTree(Some(BootstrapTree(b)));
      && tree.Some?
      && TextIn(tree.value, "backupContentType") == b.contentType
      && (Child(tree.value, "pointInTimeRecoveryRef").Obj? <==> b.pitrRef.Some?)
  {
    hide S3Tree, Pruned;
    var v := BootstrapTree(b);
    ScalarsRead(v, "backupContentType");
    ChildRead(v, "pointInTimeRecoveryRef");
    StillObject();
    assert "backupContentType" in v.fields && !Drops(v.fields["backupContentType"]);
    if b.pitrRef.Some? {
      assert "name" in Child(v, "pointInTimeRecoveryRef").fields
             && !Drops(Child(v, "pointInTimeRecoveryRef").fields["name"]);
    }
  }

  /** The data is in place, as the operator reports it. */
  predicate DataInPlace(b: Bootstrap, st: MariaDBStatus) {
    && st.ready
    && (b.pitrRef.Some? ==> st.replayError.None? && (st.replayed || st.replaySkipped))
    && (b.pitrRef.None? && b.contentType == LOGICAL_CONTENT ==> st.restored)
  }

  predicate SeedingFailed(s: Store, b: Bootstrap, st: MariaDBStatus, restore: string) {
    if b.pitrRef.Some? then st.replayError.Some?
    else
      && b.contentType == LOGICAL_CONTENT
      && restore in s.restores && s.restores[restore].state.RestoreFailed?
      && !(st.restored && st.ready)
  }

  /** While its data source is declared, a seeded Instance is Ready exactly when
      its data is in place and its clients can be served, and Failed exactly when
      its seeding failed, ready or not. */
  lemma ReadyIffSeeded(s: Store, inst: Instance, b: Bootstrap, restore: string, around: Surroundings)
    requires SeededFrom(s, inst, b) && Resolvable(b) && inst.dataSource.Some?
    ensures var phase, st := StatusOf(s, inst, Staged(s, inst, restore), around), s.mariadbs[inst.name].status;
      && (phase.Ready? <==>
            DataInPlace(b, st) && (around.proxy.ProxyOff? || around.proxy.ProxyUp?) && Details(s, inst, around).Ready?)
      && (phase.Failed? <==> SeedingFailed(s, b, st, restore))
  {
    hide Details, AppliedTree, BootstrapTree;
    hide Staged, SeedProgress, DataInPlace, SeedingFailed;
    StagedIsProgress(s, inst, b, restore);
    ProgressMeans(s, b, s.mariadbs[inst.name].status, restore);
    ReadyIsDetails(s, inst, around);
  }

  /** What is staged for a MariaDB seeded from b. */
  function SeedProgress(s: Store, b: Bootstrap, st: MariaDBStatus, restore: string): SeedStatus {
    if b.pitrRef.Some? then PointInTimeStatus(st)
    else if b.contentType == LOGICAL_CONTENT then LogicalStatus(s, st, restore)
    else if st.ready then Succeeded(FromPhysical)
    else Restoring(RestoringPhysical)
  }

  lemma StagedIsProgress(s: Store, inst: Instance, b: Bootstrap, restore: string)
    requires SeededFrom(s, inst, b) && Resolvable(b) && inst.dataSource.Some?
    ensures Staged(s, inst, restore) == Some(SeedProgress(s, b, s.mariadbs[inst.name].status, restore))
  {
    hide AppliedTree, BootstrapTree, TextIn, Child, PointInTimeStatus, LogicalStatus, Succeeded, Restoring;
    StoredBootstrap(b);
  }

  lemma ProgressMeans(s: Store, b: Bootstrap, st: MariaDBStatus, restore: string)
    requires Resolvable(b)
    ensures var p := SeedProgress(s, b, st, restore);
      && (p.state == SeedFailed <==> SeedingFailed(s, b, st, restore))
      && (DataInPlace(b, st) <==> p.state == SeedSucceeded)
      && (p.done <==> p.state != SeedRestoring) && (p.state == SeedSucceeded ==> st.ready)
  {
  }

  lemma ReadyIsDetails(s: Store, inst: Instance, around: Surroundings)
    ensures !Details(s, inst, around).Failed?
  {
    hide UserSecretName;
  }

  /** What a declared data source promises, once the Instance is Ready: a logical
      backup was restored; for a point in time, binary logs were replayed, or there
      were none, without an error. */
  predicate SourceHonoured(s0: Store, inst: Instance, st: MariaDBStatus) {
    match inst.dataSource
    case Some(FromBackup(Some(name))) =>
      name in s0.everestBackups && ParseParameters(s0.everestBackups[name].parameters).Some? &&
      (KindOf(ParseParameters(s0.everestBackups[name].parameters).value) == Logical ==> st.restored)
    case Some(FromPointInTime(Some(_))) => st.replayError.None? && (st.replayed || st.replaySkipped)
    case _ => false
  }

  /** Ready implies seeded, from the data source as it was resolved when the
      MariaDB was created, in store s0, to the status it has now. */
  lemma ReadyHonoursSource(s0: Store, s: Store, inst: Instance, restore: string, around: Surroundings)
    requires ResolveSeed(s0, inst).SeedFrom? && SeededFrom(s, inst, ResolveSeed(s0, inst).bootstrap)
    requires StatusOf(s, inst, Staged(s, inst, restore), around).Ready?
    ensures s.mariadbs[inst.name].status.ready && SourceHonoured(s0, inst, s.mariadbs[inst.name].status)
  {
    ResolvedIsResolvable(s0, inst);
    SeedKinds(s0, inst);
    hide StatusOf, Staged, ResolveSeed, SeededFrom;
    ReadyIffSeeded(s, inst, ResolveSeed(s0, inst).bootstrap, restore, around);
  }

  lemma SeedKinds(s0: Store, inst: Instance)
    requires ResolveSeed(s0, inst).SeedFrom?
    ensures var b := ResolveSeed(s0, inst).bootstrap;
      match inst.dataSource
      case Some(FromBackup(Some(name))) =>
        && name in s0.everestBackups && ParseParameters(s0.everestBackups[name].parameters).Some?
        && b.pitrRef.None?
        && (b.contentType == LOGICAL_CONTENT <==>
              KindOf(ParseParameters(s0.everestBackups[name].parameters).value) == Logical)
      case Some(FromPointInTime(Some(_))) => b.pitrRef.Some?
      case _ => false
  {
    hide ParseParameters, ResolveS3, PitrName;
  }

  /** Without the declaration nothing is staged: a seeded Instance whose data is not
      in place is Ready all the same once its cluster is. */
  lemma UndeclaredSourceIgnored(s: Store, inst: Instance, b: Bootstrap, restore: string, around: Surroundings)
    requires SeededFrom(s, inst, b) && inst.dataSource.None?
    requires s.mariadbs[inst.name].status.ready && !DataInPlace(b, s.mariadbs[inst.name].status)
    requires Servable(s, inst, around)
    ensures StatusOf(s, inst, Staged(s, inst, restore), around).Ready?
  {
    hide UserSecretName, AppliedTree, BootstrapTree;
  }

  /** Nothing but the MariaDB stands in the way of serving clients. */
  predicate Servable(s: Store, inst: Instance, around: Surroundings) {
    (around.proxy.ProxyOff? || around.proxy.ProxyUp?) && Details(s, inst, around).Ready?
  }

  /** The store with another report of the operator on the Instance's MariaDB. */
  function WithStatus(s: Store, inst: Instance, st: MariaDBStatus): Store
    requires inst.name in s.mariadbs
  {
    s.(mariadbs := s.mariadbs[inst.name := s.mariadbs[inst.name].(status := st)])
  }

  /** Under such a report, with its data source status staged, the Instance is Ready. */
  predicate ReadyUnder(s: Store, inst: Instance, st: MariaDBStatus, restore: string, around: Surroundings)
    requires inst.name in s.mariadbs
  {
    var reported := WithStatus(s, inst, st);
    StatusOf(reported, inst, Staged(reported, inst, restore), around).Ready?
  }

  /** Whatever the operator reports, Ready implies that the data is in place. */
  ghost predicate ReadyVouches(s: Store, inst: Instance, b: Bootstrap, restore: string, around: Surroundings)
    requires inst.name in s.mariadbs
  {
    forall st: MariaDBStatus ::
      ReadyUnder(s, inst, st, restore, around) ==> DataInPlace(b, st)
  }

  /** Seeding that is over once the cluster is ready: the operator restores a
      physical backup before the servers start. */
  predicate DoneWhenReady(b: Bootstrap) {
    b.pitrRef.None? && b.contentType == PHYSICAL_CONTENT
  }

  /** Exactly when Ready vouches for the data of a seeded Instance: while its data
      source stays declared, or when readiness alone already means it. */
  lemma ReadyVouchesIff(s: Store, inst: Instance, b: Bootstrap, restore: string, around: Surroundings)
    requires SeededFrom(s, inst, b) && Resolvable(b) && Servable(s, inst, around)
    ensures ReadyVouches(s, inst, b, restore, around) <==> inst.dataSource.Some? || DoneWhenReady(b)
  {
    hide StatusOf, Staged, Details, AppliedTree, BootstrapTree;
    forall st: MariaDBStatus
      ensures SeededFrom(WithStatus(s, inst, st), inst, b) && WithStatus(s, inst, st).mariadbs[inst.name].status == st
    {
    }
    if inst.dataSource.Some? {
      forall st: MariaDBStatus
        ensures ReadyUnder(s, inst, st, restore, around) ==> DataInPlace(b, st)
      {
        ReadyIffSeeded(WithStatus(s, inst, st), inst, b, restore, around);
      }
    } else {
      forall st: MariaDBStatus
        ensures ReadyUnder(s, inst, st, restore, around) ==> st.ready
      {
        ReadyNeedsCluster(WithStatus(s, inst, st), inst, Staged(WithStatus(s, inst, st), inst, restore), around);
      }
      if !DoneWhenReady(b) {
        var bare := MariaDBStatus(true, false, None, false, false, false);
        ServableKept(s, inst, bare, around);
        UndeclaredSourceIgnored(WithStatus(s, inst, bare), inst, b, restore, around);
      }
    }
  }

  lemma ReadyNeedsCluster(s: Store, inst: Instance, staged: Option<SeedStatus>, around: Surroundings)
    ensures StatusOf(s, inst, staged, around).Ready? ==> inst.name in s.mariadbs && s.mariadbs[inst.name].status.ready
  {
    hide Details;
  }

  lemma ServableKept(s: Store, inst: Instance, st: MariaDBStatus, around: Surroundings)
    requires inst.name in s.mariadbs && Servable(s, inst, around)
    ensures Servable(WithStatus(s, inst, st), inst, around)
  {
  }
}
