/** What is reported of an Instance, read off the stored MariaDB, what the operator
    says of it, and what clients need (internal/provider/datasource.go and mariadb.go). */
module DeclaredStatus {
  import opened Kube
  import opened Instances
  import opened InstanceStatus
  import opened DeclaredSeeds

  // ----- seeding progress -----------------------------------------------------

  /** Progress is reported of a declared source, on a MariaDB that was seeded. */
  predicate Reported(s: Store, inst: Instance) {
    && inst.dataSource.Some? && inst.name in s.mariadbs && s.mariadbs[inst.name].spec.bootstrapFrom.Some?
    && (ReplaysTime(s, inst) || SeedContent(s, inst) in {"Physical", "Logical"})
  }

  /** The seed is a point in time: the stored tree refers to a PITR object. */
  predicate ReplaysTime(s: Store, inst: Instance)
    requires inst.name in s.mariadbs && s.mariadbs[inst.name].spec.bootstrapFrom.Some?
  {
    var ref := FieldAt(s.mariadbs[inst.name].spec.bootstrapFrom.value, "pointInTimeRecoveryRef");
    ref.Some? && ref.value.Obj?
  }

  function SeedContent(s: Store, inst: Instance): string
    requires inst.name in s.mariadbs && s.mariadbs[inst.name].spec.bootstrapFrom.Some?
  {
    var content := FieldAt(s.mariadbs[inst.name].spec.bootstrapFrom.value, "backupContentType");
    if content.Some? && content.value.Str? then content.value.s else ""
  }

  /** Which report is right. */
  predicate ReportFits(s: Store, inst: Instance, restore: string, status: SeedStatus)
    requires Reported(s, inst)
  {
    var st := s.mariadbs[inst.name].status;
    if ReplaysTime(s, inst) then
      match st.replayError
      case Some(error) => status == SeedStatus(true, SeedFailed, ReplayFailed(error))
      case None =>
        if st.ready && st.replaySkipped then status == SeedStatus(true, SeedSucceeded, NoBinlogs)
        else if st.ready && st.replayed then status == SeedStatus(true, SeedSucceeded, Recovered)
        else status == SeedStatus(false, SeedRestoring, if st.replaying then Replaying else RestoringBase)
    else if SeedContent(s, inst) == "Physical" then
      status == if st.ready then SeedStatus(true, SeedSucceeded, FromPhysical)
                else SeedStatus(false, SeedRestoring, RestoringPhysical)
    else if st.ready && st.restored then status == SeedStatus(true, SeedSucceeded, FromLogical)
    else if restore in s.restores && s.restores[restore].state.RestoreFailed? then
      status == SeedStatus(true, SeedFailed, LogicalRestoreFailed(s.restores[restore].state.message))
    else status == SeedStatus(false, SeedRestoring, RestoringLogical)
  }

  /** What a pass stages: nothing unless there is something to report, and otherwise
      the one report that fits. */
  lemma StagedFits(s: Store, inst: Instance, restore: string, before: Option<SeedStatus>)
    ensures Staged(s, inst, restore).Some? <==> Reported(s, inst)
    ensures Staged(s, inst, restore).Some? ==> ReportFits(s, inst, restore, Staged(s, inst, restore).value)
    ensures Restaged(before, s, inst, restore) == if Reported(s, inst) then Staged(s, inst, restore) else before
  {
  }

  // ----- the phase ------------------------------------------------------------

  /** The certificate of whichever serves is at hand, or none is needed; None when the
      TLS setting cannot be read. */
  function CanTrust(around: Surroundings): Option<bool> {
    match around.proxy
    case ProxyUp(tls) => Some(!tls || around.caBundle)
    case _ => if around.tls.None? then None else Some(!around.tls.value || around.caBundle)
  }

  /** Seeding stands in the way of being ready: it failed, or it is not over. */
  predicate SeedingBlocks(staged: Option<SeedStatus>) {
    staged.Some? && (staged.value.state == SeedFailed || !staged.value.done)
  }

  /** The cluster is up and the proxy, if any, can be asked. */
  predicate Serving(s: Store, inst: Instance, staged: Option<SeedStatus>, around: Surroundings) {
    && inst.name in s.mariadbs && !SeedingBlocks(staged) && s.mariadbs[inst.name].status.ready
    && !around.proxy.ProxyUnreadable? && !around.proxy.ProxyPending?
  }

  function PasswordOf(s: Store, inst: Instance): string
    requires "everest-secrets-" + inst.name in s.secrets
  {
    var data := s.secrets["everest-secrets-" + inst.name].data;
    if "password" in data then data["password"] else ""
  }

  /** Each phase means one thing: Ready, with the password of the user Secret, that
      clients can connect; Failed and Seeding, that the seed failed or is under way;
      Erroneous, that the surroundings cannot be read; and Provisioning the rest. */
  lemma PhaseMeans(s: Store, inst: Instance, staged: Option<SeedStatus>, around: Surroundings)
    ensures var phase := StatusOf(s, inst, staged, around);
      && (phase.Ready? <==>
            Serving(s, inst, staged, around) && "everest-secrets-" + inst.name in s.secrets
            && CanTrust(around) == Some(true))
      && (phase.Ready? ==> phase == Ready(PasswordOf(s, inst)))
      && (phase.Failed? <==> inst.name in s.mariadbs && staged.Some? && staged.value.state == SeedFailed)
      && (phase.Failed? ==> phase.message == staged.value.message)
      && (phase == Phase.Seeding <==>
            inst.name in s.mariadbs && staged.Some? && staged.value.state != SeedFailed && !staged.value.done)
      && (phase == Erroneous <==>
            || (Serving(s, inst, staged, around) && "everest-secrets-" + inst.name in s.secrets
                && CanTrust(around).None?)
            || (inst.name in s.mariadbs && !SeedingBlocks(staged) && s.mariadbs[inst.name].status.ready
                && around.proxy.ProxyUnreadable?))
  {
  }
}
