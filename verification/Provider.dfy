/** Sync: the fixed order of the steps (internal/provider/provider.go). */
module Provider {
  import opened Kube
  import opened Plans
  import opened Instances
  import opened ClusterApi
  import opened Schedules
  import opened ScheduleSync
  import opened PitrSync
  import opened TemplateSync
  import opened MariaDBSync
  import InstanceStatus

  function SyncTail(s: Store, env: Env, inst: Instance): Plan {
    var p := SchedulesPlan(s, env, inst);
    Then(p, PitrPlan(After(s, p), env, inst))
  }

  function SyncRest(s: Store, env: Env, inst: Instance): Plan {
    var p := TemplatePlan(s, inst);
    Then(p, SyncTail(After(s, p), env, inst))
  }

  function SyncPlan(s: Store, env: Env, inst: Instance): Plan {
    var p := MariaDBPlan(s, env, inst);
    Then(p, SyncRest(After(s, p), env, inst))
  }

  /** The MaxScale, ServiceMonitor and VMServiceScrape steps: they act on kinds
      outside the store, and may stop the pass. */
  method SyncOtherKinds(c: Cluster) returns (out: Outcome)
    modifies c`failures
    ensures c.failures == old(c.failures) + Failures(out)
    ensures out == Done || out == Aborted
  {
    var failed := c.Fails();
    out := if failed then Aborted else Done;
  }

  /** restore names the operator's Restore of a logical seed. */
  method Sync(c: Cluster, ctx: InstanceStatus.Context, env: Env, inst: Instance, restore: string) returns (out: Outcome)
    requires ValidEnv(env)
    modifies c, ctx
    ensures c.RanSince(old(c.State()), old(c.log), SyncPlan(old(c.State()), env, inst), out)
    ensures c.failures == old(c.failures) + Failures(out)
    ensures c.failures == old(c.failures) ==>
              c.State() == After(old(c.State()), SyncPlan(old(c.State()), env, inst)) &&
              out == SyncPlan(old(c.State()), env, inst).outcome
    ensures out == Done ==> ctx.staged == InstanceStatus.Restaged(old(ctx.staged), c.State(), inst, restore)
  {
    hide MariaDBPlan, TemplatePlan, SchedulesPlan, PitrPlan;
    ghost var s0, l0, p := c.State(), c.log, MariaDBPlan(c.State(), env, inst);
    out := SyncMariaDB(c, env, inst);
    ghost var s1, l1 := c.State(), c.log;
    if out != Done {
      RanStop(s0, l0, s1, l1, p, SyncRest(After(s0, p), env, inst), out);
      return;
    }
    out := SyncFromTemplate(c, ctx, env, inst, restore);
    RanThen(s0, l0, s1, l1, c.State(), c.log, p, SyncRest(s1, env, inst), out);
  }

  method SyncFromTemplate(c: Cluster, ctx: InstanceStatus.Context, env: Env, inst: Instance, restore: string)
    returns (out: Outcome)
    requires ValidEnv(env)
    modifies c, ctx
    ensures c.RanSince(old(c.State()), old(c.log), SyncRest(old(c.State()), env, inst), out)
    ensures c.failures == old(c.failures) + Failures(out)
    ensures out == Done ==> ctx.staged == InstanceStatus.Restaged(old(ctx.staged), c.State(), inst, restore)
  {
    hide TemplatePlan, SchedulesPlan, PitrPlan;
    ghost var s0, l0, p := c.State(), c.log, TemplatePlan(c.State(), inst);
    out := SyncReplicaTemplate(c, inst);
    if out == Done { out := SyncOtherKinds(c); }
    ghost var s1, l1 := c.State(), c.log;
    if out != Done {
      RanStop(s0, l0, s1, l1, p, SyncTail(After(s0, p), env, inst), out);
      return;
    }
    out := SyncFromSchedules(c, ctx, env, inst, restore);
    RanThen(s0, l0, s1, l1, c.State(), c.log, p, SyncTail(s1, env, inst), out);
  }

  method SyncFromSchedules(c: Cluster, ctx: InstanceStatus.Context, env: Env, inst: Instance, restore: string)
    returns (out: Outcome)
    requires ValidEnv(env)
    modifies c, ctx
    ensures c.RanSince(old(c.State()), old(c.log), SyncTail(old(c.State()), env, inst), out)
    ensures c.failures == old(c.failures) + Failures(out)
    ensures out == Done ==> ctx.staged == InstanceStatus.Restaged(old(ctx.staged), c.State(), inst, restore)
  {
    hide SchedulesPlan, PitrPlan;
    ghost var s0, l0, p := c.State(), c.log, SchedulesPlan(c.State(), env, inst);
    out := SyncScheduledBackups(c, env, inst);
    ghost var s1, l1 := c.State(), c.log;
    if out != Done {
      RanStop(s0, l0, s1, l1, p, PitrPlan(After(s0, p), env, inst), out);
      return;
    }
    out := SyncPITR(c, env, inst);
    if out == Done { out := InstanceStatus.SyncDataSourceStatus(c, ctx, inst, restore); }
    RanThen(s0, l0, s1, l1, c.State(), c.log, p, PitrPlan(s1, env, inst), out);
  }
}
