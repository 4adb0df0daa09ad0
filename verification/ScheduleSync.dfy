/** The scheduled-backup reconciler, step by step, proved to follow its plan. */
module ScheduleSync {
  import opened Kube
  import opened Names
  import opened Plans
  import opened Instances
  import opened ClusterApi
  import opened Retention
  import opened Schedules

  method ReconcileScheduledBackup(c: Cluster, env: Env, inst: Instance, e: Entry, name: string,
                                  params: Parameters)
    returns (out: Outcome)
    requires name == ScheduledName(env.digest, inst.name, e.schedule.name)
    requires ParseParameters(e.schedule.parameters) == Some(params) && KindOf(params) == Logical
    requires inst.name in c.mariadbs
    modifies c
    ensures c.RanSince(old(c.State()), old(c.log), EntryPlan(old(c.State()), env, inst, e), out)
    ensures c.failures == old(c.failures) + Failures(out)
  {
    ghost var s0, l0 := c.State(), c.log;
    var found := c.Get(c.storages, e.storage);
    match found {
      case Failed => return Aborted;
      case Missing => return Waiting;
      case Present(_) =>
    }
    var storage := ResolveS3(Store(map[], map[], map[], map[], map[], c.storages, map[]), e.storage, inst.name);
    if storage.NotS3? { return Misconfigured; }
    var retention := DeriveMaxRetention(env.gap, e.schedule.cron, e.schedule.retention);
    if retention.None? { return Misconfigured; }
    var g := Goal(Key(Logical, name), ScheduledLabels(inst.name, ClassRef(inst), e.schedule.name, e.storage, Logical),
                  inst.name, storage.s3, retention.value, e.schedule, params);
    assert AimOf(s0, env, inst, e) == AimAt(g);

    // A physical object of the same name may be left from before a type switch.
    out := c.DeleteIfPresent(Key(Physical, name));
    ghost var s1, l1, d := c.State(), c.log, DeletePlan(s0, Rival(g.key));
    if out != Done {
      RanStop(s0, l0, s1, l1, d, TakeOverPlan(After(s0, d), g), out);
      return;
    }
    out := TakeOver(c, g);
    RanThen(s0, l0, s1, l1, c.State(), c.log, d, TakeOverPlan(s1, g), out);
  }

  method ReconcileScheduledPhysicalBackup(c: Cluster, env: Env, inst: Instance, e: Entry, name: string,
                                  params: Parameters)
    returns (out: Outcome)
    requires name == ScheduledName(env.digest, inst.name, e.schedule.name)
    requires ParseParameters(e.schedule.parameters) == Some(params) && KindOf(params) == Physical
    requires inst.name in c.mariadbs
    modifies c
    ensures c.RanSince(old(c.State()), old(c.log), EntryPlan(old(c.State()), env, inst, e), out)
    ensures c.failures == old(c.failures) + Failures(out)
  {
    ghost var s0, l0 := c.State(), c.log;
    var found := c.Get(c.storages, e.storage);
    match found {
      case Failed => return Aborted;
      case Missing => return Waiting;
      case Present(_) =>
    }
    var storage := ResolveS3(Store(map[], map[], map[], map[], map[], c.storages, map[]), e.storage, inst.name);
    if storage.NotS3? { return Misconfigured; }
    var retention := DeriveMaxRetention(env.gap, e.schedule.cron, e.schedule.retention);
    if retention.None? { return Misconfigured; }
    var g := Goal(Key(Physical, name), ScheduledLabels(inst.name, ClassRef(inst), e.schedule.name, e.storage, Physical),
                  inst.name, storage.s3, retention.value, e.schedule, params);
    assert AimOf(s0, env, inst, e) == AimAt(g);

    // A logical object of the same name may be left from before a type switch.
    out := c.DeleteIfPresent(Key(Logical, name));
    ghost var s1, l1, d := c.State(), c.log, DeletePlan(s0, Rival(g.key));
    if out != Done {
      RanStop(s0, l0, s1, l1, d, TakeOverPlan(After(s0, d), g), out);
      return;
    }
    out := TakeOver(c, g);
    RanThen(s0, l0, s1, l1, c.State(), c.log, d, TakeOverPlan(s1, g), out);
  }

  /** The half the two reconcilers share: recreate or update. */
  method TakeOver(c: Cluster, g: Goal) returns (out: Outcome)
    modifies c
    ensures c.RanSince(old(c.State()), old(c.log), TakeOverPlan(old(c.State()), g), out)
    ensures c.failures == old(c.failures) + Failures(out)
  {
    var found := c.GetBackup(g.key);
    match found {
      case Failed => return Aborted;
      case Present(cr) =>
        if Outdated(g, cr) {
          out := c.Perform(DeleteBackup(g.key));
          if out == Done { out := Waiting; }
          return;
        }
        out := c.CreateOrUpdate(g.key, Refreshed(g, cr), MariaDBOwner(g.mariadb));
      case Missing =>
        out := c.CreateOrUpdate(g.key, Refreshed(g, Created(g)), MariaDBOwner(g.mariadb));
    }
  }

  /** Prune one kind: delete what carries our labels and is not desired. */
  method PruneScheduled(c: Cluster, env: Env, inst: Instance, kind: Kind, desired: set<string>) returns (out: Outcome)
    requires ValidEnv(env)
    requires desired == Desired(env, inst, Declared(inst), kind)
    modifies c
    ensures c.RanSince(old(c.State()), old(c.log), PrunePlan(old(c.State()), env, inst, kind), out)
    ensures c.failures == old(c.failures) + Failures(out)
  {
    ghost var s0, l0 := c.State(), c.log;
    var backups := c.backups;
    var ok, order := c.ListBackups(kind, inst.name, env.listing);
    if !ok { return Aborted; }
    assert Enumerates(order, Listed(backups, kind, inst.name));
    var i := 0;
    out := Done;
    while i < |order|
      invariant i <= |order|
      invariant c.RanSince(s0, l0, Plan(StaleWrites(backups, order[..i], desired), Done), Done)
      invariant out == Done && c.failures == old(c.failures)
    {
      ghost var s1, l1 := c.State(), c.log;
      var key := order[i];
      assert key in order;
      if ScheduleLabel in backups[key].labels && key.name !in desired {
        out := c.Perform(DeleteBackup(key));
      }
      RanStale(s0, l0, s1, l1, c.State(), c.log, backups, order, desired, i, out);
      if out != Done { return; }
      i := i + 1;
    }
    assert order[..i] == order;
  }

  function StalePlan(backups: map<Key, BackupCR>, key: Key, desired: set<string>): Plan {
    if Stale(backups, key, desired) then Plan([DeleteBackup(key)], Done) else Stop(Done)
  }

  lemma RanStale(s0: Store, l0: seq<Write>, s1: Store, l1: seq<Write>, s2: Store, l2: seq<Write>,
                 backups: map<Key, BackupCR>, order: seq<Key>, desired: set<string>, i: nat, out: Outcome)
    requires i < |order|
    requires Ran(s0, l0, s1, l1, Plan(StaleWrites(backups, order[..i], desired), Done), Done)
    requires Ran(s1, l1, s2, l2, StalePlan(backups, order[i], desired), out)
    ensures Ran(s0, l0, s2, l2, Plan(StaleWrites(backups, order[..i + 1], desired), Done), out)
    ensures out == Aborted ==> Ran(s0, l0, s2, l2, Plan(StaleWrites(backups, order, desired), Done), out)
  {
    assert order[..i + 1][..i] == order[..i];
    RanThen(s0, l0, s1, l1, s2, l2, Plan(StaleWrites(backups, order[..i], desired), Done),
        StalePlan(backups, order[i], desired), out);
    StalePrefix(backups, order, desired, i + 1);
  }

  lemma {:induction false} StalePrefix(backups: map<Key, BackupCR>, order: seq<Key>, desired: set<string>, m: nat)
    requires m <= |order|
    ensures StaleWrites(backups, order[..m], desired) <= StaleWrites(backups, order, desired)
    decreases |order|
  {
    if m < |order| {
      assert order[..|order| - 1][..m] == order[..m];
      StalePrefix(backups, order[..|order| - 1], desired, m);
    } else {
      assert order[..m] == order;
    }
  }

  /** One turn of the loops: fetch the owner MariaDB if no earlier turn has, then
      reconcile the entry under its kind. */
  method SyncEntry(c: Cluster, env: Env, inst: Instance, e: Entry, params: Parameters, fetched: bool)
    returns (out: Outcome)
    requires ParseParameters(e.schedule.parameters) == Some(params)
    requires fetched ==> inst.name in c.mariadbs
    modifies c
    ensures c.RanSince(old(c.State()), old(c.log), EntryPlan(old(c.State()), env, inst, e), out)
    ensures c.failures == old(c.failures) + Failures(out)
    ensures out == Done ==> inst.name in c.mariadbs
  {
    ghost var s := c.State();
    var name := ScheduledName(env.digest, inst.name, e.schedule.name);
    if !fetched {
      var mdb := c.Get(c.mariadbs, inst.name);
      match mdb {
        case Failed => return Aborted;
        case Missing => return Waiting;
        case Present(_) =>
      }
    }
    if KindOf(params) == Physical {
      out := ReconcileScheduledPhysicalBackup(c, env, inst, e, name, params);
    } else {
      out := ReconcileScheduledBackup(c, env, inst, e, name, params);
    }
    MariaDBsKept(s, env, inst, e);
  }

  /** The desired maps hold the names of the entries handled so far. */
  ghost predicate Tracks(env: Env, inst: Instance, es: seq<Entry>, logical: set<string>, physical: set<string>) {
    logical == Desired(env, inst, es, Logical) && physical == Desired(env, inst, es, Physical)
  }

  /** The body of the loops, for the entry after those already done. */
  method SyncSchedule(c: Cluster, env: Env, inst: Instance, e: Entry, haveMariaDB: bool,
                      logical: set<string>, physical: set<string>,
                      ghost s0: Store, ghost l0: seq<Write>, ghost done: seq<Entry>)
    returns (out: Outcome, desiredLogical: set<string>, desiredPhysical: set<string>)
    requires c.RanSince(s0, l0, EntriesPlan(s0, env, inst, done), Done)
    requires Tracks(env, inst, done, logical, physical)
    requires haveMariaDB ==> inst.name in c.mariadbs
    modifies c
    ensures c.RanSince(s0, l0, EntriesPlan(s0, env, inst, done + [e]), out)
    ensures c.failures == old(c.failures) + Failures(out)
    ensures out == Done ==> Tracks(env, inst, done + [e], desiredLogical, desiredPhysical)
    ensures out == Done ==> inst.name in c.mariadbs
  {
    ghost var s1, l1 := c.State(), c.log;
    desiredLogical, desiredPhysical := logical, physical;
    var params := ParseParameters(e.schedule.parameters);
    if params.None? {
      out := Misconfigured;
    } else {
      var name := ScheduledName(env.digest, inst.name, e.schedule.name);
      if KindOf(params.value) == Physical {
        desiredPhysical := desiredPhysical + {name};
      } else {
        desiredLogical := desiredLogical + {name};
      }
      out := SyncEntry(c, env, inst, e, params.value, haveMariaDB);
    }
    DesiredMore(env, inst, done, e);
    RanMore(s0, l0, s1, l1, c.State(), c.log, env, inst, done, e, out);
  }

  /** The inner loop: the schedules of one storage, after the entries before it. */
  method SyncStorage(c: Cluster, env: Env, inst: Instance, config: StorageConfig, haveMariaDB: bool,
                     logical: set<string>, physical: set<string>,
                     ghost s0: Store, ghost l0: seq<Write>, ghost before: seq<Entry>)
    returns (out: Outcome, fetched: bool, desiredLogical: set<string>, desiredPhysical: set<string>)
    requires c.RanSince(s0, l0, EntriesPlan(s0, env, inst, before), Done)
    requires Tracks(env, inst, before, logical, physical)
    requires haveMariaDB ==> inst.name in c.mariadbs
    modifies c
    ensures c.RanSince(s0, l0, EntriesPlan(s0, env, inst, before + EntriesOf(config)), out)
    ensures c.failures == old(c.failures) + Failures(out)
    ensures out == Done ==> Tracks(env, inst, before + EntriesOf(config), desiredLogical, desiredPhysical)
    ensures out == Done && fetched ==> inst.name in c.mariadbs
  {
    fetched, desiredLogical, desiredPhysical, out := haveMariaDB, logical, physical, Done;
    ghost var done := before;
    var j := 0;
    while j < |config.schedules|
      invariant j <= |config.schedules|
      invariant done == before + EntriesOf(config)[..j]
      invariant c.RanSince(s0, l0, EntriesPlan(s0, env, inst, done), Done)
      invariant Tracks(env, inst, done, desiredLogical, desiredPhysical)
      invariant fetched ==> inst.name in c.mariadbs
      invariant out == Done && c.failures == old(c.failures)
    {
      var e := Entry(config.storage, config.schedules[j]);
      out, desiredLogical, desiredPhysical :=
          SyncSchedule(c, env, inst, e, fetched, desiredLogical, desiredPhysical, s0, l0, done);
      NextEntry(before, config, j);
      done, j := done + [e], j + 1;
      if out != Done {
        RanBefore(s0, l0, c.State(), c.log, env, inst, done, before + EntriesOf(config), out);
        return;
      }
      fetched := true;
    }
    NoMoreEntries(config);
  }

  lemma NextEntry(before: seq<Entry>, config: StorageConfig, j: nat)
    requires j < |config.schedules|
    ensures before + EntriesOf(config)[..j] + [Entry(config.storage, config.schedules[j])] ==
        before + EntriesOf(config)[..j + 1]
    ensures before + EntriesOf(config)[..j + 1] <= before + EntriesOf(config)
  {
  }

  lemma NoMoreEntries(config: StorageConfig)
    ensures EntriesOf(config)[..|config.schedules|] == EntriesOf(config)
  {
  }

  /** The outer loop, collecting the desired names. */
  method SyncDeclared(c: Cluster, env: Env, inst: Instance, storages: seq<StorageConfig>)
    returns (out: Outcome, desiredLogical: set<string>, desiredPhysical: set<string>)
    modifies c
    ensures c.RanSince(old(c.State()), old(c.log), EntriesPlan(old(c.State()), env, inst, Entries(storages)), out)
    ensures c.failures == old(c.failures) + Failures(out)
    ensures out == Done ==> Tracks(env, inst, Entries(storages), desiredLogical, desiredPhysical)
  {
    ghost var s0, l0 := c.State(), c.log;
    desiredLogical, desiredPhysical, out := {}, {}, Done;
    var haveMariaDB := false;
    var i := 0;
    while i < |storages|
      invariant i <= |storages|
      invariant c.RanSince(s0, l0, EntriesPlan(s0, env, inst, Entries(storages[..i])), Done)
      invariant Tracks(env, inst, Entries(storages[..i]), desiredLogical, desiredPhysical)
      invariant haveMariaDB ==> inst.name in c.mariadbs
      invariant out == Done && c.failures == old(c.failures)
    {
      assert storages[..i + 1][..i] == storages[..i];
      out, haveMariaDB, desiredLogical, desiredPhysical :=
        SyncStorage(c, env, inst, storages[i], haveMariaDB, desiredLogical, desiredPhysical, s0, l0,
            Entries(storages[..i]));
      i := i + 1;
      if out != Done {
        EntriesSplit(storages, i);
        RanBefore(s0, l0, c.State(), c.log, env, inst, Entries(storages[..i]), Entries(storages), out);
        return;
      }
    }
    assert storages[..i] == storages;
  }

  method SyncScheduledBackups(c: Cluster, env: Env, inst: Instance) returns (out: Outcome)
    requires ValidEnv(env)
    modifies c
    ensures c.RanSince(old(c.State()), old(c.log), SchedulesPlan(old(c.State()), env, inst), out)
    ensures c.failures == old(c.failures) + Failures(out)
    ensures c.failures == old(c.failures) ==>
              c.State() == After(old(c.State()), SchedulesPlan(old(c.State()), env, inst)) &&
              out == SchedulesPlan(old(c.State()), env, inst).outcome
  {
    hide PrunePlan;
    ghost var s0, l0, p := c.State(), c.log, EntriesPlan(c.State(), env, inst, Declared(inst));
    var desiredLogical: set<string>, desiredPhysical: set<string> := {}, {};
    out := Done;
    if inst.backup.Some? && inst.backup.value.enabled {
      out, desiredLogical, desiredPhysical := SyncDeclared(c, env, inst, inst.backup.value.storages);
    }
    ghost var s1, l1 := c.State(), c.log;
    if out != Done {
      ghost var q' := PrunePlan(After(s0, p), env, inst, Logical);
      RanStop(s0, l0, s1, l1, p, Then(q', PrunePlan(After(After(s0, p), q'), env, inst, Physical)), out);
      return;
    }
    out := PruneScheduled(c, env, inst, Logical, desiredLogical);
    ghost var s2, l2, q := c.State(), c.log, PrunePlan(s1, env, inst, Logical);
    ghost var r := PrunePlan(After(s1, q), env, inst, Physical);
    if out != Done {
      RanStop(s1, l1, s2, l2, q, r, out);
    } else {
      out := PruneScheduled(c, env, inst, Physical, desiredPhysical);
      RanThen(s1, l1, s2, l2, c.State(), c.log, q, r, out);
    }
    RanThen(s0, l0, s1, l1, c.State(), c.log, p, Then(q, r), out);
  }

  lemma DesiredMore(env: Env, inst: Instance, es: seq<Entry>, e: Entry)
    ensures forall kind :: Desired(env, inst, es + [e], kind) ==
              Desired(env, inst, es, kind) +
                  if Wants(e, kind) then {ScheduledName(env.digest, inst.name, e.schedule.name)} else {}
  {
    forall x ensures x in es + [e] <==> x in es || x == e {
    }
  }

  lemma RanMore(s0: Store, l0: seq<Write>, s1: Store, l1: seq<Write>, s2: Store, l2: seq<Write>, env: Env,
      inst: Instance, es: seq<Entry>, e: Entry, out: Outcome)
    requires Ran(s0, l0, s1, l1, EntriesPlan(s0, env, inst, es), Done)
    requires Ran(s1, l1, s2, l2, EntryPlan(s1, env, inst, e), out)
    ensures Ran(s0, l0, s2, l2, EntriesPlan(s0, env, inst, es + [e]), out)
  {
    assert (es + [e])[..|es|] == es;
    RanThen(s0, l0, s1, l1, s2, l2, EntriesPlan(s0, env, inst, es), EntryPlan(s1, env, inst, e), out);
  }

  lemma RanBefore(s0: Store, l0: seq<Write>, s1: Store, l1: seq<Write>, env: Env, inst: Instance, es: seq<Entry>,
      all: seq<Entry>, out: Outcome)
    requires Ran(s0, l0, s1, l1, EntriesPlan(s0, env, inst, es), out) && out != Done
    requires es <= all
    ensures Ran(s0, l0, s1, l1, EntriesPlan(s0, env, inst, all), out)
  {
    assert all[..|es|] == es;
    EntriesPrefix(s0, env, inst, all, |es|);
  }

  lemma MariaDBsKept(s: Store, env: Env, inst: Instance, e: Entry)
    ensures After(s, EntryPlan(s, env, inst, e)).mariadbs == s.mariadbs
  {
    match AimOf(s, env, inst, e)
    case Blocked(_) =>
    case AimAt(g) =>
      var d := DeletePlan(s, Rival(g.key));
      AfterThen(s, d, TakeOverPlan(After(s, d), g));
      AfterDelete(s, Rival(g.key));
      AfterWrite(After(s, d), DeleteBackup(g.key), Waiting);
      AfterUpsert(After(s, d), g.key, Next(After(s, d), g), MariaDBOwner(g.mariadb));
  }
}
