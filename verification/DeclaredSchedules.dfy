/** What scheduled backups are when all is in line, in the fields of the declaration:
    the reference the reconciler is measured against
    (internal/provider/backup_schedule.go and backup_physical.go). */
module DeclaredSchedules {
  import opened Kube
  import opened Instances
  import opened Retention
  import opened Schedules
  import opened Convergence
  import opened ScheduledPasses
  import opened DeclaredPlaces
  import opened DeclaredRetention

  // ----- the object of one schedule -------------------------------------------

  function ObjectName(env: Env, inst: Instance, schedule: Schedule): string {
    "mdb-sched-" + env.digest(inst.name + "\0" + schedule.name)
  }

  function ObjectKey(env: Env, inst: Instance, schedule: Schedule): Key {
    Key(KindSaid(schedule.parameters), ObjectName(env, inst, schedule))
  }

  /** The object a schedule on this storage asks for is there, of the kind it names
      and not of the other. */
  ghost predicate ObjectFor(t: Store, env: Env, inst: Instance, storage: string, schedule: Schedule) {
    && Readable(schedule.parameters) && inst.name in t.mariadbs
    && var key, name := ObjectKey(env, inst, schedule), ObjectName(env, inst, schedule);
       && key in t.backups
       && (key == Key(Logical, name) ==> Key(Physical, name) !in t.backups)
       && (key == Key(Physical, name) ==> Key(Logical, name) !in t.backups)
       && var cr := t.backups[key];
          && PlacedOn(t, storage, inst.name, cr.storage)
          && KeptFor(env.gap, schedule, cr.maxRetention)
          && cr.schedule == Some(CronSchedule(schedule.cron, !schedule.enabled, false))
          && Takes(schedule.parameters, cr.content)
          && Compresses(schedule.parameters, cr.compression, cr.compression)
          && cr.owner == Some(Owner("MariaDB", inst.name))
  }

  ghost predicate EntryMet(t: Store, env: Env, inst: Instance, e: Entry) {
    AimOf(t, env, inst, e).AimAt? && InSync(t, AimOf(t, env, inst, e).goal)
  }

  /** That is what the reconciler aims at. */
  lemma EntryMetIff(t: Store, env: Env, inst: Instance, e: Entry)
    ensures EntryMet(t, env, inst, e) <==> ObjectFor(t, env, inst, e.storage, e.schedule)
    ensures AimOf(t, env, inst, e).AimAt? ==> AimOf(t, env, inst, e).goal.key == ObjectKey(env, inst, e.schedule)
  {
    ParametersRead(e.schedule.parameters);
    ResolvedPlace(t, e.storage, inst.name);
    hide ParseParameters, ResolveS3, DeriveMaxRetention, Readable, Takes, PointsAt, KeptFor, SaysPhysical, ContentOf,
        SaysText;
    var key := ObjectKey(env, inst, e.schedule);
    if ParseParameters(e.schedule.parameters).Some? && key in t.backups {
      var q, cr := ParseParameters(e.schedule.parameters).value, t.backups[key];
      RetentionKept(env.gap, e.schedule, cr.maxRetention);
      if Takes(e.schedule.parameters, cr.content) {
        SaidOnce(e.schedule.parameters, cr.content, ContentOf(key.kind, q));
      }
      SaidText(e.schedule.parameters, "compression", q.compression, cr.compression);
      SaidText(e.schedule.parameters, "compression", q.compression, "");
    }
  }

  lemma SaidText(p: Payload, key: string, text: string, other: string)
    requires SaysText(p, key, text)
    ensures SaysText(p, key, other) <==> other == text
  {
  }

  // ----- all of them ----------------------------------------------------------

  /** The j-th schedule of the i-th storage, while backups are enabled. */
  predicate DeclaredAt(inst: Instance, i: nat, j: nat) {
    && inst.backup.Some? && inst.backup.value.enabled
    && i < |inst.backup.value.storages| && j < |inst.backup.value.storages[i].schedules|
  }

  function StorageAt(inst: Instance, i: nat, j: nat): string
    requires DeclaredAt(inst, i, j)
  {
    inst.backup.value.storages[i].storage
  }

  function ScheduleAt(inst: Instance, i: nat, j: nat): Schedule
    requires DeclaredAt(inst, i, j)
  {
    inst.backup.value.storages[i].schedules[j]
  }

  /** Labelled with this Instance's name and with some schedule. */
  predicate LabelledOurs(cr: BackupCR, inst: Instance) {
    InstanceLabel in cr.labels && cr.labels[InstanceLabel] == inst.name && ScheduleLabel in cr.labels
  }

  ghost predicate AskedFor(env: Env, inst: Instance, key: Key) {
    exists i: nat, j: nat | DeclaredAt(inst, i, j) :: key == ObjectKey(env, inst, ScheduleAt(inst, i, j))
  }

  /** Every declared schedule has its object, and nothing else is labelled as one. */
  ghost predicate AsAsked(t: Store, env: Env, inst: Instance) {
    && (forall i: nat, j: nat | DeclaredAt(inst, i, j) ::
          ObjectFor(t, env, inst, StorageAt(inst, i, j), ScheduleAt(inst, i, j)))
    && (forall key | key in t.backups && LabelledOurs(t.backups[key], inst) :: AskedFor(env, inst, key))
  }

  /** How many schedules the first i storages have. */
  function Before(storages: seq<StorageConfig>, i: nat): nat
    requires i <= |storages|
  {
    if i == 0 then 0 else Before(storages, i - 1) + |storages[i - 1].schedules|
  }

  lemma {:induction false} BeforePrefix(storages: seq<StorageConfig>, m: nat, i: nat)
    requires i <= m <= |storages|
    ensures Before(storages[..m], i) == Before(storages, i)
  {
    if i > 0 { BeforePrefix(storages, m, i - 1); }
  }

  /** The entries are the schedules, storage by storage and in order. */
  lemma {:induction false} EntriesInOrder(storages: seq<StorageConfig>, i: nat, j: nat)
    requires i < |storages| && j < |storages[i].schedules|
    ensures |Entries(storages)| == Before(storages, |storages|)
    ensures Before(storages, i) + j < |Entries(storages)|
    ensures Entries(storages)[Before(storages, i) + j] == Entry(storages[i].storage, storages[i].schedules[j])
    decreases |storages|
  {
    var m := |storages| - 1;
    var init := storages[..m];
    EntriesCounted(init);
    BeforePrefix(storages, m, m);
    BeforePrefix(storages, m, if i < m then i else m);
    if i < m { EntriesInOrder(init, i, j); }
  }

  lemma {:induction false} EntriesCounted(storages: seq<StorageConfig>)
    ensures |Entries(storages)| == Before(storages, |storages|)
    decreases |storages|
  {
    if storages != [] {
      EntriesCounted(storages[..|storages| - 1]);
      BeforePrefix(storages, |storages| - 1, |storages| - 1);
    }
  }

  lemma {:induction false} EntryPlace(storages: seq<StorageConfig>, n: nat) returns (i: nat, j: nat)
    requires n < |Entries(storages)|
    ensures i < |storages| && j < |storages[i].schedules| && n == Before(storages, i) + j
    ensures Entries(storages)[n] == Entry(storages[i].storage, storages[i].schedules[j])
    decreases |storages|
  {
    var m := |storages| - 1;
    var init, last := storages[..m], storages[m];
    EntriesCounted(init);
    BeforePrefix(storages, m, m);
    if n < |Entries(init)| {
      i, j := EntryPlace(init, n);
      BeforePrefix(storages, m, i);
    } else {
      i, j := m, n - |Entries(init)|;
    }
  }

  /** The declared entries are exactly the schedules of the enabled configuration. */
  lemma DeclaredAre(inst: Instance)
    ensures forall i: nat, j: nat | DeclaredAt(inst, i, j) ::
            Entry(StorageAt(inst, i, j), ScheduleAt(inst, i, j)) in Declared(inst)
    ensures forall e | e in Declared(inst) ::
            exists i: nat, j: nat | DeclaredAt(inst, i, j) :: e == Entry(StorageAt(inst, i, j), ScheduleAt(inst, i, j))
  {
    forall i: nat, j: nat | DeclaredAt(inst, i, j)
      ensures Entry(StorageAt(inst, i, j), ScheduleAt(inst, i, j)) in Declared(inst)
    {
      EntriesInOrder(inst.backup.value.storages, i, j);
    }
    forall e | e in Declared(inst)
      ensures exists i: nat, j: nat | DeclaredAt(inst, i, j) ::
                e == Entry(StorageAt(inst, i, j), ScheduleAt(inst, i, j))
    {
      var n: nat :| n < |Declared(inst)| && Declared(inst)[n] == e;
      var i, j := EntryPlace(inst.backup.value.storages, n);
      assert DeclaredAt(inst, i, j);
    }
  }

  lemma MetTogether(t: Store, env: Env, inst: Instance)
    ensures (forall e | e in Declared(inst) :: EntryMet(t, env, inst, e)) <==>
              Aimed(t, env, inst, Declared(inst)) && AllInSync(t, Goals(t, env, inst, Declared(inst)))
  {
    hide AimOf, InSync;
    var es := Declared(inst);
    if forall e | e in es :: EntryMet(t, env, inst, e) {
      forall i | 0 <= i < |es| ensures AimOf(t, env, inst, es[i]).AimAt? && InSync(t, AimOf(t, env, inst, es[i]).goal) {
        assert EntryMet(t, env, inst, es[i]);
      }
    }
    if Aimed(t, env, inst, es) && AllInSync(t, Goals(t, env, inst, es)) {
      forall e | e in es ensures EntryMet(t, env, inst, e) {
        var i :| 0 <= i < |es| && es[i] == e;
        assert InSync(t, Goals(t, env, inst, es)[i]);
      }
    }
  }

  lemma AskedIsGoal(t: Store, env: Env, inst: Instance, key: Key)
    requires Aimed(t, env, inst, Declared(inst))
    ensures AskedFor(env, inst, key) <==> IsGoalKey(Goals(t, env, inst, Declared(inst)), key)
  {
    hide AimOf, ObjectKey;
    DeclaredAre(inst);
    var es, gs := Declared(inst), Goals(t, env, inst, Declared(inst));
    forall n | 0 <= n < |es| ensures gs[n].key == ObjectKey(env, inst, es[n].schedule) {
      EntryMetIff(t, env, inst, es[n]);
    }
    if AskedFor(env, inst, key) {
      var i: nat, j: nat :| DeclaredAt(inst, i, j) && key == ObjectKey(env, inst, ScheduleAt(inst, i, j));
      var n :| 0 <= n < |es| && es[n] == Entry(StorageAt(inst, i, j), ScheduleAt(inst, i, j));
    }
    if IsGoalKey(gs, key) {
      var n :| 0 <= n < |gs| && gs[n].key == key;
      assert es[n] in es;
    }
  }

  /** The state passes settle in is exactly the one the declaration asks for. */
  lemma ConvergedIffAsAsked(t: Store, env: Env, inst: Instance)
    ensures Converged(t, env, inst) <==> AsAsked(t, env, inst)
  {
    hide EntryMet, ObjectFor, AllInSync, AimOf, AskedFor, IsGoalKey, DeclaredAt, Declared;
    DeclaredAre(inst);
    MetTogether(t, env, inst);
    forall e | e in Declared(inst)
      ensures EntryMet(t, env, inst, e) <==> ObjectFor(t, env, inst, e.storage, e.schedule)
    {
      EntryMetIff(t, env, inst, e);
    }
    if Aimed(t, env, inst, Declared(inst)) {
      forall key ensures AskedFor(env, inst, key) <==> IsGoalKey(Goals(t, env, inst, Declared(inst)), key) {
        AskedIsGoal(t, env, inst, key);
      }
    }
    forall key ensures Ours(t.backups, inst, key) <==> key in t.backups && LabelledOurs(t.backups[key], inst) {
    }
    if AsAsked(t, env, inst) {
      forall e | e in Declared(inst) ensures EntryMet(t, env, inst, e) {
        var i: nat, j: nat :| DeclaredAt(inst, i, j) && e == Entry(StorageAt(inst, i, j), ScheduleAt(inst, i, j));
        assert ObjectFor(t, env, inst, StorageAt(inst, i, j), ScheduleAt(inst, i, j));
      }
    }
  }
}
