/** Runs: passes of any Instances, with any specifications, each cut short
    anywhere, and in between whatever else happens in the cluster. */
module Runs {
  import opened Kube
  import opened Names
  import opened Plans
  import opened Instances
  import opened Provider
  import opened PitrChain
  import opened SeedingRuns
  import opened Seeding
  import opened ClusterApi
  import opened BackupSync

  /** A pass of inst that stops after at most cut writes, a pass or a cleanup of an
      on-demand backup that gets its write through, or a change by others. */
  datatype Event =
    | Pass(env: Env, inst: Instance, cut: nat)
    | BackupPass(instance: string, name: string, backup: EverestBackup)
    | BackupCleanup(name: string, backup: EverestBackup)
    | Others(store: Store)

  function Cut(ws: seq<Write>, n: nat): seq<Write> {
    if n < |ws| then ws[..n] else ws
  }

  function After1(s: Store, e: Event): Store {
    match e
    case Pass(env, inst, cut) => Replay(s, Cut(SyncPlan(s, env, inst).writes, cut))
    case BackupPass(instance, name, b) => After(s, BackupPlan(s, instance, name, b))
    case BackupCleanup(name, b) => After(s, CleanupPlan(s, name, b))
    case Others(t) => t
  }

  function AfterAll(s: Store, es: seq<Event>): Store {
    if es == [] then s else After1(AfterAll(s, es[..|es| - 1]), es[|es| - 1])
  }

  ghost predicate IsPassOf(digest: Digest, instances: set<string>, e: Event) {
    e.Pass? ==> ValidEnv(e.env) && e.env.digest == digest && e.inst.name in instances
  }

  // ----- the reference chain --------------------------------------------------

  /** Others may do anything except declare PITR references, or delete, rebase or
      relabel the PITR objects and bases of our Instances. */
  predicate LeavesChain(digest: Digest, i: string, s: Store, t: Store) {
    && (i in t.mariadbs ==> i in s.mariadbs && t.mariadbs[i].spec.pitrRef == s.mariadbs[i].spec.pitrRef)
    && (PitrName(i) in t.pitrs <==> PitrName(i) in s.pitrs)
    && (PitrName(i) in t.pitrs ==> t.pitrs[PitrName(i)].base == s.pitrs[PitrName(i)].base)
    && (BaseOf(digest, i) in t.backups <==> BaseOf(digest, i) in s.backups)
    && (BaseOf(digest, i) in t.backups ==> t.backups[BaseOf(digest, i)].labels == s.backups[BaseOf(digest, i)].labels)
  }

  ghost predicate ChainRun(digest: Digest, instances: set<string>, s: Store, es: seq<Event>) {
    forall n | 0 <= n < |es| ::
      && IsPassOf(digest, instances, es[n])
      && (es[n].Others? ==> forall i | i in instances :: LeavesChain(digest, i, AfterAll(s, es[..n]), es[n].store))
  }

  lemma CutThroughout(inv: Store -> bool, s: Store, ws: seq<Write>, n: nat)
    requires Throughout(inv, s, ws)
    ensures inv(Replay(s, Cut(ws, n)))
  {
    if n < |ws| { ThroughoutPrefix(inv, s, ws, n); } else { ThroughoutEnds(inv, s, ws); }
  }

  /** Cleanup deletes by name, so it must not be given the name of a base in use. */
  predicate Spares(digest: Digest, i: string, s: Store, e: Event) {
    e.BackupCleanup? && e.backup.scheduleName == "" && ParseParameters(e.backup.parameters).Some?
      && Key(KindOf(ParseParameters(e.backup.parameters).value), e.name) == BaseOf(digest, i) ==>
      PitrName(i) !in s.pitrs
  }

  lemma BackupPassLinked(digest: Digest, i: string, s: Store, instance: string, name: string, b: EverestBackup)
    requires Linked(digest, i, s)
    ensures Linked(digest, i, After(s, BackupPlan(s, instance, name, b)))
  {
    hide BackupPlan, BaseName, PitrName;
    var p := BackupPlan(s, instance, name, b);
    FewWrites(s, instance, name, b);
    if p.writes == [] { AfterNothing(s); } else { AfterWrite(s, p.writes[0], p.outcome); }
  }

  lemma CleanupLinkedIff(digest: Digest, i: string, s: Store, name: string, b: EverestBackup)
    requires Linked(digest, i, s)
    ensures Linked(digest, i, After(s, CleanupPlan(s, name, b))) <==> Spares(digest, i, s, BackupCleanup(name, b))
  {
    hide ParseParameters, BaseName, PitrName, DeletePlan;
    AfterNothing(s);
    if b.scheduleName == "" && ParseParameters(b.parameters).Some? {
      AfterDelete(s, Key(KindOf(ParseParameters(b.parameters).value), name));
    }
  }

  /** One event keeps a chain if and only if it does not clean up its base by name. */
  lemma ChainStepIff(digest: Digest, instances: set<string>, s: Store, e: Event, i: string)
    requires BasesDistinguished(digest, instances) && i in instances && Linked(digest, i, s)
    requires IsPassOf(digest, instances, e)
    requires e.Others? ==> LeavesChain(digest, i, s, e.store)
    ensures Linked(digest, i, After1(s, e)) <==> Spares(digest, i, s, e)
  {
    hide SyncPlan, BaseName, PitrName, BackupPlan, CleanupPlan, ParseParameters;
    match e
    case Others(_) =>
    case BackupPass(instance, name, b) => BackupPassLinked(digest, i, s, instance, name, b);
    case BackupCleanup(name, b) => CleanupLinkedIff(digest, i, s, name, b);
    case Pass(env, inst, cut) =>
      PassKeepsChain(s, env, inst, instances, i);
      CutThroughout(y => Linked(env.digest, i, y), s, SyncPlan(s, env, inst).writes, cut);
  }

  ghost predicate AlwaysSpares(digest: Digest, i: string, s: Store, es: seq<Event>) {
    forall n | 0 <= n < |es| :: Spares(digest, i, AfterAll(s, es[..n]), es[n])
  }

  ghost predicate AlwaysLinked(digest: Digest, i: string, s: Store, es: seq<Event>) {
    forall n | 0 <= n <= |es| :: Linked(digest, i, AfterAll(s, es[..n]))
  }

  /** Over every run in which none is: a MariaDB's PITR reference names an existing
      PITR object, and that object's base backup exists. */
  lemma {:induction false} ChainHolds(digest: Digest, instances: set<string>, s: Store, es: seq<Event>, i: string)
    requires BasesDistinguished(digest, instances) && i in instances && Linked(digest, i, s)
    requires ChainRun(digest, instances, s, es) && AlwaysSpares(digest, i, s, es)
    ensures var t := AfterAll(s, es);
      && Linked(digest, i, t)
      && (i in t.mariadbs && t.mariadbs[i].spec.pitrRef.Some? ==>
            && t.mariadbs[i].spec.pitrRef.value in t.pitrs
            && Key(Physical, t.pitrs[t.mariadbs[i].spec.pitrRef.value].base) in t.backups)
    decreases |es|
  {
    hide After1, LeavesChain, Spares, BasesDistinguished, BaseName, PitrName;
    if es != [] {
      var init := es[..|es| - 1];
      assert forall n | 0 <= n < |init| :: init[n] == es[n] && init[..n] == es[..n];
      ChainHolds(digest, instances, s, init, i);
      assert es[..|es| - 1] == init;
      ChainStepIff(digest, instances, AfterAll(s, init), es[|es| - 1], i);
    }
  }

  lemma Prefixes(digest: Digest, instances: set<string>, s: Store, es: seq<Event>, i: string, n: nat)
    requires ChainRun(digest, instances, s, es) && n <= |es|
    ensures ChainRun(digest, instances, s, es[..n])
    ensures AlwaysSpares(digest, i, s, es) ==> AlwaysSpares(digest, i, s, es[..n])
  {
    hide After1, AfterAll, LeavesChain, Spares, IsPassOf;
    assert forall m | 0 <= m < n :: es[..n][m] == es[m] && es[..n][..m] == es[..m];
  }

  /** Over every run, the chain is intact after every event if and only if no on-demand
      backup with the name of a base in use is cleaned up on the way. Any pass may be
      the last event, cut anywhere, so every store on the way is covered. */
  lemma ChainHoldsIff(digest: Digest, instances: set<string>, s: Store, es: seq<Event>, i: string)
    requires BasesDistinguished(digest, instances) && i in instances && Linked(digest, i, s)
    requires ChainRun(digest, instances, s, es)
    ensures AlwaysLinked(digest, i, s, es) <==> AlwaysSpares(digest, i, s, es)
  {
    hide After1, LeavesChain, Linked, Spares, BasesDistinguished, IsPassOf;
    if AlwaysSpares(digest, i, s, es) {
      forall n | 0 <= n <= |es| ensures Linked(digest, i, AfterAll(s, es[..n])) {
        Prefixes(digest, instances, s, es, i, n);
        ChainHolds(digest, instances, s, es[..n], i);
      }
    }
    if AlwaysLinked(digest, i, s, es) {
      forall n | 0 <= n < |es| ensures Spares(digest, i, AfterAll(s, es[..n]), es[n]) {
        assert es[..n + 1][..n] == es[..n] && es[..n + 1][n] == es[n];
        assert Linked(digest, i, AfterAll(s, es[..n])) && Linked(digest, i, AfterAll(s, es[..n + 1]));
        ChainStepIff(digest, instances, AfterAll(s, es[..n]), es[n], i);
      }
    }
  }

  // ----- seeds ----------------------------------------------------------------

  /** Others change neither what the provider declares on i nor delete i or its
      credentials. */
  predicate LeavesSeed(i: string, s: Store, t: Store) {
    && (i in t.mariadbs <==> i in s.mariadbs)
    && (i in t.mariadbs ==> t.mariadbs[i].spec.bootstrapFrom == s.mariadbs[i].spec.bootstrapFrom &&
                            t.mariadbs[i].spec.storageClass == s.mariadbs[i].spec.storageClass)
    && (CredentialsPresent(s, i) ==> CredentialsPresent(t, i))
  }

  ghost predicate SeedRun(digest: Digest, instances: set<string>, i: string, s: Store, es: seq<Event>) {
    forall n | 0 <= n < |es| ::
      && IsPassOf(digest, instances, es[n])
      && (es[n].Others? ==> LeavesSeed(i, AfterAll(s, es[..n]), es[n].store))
  }

  /** A seeded Instance has its credentials. */
  predicate Seeded(i: string, s: Store) {
    && SeedStable(s, i)
    && (i in s.mariadbs && s.mariadbs[i].spec.bootstrapFrom.Some? ==> CredentialsPresent(s, i))
  }

  predicate SameSeed(i: string, s: Store, t: Store) {
    i in s.mariadbs ==>
      && i in t.mariadbs
      && t.mariadbs[i].spec.bootstrapFrom == s.mariadbs[i].spec.bootstrapFrom
      && t.mariadbs[i].spec.storageClass == s.mariadbs[i].spec.storageClass
  }

  lemma BackupPassBesides(s: Store, instance: string, name: string, b: EverestBackup)
    ensures var t := After(s, BackupPlan(s, instance, name, b)); t == s.(backups := t.backups)
  {
    hide BackupPlan;
    var p := BackupPlan(s, instance, name, b);
    FewWrites(s, instance, name, b);
    if p.writes == [] { AfterNothing(s); } else { AfterWrite(s, p.writes[0], p.outcome); }
  }

  lemma CleanupBesides(s: Store, name: string, b: EverestBackup)
    ensures var t := After(s, CleanupPlan(s, name, b)); t == s.(backups := t.backups)
  {
    hide ParseParameters, DeletePlan;
    AfterNothing(s);
    if b.scheduleName == "" && ParseParameters(b.parameters).Some? {
      AfterDelete(s, Key(KindOf(ParseParameters(b.parameters).value), name));
    }
  }

  lemma SeedStep(digest: Digest, instances: set<string>, i: string, s: Store, e: Event)
    requires Seeded(i, s) && IsPassOf(digest, instances, e)
    requires e.Others? ==> LeavesSeed(i, s, e.store)
    ensures Seeded(i, After1(s, e)) && SameSeed(i, s, After1(s, e))
  {
    hide SyncPlan, RootSecretName, UserSecretName, AppliedTree, BackupPlan, CleanupPlan;
    match e
    case Others(_) =>
    case BackupPass(instance, name, b) => BackupPassBesides(s, instance, name, b);
    case BackupCleanup(name, b) => CleanupBesides(s, name, b);
    case Pass(env, inst, cut) =>
      PassKeepsSeeds(s, env, inst, i);
      CutThroughout(y => SeedKept(i, s, y), s, SyncPlan(s, env, inst).writes, cut);
  }

  /** Over every run: once a MariaDB exists, its bootstrapFrom and storage class
      never change; and whenever it is seeded, both its Secrets exist. */
  lemma {:induction false} SeedsNeverChange(digest: Digest, instances: set<string>, i: string, s: Store,
      es: seq<Event>, m: nat)
    requires Seeded(i, s) && SeedRun(digest, instances, i, s, es) && m <= |es|
    ensures Seeded(i, AfterAll(s, es)) && SameSeed(i, AfterAll(s, es[..m]), AfterAll(s, es))
    decreases |es|
  {
    hide After1, LeavesSeed, SeedStable, CredentialsPresent;
    if m == |es| {
      assert es[..m] == es;
    }
    if es != [] {
      var init := es[..|es| - 1];
      assert forall n | 0 <= n <= |init| :: init[..n] == es[..n];
      assert forall n | 0 <= n < |init| :: init[n] == es[n];
      SeedsNeverChange(digest, instances, i, s, init, if m <= |init| then m else |init|);
      SeedStep(digest, instances, i, AfterAll(s, init), es[|es| - 1]);
    }
  }
}
