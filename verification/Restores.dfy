/** In-place restores, and what holds of them over every run
    (internal/provider/backup.go). */
module Restores {
  import opened Kube
  import opened Names
  import opened Plans
  import opened Instances
  import opened ClusterApi
  import opened Provider
  import opened SeedingRuns
  import opened BackupSync
  import Runs

  /** An OpenEverest Restore into an Instance; its data source may be of another
      type, or name no backup. */
  datatype EverestRestore = EverestRestore(name: string, instance: string, fromBackup: bool, backup: string)

  function RestoreOwner(name: string): Owner {
    Owner("Restore", name)
  }

  datatype RestoreProgress = CannotRestore | NotYet | Restoring(operatorRestore: string)

  /** The operator backup a source stands for: the recorded one, else its own name. */
  function OperatorBackup(b: EverestBackup, name: string): string {
    if b.operatorRef.Some? && b.operatorRef.value.name != "" then b.operatorRef.value.name else name
  }

  function NextRestore(s: Store, r: EverestRestore, b: EverestBackup): RestoreCR {
    if r.name in s.restores then s.restores[r.name]
    else RestoreCR(None, r.instance, OperatorBackup(b, r.backup), RestorePending)
  }

  function PutRestorePlan(s: Store, r: EverestRestore, b: EverestBackup): Plan {
    var next := NextRestore(s, r, b);
    var cr := next.(owner := Some(RestoreOwner(r.name)));
    if !Ownable(next.owner, RestoreOwner(r.name)) then Stop(Conflicted)
    else if r.name in s.restores && s.restores[r.name] == cr then Stop(Done)
    else Plan([PutRestore(r.name, cr)], Done)
  }

  function RestorePlan(s: Store, r: EverestRestore): Plan {
    if !r.fromBackup || r.backup == "" || r.backup !in s.everestBackups then Stop(Done)
    else
      var b := s.everestBackups[r.backup];
      match ParseParameters(b.parameters)
      case None => Stop(Misconfigured)
      case Some(p) =>
        if KindOf(p) == Physical then Stop(Done)
        else if b.origin.Some? && b.origin.value != r.instance then Stop(Done)
        else if b.state != StateSucceeded then Stop(Done)
        else PutRestorePlan(s, r, b)
  }

  /** It never can be: no backup is named, or the one named is physical, another
      Instance's, or failed. */
  predicate Unrestorable(s: Store, r: EverestRestore) {
    || !r.fromBackup || r.backup == ""
    || (r.backup in s.everestBackups &&
        var b := s.everestBackups[r.backup];
        && ParseParameters(b.parameters).Some?
        && (KindOf(ParseParameters(b.parameters).value) == Physical
            || (b.origin.Some? && b.origin.value != r.instance)
            || b.state == StateFailed))
  }

  method SyncRestore(c: Cluster, r: EverestRestore) returns (out: Outcome, progress: RestoreProgress)
    modifies c
    ensures c.RanSince(old(c.State()), old(c.log), RestorePlan(old(c.State()), r), out)
    ensures c.failures == old(c.failures) + Failures(out)
    ensures out == Done ==> (progress == Restoring(r.name) <==> Restorable(old(c.State()), r))
    ensures out == Done ==> (progress == CannotRestore <==> Unrestorable(old(c.State()), r))
    ensures out == Done ==> progress in {CannotRestore, NotYet, Restoring(r.name)}
  {
    hide ParseParameters, OperatorBackup, KindOf;
    progress := CannotRestore;
    if !r.fromBackup || r.backup == "" { return Done, CannotRestore; }
    var source := c.Get(c.everestBackups, r.backup);
    if source.Failed? { return Aborted, NotYet; }
    if source.Missing? { return Done, NotYet; }
    var b := source.value;
    var params := ParseParameters(b.parameters);
    if params.None? { return Misconfigured, CannotRestore; }
    if KindOf(params.value) == Physical { return Done, CannotRestore; }
    if b.origin.Some? && b.origin.value != r.instance { return Done, CannotRestore; }
    if b.state == StateFailed { return Done, CannotRestore; }
    if b.state != StateSucceeded { return Done, NotYet; }
    var found := c.Get(c.restores, r.name);
    var next;
    match found {
      case Failed => return Aborted, NotYet;
      case Present(cr) => next := cr;
      case Missing => next := RestoreCR(None, r.instance, OperatorBackup(b, r.backup), RestorePending);
    }
    if !Ownable(next.owner, RestoreOwner(r.name)) { return Conflicted, NotYet; }
    var cr := next.(owner := Some(RestoreOwner(r.name)));
    if found == Present(cr) { return Done, Restoring(r.name); }
    progress := Restoring(r.name);
    out := c.Perform(PutRestore(r.name, cr));
  }

  function CleanupRestorePlan(s: Store, name: string): Plan {
    if name in s.restores then Plan([DeleteRestore(name)], Done) else Stop(Done)
  }

  method CleanupRestore(c: Cluster, name: string) returns (out: Outcome, gone: bool)
    modifies c
    ensures c.RanSince(old(c.State()), old(c.log), CleanupRestorePlan(old(c.State()), name), out)
    ensures c.failures == old(c.failures) + Failures(out)
    ensures out == Done ==> (gone <==> name !in old(c.State()).restores)
    ensures out == Done && gone ==>
            CleanupRestorePlan(old(c.State()), name) == Stop(Done) && c.State() == old(c.State())
    ensures out == Done && !gone ==> name !in c.State().restores
    ensures out == Done || out == Aborted
  {
    gone := false;
    var found := c.Get(c.restores, name);
    match found {
      case Failed => out := Aborted;
      case Missing => out, gone := Done, true;
      case Present(_) =>
        out := c.Perform(DeleteRestore(name));
        AfterWrite(old(c.State()), DeleteRestore(name), Done);
    }
  }

  /** The runtime calls again until gone: with no failed call and nobody else acting,
      the second call is the last. */
  method FinalizeRestore(c: Cluster, name: string) returns (out: Outcome, gone: bool)
    modifies c
    ensures c.failures == old(c.failures) + Failures(out)
    ensures c.failures == old(c.failures) ==> out == Done && gone && name !in c.State().restores
  {
    out, gone := CleanupRestore(c, name);
    if out == Done && !gone { out, gone := CleanupRestore(c, name); }
  }

  // ----- one step -------------------------------------------------------------

  /** The source may be restored into this Instance: it is logical, it succeeded,
      and it was not taken from another Instance. */
  predicate Restorable(s: Store, r: EverestRestore) {
    && r.fromBackup && r.backup != "" && r.backup in s.everestBackups
    && var b := s.everestBackups[r.backup];
       && ParseParameters(b.parameters).Some? && KindOf(ParseParameters(b.parameters).value) == Logical
       && b.state == StateSucceeded
       && (b.origin.None? || b.origin == Some(r.instance))
  }

  /** A pass creates the operator Restore exactly when the source is restorable;
      an existing one keeps everything but its owner. */
  lemma RestoreCreated(s: Store, r: EverestRestore)
    ensures var t := After(s, RestorePlan(s, r));
      && t == s.(restores := t.restores)
      && (forall name | name != r.name ::
            (name in t.restores <==> name in s.restores)
              && (name in s.restores ==> t.restores[name] == s.restores[name]))
      && (r.name !in s.restores ==>
            && (r.name in t.restores <==> Restorable(s, r))
            && (Restorable(s, r) ==>
                  t.restores[r.name] ==
                      RestoreCR(Some(RestoreOwner(r.name)), r.instance,
                          OperatorBackup(s.everestBackups[r.backup], r.backup), RestorePending)))
      && (r.name in s.restores ==>
            r.name in t.restores && t.restores[r.name].(owner := None) == s.restores[r.name].(owner := None))
  {
    hide ParseParameters, OperatorBackup, RestoreOwner;
    if Restorable(s, r) {
      var cr := NextRestore(s, r, s.everestBackups[r.backup]).(owner := Some(RestoreOwner(r.name)));
      AfterWrite(s, PutRestore(r.name, cr), Done);
    }
  }

  // ----- runs -----------------------------------------------------------------

  /** Passes over Instances, backups and restores, each cut short anywhere, the
      runtime recording what a completed SyncBackup reported, and anything else. */
  datatype RestoreEvent =
    | InstancePass(env: Env, inst: Instance, cut: nat)
    | BackupPass(instance: string, name: string, cut: nat)
    | Record(jobs: map<string, Job>, instance: string, name: string)
    | BackupCleanup(name: string, cut: nat)
    | RestorePass(restore: EverestRestore, cut: nat)
    | RestoreCleanup(name: string, cut: nat)
    | Others(store: Store)

  function CutPlan(s: Store, p: Plan, cut: nat): Store {
    Replay(s, Runs.Cut(p.writes, cut))
  }

  function AfterRecord(s: Store, jobs: map<string, Job>, instance: string, name: string): Store {
    if name !in s.everestBackups then s
    else
      var b := s.everestBackups[name];
      s.(everestBackups := s.everestBackups[name := b.(operatorRef := Recorded(s, jobs, instance, name, b))])
  }

  function AfterEvent(s: Store, e: RestoreEvent): Store {
    match e
    case InstancePass(env, inst, cut) => CutPlan(s, SyncPlan(s, env, inst), cut)
    case BackupPass(instance, name, cut) =>
      if name in s.everestBackups then CutPlan(s, BackupPlan(s, instance, name, s.everestBackups[name]), cut) else s
    case Record(jobs, instance, name) => AfterRecord(s, jobs, instance, name)
    case BackupCleanup(name, cut) =>
      if name in s.everestBackups then CutPlan(s, CleanupPlan(s, name, s.everestBackups[name]), cut) else s
    case RestorePass(r, cut) => CutPlan(s, RestorePlan(s, r), cut)
    case RestoreCleanup(name, cut) => CutPlan(s, CleanupRestorePlan(s, name), cut)
    case Others(t) => t
  }

  function StoreAfter(s: Store, es: seq<RestoreEvent>): Store {
    if es == [] then s else AfterEvent(StoreAfter(s, es[..|es| - 1]), es[|es| - 1])
  }

  /** The recorded reference of an on-demand backup names the object made for it. */
  predicate RefsRight(s: Store) {
    forall name | name in s.everestBackups && s.everestBackups[name].scheduleName == "" ::
      s.everestBackups[name].operatorRef.Some? ==>
      s.everestBackups[name].operatorRef.value.name == name
  }

  /** Others may do anything except change an operator Restore's immutable
      specification or record operator references of their own. */
  ghost predicate Fair(s: Store, e: RestoreEvent) {
    match e
    case InstancePass(env, _, _) => ValidEnv(env)
    case Others(t) =>
      && RefsRight(t)
      && forall name | name in s.restores && name in t.restores :: SameSpec(s.restores[name], t.restores[name])
    case _ => true
  }

  predicate SameSpec(a: RestoreCR, b: RestoreCR) {
    a.mariadb == b.mariadb && a.backup == b.backup
  }

  predicate NoRestore(w: Write) {
    !w.PutRestore? && !w.DeleteRestore?
  }

  lemma {:induction false} NoRestoreWrites(s: Store, ws: seq<Write>)
    requires forall i | 0 <= i < |ws| :: NoRestore(ws[i])
    ensures Replay(s, ws).restores == s.restores && Replay(s, ws).everestBackups == s.everestBackups
    decreases |ws|
  {
    hide NoRestore, Performed;
    if ws != [] {
      OneNoRestore(s, ws[0]);
      NoRestoreWrites(Performed(s, ws[0]), ws[1..]);
    }
  }

  lemma OneNoRestore(s: Store, w: Write)
    requires NoRestore(w)
    ensures Performed(s, w).restores == s.restores && Performed(s, w).everestBackups == s.everestBackups
  {
  }

  lemma InstancePassLeaves(s: Store, env: Env, inst: Instance, cut: nat)
    requires ValidEnv(env)
    ensures var t := CutPlan(s, SyncPlan(s, env, inst), cut);
            t.restores == s.restores && t.everestBackups == s.everestBackups
  {
    hide SyncPlan;
    var ws := SyncPlan(s, env, inst).writes;
    forall n | 0 <= n < |ws| ensures NoRestore(ws[n]) { SeedingOrder(s, env, inst, n); }
    NoRestoreWrites(s, Runs.Cut(ws, cut));
  }

  lemma BackupPassLeaves(s: Store, instance: string, name: string, b: EverestBackup, cut: nat)
    ensures var t := CutPlan(s, BackupPlan(s, instance, name, b), cut);
            t.restores == s.restores && t.everestBackups == s.everestBackups
    ensures var t := CutPlan(s, CleanupPlan(s, name, b), cut);
            t.restores == s.restores && t.everestBackups == s.everestBackups
  {
    hide ParseParameters, ResolveS3, OnDemand;
    NoRestoreWrites(s, Runs.Cut(BackupPlan(s, instance, name, b).writes, cut));
    NoRestoreWrites(s, Runs.Cut(CleanupPlan(s, name, b).writes, cut));
  }

  /** A pass of at most one write does all of it or nothing. */
  lemma AllOrNothing(s: Store, p: Plan, cut: nat)
    requires |p.writes| <= 1
    ensures CutPlan(s, p, cut) in {s, After(s, p)}
  {
    if cut < |p.writes| { assert p.writes[..cut] == []; }
  }

  /** No event changes the specification of a Restore that stays, or makes a
      recorded reference wrong. */
  lemma EventKeeps(s: Store, e: RestoreEvent)
    requires RefsRight(s) && Fair(s, e)
    ensures RefsRight(AfterEvent(s, e))
    ensures forall name | name in s.restores && name in AfterEvent(s, e).restores ::
            SameSpec(s.restores[name], AfterEvent(s, e).restores[name])
  {
    hide SyncPlan, BackupPlan, CleanupPlan, RestorePlan, Replay, CutPlan, ParseParameters;
    match e
    case InstancePass(env, inst, cut) => InstancePassLeaves(s, env, inst, cut);
    case BackupPass(instance, name, cut) =>
      if name in s.everestBackups { BackupPassLeaves(s, instance, name, s.everestBackups[name], cut); }
    case BackupCleanup(name, cut) =>
      if name in s.everestBackups { BackupPassLeaves(s, "", name, s.everestBackups[name], cut); }
    case Record(_, _, _) =>
    case RestorePass(r, cut) =>
      OneWrite(s, r);
      AllOrNothing(s, RestorePlan(s, r), cut);
      RestoreCreated(s, r);
    case RestoreCleanup(name, cut) =>
      AllOrNothing(s, CleanupRestorePlan(s, name), cut);
      AfterWrite(s, DeleteRestore(name), Done);
      AfterNothing(s);
    case Others(_) =>
  }

  lemma OneWrite(s: Store, r: EverestRestore)
    ensures |RestorePlan(s, r).writes| <= 1
  {
    hide ParseParameters, OperatorBackup;
  }

  ghost predicate FairRun(s: Store, es: seq<RestoreEvent>) {
    es != [] ==> FairRun(s, es[..|es| - 1]) && Fair(StoreAfter(s, es[..|es| - 1]), es[|es| - 1])
  }

  lemma {:induction false} RefsStayRight(s: Store, es: seq<RestoreEvent>)
    requires RefsRight(s) && FairRun(s, es)
    ensures RefsRight(StoreAfter(s, es))
    decreases |es|
  {
    hide Fair, AfterEvent, RefsRight;
    if es != [] {
      RefsStayRight(s, es[..|es| - 1]);
      EventKeeps(StoreAfter(s, es[..|es| - 1]), es[|es| - 1]);
    }
  }

  /** The Restore is there in every store from the n-th on. */
  predicate Lasts(s: Store, es: seq<RestoreEvent>, n: nat, name: string) {
    name in StoreAfter(s, es).restores && (n < |es| ==> Lasts(s, es[..|es| - 1], n, name))
  }

  lemma {:induction false} SpecLasts(s: Store, es: seq<RestoreEvent>, n: nat, name: string)
    requires RefsRight(s) && FairRun(s, es) && n <= |es| && Lasts(s, es, n, name)
    ensures name in StoreAfter(s, es[..n]).restores && name in StoreAfter(s, es).restores
    ensures SameSpec(StoreAfter(s, es[..n]).restores[name], StoreAfter(s, es).restores[name])
    decreases |es|
  {
    hide Fair, AfterEvent, RefsRight;
    if n == |es| {
      assert es[..n] == es;
    } else {
      var init := es[..|es| - 1];
      assert init[..n] == es[..n];
      SpecLasts(s, init, n, name);
      RefsStayRight(s, init);
      EventKeeps(StoreAfter(s, init), es[|es| - 1]);
    }
  }

  /** The n-th event is a restore pass that finds no operator Restore yet. */
  predicate Creates(s: Store, es: seq<RestoreEvent>, n: nat) {
    n < |es| && es[n].RestorePass? && es[n].restore.name !in StoreAfter(s, es[..n]).restores
  }

  /** Restore safety: an operator Restore that a pass created came from a source
      that was logical, succeeded and not another Instance's when it was created,
      and as long as it exists it restores that Instance from that source's operator
      backup; for an on-demand source, the one SyncBackup made, which has the
      source's name. */
  lemma {:induction false} RestoreSafety(s: Store, es: seq<RestoreEvent>, n: nat)
    requires RefsRight(s) && FairRun(s, es) && Creates(s, es, n)
    requires Lasts(s, es, n + 1, es[n].restore.name)
    ensures var before, r := StoreAfter(s, es[..n]), es[n].restore;
      && Restorable(before, r)
      && r.name in StoreAfter(s, es).restores
      && var cr, b := StoreAfter(s, es).restores[r.name], before.everestBackups[r.backup];
         && cr.mariadb == r.instance
         && cr.backup == OperatorBackup(b, r.backup)
         && (b.scheduleName == "" ==> cr.backup == r.backup)
  {
    hide FairRun, Lasts, StoreAfter, RestorePlan, Restorable, CutPlan, Runs.Cut, Replay;
    var before, r := StoreAfter(s, es[..n]), es[n].restore;
    SpecLasts(s, es, n + 1, r.name);
    StepAt(s, es, n);
    PrefixFair(s, es, n);
    RefsStayRight(s, es[..n]);
    OneWrite(before, r);
    AllOrNothing(before, RestorePlan(before, r), es[n].cut);
    RestoreCreated(before, r);
    RestorableIn(before, r);
  }

  /** Such runs exist: from any store with a restorable source and no operator
      Restore yet, one pass that gets its write through is one. */
  lemma RestorableGetsRestored(s: Store, r: EverestRestore)
    requires RefsRight(s) && Restorable(s, r) && r.name !in s.restores
    ensures var es := [RestorePass(r, 1)];
            FairRun(s, es) && Creates(s, es, 0) && Lasts(s, es, 1, r.name)
  {
    hide Restorable, RefsRight, RestorePlan, Replay;
    var es := [RestorePass(r, 1)];
    assert es[..0] == [] && es[..|es| - 1] == [] && es[0] == RestorePass(r, 1);
    OneWrite(s, r);
    RestoreCreated(s, r);
    assert StoreAfter(s, []) == s;
    assert StoreAfter(s, es) == CutPlan(s, RestorePlan(s, r), 1) == After(s, RestorePlan(s, r));
  }

  lemma StepAt(s: Store, es: seq<RestoreEvent>, n: nat)
    requires n < |es|
    ensures StoreAfter(s, es[..n + 1]) == AfterEvent(StoreAfter(s, es[..n]), es[n])
  {
    hide AfterEvent;
    assert es[..n + 1][..n] == es[..n];
  }

  lemma RestorableIn(s: Store, r: EverestRestore)
    ensures Restorable(s, r) ==> r.backup in s.everestBackups && r.backup != ""
  {
  }

  lemma {:induction false} PrefixFair(s: Store, es: seq<RestoreEvent>, n: nat)
    requires FairRun(s, es) && n <= |es|
    ensures FairRun(s, es[..n])
    decreases |es|
  {
    hide Fair, StoreAfter;
    if n == |es| {
      assert es[..n] == es;
    } else {
      assert es[..|es| - 1][..n] == es[..n];
      PrefixFair(s, es[..|es| - 1], n);
    }
  }
}
