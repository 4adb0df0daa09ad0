/** The cluster as the provider sees it through its client: one map per kind,
    and calls any of which may fail. */
module ClusterApi {
  import opened Kube
  import opened Plans
  import opened Instances

  /** What a Get returns. */
  datatype Read<+T> = Present(value: T) | Missing | Failed

  class Cluster {
    var backups: map<Key, BackupCR>
    var mariadbs: map<string, MariaDB>
    var pitrs: map<string, Pitr>
    var secrets: map<string, Secret>
    var restores: map<string, RestoreCR>
    var storages: map<string, BackupStorage>
    var everestBackups: map<string, EverestBackup>

    /** The writes that have gone through, oldest first. */
    ghost var log: seq<Write>

    /** How many calls have failed. */
    ghost var failures: nat

    ghost function State(): Store
      reads this
    {
      Store(backups, mariadbs, pitrs, secrets, restores, storages, everestBackups)
    }

    /** An API call may fail at any time; if it does, nothing has happened. */
    method Fails() returns (failed: bool)
      modifies this`failures
      ensures failures == old(failures) + if failed then 1 else 0
    {
      failed := *;
      failures := failures + if failed then 1 else 0;
    }

    method Get<T>(objects: map<string, T>, name: string) returns (r: Read<T>)
      modifies this`failures
      ensures failures == old(failures) + if r.Failed? then 1 else 0
      ensures r == Failed || r == if name in objects then Present(objects[name]) else Missing
    {
      var failed := Fails();
      r := if failed then Failed else if name in objects then Present(objects[name]) else Missing;
    }

    method GetBackup(key: Key) returns (r: Read<BackupCR>)
      modifies this`failures
      ensures failures == old(failures) + if r.Failed? then 1 else 0
      ensures r == Failed || r == if key in backups then Present(backups[key]) else Missing
    {
      var failed := Fails();
      r := if failed then Failed else if key in backups then Present(backups[key]) else Missing;
    }

    /** List the backups of one kind that carry the Instance's label. */
    method ListBackups(kind: Kind, instance: string, listing: set<Key> -> seq<Key>) returns (ok: bool, order: seq<Key>)
      modifies this`failures
      ensures failures == old(failures) + if ok then 0 else 1
      ensures ok ==> order == listing(Listed(backups, kind, instance))
    {
      var failed := Fails();
      ok, order := !failed, listing(Listed(backups, kind, instance));
    }

    method Send(w: Write) returns (ok: bool)
      modifies this
      ensures failures == old(failures) + if ok then 0 else 1
      ensures ok ==> State() == Performed(old(State()), w) && log == old(log) + [w]
      ensures !ok ==> State() == old(State()) && log == old(log)
    {
      var failed := Fails();
      if failed { return false; }
      match w {
        case PutBackup(key, cr) => backups := backups[key := cr];
        case DeleteBackup(key) => backups := backups - {key};
        case ApplyMariaDB(name, spec) => mariadbs := Applied(mariadbs, name, spec);
        case PutPitr(name, pitr) => pitrs := pitrs[name := pitr];
        case DeletePitr(name) => pitrs := pitrs - {name};
        case CreateSecret(name, secret) => secrets := secrets[name := secret];
        case PutRestore(name, restore) => restores := restores[name := restore];
        case DeleteRestore(name) => restores := restores - {name};
      }
      log := log + [w];
      ok := true;
    }

    /** Since store s0 and log l0, the plan has been run, or begun and aborted. */
    ghost predicate RanSince(s0: Store, l0: seq<Write>, p: Plan, outcome: Outcome)
      reads this
    {
      Ran(s0, l0, State(), log, p, outcome)
    }

    /** Send one write as a whole plan. */
    method Perform(w: Write) returns (out: Outcome)
      modifies this
      ensures RanSince(old(State()), old(log), Plan([w], Done), out)
      ensures failures == old(failures) + Failures(out)
      ensures out == Done || out == Aborted
    {
      var ok := Send(w);
      out := if ok then Done else Aborted;
      ghost var d := log[|old(log)|..];
      assert d == if ok then [w] else [];
      assert Replay(old(State()), [w]) == Replay(Performed(old(State()), w), [w][1..]);
    }

    /** Delete the object if it is there; its absence is not an error. */
    method DeleteIfPresent(key: Key) returns (out: Outcome)
      modifies this
      ensures RanSince(old(State()), old(log), DeletePlan(old(State()), key), out)
      ensures failures == old(failures) + Failures(out)
      ensures out == Done || out == Aborted
    {
      var found := GetBackup(key);
      match found {
        case Present(_) => out := Perform(DeleteBackup(key));
        case Missing => out := Done;
        case Failed => out := Aborted;
      }
    }

    /** controllerutil.CreateOrUpdate, after its mutate function has turned the
        stored or blank object into next: take ownership, then write if that
        changes anything. */
    method CreateOrUpdate(key: Key, next: BackupCR, owner: Owner) returns (out: Outcome)
      modifies this
      ensures RanSince(old(State()), old(log), UpsertPlan(old(State()), key, next, owner), out)
      ensures failures == old(failures) + Failures(out)
    {
      var found := GetBackup(key);
      if found.Failed? { return Aborted; }
      if !Ownable(next.owner, owner) { return Conflicted; }
      var cr := next.(owner := Some(owner));
      if found == Present(cr) { return Done; }
      out := Perform(PutBackup(key, cr));
    }
  }

  function Listed(backups: map<Key, BackupCR>, kind: Kind, instance: string): set<Key> {
    set key | key in backups && key.kind == kind && HasLabel(backups[key], InstanceLabel, instance)
  }

  predicate HasLabel(cr: BackupCR, key: LabelKey, value: string) {
    key in cr.labels && cr.labels[key] == value
  }

  function DeletePlan(s: Store, key: Key): Plan {
    if key in s.backups then Plan([DeleteBackup(key)], Done) else Stop(Done)
  }

  /** An object is taken over unless another controller already has it. */
  predicate Ownable(current: Option<Owner>, owner: Owner) {
    current == None || current == Some(owner)
  }

  function UpsertPlan(s: Store, key: Key, next: BackupCR, owner: Owner): Plan {
    var cr := next.(owner := Some(owner));
    if !Ownable(next.owner, owner) then Stop(Conflicted)
    else if key in s.backups && s.backups[key] == cr then Stop(Done)
    else Plan([PutBackup(key, cr)], Done)
  }

  lemma AfterWrite(s: Store, w: Write, outcome: Outcome)
    ensures After(s, Plan([w], outcome)) == Performed(s, w)
  {
    assert Replay(s, [w]) == Replay(Performed(s, w), [w][1..]);
  }

  lemma AfterDelete(s: Store, key: Key)
    ensures After(s, DeletePlan(s, key)) == s.(backups := s.backups - {key})
  {
    AfterWrite(s, DeleteBackup(key), Done);
    if key !in s.backups {
      assert s.backups - {key} == s.backups;
    }
  }

  lemma AfterUpsert(s: Store, key: Key, next: BackupCR, owner: Owner)
    ensures After(s, UpsertPlan(s, key, next, owner)) ==
            if Ownable(next.owner, owner) then s.(backups := s.backups[key := next.(owner := Some(owner))]) else s
  {
    var cr := next.(owner := Some(owner));
    AfterWrite(s, PutBackup(key, cr), Done);
    if key in s.backups && s.backups[key] == cr {
      assert s.backups[key := cr] == s.backups;
    }
  }
}
