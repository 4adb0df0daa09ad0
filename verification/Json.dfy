/** JSON documents, as the unstructured objects a server-side apply sends, and
    the two edits the provider makes to them before sending: dropping what is
    unset (internal/provider/apply.go) and removing nested fields
    (internal/provider/maxscale.go). */
module Json {

  datatype Json =
    | Null
    | Bool(b: bool)
    | Num(n: int)
    | Str(s: string)
    | Arr(items: seq<Json>)
    | Obj(fields: map<string, Json>)

  type Fields = map<string, Json>

  /** A map entry with this value is deleted: null, "", an empty list, or an
      object that is empty once its own entries have been dealt with. */
  predicate Drops(v: Json) {
    match v
    case Null => true
    case Str(s) => s == ""
    case Arr(items) => items == []
    case Obj(fields) => forall k | k in fields :: Drops(fields[k])
    case Bool(_) => false
    case Num(_) => false
  }

  /** The normal form of a value. Only objects are descended into: directly, or
      as the elements of a list that is itself the value of a map entry. */
  function Pruned(v: Json): Json {
    match v
    case Obj(fields) => Obj(map k | k in fields && !Drops(fields[k]) :: Pruned(fields[k]))
    case Arr(items) => Arr(seq(|items|, i requires 0 <= i < |items| =>
        if items[i].Obj? then Pruned(items[i]) else items[i]))
    case _ => v
  }

  function PrunedItem(v: Json): Json {
    if v.Obj? then Pruned(v) else v
  }

  function PrunedFields(m: Fields): (r: Fields) {
    map k | k in m && !Drops(m[k]) :: Pruned(m[k])
  }

  /** Nothing pruning would drop is left in any object it descends into. */
  predicate Normal(v: Json) {
    match v
    case Obj(fields) => forall k | k in fields :: !Drops(fields[k]) && Normal(fields[k])
    case Arr(items) => forall i | 0 <= i < |items| :: items[i].Obj? ==> Normal(items[i])
    case _ => true
  }

  lemma {:induction false} DropsPruned(v: Json)
    ensures Drops(Pruned(v)) == Drops(v)
  {
    match v
    case Obj(fields) =>
      var p := Pruned(v).fields;
      forall k | k in fields ensures Drops(Pruned(fields[k])) == Drops(fields[k]) {
        DropsPruned(fields[k]);
      }
      if k :| k in fields && !Drops(fields[k]) {
        assert k in p && !Drops(p[k]);
      }
    case _ =>
  }

  /** Pruning reaches a normal form. */
  lemma {:induction false} PrunedIsNormal(v: Json)
    ensures Normal(Pruned(v))
  {
    match v
    case Obj(fields) =>
      forall k | k in fields ensures Normal(Pruned(fields[k])) && Drops(Pruned(fields[k])) == Drops(fields[k]) {
        PrunedIsNormal(fields[k]);
        DropsPruned(fields[k]);
      }
    case Arr(items) =>
      forall i | 0 <= i < |items| ensures items[i].Obj? ==> Normal(Pruned(items[i])) {
        PrunedIsNormal(items[i]);
      }
    case _ =>
  }

  /** The values pruning leaves alone are exactly the ones in normal form. */
  lemma {:induction false} FixedIffNormal(v: Json)
    ensures Pruned(v) == v <==> Normal(v)
  {
    if Normal(v) {
      match v
      case Obj(fields) =>
        forall k | k in fields ensures Pruned(fields[k]) == fields[k] { FixedIffNormal(fields[k]); }
        assert Pruned(v).fields == fields;
      case Arr(items) =>
        forall i | 0 <= i < |items| ensures PrunedItem(items[i]) == items[i] { FixedIffNormal(items[i]); }
        assert Pruned(v).items == items;
      case _ =>
    } else if Pruned(v) == v {
      PrunedIsNormal(v);
    }
  }

  /** Pruning twice is pruning once. */
  lemma PrunedTwice(v: Json)
    ensures Pruned(Pruned(v)) == Pruned(v)
  {
    PrunedIsNormal(v);
    FixedIffNormal(Pruned(v));
  }

  /** Which scalars survive: explicit false and 0, and every non-empty string. */
  predicate SetScalar(v: Json) {
    v.Bool? || v.Num? || (v.Str? && v.s != "")
  }

  datatype Step = Field(key: string) | Index(i: nat)

  datatype Found = Absent | Value(v: Json)

  function At(v: Json, path: seq<Step>): Found {
    if path == [] then Value(v)
    else match (v, path[0])
      case (Obj(fields), Field(k)) => if k in fields then At(fields[k], path[1..]) else Absent
      case (Arr(items), Index(i)) => if i < |items| then At(items[i], path[1..]) else Absent
      case _ => Absent
  }

  /** Pruning neither loses, moves, changes nor invents a set scalar, at any path. */
  lemma {:induction false} ScalarsKept(v: Json, path: seq<Step>, scalar: Json)
    requires SetScalar(scalar)
    ensures At(v, path) == Value(scalar) <==> At(Pruned(v), path) == Value(scalar)
  {
    if path != [] {
      match (v, path[0])
      case (Obj(fields), Field(k)) =>
        if k in fields {
          ScalarsKept(fields[k], path[1..], scalar);
          if Drops(fields[k]) { NoScalarInside(fields[k], path[1..], scalar); }
        }
      case (Arr(items), Index(i)) =>
        if i < |items| { ScalarsKept(items[i], path[1..], scalar); }
      case _ =>
    }
  }

  lemma {:induction false} NoScalarInside(v: Json, path: seq<Step>, scalar: Json)
    requires Drops(v) && SetScalar(scalar)
    ensures At(v, path) != Value(scalar)
  {
    if path != [] && v.Obj? && path[0].Field? && path[0].key in v.fields {
      NoScalarInside(v.fields[path[0].key], path[1..], scalar);
    }
  }

  predicate IsList(found: Found, n: nat) {
    found.Value? && found.v.Arr? && |found.v.items| == n
  }

  /** Nor does it shorten a list: the non-empty lists and their lengths are the same. */
  lemma {:induction false} ListsKept(v: Json, path: seq<Step>, n: nat)
    requires n > 0
    ensures IsList(At(v, path), n) <==> IsList(At(Pruned(v), path), n)
  {
    if path != [] {
      match (v, path[0])
      case (Obj(fields), Field(k)) =>
        if k in fields {
          ListsKept(fields[k], path[1..], n);
          if Drops(fields[k]) { NoListInside(fields[k], path[1..], n); }
        }
      case (Arr(items), Index(i)) =>
        if i < |items| { ListsKept(items[i], path[1..], n); }
      case _ =>
    }
  }

  lemma {:induction false} NoListInside(v: Json, path: seq<Step>, n: nat)
    requires Drops(v) && n > 0
    ensures !IsList(At(v, path), n)
  {
    if path != [] && v.Obj? && path[0].Field? && path[0].key in v.fields {
      NoListInside(v.fields[path[0].key], path[1..], n);
    }
  }

  // ----- reading: absent text is "", an absent list is empty ------------------

  function FieldsOf(v: Json): Fields {
    if v.Obj? then v.fields else map[]
  }

  function TextIn(v: Json, key: string): string {
    var m := FieldsOf(v);
    if key in m && m[key].Str? then m[key].s else ""
  }

  function NumIn(v: Json, key: string): int {
    var m := FieldsOf(v);
    if key in m && m[key].Num? then m[key].n else 0
  }

  function Child(v: Json, key: string): Json {
    var m := FieldsOf(v);
    if key in m then m[key] else Null
  }

  function ItemsIn(v: Json, key: string): seq<Json> {
    var child := Child(v, key);
    if child.Arr? then child.items else []
  }

  function PrunedAll(items: seq<Json>): seq<Json> {
    seq(|items|, i requires 0 <= i < |items| => if items[i].Obj? then Pruned(items[i]) else items[i])
  }

  lemma ScalarsRead(v: Json, key: string)
    ensures TextIn(Pruned(v), key) == TextIn(v, key) && NumIn(Pruned(v), key) == NumIn(v, key)
  {
  }

  lemma ItemsRead(v: Json, key: string)
    ensures ItemsIn(Pruned(v), key) == PrunedAll(ItemsIn(v, key))
  {
  }

  lemma ChildRead(v: Json, key: string)
    ensures Child(Pruned(v), key) == if Drops(Child(v, key)) then Null else Pruned(Child(v, key))
  {
  }

  lemma StillObject()
    ensures forall v: Json | v.Obj? :: Pruned(v).Obj?
  {
  }

  lemma DroppedRead(v: Json, key: string)
    requires Drops(v)
    ensures ItemsIn(v, key) == [] && Drops(Child(v, key))
  {
    if v.Obj? && key in v.fields { assert Drops(v.fields[key]); }
  }

  // ----- removing nested fields -----------------------------------------------

  /** Removing a nested field: a no-op when the path does not lead through objects. */
  function Removed(m: Fields, path: seq<string>): Fields
    requires path != []
    decreases |path|
  {
    if |path| == 1 then m - {path[0]}
    else if path[0] in m && m[path[0]].Obj? then
      m[path[0] := Obj(Removed(m[path[0]].fields, path[1..]))]
    else m
  }

  function RemovedAll(m: Fields, paths: seq<seq<string>>): Fields
    requires [] !in paths
  {
    if paths == [] then m
    else Removed(RemovedAll(m, paths[..|paths| - 1]), paths[|paths| - 1])
  }

  lemma DropsIffNothingLeft(m: Fields)
    ensures Drops(Obj(m)) <==> PrunedFields(m) == map[]
  {
    if k :| k in m && !Drops(m[k]) {
      assert k in PrunedFields(m);
    }
  }

  lemma {:induction false} PrunedFieldsTwice(m: Fields)
    ensures PrunedFields(PrunedFields(m)) == PrunedFields(m)
  {
    PrunedTwice(Obj(m));
    assert Pruned(Obj(m)).fields == PrunedFields(m);
    assert Pruned(Obj(PrunedFields(m))).fields == PrunedFields(PrunedFields(m));
  }

  lemma {:induction false} KeyRemovalCommutes(m: Fields, x: string)
    ensures PrunedFields(PrunedFields(m) - {x}) == PrunedFields(m - {x})
  {
    PrunedFieldsTwice(m);
    var p := PrunedFields(m);
    forall k | k in p ensures Drops(p[k]) == Drops(m[k]) && Pruned(p[k]) == p[k] {
      DropsPruned(m[k]);
      PrunedTwice(m[k]);
    }
  }

  /** Pruning does not look past an entry: equal pruned entries, equal results. */
  lemma {:induction false} EntryCommutes(m: Fields, x: string, before: Json, after: Json)
    requires Drops(before) == Drops(after) && Pruned(before) == Pruned(after)
    ensures PrunedFields(PrunedFields(m)[x := before]) == PrunedFields(m[x := after])
  {
    var a, b := PrunedFields(PrunedFields(m)[x := before]), PrunedFields(m[x := after]);
    forall k | k != x ensures (k in a <==> k in b) && (k in a ==> a[k] == b[k]) {
      if k in m {
        DropsPruned(m[k]);
        PrunedTwice(m[k]);
      }
    }
    assert (x in a <==> x in b) && (x in a ==> a[x] == b[x]);
  }

  /** Removing a path before pruning or after it makes no difference, as long as
      the tree is pruned once more at the end. */
  lemma {:induction false} RemoveCommutes(m: Fields, path: seq<string>)
    requires path != []
    ensures PrunedFields(Removed(PrunedFields(m), path)) == PrunedFields(Removed(m, path))
    decreases |path|
  {
    var x, p := path[0], PrunedFields(m);
    if |path| == 1 {
      KeyRemovalCommutes(m, x);
    } else if x !in m || !m[x].Obj? {
      PrunedFieldsTwice(m);
      assert Removed(p, path) == p;
    } else {
      var f := m[x].fields;
      var r, q := Removed(f, path[1..]), Removed(PrunedFields(f), path[1..]);
      RemoveCommutes(f, path[1..]);
      DropsIffNothingLeft(r);
      DropsIffNothingLeft(q);
      ObjPruned(r);
      ObjPruned(q);
      EntryCommutes(m, x, Obj(q), Obj(r));
      if Drops(m[x]) {
        DropsIffNothingLeft(f);
        RemovedFromNothing(path[1..]);
        DroppedEntry(p, x, Obj(q));
      } else {
        ObjPruned(f);
        assert Removed(p, path) == p[x := Obj(q)];
      }
    }
  }

  lemma ObjPruned(f: Fields)
    ensures Pruned(Obj(f)) == Obj(PrunedFields(f))
  {
    assert Pruned(Obj(f)).fields == PrunedFields(f);
  }

  lemma DroppedEntry(p: Fields, x: string, v: Json)
    requires x !in p && Drops(v)
    ensures PrunedFields(p[x := v]) == PrunedFields(p)
  {
  }

  lemma RemovedFromNothing(path: seq<string>)
    requires path != []
    ensures Removed(map[], path) == map[]
  {
  }

  /** The same for any list of paths. */
  lemma {:induction false} RemoveAllCommutes(m: Fields, paths: seq<seq<string>>)
    requires [] !in paths
    ensures PrunedFields(RemovedAll(PrunedFields(m), paths)) == PrunedFields(RemovedAll(m, paths))
  {
    if paths == [] {
      PrunedFieldsTwice(m);
    } else {
      var init, last := paths[..|paths| - 1], paths[|paths| - 1];
      RemoveAllCommutes(m, init);
      RemoveCommutes(RemovedAll(PrunedFields(m), init), last);
      RemoveCommutes(RemovedAll(m, init), last);
    }
  }

  // ----- MaxScale (internal/provider/maxscale.go) -----------------------------

  /** The fields the operator defaults but whose zero values would be sent. */
  const ZERO_DEFAULTS: seq<seq<string>> := [["spec", "admin", "port"], ["spec", "monitor", "interval"]]

  lemma ZeroDefaultsRemoved(m: Fields)
    ensures RemovedAll(m, ZERO_DEFAULTS) ==
        Removed(Removed(m, ["spec", "admin", "port"]), ["spec", "monitor", "interval"])
  {
    var init := ZERO_DEFAULTS[..1];
    assert init == [["spec", "admin", "port"]] && init[..|init| - 1] == [] && init[0] == ["spec", "admin", "port"];
    assert RemovedAll(m, init) == Removed(m, ["spec", "admin", "port"]);
    assert ZERO_DEFAULTS[..|ZERO_DEFAULTS| - 1] == init;
  }

  /** Dropping them from what is about to be sent, which has been pruned already,
      sends the same as if they had been left out from the start. */
  lemma ZeroDefaultsAfterPruning(m: Fields)
    ensures PrunedFields(RemovedAll(PrunedFields(m), ZERO_DEFAULTS)) == PrunedFields(RemovedAll(m, ZERO_DEFAULTS))
  {
    RemoveAllCommutes(m, ZERO_DEFAULTS);
  }
}
