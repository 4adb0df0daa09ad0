/** Pruning as it is done: on mutable maps, deleting keys while ranging over them
    in whatever order the runtime picks (internal/provider/apply.go, maxscale.go). */
module PruneInPlace {
  import opened Json

  /** A value held in a map or a list: a scalar, a list, or a reference to a map. */
  datatype Node = Leaf(scalar: Json) | List(items: seq<Node>) | Ref(obj: JsonObject)

  class JsonObject {
    var fields: map<string, Node>
  }

  /** A tree together with the map that holds each of its objects. */
  datatype Located =
    | LLeaf(scalar: Json)
    | LList(items: seq<Located>)
    | LObj(obj: JsonObject, fields: map<string, Located>)

  ghost function Plain(t: Located): Json {
    match t
    case LLeaf(v) => v
    case LList(items) => Arr(seq(|items|, i requires 0 <= i < |items| => Plain(items[i])))
    case LObj(_, fields) => Obj(map k | k in fields :: Plain(fields[k]))
  }

  ghost function NodeOf(t: Located): Node {
    match t
    case LLeaf(v) => Leaf(v)
    case LList(items) => List(seq(|items|, i requires 0 <= i < |items| => NodeOf(items[i])))
    case LObj(obj, _) => Ref(obj)
  }

  /** The maps of a tree. */
  ghost function Maps(t: Located): set<JsonObject> {
    match t
    case LLeaf(_) => {}
    case LList(items) => set i, o | 0 <= i < |items| && o in Maps(items[i]) :: o
    case LObj(obj, fields) => {obj} + set k, o | k in fields && o in Maps(fields[k]) :: o
  }

  /** No map occurs twice, and leaves are scalars. */
  ghost predicate Proper(t: Located) {
    match t
    case LLeaf(v) => !v.Obj? && !v.Arr?
    case LList(items) =>
      && (forall i | 0 <= i < |items| :: Proper(items[i]))
      && (forall i, j | 0 <= i < j < |items| :: Maps(items[i]) !! Maps(items[j]))
    case LObj(obj, fields) =>
      && (forall k | k in fields :: Proper(fields[k]) && obj !in Maps(fields[k]))
      && (forall j, k | j in fields && k in fields && j != k :: Maps(fields[j]) !! Maps(fields[k]))
  }

  /** The heap holds this tree. */
  ghost predicate Holds(t: Located)
    reads Maps(t)
  {
    match t
    case LLeaf(_) => true
    case LList(items) => forall i | 0 <= i < |items| :: Holds(items[i])
    case LObj(obj, fields) =>
      && obj.fields.Keys == fields.Keys
      && forall k | k in fields :: obj.fields[k] == NodeOf(fields[k]) && Holds(fields[k])
  }

  /** The pruned tree, in the same maps. */
  ghost function Shrunk(t: Located): Located {
    match t
    case LLeaf(_) => t
    case LList(items) => LList(seq(|items|,
        i requires 0 <= i < |items| => if items[i].LObj? then Shrunk(items[i]) else items[i]))
    case LObj(obj, fields) => LObj(obj, map k | k in fields && !Drops(Plain(fields[k])) :: Shrunk(fields[k]))
  }

  ghost function ShrunkItem(t: Located): Located {
    if t.LObj? then Shrunk(t) else t
  }

  lemma {:induction false} ShrunkIsPruned(t: Located)
    requires Proper(t)
    ensures Plain(Shrunk(t)) == Pruned(Plain(t))
    ensures Maps(Shrunk(t)) <= Maps(t) && NodeOf(Shrunk(t)) == NodeOf(t)
  {
    match t
    case LLeaf(_) =>
    case LList(items) =>
      forall i | 0 <= i < |items|
        ensures Plain(ShrunkItem(items[i])) == PrunedItem(Plain(items[i]))
        ensures Maps(ShrunkItem(items[i])) <= Maps(items[i]) && NodeOf(ShrunkItem(items[i])) == NodeOf(items[i])
      {
        ShrunkIsPruned(items[i]);
      }
    case LObj(obj, fields) =>
      forall k | k in fields
        ensures Plain(Shrunk(fields[k])) == Pruned(Plain(fields[k])) && Maps(Shrunk(fields[k])) <= Maps(fields[k])
      {
        ShrunkIsPruned(fields[k]);
      }
  }

  /** The map while the keys of todo are still to be visited. */
  ghost predicate Midway(m: JsonObject, fields: map<string, Located>, todo: set<string>)
    reads m, set k, o | k in fields && o in Maps(fields[k]) :: o
  {
    && todo <= fields.Keys
    && m.fields.Keys == (set k | k in fields && (k in todo || !Drops(Plain(fields[k]))))
    && forall k | k in m.fields ::
         m.fields[k] == NodeOf(fields[k]) && if k in todo then Holds(fields[k]) else HoldsShrunk(fields[k])
  }

  ghost predicate HoldsShrunk(t: Located)
    reads Maps(t)
  {
    Maps(Shrunk(t)) <= Maps(t) && Holds(Shrunk(t))
  }

  lemma MapsAllocated(t: Located)
    ensures forall o | o in Maps(t) :: allocated(o)
  {
  }

  lemma FieldsApart(t: Located)
    requires t.LObj? && Proper(t)
    ensures t.obj in Maps(t)
    ensures forall k | k in t.fields ::
            Proper(t.fields[k]) && t.obj !in Maps(t.fields[k]) && Maps(t.fields[k]) <= Maps(t)
    ensures forall j, k | j in t.fields && k in t.fields && j != k :: Maps(t.fields[j]) !! Maps(t.fields[k])
  {
  }

  lemma ItemsApart(t: Located)
    requires t.LList? && Proper(t)
    ensures forall i | 0 <= i < |t.items| :: Proper(t.items[i]) && Maps(t.items[i]) <= Maps(t)
    ensures forall i, j | 0 <= i < |t.items| && 0 <= j < |t.items| && i != j :: Maps(t.items[i]) !! Maps(t.items[j])
  {
  }

  lemma ItemsHeld(t: Located)
    requires t.LList? && Holds(t)
    ensures NodeOf(t).List? && |NodeOf(t).items| == |t.items|
    ensures forall i | 0 <= i < |t.items| :: Holds(t.items[i]) && NodeOf(t).items[i] == NodeOf(t.items[i])
    ensures forall i | 0 <= i < |t.items| ::
            if t.items[i].LObj? then NodeOf(t.items[i]) == Ref(t.items[i].obj) else !NodeOf(t.items[i]).Ref?
  {
  }

  lemma AllUnvisited(t: Located)
    requires t.LObj? && Proper(t) && Holds(t)
    ensures Midway(t.obj, t.fields, t.obj.fields.Keys)
  {
    hide Proper;
  }

  lemma AllVisited(t: Located)
    requires t.LObj? && Proper(t) && Midway(t.obj, t.fields, {})
    ensures HoldsShrunk(t)
  {
    hide Proper, Plain;
    ShrunkIsPruned(t);
    forall k | k in t.obj.fields ensures NodeOf(Shrunk(t.fields[k])) == NodeOf(t.fields[k]) {
      FieldsApart(t);
      ShrunkIsPruned(t.fields[k]);
    }
  }

  lemma AllItemsVisited(t: Located)
    requires t.LList? && Proper(t)
    requires forall i | 0 <= i < |t.items| :: if t.items[i].LObj? then HoldsShrunk(t.items[i]) else Holds(t.items[i])
    ensures HoldsShrunk(t)
  {
    hide Proper, Plain, NodeOf;
    ShrunkIsPruned(t);
  }

  lemma LeafDrops(t: Located)
    requires t.LLeaf? && Proper(t)
    ensures Drops(Plain(t)) <==> t.scalar == Null || t.scalar == Str("")
    ensures !Drops(Plain(t)) ==> HoldsShrunk(t)
  {
  }

  lemma EmptyIffDrops(t: Located)
    requires t.LObj? && Proper(t) && HoldsShrunk(t)
    ensures t.obj.fields == map[] <==> Drops(Plain(t))
  {
    hide Proper;
    assert Plain(t).fields.Keys == t.fields.Keys;
    assert forall k | k in t.fields :: Plain(t).fields[k] == Plain(t.fields[k]);
    assert t.obj.fields.Keys == Shrunk(t).fields.Keys;
    if k :| k in t.fields && !Drops(Plain(t.fields[k])) {
      assert k in Shrunk(t).fields;
    }
  }

  /** pruneUnset: each key is visited once, in any order, and the result is the
      pruned tree whichever the order was. */
  method PruneUnset(m: JsonObject, ghost t: Located)
    requires t.LObj? && t.obj == m && Proper(t) && Holds(t)
    modifies Maps(t)
    ensures HoldsShrunk(t) && Plain(Shrunk(t)) == Pruned(Plain(t))
    decreases t, 2
  {
    ShrunkIsPruned(t);
    hide Proper, Holds, HoldsShrunk, Maps, Shrunk, Plain, NodeOf, Drops, Midway;
    FieldsApart(t);
    AllUnvisited(t);
    var todo := m.fields.Keys;
    while todo != {}
      invariant Midway(m, t.fields, todo)
    {
      var k :| k in todo;
      Visit(m, k, todo, t);
      todo := todo - {k};
    }
    AllVisited(t);
  }

  method Visit(m: JsonObject, k: string, ghost todo: set<string>, ghost t: Located)
    requires t.LObj? && t.obj == m && Proper(t) && Midway(m, t.fields, todo) && k in todo
    modifies Maps(t)
    ensures Midway(m, t.fields, todo - {k})
    decreases t, 1
  {
    hide Proper, Holds, HoldsShrunk, Maps, Shrunk, Plain, NodeOf, Drops;
    ghost var fields := t.fields;
    FieldsApart(t);
    MapsAllocated(t);
    PruneEntry(m, k, t);
    forall j | j in m.fields && j != k
      ensures m.fields[j] == NodeOf(fields[j])
      ensures if j in todo then Holds(fields[j]) else HoldsShrunk(fields[j])
    {
      assert j in old(m.fields) && Maps(fields[j]) !! Maps(fields[k]);
    }
  }

  method PruneEntry(m: JsonObject, k: string, ghost t: Located)
    requires t.LObj? && t.obj == m && Proper(t)
    requires k in t.fields && k in m.fields && m.fields[k] == NodeOf(t.fields[k]) && Holds(t.fields[k])
    modifies m, Maps(t.fields[k])
    ensures m.fields == if Drops(Plain(t.fields[k])) then old(m.fields) - {k} else old(m.fields)
    ensures !Drops(Plain(t.fields[k])) ==> HoldsShrunk(t.fields[k])
    decreases t, 0
  {
    hide Proper, Holds, HoldsShrunk, Maps, Shrunk;
    ghost var child := t.fields[k];
    FieldsApart(t);
    match m.fields[k] {
      case Leaf(v) =>
        LeafDrops(child);
        if v == Null || v == Str("") { m.fields := m.fields - {k}; }
      case Ref(obj) =>
        PruneUnset(obj, child);
        EmptyIffDrops(child);
        if obj.fields == map[] { m.fields := m.fields - {k}; }
      case List(items) =>
        PruneItems(items, child);
        if |items| == 0 { m.fields := m.fields - {k}; }
    }
  }

  /** Objects in a list are pruned; the list keeps its length and everything else. */
  method PruneItems(items: seq<Node>, ghost t: Located)
    requires t.LList? && NodeOf(t) == List(items) && Proper(t) && Holds(t)
    modifies Maps(t)
    ensures HoldsShrunk(t)
    decreases t, 0
  {
    hide Proper, Holds, Maps, Shrunk, Plain, NodeOf;
    ItemsApart(t);
    ItemsHeld(t);
    MapsAllocated(t);
    ghost var ts := t.items;
    for i := 0 to |items|
      invariant forall j | 0 <= j < |ts| :: if j < i && ts[j].LObj? then HoldsShrunk(ts[j]) else Holds(ts[j])
    {
      if items[i].Ref? { PruneUnset(items[i].obj, ts[i]); }
    }
    AllItemsVisited(t);
  }

  // ----- removing a nested field ----------------------------------------------

  /** The tree without the field a path leads to. */
  ghost function Cleared(t: Located, path: seq<string>): Located
    requires t.LObj? && path != []
    decreases |path|
  {
    if |path| == 1 then LObj(t.obj, t.fields - {path[0]})
    else if path[0] in t.fields && t.fields[path[0]].LObj? then
      LObj(t.obj, t.fields[path[0] := Cleared(t.fields[path[0]], path[1..])])
    else t
  }

  lemma PlainShape(t: Located)
    requires Proper(t)
    ensures Plain(t).Obj? <==> t.LObj?
  {
  }

  lemma {:induction false} ClearedIsProper(t: Located, path: seq<string>)
    requires t.LObj? && path != [] && Proper(t)
    ensures Cleared(t, path).LObj? && Cleared(t, path).obj == t.obj
    ensures Maps(Cleared(t, path)) <= Maps(t) && Proper(Cleared(t, path))
    decreases |path|
  {
    hide Proper, Maps;
    var x := path[0];
    FieldsApart(t);
    if |path| == 1 {
      ChildRemoved(t, x);
    } else if x in t.fields && t.fields[x].LObj? {
      ClearedIsProper(t.fields[x], path[1..]);
      ChildReplaced(t, x, Cleared(t.fields[x], path[1..]));
    }
  }

  lemma ChildRemoved(t: Located, x: string)
    requires t.LObj? && Proper(t)
    ensures Proper(LObj(t.obj, t.fields - {x})) && Maps(LObj(t.obj, t.fields - {x})) <= Maps(t)
  {
  }

  lemma ChildReplaced(t: Located, x: string, child: Located)
    requires t.LObj? && Proper(t) && x in t.fields && Proper(child) && Maps(child) <= Maps(t.fields[x])
    ensures Proper(LObj(t.obj, t.fields[x := child])) && Maps(LObj(t.obj, t.fields[x := child])) <= Maps(t)
  {
  }

  /** It is the tree the field is removed from. */
  lemma {:induction false} ClearedIsRemoved(t: Located, path: seq<string>)
    requires t.LObj? && path != [] && Proper(t)
    ensures Cleared(t, path).LObj?
    ensures Plain(Cleared(t, path)) == Obj(Removed(Plain(t).fields, path))
    decreases |path|
  {
    hide Proper, Maps;
    var m, x := Plain(t).fields, path[0];
    FieldsApart(t);
    if x in t.fields { PlainShape(t.fields[x]); }
    if |path| == 1 {
      assert Plain(Cleared(t, path)).fields == m - {x};
    } else if x in t.fields && t.fields[x].LObj? {
      var child := Cleared(t.fields[x], path[1..]);
      ClearedIsRemoved(t.fields[x], path[1..]);
      assert Plain(LObj(t.obj, t.fields[x := child])).fields == m[x := Plain(child)];
    }
  }

  lemma HeldFields(t: Located)
    requires t.LObj? && Holds(t)
    ensures t.obj.fields.Keys == t.fields.Keys
    ensures forall k | k in t.fields :: Holds(t.fields[k]) && t.obj.fields[k] == NodeOf(t.fields[k])
    ensures forall k | k in t.fields ::
            if t.fields[k].LObj? then t.obj.fields[k] == Ref(t.fields[k].obj) else !t.obj.fields[k].Ref?
  {
  }

  lemma FieldsHeld(t: Located)
    requires t.LObj? && t.obj.fields.Keys == t.fields.Keys
    requires forall k | k in t.fields :: t.obj.fields[k] == NodeOf(t.fields[k]) && Holds(t.fields[k])
    ensures Holds(t)
  {
  }

  method RemoveNestedField(m: JsonObject, path: seq<string>, ghost t: Located)
    requires t.LObj? && t.obj == m && Proper(t) && Holds(t) && path != []
    modifies Maps(t)
    ensures Maps(Cleared(t, path)) <= Maps(t) && Holds(Cleared(t, path))
    decreases |path|
  {
    hide Proper, Holds, Maps, NodeOf;
    ghost var fields, x := t.fields, path[0];
    FieldsApart(t);
    HeldFields(t);
    MapsAllocated(t);
    ClearedIsProper(t, path);
    if |path| == 1 {
      m.fields := m.fields - {path[0]};
      FieldsHeld(Cleared(t, path));
    } else if path[0] in m.fields && m.fields[path[0]].Ref? {
      RemoveNestedField(m.fields[path[0]].obj, path[1..], fields[x]);
      ClearedIsProper(fields[x], path[1..]);
      assert NodeOf(Cleared(fields[x], path[1..])) == NodeOf(fields[x]) by {
        SameNode(fields[x], Cleared(fields[x], path[1..]));
      }
      forall k | k in fields && k != x ensures Holds(fields[k]) {
        assert Maps(fields[k]) !! Maps(fields[x]);
      }
      FieldsHeld(Cleared(t, path));
    }
  }

  lemma SameNode(t: Located, u: Located)
    requires t.LObj? && u.LObj? && t.obj == u.obj
    ensures NodeOf(t) == NodeOf(u)
  {
  }

  /** pruneMaxScaleZeroDefaults leaves the pruned tree without the two fields. */
  method PruneMaxScaleZeroDefaults(m: JsonObject, ghost t: Located) returns (ghost u: Located)
    requires t.LObj? && t.obj == m && Proper(t) && Holds(t)
    modifies Maps(t)
    ensures u.LObj? && u.obj == m && Holds(u)
    ensures Plain(u) == Obj(PrunedFields(RemovedAll(Plain(t).fields, ZERO_DEFAULTS)))
  {
    hide Proper, Holds, Maps, NodeOf, Plain;
    PlainShape(t);
    ClearedIsProper(t, ["spec", "admin", "port"]);
    ClearedIsRemoved(t, ["spec", "admin", "port"]);
    RemoveNestedField(m, ["spec", "admin", "port"], t);
    ghost var t1 := Cleared(t, ["spec", "admin", "port"]);
    ClearedIsProper(t1, ["spec", "monitor", "interval"]);
    ClearedIsRemoved(t1, ["spec", "monitor", "interval"]);
    RemoveNestedField(m, ["spec", "monitor", "interval"], t1);
    ghost var t2 := Cleared(t1, ["spec", "monitor", "interval"]);
    PruneUnset(m, t2);
    ZeroDefaultsRemoved(Plain(t).fields);
    ObjPruned(RemovedAll(Plain(t).fields, ZERO_DEFAULTS));
    u := Shrunk(t2);
  }
}
