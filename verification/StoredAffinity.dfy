/** What the stored scheduling rules mean, after conversion, pruning and storing:
    the same as the rules asked for, except where pruning removes something that
    had a meaning. */
module StoredAffinity {
  import opened Kube
  import opened Json
  import opened Seeding
  import opened Scheduling

  // ----- reading a pruned tree ------------------------------------------------

  lemma RequirementRead(v: Json)
    ensures ReadRequirement(Pruned(v)) == ReadRequirement(v)
  {
    hide Pruned;
    ScalarsRead(v, "key");
    ScalarsRead(v, "operator");
    ItemsRead(v, "values");
    assert forall i | 0 <= i < |ItemsIn(v, "values")| && ItemsIn(v, "values")[i].Obj? ::
            !Pruned(ItemsIn(v, "values")[i]).Str? by {
      StillObject();
    }
  }

  lemma RequirementsRead(items: seq<Json>)
    ensures ReadRequirements(PrunedAll(items)) == ReadRequirements(items)
  {
    hide Pruned, ReadRequirement;
    forall i | 0 <= i < |items| ensures ReadRequirement(PrunedAll(items)[i]) == ReadRequirement(items[i]) {
      RequirementRead(items[i]);
    }
  }

  lemma TermRead(v: Json)
    ensures ReadTerm(Pruned(v)) == ReadTerm(v)
    ensures Drops(v) ==> ReadTerm(v) == Term([], [])
  {
    hide Pruned, ReadRequirements;
    if Drops(v) {
      DroppedRead(v, "matchExpressions");
      DroppedRead(v, "matchFields");
    }
    assert ReadRequirements([]) == [] by { NothingRead(); }
    ItemsRead(v, "matchExpressions");
    ItemsRead(v, "matchFields");
    RequirementsRead(ItemsIn(v, "matchExpressions"));
    RequirementsRead(ItemsIn(v, "matchFields"));
  }

  lemma NothingRead()
    ensures ReadRequirements([]) == []
  {
  }

  lemma PreferredRead(v: Json)
    ensures ReadPreferred(Pruned(v)) == ReadPreferred(v)
  {
    hide Pruned, ReadTerm;
    ScalarsRead(v, "weight");
    ChildRead(v, "preference");
    TermRead(Child(v, "preference"));
    TermRead(Null);
  }

  // ----- reading what was written ---------------------------------------------

  lemma RequirementsWritten(rs: seq<Requirement>)
    ensures ReadRequirements(RequirementTrees(rs).items) == rs
  {
    forall i | 0 <= i < |rs| ensures ReadRequirement(RequirementTree(rs[i])) == rs[i] {
      RequirementWritten(rs[i]);
    }
  }

  lemma RequirementWritten(r: Requirement)
    ensures ReadRequirement(RequirementTree(r)) == r
  {
    assert ItemsIn(RequirementTree(r), "values") == Texts(r.values).items;
  }

  lemma TermWritten(t: Term)
    ensures ReadTerm(TermTree(t)) == t
  {
    hide ReadRequirements, RequirementTrees;
    RequirementsWritten(t.expressions);
    RequirementsWritten(t.fields);
    ListTree(t.expressions);
    ListTree(t.fields);
  }

  lemma ListTree(rs: seq<Requirement>)
    ensures RequirementTrees(rs).Arr? && |RequirementTrees(rs).items| == |rs|
  {
  }

  lemma PreferredWritten(p: Preferred)
    ensures ReadPreferred(PreferredTree(p)) == p
  {
    hide ReadTerm, TermTree;
    TermWritten(p.preference);
  }

  // ----- what is stored -------------------------------------------------------

  /** A selector with no terms is not stored, nor is a rule that says nothing. */
  function StoredNode(a: Option<NodeAffinity>): Option<NodeAffinity> {
    if a.None? then None
    else
      var required := if a.value.required == Some([]) then None else a.value.required;
      if required.None? && a.value.preferred == [] then None else Some(NodeAffinity(required, a.value.preferred))
  }

  /** Labels to be matched with "" are not stored, nor is a selector without rules. */
  function StoredSelector(s: Option<LabelSelector>): Option<LabelSelector> {
    if s.None? then None
    else
      var labels := map k | k in s.value.labels && s.value.labels[k] != "" :: s.value.labels[k];
      if labels == map[] && s.value.expressions == [] then None else Some(LabelSelector(labels, s.value.expressions))
  }

  function StoredTerm(t: OperatorTerm): OperatorTerm {
    t.(selector := StoredSelector(t.selector))
  }

  function StoredAnti(a: Option<AntiAffinity<OperatorTerm>>): Option<AntiAffinity<OperatorTerm>> {
    if a.None? || (a.value.required == [] && a.value.preferred == []) then None
    else Some(AntiAffinity(
      seq(|a.value.required|, i requires 0 <= i < |a.value.required| => StoredTerm(a.value.required[i])),
      seq(|a.value.preferred|, i requires 0 <= i < |a.value.preferred| =>
            Weighted(a.value.preferred[i].weight, StoredTerm(a.value.preferred[i].term)))))
  }

  lemma NodeStored(a: NodeAffinity)
    ensures var v := NodeAffinityTree(a);
            ReadNodeAffinity(if Drops(v) then Null else Pruned(v)) == StoredNode(Some(a))
  {
    hide Pruned, ReadTerm, TermTree, ReadPreferred, PreferredTree;
    var v := NodeAffinityTree(a);
    var required, preferred := Child(Pruned(v), REQUIRED), ItemsIn(Pruned(v), PREFERRED);
    NodeDrops(a);
    StillObject();
    ChildRead(v, REQUIRED);
    PreferredStored(a);
    assert seq(|preferred|, i requires 0 <= i < |preferred| => ReadPreferred(preferred[i])) == a.preferred;
    if a.required.Some? {
      var terms := ItemsIn(required, "nodeSelectorTerms");
      assert Child(v, REQUIRED) == RequiredTree(a.required.value);
      RequiredStored(a.required.value);
      if a.required.value != [] {
        assert seq(|terms|, i requires 0 <= i < |terms| => ReadTerm(terms[i])) == a.required.value;
      }
    }
  }

  lemma PreferredStored(a: NodeAffinity)
    ensures var items := ItemsIn(Pruned(NodeAffinityTree(a)), PREFERRED);
            |items| == |a.preferred| && forall i | 0 <= i < |items| :: ReadPreferred(items[i]) == a.preferred[i]
  {
    hide Pruned, ReadPreferred, PreferredTree, TermTrees;
    var v := NodeAffinityTree(a);
    ItemsRead(v, PREFERRED);
    assert |ItemsIn(v, PREFERRED)| == |a.preferred|;
    forall i | 0 <= i < |a.preferred| ensures ReadPreferred(PrunedAll(ItemsIn(v, PREFERRED))[i]) == a.preferred[i] {
      PreferredObject(a.preferred[i]);
      PreferredRead(PreferredTree(a.preferred[i]));
      PreferredWritten(a.preferred[i]);
    }
  }

  lemma PreferredObject(p: Preferred)
    ensures PreferredTree(p).Obj?
  {
  }

  function RequiredTree(terms: seq<Term>): Json {
    Obj(map["nodeSelectorTerms" := TermTrees(terms)])
  }

  lemma RequiredStored(terms: seq<Term>)
    ensures var items := ItemsIn(Pruned(RequiredTree(terms)), "nodeSelectorTerms");
            |items| == |terms| && forall i | 0 <= i < |terms| :: ReadTerm(items[i]) == terms[i]
  {
    hide Pruned, ReadTerm, TermTree;
    ItemsRead(RequiredTree(terms), "nodeSelectorTerms");
    forall i | 0 <= i < |terms| ensures ReadTerm(PrunedAll(TermTrees(terms).items)[i]) == terms[i] {
      TermRead(TermTree(terms[i]));
      TermWritten(terms[i]);
    }
  }

  lemma NodeDrops(a: NodeAffinity)
    ensures a.required.Some? ==> (Drops(RequiredTree(a.required.value)) <==> a.required.value == [])
    ensures Drops(NodeAffinityTree(a)) <==> StoredNode(Some(a)).None?
  {
    hide TermTree, PreferredTree;
    var v := NodeAffinityTree(a);
    assert a.required.Some? ==>
            v.fields[REQUIRED] == RequiredTree(a.required.value)
              && "nodeSelectorTerms" in RequiredTree(a.required.value).fields;
    assert REQUIRED in v.fields && PREFERRED in v.fields;
  }

  lemma SelectorStored(s: LabelSelector)
    ensures var v := SelectorTree(s);
            ReadSelector(if Drops(v) then Null else Pruned(v)) == StoredSelector(Some(s))
  {
    hide ReadRequirement, RequirementTree;
    var v := SelectorTree(s);
    SelectorDrops(s);
    ItemsRead(v, "matchExpressions");
    RequirementsRead(RequirementTrees(s.expressions).items);
    RequirementsWritten(s.expressions);
    LabelsStored(s);
  }

  lemma LabelsStored(s: LabelSelector)
    ensures var labels := FieldsOf(Child(Pruned(SelectorTree(s)), "matchLabels"));
            (map k | k in labels && labels[k].Str? :: labels[k].s) ==
            (map k | k in s.labels && s.labels[k] != "" :: s.labels[k])
  {
    hide RequirementTrees;
    ChildRead(SelectorTree(s), "matchLabels");
    assert forall k | k in s.labels :: k in Child(SelectorTree(s), "matchLabels").fields;
  }

  lemma SelectorDrops(s: LabelSelector)
    ensures Drops(SelectorTree(s)) <==> StoredSelector(Some(s)).None?
  {
    hide RequirementTree;
    var v, labels := SelectorTree(s), map k | k in s.labels && s.labels[k] != "" :: s.labels[k];
    assert v.fields.Keys == {"matchLabels", "matchExpressions"};
    var m := v.fields["matchLabels"].fields;
    assert m.Keys == s.labels.Keys;
    if k :| k in s.labels && s.labels[k] != "" {
      assert k in labels && k in m && !Drops(m[k]);
    } else {
      assert labels == map[];
      assert forall k | k in m :: Drops(m[k]);
    }
    assert Drops(v.fields["matchLabels"]) <==> labels == map[];
    assert Drops(v.fields["matchExpressions"]) <==> s.expressions == [];
  }

  lemma OperatorTermStored(t: OperatorTerm)
    ensures ReadOperatorTerm(Pruned(OperatorTermTree(t))) == StoredTerm(t)
    ensures Drops(OperatorTermTree(t)) ==> StoredTerm(t) == OperatorTerm(None, "")
  {
    hide Pruned, SelectorTree, ReadSelector, StoredSelector;
    var v := OperatorTermTree(t);
    ChildRead(v, "labelSelector");
    ScalarsRead(v, "topologyKey");
    AbsentSelector();
    if Drops(v) {
      DroppedRead(v, "labelSelector");
      DroppedRead(v, "topologyKey");
    }
    if t.selector.Some? {
      SelectorStored(t.selector.value);
      SelectorDrops(t.selector.value);
    }
  }

  lemma AbsentSelector()
    ensures ReadSelector(Null) == None && StoredSelector(None) == None
  {
  }

  lemma WeightedStored(w: Weighted<OperatorTerm>)
    ensures ReadWeighted(Pruned(WeightedTree(w))) == Weighted(w.weight, StoredTerm(w.term))
  {
    hide Pruned, OperatorTermTree, StoredTerm;
    var v := WeightedTree(w);
    ScalarsRead(v, "weight");
    ChildRead(v, "podAffinityTerm");
    OperatorTermStored(w.term);
    AbsentSelector();
  }

  lemma AntiStored(a: AntiAffinity<OperatorTerm>)
    ensures var v := AntiAffinityTree(a);
            ReadAntiAffinity(if Drops(v) then Null else Pruned(v)) == StoredAnti(Some(a))
  {
    hide Pruned, OperatorTermTree, StoredTerm, WeightedTree, ReadOperatorTerm, ReadWeighted;
    var v := AntiAffinityTree(a);
    assert v.fields.Keys == {REQUIRED, PREFERRED};
    assert Drops(v) <==> a.required == [] && a.preferred == [];
    StillObject();
    ItemsRead(v, REQUIRED);
    ItemsRead(v, PREFERRED);
    TermObjects(a);
    assert |ItemsIn(v, REQUIRED)| == |a.required| && |ItemsIn(v, PREFERRED)| == |a.preferred|;
    forall i | 0 <= i < |a.required|
      ensures ReadOperatorTerm(PrunedAll(ItemsIn(v, REQUIRED))[i]) == StoredTerm(a.required[i])
    {
      OperatorTermStored(a.required[i]);
    }
    forall i | 0 <= i < |a.preferred|
      ensures ReadWeighted(PrunedAll(ItemsIn(v, PREFERRED))[i]) ==
          Weighted(a.preferred[i].weight, StoredTerm(a.preferred[i].term))
    {
      WeightedStored(a.preferred[i]);
    }
    if a.required != [] || a.preferred != [] {
      var required, preferred := ItemsIn(Pruned(v), REQUIRED), ItemsIn(Pruned(v), PREFERRED);
      assert seq(|required|, i requires 0 <= i < |required| => ReadOperatorTerm(required[i])) ==
          StoredAnti(Some(a)).value.required;
      assert seq(|preferred|, i requires 0 <= i < |preferred| => ReadWeighted(preferred[i])) ==
          StoredAnti(Some(a)).value.preferred;
    }
  }

  lemma TermObjects(a: AntiAffinity<OperatorTerm>)
    ensures forall i | 0 <= i < |a.required| :: OperatorTermTree(a.required[i]).Obj?
    ensures forall i | 0 <= i < |a.preferred| :: WeightedTree(a.preferred[i]).Obj?
  {
  }

  /** What is read back of a stored configuration. */
  lemma ConfigStored(c: Config)
    ensures ReadConfig(AppliedTree(Some(ConfigTree(c)))) == Config(StoredNode(c.node), StoredAnti(c.antiAffinity))
  {
    hide Pruned, NodeAffinityTree, AntiAffinityTree, ReadNodeAffinity, ReadAntiAffinity, StoredNode, StoredAnti;
    var v := ConfigTree(c);
    assert v.fields.Keys == {"nodeAffinity", "podAntiAffinity"};
    ChildRead(v, "nodeAffinity");
    ChildRead(v, "podAntiAffinity");
    AbsentRules();
    if c.node.Some? { NodeStored(c.node.value); }
    if c.antiAffinity.Some? { AntiStored(c.antiAffinity.value); }
  }

  lemma AbsentRules()
    ensures ReadNodeAffinity(Null) == None && ReadAntiAffinity(Null) == None && StoredNode(None) == None
            && StoredAnti(None) == None
  {
  }

  // ----- node rules: what survives --------------------------------------------

  /** The rules in force: what is stored of the converted affinity. */
  function InForce(a: Affinity): Config {
    match ConvertedAffinity(a)
    case None => ReadConfig(None)
    case Some(config) => ReadConfig(AppliedTree(Some(ConfigTree(config))))
  }

  lemma InForceIs(a: Affinity)
    ensures InForce(a) ==
        Config(StoredNode(a.node),
            StoredAnti(if a.antiAffinity.Some? then Some(ConvertedAnti(a.antiAffinity.value)) else None))
  {
    hide ConfigTree, AppliedTree, ReadNodeAffinity, ReadAntiAffinity, ConvertedAnti;
    AbsentRules();
    match ConvertedAffinity(a)
    case None =>
    case Some(config) => ConfigStored(config);
  }

  /** Preferences score every node as asked. The requirement admits exactly the
      nodes asked for, on every node, if and only if it is not a selector without
      any term: such a selector admits no node, and what is stored admits all. */
  lemma NodeRulesKept(a: Affinity)
    ensures forall node :: Score(InForce(a).node, node) == Score(a.node, node)
    ensures (forall node :: Admits(InForce(a).node, node) <==> Admits(a.node, node)) <==>
            !(a.node.Some? && a.node.value.required == Some([]))
    ensures a.node.Some? && a.node.value.required == Some([]) ==>
            forall node :: Admits(InForce(a).node, node) && !Admits(a.node, node)
  {
    hide InForce, TermAdmits;
    InForceIs(a);
    var node := Node(map[], map[]);
    assert a.node.Some? && a.node.value.required == Some([]) ==> Admits(InForce(a).node, node) && !Admits(a.node, node);
  }

  // ----- anti-affinity --------------------------------------------------------

  /** A term the operator can express in full. */
  predicate SaysNoMore(t: PodTerm) {
    t.namespaces == [] && t.namespaceSelector.None? && t.matchLabelKeys == [] && t.mismatchLabelKeys == []
  }

  /** A selector pruning leaves alone. */
  predicate Storable(s: Option<LabelSelector>) {
    s.Some? ==>
      && (forall k | k in s.value.labels :: s.value.labels[k] != "")
      && (s.value.labels != map[] || s.value.expressions != [])
  }

  /** Pruning leaves exactly these selectors alone. */
  lemma StorableIffKept(s: Option<LabelSelector>)
    ensures StoredSelector(s) == s <==> Storable(s)
  {
    if s.Some? {
      var labels := map k | k in s.value.labels && s.value.labels[k] != "" :: s.value.labels[k];
      if Storable(s) { assert labels == s.value.labels; }
      if k :| k in s.value.labels && s.value.labels[k] == "" { assert k !in labels; }
    }
  }

  /** Without expressions, these are also the only ones that keep their meaning. */
  lemma LabelsMeaningKept(s: LabelSelector)
    requires s.expressions == []
    ensures (forall labels :: Selects(StoredSelector(Some(s)), labels) <==> Selects(Some(s), labels)) <==>
            Storable(Some(s))
  {
    StorableIffKept(Some(s));
    if !Storable(Some(s)) {
      var kept := map k | k in s.labels && s.labels[k] != "" :: s.labels[k];
      if kept == map[] {
        assert Selects(Some(s), s.labels) && !Selects(StoredSelector(Some(s)), s.labels);
      } else {
        var k :| k in s.labels && s.labels[k] == "";
        assert k !in kept && Selects(StoredSelector(Some(s)), kept) && !Selects(Some(s), kept);
      }
    }
  }

  predicate Expressible(t: PodTerm) {
    SaysNoMore(t) && Storable(t.selector)
  }

  lemma TermKept(t: PodTerm)
    requires Expressible(t)
    ensures Plain(StoredTerm(Converted(t))) == t
  {
    StorableIffKept(t.selector);
  }

  function AntiOf(a: Affinity): AntiAffinity<PodTerm> {
    if a.antiAffinity.Some? then a.antiAffinity.value else AntiAffinity([], [])
  }

  predicate AllExpressible(a: Affinity) {
    && (forall i | 0 <= i < |AntiOf(a).required| :: Expressible(AntiOf(a).required[i]))
    && (forall i | 0 <= i < |AntiOf(a).preferred| :: Expressible(AntiOf(a).preferred[i].term))
  }

  /** The anti-affinity in force is the one asked for, term by term. */
  lemma AntiRulesKept(a: Affinity)
    requires AllExpressible(a)
    ensures PlainTerms(InForce(a).antiAffinity) == AntiOf(a)
  {
    hide InForce, Expressible, StoredTerm, Converted, Plain, StoredNode;
    InForceIs(a);
    var b := AntiOf(a);
    forall i | 0 <= i < |b.required| ensures Plain(StoredTerm(Converted(b.required[i]))) == b.required[i] {
      TermKept(b.required[i]);
    }
    forall i | 0 <= i < |b.preferred| ensures Plain(StoredTerm(Converted(b.preferred[i].term))) == b.preferred[i].term {
      TermKept(b.preferred[i].term);
    }
    assert PlainTerms(InForce(a).antiAffinity).required == b.required;
    assert PlainTerms(InForce(a).antiAffinity).preferred == b.preferred;
  }

  /** Why present selectors must not be empty: one that keeps every pod away is
      stored as one that keeps none away. */
  lemma EmptySelectorForgotten(own: Incoming, pod: Pod, node: Node)
    requires pod.namespace == own.namespace && SameDomain("kubernetes.io/hostname", node, pod.node)
    ensures var t := PodTerm(Some(LabelSelector(map[], [])), "kubernetes.io/hostname", [], None, [], []);
            Repels(t, own, pod, node) && !Repels(Plain(StoredTerm(Converted(t))), own, pod, node)
  {
  }
}
