/** Exactly which label selectors keep their meaning when pruning has removed the
    labels they match with "". */
module SelectorMeaning {
  import opened Kube
  import opened Scheduling
  import opened StoredAffinity

  // ----- one key at a time ----------------------------------------------------

  /** What a pod has for a key: nothing, or a value. */
  function Has(labels: map<string, string>, key: string): Option<string> {
    if key in labels then Some(labels[key]) else None
  }

  /** A selector's requirement, for what a pod has at its key. */
  predicate MetBy(r: Requirement, has: Option<string>) {
    match r.operator
    case "In" => r.values != [] && has.Some? && has.value in r.values
    case "NotIn" => r.values != [] && (has.None? || has.value !in r.values)
    case "Exists" => r.values == [] && has.Some?
    case "DoesNotExist" => r.values == [] && has.None?
    case _ => false
  }

  lemma MetByIs(r: Requirement, labels: map<string, string>)
    ensures MetBy(r, Has(labels, r.key)) <==> r.operator in SELECTOR_OPERATORS && Meets(r, labels)
  {
  }

  /** Everything the selector asks of this key, given what a pod has there. */
  predicate Permits(s: LabelSelector, key: string, has: Option<string>) {
    && (key in s.labels ==> has == Some(s.labels[key]))
    && forall i | 0 <= i < |s.expressions| && s.expressions[i].key == key :: MetBy(s.expressions[i], has)
  }

  function KeysIn(rs: seq<Requirement>): (keys: set<string>)
    ensures forall i | 0 <= i < |rs| :: rs[i].key in keys
  {
    if rs == [] then {} else KeysIn(rs[..|rs| - 1]) + {rs[|rs| - 1].key}
  }

  function KeysOf(s: LabelSelector): (keys: set<string>)
    ensures forall k | k in s.labels :: k in keys
    ensures forall i | 0 <= i < |s.expressions| :: s.expressions[i].key in keys
  {
    s.labels.Keys + KeysIn(s.expressions)
  }

  lemma SelectsByKey(s: LabelSelector, labels: map<string, string>)
    ensures Selects(Some(s), labels) <==> forall key | key in KeysOf(s) :: Permits(s, key, Has(labels, key))
  {
    hide Meets, MetBy, KeysOf;
    forall i | 0 <= i < |s.expressions|
      ensures MetBy(s.expressions[i], Has(labels, s.expressions[i].key)) <==>
                s.expressions[i].operator in SELECTOR_OPERATORS && Meets(s.expressions[i], labels)
    {
      MetByIs(s.expressions[i], labels);
    }
    if forall key | key in KeysOf(s) :: Permits(s, key, Has(labels, key)) {
      forall k | k in s.labels ensures k in labels && labels[k] == s.labels[k] {
        assert Permits(s, k, Has(labels, k));
      }
      forall i | 0 <= i < |s.expressions| ensures MetBy(s.expressions[i], Has(labels, s.expressions[i].key)) {
        assert Permits(s, s.expressions[i].key, Has(labels, s.expressions[i].key));
      }
    }
  }

  // ----- finitely many cases per key ------------------------------------------

  function Elements(texts: seq<string>): (values: set<string>)
    ensures forall v :: v in values <==> v in texts
  {
    if texts == [] then {} else Elements(texts[..|texts| - 1]) + {texts[|texts| - 1]}
  }

  function ValuesIn(rs: seq<Requirement>): (values: set<string>)
    ensures forall i, v | 0 <= i < |rs| && v in rs[i].values :: v in values
  {
    if rs == [] then {} else ValuesIn(rs[..|rs| - 1]) + Elements(rs[|rs| - 1].values)
  }

  /** The values a selector mentions. */
  function Mentioned(s: LabelSelector): (values: set<string>)
    ensures forall k | k in s.labels :: s.labels[k] in values
    ensures forall i, v | 0 <= i < |s.expressions| && v in s.expressions[i].values :: v in values
  {
    s.labels.Values + ValuesIn(s.expressions)
  }

  /** A non-empty text longer than any of these. */
  ghost function Longer(values: set<string>): (text: string)
    ensures text != "" && forall v | v in values :: |v| < |text|
    decreases |values|
  {
    if values == {} then "a"
    else
      var v :| v in values;
      var rest := Longer(values - {v});
      rest + v + "a"
  }

  /** The cases to try for a key: nothing, a mentioned value, or any other. */
  ghost function Cases(s: LabelSelector): set<Option<string>> {
    {None, Some(Longer(Mentioned(s)))} + set v | v in Mentioned(s) :: Some(v)
  }

  /** Values that are not mentioned are all treated alike. */
  lemma UnmentionedAlike(s: LabelSelector, key: string, v: string, w: string)
    requires v !in Mentioned(s) && w !in Mentioned(s)
    ensures Permits(s, key, Some(v)) <==> Permits(s, key, Some(w))
  {
    hide Mentioned;
    forall i | 0 <= i < |s.expressions| ensures MetBy(s.expressions[i], Some(v)) <==> MetBy(s.expressions[i], Some(w)) {
      assert v !in s.expressions[i].values && w !in s.expressions[i].values;
    }
  }

  /** Trying the cases is enough. */
  lemma CasesSuffice(s: LabelSelector, key: string, has: Option<string>)
    requires Permits(s, key, has) && has !in Cases(s)
    ensures Permits(s, key, Some(Longer(Mentioned(s)))) && Longer(Mentioned(s)) != ""
  {
    hide Permits, Mentioned;
    var other := Longer(Mentioned(s));
    assert has.Some? && has.value !in Mentioned(s);
    assert other !in Mentioned(s);
    UnmentionedAlike(s, key, has.value, other);
  }

  /** No pod is selected, because some key has no case left. */
  ghost predicate Impossible(s: LabelSelector) {
    exists key | key in KeysOf(s) :: forall has | has in Cases(s) :: !Permits(s, key, has)
  }

  /** Whatever is permitted at this key, it is the value "". */
  ghost predicate OnlyEmpty(s: LabelSelector, key: string) {
    forall has | has in Cases(s) && Permits(s, key, has) :: has == Some("")
  }

  lemma ImpossibleSelectsNothing(s: LabelSelector, labels: map<string, string>)
    requires Impossible(s)
    ensures !Selects(Some(s), labels)
  {
    hide Permits, Cases, KeysOf;
    SelectsByKey(s, labels);
    var key :| key in KeysOf(s) && forall has | has in Cases(s) :: !Permits(s, key, has);
    if Permits(s, key, Has(labels, key)) {
      if Has(labels, key) !in Cases(s) { CasesSuffice(s, key, Has(labels, key)); }
      assert Some(Longer(Mentioned(s))) in Cases(s) by { FreshIsCase(s); }
    }
  }

  lemma FreshIsCase(s: LabelSelector)
    ensures Some(Longer(Mentioned(s))) in Cases(s)
  {
  }

  lemma OnlyEmptyHolds(s: LabelSelector, key: string, has: Option<string>)
    requires OnlyEmpty(s, key) && Permits(s, key, has)
    ensures has == Some("")
  {
    hide Permits, Cases;
    FreshIsCase(s);
    if has !in Cases(s) { CasesSuffice(s, key, has); }
  }

  /** A permitted case for every key of a selector that is not impossible. */
  ghost function Choice(s: LabelSelector, key: string): (has: Option<string>)
    requires !Impossible(s) && key in KeysOf(s)
    ensures has in Cases(s) && Permits(s, key, has)
  {
    var has :| has in Cases(s) && Permits(s, key, has);
    has
  }

  /** A pod with one of the selector's keys fixed, and permitted values elsewhere. */
  lemma Witness(s: LabelSelector, key: string, has: Option<string>) returns (labels: map<string, string>)
    requires !Impossible(s) && Permits(s, key, has)
    ensures Selects(Some(s), labels) && Has(labels, key) == has
  {
    hide Permits, Impossible, Cases, KeysOf;
    var chosen := map k | k in KeysOf(s) && k != key && Choice(s, k).Some? :: Choice(s, k).value;
    labels := if has.Some? then chosen[key := has.value] else chosen;
    forall k | k in KeysOf(s) ensures Permits(s, k, Has(labels, k)) {
      if k != key { assert Has(labels, k) == Choice(s, k); }
    }
    SelectsByKey(s, labels);
  }

  // ----- what pruning does to the meaning -------------------------------------

  /** The selector that is stored, when one is. */
  function Kept(s: LabelSelector): LabelSelector {
    LabelSelector(map k | k in s.labels && s.labels[k] != "" :: s.labels[k], s.expressions)
  }

  /** The selector's meaning survives: pruning leaves it alone, or what is left of
      it selects nothing anyway, or still only admits "" where "" was asked for. */
  ghost predicate MeaningSurvives(s: LabelSelector) {
    || Storable(Some(s))
    || (StoredSelector(Some(s)).Some? &&
        (Impossible(Kept(s)) || forall k | k in s.labels && s.labels[k] == "" :: OnlyEmpty(Kept(s), k)))
  }

  ghost predicate SameMeaning(s: Option<LabelSelector>, t: Option<LabelSelector>) {
    forall labels: map<string, string> :: Selects(s, labels) <==> Selects(t, labels)
  }

  lemma StoredIsKept(s: LabelSelector)
    ensures StoredSelector(Some(s)) == (if Kept(s).labels == map[] && s.expressions == [] then None else Some(Kept(s)))
  {
  }

  /** A selector asks for what is left of it, and for the labels left out. */
  lemma SelectsMore(s: LabelSelector, labels: map<string, string>)
    ensures Selects(Some(s), labels) <==>
              && Selects(Some(Kept(s)), labels)
              && forall k | k in s.labels && s.labels[k] == "" :: Has(labels, k) == Some("")
  {
    hide Meets;
    forall k | k in s.labels ensures s.labels[k] != "" ==> k in Kept(s).labels && Kept(s).labels[k] == s.labels[k] {
    }
  }

  /** Exactly which label selectors mean after storing what they meant before. */
  lemma SelectorMeaningKeptIff(s: LabelSelector)
    ensures SameMeaning(StoredSelector(Some(s)), Some(s)) <==> MeaningSurvives(s)
  {
    hide Selects, Impossible, OnlyEmpty, Permits, StoredSelector, Storable;
    StorableIffKept(Some(s));
    StoredIsKept(s);
    if MeaningSurvives(s) && !Storable(Some(s)) {
      forall labels: map<string, string>
        ensures Selects(StoredSelector(Some(s)), labels) <==> Selects(Some(s), labels)
      {
        SurvivesAt(s, labels);
      }
    }
    if !MeaningSurvives(s) {
      var labels := Difference(s);
      assert Selects(StoredSelector(Some(s)), labels) != Selects(Some(s), labels);
    }
  }

  lemma SurvivesAt(s: LabelSelector, labels: map<string, string>)
    requires Impossible(Kept(s)) || forall k | k in s.labels && s.labels[k] == "" :: OnlyEmpty(Kept(s), k)
    ensures Selects(Some(Kept(s)), labels) <==> Selects(Some(s), labels)
  {
    hide Selects, Impossible, OnlyEmpty, Permits, KeysOf;
    SelectsMore(s, labels);
    if Impossible(Kept(s)) {
      ImpossibleSelectsNothing(Kept(s), labels);
    } else if Selects(Some(Kept(s)), labels) {
      SelectsByKey(Kept(s), labels);
      forall k | k in s.labels && s.labels[k] == "" ensures Has(labels, k) == Some("") {
        PermittedAnywhere(Kept(s), labels, k);
        OnlyEmptyHolds(Kept(s), k, Has(labels, k));
      }
    }
  }

  /** A selected pod is permitted at every key, the selector's or not. */
  lemma PermittedAnywhere(s: LabelSelector, labels: map<string, string>, key: string)
    requires forall k | k in KeysOf(s) :: Permits(s, k, Has(labels, k))
    ensures Permits(s, key, Has(labels, key))
  {
    hide KeysOf, MetBy;
  }

  /** A pod that tells the stored selector from the original. */
  lemma Difference(s: LabelSelector) returns (labels: map<string, string>)
    requires !MeaningSurvives(s)
    ensures Selects(StoredSelector(Some(s)), labels) != Selects(Some(s), labels)
  {
    hide Impossible, OnlyEmpty, Permits, Meets, Storable;
    StoredIsKept(s);
    StorableIffKept(Some(s));
    if StoredSelector(Some(s)).None? {
      labels := s.labels;
    } else {
      var k :| k in s.labels && s.labels[k] == "" && !OnlyEmpty(Kept(s), k);
      var has := NotOnlyEmpty(Kept(s), k);
      labels := Witness(Kept(s), k, has);
      SelectsMore(s, labels);
    }
  }

  lemma NotOnlyEmpty(s: LabelSelector, key: string) returns (has: Option<string>)
    requires !OnlyEmpty(s, key)
    ensures Permits(s, key, has) && has != Some("")
  {
    has :| has in Cases(s) && Permits(s, key, has) && has != Some("");
  }

  // ----- whole rules ----------------------------------------------------------

  predicate SameRepulsion(t: PodTerm, u: PodTerm, own: Incoming, pod: Pod, node: Node) {
    Repels(t, own, pod, node) <==> Repels(u, own, pod, node)
  }

  /** The term as it is in force once converted, pruned and stored. */
  function InForceTerm(t: PodTerm): PodTerm {
    Plain(StoredTerm(Converted(t)))
  }

  ghost predicate SelectorSurvives(s: Option<LabelSelector>) {
    s.Some? ==> MeaningSurvives(s.value)
  }

  lemma SelectorSame(s: Option<LabelSelector>)
    ensures SameMeaning(StoredSelector(s), s) <==> SelectorSurvives(s)
  {
    hide Selects, MeaningSurvives;
    if s.Some? { SelectorMeaningKeptIff(s.value); }
  }

  // ----- terms, with the fields the operator has no place for ------------------

  /** Some pod is selected. */
  ghost predicate Live(s: Option<LabelSelector>) {
    s.Some? && !Impossible(s.value)
  }

  lemma LiveWitness(s: LabelSelector) returns (labels: map<string, string>)
    requires !Impossible(s)
    ensures Selects(Some(s), labels)
  {
    hide Permits, Impossible, Cases, Selects;
    if key :| key in KeysOf(s) {
      labels := Witness(s, key, Choice(s, key));
    } else {
      assert Permits(s, "", None) by { NothingAsked(s); }
      labels := Witness(s, "", None);
    }
  }

  lemma NothingAsked(s: LabelSelector)
    requires KeysOf(s) == {}
    ensures Permits(s, "", None)
  {
    hide KeysOf;
  }

  lemma LiveSelects(s: Option<LabelSelector>, labels: map<string, string>)
    requires Selects(s, labels)
    ensures Live(s)
  {
    hide Impossible;
    if Impossible(s.value) { ImpossibleSelectsNothing(s.value, labels); }
  }

  /** Whatever is permitted at this key, it is that the pod does not have it. */
  ghost predicate OnlyAbsent(s: LabelSelector, key: string) {
    forall has | has in Cases(s) && Permits(s, key, has) :: has == None
  }

  lemma OnlyAbsentHolds(s: LabelSelector, key: string, labels: map<string, string>)
    requires OnlyAbsent(s, key) && Selects(Some(s), labels)
    ensures key !in labels
  {
    hide Permits, Cases, Selects, KeysOf;
    SelectsByKey(s, labels);
    PermittedAnywhere(s, labels, key);
    var has := Has(labels, key);
    FreshIsCase(s);
    if has !in Cases(s) { CasesSuffice(s, key, has); }
  }

  /** The term keeps its meaning. One whose stored selector selects pods must have
      had the same selector in meaning, must not have named namespaces or keys to
      match, and every key it named to differ in must be one no selected pod has.
      One whose stored selector selects nothing must have repelled nothing. */
  ghost predicate TermSurvives(t: PodTerm) {
    var stored := StoredSelector(t.selector);
    if Live(stored) then
      && SelectorSurvives(t.selector)
      && t.namespaces == [] && t.namespaceSelector.None? && t.matchLabelKeys == []
      && forall k | k in t.mismatchLabelKeys :: OnlyAbsent(stored.value, k)
    else !Live(t.selector) || (t.namespaces == [] && t.namespaceSelector.Some? && !Live(t.namespaceSelector))
  }

  /** Exactly which terms repel the same pods from the same nodes once stored. */
  lemma TermMeaningKeptIff(t: PodTerm)
    ensures (forall own, pod, node :: SameRepulsion(InForceTerm(t), t, own, pod, node)) <==> TermSurvives(t)
  {
    hide SameRepulsion, TermSurvives, InForceTerm;
    if TermSurvives(t) {
      forall own: Incoming, pod: Pod, node: Node ensures SameRepulsion(InForceTerm(t), t, own, pod, node) {
        if Live(StoredSelector(t.selector)) {
          LiveSurvives(t, own, pod, node);
        } else {
          NothingRepels(t, own, pod, node);
        }
      }
    } else {
      var own, pod, node := TermDifference(t);
      assert !SameRepulsion(InForceTerm(t), t, own, pod, node);
    }
  }

  lemma LiveSurvives(t: PodTerm, own: Incoming, pod: Pod, node: Node)
    requires TermSurvives(t) && Live(StoredSelector(t.selector))
    ensures SameRepulsion(InForceTerm(t), t, own, pod, node)
  {
    hide Selects, StoredSelector, SelectorSurvives, OnlyAbsent, Impossible;
    var stored := StoredSelector(t.selector);
    SelectorSame(t.selector);
    assert Selects(stored, pod.labels) <==> Selects(t.selector, pod.labels);
    if Selects(stored, pod.labels) {
      forall k | k in t.mismatchLabelKeys ensures k !in pod.labels {
        OnlyAbsentHolds(stored.value, k, pod.labels);
      }
    }
  }

  lemma NothingRepels(t: PodTerm, own: Incoming, pod: Pod, node: Node)
    requires TermSurvives(t) && !Live(StoredSelector(t.selector))
    ensures SameRepulsion(InForceTerm(t), t, own, pod, node)
  {
    hide Selects, StoredSelector, SelectorSurvives, OnlyAbsent, Impossible, Live;
    if Selects(StoredSelector(t.selector), pod.labels) { LiveSelects(StoredSelector(t.selector), pod.labels); }
    if Selects(t.selector, pod.labels) { LiveSelects(t.selector, pod.labels); }
    if Selects(t.namespaceSelector, pod.namespaceLabels) { LiveSelects(t.namespaceSelector, pod.namespaceLabels); }
  }

  /** A place where the term and what is stored of it are told apart. */
  lemma TermDifference(t: PodTerm) returns (own: Incoming, pod: Pod, node: Node)
    requires !TermSurvives(t)
    ensures !SameRepulsion(InForceTerm(t), t, own, pod, node)
  {
    hide SameRepulsion, InForceTerm, Impossible, OnlyAbsent, StoredSelector, SelectorSurvives;
    var stored := StoredSelector(t.selector);
    node := Node(map[t.topologyKey := "here"], map[]);
    if !Live(stored) {
      own, pod := LostTerm(t, node);
    } else if t.namespaces != [] || t.namespaceSelector.Some? {
      own, pod := LostScope(t, node);
    } else if !SelectorSurvives(t.selector) {
      own, pod := LostSelector(t, node);
    } else {
      own, pod := LostKeys(t, node);
    }
  }

  function Here(t: PodTerm): Node {
    Node(map[t.topologyKey := "here"], map[])
  }

  /** A namespace in the term's scope, if it has any. */
  lemma InItsScope(t: PodTerm, labels: map<string, string>) returns (own: Incoming, pod: Pod)
    requires !(t.namespaces == [] && t.namespaceSelector.Some? && !Live(t.namespaceSelector))
    ensures InScope(t, own, pod) && own.labels == map[] && pod.labels == labels && pod.node == Here(t)
    ensures t.namespaces != [] || t.namespaceSelector.Some? ==> pod.namespace != own.namespace
  {
    hide Impossible, Selects;
    if t.namespaces != [] {
      own := Incoming(map[], t.namespaces[0] + "a");
      pod := Pod(labels, t.namespaces[0], map[], Here(t));
    } else if t.namespaceSelector.Some? {
      var found := LiveWitness(t.namespaceSelector.value);
      own, pod := Incoming(map[], "a"), Pod(labels, "", found, Here(t));
    } else {
      own, pod := Incoming(map[], ""), Pod(labels, "", map[], Here(t));
    }
  }

  lemma LostTerm(t: PodTerm, node: Node) returns (own: Incoming, pod: Pod)
    requires !TermSurvives(t) && !Live(StoredSelector(t.selector)) && node == Here(t)
    ensures !SameRepulsion(InForceTerm(t), t, own, pod, node)
  {
    hide Selects, StoredSelector, Impossible, InScope;
    var labels := LiveWitness(t.selector.value);
    own, pod := InItsScope(t, labels);
    if Selects(StoredSelector(t.selector), labels) { LiveSelects(StoredSelector(t.selector), labels); }
    assert t.selector == Some(t.selector.value);
  }

  lemma LostScope(t: PodTerm, node: Node) returns (own: Incoming, pod: Pod)
    requires Live(StoredSelector(t.selector)) && node == Here(t)
    requires t.namespaces != [] || t.namespaceSelector.Some?
    ensures !SameRepulsion(InForceTerm(t), t, own, pod, node)
  {
    hide Selects, StoredSelector, Impossible;
    var stored := StoredSelector(t.selector);
    var labels := LiveWitness(stored.value);
    assert stored == Some(stored.value);
    var dead := t.namespaces == [] && !Live(t.namespaceSelector);
    if dead || !Selects(t.selector, labels) {
      own, pod := Incoming(map[], ""), Pod(labels, "", map[], node);
      if dead && Selects(t.namespaceSelector, map[]) { LiveSelects(t.namespaceSelector, map[]); }
    } else {
      own, pod := InItsScope(t, labels);
    }
  }

  lemma LostSelector(t: PodTerm, node: Node) returns (own: Incoming, pod: Pod)
    requires t.namespaces == [] && t.namespaceSelector.None? && !SelectorSurvives(t.selector) && node == Here(t)
    ensures !SameRepulsion(InForceTerm(t), t, own, pod, node)
  {
    hide Selects, StoredSelector, SelectorSurvives;
    SelectorSame(t.selector);
    var labels: map<string, string> :| Selects(StoredSelector(t.selector), labels) != Selects(t.selector, labels);
    own, pod := Incoming(map[], ""), Pod(labels, "", map[], node);
  }

  lemma LostKeys(t: PodTerm, node: Node) returns (own: Incoming, pod: Pod)
    requires !TermSurvives(t) && Live(StoredSelector(t.selector)) && SelectorSurvives(t.selector) && node == Here(t)
    requires t.namespaces == [] && t.namespaceSelector.None?
    ensures !SameRepulsion(InForceTerm(t), t, own, pod, node)
  {
    hide Selects, StoredSelector, SelectorSurvives, Impossible;
    var stored := StoredSelector(t.selector);
    assert stored == Some(stored.value);
    if t.matchLabelKeys != [] {
      var k := t.matchLabelKeys[0];
      var labels := LiveWitness(stored.value);
      var other := if k in labels then labels[k] + "a" else "";
      own, pod := Incoming(map[k := other], ""), Pod(labels, "", map[], node);
    } else {
      var k :| k in t.mismatchLabelKeys && !OnlyAbsent(stored.value, k);
      var labels := Having(stored.value, k);
      own, pod := Incoming(map[k := labels[k]], ""), Pod(labels, "", map[], node);
    }
  }

  lemma Having(s: LabelSelector, key: string) returns (labels: map<string, string>)
    requires !Impossible(s) && !OnlyAbsent(s, key)
    ensures Selects(Some(s), labels) && key in labels
  {
    hide Permits, Cases, Impossible, Selects;
    var has :| has in Cases(s) && Permits(s, key, has) && has != None;
    labels := Witness(s, key, has);
  }

  /** Every term keeps its meaning. */
  ghost predicate AllSurvive(a: Affinity) {
    && (forall i | 0 <= i < |AntiOf(a).required| :: TermSurvives(AntiOf(a).required[i]))
    && (forall i | 0 <= i < |AntiOf(a).preferred| :: TermSurvives(AntiOf(a).preferred[i].term))
  }

  lemma AntiInForce(a: Affinity)
    ensures var b, c := AntiOf(a), PlainTerms(InForce(a).antiAffinity);
      && |c.required| == |b.required| && |c.preferred| == |b.preferred|
      && (forall i | 0 <= i < |b.required| :: c.required[i] == InForceTerm(b.required[i]))
      && (forall i | 0 <= i < |b.preferred| ::
            c.preferred[i] == Weighted(b.preferred[i].weight, InForceTerm(b.preferred[i].term)))
  {
    hide InForce, StoredTerm, Converted, Plain, StoredNode;
    InForceIs(a);
  }

  lemma {:induction false} SameCount(t: PodTerm, u: PodTerm, own: Incoming, pods: seq<Pod>, node: Node)
    requires forall pod :: SameRepulsion(t, u, own, pod, node)
    ensures Repelling(t, own, pods, node) == Repelling(u, own, pods, node)
    decreases |pods|
  {
    hide Repels;
    if pods != [] {
      SameCount(t, u, own, pods[..|pods| - 1], node);
      assert SameRepulsion(t, u, own, pods[|pods| - 1], node);
    }
  }

  lemma {:induction false} SamePenalty(ts: seq<Weighted<PodTerm>>, us: seq<Weighted<PodTerm>>, own: Incoming,
      pods: seq<Pod>, node: Node)
    requires |ts| == |us| && forall i | 0 <= i < |ts| :: ts[i].weight == us[i].weight
    requires forall i, pod | 0 <= i < |ts| :: SameRepulsion(ts[i].term, us[i].term, own, pod, node)
    ensures Penalty(ts, own, pods, node) == Penalty(us, own, pods, node)
    decreases |ts|
  {
    hide SameRepulsion, Repelling;
    if ts != [] {
      SamePenalty(ts[..|ts| - 1], us[..|us| - 1], own, pods, node);
      SameCount(ts[|ts| - 1].term, us[|us| - 1].term, own, pods, node);
    }
  }

  lemma SameAllowance(ts: seq<PodTerm>, us: seq<PodTerm>, own: Incoming, pods: seq<Pod>, node: Node)
    requires |ts| == |us|
    requires forall i, pod | 0 <= i < |ts| :: SameRepulsion(ts[i], us[i], own, pod, node)
    ensures Allows(ts, own, pods, node) <==> Allows(us, own, pods, node)
  {
    hide Repels;
    forall i, j | 0 <= i < |ts| && 0 <= j < |pods|
      ensures Repels(ts[i], own, pods[j], node) <==> Repels(us[i], own, pods[j], node)
    {
      assert SameRepulsion(ts[i], us[i], own, pods[j], node);
    }
  }

  /** The translation preserves meaning: for every node, and every set of running
      pods, the rules in force admit and score as the accepted affinity does. */
  lemma MeaningPreserved(a: Affinity, own: Incoming, pods: seq<Pod>, node: Node)
    requires a.podAffinity.None? && AllSurvive(a)
    requires a.node.Some? ==> a.node.value.required != Some([])
    ensures Admits(InForce(a).node, node) <==> Admits(a.node, node)
    ensures Score(InForce(a).node, node) == Score(a.node, node)
    ensures Allows(PlainTerms(InForce(a).antiAffinity).required, own, pods, node) <==>
            Allows(AntiOf(a).required, own, pods, node)
    ensures Penalty(PlainTerms(InForce(a).antiAffinity).preferred, own, pods, node) ==
        Penalty(AntiOf(a).preferred, own, pods, node)
  {
    hide InForce, Allows, Penalty, PlainTerms, AntiOf, Admits, Score, SameRepulsion, InForceTerm, TermSurvives;
    NodeRulesKept(a);
    AntiInForce(a);
    var b, c := AntiOf(a), PlainTerms(InForce(a).antiAffinity);
    forall i, pod | 0 <= i < |b.required| ensures SameRepulsion(c.required[i], b.required[i], own, pod, node) {
      TermMeaningKeptIff(b.required[i]);
    }
    forall i, pod | 0 <= i < |b.preferred|
      ensures SameRepulsion(c.preferred[i].term, b.preferred[i].term, own, pod, node)
    {
      TermMeaningKeptIff(b.preferred[i].term);
    }
    SameAllowance(c.required, b.required, own, pods, node);
    SamePenalty(c.preferred, b.preferred, own, pods, node);
  }

  ghost predicate SameAdmission(t: PodTerm, own: Incoming, pods: seq<Pod>, node: Node) {
    Allows([InForceTerm(t)], own, pods, node) <==> Allows([t], own, pods, node)
  }

  /** For a single required term that is also needed. */
  lemma OneTermPreservedIff(t: PodTerm)
    ensures (forall own, pods, node :: SameAdmission(t, own, pods, node)) <==> TermSurvives(t)
  {
    hide TermSurvives, InForceTerm, Repels;
    TermMeaningKeptIff(t);
    if TermSurvives(t) {
      forall own: Incoming, pods: seq<Pod>, node: Node ensures SameAdmission(t, own, pods, node) {
        assert forall pod :: SameRepulsion(InForceTerm(t), t, own, pod, node);
        SameAllowance([InForceTerm(t)], [t], own, pods, node);
      }
    }
    if forall own, pods, node :: SameAdmission(t, own, pods, node) {
      forall own: Incoming, pod: Pod, node: Node ensures SameRepulsion(InForceTerm(t), t, own, pod, node) {
        assert SameAdmission(t, own, [pod], node);
        assert [pod][0] == pod && [t][0] == t && [InForceTerm(t)][0] == InForceTerm(t);
      }
    }
  }

  /** With several it need not be every one: a term that loses its meaning may be
      covered by another. */
  lemma LostTermMayBeCovered(own: Incoming, pods: seq<Pod>, node: Node)
    ensures var t := Asking(map["a" := "x", "b" := ""]);
      var u := Asking(map["a" := "x"]);
      && !TermSurvives(t) && TermSurvives(u)
      && (Allows([InForceTerm(t), InForceTerm(u)], own, pods, node) <==> Allows([t, u], own, pods, node))
  {
    hide TermSurvives, Selects, InForceTerm;
    var t, u := Asking(map["a" := "x", "b" := ""]), Asking(map["a" := "x"]);
    CoveredTerm(t, u);
    TermMeaningKeptIff(t);
    TermMeaningKeptIff(u);
    forall pod ensures Repels(t, own, pod, node) ==> Repels(u, own, pod, node) {
      CoveredSelector(t, u, pod.labels);
    }
    assert [t, u][0] == t && [t, u][1] == u && [u, u][0] == u && [u, u][1] == u;
  }

  lemma CoveredTerm(t: PodTerm, u: PodTerm)
    requires t == Asking(map["a" := "x", "b" := ""]) && u == Asking(map["a" := "x"])
    ensures InForceTerm(t) == u && InForceTerm(u) == u
    ensures exists own, pod, node :: !SameRepulsion(InForceTerm(t), t, own, pod, node)
  {
    hide Selects;
    assert "a" in u.selector.value.labels;
    TermKept(u);
    assert Kept(t.selector.value).labels == map["a" := "x"];
    var here := Node(map["zone" := "here"], map[]);
    CoveredSelector(t, u, map["a" := "x"]);
    assert !SameRepulsion(InForceTerm(t), t, Incoming(map[], ""), Pod(map["a" := "x"], "", map[], here), here);
  }

  lemma CoveredSelector(t: PodTerm, u: PodTerm, labels: map<string, string>)
    requires t == Asking(map["a" := "x", "b" := ""]) && u == Asking(map["a" := "x"])
    ensures Selects(t.selector, labels) ==> Selects(u.selector, labels)
    ensures labels == map["a" := "x"] ==> Selects(u.selector, labels) && !Selects(t.selector, labels)
  {
    assert "a" in t.selector.value.labels && "b" in t.selector.value.labels;
  }

  function Asking(labels: map<string, string>): PodTerm {
    PodTerm(Some(LabelSelector(labels, [])), "zone", [], None, [], [])
  }
}
