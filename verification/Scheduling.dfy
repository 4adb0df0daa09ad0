/** Scheduling rules: what they mean, how they are handed to the operator
    (internal/provider/affinity.go), and what is left of their meaning once the
    declared object has been pruned and stored. */
module Scheduling {
  import opened Kube
  import opened Json
  import opened Decimal
  import opened Seeding

  // ----- the rules ------------------------------------------------------------
  // The operator's node selector types have the fields of the Kubernetes ones, so
  // one datatype stands for both; its pod term has fewer, so there are two.

  datatype Requirement = Requirement(key: string, operator: string, values: seq<string>)

  datatype Term = Term(expressions: seq<Requirement>, fields: seq<Requirement>)

  datatype Preferred = Preferred(weight: int, preference: Term)

  datatype NodeAffinity = NodeAffinity(required: Option<seq<Term>>, preferred: seq<Preferred>)

  datatype LabelSelector = LabelSelector(labels: map<string, string>, expressions: seq<Requirement>)

  /** A Kubernetes pod affinity term. */
  datatype PodTerm = PodTerm(
    selector: Option<LabelSelector>,
    topologyKey: string,
    namespaces: seq<string>,
    namespaceSelector: Option<LabelSelector>,
    matchLabelKeys: seq<string>,
    mismatchLabelKeys: seq<string>)

  /** The operator's. */
  datatype OperatorTerm = OperatorTerm(selector: Option<LabelSelector>, topologyKey: string)

  datatype Weighted<T> = Weighted(weight: int, term: T)

  datatype AntiAffinity<T> = AntiAffinity(required: seq<T>, preferred: seq<Weighted<T>>)

  datatype Affinity = Affinity(node: Option<NodeAffinity>, podAffinity: Option<seq<PodTerm>>,
      antiAffinity: Option<AntiAffinity<PodTerm>>)

  datatype Config = Config(node: Option<NodeAffinity>, antiAffinity: Option<AntiAffinity<OperatorTerm>>)

  // ----- what they mean -------------------------------------------------------

  datatype Node = Node(labels: map<string, string>, fields: map<string, string>)

  /** A requirement on labels; one that is not valid is met by nothing. */
  predicate Meets(r: Requirement, labels: map<string, string>) {
    match r.operator
    case "In" => r.values != [] && r.key in labels && labels[r.key] in r.values
    case "NotIn" => r.values != [] && (r.key !in labels || labels[r.key] !in r.values)
    case "Exists" => r.values == [] && r.key in labels
    case "DoesNotExist" => r.values == [] && r.key !in labels
    case "Gt" => Compares(r, labels) && Atoi(labels[r.key]).value > Atoi(r.values[0]).value
    case "Lt" => Compares(r, labels) && Atoi(labels[r.key]).value < Atoi(r.values[0]).value
    case _ => false
  }

  predicate Compares(r: Requirement, labels: map<string, string>) {
    |r.values| == 1 && r.key in labels && Atoi(labels[r.key]).Some? && Atoi(r.values[0]).Some?
  }

  /** Fields are compared with exactly one value; an absent one reads as "". */
  predicate FieldMeets(r: Requirement, fields: map<string, string>) {
    var value := if r.key in fields then fields[r.key] else "";
    |r.values| == 1 && ((r.operator == "In" && value == r.values[0]) || (r.operator == "NotIn" && value != r.values[0]))
  }

  /** An empty term selects nothing. */
  predicate TermAdmits(t: Term, node: Node) {
    && (t.expressions != [] || t.fields != [])
    && (forall i | 0 <= i < |t.expressions| :: Meets(t.expressions[i], node.labels))
    && (forall i | 0 <= i < |t.fields| :: FieldMeets(t.fields[i], node.fields))
  }

  /** Terms are alternatives: a selector without any admits no node. */
  predicate Admits(a: Option<NodeAffinity>, node: Node) {
    a.None? || a.value.required.None? || exists i | 0 <= i < |a.value.required.value| ::
          TermAdmits(a.value.required.value[i], node)
  }

  function ScoreOf(ps: seq<Preferred>, node: Node): int {
    if ps == [] then 0
    else ScoreOf(ps[..|ps| - 1], node) + if TermAdmits(ps[|ps| - 1].preference, node) then ps[|ps| - 1].weight else 0
  }

  function Score(a: Option<NodeAffinity>, node: Node): int {
    if a.None? then 0 else ScoreOf(a.value.preferred, node)
  }

  const SELECTOR_OPERATORS := {"In", "NotIn", "Exists", "DoesNotExist"}

  /** An absent selector selects no pods, an empty one all pods. */
  predicate Selects(s: Option<LabelSelector>, labels: map<string, string>) {
    && s.Some?
    && (forall k | k in s.value.labels :: k in labels && labels[k] == s.value.labels[k])
    && (forall i | 0 <= i < |s.value.expressions| ::
          s.value.expressions[i].operator in SELECTOR_OPERATORS && Meets(s.value.expressions[i], labels))
  }

  /** A running pod, and the node it runs on. */
  datatype Pod = Pod(labels: map<string, string>, namespace: string, namespaceLabels: map<string, string>, node: Node)

  predicate SameDomain(topologyKey: string, a: Node, b: Node) {
    topologyKey in a.labels && topologyKey in b.labels && a.labels[topologyKey] == b.labels[topologyKey]
  }

  /** The incoming pod, as its own terms see it. */
  datatype Incoming = Incoming(labels: map<string, string>, namespace: string)

  predicate InScope(t: PodTerm, own: Incoming, pod: Pod) {
    if t.namespaces == [] && t.namespaceSelector.None? then pod.namespace == own.namespace
    else pod.namespace in t.namespaces || Selects(t.namespaceSelector, pod.namespaceLabels)
  }

  /** matchLabelKeys narrows the selector to pods that agree with the incoming one,
      mismatchLabelKeys to pods that do not. */
  predicate KeysAgree(t: PodTerm, own: Incoming, pod: Pod) {
    && (forall k | k in t.matchLabelKeys && k in own.labels :: k in pod.labels && pod.labels[k] == own.labels[k])
    && (forall k | k in t.mismatchLabelKeys && k in own.labels :: !(k in pod.labels && pod.labels[k] == own.labels[k]))
  }

  /** The pod keeps the incoming one off the node, as far as this term goes. */
  predicate Repels(t: PodTerm, own: Incoming, pod: Pod, node: Node) {
    InScope(t, own, pod) && KeysAgree(t, own, pod) && Selects(t.selector, pod.labels)
      && SameDomain(t.topologyKey, node, pod.node)
  }

  /** The operator's term is a Kubernetes term that says no more. */
  function Plain(t: OperatorTerm): PodTerm {
    PodTerm(t.selector, t.topologyKey, [], None, [], [])
  }

  predicate Allows(terms: seq<PodTerm>, own: Incoming, pods: seq<Pod>, node: Node) {
    forall i, j | 0 <= i < |terms| && 0 <= j < |pods| :: !Repels(terms[i], own, pods[j], node)
  }

  function Repelling(t: PodTerm, own: Incoming, pods: seq<Pod>, node: Node): nat {
    if pods == [] then 0
    else Repelling(t, own, pods[..|pods| - 1], node) + if Repels(t, own, pods[|pods| - 1], node) then 1 else 0
  }

  function Penalty(terms: seq<Weighted<PodTerm>>, own: Incoming, pods: seq<Pod>, node: Node): int {
    if terms == [] then 0
    else
      var last := terms[|terms| - 1];
      Penalty(terms[..|terms| - 1], own, pods, node) + last.weight * Repelling(last.term, own, pods, node)
  }

  function PlainTerms(a: Option<AntiAffinity<OperatorTerm>>): AntiAffinity<PodTerm> {
    if a.None? then AntiAffinity([], [])
    else AntiAffinity(
      seq(|a.value.required|, i requires 0 <= i < |a.value.required| => Plain(a.value.required[i])),
      seq(|a.value.preferred|, i requires 0 <= i < |a.value.preferred| =>
            Weighted(a.value.preferred[i].weight, Plain(a.value.preferred[i].term))))
  }

  // ----- the conversion -------------------------------------------------------

  function Converted(t: PodTerm): OperatorTerm {
    OperatorTerm(t.selector, t.topologyKey)
  }

  function ConvertedAnti(a: AntiAffinity<PodTerm>): AntiAffinity<OperatorTerm> {
    AntiAffinity(
      seq(|a.required|, i requires 0 <= i < |a.required| => Converted(a.required[i])),
      seq(|a.preferred|,
          i requires 0 <= i < |a.preferred| => Weighted(a.preferred[i].weight, Converted(a.preferred[i].term))))
  }

  /** None when there is nothing the operator can honour. */
  function ConvertedAffinity(a: Affinity): Option<Config> {
    if a.node.None? && a.antiAffinity.None? then None
    else Some(Config(a.node, if a.antiAffinity.Some? then Some(ConvertedAnti(a.antiAffinity.value)) else None))
  }

  method ConvertRequirements(rs: seq<Requirement>) returns (out: seq<Requirement>)
    ensures out == rs
  {
    out := [];
    for i := 0 to |rs|
      invariant out == rs[..i]
    {
      out := out + [Requirement(rs[i].key, rs[i].operator, rs[i].values)];
    }
  }

  method ConvertNodeSelectorTerm(t: Term) returns (out: Term)
    ensures out == t
  {
    var expressions := ConvertRequirements(t.expressions);
    var fields := ConvertRequirements(t.fields);
    out := Term(expressions, fields);
  }

  method ConvertNodeSelector(terms: seq<Term>) returns (out: seq<Term>)
    ensures out == terms
  {
    out := [];
    for i := 0 to |terms|
      invariant out == terms[..i]
    {
      var term := ConvertNodeSelectorTerm(terms[i]);
      out := out + [term];
    }
  }

  method ConvertNodeAffinity(a: NodeAffinity) returns (out: NodeAffinity)
    ensures out == a
  {
    var required: Option<seq<Term>> := None;
    if a.required.Some? {
      var terms := ConvertNodeSelector(a.required.value);
      required := Some(terms);
    }
    var preferred: seq<Preferred> := [];
    for i := 0 to |a.preferred|
      invariant preferred == a.preferred[..i]
    {
      var preference := ConvertNodeSelectorTerm(a.preferred[i].preference);
      preferred := preferred + [Preferred(a.preferred[i].weight, preference)];
    }
    out := NodeAffinity(required, preferred);
  }

  method ConvertPodAffinityTerm(t: PodTerm) returns (out: OperatorTerm)
    ensures out == Converted(t)
  {
    out := OperatorTerm(None, t.topologyKey);
    if t.selector.Some? {
      var expressions := ConvertRequirements(t.selector.value.expressions);
      out := out.(selector := Some(LabelSelector(t.selector.value.labels, expressions)));
    }
  }

  method ConvertPodAntiAffinity(a: AntiAffinity<PodTerm>) returns (out: AntiAffinity<OperatorTerm>)
    ensures |out.required| == |a.required| && |out.preferred| == |a.preferred|
    ensures forall i | 0 <= i < |a.required| ::
              && out.required[i].selector == a.required[i].selector
              && out.required[i].topologyKey == a.required[i].topologyKey
    ensures forall i | 0 <= i < |a.preferred| ::
              && out.preferred[i].weight == a.preferred[i].weight
              && out.preferred[i].term.selector == a.preferred[i].term.selector
              && out.preferred[i].term.topologyKey == a.preferred[i].term.topologyKey
    ensures out == ConvertedAnti(a)
  {
    var required: seq<OperatorTerm> := [];
    for i := 0 to |a.required|
      invariant required == ConvertedAnti(a).required[..i]
    {
      var term := ConvertPodAffinityTerm(a.required[i]);
      required := required + [term];
    }
    var preferred: seq<Weighted<OperatorTerm>> := [];
    for i := 0 to |a.preferred|
      invariant preferred == ConvertedAnti(a).preferred[..i]
    {
      var term := ConvertPodAffinityTerm(a.preferred[i].term);
      preferred := preferred + [Weighted(a.preferred[i].weight, term)];
    }
    out := AntiAffinity(required, preferred);
  }

  method ConvertAffinity(a: Affinity) returns (out: Option<Config>)
    ensures out.None? <==> a.node.None? && a.antiAffinity.None?
    ensures out.Some? ==> out.value.node == a.node && (out.value.antiAffinity.Some? <==> a.antiAffinity.Some?)
    ensures out == ConvertedAffinity(a)
  {
    var config := Config(None, None);
    if a.node.Some? {
      var node := ConvertNodeAffinity(a.node.value);
      config := config.(node := Some(node));
    }
    if a.antiAffinity.Some? {
      var anti := ConvertPodAntiAffinity(a.antiAffinity.value);
      config := config.(antiAffinity := Some(anti));
    }
    out := if config.node.None? && config.antiAffinity.None? then None else Some(config);
  }

  // ----- as sent and as stored ------------------------------------------------

  function Texts(ss: seq<string>): Json {
    Arr(seq(|ss|, i requires 0 <= i < |ss| => Str(ss[i])))
  }

  function RequirementTree(r: Requirement): Json {
    Obj(map["key" := Str(r.key), "operator" := Str(r.operator), "values" := Texts(r.values)])
  }

  function RequirementTrees(rs: seq<Requirement>): Json {
    Arr(seq(|rs|, i requires 0 <= i < |rs| => RequirementTree(rs[i])))
  }

  function TermTree(t: Term): Json {
    Obj(map["matchExpressions" := RequirementTrees(t.expressions), "matchFields" := RequirementTrees(t.fields)])
  }

  function TermTrees(ts: seq<Term>): Json {
    Arr(seq(|ts|, i requires 0 <= i < |ts| => TermTree(ts[i])))
  }

  function PreferredTree(p: Preferred): Json {
    Obj(map["weight" := Num(p.weight), "preference" := TermTree(p.preference)])
  }

  const REQUIRED := "requiredDuringSchedulingIgnoredDuringExecution"
  const PREFERRED := "preferredDuringSchedulingIgnoredDuringExecution"

  function NodeAffinityTree(a: NodeAffinity): Json {
    Obj(map[REQUIRED := if a.required.Some? then Obj(map["nodeSelectorTerms" := TermTrees(a.required.value)]) else Null,
            PREFERRED := Arr(seq(|a.preferred|, i requires 0 <= i < |a.preferred| => PreferredTree(a.preferred[i])))])
  }

  function SelectorTree(s: LabelSelector): Json {
    Obj(map["matchLabels" := Obj(map k | k in s.labels :: Str(s.labels[k])),
            "matchExpressions" := RequirementTrees(s.expressions)])
  }

  function OperatorTermTree(t: OperatorTerm): Json {
    Obj(map["labelSelector" := if t.selector.Some? then SelectorTree(t.selector.value) else Null,
            "topologyKey" := Str(t.topologyKey)])
  }

  function WeightedTree(w: Weighted<OperatorTerm>): Json {
    Obj(map["weight" := Num(w.weight), "podAffinityTerm" := OperatorTermTree(w.term)])
  }

  function AntiAffinityTree(a: AntiAffinity<OperatorTerm>): Json {
    Obj(map[REQUIRED := Arr(seq(|a.required|, i requires 0 <= i < |a.required| => OperatorTermTree(a.required[i]))),
            PREFERRED := Arr(seq(|a.preferred|, i requires 0 <= i < |a.preferred| => WeightedTree(a.preferred[i])))])
  }

  function ConfigTree(c: Config): Json {
    Obj(map["nodeAffinity" := if c.node.Some? then NodeAffinityTree(c.node.value) else Null,
            "podAntiAffinity" := if c.antiAffinity.Some? then AntiAffinityTree(c.antiAffinity.value) else Null])
  }

  // ----- read back: absent text is "", an absent list is empty ----------------

  function ReadRequirement(v: Json): Requirement {
    var values := ItemsIn(v, "values");
    Requirement(TextIn(v, "key"), TextIn(v, "operator"),
                seq(|values|, i requires 0 <= i < |values| => if values[i].Str? then values[i].s else ""))
  }

  function ReadRequirements(items: seq<Json>): seq<Requirement> {
    seq(|items|, i requires 0 <= i < |items| => ReadRequirement(items[i]))
  }

  function ReadTerm(v: Json): Term {
    Term(ReadRequirements(ItemsIn(v, "matchExpressions")), ReadRequirements(ItemsIn(v, "matchFields")))
  }

  function ReadPreferred(v: Json): Preferred {
    Preferred(NumIn(v, "weight"), ReadTerm(Child(v, "preference")))
  }

  function ReadNodeAffinity(v: Json): Option<NodeAffinity> {
    if !v.Obj? then None
    else
      var required := Child(v, REQUIRED);
      var terms, preferred := ItemsIn(required, "nodeSelectorTerms"), ItemsIn(v, PREFERRED);
      Some(NodeAffinity(
        if required.Obj? then Some(seq(|terms|, i requires 0 <= i < |terms| => ReadTerm(terms[i]))) else None,
        seq(|preferred|, i requires 0 <= i < |preferred| => ReadPreferred(preferred[i]))))
  }

  function ReadSelector(v: Json): Option<LabelSelector> {
    if !v.Obj? then None
    else
      var labels := FieldsOf(Child(v, "matchLabels"));
      Some(LabelSelector(
        map k | k in labels && labels[k].Str? :: labels[k].s,
        ReadRequirements(ItemsIn(v, "matchExpressions"))))
  }

  function ReadOperatorTerm(v: Json): OperatorTerm {
    OperatorTerm(ReadSelector(Child(v, "labelSelector")), TextIn(v, "topologyKey"))
  }

  function ReadWeighted(v: Json): Weighted<OperatorTerm> {
    Weighted(NumIn(v, "weight"), ReadOperatorTerm(Child(v, "podAffinityTerm")))
  }

  function ReadAntiAffinity(v: Json): Option<AntiAffinity<OperatorTerm>> {
    if !v.Obj? then None
    else
      var required, preferred := ItemsIn(v, REQUIRED), ItemsIn(v, PREFERRED);
      Some(AntiAffinity(
        seq(|required|, i requires 0 <= i < |required| => ReadOperatorTerm(required[i])),
        seq(|preferred|, i requires 0 <= i < |preferred| => ReadWeighted(preferred[i]))))
  }

  function ReadConfig(v: Option<Json>): Config {
    if v.None? then Config(None, None)
    else Config(ReadNodeAffinity(Child(v.value, "nodeAffinity")), ReadAntiAffinity(Child(v.value, "podAntiAffinity")))
  }
}
