/** What a reconcile does, as a value: the writes it issues when no API call
    fails, and how it ends. A pass that is cut short issues a prefix of them. */
module Plans {
  import opened Kube

  /** How a reconcile returns: nil, a WaitFor error, a configuration error, an
      ownership conflict, a nil dereference, or a failed API call. */
  datatype Outcome = Done | Waiting | Misconfigured | Conflicted | Panicked | Aborted

  /** A reconcile that returns because a call failed has seen exactly one failure. */
  function Failures(outcome: Outcome): nat {
    if outcome.Aborted? then 1 else 0
  }

  datatype Plan = Plan(writes: seq<Write>, outcome: Outcome)

  function Stop(outcome: Outcome): Plan {
    Plan([], outcome)
  }

  function After(s: Store, p: Plan): Store {
    Replay(s, p.writes)
  }

  /** Run p, then q unless p stopped; q must be the plan for the store p leaves. */
  function Then(p: Plan, q: Plan): Plan {
    if p.outcome.Done? then Plan(p.writes + q.writes, q.outcome) else p
  }

  lemma AfterNothing(s: Store)
    ensures After(s, Stop(Done)) == s
  {
  }

  lemma AfterThen(s: Store, p: Plan, q: Plan)
    ensures After(s, Then(p, q)) == if p.outcome.Done? then After(After(s, p), q) else After(s, p)
  {
    ReplayConcat(s, p.writes, q.writes);
  }

  /** The writes issued and the outcome returned are those of the plan, or the
      pass was aborted part-way through it. */
  predicate Follows(p: Plan, issued: seq<Write>, outcome: Outcome) {
    if outcome.Aborted? then issued <= p.writes else issued == p.writes && outcome == p.outcome
  }

  /** From store s0 with write log l0, a run of p led to s1 with log l1. */
  ghost predicate Ran(s0: Store, l0: seq<Write>, s1: Store, l1: seq<Write>, p: Plan, outcome: Outcome) {
    && l0 <= l1
    && s1 == Replay(s0, l1[|l0|..])
    && Follows(p, l1[|l0|..], outcome)
  }

  lemma RanThen(s0: Store, l0: seq<Write>, s1: Store, l1: seq<Write>, s2: Store, l2: seq<Write>, p: Plan, q: Plan,
      outcome: Outcome)
    requires Ran(s0, l0, s1, l1, p, Done)
    requires Ran(s1, l1, s2, l2, q, outcome)
    ensures Ran(s0, l0, s2, l2, Then(p, q), outcome)
    ensures s1 == After(s0, p)
  {
    var d1, d2 := l1[|l0|..], l2[|l1|..];
    assert l2 == l1 + d2 && l1 == l0 + d1;
    assert l2 == l0 + (d1 + d2);
    ReplayConcat(s0, d1, d2);
  }

  lemma RanStop(s0: Store, l0: seq<Write>, s1: Store, l1: seq<Write>, p: Plan, q: Plan, outcome: Outcome)
    requires Ran(s0, l0, s1, l1, p, outcome) && outcome != Done
    ensures Ran(s0, l0, s1, l1, Then(p, q), outcome)
  {
    if p.outcome.Done? {
      assert p.writes <= p.writes + q.writes;
    }
  }

  // ----- properties of every store on the way ---------------------------------

  /** inv holds in s and after every one of the writes. */
  ghost predicate Throughout(inv: Store -> bool, s: Store, ws: seq<Write>)
    decreases |ws|
  {
    inv(s) && (ws != [] ==> Throughout(inv, Performed(s, ws[0]), ws[1..]))
  }

  lemma {:induction false} ThroughoutConcat(inv: Store -> bool, s: Store, a: seq<Write>, b: seq<Write>)
    requires Throughout(inv, s, a) && Throughout(inv, Replay(s, a), b)
    ensures Throughout(inv, s, a + b)
    decreases |a|
  {
    if a == [] {
      assert a + b == b;
    } else {
      assert (a + b)[0] == a[0] && (a + b)[1..] == a[1..] + b;
      ThroughoutConcat(inv, Performed(s, a[0]), a[1..], b);
    }
  }

  lemma {:induction false} ThroughoutEnds(inv: Store -> bool, s: Store, ws: seq<Write>)
    requires Throughout(inv, s, ws)
    ensures inv(Replay(s, ws))
    decreases |ws|
  {
    if ws != [] { ThroughoutEnds(inv, Performed(s, ws[0]), ws[1..]); }
  }

  /** In particular it holds wherever a pass may be cut short. */
  lemma {:induction false} ThroughoutPrefix(inv: Store -> bool, s: Store, ws: seq<Write>, n: nat)
    requires Throughout(inv, s, ws) && n <= |ws|
    ensures Throughout(inv, s, ws[..n]) && inv(Replay(s, ws[..n]))
    decreases |ws|
  {
    if n > 0 {
      assert ws[..n][0] == ws[0] && ws[..n][1..] == ws[1..][..n - 1];
      ThroughoutPrefix(inv, Performed(s, ws[0]), ws[1..], n - 1);
    }
  }

  lemma ThroughoutThen(inv: Store -> bool, s: Store, p: Plan, q: Plan)
    requires Throughout(inv, s, p.writes)
    requires p.outcome.Done? ==> Throughout(inv, After(s, p), q.writes)
    ensures Throughout(inv, s, Then(p, q).writes)
  {
    if p.outcome.Done? { ThroughoutConcat(inv, s, p.writes, q.writes); }
  }
}
