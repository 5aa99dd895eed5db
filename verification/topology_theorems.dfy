// What every run of the topology keeps: weight bounds, feedback accounting, required and minimum
// links.
module TopologyTheorems {
  import opened Wrappers
  import opened Runs
  import opened TopologyModel

  datatype Op =
    | Add(link: Link)
    | DoRecord(attempt: Attempt, success: bool)
    | DoFeedback(message: string, attempt: Attempt, success: bool, source: Agent, target: Agent)
    | Idle
    | DoPrune

  function Step(e: Engine, op: Op): Engine {
    match op
    case Add(l) => AddConnection(e, l).0
    case DoRecord(attempt, success) => Record(e, attempt, success, attempt.agent).0
    case DoFeedback(m, attempt, success, source, target) => RecordFeedback(e, m, attempt, success, source, target).0
    case Idle => AdvanceIdleWindow(e)
    case DoPrune => Prune(e).0
  }

  // Links are validated before they are installed.
  predicate Ready(e: Engine, op: Op) {
    op.Add? ==> LinkOk(op.link)
  }

  // ---- The invariant ----

  // The order lists exactly the edges, once each.
  predicate OrderOk(e: Engine) {
    Orders(e.order, e.edges.Keys)
  }

  predicate Orders(order: seq<Agent>, agents: set<Agent>) {
    && (forall i, j :: 0 <= i < j < |order| ==> order[i] != order[j])
    && (forall i :: 0 <= i < |order| ==> order[i] in agents)
    && (forall a :: a in agents ==> a in order)
  }

  lemma OrdersOneMore(order: seq<Agent>, agents: set<Agent>, a: Agent)
    requires Orders(order, agents) && a !in agents
    ensures Orders(order + [a], agents + {a})
  {
    var longer := order + [a];
    assert longer[|order|] == a;
    forall b | b in agents ensures b in longer {
      var i :| 0 <= i < |order| && order[i] == b;
      assert longer[i] == b;
    }
  }

  function Feedback(edges: map<Agent, Edge>, order: seq<Agent>): nat {
    if order == [] then 0
    else
      var last := order[|order| - 1];
      Feedback(edges, order[..|order| - 1]) + (if last in edges then edges[last].feedback else 0)
  }

  // The most a link can weigh: what it was installed with, or where reinforcement balances decay.
  function Ceiling(p: Policy, installed: real): real
    requires p.decay > 0.0
  {
    Max(installed, Gain(p) / p.decay)
  }

  predicate WeightOk(p: Policy, edge: Edge) {
    edge.weight >= 0.0 && (p.decay > 0.0 ==> edge.weight <= Ceiling(p, edge.spec.weight))
  }

  predicate EdgeOk(source: Agent, p: Policy, a: Agent, edge: Edge) {
    WeightOk(p, edge) && edge.successes <= edge.feedback && edge.spec.dst == a && edge.spec.src == source
    && LinkOk(edge.spec)
  }

  ghost predicate Inv(e: Engine) {
    && PolicyOk(e.policy) && OrderOk(e)
    && (forall a :: a in e.edges ==> EdgeOk(e.source, e.policy, a, e.edges[a]))
    && Feedback(e.edges, e.order) == |e.attempts|
  }

  lemma Product(x: real, y: real)
    requires x >= 0.0 && y >= 0.0
    ensures x * y >= 0.0
  {
  }

  lemma Shrunk(decay: real, x: real)
    requires 0.0 <= decay < 1.0 && x >= 0.0
    ensures 0.0 <= (1.0 - decay) * x <= x
  {
    Product(1.0 - decay, x);
    Product(decay, x);
  }

  // Below the balance point, decay and reinforcement together stay below it.
  lemma Balanced(decay: real, gain: real, x: real, bound: real)
    requires 0.0 < decay < 1.0 && x <= bound && gain / decay <= bound
    ensures (1.0 - decay) * x + gain <= bound
  {
    var d, slack :| d == bound - gain / decay && slack == bound - x;
    assert decay * (gain / decay) == gain;
    Product(decay, d);
    Product(1.0 - decay, slack);
    assert decay * d == decay * bound - gain;
    assert (1.0 - decay) * slack == bound - decay * bound - (1.0 - decay) * x;
  }

  lemma UpdatedWeight(p: Policy, edge: Edge, success: bool)
    requires PolicyOk(p) && WeightOk(p, edge)
    ensures WeightOk(p, Updated(p, edge, success))
  {
    Product(p.reinforcement, p.quality);
    Shrunk(p.decay, edge.weight);
    if p.decay > 0.0 {
      Balanced(p.decay, Gain(p), edge.weight, Ceiling(p, edge.spec.weight));
    }
  }

  lemma IdledWeight(p: Policy, edge: Edge)
    requires PolicyOk(p) && WeightOk(p, edge)
    ensures WeightOk(p, Idled(p, edge))
  {
    Shrunk(p.decay, edge.weight);
    assert edge.weight * (1.0 - p.decay) == (1.0 - p.decay) * edge.weight;
  }

  // ---- Counting over the listed edges ----

  lemma {:induction false} FeedbackElsewhere(edges: map<Agent, Edge>, edges': map<Agent, Edge>, order: seq<Agent>)
    requires forall i :: 0 <= i < |order| ==>
                           (order[i] in edges <==> order[i] in edges')
                           && (order[i] in edges ==> edges'[order[i]].feedback == edges[order[i]].feedback)
    ensures Feedback(edges', order) == Feedback(edges, order)
  {
    if order != [] { FeedbackElsewhere(edges, edges', order[..|order| - 1]); }
  }

  lemma {:induction false} FeedbackPlusOne(edges: map<Agent, Edge>, edges': map<Agent, Edge>, order: seq<Agent>, k: nat)
    requires k < |order| && forall i :: 0 <= i < |order| && i != k ==> order[i] != order[k]
    requires edges'.Keys == edges.Keys && order[k] in edges
    requires edges'[order[k]].feedback == edges[order[k]].feedback + 1
    requires forall a :: a in edges && a != order[k] ==> edges'[a] == edges[a]
    ensures Feedback(edges', order) == Feedback(edges, order) + 1
    decreases |order|
  {
    var front := order[..|order| - 1];
    if k == |order| - 1 {
      FeedbackElsewhere(edges, edges', front);
    } else {
      assert front[k] == order[k];
      FeedbackPlusOne(edges, edges', front, k);
    }
  }

  // ---- Each operation keeps the invariant ----

  lemma RecordKeeps(e: Engine, attempt: Attempt, success: bool, target: Agent)
    requires Inv(e)
    ensures Inv(Record(e, attempt, success, target).0)
  {
    var (e', r) := Record(e, attempt, success, target);
    if r == Ok(true) {
      assert EdgeOk(e.source, e.policy, target, e.edges[target]);
      UpdatedWeight(e.policy, e.edges[target], success);
      assert target in e.order;
      var k :| 0 <= k < |e.order| && e.order[k] == target;
      FeedbackPlusOne(e.edges, e'.edges, e.order, k);
    }
  }

  lemma AddKeeps(e: Engine, l: Link)
    requires Inv(e) && LinkOk(l)
    ensures Inv(AddConnection(e, l).0)
  {
    if AddConnection(e, l).1.Ok? {
      AddedOrder(e, l);
      NewEdgeOk(e.source, e.policy, l);
      var e' := AddConnection(e, l).0;
      forall a | a in e'.edges ensures EdgeOk(e'.source, e'.policy, a, e'.edges[a]) {
        if a != l.dst { assert EdgeOk(e.source, e.policy, a, e.edges[a]); }
      }
    }
  }

  lemma AddedFeedback(edges: map<Agent, Edge>, order: seq<Agent>, a: Agent, edge: Edge)
    requires a !in edges && edge.feedback == 0 && forall i :: 0 <= i < |order| ==> order[i] in edges
    ensures Feedback(edges[a := edge], order + [a]) == Feedback(edges, order)
  {
    assert (order + [a])[..|order + [a]| - 1] == order;
    FeedbackElsewhere(edges, edges[a := edge], order);
  }

  lemma AddedOrder(e: Engine, l: Link)
    requires OrderOk(e) && AddConnection(e, l).1.Ok?
    ensures var e' := AddConnection(e, l).0;
            OrderOk(e') && Feedback(e'.edges, e'.order) == Feedback(e.edges, e.order)
  {
    var edge := Edge(l, l.weight, 0, 0, 0, true);
    OrdersOneMore(e.order, e.edges.Keys, l.dst);
    assert e.edges[l.dst := edge].Keys == e.edges.Keys + {l.dst};
    AddedFeedback(e.edges, e.order, l.dst, edge);
  }

  lemma NewEdgeOk(source: Agent, p: Policy, l: Link)
    requires LinkOk(l) && l.src == source
    ensures EdgeOk(source, p, l.dst, Edge(l, l.weight, 0, 0, 0, true))
  {
  }

  lemma IdleKeeps(e: Engine)
    requires Inv(e)
    ensures Inv(AdvanceIdleWindow(e))
  {
    var e' := AdvanceIdleWindow(e);
    FeedbackElsewhere(e.edges, e'.edges, e.order);
    forall a | a in e'.edges ensures EdgeOk(e'.source, e'.policy, a, e'.edges[a]) {
      assert EdgeOk(e.source, e.policy, a, e.edges[a]);
      IdledWeight(e.policy, e.edges[a]);
    }
  }

  lemma PruneKeeps(e: Engine)
    requires Inv(e)
    ensures Inv(Prune(e).0)
  {
    var e' := Prune(e).0;
    FeedbackElsewhere(e.edges, e'.edges, e.order);
    forall a | a in e'.edges ensures EdgeOk(e'.source, e'.policy, a, e'.edges[a]) {
      assert EdgeOk(e.source, e.policy, a, e.edges[a]);
    }
  }

  lemma StepKeeps(e: Engine, op: Op)
    requires Inv(e) && Ready(e, op)
    ensures Inv(Step(e, op))
  {
    match op
    case Add(l) => AddKeeps(e, l);
    case DoRecord(attempt, success) => RecordKeeps(e, attempt, success, attempt.agent);
    case DoFeedback(m, attempt, success, source, target) => RecordKeeps(e, attempt, success, target);
    case Idle => IdleKeeps(e);
    case DoPrune => PruneKeeps(e);
  }

  // ---- Theorems over runs ----

  // What later states keep: applied attempts and messages stay applied.
  predicate Later(e: Engine, e': Engine) {
    e.attempts <= e'.attempts && e.messages <= e'.messages && e.source == e'.source && e.policy == e'.policy
    && e.edges.Keys <= e'.edges.Keys
  }

  lemma StepIsLater(e: Engine, op: Op)
    ensures Later(e, Step(e, op))
  {
  }

  lemma RunKeeps(e: Engine, ops: seq<Op>)
    requires Inv(e) && Allowed(Ready, Step, e, ops)
    ensures Inv(Run(Step, e, ops)) && Later(e, Run(Step, e, ops))
  {
    forall v, o | Inv(v) && Ready(v, o)
      ensures Inv(Step(v, o)) && Later(v, Step(v, o))
    {
      StepKeeps(v, o);
      StepIsLater(v, o);
    }
    Invariant(Ready, Step, Inv, e, ops);
    Relation(Ready, Step, Inv, Later, e, ops);
  }

  lemma EmptyOk(source: Agent, policy: Policy)
    requires PolicyOk(policy)
    ensures Inv(Empty(source, policy))
  {
  }

  // With positive decay every weight stays within its bound, and the summed feedback counts are
  // the number of distinct attempts ever applied.
  lemma WeightsAndFeedback(source: Agent, policy: Policy, ops: seq<Op>)
    requires PolicyOk(policy) && Allowed(Ready, Step, Empty(source, policy), ops)
    ensures var e := Run(Step, Empty(source, policy), ops);
            && (policy.decay > 0.0 ==>
                  forall a :: a in e.edges ==> 0.0 <= e.edges[a].weight <= Ceiling(policy, e.edges[a].spec.weight))
            && Feedback(e.edges, e.order) == |e.attempts|
  {
    EmptyOk(source, policy);
    RunKeeps(Empty(source, policy), ops);
    var e := Run(Step, Empty(source, policy), ops);
    forall a | a in e.edges && policy.decay > 0.0
      ensures 0.0 <= e.edges[a].weight <= Ceiling(policy, e.edges[a].spec.weight)
    {
      assert EdgeOk(e.source, e.policy, a, e.edges[a]);
    }
  }

  // Feedback that was applied once changes nothing when it is delivered again, whatever happened
  // in between.
  lemma RedeliveryChangesNothing(e: Engine, message: string, attempt: Attempt, success: bool, source: Agent,
                                 target: Agent, ops: seq<Op>, again: bool)
    requires Inv(e) && RecordFeedback(e, message, attempt, success, source, target).1 == Ok(true)
    requires Allowed(Ready, Step, RecordFeedback(e, message, attempt, success, source, target).0, ops)
    ensures var later := Run(Step, RecordFeedback(e, message, attempt, success, source, target).0, ops);
            && RecordFeedback(later, message, attempt, again, source, target) == (later, Ok(false))
            && Record(later, attempt, again, target) == (later, Ok(false))
  {
    StepKeeps(e, DoFeedback(message, attempt, success, source, target));
    RunKeeps(RecordFeedback(e, message, attempt, success, source, target).0, ops);
  }

  // Without decay the weight of a link grows by a full reinforcement with every success: no bound
  // holds.
  function Successes(a: Agent, base: nat, n: nat): seq<Op> {
    if n == 0 then [] else Successes(a, base, n - 1) + [DoRecord(Attempt("t", a, base + n), true)]
  }

  lemma SuccessWithoutDecay(p: Policy, edge: Edge)
    requires PolicyOk(p) && p.decay == 0.0 && edge.weight >= 0.0
    ensures Updated(p, edge, true).weight == edge.weight + Gain(p)
  {
    Product(p.reinforcement, p.quality);
    assert (1.0 - p.decay) * edge.weight == edge.weight;
  }

  function Piled(weight: real, n: nat, gain: real): real {
    if n == 0 then weight else Piled(weight, n - 1, gain) + gain
  }

  lemma {:induction false} PiledIs(weight: real, n: nat, gain: real)
    ensures Piled(weight, n, gain) == weight + n as real * gain
  {
    if n > 0 {
      PiledIs(weight, n - 1, gain);
      assert (n - 1) as real * gain + gain == n as real * gain;
    }
  }

  // The link to `a` after `n` successes, each a full reinforcement heavier than before. No attempt
  // on record has a number past `base + n`, so the next one is new.
  predicate Grew(e: Engine, e': Engine, a: Agent, base: nat, n: nat) {
    && a in e.edges && a in e'.edges && e'.edges[a].active && e'.edges[a].weight >= 0.0 && e'.policy == e.policy
    && (forall x :: x in e'.attempts ==> x.number <= base + n)
    && e'.edges[a].weight == Piled(e.edges[a].weight, n, Gain(e.policy))
  }

  lemma GrowsOnce(e: Engine, before: Engine, a: Agent, base: nat, n: nat)
    requires Grew(e, before, a, base, n) && PolicyOk(e.policy) && e.policy.decay == 0.0
    ensures Grew(e, Step(before, DoRecord(Attempt("t", a, base + n + 1), true)), a, base, n + 1)
  {
    SuccessWithoutDecay(e.policy, before.edges[a]);
    Product(e.policy.reinforcement, e.policy.quality);
  }

  lemma {:induction false} NoDecayNoBound(e: Engine, a: Agent, base: nat, n: nat)
    requires PolicyOk(e.policy) && e.policy.decay == 0.0 && Grew(e, e, a, base, 0)
    ensures Allowed(Ready, Step, e, Successes(a, base, n)) && Grew(e, Run(Step, e, Successes(a, base, n)), a, base, n)
  {
    if n == 0 {
      assert Run(Step, e, []) == e;
    } else {
      NoDecayNoBound(e, a, base, n - 1);
      GrowsOnce(e, Run(Step, e, Successes(a, base, n - 1)), a, base, n - 1);
      RunSnoc(Ready, Step, e, Successes(a, base, n - 1), DoRecord(Attempt("t", a, base + n), true));
    }
  }

  lemma Exceeds(weight: real, gain: real, bound: real) returns (n: nat)
    requires gain > 0.0
    ensures Piled(weight, n, gain) > bound
  {
    var x := (bound - weight) / gain;
    n := if x < 0.0 then 0 else x.Floor + 1;
    PiledIs(weight, n, gain);
    assert x * gain == bound - weight;
    assert (n as real - x) * gain > 0.0;
  }

  lemma {:induction false} HighestNumber(attempts: set<Attempt>) returns (base: nat)
    ensures forall x :: x in attempts ==> x.number <= base
  {
    if attempts == {} {
      base := 0;
    } else {
      var y :| y in attempts;
      base := HighestNumber(attempts - {y});
      base := if base < y.number then y.number else base;
    }
  }

  // So, with a link that still takes feedback, some run exceeds any bound.
  lemma AnyBoundIsExceeded(e: Engine, a: Agent, bound: real)
    requires Inv(e) && e.policy.decay == 0.0 && a in e.edges && e.edges[a].active
    ensures exists ops :: Allowed(Ready, Step, e, ops) && a in Run(Step, e, ops).edges
                          && Run(Step, e, ops).edges[a].weight > bound
  {
    assert EdgeOk(e.source, e.policy, a, e.edges[a]);
    Product(e.policy.reinforcement, e.policy.quality);
    var n := Exceeds(e.edges[a].weight, Gain(e.policy), bound);
    var base := HighestNumber(e.attempts);
    NoDecayNoBound(e, a, base, n);
    assert Allowed(Ready, Step, e, Successes(a, base, n));
  }

  // ---- Pruning ----

  lemma {:induction false} PrunedWhere(p: Policy, edges: map<Agent, Edge>, order: seq<Agent>, count: int)
    requires forall i, j :: 0 <= i < j < |order| ==> order[i] != order[j]
    ensures var pruned := PrunedOf(p, edges, order, count);
            && (forall a :: a in pruned ==> a in order && a in edges && Prunable(p, edges[a]))
            && (pruned != [] ==> count - |pruned| >= p.minActive)
            && (forall a :: a in order && a in edges && Prunable(p, edges[a]) && a !in pruned ==>
                  count - |pruned| <= p.minActive)
            && ActiveCount(Deactivated(edges, pruned), order) + |pruned| == ActiveCount(edges, order)
  {
    if order != [] {
      var front, last := order[..|order| - 1], order[|order| - 1];
      PrunedWhere(p, edges, front, count);
      var before, pruned := PrunedOf(p, edges, front, count), PrunedOf(p, edges, order, count);
      assert last !in before;
      ActiveElsewhere(Deactivated(edges, before), Deactivated(edges, pruned), front, last);
    }
  }

  lemma {:induction false} ActiveElsewhere(edges: map<Agent, Edge>, edges': map<Agent, Edge>, order: seq<Agent>,
                                           a: Agent)
    requires a !in order && edges.Keys == edges'.Keys
    requires forall b :: b in edges && b != a ==> edges'[b].active == edges[b].active
    ensures ActiveCount(edges', order) == ActiveCount(edges, order)
  {
    if order != [] {
      assert order[|order| - 1] in order;
      ActiveElsewhere(edges, edges', order[..|order| - 1], a);
    }
  }

  // Pruning removes only active links that are not required, light and idle long enough; never
  // takes the active count below the smaller of what it was and the configured minimum; and stops
  // short of an eligible link only when the minimum forbids more.
  lemma PruneIsSafeAndMaximal(e: Engine)
    requires Inv(e)
    ensures var (e', pruned) := Prune(e);
            && (forall a :: a in pruned <==> a in e.edges && e.edges[a].active && !e'.edges[a].active)
            && (forall a :: a in pruned ==> a in e.edges && Prunable(e.policy, e.edges[a]))
            && (forall a :: a in e.edges && e.edges[a].spec.required ==> e'.edges[a] == e.edges[a])
            && ActiveCount(e'.edges, e.order) + |pruned| == ActiveCount(e.edges, e.order)
            && (ActiveCount(e'.edges, e.order) >= e.policy.minActive
                || ActiveCount(e'.edges, e.order) == ActiveCount(e.edges, e.order))
            && (forall a :: a in e.edges && Prunable(e.policy, e.edges[a]) && a !in pruned ==>
                  ActiveCount(e'.edges, e.order) <= e.policy.minActive)
  {
    PrunedWhere(e.policy, e.edges, e.order, ActiveCount(e.edges, e.order));
    var (e', pruned) := Prune(e);
    forall a | a in e.edges && Prunable(e.policy, e.edges[a]) && a !in pruned
      ensures ActiveCount(e'.edges, e.order) <= e.policy.minActive
    {
      assert a in e.order;
      var i :| 0 <= i < |e.order| && e.order[i] == a;
    }
  }
}
