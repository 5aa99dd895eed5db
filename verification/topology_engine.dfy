// The engine object and its loops.
module TopologyEngines {
  import opened Wrappers
  import opened TopologyModel
  import opened TopologyTheorems

  predicate Available(e: Engine, target: Agent) {
    target in e.edges && e.edges[target].active
  }

  class TopologyEngine {
    const source: Agent
    const policy: Policy
    var edges: map<Agent, Edge>
    var order: seq<Agent>
    var attempts: set<Attempt>
    var messages: set<string>

    constructor (source: Agent, policy: Policy)
      requires PolicyOk(policy)
      ensures State() == Empty(source, policy) && Valid()
    {
      this.source, this.policy := source, policy;
      edges, order, attempts, messages := map[], [], {}, {};
      new;
      EmptyOk(source, policy);
    }

    function State(): Engine
      reads this
    {
      Engine(source, policy, edges, order, attempts, messages)
    }

    ghost predicate Valid()
      reads this
    {
      Inv(State())
    }

    method Add(l: Link) returns (reply: Outcome<()>)
      requires Valid() && LinkOk(l)
      modifies this
      ensures Valid() && (State(), reply) == AddConnection(old(State()), l)
    {
      AddKeeps(State(), l);
      if l.src != source { return Err(WrongSource); }
      if l.dst in edges { return Err(Duplicate); }
      edges, order := edges[l.dst := Edge(l, l.weight, 0, 0, 0, true)], order + [l.dst];
      return Ok(());
    }

    // The heaviest available target; the earliest among equals.
    method Select(targets: seq<Agent>) returns (best: Option<Agent>)
      requires Valid()
      ensures best.None? <==> forall i :: 0 <= i < |targets| ==> !Available(State(), targets[i])
      ensures best.Some? ==>
                exists k :: 0 <= k < |targets| && targets[k] == best.value && Available(State(), targets[k])
                            && (forall i :: 0 <= i < |targets| && Available(State(), targets[i]) ==>
                                              edges[targets[i]].weight <= edges[targets[k]].weight)
                            && (forall i :: 0 <= i < k && Available(State(), targets[i]) ==>
                                              edges[targets[i]].weight < edges[targets[k]].weight)
    {
      best := None;
      var bestWeight := -1.0;
      ghost var k := -1;
      for n := 0 to |targets|
        invariant best.None? ==>
                    k == -1 && bestWeight == -1.0 && (forall i :: 0 <= i < n ==> !Available(State(), targets[i]))
        invariant best.Some? ==>
                    0 <= k < n && targets[k] == best.value && Available(State(), targets[k])
                    && bestWeight == edges[targets[k]].weight
                    && (forall i :: 0 <= i < n && Available(State(), targets[i]) ==>
                          edges[targets[i]].weight <= bestWeight)
                    && (forall i :: 0 <= i < k && Available(State(), targets[i]) ==>
                          edges[targets[i]].weight < bestWeight)
      {
        var target := targets[n];
        if target in edges && edges[target].active {
          assert EdgeOk(source, policy, target, edges[target]);
          if edges[target].weight > bestWeight {
            best, bestWeight, k := Some(target), edges[target].weight, n;
          }
        }
      }
    }

    method DoRecord(attempt: Attempt, success: bool, target: Agent) returns (reply: Outcome<bool>)
      requires Valid()
      modifies this
      ensures Valid() && (State(), reply) == Record(old(State()), attempt, success, target)
    {
      RecordKeeps(State(), attempt, success, target);
      if attempt in attempts { return Ok(false); }
      if target !in edges { return Err(NoConnection); }
      if !edges[target].active { return Err(Inactive); }
      edges := edges[target := Updated(policy, edges[target], success)];
      attempts := attempts + {attempt};
      return Ok(true);
    }

    method DoRecordFeedback(message: string, attempt: Attempt, success: bool, routeSource: Agent, routeTarget: Agent)
      returns (reply: Outcome<bool>)
      requires Valid()
      modifies this
      ensures Valid()
      ensures (State(), reply) == RecordFeedback(old(State()), message, attempt, success, routeSource, routeTarget)
    {
      if routeSource != source { return Err(WrongSource); }
      if routeTarget != attempt.agent { return Err(WrongTarget); }
      if message in messages || attempt in attempts { return Ok(false); }
      reply := DoRecord(attempt, success, routeTarget);
      if reply == Ok(true) {
        messages := messages + {message};
      }
    }

    method AdvanceIdle()
      requires Valid()
      modifies this
      ensures Valid() && State() == AdvanceIdleWindow(old(State()))
    {
      IdleKeeps(State());
      var idled: map<Agent, Edge> := map[];
      for i := 0 to |order|
        invariant State() == old(State())
        invariant forall k :: 0 <= k < i ==> order[k] in idled
        invariant forall a :: a in idled ==> a in edges && idled[a] == Idled(policy, edges[a])
      {
        idled := idled[order[i] := Idled(policy, edges[order[i]])];
      }
      forall a | a in edges ensures a in idled {
        assert a in order;
      }
      assert idled == AdvanceIdleWindow(State()).edges;
      edges := idled;
    }

    method PruneLinks() returns (pruned: seq<Agent>)
      requires Valid()
      modifies this
      ensures Valid() && (State(), pruned) == Prune(old(State()))
    {
      PruneKeeps(State());
      pruned, edges := PruneLoop(policy, edges, order);
    }
  }

  // The pruning loop after the agents of `done`.
  predicate Walked(p: Policy, edges: map<Agent, Edge>, done: seq<Agent>, all: int, pruned: seq<Agent>,
                   current: map<Agent, Edge>) {
    && pruned == PrunedOf(p, edges, done, all) && current == Deactivated(edges, pruned)
    && (forall a :: a in pruned ==> a in done)
  }

  lemma WalkOne(p: Policy, edges: map<Agent, Edge>, done: seq<Agent>, all: int, pruned: seq<Agent>,
                current: map<Agent, Edge>, a: Agent)
    requires Walked(p, edges, done, all, pruned, current) && a in edges && a !in done
    ensures current[a] == edges[a]
    ensures if Prunable(p, edges[a]) && all - |pruned| > p.minActive
            then Walked(p, edges, done + [a], all, pruned + [a], current[a := edges[a].(active := false)])
            else Walked(p, edges, done + [a], all, pruned, current)
  {
    assert (done + [a])[..|done + [a]| - 1] == done;
    assert Deactivated(edges, pruned + [a]) == current[a := edges[a].(active := false)];
  }

  method CountActive(edges: map<Agent, Edge>, order: seq<Agent>) returns (count: nat)
    requires forall i :: 0 <= i < |order| ==> order[i] in edges
    ensures count == ActiveCount(edges, order)
  {
    count := 0;
    for i := 0 to |order|
      invariant count == ActiveCount(edges, order[..i])
    {
      assert order[..i + 1][..i] == order[..i];
      if edges[order[i]].active { count := count + 1; }
    }
    assert order[..|order|] == order;
  }

  lemma NotYetListed(order: seq<Agent>, agents: set<Agent>, i: nat)
    requires Orders(order, agents) && i < |order|
    ensures order[i] in agents && order[i] !in order[..i] && order[..i + 1] == order[..i] + [order[i]]
  {
  }

  method PruneOne(p: Policy, current: map<Agent, Edge>, pruned: seq<Agent>, count: int, a: Agent,
                  ghost edges: map<Agent, Edge>, ghost done: seq<Agent>)
    returns (current': map<Agent, Edge>, pruned': seq<Agent>, count': int)
    requires a in edges && a !in done && Walked(p, edges, done, count + |pruned|, pruned, current)
    ensures Walked(p, edges, done + [a], count + |pruned|, pruned', current')
    ensures count' + |pruned'| == count + |pruned|
  {
    WalkOne(p, edges, done, count + |pruned|, pruned, current, a);
    var edge := current[a];
    if edge.active && !edge.spec.required && edge.weight < p.threshold && edge.idle >= p.idleLimit
       && count > p.minActive {
      return current[a := edge.(active := false)], pruned + [a], count - 1;
    }
    return current, pruned, count;
  }

  method PruneLoop(p: Policy, edges: map<Agent, Edge>, order: seq<Agent>)
    returns (pruned: seq<Agent>, current: map<Agent, Edge>)
    requires Orders(order, edges.Keys)
    ensures pruned == PrunedOf(p, edges, order, ActiveCount(edges, order)) && current == Deactivated(edges, pruned)
  {
    var count: int := CountActive(edges, order);
    ghost var all := count;
    pruned, current := [], edges;
    for i := 0 to |order|
      invariant all == count + |pruned| && Walked(p, edges, order[..i], all, pruned, current)
    {
      NotYetListed(order, edges.Keys, i);
      current, pruned, count := PruneOne(p, current, pruned, count, order[i], edges, order[..i]);
    }
    assert order[..|order|] == order;
  }
}
