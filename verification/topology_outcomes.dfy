// What each topology operation answers and changes, in the links' own columns.
module TopologyOutcomes {
  import opened Wrappers
  import opened TopologyModel
  import opened TopologyTheorems

  // ---- Feedback ----

  // A success moves a link to its balance point, where reinforcement makes up for decay, by the share
  // of the decay; a failure takes that share of its weight.
  predicate Moved(p: Policy, edge: Edge, edge': Edge, success: bool) {
    && edge' == edge.(weight := edge'.weight, feedback := edge.feedback + 1,
                      successes := if success then edge.successes + 1 else edge.successes, idle := 0)
    && (!success ==> edge.weight - edge'.weight == p.decay * edge.weight)
    && (success && p.decay == 0.0 ==> edge'.weight - edge.weight == p.reinforcement * p.quality)
    && (success && p.decay > 0.0 ==>
          var balance := p.reinforcement * p.quality / p.decay;
          edge'.weight - edge.weight == p.decay * (balance - edge.weight))
  }

  lemma NearsBalance(decay: real, gain: real, weight: real)
    requires decay > 0.0
    ensures (1.0 - decay) * weight + gain - weight == decay * (gain / decay - weight)
  {
    var balance :| balance == gain / decay;
    assert decay * balance == gain;
    assert decay * (balance - weight) == decay * balance - decay * weight;
  }

  lemma UpdateMoves(p: Policy, edge: Edge, success: bool)
    requires PolicyOk(p) && edge.weight >= 0.0
    ensures Moved(p, edge, Updated(p, edge, success), success)
  {
    Product(p.reinforcement, p.quality);
    Shrunk(p.decay, edge.weight);
    if p.decay > 0.0 { NearsBalance(p.decay, Gain(p), edge.weight); }
    assert (1.0 - p.decay) * edge.weight == edge.weight - p.decay * edge.weight;
  }

  // Feedback of an attempt is applied exactly when it is new and its link is active: it moves that link
  // and no other, and is remembered. A known attempt changes nothing.
  lemma FeedbackApplies(e: Engine, attempt: Attempt, success: bool, target: Agent)
    requires Inv(e)
    ensures var (e', reply) := Record(e, attempt, success, target);
            && (reply == Ok(false) <==> attempt in e.attempts)
            && (reply == Ok(true) <==> attempt !in e.attempts && target in e.edges && e.edges[target].active)
            && (reply != Ok(true) ==> e' == e)
            && (reply == Ok(true) ==>
                  && target in e'.edges && Moved(e.policy, e.edges[target], e'.edges[target], success)
                  && e' == e.(edges := e.edges[target := e'.edges[target]], attempts := e'.attempts)
                  && e'.attempts == e.attempts + {attempt})
  {
    if target in e.edges {
      assert EdgeOk(e.source, e.policy, target, e.edges[target]);
      UpdateMoves(e.policy, e.edges[target], success);
    }
  }

  // A message is feedback for this engine's route to the agent that made the attempt, or refused; it is
  // applied once, as its attempt is, and then remembered as well.
  lemma MessagesApply(e: Engine, message: string, attempt: Attempt, success: bool, source: Agent, target: Agent)
    requires Inv(e)
    ensures var (e', reply) := RecordFeedback(e, message, attempt, success, source, target);
            var routed := source == e.source && target == attempt.agent;
            && (!routed ==> reply.Err? && e' == e)
            && (routed && (message in e.messages || attempt in e.attempts) ==> reply == Ok(false) && e' == e)
            && (routed && message !in e.messages && attempt !in e.attempts ==>
                  && reply == Record(e, attempt, success, target).1
                  && e' == Record(e, attempt, success, target).0.(messages := e'.messages)
                  && e'.messages == if reply == Ok(true) then e.messages + {message} else e.messages)
  {
  }

  // ---- Links and idling ----

  // A link of this source to a new target is installed last, fresh and active; any other is refused.
  lemma LinksAreAdded(e: Engine, l: Link)
    ensures var (e', reply) := AddConnection(e, l);
            && (reply.Ok? <==> l.src == e.source && l.dst !in e.edges)
            && (reply.Ok? ==>
                  e' == e.(edges := e.edges[l.dst := Edge(l, l.weight, 0, 0, 0, true)], order := e.order + [l.dst]))
            && (reply.Err? ==> e' == e)
  {
  }

  // One idle window takes the decay's share of every active link and counts on it; pruned links and
  // everything else stay.
  lemma IdlingDecays(e: Engine)
    ensures var e' := AdvanceIdleWindow(e);
            && e' == e.(edges := e'.edges) && e'.edges.Keys == e.edges.Keys
            && forall a :: a in e.edges ==>
                 if e.edges[a].active then
                   e'.edges[a] == e.edges[a].(weight := e'.edges[a].weight, idle := e.edges[a].idle + 1)
                   && e.edges[a].weight - e'.edges[a].weight == e.policy.decay * e.edges[a].weight
                 else e'.edges[a] == e.edges[a]
  {
    forall a | a in e.edges && e.edges[a].active
      ensures e.edges[a].weight - Idled(e.policy, e.edges[a]).weight == e.policy.decay * e.edges[a].weight
    {
      LeavesRest(e.edges[a].weight, e.policy.decay);
    }
  }

  lemma LeavesRest(weight: real, decay: real)
    ensures weight - weight * (1.0 - decay) == decay * weight
  {
  }

  // ---- Pruning ----

  // Active, not required, lighter than the threshold and idle for the configured windows.
  predicate Dispensable(p: Policy, edge: Edge) {
    edge.active && !edge.spec.required && edge.weight < p.threshold && p.idleLimit <= edge.idle
  }

  predicate DispensableAt(e: Engine, i: int) {
    0 <= i < |e.order| && e.order[i] in e.edges && Dispensable(e.policy, e.edges[e.order[i]])
  }

  function ActiveAgents(e: Engine): set<Agent> {
    set a | a in e.edges && e.edges[a].active
  }

  lemma {:induction false} CountsActive(edges: map<Agent, Edge>, order: seq<Agent>)
    requires forall i, j :: 0 <= i < j < |order| ==> order[i] != order[j]
    ensures ActiveCount(edges, order) == |set a | a in order && a in edges && edges[a].active|
  {
    if order != [] {
      var front, last := order[..|order| - 1], order[|order| - 1];
      CountsActive(edges, front);
      assert order == front + [last] && last !in front;
      assert (set a | a in order && a in edges && edges[a].active) ==
             (set a | a in front && a in edges && edges[a].active)
             + (if last in edges && edges[last].active then {last} else {});
    }
  }

  lemma CountsAgents(e: Engine)
    requires OrderOk(e)
    ensures ActiveCount(e.edges, e.order) == |ActiveAgents(e)|
  {
    CountsActive(e.edges, e.order);
    assert ActiveAgents(e) == set a | a in e.order && a in e.edges && e.edges[a].active;
  }

  // The pruned links are the earliest dispensable ones.
  lemma {:induction false} EarliestPruned(p: Policy, edges: map<Agent, Edge>, order: seq<Agent>, count: int, i: nat,
                                          j: nat)
    requires forall i, j :: 0 <= i < j < |order| ==> order[i] != order[j]
    requires i < j < |order| && order[i] in edges && Prunable(p, edges[order[i]])
    requires order[j] in PrunedOf(p, edges, order, count)
    ensures order[i] in PrunedOf(p, edges, order, count)
    decreases |order|
  {
    var n := |order| - 1;
    var front := order[..n];
    PrunedWhere(p, edges, front, count);
    if j < n {
      assert front[i] == order[i] && front[j] == order[j];
      EarliestPruned(p, edges, front, count, i, j);
    } else {
      assert order[n] !in front;
      assert front[i] == order[i] && order[i] in front;
    }
  }

  // Pruning deactivates dispensable links only, in the order they were installed, and stops where the
  // next would leave fewer than the minimum active.
  lemma PrunesEarliestDispensable(e: Engine)
    requires Inv(e)
    ensures var (e', pruned) := Prune(e);
            && e' == e.(edges := e'.edges) && e'.edges.Keys == e.edges.Keys
            && (forall a :: a in e.edges ==>
                  e'.edges[a] == e.edges[a].(active := e.edges[a].active && a !in pruned))
            && (forall a :: a in pruned ==> a in e.edges && Dispensable(e.policy, e.edges[a]))
            && (forall i, j :: 0 <= i < j < |e.order| && e.order[j] in pruned && DispensableAt(e, i) ==>
                                 e.order[i] in pruned)
            && (pruned != [] ==> |ActiveAgents(e')| >= e.policy.minActive)
            && ((exists a :: a in e.edges && Dispensable(e.policy, e.edges[a]) && a !in pruned) ==>
                  |ActiveAgents(e')| <= e.policy.minActive)
  {
    var (e', pruned) := Prune(e);
    PruneIsSafeAndMaximal(e);
    PruneKeeps(e);
    CountsAgents(e);
    CountsAgents(e');
    PrunedWhere(e.policy, e.edges, e.order, ActiveCount(e.edges, e.order));
    forall i, j | 0 <= i < j < |e.order| && e.order[j] in pruned && DispensableAt(e, i)
      ensures e.order[i] in pruned
    {
      EarliestPruned(e.policy, e.edges, e.order, ActiveCount(e.edges, e.order), i, j);
    }
    if a :| a in e.edges && Dispensable(e.policy, e.edges[a]) && a !in pruned {
      assert Prunable(e.policy, e.edges[a]);
    }
  }
}
