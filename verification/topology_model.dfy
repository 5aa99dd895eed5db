// One source's outgoing links as a value, and each engine operation as a function on it.
module TopologyModel {
  import opened Wrappers

  type Agent = string

  datatype Attempt = Attempt(taskId: string, agent: Agent, number: nat)

  datatype Policy = Policy(decay: real, reinforcement: real, quality: real, threshold: real, idleLimit: nat,
                           minActive: nat)

  predicate PolicyOk(p: Policy) {
    0.0 <= p.decay < 1.0 && p.reinforcement > 0.0 && p.quality > 0.0 && p.threshold >= 0.0 && p.idleLimit >= 1
  }

  datatype Link = Link(src: Agent, dst: Agent, weight: real, required: bool)

  predicate LinkOk(l: Link) {
    l.weight >= 0.0 && l.src != l.dst
  }

  datatype Edge = Edge(spec: Link, weight: real, feedback: nat, successes: nat, idle: nat, active: bool)

  // `order` is the insertion order of the edges.
  datatype Engine = Engine(source: Agent, policy: Policy, edges: map<Agent, Edge>, order: seq<Agent>,
                           attempts: set<Attempt>, messages: set<string>)

  datatype TopologyError = WrongSource | WrongTarget | Duplicate | NoConnection | Inactive

  type Outcome<T> = Result<T, TopologyError>

  function Empty(source: Agent, policy: Policy): Engine {
    Engine(source, policy, map[], [], {}, {})
  }

  function AddConnection(e: Engine, l: Link): (Engine, Outcome<()>) {
    if l.src != e.source then (e, Err(WrongSource))
    else if l.dst in e.edges then (e, Err(Duplicate))
    else (e.(edges := e.edges[l.dst := Edge(l, l.weight, 0, 0, 0, true)], order := e.order + [l.dst]), Ok(()))
  }

  function Max(a: real, b: real): real {
    if a < b then b else a
  }

  // What one success adds.
  function Gain(p: Policy): real {
    p.reinforcement * p.quality
  }

  function Updated(p: Policy, edge: Edge, success: bool): Edge {
    edge.(weight := Max(0.0, (1.0 - p.decay) * edge.weight + (if success then Gain(p) else 0.0)),
          feedback := edge.feedback + 1,
          successes := edge.successes + (if success then 1 else 0),
          idle := 0)
  }

  // `_record`: true when the feedback changed the topology.
  function Record(e: Engine, attempt: Attempt, success: bool, target: Agent): (Engine, Outcome<bool>) {
    if attempt in e.attempts then (e, Ok(false))
    else if target !in e.edges then (e, Err(NoConnection))
    else if !e.edges[target].active then (e, Err(Inactive))
    else
      (e.(edges := e.edges[target := Updated(e.policy, e.edges[target], success)],
          attempts := e.attempts + {attempt}), Ok(true))
  }

  function RecordFeedback(e: Engine, message: string, attempt: Attempt, success: bool, source: Agent, target: Agent)
    : (Engine, Outcome<bool>)
  {
    if source != e.source then (e, Err(WrongSource))
    else if target != attempt.agent then (e, Err(WrongTarget))
    else if message in e.messages || attempt in e.attempts then (e, Ok(false))
    else
      var (e', r) := Record(e, attempt, success, target);
      if r == Ok(true) then (e'.(messages := e.messages + {message}), r) else (e', r)
  }

  function Idled(p: Policy, edge: Edge): Edge {
    if edge.active then edge.(weight := edge.weight * (1.0 - p.decay), idle := edge.idle + 1) else edge
  }

  function AdvanceIdleWindow(e: Engine): Engine {
    e.(edges := map a | a in e.edges :: Idled(e.policy, e.edges[a]))
  }

  // ---- Pruning ----

  // The number of active edges among the agents listed.
  function ActiveCount(edges: map<Agent, Edge>, order: seq<Agent>): nat {
    if order == [] then 0
    else
      var last := order[|order| - 1];
      ActiveCount(edges, order[..|order| - 1]) + (if last in edges && edges[last].active then 1 else 0)
  }

  predicate Prunable(p: Policy, edge: Edge) {
    edge.active && !edge.spec.required && edge.weight < p.threshold && edge.idle >= p.idleLimit
  }

  // The agents pruned while walking `order` with `count` active edges at the start.
  function PrunedOf(p: Policy, edges: map<Agent, Edge>, order: seq<Agent>, count: int): seq<Agent> {
    if order == [] then []
    else
      var front, last := PrunedOf(p, edges, order[..|order| - 1], count), order[|order| - 1];
      if last in edges && Prunable(p, edges[last]) && count - |front| > p.minActive then front + [last] else front
  }

  function Deactivated(edges: map<Agent, Edge>, agents: seq<Agent>): map<Agent, Edge> {
    map a | a in edges :: if a in agents then edges[a].(active := false) else edges[a]
  }

  function Prune(e: Engine): (Engine, seq<Agent>) {
    var pruned := PrunedOf(e.policy, e.edges, e.order, ActiveCount(e.edges, e.order));
    (e.(edges := Deactivated(e.edges, pruned)), pruned)
  }
}
