// Runs of a state machine, and induction over them.
module Runs {
  // The state after a sequence of steps.
  function Run<W, O>(step: (W, O) -> W, w: W, ops: seq<O>): W
    decreases |ops|
  {
    if ops == [] then w else Run(step, step(w, ops[0]), ops[1..])
  }

  // Every step is allowed in the state it is taken in.
  predicate Allowed<W, O>(ready: (W, O) -> bool, step: (W, O) -> W, w: W, ops: seq<O>)
    decreases |ops|
  {
    ops == [] || (ready(w, ops[0]) && Allowed(ready, step, step(w, ops[0]), ops[1..]))
  }

  lemma {:induction false} Invariant<W(!new), O(!new)>(ready: (W, O) -> bool, step: (W, O) -> W, inv: W -> bool,
                                                       w: W, ops: seq<O>)
    requires forall v, o :: inv(v) && ready(v, o) ==> inv(step(v, o))
    requires inv(w) && Allowed(ready, step, w, ops)
    ensures inv(Run(step, w, ops))
    decreases |ops|
  {
    if ops != [] {
      Invariant(ready, step, inv, step(w, ops[0]), ops[1..]);
    }
  }

  // A transitive relation that every step from a good state satisfies relates both ends of a run.
  lemma {:induction false} Relation<W(!new), O(!new)>(ready: (W, O) -> bool, step: (W, O) -> W, inv: W -> bool,
                                                      rel: (W, W) -> bool, w: W, ops: seq<O>)
    requires forall v, o :: inv(v) && ready(v, o) ==> inv(step(v, o)) && rel(v, step(v, o))
    requires forall v :: rel(v, v)
    requires forall a, b, c :: rel(a, b) && rel(b, c) ==> rel(a, c)
    requires inv(w) && Allowed(ready, step, w, ops)
    ensures rel(w, Run(step, w, ops))
    decreases |ops|
  {
    if ops != [] {
      Relation(ready, step, inv, rel, step(w, ops[0]), ops[1..]);
    }
  }

  lemma {:induction false} RunSnoc<W(!new), O(!new)>(ready: (W, O) -> bool, step: (W, O) -> W, w: W, ops: seq<O>, o: O)
    requires Allowed(ready, step, w, ops) && ready(Run(step, w, ops), o)
    ensures Allowed(ready, step, w, ops + [o])
    ensures Run(step, w, ops + [o]) == step(Run(step, w, ops), o)
    decreases |ops|
  {
    if ops == [] {
      assert ops + [o] == [o] && [o][1..] == [];
    } else {
      assert (ops + [o])[1..] == ops[1..] + [o];
      RunSnoc(ready, step, step(w, ops[0]), ops[1..], o);
    }
  }
}
