// The field object: local rows, stored facts and the derived tables.
module PheromoneFields {
  import opened Wrappers
  import opened Sorting
  import opened PheromoneModel
  import opened PheromoneTheorems

  // The dictionary that keeps one fact per source and kind.
  method UniqueFacts(facts: seq<Fact>) returns (unique: seq<Fact>)
    ensures unique == Unique(facts)
  {
    unique := [];
    for i := 0 to |facts|
      invariant unique == Unique(facts[..i])
    {
      assert facts[..i + 1][..i] == facts[..i];
      unique := Put(unique, facts[i]);
    }
    assert facts[..|facts|] == facts;
  }

  // The loop of `project`.
  method ProjectFacts(t: Tuning, tasks: map<string, Task>, facts: seq<Fact>) returns (reply: Outcome<Learned>)
    requires t.tau != 0.0
    ensures reply == Project(t, tasks, facts)
  {
    var unique := UniqueFacts(facts);
    var ordered := Sort(Earlier, unique);
    var signals: map<string, Trace>, history: map<Pipe, Habit> := map[], map[];
    for i := 0 to |ordered|
      invariant Fold(t, tasks, ordered[..i]) == Ok(Learned(signals, history))
    {
      assert ordered[..i + 1][..i] == ordered[..i];
      var f := ordered[i];
      var l := Learned(signals, history);
      if f.taskId !in tasks {
        FoldFails(t, tasks, ordered, i + 1);
        return Err(Unknown);
      }
      var trace, habit := TraceOf(l, f.taskId, tasks[f.taskId]), HabitOf(l, f);
      if f.at < trace.at || f.at < habit.at {
        FoldFails(t, tasks, ordered, i + 1);
        return Err(NegativeElapsed);
      }
      signals := signals[f.taskId := Strengthened(t, trace, f.at)];
      history := history[(f.workerId, f.pipeKey) := Practised(t, habit, f.at)];
    }
    assert ordered[..|ordered|] == ordered;
    return Ok(Learned(signals, history));
  }

  lemma {:induction false} FoldFails(t: Tuning, tasks: map<string, Task>, s: seq<Fact>, i: nat)
    requires t.tau != 0.0 && i <= |s| && Fold(t, tasks, s[..i]).Err?
    ensures Fold(t, tasks, s) == Fold(t, tasks, s[..i])
    decreases |s| - i
  {
    if i < |s| {
      assert s[..i + 1][..i] == s[..i];
      FoldFails(t, tasks, s, i + 1);
    } else {
      assert s[..i] == s;
    }
  }

  class PheromoneField {
    const tuning: Tuning
    var tasks: map<string, Task>                 // the ledger's task rows
    var local: map<string, LocalRow>             // `pheromones`
    var practice: map<Pipe, Habit>               // `pipe_history`
    var facts: map<FactKey, Fact>                // `learning_facts`
    var learned: Learned                         // `learned_signals` and `learned_history`

    constructor (tuning: Tuning)
      requires TuningOk(tuning)
      ensures Valid() && this.tuning == tuning && tasks == map[] && facts == map[]
    {
      this.tuning := tuning;
      tasks, local, practice, facts, learned := map[], map[], map[], map[], NOTHING;
      new;
      EmptyIndex(tuning);
    }

    function State(): Index
      reads this
    {
      Index(facts, learned)
    }

    // The derived tables are the projection of the stored facts, and every reading is in range.
    ghost predicate Valid()
      reads this
    {
      && TuningOk(tuning) && TasksOk(tasks) && IndexOk(tuning, tasks, State()) && LearnedOk(learned)
      && (forall id :: id in local ==> RowOk(local[id]))
      && (forall p :: p in practice ==> 0.0 <= practice[p].weight <= 1.0)
    }

    function AnchorOf(id: string): LocalRow
      requires id in tasks
      reads this
    {
      Anchor(tasks[id], Lookup(local, id), Lookup(learned.signals, id))
    }

    function HabitAt(pipe: Pipe): Option<Habit>
      reads this
    {
      if pipe in learned.history then Some(learned.history[pipe]) else Lookup(practice, pipe)
    }

    // `TaskLedger.enqueue` of a task: a known one keeps its row.
    method Enqueue(id: string, task: Task)
      requires Valid() && 0.0 <= task.concentration <= CEILING
      modifies this`tasks
      ensures Valid() && tasks == (if id in old(tasks) then old(tasks) else old(tasks)[id := task])
    {
      if id !in tasks {
        IndexStable(tuning, tasks, tasks[id := task], State());
        tasks := tasks[id := task];
      }
    }

    method Deposit(id: string, signalId: string, delta: real, now: real) returns (reply: Outcome<LocalRow>)
      requires Valid() && id in tasks
      modifies this`local
      ensures Valid()
      ensures reply == Deposited(tuning, tasks[id], Lookup(old(local), id), Lookup(learned.signals, id), signalId,
                                 delta, now)
      ensures local == if reply.Ok? then old(local)[id := reply.value] else old(local)
    {
      if delta < 0.0 { return Err(Invalid); }
      var reading := ReadRow(tuning, AnchorOf(id), now);
      if reading.Err? { return Err(reading.error); }
      var c := reading.value.concentration;
      if signalId == tasks[id].signalId {
        c := c + delta;
        if c > CEILING { return Err(Invalid); }
      }
      var row := LocalRow(c, now, reading.value.multiplier);
      DepositedOk(tuning, tasks[id], Lookup(local, id), Lookup(learned.signals, id), signalId, delta, now);
      local := local[id := row];
      return Ok(row);
    }

    method Feedback(id: string, success: bool, reward: real, now: real) returns (reply: Outcome<LocalRow>)
      requires Valid()
      modifies this`local
      ensures Valid()
      ensures id in local && id in tasks && 0.0 <= reward <= 1.0 ==>
                reply == FedBack(tuning, tasks[id], Lookup(old(local), id), Lookup(learned.signals, id), success,
                                 reward, now)
      ensures id !in local || id !in tasks || reward < 0.0 || reward > 1.0 ==> reply.Err?
      ensures local == if reply.Ok? then old(local)[id := reply.value] else old(local)
    {
      if reward < 0.0 || reward > 1.0 { return Err(Invalid); }
      if id !in local || id !in tasks { return Err(Unknown); }
      reply := FedBack(tuning, tasks[id], Lookup(local, id), Lookup(learned.signals, id), success, reward, now);
      if reply.Ok? {
        FedBackOk(tuning, tasks[id], Lookup(local, id), Lookup(learned.signals, id), success, reward, now);
        local := local[id := reply.value];
      }
    }

    method Reinforce(worker: string, pipe: string, reward: real, prior: Option<real>, now: real)
      returns (reply: Outcome<Habit>)
      requires Valid()
      modifies this`practice
      ensures Valid()
      ensures reply == Reinforced(tuning, old(HabitAt((worker, pipe))), worker, pipe, reward, prior, now)
      ensures practice == if reply.Ok? then old(practice)[(worker, pipe) := reply.value] else old(practice)
    {
      reply := Reinforced(tuning, HabitAt((worker, pipe)), worker, pipe, reward, prior, now);
      if reply.Ok? {
        ReinforcedOk(tuning, HabitAt((worker, pipe)), worker, pipe, reward, prior, now);
        practice := practice[(worker, pipe) := reply.value];
      }
    }

    // All of the facts, or none: a refusal leaves the stored facts and the derived tables alone.
    method Synchronize(added: seq<Fact>, replace: bool) returns (reply: Outcome<()>)
      requires Valid()
      modifies this`facts, this`learned
      ensures Valid()
      ensures reply.Ok? ==> Stored(if replace then map[] else old(facts), added) == Ok(facts)
      ensures reply.Err? ==> State() == old(State())
    {
      var start: map<FactKey, Fact> := if replace then map[] else facts;
      var accepted := StoreAll(start, added);
      if accepted.Err? { return Err(accepted.error); }
      var stored := accepted.value;
      StoredOk(start, added);
      var listed := ListAll(stored);
      var projected := ProjectFacts(tuning, tasks, listed);
      if projected.Err? { return Err(projected.error); }
      SynchronizedOk(tuning, tasks, start, added, listed);
      LearnedIsBounded(tuning, tasks, listed);
      facts, learned := stored, projected.value;
      return Ok(());
    }
  }

  method StoreAll(start: map<FactKey, Fact>, added: seq<Fact>) returns (reply: Outcome<map<FactKey, Fact>>)
    ensures reply == Stored(start, added)
  {
    var stored := start;
    for i := 0 to |added|
      invariant Stored(start, added[..i]) == Ok(stored)
    {
      assert added[..i + 1][..i] == added[..i];
      var f := added[i];
      if exists k :: k in stored && k.0 == f.sourceId && k.1 != f.kind {
        StoringFails(start, added, i + 1);
        return Err(KindChanged);
      }
      if KeyOf(f) in stored && stored[KeyOf(f)] != f {
        StoringFails(start, added, i + 1);
        return Err(IdentityChanged);
      }
      stored := stored[KeyOf(f) := f];
    }
    assert added[..|added|] == added;
    return Ok(stored);
  }

  lemma {:induction false} StoringFails(start: map<FactKey, Fact>, added: seq<Fact>, i: nat)
    requires i <= |added| && Stored(start, added[..i]).Err?
    ensures Stored(start, added) == Stored(start, added[..i])
    decreases |added| - i
  {
    if i < |added| {
      assert added[..i + 1][..i] == added[..i];
      StoringFails(start, added, i + 1);
    } else {
      assert added[..i] == added;
    }
  }

  // The stored facts in some order.
  method ListAll(facts: map<FactKey, Fact>) returns (s: seq<Fact>)
    ensures (forall k :: k in facts ==> KeyOf(facts[k]) == k) ==> Lists(s, facts)
  {
    s := [];
    var todo := facts.Keys;
    while todo != {}
      invariant todo <= facts.Keys
      invariant (forall k :: k in facts ==> KeyOf(facts[k]) == k) ==>
                  (forall i :: 0 <= i < |s| ==> KeyOf(s[i]) in facts && facts[KeyOf(s[i])] == s[i])
      invariant forall k :: k in facts && k !in todo ==> facts[k] in s
      decreases |todo|
    {
      var k :| k in todo;
      s := s + [facts[k]];
      todo := todo - {k};
    }
  }
}
