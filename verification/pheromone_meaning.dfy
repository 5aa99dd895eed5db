// What the preferences mean: readings as sums over the feedback facts, and what each operation adds.
module PheromoneMeaning {
  import opened Wrappers
  import opened Sorting
  import opened PheromoneModel
  import opened PheromoneTheorems

  // ---- Which facts are stored ----

  // One source speaks once: whatever is known or given under its identifier is the same fact.
  predicate Agreeing(facts: map<FactKey, Fact>, added: seq<Fact>) {
    && (forall i, j :: 0 <= i < j < |added| && added[i].sourceId == added[j].sourceId ==> added[i] == added[j])
    && (forall i, k :: 0 <= i < |added| && k in facts && k.0 == added[i].sourceId ==> facts[k] == added[i])
  }

  // Facts are stored exactly when they agree, and then exactly the known and the given ones are.
  lemma {:induction false} StoredExactly(facts: map<FactKey, Fact>, added: seq<Fact>)
    requires FactsOk(facts)
    ensures Stored(facts, added).Ok? <==> Agreeing(facts, added)
    ensures Stored(facts, added).Ok? ==> Extends(facts, Stored(facts, added).value, added)
  {
    StoredOk(facts, added);
    if added != [] {
      var front, last := added[..|added| - 1], added[|added| - 1];
      StoredExactly(facts, front);
      assert added == front + [last];
      if Agreeing(facts, added) { AgreeingFront(facts, front, last); }
      if Stored(facts, added).Ok? { AgreesWhenStored(facts, added, Stored(facts, added).value); }
      else if Stored(facts, front).Ok? && Agreeing(facts, added) {
        LastIsStored(facts, Stored(facts, front).value, front, last);
      }
    }
  }

  lemma AgreeingFront(facts: map<FactKey, Fact>, front: seq<Fact>, last: Fact)
    requires Agreeing(facts, front + [last])
    ensures Agreeing(facts, front)
  {
    var added := front + [last];
    assert forall i :: 0 <= i < |front| ==> front[i] == added[i];
  }

  lemma AgreesWhenStored(facts: map<FactKey, Fact>, added: seq<Fact>, after: map<FactKey, Fact>)
    requires Extends(facts, after, added)
    ensures Agreeing(facts, added)
  {
    forall i, j | 0 <= i < j < |added| && added[i].sourceId == added[j].sourceId
      ensures added[i] == added[j]
    {
      assert KeyOf(added[i]) in after && KeyOf(added[j]) in after;
    }
    forall i, k | 0 <= i < |added| && k in facts && k.0 == added[i].sourceId
      ensures facts[k] == added[i]
    {
      assert KeyOf(added[i]) in after && k in after;
    }
  }

  lemma LastIsStored(facts: map<FactKey, Fact>, before: map<FactKey, Fact>, front: seq<Fact>, last: Fact)
    requires Extends(facts, before, front) && Agreeing(facts, front + [last])
    ensures StoreOne(before, last).Ok?
  {
    var added := front + [last];
    forall k | k in before && k.0 == last.sourceId
      ensures before[k] == last
    {
      if k !in facts {
        var i :| 0 <= i < |front| && front[i] == before[k];
        assert added[i] == front[i] && added[|front|] == last && KeyOf(before[k]) == k;
      } else {
        assert added[|front|] == last;
      }
    }
    assert forall k :: k in before && k.0 == last.sourceId ==> KeyOf(before[k]) == k;
  }

  // ---- A learned reading is a sum ----

  // What is left at `now` of one unit laid down at `at`.
  function Left(t: Tuning, at: real, now: real): real
    requires t.tau != 0.0
  {
    t.d((now - at) / t.tau)
  }

  // What the task's own signal and each of its facts' units have left, added up.
  function Remains(t: Tuning, id: string, task: Task, facts: seq<Fact>, now: real): real
    requires t.tau != 0.0
  {
    if facts == [] then task.concentration * Left(t, task.createdAt, now)
    else
      var f := facts[|facts| - 1];
      Remains(t, id, task, facts[..|facts| - 1], now) + (if f.taskId == id then Left(t, f.at, now) else 0.0)
  }

  // The ceiling is out of reach: each fact adds at most one.
  predicate BelowCeiling(task: Task, n: nat) {
    0.0 <= task.concentration && task.concentration + n as real <= CEILING
  }

  lemma DecayedIs(t: Tuning, x: real, start: real, now: real)
    requires t.tau != 0.0
    ensures Decayed(t, x, start, now, 1.0) == x * Left(t, start, now)
  {
    assert (now - start) * 1.0 / t.tau == (now - start) / t.tau;
  }

  lemma DecayAdds(t: Tuning, x: real, y: real, start: real, now: real)
    requires t.tau != 0.0
    ensures Decayed(t, x + y, start, now, 1.0) == Decayed(t, x, start, now, 1.0) + Decayed(t, y, start, now, 1.0)
  {
  }

  lemma StrengthenedLater(t: Tuning, prev: Trace, at: real, now: real)
    requires TuningOk(t) && prev.at <= at <= now
    requires 0.0 <= prev.concentration && prev.concentration + 1.0 <= CEILING
    ensures var next := Strengthened(t, prev, at);
            && Decayed(t, next.concentration, at, now, 1.0) ==
               Decayed(t, prev.concentration, prev.at, now, 1.0) + Left(t, at, now)
            && 0.0 <= next.concentration <= prev.concentration + 1.0 && next.at == at
  {
    DecayedInRange(t, prev.concentration, prev.at, at, 1.0);
    var c := Decayed(t, prev.concentration, prev.at, at, 1.0);
    DecayAdds(t, c, 1.0, at, now);
    DecayedTwice(t, prev.concentration, prev.at, at, now, 1.0);
    DecayedIs(t, 1.0, at, now);
  }

  lemma {:induction false} TraceIsSum(t: Tuning, tasks: map<string, Task>, facts: seq<Fact>, id: string, now: real)
    requires TuningOk(t) && id in tasks && Fold(t, tasks, facts).Ok?
    requires BelowCeiling(tasks[id], |facts|)
    ensures var trace := TraceOf(Fold(t, tasks, facts).value, id, tasks[id]);
            && 0.0 <= trace.concentration <= tasks[id].concentration + |facts| as real
            && (trace.at <= now ==>
                  Decayed(t, trace.concentration, trace.at, now, 1.0) == Remains(t, id, tasks[id], facts, now))
  {
    if facts == [] {
      DecayedIs(t, tasks[id].concentration, tasks[id].createdAt, now);
    } else {
      var front, f := facts[..|facts| - 1], facts[|facts| - 1];
      TraceIsSum(t, tasks, front, id, now);
      var prev := TraceOf(Fold(t, tasks, front).value, id, tasks[id]);
      if f.taskId == id {
        if f.at <= now { StrengthenedLater(t, prev, f.at, now); } else { StrengthenedLater(t, prev, f.at, f.at); }
      }
    }
  }

  // The reading of a learned task is what remains of its own signal and of one unit a fact, whatever
  // was read or learned in between.
  lemma LearnedReadingIsSum(t: Tuning, tasks: map<string, Task>, facts: seq<Fact>, id: string, local: Option<LocalRow>,
                            now: real)
    requires TuningOk(t) && id in tasks && Project(t, tasks, facts).Ok?
    requires var ordered := Sort(Earlier, Unique(facts)); BelowCeiling(tasks[id], |ordered|)
    requires id in Project(t, tasks, facts).value.signals && Project(t, tasks, facts).value.signals[id].at <= now
    ensures var learned := Project(t, tasks, facts).value.signals[id];
            ReadRow(t, Anchor(tasks[id], local, Some(learned)), now) ==
            Ok(Reading(Remains(t, id, tasks[id], Sort(Earlier, Unique(facts)), now), 1.0))
  {
    TraceIsSum(t, tasks, Sort(Earlier, Unique(facts)), id, now);
  }

  // ---- A learned habit is an exponentially weighted count ----

  // How far the facts of a pipe have moved its weight from the default, as of `now`: each by the
  // share alpha of the way to a half, less by that share for every later one, and by its decay.
  function Moved(t: Tuning, facts: seq<Fact>, pipe: Pipe, now: real): real
    requires t.tau != 0.0
  {
    if facts == [] then 0.0
    else
      var f, before := facts[|facts| - 1], Moved(t, facts[..|facts| - 1], pipe, now);
      if (f.workerId, f.pipeKey) == pipe then (1.0 - t.alpha) * before + t.alpha * 0.25 * Left(t, f.at, now)
      else before
  }

  function Uses(facts: seq<Fact>, pipe: Pipe): nat {
    |set i: nat | i < |facts| && (facts[i].workerId, facts[i].pipeKey) == pipe|
  }

  lemma UsesAppend(front: seq<Fact>, f: Fact, pipe: Pipe)
    ensures Uses(front + [f], pipe) == Uses(front, pipe) + (if (f.workerId, f.pipeKey) == pipe then 1 else 0)
  {
    var before := set i: nat | i < |front| && (front[i].workerId, front[i].pipeKey) == pipe;
    var facts := front + [f];
    assert (set i: nat | i < |facts| && (facts[i].workerId, facts[i].pipeKey) == pipe) ==
           before + (if (f.workerId, f.pipeKey) == pipe then {|front|} else {});
  }

  lemma DecayScales(t: Tuning, k: real, x: real, start: real, now: real)
    requires t.tau != 0.0
    ensures Decayed(t, k * x, start, now, 1.0) == k * Decayed(t, x, start, now, 1.0)
  {
    Regrouped(k, x, t.d((now - start) * 1.0 / t.tau));
  }

  lemma BlendFromDefault(x: real, alpha: real)
    ensures Blend(DEFAULT_WEIGHT + x, 0.5, alpha) - DEFAULT_WEIGHT == (1.0 - alpha) * x + alpha * 0.25
  {
  }

  lemma PractisedLater(t: Tuning, prev: Habit, at: real, now: real)
    requires TuningOk(t) && prev.at <= at <= now
    ensures var next := Practised(t, prev, at);
            && Decayed(t, next.weight - DEFAULT_WEIGHT, at, now, 1.0) ==
               (1.0 - t.alpha) * Decayed(t, prev.weight - DEFAULT_WEIGHT, prev.at, now, 1.0)
               + t.alpha * 0.25 * Left(t, at, now)
            && next.samples == prev.samples + 1 && next.at == at
  {
    var x := Decayed(t, prev.weight - DEFAULT_WEIGHT, prev.at, at, 1.0);
    BlendFromDefault(x, t.alpha);
    DecayAdds(t, (1.0 - t.alpha) * x, t.alpha * 0.25, at, now);
    DecayScales(t, 1.0 - t.alpha, x, at, now);
    DecayedTwice(t, prev.weight - DEFAULT_WEIGHT, prev.at, at, now, 1.0);
    DecayedIs(t, t.alpha * 0.25, at, now);
  }

  // A habit is there exactly for the pipes of the facts; it counts them, and its weight is the
  // default moved by each.
  predicate HabitCounts(t: Tuning, history: map<Pipe, Habit>, facts: seq<Fact>, pipe: Pipe, now: real)
    requires t.tau != 0.0
  {
    && (pipe in history <==> Uses(facts, pipe) > 0)
    && (pipe !in history ==> Moved(t, facts, pipe, now) == 0.0)
    && (pipe in history ==> history[pipe].samples == Uses(facts, pipe))
    && (pipe in history && history[pipe].at <= now ==>
          Decayed(t, history[pipe].weight - DEFAULT_WEIGHT, history[pipe].at, now, 1.0) == Moved(t, facts, pipe, now))
  }

  lemma MovedAppend(t: Tuning, front: seq<Fact>, f: Fact, pipe: Pipe, now: real)
    requires t.tau != 0.0
    ensures Moved(t, front + [f], pipe, now) ==
            if (f.workerId, f.pipeKey) == pipe then
              (1.0 - t.alpha) * Moved(t, front, pipe, now) + t.alpha * 0.25 * Left(t, f.at, now)
            else Moved(t, front, pipe, now)
  {
    assert (front + [f])[..|front + [f]| - 1] == front;
  }

  lemma NothingMoved(t: Tuning, start: real, now: real)
    requires t.tau != 0.0
    ensures Decayed(t, DEFAULT_WEIGHT - DEFAULT_WEIGHT, start, now, 1.0) == 0.0
  {
  }

  lemma HabitGrows(t: Tuning, l: Learned, front: seq<Fact>, f: Fact, pipe: Pipe, now: real)
    requires TuningOk(t) && HabitCounts(t, l.history, front, pipe, now) && HabitOf(l, f).at <= f.at
    ensures HabitCounts(t, l.history[(f.workerId, f.pipeKey) := Practised(t, HabitOf(l, f), f.at)], front + [f], pipe,
                        now)
  {
    UsesAppend(front, f, pipe);
    MovedAppend(t, front, f, pipe, now);
    if (f.workerId, f.pipeKey) == pipe && f.at <= now {
      PractisedLater(t, HabitOf(l, f), f.at, now);
      NothingMoved(t, f.at, now);
    }
  }

  lemma {:induction false} HabitIsWeightedCount(t: Tuning, tasks: map<string, Task>, facts: seq<Fact>, pipe: Pipe,
                                                now: real)
    requires TuningOk(t) && Fold(t, tasks, facts).Ok?
    ensures HabitCounts(t, Fold(t, tasks, facts).value.history, facts, pipe, now)
  {
    if facts != [] {
      var front, f := facts[..|facts| - 1], facts[|facts| - 1];
      assert facts == front + [f];
      HabitIsWeightedCount(t, tasks, front, pipe, now);
      HabitGrows(t, Fold(t, tasks, front).value, front, f, pipe, now);
    }
  }

  // ---- When a projection fails ----

  predicate Timely(tasks: map<string, Task>, f: Fact) {
    f.taskId in tasks && tasks[f.taskId].createdAt <= f.at
  }

  // What is projected, in its order: the last fact under each key.
  lemma ListsLastFacts(facts: seq<Fact>)
    ensures var ordered := Sort(Earlier, Unique(facts));
            && Increasing(Earlier, ordered)
            && forall x :: x in ordered <==> KeyOf(x) in LastFacts(facts) && LastFacts(facts)[KeyOf(x)] == x
  {
    EarlierIsStrict();
    UniqueIsLast(facts);
    UniqueIsDistinct(facts);
    KeysMakeComparable(Unique(facts));
    SortSorts(Earlier, Unique(facts));
  }

  predicate AllTimely(tasks: map<string, Task>, facts: seq<Fact>) {
    forall i :: 0 <= i < |facts| ==> Timely(tasks, facts[i])
  }

  predicate LastTimely(tasks: map<string, Task>, last: map<FactKey, Fact>) {
    forall k :: k in last ==> Timely(tasks, last[k])
  }

  lemma TimelyLast(tasks: map<string, Task>, ordered: seq<Fact>, last: map<FactKey, Fact>)
    requires forall x :: x in ordered <==> KeyOf(x) in last && last[KeyOf(x)] == x
    requires forall k :: k in last ==> KeyOf(last[k]) == k
    ensures AllTimely(tasks, ordered) <==> LastTimely(tasks, last)
  {
    if AllTimely(tasks, ordered) {
      forall k | k in last ensures Timely(tasks, last[k]) {
        assert last[k] in ordered;
        var i :| 0 <= i < |ordered| && ordered[i] == last[k];
      }
    }
    if LastTimely(tasks, last) {
      forall i | 0 <= i < |ordered| ensures Timely(tasks, ordered[i]) {
        assert ordered[i] in ordered;
        assert KeyOf(ordered[i]) in last;
      }
    }
  }

  // Facts project exactly when each speaks of a known task that existed at its time.
  lemma ProjectsExactly(t: Tuning, tasks: map<string, Task>, facts: seq<Fact>)
    requires t.tau != 0.0
    ensures Project(t, tasks, facts).Ok? <==> LastTimely(tasks, LastFacts(facts))
  {
    ListsLastFacts(facts);
    FoldsExactly(t, tasks, Sort(Earlier, Unique(facts)));
    forall k | k in LastFacts(facts) ensures KeyOf(LastFacts(facts)[k]) == k { LastFactsKeyed(facts, k); }
    TimelyLast(tasks, Sort(Earlier, Unique(facts)), LastFacts(facts));
  }

  lemma {:induction false} LastFactsKeyed(facts: seq<Fact>, k: FactKey)
    requires k in LastFacts(facts)
    ensures KeyOf(LastFacts(facts)[k]) == k
  {
    if facts != [] && KeyOf(facts[|facts| - 1]) != k { LastFactsKeyed(facts[..|facts| - 1], k); }
  }

  // Everything learned so far is no later than a fact that follows.
  lemma {:induction false} FoldsExactly(t: Tuning, tasks: map<string, Task>, facts: seq<Fact>)
    requires t.tau != 0.0 && Increasing(Earlier, facts)
    ensures Fold(t, tasks, facts).Ok? <==> AllTimely(tasks, facts)
    ensures Fold(t, tasks, facts).Ok? ==>
              var l := Fold(t, tasks, facts).value;
              && (forall id :: id in l.signals ==> facts != [] && l.signals[id].at <= facts[|facts| - 1].at)
              && (forall p :: p in l.history ==> facts != [] && l.history[p].at <= facts[|facts| - 1].at)
              && (forall id :: id in l.signals && id in tasks ==> tasks[id].createdAt <= l.signals[id].at)
  {
    if facts != [] {
      var front, f := facts[..|facts| - 1], facts[|facts| - 1];
      FoldsExactly(t, tasks, front);
      assert forall i :: 0 <= i < |front| ==> front[i] == facts[i];
      if front != [] { assert Earlier(front[|front| - 1], f); }
    }
  }

  // ---- What the field's own operations add ----

  // A learned trace speaks for its task, else the local row does, else the task's own signal.
  lemma AnchorsInOrder(task: Task, local: Option<LocalRow>, learned: Option<Trace>)
    ensures var row := Anchor(task, local, learned);
            && (learned.Some? ==> (row.concentration, row.at) == (learned.value.concentration, learned.value.at))
            && (learned.None? && local.Some? ==> row == local.value)
            && (learned.None? && local.None? ==>
                  (row.concentration, row.at) == (task.concentration, task.createdAt))
            && (learned.Some? || local.None? ==> row.multiplier == 1.0)
  {
  }

  // Time runs faster for a multiplied row: it reads now as a plain one would after the multiple of
  // its age; at its own time it reads as it is.
  lemma MultiplierHurries(t: Tuning, row: LocalRow, age: real)
    requires TuningOk(t) && age >= 0.0 && row.multiplier > 0.0
    ensures ReadRow(t, row, row.at + age) ==
            Ok(Reading(Decayed(t, row.concentration, row.at, row.at + row.multiplier * age, 1.0), row.multiplier))
    ensures ReadRow(t, row, row.at) == Ok(Reading(row.concentration, row.multiplier))
    ensures ReadRow(t, row, row.at - age - 1.0) == Err(NegativeElapsed)
  {
    AgedAlike(t, row.concentration, row.at, row.multiplier, age);
    ReadAtOnce(t, row);
  }

  lemma AgedAlike(t: Tuning, x: real, start: real, m: real, age: real)
    requires t.tau != 0.0
    ensures Decayed(t, x, start, start + age, m) == Decayed(t, x, start, start + m * age, 1.0)
  {
    var elapsed :| elapsed == m * age;
    DecayedBy(t, x, start, start + age, m, elapsed);
    DecayedBy(t, x, start, start + elapsed, 1.0, elapsed);
  }

  lemma DecayedBy(t: Tuning, x: real, start: real, now: real, m: real, elapsed: real)
    requires t.tau != 0.0 && (now - start) * m == elapsed
    ensures Decayed(t, x, start, now, m) == x * t.d(elapsed / t.tau)
  {
  }

  // A deposit reads the task and adds its delta under the task's own signal, and nothing under any
  // other; it is refused for a negative delta, a clock behind the row, or past the ceiling.
  lemma DepositAdds(t: Tuning, task: Task, local: Option<LocalRow>, learned: Option<Trace>, signalId: string,
                    delta: real, now: real)
    requires TuningOk(t)
    ensures var before, saved := ReadRow(t, Anchor(task, local, learned), now),
                                 Deposited(t, task, local, learned, signalId, delta, now);
            && (saved.Ok? <==>
                && delta >= 0.0 && before.Ok?
                && (signalId == task.signalId ==> before.value.concentration + delta <= CEILING))
            && (saved.Ok? ==>
                  && ReadRow(t, saved.value, now).Ok?
                  && ReadRow(t, saved.value, now).value.multiplier == before.value.multiplier
                  && ReadRow(t, saved.value, now).value.concentration - before.value.concentration
                     == (if signalId == task.signalId then delta else 0.0))
  {
    if Deposited(t, task, local, learned, signalId, delta, now).Ok? {
      ReadAtOnce(t, Deposited(t, task, local, learned, signalId, delta, now).value);
    }
  }

  lemma ReadAtOnce(t: Tuning, row: LocalRow)
    requires TuningOk(t)
    ensures ReadRow(t, row, row.at) == Ok(Reading(row.concentration, row.multiplier))
  {
    assert (row.at - row.at) * row.multiplier / t.tau == 0.0;
  }

  // Success adds the reward, up to the ceiling; failure takes half the reward's share of the reading
  // and speeds its decay up by the reward, up to the largest multiplier.
  lemma FeedbackMoves(t: Tuning, task: Task, local: Option<LocalRow>, learned: Option<Trace>, success: bool,
                      reward: real, now: real)
    requires TuningOk(t)
    ensures var before, saved := ReadRow(t, Anchor(task, local, learned), now),
                                 FedBack(t, task, local, learned, success, reward, now);
            && (saved.Ok? <==> 0.0 <= reward <= 1.0 && before.Ok?)
            && (saved.Ok? ==>
                  && var (c, m) := (before.value.concentration, before.value.multiplier);
                  && saved.value.at == now
                  && (success ==>
                        saved.value.multiplier == m && saved.value.concentration <= CEILING
                        && saved.value.concentration <= c + reward
                        && saved.value.concentration in {c + reward, CEILING})
                  && (!success ==>
                        2.0 * (c - saved.value.concentration) == reward * c
                        && saved.value.multiplier <= MAX_MULTIPLIER && saved.value.multiplier <= m + m * reward
                        && saved.value.multiplier in {m + m * reward, MAX_MULTIPLIER}))
  {
    if FedBack(t, task, local, learned, success, reward, now).Ok? && !success {
      var reading := ReadRow(t, Anchor(task, local, learned), now).value;
      HalfShare(reading.concentration, reward);
      assert reading.multiplier * (1.0 + reward) == reading.multiplier + reading.multiplier * reward;
    }
  }

  lemma HalfShare(c: real, reward: real)
    ensures 2.0 * (c - c * (1.0 - 0.5 * reward)) == reward * c
  {
    assert c * (1.0 - 0.5 * reward) == c - 0.5 * (reward * c);
  }

  // A habit reads as its own weight at its own time and nears the baseline as it decays; without one
  // the default is read.
  lemma HabitReads(t: Tuning, habit: Option<Habit>, prior: Option<real>, now: real)
    requires TuningOk(t)
    ensures var read, baseline := ReadHabit(t, habit, prior, now), if prior.Some? then prior.value else 0.0;
            && (habit.None? ==> read == Ok((0.25, 0)))
            && (habit.Some? ==>
                  && (read.Ok? <==> habit.value.at <= now)
                  && (read.Ok? ==>
                        read.value.0 - baseline
                        == Decayed(t, habit.value.weight - baseline, habit.value.at, now, 1.0)
                        && read.value.1 == habit.value.samples)
                  && (now == habit.value.at ==> read == Ok((habit.value.weight, habit.value.samples))))
  {
    if habit.Some? && now == habit.value.at {
      assert (now - habit.value.at) * 1.0 / t.tau == 0.0;
    }
  }

  // A reinforcement moves the weight read by the share alpha of its distance to the reward, and
  // counts one more sample.
  lemma ReinforcementMoves(t: Tuning, habit: Option<Habit>, worker: string, pipe: string, reward: real,
                           prior: Option<real>, now: real)
    requires TuningOk(t)
    ensures var before, saved := ReadHabit(t, habit, prior, now),
                                 Reinforced(t, habit, worker, pipe, reward, prior, now);
            && (saved.Ok? <==>
                && !Blank(worker) && !Blank(pipe) && 0.0 <= reward <= 1.0
                && (prior.Some? ==> 0.0 <= prior.value <= 1.0) && before.Ok?)
            && (saved.Ok? ==>
                  && saved.value.weight - before.value.0 == t.alpha * (reward - before.value.0)
                  && saved.value.samples == before.value.1 + 1 && saved.value.at == now)
  {
    if Reinforced(t, habit, worker, pipe, reward, prior, now).Ok? {
      BlendIsShare(ReadHabit(t, habit, prior, now).value.0, reward, t.alpha);
    }
  }

  lemma BlendIsShare(weight: real, reward: real, alpha: real)
    ensures Blend(weight, reward, alpha) - weight == alpha * (reward - weight)
  {
  }
}
