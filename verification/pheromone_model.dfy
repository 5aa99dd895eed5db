// Learned preferences: the projection of feedback facts, and decayed readings.
module PheromoneModel {
  import opened Wrappers
  import opened Sorting

  // ---- Decay ----

  // `exp(-x)` through the only properties used: d(0) == 1, 0 < d <= 1, d(a + b) == d(a) * d(b).
  ghost predicate DecayOk(d: real -> real) {
    && d(0.0) == 1.0
    && (forall a :: a >= 0.0 ==> 0.0 < d(a) <= 1.0)
    && (forall a, b :: a >= 0.0 && b >= 0.0 ==> Multiplies(d, a, b))
  }

  predicate Multiplies(d: real -> real, a: real, b: real) {
    d(a + b) == d(a) * d(b)
  }

  const CEILING: real := 1000000000000.0
  const MAX_MULTIPLIER: real := 1000000.0
  const DEFAULT_WEIGHT: real := 0.25

  // ---- Facts and their projection ----

  datatype Kind = ScientificAdoption | ScientificResult | ValidatedCompletion

  datatype Fact = Fact(sourceId: string, kind: Kind, taskId: string, workerId: string, pipeKey: string, at: real,
                       evidence: string)

  type FactKey = (string, Kind)

  function KeyOf(f: Fact): FactKey {
    (f.sourceId, f.kind)
  }

  // The constructors stand in the order of the strings they stand for.
  function Rank(k: Kind): nat {
    match k
    case ScientificAdoption => 0
    case ScientificResult => 1
    case ValidatedCompletion => 2
  }

  predicate Earlier(a: Fact, b: Fact) {
    || a.at < b.at
    || (a.at == b.at
        && (StringLess(a.sourceId, b.sourceId) || (a.sourceId == b.sourceId && Rank(a.kind) < Rank(b.kind))))
  }

  // `{(source_id, kind): fact for fact in facts}`: first position, last value.
  function Put(s: seq<Fact>, f: Fact): seq<Fact> {
    if s == [] then [f]
    else if KeyOf(s[0]) == KeyOf(f) then [f] + s[1..]
    else [s[0]] + Put(s[1..], f)
  }

  function Unique(facts: seq<Fact>): seq<Fact> {
    if facts == [] then [] else Put(Unique(facts[..|facts| - 1]), facts[|facts| - 1])
  }

  datatype Task = Task(signalId: string, concentration: real, createdAt: real)

  datatype Trace = Trace(concentration: real, at: real)

  datatype Habit = Habit(weight: real, samples: nat, at: real)

  type Pipe = (string, string)

  datatype Learned = Learned(signals: map<string, Trace>, history: map<Pipe, Habit>)

  const NOTHING := Learned(map[], map[])

  datatype FieldError = Invalid | Unknown | NegativeElapsed | KindChanged | IdentityChanged

  type Outcome<T> = Result<T, FieldError>

  datatype Tuning = Tuning(d: real -> real, tau: real, alpha: real)

  ghost predicate TuningOk(t: Tuning) {
    DecayOk(t.d) && t.tau > 0.0 && 0.0 < t.alpha <= 1.0
  }

  // `x * exponential_decay(now - start, tau / m)`.
  function Decayed(t: Tuning, x: real, start: real, now: real, m: real): real
    requires t.tau != 0.0
  {
    x * t.d((now - start) * m / t.tau)
  }

  // The moving average of a habit and its reward.
  function Blend(weight: real, reward: real, alpha: real): real {
    (1.0 - alpha) * weight + alpha * reward
  }

  function Min(a: real, b: real): real {
    if a < b then a else b
  }

  function TraceOf(l: Learned, taskId: string, task: Task): Trace {
    if taskId in l.signals then l.signals[taskId] else Trace(task.concentration, task.createdAt)
  }

  function HabitOf(l: Learned, f: Fact): Habit {
    var pipe := (f.workerId, f.pipeKey);
    if pipe in l.history then l.history[pipe] else Habit(DEFAULT_WEIGHT, 0, f.at)
  }

  function Strengthened(t: Tuning, prev: Trace, at: real): Trace
    requires t.tau != 0.0
  {
    Trace(Min(CEILING, Decayed(t, prev.concentration, prev.at, at, 1.0) + 1.0), at)
  }

  function Practised(t: Tuning, prev: Habit, at: real): Habit
    requires t.tau != 0.0
  {
    var weight := DEFAULT_WEIGHT + Decayed(t, prev.weight - DEFAULT_WEIGHT, prev.at, at, 1.0);
    Habit(Blend(weight, 0.5, t.alpha), prev.samples + 1, at)
  }

  function Learn(t: Tuning, tasks: map<string, Task>, l: Learned, f: Fact): Outcome<Learned>
    requires t.tau != 0.0
  {
    if f.taskId !in tasks then Err(Unknown)
    else
      var trace, habit := TraceOf(l, f.taskId, tasks[f.taskId]), HabitOf(l, f);
      if f.at < trace.at || f.at < habit.at then Err(NegativeElapsed)
      else Ok(Learned(l.signals[f.taskId := Strengthened(t, trace, f.at)],
                      l.history[(f.workerId, f.pipeKey) := Practised(t, habit, f.at)]))
  }

  function Fold(t: Tuning, tasks: map<string, Task>, facts: seq<Fact>): Outcome<Learned>
    requires t.tau != 0.0
  {
    if facts == [] then Ok(NOTHING)
    else
      var front := Fold(t, tasks, facts[..|facts| - 1]);
      if front.Err? then front else Learn(t, tasks, front.value, facts[|facts| - 1])
  }

  function Project(t: Tuning, tasks: map<string, Task>, facts: seq<Fact>): Outcome<Learned>
    requires t.tau != 0.0
  {
    Fold(t, tasks, Sort(Earlier, Unique(facts)))
  }

  // ---- The stored facts ----

  datatype Index = Index(facts: map<FactKey, Fact>, learned: Learned)

  // The facts stored so far, with each new one, or why one of them is refused.
  function Stored(facts: map<FactKey, Fact>, added: seq<Fact>): Outcome<map<FactKey, Fact>> {
    if added == [] then Ok(facts)
    else
      var front := Stored(facts, added[..|added| - 1]);
      if front.Err? then front else StoreOne(front.value, added[|added| - 1])
  }

  function StoreOne(facts: map<FactKey, Fact>, f: Fact): Outcome<map<FactKey, Fact>> {
    if exists k :: k in facts && k.0 == f.sourceId && k.1 != f.kind then Err(KindChanged)
    else if KeyOf(f) in facts && facts[KeyOf(f)] != f then Err(IdentityChanged)
    else Ok(facts[KeyOf(f) := f])
  }

  // One listing of the stored facts; the table's own order is not specified.
  predicate Lists(s: seq<Fact>, facts: map<FactKey, Fact>) {
    && (forall i :: 0 <= i < |s| ==> KeyOf(s[i]) in facts && facts[KeyOf(s[i])] == s[i])
    && (forall k :: k in facts ==> facts[k] in s)
  }

  // ---- Readings ----

  datatype LocalRow = LocalRow(concentration: real, at: real, multiplier: real)

  datatype Reading = Reading(concentration: real, multiplier: real)

  // Learned rows win over local ones, local ones over the task's own signal.
  function Anchor(task: Task, local: Option<LocalRow>, learned: Option<Trace>): LocalRow {
    if learned.Some? then LocalRow(learned.value.concentration, learned.value.at, 1.0)
    else if local.Some? then local.value
    else LocalRow(task.concentration, task.createdAt, 1.0)
  }

  // `_materialize`: elapsed over tau / multiplier.
  function ReadRow(t: Tuning, row: LocalRow, now: real): Outcome<Reading>
    requires t.tau != 0.0
  {
    if now < row.at then Err(NegativeElapsed)
    else Ok(Reading(Decayed(t, row.concentration, row.at, now, row.multiplier), row.multiplier))
  }

  function ReadHabit(t: Tuning, habit: Option<Habit>, prior: Option<real>, now: real): Outcome<(real, nat)>
    requires t.tau != 0.0
  {
    if habit.None? then Ok((DEFAULT_WEIGHT, 0))
    else if now < habit.value.at then Err(NegativeElapsed)
    else
      var baseline := if prior.Some? then prior.value else 0.0;
      Ok((baseline + Decayed(t, habit.value.weight - baseline, habit.value.at, now, 1.0), habit.value.samples))
  }

  // `deposit`: the row saved, and so the reading returned. Only the task's own signal identity
  // adds its delta.
  function Deposited(t: Tuning, task: Task, local: Option<LocalRow>, learned: Option<Trace>, signalId: string,
                     delta: real, now: real): Outcome<LocalRow>
    requires t.tau != 0.0
  {
    if delta < 0.0 then Err(Invalid)
    else
      var reading := ReadRow(t, Anchor(task, local, learned), now);
      if reading.Err? then Err(reading.error)
      else
        var c := reading.value.concentration + (if signalId == task.signalId then delta else 0.0);
        if signalId == task.signalId && c > CEILING then Err(Invalid)
        else Ok(LocalRow(c, now, reading.value.multiplier))
  }

  // `feedback` outside a trusted pair.
  function FedBack(t: Tuning, task: Task, local: Option<LocalRow>, learned: Option<Trace>, success: bool, reward: real,
                   now: real): Outcome<LocalRow>
    requires t.tau != 0.0
  {
    if reward < 0.0 || reward > 1.0 then Err(Invalid)
    else
      var reading := ReadRow(t, Anchor(task, local, learned), now);
      if reading.Err? then Err(reading.error)
      else if success then
        Ok(LocalRow(Min(CEILING, reading.value.concentration + reward), now, reading.value.multiplier))
      else
        Ok(LocalRow(reading.value.concentration * (1.0 - 0.5 * reward), now,
                    Min(MAX_MULTIPLIER, reading.value.multiplier * (1.0 + reward))))
  }

  // `reinforce` outside a trusted pair.
  function Reinforced(t: Tuning, habit: Option<Habit>, worker: string, pipe: string, reward: real,
                      prior: Option<real>, now: real): Outcome<Habit>
    requires t.tau != 0.0
  {
    if prior.Some? && (prior.value < 0.0 || prior.value > 1.0) then Err(Invalid)
    else if Blank(worker) || Blank(pipe) || reward < 0.0 || reward > 1.0 then Err(Invalid)
    else
      var previous := ReadHabit(t, habit, prior, now);
      if previous.Err? then Err(previous.error)
      else Ok(Habit(Blend(previous.value.0, reward, t.alpha), previous.value.1 + 1, now))
  }
}
