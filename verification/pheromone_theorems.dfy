// Order independence, rebuilding, bounds and decay of the learned preferences.
module PheromoneTheorems {
  import opened Wrappers
  import opened Sorting
  import opened PheromoneModel
  import opened Runs

  // ---- The projection depends on the facts, not on their order or number ----

  lemma EarlierIsStrict()
    ensures StrictOrder(Earlier)
    ensures forall a, b :: KeyOf(a) != KeyOf(b) ==> Earlier(a, b) || Earlier(b, a)
  {
    forall a, b | Earlier(a, b) ensures !Earlier(b, a) {
      if StringLess(a.sourceId, b.sourceId) { StringLessAsymmetric(a.sourceId, b.sourceId); }
    }
    forall a, b | KeyOf(a) != KeyOf(b) ensures Earlier(a, b) || Earlier(b, a) {
      if a.sourceId != b.sourceId { StringLessTotal(a.sourceId, b.sourceId); }
    }
    forall a, b, c | Earlier(a, b) && Earlier(b, c) ensures Earlier(a, c) {
      if StringLess(a.sourceId, b.sourceId) && StringLess(b.sourceId, c.sourceId) {
        StringLessTransitive(a.sourceId, b.sourceId, c.sourceId);
      }
    }
  }

  predicate DistinctKeys(s: seq<Fact>) {
    forall i, j :: 0 <= i < j < |s| ==> KeyOf(s[i]) != KeyOf(s[j])
  }

  // No source identity stands for two different facts of one kind.
  predicate Consistent(s: seq<Fact>) {
    forall i, j :: 0 <= i < |s| && 0 <= j < |s| && KeyOf(s[i]) == KeyOf(s[j]) ==> s[i] == s[j]
  }

  lemma {:induction false} PutKeeps(s: seq<Fact>, f: Fact)
    requires DistinctKeys(s)
    ensures DistinctKeys(Put(s, f))
    ensures forall x :: x in Put(s, f) <==> x == f || (x in s && KeyOf(x) != KeyOf(f))
  {
    if s != [] {
      assert forall x :: x in s <==> x == s[0] || x in s[1..];
      if KeyOf(s[0]) == KeyOf(f) {
        forall x | x in s[1..] ensures KeyOf(x) != KeyOf(f) {
          var k :| 0 <= k < |s[1..]| && s[1..][k] == x;
          assert x == s[k + 1];
        }
      } else {
        PutKeeps(s[1..], f);
        var rest := Put(s[1..], f);
        forall j | 0 <= j < |rest| ensures KeyOf(rest[j]) != KeyOf(s[0]) {
          assert rest[j] in rest;
          if rest[j] in s[1..] {
            var k :| 0 <= k < |s[1..]| && s[1..][k] == rest[j];
            assert rest[j] == s[k + 1];
          }
        }
      }
    }
  }

  lemma {:induction false} UniqueIsDistinct(facts: seq<Fact>)
    ensures DistinctKeys(Unique(facts))
  {
    if facts != [] {
      UniqueIsDistinct(facts[..|facts| - 1]);
      PutKeeps(Unique(facts[..|facts| - 1]), facts[|facts| - 1]);
    }
  }

  lemma ConsistentFront(facts: seq<Fact>)
    requires Consistent(facts) && facts != []
    ensures Consistent(facts[..|facts| - 1])
    ensures forall x :: x in facts[..|facts| - 1] && KeyOf(x) == KeyOf(facts[|facts| - 1]) ==> x == facts[|facts| - 1]
  {
    var front := facts[..|facts| - 1];
    assert forall i :: 0 <= i < |front| ==> front[i] == facts[i];
  }

  // The deduplicated facts are exactly the facts given, when those agree.
  lemma {:induction false} UniqueKeeps(facts: seq<Fact>)
    requires Consistent(facts)
    ensures SameElements(Unique(facts), facts)
  {
    if facts != [] {
      var front, last := facts[..|facts| - 1], facts[|facts| - 1];
      ConsistentFront(facts);
      UniqueKeeps(front);
      UniqueIsDistinct(front);
      PutKeeps(Unique(front), last);
      assert facts == front + [last];
    }
  }

  lemma KeysMakeComparable(s: seq<Fact>)
    requires DistinctKeys(s)
    ensures Comparable(Earlier, s)
  {
    EarlierIsStrict();
  }

  // One projection for every order, and any number of repetitions, of the same consistent facts.
  lemma ProjectionForgetsOrder(t: Tuning, tasks: map<string, Task>, f: seq<Fact>, g: seq<Fact>)
    requires t.tau != 0.0 && Consistent(f) && Consistent(g) && SameElements(f, g)
    ensures Project(t, tasks, f) == Project(t, tasks, g)
  {
    UniqueKeeps(f);
    UniqueKeeps(g);
    UniqueIsDistinct(f);
    UniqueIsDistinct(g);
    EarlierIsStrict();
    KeysMakeComparable(Unique(f));
    KeysMakeComparable(Unique(g));
    SortForgetsOrder(Earlier, Unique(f), Unique(g));
  }

  // The last fact given under each key.
  function LastFacts(facts: seq<Fact>): map<FactKey, Fact> {
    if facts == [] then map[]
    else LastFacts(facts[..|facts| - 1])[KeyOf(facts[|facts| - 1]) := facts[|facts| - 1]]
  }

  lemma {:induction false} UniqueIsLast(facts: seq<Fact>)
    ensures forall x :: x in Unique(facts) <==> KeyOf(x) in LastFacts(facts) && LastFacts(facts)[KeyOf(x)] == x
  {
    if facts != [] {
      var front, last := facts[..|facts| - 1], facts[|facts| - 1];
      UniqueIsLast(front);
      UniqueIsDistinct(front);
      PutKeeps(Unique(front), last);
    }
  }

  // Consistent or not, a list of facts projects as the last fact under each of its keys.
  lemma ProjectionIsOfLastFacts(t: Tuning, tasks: map<string, Task>, f: seq<Fact>, g: seq<Fact>)
    requires t.tau != 0.0 && LastFacts(f) == LastFacts(g)
    ensures Project(t, tasks, f) == Project(t, tasks, g)
  {
    UniqueIsLast(f);
    UniqueIsLast(g);
    UniqueIsDistinct(f);
    UniqueIsDistinct(g);
    EarlierIsStrict();
    KeysMakeComparable(Unique(f));
    KeysMakeComparable(Unique(g));
    SortForgetsOrder(Earlier, Unique(f), Unique(g));
  }

  predicate Before(s: seq<Fact>, f: Fact) {
    forall i :: 0 <= i < |s| ==> s[i].at < f.at && KeyOf(s[i]) != KeyOf(f)
  }

  // A fact later than all others is learned last.
  lemma LatestIsLast(t: Tuning, tasks: map<string, Task>, s: seq<Fact>, f: Fact)
    requires t.tau != 0.0 && Before(s, f)
    ensures Sort(Earlier, Unique(s + [f])) == Sort(Earlier, Unique(s)) + [f]
    ensures Project(t, tasks, s + [f]) ==
            if Project(t, tasks, s).Err? then Project(t, tasks, s) else Learn(t, tasks, Project(t, tasks, s).value, f)
  {
    var front, longer := Sort(Earlier, Unique(s)), Unique(s + [f]);
    assert (s + [f])[..|s + [f]| - 1] == s;
    UniqueIsDistinct(s);
    UniqueIsDistinct(s + [f]);
    UniqueIsLast(s);
    PutKeeps(Unique(s), f);
    EarlierIsStrict();
    KeysMakeComparable(Unique(s));
    KeysMakeComparable(longer);
    SortSorts(Earlier, Unique(s));
    SortSorts(Earlier, longer);
    forall i | 0 <= i < |front|
      ensures Earlier(front[i], f) && KeyOf(front[i]) != KeyOf(f)
    {
      assert front[i] in front;
      LastIsGiven(s, front[i]);
    }
    IncreasingIsUnique(Earlier, Sort(Earlier, longer), front + [f]);
    assert (front + [f])[..|front + [f]| - 1] == front;
  }

  lemma {:induction false} LastIsGiven(facts: seq<Fact>, x: Fact)
    requires KeyOf(x) in LastFacts(facts) && LastFacts(facts)[KeyOf(x)] == x
    ensures x in facts
  {
    if facts != [] && facts[|facts| - 1] != x {
      LastIsGiven(facts[..|facts| - 1], x);
    }
  }

  // Everything learned carries the time of some fact.
  lemma {:induction false} FoldTimes(t: Tuning, tasks: map<string, Task>, facts: seq<Fact>, at: real)
    requires t.tau != 0.0 && Fold(t, tasks, facts).Ok? && forall i :: 0 <= i < |facts| ==> facts[i].at < at
    ensures var l := Fold(t, tasks, facts).value;
            && (forall id :: id in l.signals ==> l.signals[id].at < at)
            && (forall p :: p in l.history ==> l.history[p].at < at)
  {
    if facts != [] { FoldTimes(t, tasks, facts[..|facts| - 1], at); }
  }

  lemma ProjectTimes(t: Tuning, tasks: map<string, Task>, s: seq<Fact>, f: Fact)
    requires t.tau != 0.0 && Before(s, f) && Project(t, tasks, s).Ok?
    ensures var l := Project(t, tasks, s).value;
            && (forall id :: id in l.signals ==> l.signals[id].at < f.at)
            && (forall p :: p in l.history ==> l.history[p].at < f.at)
  {
    var ordered := Sort(Earlier, Unique(s));
    UniqueIsDistinct(s);
    UniqueIsLast(s);
    EarlierIsStrict();
    KeysMakeComparable(Unique(s));
    SortSorts(Earlier, Unique(s));
    forall i | 0 <= i < |ordered|
      ensures ordered[i].at < f.at
    {
      assert ordered[i] in ordered;
      LastIsGiven(s, ordered[i]);
    }
    FoldTimes(t, tasks, ordered, f.at);
  }

  // Two conflicting facts after any others: the later one in the list decides, so the order is
  // immaterial exactly when they say the same about task, worker, pipe and time.
  lemma ConflictingFacts(t: Tuning, tasks: map<string, Task>, s: seq<Fact>, a: Fact, b: Fact)
    requires t.tau != 0.0 && KeyOf(a) == KeyOf(b) && Before(s, a) && Before(s, b)
    requires Project(t, tasks, s + [a]).Ok? && Project(t, tasks, s + [b]).Ok?
    ensures Project(t, tasks, s + [a, b]) == Project(t, tasks, s + [b])
    ensures Project(t, tasks, s + [b, a]) == Project(t, tasks, s + [a])
    ensures Project(t, tasks, s + [a, b]) == Project(t, tasks, s + [b, a]) <==>
            (a.taskId, a.workerId, a.pipeKey, a.at) == (b.taskId, b.workerId, b.pipeKey, b.at)
  {
    LastOfTwo(s, a, b);
    LastOfTwo(s, b, a);
    ProjectionIsOfLastFacts(t, tasks, s + [a, b], s + [b]);
    ProjectionIsOfLastFacts(t, tasks, s + [b, a], s + [a]);
    LatestIsLast(t, tasks, s, a);
    LatestIsLast(t, tasks, s, b);
    ProjectTimes(t, tasks, s, a);
    ProjectTimes(t, tasks, s, b);
    LearnedDiffer(t, tasks, Project(t, tasks, s).value, a, b);
  }

  lemma LastOfTwo(s: seq<Fact>, a: Fact, b: Fact)
    requires KeyOf(a) == KeyOf(b)
    ensures LastFacts(s + [a, b]) == LastFacts(s + [b])
  {
    assert (s + [a, b])[..|s + [a, b]| - 1] == s + [a];
    assert (s + [a])[..|s + [a]| - 1] == s;
    assert (s + [b])[..|s + [b]| - 1] == s;
  }

  // Facts newer than everything learned leave different traces unless they agree in all four fields.
  lemma LearnedDiffer(t: Tuning, tasks: map<string, Task>, l: Learned, a: Fact, b: Fact)
    requires t.tau != 0.0 && Learn(t, tasks, l, a).Ok? && Learn(t, tasks, l, b).Ok?
    requires forall id :: id in l.signals ==> l.signals[id].at < a.at && l.signals[id].at < b.at
    requires forall p :: p in l.history ==> l.history[p].at < a.at && l.history[p].at < b.at
    ensures Learn(t, tasks, l, a) == Learn(t, tasks, l, b) <==>
            (a.taskId, a.workerId, a.pipeKey, a.at) == (b.taskId, b.workerId, b.pipeKey, b.at)
  {
    var p, q := Learn(t, tasks, l, a).value, Learn(t, tasks, l, b).value;
    var pipeA, pipeB := (a.workerId, a.pipeKey), (b.workerId, b.pipeKey);
    assert a.taskId in p.signals && p.signals[a.taskId].at == a.at;
    assert pipeA in p.history && p.history[pipeA].at == a.at;
    assert b.taskId in q.signals && q.signals[b.taskId].at == b.at;
    if p == q {
      assert a.taskId in q.signals && q.signals[a.taskId].at == a.at;
      assert pipeA in q.history && q.history[pipeA].at == a.at;
    }
  }

  // ---- Rebuild equals incremental learning ----

  // Stored facts sit under their own keys, one kind per source.
  predicate FactsOk(facts: map<FactKey, Fact>) {
    && (forall k :: k in facts ==> KeyOf(facts[k]) == k)
    && (forall k, k' :: k in facts && k' in facts && k.0 == k'.0 ==> k == k')
  }

  // The derived tables are the projection of the stored facts, in whatever order they are listed.
  ghost predicate IndexOk(t: Tuning, tasks: map<string, Task>, x: Index)
    requires t.tau != 0.0
  {
    FactsOk(x.facts) && forall s :: Lists(s, x.facts) ==> Project(t, tasks, s) == Ok(x.learned)
  }

  lemma ListsAreConsistent(s: seq<Fact>, facts: map<FactKey, Fact>)
    requires FactsOk(facts) && Lists(s, facts)
    ensures Consistent(s)
  {
  }

  lemma ListsAgree(t: Tuning, tasks: map<string, Task>, s: seq<Fact>, s': seq<Fact>, facts: map<FactKey, Fact>)
    requires t.tau != 0.0 && FactsOk(facts) && Lists(s, facts) && Lists(s', facts)
    ensures Project(t, tasks, s) == Project(t, tasks, s')
  {
    ListsAreConsistent(s, facts);
    ListsAreConsistent(s', facts);
    forall x ensures x in s <==> x in s' {
      if x in s {
        var i :| 0 <= i < |s| && s[i] == x;
        assert facts[KeyOf(x)] in s';
      }
      if x in s' {
        var i :| 0 <= i < |s'| && s'[i] == x;
        assert facts[KeyOf(x)] in s;
      }
    }
    ProjectionForgetsOrder(t, tasks, s, s');
  }

  // What storing may do: keep every stored fact, and add only facts that were given.
  predicate Extends(facts: map<FactKey, Fact>, after: map<FactKey, Fact>, added: seq<Fact>) {
    && FactsOk(after)
    && (forall k :: k in facts ==> k in after && after[k] == facts[k])
    && (forall i :: 0 <= i < |added| ==> KeyOf(added[i]) in after && after[KeyOf(added[i])] == added[i])
    && (forall k :: k in after ==> k in facts || after[k] in added)
  }

  lemma ExtendsOnce(facts: map<FactKey, Fact>, before: map<FactKey, Fact>, front: seq<Fact>, f: Fact)
    requires Extends(facts, before, front) && StoreOne(before, f).Ok?
    ensures Extends(facts, StoreOne(before, f).value, front + [f])
  {
    var after := StoreOne(before, f).value;
    assert forall x :: x in front ==> x in front + [f];
    assert (front + [f])[|front|] == f;
  }

  lemma {:induction false} StoredOk(facts: map<FactKey, Fact>, added: seq<Fact>)
    requires FactsOk(facts)
    ensures Stored(facts, added).Ok? ==> Extends(facts, Stored(facts, added).value, added)
  {
    if added != [] && Stored(facts, added).Ok? {
      var front, last := added[..|added| - 1], added[|added| - 1];
      StoredOk(facts, front);
      assert added == front + [last];
      ExtendsOnce(facts, Stored(facts, front).value, front, last);
    }
  }

  // Facts that are already stored are accepted and change nothing.
  lemma {:induction false} StoredAgain(facts: map<FactKey, Fact>, part: map<FactKey, Fact>, added: seq<Fact>)
    requires FactsOk(facts) && forall k :: k in part ==> k in facts && part[k] == facts[k]
    requires forall f :: f in added ==> KeyOf(f) in facts && facts[KeyOf(f)] == f
    ensures Stored(part, added).Ok?
    ensures var after := Stored(part, added).value;
            && (forall k :: k in after ==> k in facts && after[k] == facts[k])
            && (forall k :: k in part ==> k in after)
            && (forall f :: f in added ==> KeyOf(f) in after)
  {
    if added != [] {
      var front, last := added[..|added| - 1], added[|added| - 1];
      assert added == front + [last];
      assert last in added && forall f :: f in front ==> f in added;
      StoredAgain(facts, part, front);
    }
  }

  // Learning batch after batch stores what one batch of everything would.
  lemma {:induction false} BatchesCompose(facts: map<FactKey, Fact>, a: seq<Fact>, b: seq<Fact>)
    requires Stored(facts, a).Ok?
    ensures Stored(facts, a + b) == Stored(Stored(facts, a).value, b)
  {
    if b == [] {
      assert a + b == a;
    } else {
      assert (a + b)[..|a + b| - 1] == a + b[..|b| - 1];
      BatchesCompose(facts, a, b[..|b| - 1]);
    }
  }

  // Rebuilding from any listing of the stored facts, with repetitions, gives back the index that
  // was learned step by step.
  lemma RebuildEqualsIncremental(t: Tuning, tasks: map<string, Task>, x: Index, s: seq<Fact>)
    requires t.tau != 0.0 && IndexOk(t, tasks, x) && Lists(s, x.facts)
    ensures Stored(map[], s) == Ok(x.facts) && Project(t, tasks, s) == Ok(x.learned)
  {
    assert forall f :: f in s ==> KeyOf(f) in x.facts && x.facts[KeyOf(f)] == f;
    StoredAgain(x.facts, map[], s);
    var after := Stored(map[], s).value;
    forall k | k in x.facts ensures k in after {
      assert x.facts[k] in s;
    }
    assert after.Keys == x.facts.Keys;
    assert after == x.facts;
  }

  // A successful synchronization leaves a correct index, whichever order the table listed.
  lemma SynchronizedOk(t: Tuning, tasks: map<string, Task>, facts: map<FactKey, Fact>, added: seq<Fact>, s: seq<Fact>)
    requires t.tau != 0.0 && FactsOk(facts) && Stored(facts, added).Ok?
    requires Lists(s, Stored(facts, added).value) && Project(t, tasks, s).Ok?
    ensures IndexOk(t, tasks, Index(Stored(facts, added).value, Project(t, tasks, s).value))
  {
    StoredOk(facts, added);
    var after := Stored(facts, added).value;
    forall s' | Lists(s', after) ensures Project(t, tasks, s') == Project(t, tasks, s) {
      ListsAgree(t, tasks, s, s', after);
    }
  }

  lemma ListsSomething(s: seq<Fact>, facts: map<FactKey, Fact>)
    requires Lists(s, facts) && s != []
    ensures facts != map[]
  {
    assert KeyOf(s[0]) in facts;
  }

  lemma EmptyIndex(t: Tuning)
    requires t.tau != 0.0
    ensures IndexOk(t, map[], Index(map[], NOTHING))
  {
    forall s | Lists(s, map[]) ensures Project(t, map[], s) == Ok(NOTHING) {
      if s != [] {
        ListsSomething(s, map[]);
        assert false;
      }
    }
  }

  predicate Grown(tasks: map<string, Task>, tasks': map<string, Task>) {
    forall id :: id in tasks ==> id in tasks' && tasks'[id] == tasks[id]
  }

  lemma {:induction false} FoldStable(t: Tuning, tasks: map<string, Task>, tasks': map<string, Task>, facts: seq<Fact>)
    requires t.tau != 0.0 && Grown(tasks, tasks') && Fold(t, tasks, facts).Ok?
    ensures Fold(t, tasks', facts) == Fold(t, tasks, facts)
  {
    if facts != [] { FoldStable(t, tasks, tasks', facts[..|facts| - 1]); }
  }

  // New tasks do not disturb a correct index.
  lemma IndexStable(t: Tuning, tasks: map<string, Task>, tasks': map<string, Task>, x: Index)
    requires t.tau != 0.0 && Grown(tasks, tasks') && IndexOk(t, tasks, x)
    ensures IndexOk(t, tasks', x)
  {
    forall s | Lists(s, x.facts) ensures Project(t, tasks', s) == Ok(x.learned) {
      assert Project(t, tasks, s).Ok?;
      FoldStable(t, tasks, tasks', Sort(Earlier, Unique(s)));
    }
  }

  // ---- Runs of the shared field ----

  datatype World = World(tasks: map<string, Task>, index: Index)

  // One enqueue, or one synchronization with the order the table listed its facts in.
  datatype Op =
    | Enqueue(id: string, task: Task)
    | Synchronize(added: seq<Fact>, replace: bool, listing: seq<Fact>)

  function Target(w: World, op: Op): Outcome<map<FactKey, Fact>>
    requires op.Synchronize?
  {
    Stored(if op.replace then map[] else w.index.facts, op.added)
  }

  predicate Ready(w: World, op: Op) {
    op.Synchronize? && Target(w, op).Ok? ==> Lists(op.listing, Target(w, op).value)
  }

  // A synchronization that fails anywhere is rolled back.
  function Step(t: Tuning, w: World, op: Op): World
    requires t.tau != 0.0
  {
    match op
    case Enqueue(id, task) => if id in w.tasks then w else w.(tasks := w.tasks[id := task])
    case Synchronize(_, _, listing) =>
      var projected := Project(t, w.tasks, listing);
      if Target(w, op).Err? || projected.Err? then w
      else w.(index := Index(Target(w, op).value, projected.value))
  }

  lemma StepKeepsIndex(t: Tuning, w: World, op: Op)
    requires t.tau != 0.0 && Ready(w, op) && IndexOk(t, w.tasks, w.index)
    ensures IndexOk(t, Step(t, w, op).tasks, Step(t, w, op).index)
  {
    match op
    case Enqueue(id, task) =>
      if id !in w.tasks { IndexStable(t, w.tasks, w.tasks[id := task], w.index); }
    case Synchronize(added, replace, listing) =>
      if Target(w, op).Ok? && Project(t, w.tasks, listing).Ok? {
        SynchronizedOk(t, w.tasks, if replace then map[] else w.index.facts, added, listing);
      }
  }

  // After any run of enqueues and synchronizations, replacing or adding, refused or accepted, the
  // derived tables are the projection of the stored facts, and rebuilding from any listing of them
  // gives the same tables back.
  lemma DerivedTablesAlwaysProject(t: Tuning, ops: seq<Op>)
    requires t.tau != 0.0
    requires Allowed(Ready, (w: World, op: Op) => if t.tau != 0.0 then Step(t, w, op) else w,
                     World(map[], Index(map[], NOTHING)), ops)
    ensures var w := Run((w: World, op: Op) => if t.tau != 0.0 then Step(t, w, op) else w,
                         World(map[], Index(map[], NOTHING)), ops);
            IndexOk(t, w.tasks, w.index)
            && forall s :: Lists(s, w.index.facts) ==>
                             Stored(map[], s) == Ok(w.index.facts) && Project(t, w.tasks, s) == Ok(w.index.learned)
  {
    var step := (w: World, op: Op) => if t.tau != 0.0 then Step(t, w, op) else w;
    var inv := (w: World) => t.tau != 0.0 && IndexOk(t, w.tasks, w.index);
    var start := World(map[], Index(map[], NOTHING));
    forall w, op | inv(w) && Ready(w, op)
      ensures inv(step(w, op))
    {
      StepKeepsIndex(t, w, op);
    }
    EmptyIndex(t);
    Invariant(Ready, step, inv, start, ops);
    var w := Run(step, start, ops);
    forall s | Lists(s, w.index.facts)
      ensures Stored(map[], s) == Ok(w.index.facts) && Project(t, w.tasks, s) == Ok(w.index.learned)
    {
      RebuildEqualsIncremental(t, w.tasks, w.index, s);
    }
  }

  // ---- Bounds ----

  predicate TasksOk(tasks: map<string, Task>) {
    forall id :: id in tasks ==> 0.0 <= tasks[id].concentration <= CEILING
  }

  // Learned weights stay between the default and a half, concentrations below the ceiling.
  predicate LearnedOk(l: Learned) {
    && (forall id :: id in l.signals ==> 0.0 <= l.signals[id].concentration <= CEILING)
    && (forall p :: p in l.history ==> DEFAULT_WEIGHT <= l.history[p].weight <= 0.5)
  }

  lemma Scaled(x: real, k: real)
    requires x >= 0.0 && 0.0 <= k <= 1.0
    ensures 0.0 <= x * k <= x
  {
  }

  lemma DecayedInRange(t: Tuning, x: real, start: real, now: real, m: real)
    requires TuningOk(t) && start <= now && m >= 0.0
    ensures x >= 0.0 ==> 0.0 <= Decayed(t, x, start, now, m) <= x
    ensures x <= 0.0 ==> x <= Decayed(t, x, start, now, m) <= 0.0
  {
    var e :| e == (now - start) * m / t.tau;
    assert e >= 0.0 by { assert (now - start) * m >= 0.0; }
    var part := Part(x, t.d(e));
    assert Decayed(t, x, start, now, m) == part;
  }

  lemma StrengthenedOk(t: Tuning, prev: Trace, at: real)
    requires TuningOk(t) && 0.0 <= prev.concentration && prev.at <= at
    ensures 0.0 <= Strengthened(t, prev, at).concentration <= CEILING
  {
    DecayedInRange(t, prev.concentration, prev.at, at, 1.0);
  }

  lemma ScaledDown(x: real, k: real)
    requires x <= 0.0 && 0.0 <= k <= 1.0
    ensures x <= x * k <= 0.0
  {
    var y :| y == -x;
    Scaled(y, k);
    assert y * k == -(x * k);
  }

  // A fraction of `x` lies between zero and `x`.
  lemma Part(x: real, k: real) returns (part: real)
    requires 0.0 <= k <= 1.0
    ensures part == x * k
    ensures (x >= 0.0 ==> 0.0 <= part <= x) && (x <= 0.0 ==> x <= part <= 0.0)
  {
    part :| part == x * k;
    if x >= 0.0 {
      Scaled(x, k);
      assert 0.0 <= part <= x;
    } else {
      ScaledDown(x, k);
      assert x <= part <= 0.0;
    }
  }

  lemma BlendMoves(weight: real, reward: real, alpha: real, part: real)
    requires part == (reward - weight) * alpha
    ensures Blend(weight, reward, alpha) == weight + part
  {
  }

  // A blend lies between its parts.
  lemma BlendInRange(weight: real, reward: real, alpha: real, low: real, high: real)
    requires low <= weight <= high && low <= reward <= high && 0.0 <= alpha <= 1.0
    ensures low <= Blend(weight, reward, alpha) <= high
  {
    var part := Part(reward - weight, alpha);
    BlendMoves(weight, reward, alpha, part);
  }

  lemma PractisedOk(t: Tuning, prev: Habit, at: real)
    requires TuningOk(t) && DEFAULT_WEIGHT <= prev.weight <= 0.5 && prev.at <= at
    ensures DEFAULT_WEIGHT <= Practised(t, prev, at).weight <= 0.5
  {
    DecayedInRange(t, prev.weight - DEFAULT_WEIGHT, prev.at, at, 1.0);
    var weight := DEFAULT_WEIGHT + Decayed(t, prev.weight - DEFAULT_WEIGHT, prev.at, at, 1.0);
    BlendInRange(weight, 0.5, t.alpha, DEFAULT_WEIGHT, 0.5);
  }

  lemma {:induction false} FoldBounded(t: Tuning, tasks: map<string, Task>, facts: seq<Fact>)
    requires TuningOk(t) && TasksOk(tasks) && Fold(t, tasks, facts).Ok?
    ensures LearnedOk(Fold(t, tasks, facts).value)
  {
    if facts != [] {
      var front, f := facts[..|facts| - 1], facts[|facts| - 1];
      FoldBounded(t, tasks, front);
      var l := Fold(t, tasks, front).value;
      StrengthenedOk(t, TraceOf(l, f.taskId, tasks[f.taskId]), f.at);
      PractisedOk(t, HabitOf(l, f), f.at);
    }
  }

  lemma LearnedIsBounded(t: Tuning, tasks: map<string, Task>, facts: seq<Fact>)
    requires TuningOk(t) && TasksOk(tasks) && Project(t, tasks, facts).Ok?
    ensures LearnedOk(Project(t, tasks, facts).value)
  {
    FoldBounded(t, tasks, Sort(Earlier, Unique(facts)));
  }

  // ---- Decay at reading time ----

  // What the field's own updates may leave in a local row or habit.
  predicate RowOk(row: LocalRow) {
    0.0 <= row.concentration <= CEILING && 1.0 <= row.multiplier <= MAX_MULTIPLIER
  }

  // The local row after zero-delta deposits of the task's own signal at the given times.
  function Resaved(t: Tuning, task: Task, local: Option<LocalRow>, times: seq<real>): Outcome<Option<LocalRow>>
    requires t.tau != 0.0
    decreases |times|
  {
    if times == [] then Ok(local)
    else
      var saved := Deposited(t, task, local, None, task.signalId, 0.0, times[0]);
      if saved.Err? then Err(saved.error) else Resaved(t, task, Some(saved.value), times[1..])
  }

  lemma ElapsedSplits(start: real, middle: real, end: real, m: real, tau: real)
    requires start <= middle <= end && m >= 0.0 && tau > 0.0
    ensures (middle - start) * m / tau >= 0.0 && (end - middle) * m / tau >= 0.0
    ensures (middle - start) * m / tau + (end - middle) * m / tau == (end - start) * m / tau
  {
    assert (middle - start) * m >= 0.0 && (end - middle) * m >= 0.0;
  }

  lemma Regrouped(c: real, a: real, b: real)
    ensures c * (a * b) == (c * a) * b
  {
  }

  // Decaying in two steps is decaying once.
  lemma DecayedTwice(t: Tuning, x: real, start: real, middle: real, now: real, m: real)
    requires TuningOk(t) && m >= 0.0 && start <= middle <= now
    ensures Decayed(t, Decayed(t, x, start, middle, m), middle, now, m) == Decayed(t, x, start, now, m)
  {
    ElapsedSplits(start, middle, now, m, t.tau);
    var first, second := (middle - start) * m / t.tau, (now - middle) * m / t.tau;
    assert Multiplies(t.d, first, second);
    Regrouped(x, t.d(first), t.d(second));
  }

  lemma DecayTwice(t: Tuning, row: LocalRow, middle: real, now: real)
    requires TuningOk(t) && row.multiplier >= 0.0 && row.at <= middle <= now
    ensures ReadRow(t, LocalRow(ReadRow(t, row, middle).value.concentration, middle, row.multiplier), now)
            == ReadRow(t, row, now)
  {
    DecayedTwice(t, row.concentration, row.at, middle, now, row.multiplier);
  }

  lemma ReadingInRange(t: Tuning, row: LocalRow, now: real)
    requires TuningOk(t) && row.multiplier >= 0.0 && row.concentration >= 0.0 && row.at <= now
    ensures 0.0 <= ReadRow(t, row, now).value.concentration <= row.concentration
  {
    DecayedInRange(t, row.concentration, row.at, now, row.multiplier);
  }

  // Depositing nothing at any intermediate times succeeds and changes no later reading.
  lemma {:induction false} ReadingIsPathIndependent(t: Tuning, task: Task, local: Option<LocalRow>, times: seq<real>,
                                                    now: real)
    requires TuningOk(t) && RowOk(Anchor(task, local, None))
    requires forall i :: 0 <= i < |times| ==> Anchor(task, local, None).at <= times[i] <= now
    requires forall i, j :: 0 <= i < j < |times| ==> times[i] <= times[j]
    requires Anchor(task, local, None).at <= now
    ensures Resaved(t, task, local, times).Ok?
    ensures ReadRow(t, Anchor(task, Resaved(t, task, local, times).value, None), now) ==
            ReadRow(t, Anchor(task, local, None), now)
    decreases |times|
  {
    if times != [] {
      var row := Anchor(task, local, None);
      ReadingInRange(t, row, times[0]);
      DecayTwice(t, row, times[0], now);
      var saved := Deposited(t, task, local, None, task.signalId, 0.0, times[0]).value;
      ReadingIsPathIndependent(t, task, Some(saved), times[1..], now);
    }
  }

  // A deposit under another signal identity raises nothing: the row it saves is no higher than
  // the one it replaces, and every later reading is the one there would have been without it.
  lemma DuplicateNeverRaises(t: Tuning, task: Task, local: Option<LocalRow>, learned: Option<Trace>, signalId: string,
                             delta: real, at: real, now: real)
    requires TuningOk(t) && signalId != task.signalId && at <= now
    requires Deposited(t, task, local, learned, signalId, delta, at).Ok?
    requires var row := Anchor(task, local, learned); row.multiplier >= 0.0 && row.concentration >= 0.0
    ensures var row := Anchor(task, local, learned);
            var saved := Deposited(t, task, local, learned, signalId, delta, at).value;
            && saved.concentration <= row.concentration
            && ReadRow(t, Anchor(task, Some(saved), learned), now) == ReadRow(t, row, now)
  {
    var row := Anchor(task, local, learned);
    ReadingInRange(t, row, at);
    DecayTwice(t, row, at, now);
  }

  lemma DepositedOk(t: Tuning, task: Task, local: Option<LocalRow>, learned: Option<Trace>, signalId: string,
                    delta: real, now: real)
    requires TuningOk(t) && RowOk(Anchor(task, local, learned))
    ensures var saved := Deposited(t, task, local, learned, signalId, delta, now); saved.Ok? ==> RowOk(saved.value)
  {
    if Anchor(task, local, learned).at <= now { ReadingInRange(t, Anchor(task, local, learned), now); }
  }

  lemma FedBackOk(t: Tuning, task: Task, local: Option<LocalRow>, learned: Option<Trace>, success: bool, reward: real,
                  now: real)
    requires TuningOk(t) && RowOk(Anchor(task, local, learned))
    ensures var saved := FedBack(t, task, local, learned, success, reward, now); saved.Ok? ==> RowOk(saved.value)
  {
    var row := Anchor(task, local, learned);
    if row.at <= now && 0.0 <= reward <= 1.0 {
      ReadingInRange(t, row, now);
      var c := ReadRow(t, row, now).value.concentration;
      Scaled(c, 1.0 - 0.5 * reward);
      Raised(row.multiplier, reward);
      assert c * (1.0 - 0.5 * reward) <= CEILING;
    }
  }

  lemma Raised(m: real, reward: real)
    requires m >= 1.0 && reward >= 0.0
    ensures m * (1.0 + reward) >= 1.0
  {
    assert m * (1.0 + reward) == m + m * reward && m * reward >= 0.0;
  }

  lemma HabitInRange(t: Tuning, habit: Option<Habit>, prior: Option<real>, now: real)
    requires TuningOk(t) && (habit.Some? ==> 0.0 <= habit.value.weight <= 1.0)
    requires prior.Some? ==> 0.0 <= prior.value <= 1.0
    ensures var read := ReadHabit(t, habit, prior, now); read.Ok? ==> 0.0 <= read.value.0 <= 1.0
  {
    if habit.Some? && habit.value.at <= now {
      var baseline := if prior.Some? then prior.value else 0.0;
      DecayedInRange(t, habit.value.weight - baseline, habit.value.at, now, 1.0);
    }
  }

  // A reinforced weight stays a fraction.
  lemma ReinforcedOk(t: Tuning, habit: Option<Habit>, worker: string, pipe: string, reward: real, prior: Option<real>,
                     now: real)
    requires TuningOk(t) && (habit.Some? ==> 0.0 <= habit.value.weight <= 1.0)
    ensures var saved := Reinforced(t, habit, worker, pipe, reward, prior, now);
            saved.Ok? ==> 0.0 <= saved.value.weight <= 1.0
  {
    if Reinforced(t, habit, worker, pipe, reward, prior, now).Ok? {
      HabitInRange(t, habit, prior, now);
      BlendInRange(ReadHabit(t, habit, prior, now).value.0, reward, t.alpha, 0.0, 1.0);
    }
  }

  // ---- The preview ----

  const PREVIEW_TAU: real := 86400.0
  const PREVIEW_ALPHA: real := 0.05

  function PreviewTuning(d: real -> real): Tuning {
    Tuning(d, PREVIEW_TAU, PREVIEW_ALPHA)
  }

  // `PreviewField.for_records`: the projected trace or the task's own signal, decayed once.
  function PreviewConcentration(t: Tuning, task: Task, trace: Option<Trace>, now: real): Outcome<real>
    requires t.tau != 0.0
  {
    var c := if trace.Some? then trace.value else Trace(task.concentration, task.createdAt);
    if now < c.at then Err(NegativeElapsed) else Ok(Decayed(t, c.concentration, c.at, now, 1.0))
  }

  function PreviewWeight(t: Tuning, habit: Option<Habit>, prior: Option<real>, now: real): Outcome<(real, nat)>
    requires t.tau != 0.0
  {
    if habit.None? then Ok((DEFAULT_WEIGHT, 0))
    else if now < habit.value.at then Err(NegativeElapsed)
    else
      var baseline := if prior.Some? then prior.value else 0.0;
      Ok((baseline + Decayed(t, habit.value.weight - baseline, habit.value.at, now, 1.0), habit.value.samples))
  }

  function Lookup<K, V>(m: map<K, V>, k: K): Option<V> {
    if k in m then Some(m[k]) else None
  }

  // After a full replacement by some facts, the durable field holds the preview's projection of
  // those facts whenever it runs on the preview's constants ...
  lemma PreviewProjects(t: Tuning, tasks: map<string, Task>, facts: seq<Fact>, x: Index)
    requires TuningOk(t) && Stored(map[], facts) == Ok(x.facts) && IndexOk(t, tasks, x)
    ensures t == PreviewTuning(t.d) ==> Project(PreviewTuning(t.d), tasks, facts) == Ok(x.learned)
  {
    StoredOk(map[], facts);
    forall k | k in x.facts ensures x.facts[k] in facts {
      assert k in x.facts;
    }
    assert Lists(facts, x.facts);
  }

  // ... and reads as the preview does, for every task and pipe without a local row of its own and
  // for every one the facts speak about.
  lemma PreviewReads(t: Tuning, l: Learned, id: string, task: Task, local: Option<LocalRow>, pipe: Pipe,
                     practice: Option<Habit>, prior: Option<real>, now: real)
    requires t == PreviewTuning(t.d)
    requires local.None? || id in l.signals
    requires practice.None? || pipe in l.history
    ensures var trace := Lookup(l.signals, id);
            var durable := ReadRow(t, Anchor(task, local, trace), now);
            var preview := PreviewConcentration(PreviewTuning(t.d), task, trace, now);
            durable.Ok? == preview.Ok? && (durable.Ok? ==> durable.value.concentration == preview.value)
    ensures var habit := Lookup(l.history, pipe);
            ReadHabit(t, if habit.Some? then habit else practice, prior, now)
            == PreviewWeight(PreviewTuning(t.d), habit, prior, now)
  {
    assert Anchor(task, local, Lookup(l.signals, id)).multiplier == 1.0;
  }
}
