// What the task ledger promises, for every reachable state and every run.
module TaskTheorems {
  import opened Wrappers
  import opened Runs
  import opened Scopes
  import opened RequestIds
  import opened TaskModel
  import opened TaskInvariant
  import opened TaskSafety

  // ---- Scope exclusion ----

  // Two live tasks collide component-wise exactly when one of them, and only one, is the
  // filesystem root: everywhere else the claim guard keeps live scopes apart.
  lemma ScopeExclusion(w: World, a: TaskId, b: TaskId)
    requires Reachable(w)
    requires a in w.db.tasks && b in w.db.tasks && a != b
    requires Live(w.db.tasks[a], w.now) && Live(w.db.tasks[b], w.now)
    ensures var s, t := w.db.tasks[a].spec.scope, w.db.tasks[b].spec.scope;
            ScopesCollide(s, t) <==> (s == ROOT) != (t == ROOT)
  {
    ReachableOk(w);
    var s, t := w.db.tasks[a].spec.scope, w.db.tasks[b].spec.scope;
    assert RowOk(w.db.limits, w.db.tasks[a]) && RowOk(w.db.limits, w.db.tasks[b]);
    assert !GuardBlocks(s, t);
    GuardAgreesExactly(s, t);
    if s == ROOT { RootEscapesTheGuard(t); }
    if t == ROOT { RootEscapesTheGuard(s); }
  }

  // The exception is reachable: a worker holds the root while another holds a scope below it.

  const LIMITS := RunLimits(10, 10, 3, 0, 100.0)
  const EVERYWHERE := Locality("w", [ROOT], [], [])
  const BELOW := "/a"

  function SpecAt(scope: string): TaskSpec {
    TaskSpec("w", scope, "", "", "", "", "")
  }

  function RequestAt(id: TaskId, scope: string): Request {
    Request(id, SpecAt(scope), [], None, None)
  }

  function RowAt(rowid: nat, scope: string): Task {
    Task(rowid, SpecAt(scope), {}, None, Available, 0, 0, None, None, None, None, None, false, 0)
  }

  function ClaimedRow(row: Task, worker: WorkerId): Task {
    row.(status := Claimed, attempts := 1, token := 1, owner := Some(worker), expiry := Some(30.0))
  }

  lemma BelowIsCanonical()
    ensures Canonical(ROOT) && Canonical(BELOW) && BELOW != ROOT
    ensures Authorizes(ROOT, ROOT) && Authorizes(ROOT, BELOW)
  {
    ComponentsOfRender([]);
    assert IsPath(["a"]);
    ComponentsOfRender(["a"]);
    assert Joined(["a"]) == "/a";
    assert TrimRight(ROOT[..0]) == "";
    assert TrimRight(ROOT) == "";
    assert "" + [SEP] <= BELOW;
  }

  lemma EnqueueFresh(db: Db, id: TaskId, scope: string)
    requires db.limits == LIMITS && db.startedAt == 0.0 && |db.tasks| < 2 && id !in db.tasks && Canonical(scope)
    ensures Enqueue(db, RequestAt(id, scope), 0.0).0 ==
            Log(Put(db, id, RowAt(|db.tasks|, scope)), id, Created(None))
  {
    var r := RequestAt(id, scope);
    assert NewTask(db, r) == RowAt(|db.tasks|, scope);
  }

  lemma ClaimFresh(db: Db, id: TaskId, worker: WorkerId)
    requires db.limits == LIMITS && db.startedAt == 0.0 && |db.attempts| < 2 && id in db.tasks
    requires exists n :: db.tasks[id] == RowAt(n, db.tasks[id].spec.scope)
    requires Authorizes(ROOT, db.tasks[id].spec.scope) && ScopeFree(db, id, 0.0) && !Blank(worker)
    ensures Claim(db, id, worker, 30.0, EVERYWHERE, 0.0, 0.0).0.tasks
            == db.tasks[id := ClaimedRow(db.tasks[id], worker)]
    ensures Claim(db, id, worker, 30.0, EVERYWHERE, 0.0, 0.0).0.attempts ==
            db.attempts[(id, 1) := Attempt(worker, false, None)]
  {
    assert ROOT in EVERYWHERE.authorized;
    assert Local(db, EVERYWHERE, id);
    assert Eligible(db, id, 0.0);
  }

  lemma TwoQueued() returns (w: World)
    ensures Reachable(w) && w.db.limits == LIMITS && w.db.startedAt == 0.0 && w.now == 0.0 && w.db.attempts == map[]
    ensures w.db.tasks == map["r" := RowAt(0, ROOT), "b" := RowAt(1, BELOW)]
  {
    BelowIsCanonical();
    var w0 := Start(LIMITS, 0.0);
    ReachableStart(LIMITS, 0.0);
    EnqueueFresh(w0.db, "r", ROOT);
    ReachableStep(w0, DoEnqueue(RequestAt("r", ROOT), 0.0));
    var w1 := Step(w0, DoEnqueue(RequestAt("r", ROOT), 0.0));
    assert w1.db.tasks == map["r" := RowAt(0, ROOT)];
    EnqueueFresh(w1.db, "b", BELOW);
    ReachableStep(w1, DoEnqueue(RequestAt("b", BELOW), 0.0));
    w := Step(w1, DoEnqueue(RequestAt("b", BELOW), 0.0));
    assert w.db.tasks == map["r" := RowAt(0, ROOT), "b" := RowAt(1, BELOW)];
  }

  lemma ClaimReachable(w: World, id: TaskId, worker: WorkerId)
    requires Reachable(w) && w.now == 0.0
    requires w.db.limits == LIMITS && w.db.startedAt == 0.0 && |w.db.attempts| < 2 && id in w.db.tasks
    requires exists n :: w.db.tasks[id] == RowAt(n, w.db.tasks[id].spec.scope)
    requires Authorizes(ROOT, w.db.tasks[id].spec.scope) && ScopeFree(w.db, id, 0.0) && !Blank(worker)
    ensures var w' := Step(w, DoClaim(id, worker, 30.0, EVERYWHERE, 0.0, 0.0));
            && Reachable(w') && w'.now == 0.0 && w'.db.limits == LIMITS && w'.db.startedAt == 0.0
            && w'.db.tasks == w.db.tasks[id := ClaimedRow(w.db.tasks[id], worker)]
            && w'.db.attempts == w.db.attempts[(id, 1) := Attempt(worker, false, None)]
  {
    ClaimFresh(w.db, id, worker);
    ReachableStep(w, DoClaim(id, worker, 30.0, EVERYWHERE, 0.0, 0.0));
  }

  lemma RootIsNotExcluded()
    ensures exists w, a, b :: && Reachable(w) && a in w.db.tasks && b in w.db.tasks && a != b
                              && Live(w.db.tasks[a], w.now) && Live(w.db.tasks[b], w.now)
                              && ScopesCollide(w.db.tasks[a].spec.scope, w.db.tasks[b].spec.scope)
  {
    BelowIsCanonical();
    RootEscapesTheGuard(BELOW);
    var x, y := "x", "y";
    assert !Blank(x) by { assert x[0] == 'x'; }
    assert !Blank(y) by { assert y[0] == 'y'; }
    var w2 := TwoQueued();
    ClaimReachable(w2, "r", x);
    var w3 := Step(w2, DoClaim("r", x, 30.0, EVERYWHERE, 0.0, 0.0));
    assert w3.db.tasks["b"] == RowAt(1, BELOW);
    assert ScopeFree(w3.db, "b", 0.0);
    ClaimReachable(w3, "b", y);
    var w4 := Step(w3, DoClaim("b", y, 30.0, EVERYWHERE, 0.0, 0.0));
    assert Live(w4.db.tasks["r"], w4.now) && Live(w4.db.tasks["b"], w4.now);
  }

  // ---- Dependency closure ----

  // Each element depends directly on the next.
  ghost predicate DependsAlong(tasks: map<TaskId, Task>, path: seq<TaskId>) {
    && (forall i :: 0 <= i < |path| ==> path[i] in tasks)
    && (forall i :: 0 <= i < |path| - 1 ==> path[i + 1] in tasks[path[i]].deps)
  }

  lemma {:induction false} DependencyChain(tasks: map<TaskId, Task>, path: seq<TaskId>)
    requires DepsOk(tasks) && DependsAlong(tasks, path) && |path| >= 2
    requires forall id :: id in tasks && tasks[id].status.Completed? ==> tasks[id].token > 0
    ensures tasks[path[|path| - 1]].rowid < tasks[path[0]].rowid
    ensures tasks[path[0]].token > 0 ==> tasks[path[|path| - 1]].status.Completed?
  {
    assert path[1] in tasks[path[0]].deps;
    if |path| > 2 {
      var rest := path[1..];
      assert forall i :: 0 <= i < |rest| - 1 ==> rest[i + 1] in tasks[rest[i]].deps by {
        forall i | 0 <= i < |rest| - 1 ensures rest[i + 1] in tasks[rest[i]].deps {
          assert path[(i + 1) + 1] in tasks[path[i + 1]].deps;
        }
      }
      DependencyChain(tasks, rest);
    }
  }

  // No task depends on itself through any chain, and a task that was ever claimed has every
  // transitive dependency completed, now and after any further run.
  lemma DependencyClosure(w: World, path: seq<TaskId>, ops: seq<Op>)
    requires Reachable(w) && DependsAlong(w.db.tasks, path) && |path| >= 2
    requires Allowed(Ready, Step, w, ops)
    ensures path[0] != path[|path| - 1]
    ensures w.db.tasks[path[0]].token > 0 ==>
              && path[|path| - 1] in Run(Step, w, ops).db.tasks
              && Run(Step, w, ops).db.tasks[path[|path| - 1]] == w.db.tasks[path[|path| - 1]]
              && w.db.tasks[path[|path| - 1]].status.Completed?
  {
    ReachableOk(w);
    forall id | id in w.db.tasks && w.db.tasks[id].status.Completed?
      ensures w.db.tasks[id].token > 0
    {
      assert RowOk(w.db.limits, w.db.tasks[id]);
    }
    DependencyChain(w.db.tasks, path);
    RunKeeps(w, ops);
    var last := path[|path| - 1];
    assert RowLater(w.db.tasks[last], Run(Step, w, ops).db.tasks[last]);
  }

  // ---- Effect at most once ----

  lemma {:induction false} DistinctCounts(s: seq<TaskId>, id: TaskId)
    requires forall i, j :: 0 <= i < j < |s| ==> s[i] != s[j]
    ensures multiset(s)[id] <= 1
  {
    if s != [] {
      assert s == [s[0]] + s[1..];
      DistinctCounts(s[1..], id);
      assert s[0] !in s[1..];
    }
  }

  // Whatever crashes, exceptions and interleavings a run contains, a task's publication
  // callback has begun at most once, and then the task is past every further submit.
  lemma CallbackAtMostOnce(w: World, id: TaskId)
    requires Reachable(w)
    ensures multiset(w.starts)[id] <= 1
    ensures id in w.starts ==>
              id in w.db.tasks && (w.db.tasks[id].status.Submitting? || w.db.tasks[id].status.Completed?)
  {
    ReachableOk(w);
    DistinctCounts(w.starts, id);
    if id in w.starts { assert CallbackBegun(w.db.tasks, id); }
  }

  // Completed, failed and blocked rows never change again; a submitting row can only complete.
  lemma TerminalRowsAbsorb(w: World, ops: seq<Op>, id: TaskId)
    requires Reachable(w) && Allowed(Ready, Step, w, ops) && id in w.db.tasks
    ensures id in Run(Step, w, ops).db.tasks
    ensures var row, row' := w.db.tasks[id], Run(Step, w, ops).db.tasks[id];
            && (Terminal(row) ==> row' == row)
            && (row.status.Submitting? ==> row' == row || row'.status.Completed?)
  {
    ReachableOk(w);
    RunKeeps(w, ops);
    assert RowLater(w.db.tasks[id], Run(Step, w, ops).db.tasks[id]);
  }

  // After any run, resubmitting a completed task with the completing lease replays the same
  // result and rejects any other; neither changes the tables.
  lemma ResubmissionIsIdempotent(w: World, ops: seq<Op>, s: Submission, publishes: bool, t: real)
    requires Reachable(w) && Allowed(Ready, Step, w, ops)
    requires s.lease.taskId in w.db.tasks && w.db.tasks[s.lease.taskId].status.Completed?
    requires HeldBy(w.db.tasks[s.lease.taskId], s.lease) && !Blank(s.resultId)
    ensures var db, row := Run(Step, w, ops).db, w.db.tasks[s.lease.taskId];
            Submit(db, s, publishes, t) ==
            (db, if row.resultId == Some(s.resultId) && row.result == Some(s.body) then Ok(Replayed)
                 else Err(TaskConflict))
  {
    TerminalRowsAbsorb(w, ops, s.lease.taskId);
  }

  // ---- Fencing ----

  // Reasons no holder of this lease may act: a newer token, a lapsed expiry, or a closed task.
  predicate Stale(w: World, l: Lease) {
    && l.taskId in w.db.tasks
    && (l.token < w.db.tasks[l.taskId].token || l.expiresAt <= w.now || Terminal(w.db.tasks[l.taskId]))
  }

  // What every holder operation does for a lease that does not own its task.
  ghost predicate Powerless(db: Db, l: Lease, t: real) {
    && !Owned(db, l, t, true)
    && (forall ttl, u :: Renew(db, l, ttl, t, u).0 == db)
    && Release(db, l, t) == (db, Ok(false))
    && Fail(db, l, t) == (db, Err(LeaseLost))
    && (forall r, max :: Begin(db, l, r, max, t).0 == db)
    && (forall r :: Confirm(db, l, r, t) == (db, Err(LeaseLost)))
    && (forall target, kept :: Handoff(db, l, target, kept, t).0 == db)
    && (forall id, body, p :: Submit(db, Submission(l, id, body), p, t).0 == db)
    && (forall id, body, back, u :: Publish(db, Submission(l, id, body), back, t, u) == (db, Err(LeaseLost)))
  }

  lemma UnownedIsPowerless(db: Db, l: Lease, t: real)
    requires l.taskId in db.tasks && !Owned(db, l, t, true)
    ensures Powerless(db, l, t)
  {
    assert !Owned(db, l, t, false);
  }

  lemma StaleIsUnowned(w: World, l: Lease, t: real)
    requires Stale(w, l) && w.now <= t
    ensures !Owned(w.db, l, t, true)
  {
  }

  // A stale lease stays stale along every run, and no holder operation under it changes anything.
  lemma StaleLeaseIsFencedForever(w: World, ops: seq<Op>, l: Lease, t: real)
    requires Reachable(w) && Allowed(Ready, Step, w, ops) && Stale(w, l)
    requires Run(Step, w, ops).now <= t
    ensures Stale(Run(Step, w, ops), l)
    ensures Powerless(Run(Step, w, ops).db, l, t)
  {
    ReachableOk(w);
    RunKeeps(w, ops);
    var w' := Run(Step, w, ops);
    assert RowLater(w.db.tasks[l.taskId], w'.db.tasks[l.taskId]);
    StaleIsUnowned(w', l, t);
    UnownedIsPowerless(w'.db, l, t);
  }

  // ---- What a claim grants ----

  // A successful claim: its lease owns the task under a fresh token, all dependencies are completed,
  // and no other live task's scope meets the guard.
  lemma ClaimGrants(db: Db, id: TaskId, worker: WorkerId, ttl: real, loc: Locality, start: real, now: real)
    requires Claim(db, id, worker, ttl, loc, start, now).1.Ok?
    requires Claim(db, id, worker, ttl, loc, start, now).1.value.Some?
    ensures var (db', reply) := Claim(db, id, worker, ttl, loc, start, now);
            && id in db.tasks && id in db'.tasks && Owned(db', reply.value.value, now, false)
            && reply.value.value == Lease(id, db.tasks[id].spec.scope, worker, db.tasks[id].token + 1, now + ttl)
            && DependenciesDone(db', db'.tasks[id]) && ScopeFree(db', id, now)
  {
    var db' := Claim(db, id, worker, ttl, loc, start, now).0;
    assert Eligible(db, id, now);
    assert db'.tasks == db.tasks[id := db'.tasks[id]];
  }

  // And every lease of an earlier token of the task is powerless from then on.
  lemma ClaimFencesEarlier(w: World, id: TaskId, worker: WorkerId, ttl: real, loc: Locality, start: real, now: real,
                           l: Lease, ops: seq<Op>, t: real)
    requires Reachable(w) && w.now <= start <= now && id in w.db.tasks
    requires Claim(w.db, id, worker, ttl, loc, start, now).1.Ok?
             && Claim(w.db, id, worker, ttl, loc, start, now).1.value.Some?
    requires l.taskId == id && l.token <= w.db.tasks[id].token
    requires Allowed(Ready, Step, Step(w, DoClaim(id, worker, ttl, loc, start, now)), ops)
    requires Run(Step, Step(w, DoClaim(id, worker, ttl, loc, start, now)), ops).now <= t
    ensures Powerless(Run(Step, Step(w, DoClaim(id, worker, ttl, loc, start, now)), ops).db, l, t)
  {
    var op := DoClaim(id, worker, ttl, loc, start, now);
    ReachableStep(w, op);
    StaleLeaseIsFencedForever(Step(w, op), ops, l, t);
  }

  // ---- Renewed leases ----

  // The expiry the last renewal of this task and token wrote, from position `start` on.
  function LastRenewal(audit: seq<AuditRow>, start: nat, id: TaskId, token: nat): Option<real> {
    if |audit| <= start then None
    else
      var last := audit[|audit| - 1];
      if last.taskId == id && last.event.Renewed? && last.event.token == token then Some(last.event.expiresAt)
      else LastRenewal(audit[..|audit| - 1], start, id, token)
  }

  lemma {:induction false} LastRenewalSplits(a: seq<AuditRow>, b: seq<AuditRow>, start: nat, id: TaskId, token: nat)
    requires a <= b && start <= |a|
    ensures LastRenewal(b, start, id, token) ==
            (if LastRenewal(b, |a|, id, token).Some? then LastRenewal(b, |a|, id, token)
             else LastRenewal(a, start, id, token))
    decreases |b|
  {
    if |b| > |a| {
      LastRenewalSplits(a, b[..|b| - 1], start, id, token);
    } else {
      assert a == b;
    }
  }

  // While a token's lease lives its expiry is the last renewal's, and its owner never changes.
  ghost predicate KeepsLease(id: TaskId, w: World, w': World) {
    && w.db.audit <= w'.db.audit
    && (id in w.db.tasks ==>
          && id in w'.db.tasks
          && w.db.tasks[id].token <= w'.db.tasks[id].token && w'.db.tasks[id].spec == w.db.tasks[id].spec
          && (var row, row' := w.db.tasks[id], w'.db.tasks[id];
              row'.token == row.token && Held(row') ==>
                var renewal := LastRenewal(w'.db.audit, |w.db.audit|, id, row.token);
                && Held(row) && row'.owner == row.owner
                && row'.expiry == if renewal.Some? then renewal else row.expiry))
  }

  lemma OneRowRenewal(audit: seq<AuditRow>, a: AuditRow, id: TaskId, token: nat)
    ensures LastRenewal(audit + [a], |audit|, id, token) ==
            if a.taskId == id && a.event.Renewed? && a.event.token == token then Some(a.event.expiresAt) else None
  {
    assert (audit + [a])[..|audit + [a]| - 1] == audit;
  }

  lemma EditKeepsLease(id: TaskId, w: World, w': World, x: TaskId, e: Event, outcome: string)
    requires GoodEdit(w.db, w'.db, x, e, outcome, w.now, w'.now)
    ensures KeepsLease(id, w, w')
  {
    if id in w.db.tasks {
      OneRowRenewal(w.db.audit, AuditRow(x, e), id, w.db.tasks[id].token);
    }
  }

  lemma OtherRowKeepsLease(id: TaskId, w: World, w': World, a: AuditRow)
    requires w'.db.audit == w.db.audit + [a] && !a.event.Renewed?
    requires id in w.db.tasks ==> id in w'.db.tasks && w'.db.tasks[id] == w.db.tasks[id]
    ensures KeepsLease(id, w, w')
  {
    if id in w.db.tasks {
      OneRowRenewal(w.db.audit, a, id, w.db.tasks[id].token);
    }
  }

  lemma ChangeKeepsLease(id: TaskId, w: World, w': World)
    requires Change(w.db, w'.db, w.now, w'.now)
    ensures KeepsLease(id, w, w')
  {
    if w'.db == w.db {
    } else if x, e, outcome :| GoodEdit(w.db, w'.db, x, e, outcome, w.now, w'.now) {
      EditKeepsLease(id, w, w', x, e, outcome);
    } else if r :| Inserts(w.db, w'.db, r) {
      OtherRowKeepsLease(id, w, w', AuditRow(r.id, Created(r.derivedFrom)));
    } else {
      var a :| Counts(w.db, w'.db, a);
      OtherRowKeepsLease(id, w, w', a);
    }
  }

  lemma LeaseChains(id: TaskId, a: World, b: World, c: World)
    requires KeepsLease(id, a, b) && KeepsLease(id, b, c)
    ensures KeepsLease(id, a, c)
  {
    if id in a.db.tasks {
      LastRenewalSplits(b.db.audit, c.db.audit, |a.db.audit|, id, a.db.tasks[id].token);
    }
  }

  lemma RunKeepsLease(id: TaskId, w: World, ops: seq<Op>)
    requires Inv(w) && Allowed(Ready, Step, w, ops)
    ensures KeepsLease(id, w, Run(Step, w, ops))
  {
    var rel := (a: World, b: World) => KeepsLease(id, a, b);
    forall v, o | Inv(v) && Ready(v, o)
      ensures Inv(Step(v, o)) && rel(v, Step(v, o))
    {
      StepKeeps(v, o);
      StepChanges(v, o);
      ChangeKeepsLease(id, v, Step(v, o));
    }
    forall a, b, c | rel(a, b) && rel(b, c)
      ensures rel(a, c)
    {
      LeaseChains(id, a, b, c);
    }
    Relation(Ready, Step, Inv, rel, w, ops);
  }

  // After any run, a lease of the token held now owns its task exactly when that token is still
  // held, the lease names its owner and scope, has not expired, and its expiry is the one the last
  // renewal wrote, or today's if none did. In every other case it is powerless.
  lemma RenewalsDecideOwnership(w: World, ops: seq<Op>, l: Lease, t: real)
    requires Reachable(w) && Allowed(Ready, Step, w, ops)
    requires l.taskId in w.db.tasks && l.token == w.db.tasks[l.taskId].token && Held(w.db.tasks[l.taskId])
    ensures l.taskId in Run(Step, w, ops).db.tasks
    ensures var w' := Run(Step, w, ops);
            var row, row' := w.db.tasks[l.taskId], w'.db.tasks[l.taskId];
            var renewal := LastRenewal(w'.db.audit, |w.db.audit|, l.taskId, l.token);
            Owned(w'.db, l, t, true) <==>
            && row'.token == l.token && Held(row') && t < l.expiresAt
            && row.owner == Some(l.worker) && row.spec.scope == l.scope
            && (if renewal.Some? then renewal else row.expiry) == Some(l.expiresAt)
    ensures !Owned(Run(Step, w, ops).db, l, t, true) ==> Powerless(Run(Step, w, ops).db, l, t)
  {
    ReachableOk(w);
    RunKeeps(w, ops);
    RunKeepsLease(l.taskId, w, ops);
    assert RowLater(w.db.tasks[l.taskId], Run(Step, w, ops).db.tasks[l.taskId]);
    if !Owned(Run(Step, w, ops).db, l, t, true) {
      UnownedIsPowerless(Run(Step, w, ops).db, l, t);
    }
  }

  // So a renewed-over lease stays powerless along every run whose last renewal of its token, if
  // any, writes another expiry than its own.
  lemma RenewedOverIsFenced(w: World, ops: seq<Op>, l: Lease, t: real)
    requires Reachable(w) && Allowed(Ready, Step, w, ops)
    requires l.taskId in w.db.tasks && l.token == w.db.tasks[l.taskId].token && Held(w.db.tasks[l.taskId])
    requires w.db.tasks[l.taskId].expiry != Some(l.expiresAt)
    requires LastRenewal(Run(Step, w, ops).db.audit, |w.db.audit|, l.taskId, l.token) != Some(l.expiresAt)
    ensures Powerless(Run(Step, w, ops).db, l, t)
  {
    RenewalsDecideOwnership(w, ops, l, t);
  }

  lemma ClaimedTo30() returns (w: World)
    ensures Reachable(w) && w.now == 0.0 && "b" in w.db.tasks
    ensures w.db.tasks["b"] == ClaimedRow(RowAt(1, BELOW), "y")
  {
    BelowIsCanonical();
    assert !Blank("y") by { assert "y"[0] == 'y'; }
    var queued := TwoQueued();
    ClaimReachable(queued, "b", "y");
    w := Step(queued, DoClaim("b", "y", 30.0, EVERYWHERE, 0.0, 0.0));
  }

  // The lease to 30, renewed to 60.
  lemma RenewedOver() returns (w: World)
    ensures Reachable(w) && w.now == 0.0 && "b" in w.db.tasks
    ensures w.db.tasks["b"] == ClaimedRow(RowAt(1, BELOW), "y").(expiry := Some(60.0))
  {
    var claimed := ClaimedTo30();
    var renewal := DoRenew(Lease("b", BELOW, "y", 1, 30.0), 60.0, 0.0, 0.0);
    assert Owned(claimed.db, renewal.lease, 0.0, false);
    ReachableStep(claimed, renewal);
    w := Step(claimed, renewal);
  }

  // And it does own its task again when the lease is renewed back to the expiry it had.
  lemma RenewedBackOwnsAgain()
    ensures exists w, op, l: Lease, t :: Reachable(w) && Ready(w, op) && l.taskId in w.db.tasks
                                  && Powerless(w.db, l, t) && w.now <= t && Owned(Step(w, op).db, l, t, true)
  {
    var w := RenewedOver();
    var l := Lease("b", BELOW, "y", 1, 30.0);
    UnownedIsPowerless(w.db, l, 10.0);
    var back := DoRenew(l.(expiresAt := 60.0), 20.0, 10.0, 10.0);
    assert Owned(w.db, back.lease, 10.0, false);
    assert Owned(Step(w, back).db, l, 10.0, true);
    assert Ready(w, back) && Powerless(w.db, l, 10.0) && w.now <= 10.0;
  }

  // ---- Attempt accounting ----

  lemma AttemptAccounting(w: World, id: TaskId)
    requires Reachable(w) && id in w.db.tasks
    ensures var row := w.db.tasks[id];
            && row.attempts == row.token <= w.db.limits.maxAttemptsPerTask
            && |w.db.attempts| <= w.db.limits.maxAttempts
            && (forall k :: (id, k) in w.db.attempts <==> 1 <= k <= row.token)
            && ((exists k :: (id, k) in w.db.attempts && !w.db.attempts[(id, k)].finished) <==> Held(row))
            && (forall k :: (id, k) in w.db.attempts ==>
                  (!w.db.attempts[(id, k)].finished <==> k == row.token && Held(row)))
            && (Held(row) ==> (id, row.token) in w.db.attempts
                              && row.owner == Some(w.db.attempts[(id, row.token)].worker))
  {
    ReachableOk(w);
    var row, db := w.db.tasks[id], w.db;
    assert RowOk(db.limits, row);
    forall k: nat
      ensures (id, k) in db.attempts <==> 1 <= k <= row.token
      ensures (id, k) in db.attempts ==> AttemptOk(row, k, db.attempts[(id, k)])
    {
      assert (id, k) in db.attempts <==> Issued(db.tasks, (id, k));
    }
    if Held(row) {
      assert (id, row.token) in db.attempts;
    }
  }

  // ---- No resend ----

  ghost predicate ConfirmedWithin(audit: seq<AuditRow>, id: TaskId, request: string, lo: int, hi: int) {
    exists i :: 0 <= lo <= i < hi <= |audit| && audit[i].taskId == id && audit[i].event.Confirmed?
                && audit[i].event.requestId == request
  }

  predicate Restarts(a: AuditRow, id: TaskId) {
    ClaimRow(a, id) || IsBegin(a, id)
  }

  // An open request stays open until its own confirmation, and nothing restarts the task before it.
  ghost predicate KeepsMarker(id: TaskId, w: World, w': World) {
    && w.db.audit <= w'.db.audit
    && (id in w.db.tasks ==> id in w'.db.tasks)
    && (id in w.db.tasks && w.db.tasks[id].unconfirmed.Some? ==>
          (var request, n, trail := w.db.tasks[id].unconfirmed.value, |w.db.audit|, w'.db.audit;
           && (w'.db.tasks[id].unconfirmed == Some(request) || ConfirmedWithin(trail, id, request, n, |trail|))
           && (forall j :: n <= j < |trail| && Restarts(trail[j], id) ==> ConfirmedWithin(trail, id, request, n, j))))
  }

  lemma EditKeepsMarker(id: TaskId, w: World, w': World, x: TaskId, e: Event, outcome: string)
    requires GoodEdit(w.db, w'.db, x, e, outcome, w.now, w'.now)
    ensures KeepsMarker(id, w, w')
  {
    var n, trail := |w.db.audit|, w'.db.audit;
    assert trail[n] == AuditRow(x, e);
    if x == id && e.Confirmed? && w.db.tasks[id].unconfirmed.Some? {
      assert ConfirmedWithin(trail, id, w.db.tasks[id].unconfirmed.value, n, |trail|);
    }
  }

  lemma InsertKeepsMarker(id: TaskId, w: World, w': World, r: Request)
    requires Inserts(w.db, w'.db, r)
    ensures KeepsMarker(id, w, w')
  {
    assert w'.db.audit[|w.db.audit|] == AuditRow(r.id, Created(r.derivedFrom));
  }

  lemma CountKeepsMarker(id: TaskId, w: World, w': World, a: AuditRow)
    requires Counts(w.db, w'.db, a)
    ensures KeepsMarker(id, w, w')
  {
    assert w'.db.audit[|w.db.audit|] == a;
  }

  lemma ChangeKeepsMarker(id: TaskId, w: World, w': World)
    requires Change(w.db, w'.db, w.now, w'.now)
    ensures KeepsMarker(id, w, w')
  {
    if w'.db == w.db {
    } else if x, e, outcome :| GoodEdit(w.db, w'.db, x, e, outcome, w.now, w'.now) {
      EditKeepsMarker(id, w, w', x, e, outcome);
    } else if r :| Inserts(w.db, w'.db, r) {
      InsertKeepsMarker(id, w, w', r);
    } else {
      var a :| Counts(w.db, w'.db, a);
      CountKeepsMarker(id, w, w', a);
    }
  }

  lemma ConfirmedMonotone(a: seq<AuditRow>, b: seq<AuditRow>, id: TaskId, request: string, lo: int, hi: int,
                          lo': int, hi': int)
    requires a <= b && lo' <= lo && hi <= hi' <= |b| && 0 <= lo'
    requires ConfirmedWithin(a, id, request, lo, hi)
    ensures ConfirmedWithin(b, id, request, lo', hi')
  {
    var i :| 0 <= lo <= i < hi <= |a| && a[i].taskId == id && a[i].event.Confirmed? && a[i].event.requestId == request;
    assert b[i] == a[i];
  }

  lemma MarkerTransitive(id: TaskId, a: World, b: World, c: World)
    requires KeepsMarker(id, a, b) && KeepsMarker(id, b, c)
    ensures KeepsMarker(id, a, c)
  {
    if id in a.db.tasks && a.db.tasks[id].unconfirmed.Some? {
      var r, n, m := a.db.tasks[id].unconfirmed.value, |a.db.audit|, |b.db.audit|;
      var mid, trail := b.db.audit, c.db.audit;
      if b.db.tasks[id].unconfirmed != Some(r) {
        ConfirmedMonotone(mid, trail, id, r, n, m, n, |trail|);
      } else if c.db.tasks[id].unconfirmed != Some(r) {
        ConfirmedMonotone(trail, trail, id, r, m, |trail|, n, |trail|);
      }
      forall j | n <= j < |trail| && Restarts(trail[j], id)
        ensures ConfirmedWithin(trail, id, r, n, j)
      {
        if j < m {
          assert Restarts(mid[j], id);
          ConfirmedMonotone(mid, trail, id, r, n, j, n, j);
        } else if b.db.tasks[id].unconfirmed == Some(r) {
          ConfirmedMonotone(trail, trail, id, r, m, j, n, j);
        } else {
          ConfirmedMonotone(mid, trail, id, r, n, m, n, j);
        }
      }
    }
  }

  // Once an external request of a task is begun, every later claim or begin of that task, by
  // any worker, after any expiry, handoff or crash, comes after the confirmation of that request.
  lemma NoResend(w: World, ops: seq<Op>, id: TaskId, request: string)
    requires Reachable(w) && Allowed(Ready, Step, w, ops)
    requires id in w.db.tasks && w.db.tasks[id].unconfirmed == Some(request)
    ensures id in Run(Step, w, ops).db.tasks
    ensures var trail, n := Run(Step, w, ops).db.audit, |w.db.audit|;
            && w.db.audit <= trail
            && (forall j :: n <= j < |trail| && Restarts(trail[j], id) ==> ConfirmedWithin(trail, id, request, n, j))
            && (Run(Step, w, ops).db.tasks[id].unconfirmed == Some(request)
                || ConfirmedWithin(trail, id, request, n, |trail|))
  {
    ReachableOk(w);
    var rel := (a: World, b: World) => KeepsMarker(id, a, b);
    forall v, o | Inv(v) && Ready(v, o)
      ensures Inv(Step(v, o)) && rel(v, Step(v, o))
    {
      StepKeeps(v, o);
      StepChanges(v, o);
      ChangeKeepsMarker(id, v, Step(v, o));
    }
    forall a, b, c | rel(a, b) && rel(b, c)
      ensures rel(a, c)
    {
      MarkerTransitive(id, a, b, c);
    }
    Relation(Ready, Step, Inv, rel, w, ops);
  }

  // In every reachable state the begin and confirm events of a task alternate with matching
  // request ids, and the row's marker is the one the trail leaves open.
  lemma BeginsAndConfirmsAlternate(w: World, id: TaskId)
    requires Reachable(w)
    ensures Alternates(w.db.audit, id)
    ensures id in w.db.tasks ==> w.db.tasks[id].unconfirmed == Marker(w.db.audit, id)
  {
    ReachableOk(w);
    assert Marker(w.db.audit, id) == if id in w.db.tasks then w.db.tasks[id].unconfirmed else None;
  }

  // Request ids built under two different claims never coincide.
  lemma RequestIdsNeverRepeat(w: World, i: nat, j: nat, x: nat, y: nat)
    requires Reachable(w) && i < j < |w.db.audit|
    requires w.db.audit[i].event.ClaimedBy? && w.db.audit[j].event.ClaimedBy?
    ensures RequestId(w.db.audit[i].taskId, w.db.audit[i].event.token, x)
         != RequestId(w.db.audit[j].taskId, w.db.audit[j].event.token, y)
  {
    ReachableOk(w);
    var a, b := w.db.audit[i], w.db.audit[j];
    if RequestId(a.taskId, a.event.token, x) == RequestId(b.taskId, b.event.token, y) {
      RequestIdInjective(a.taskId, a.event.token, x, b.taskId, b.event.token, y);
    }
  }

  // When every begin is made under the id built from its task, its token and an index that is fresh
  // since the task was last claimed, no two begins of any run carry the same id.
  lemma BegunIdsAreDistinct(w: World, index: nat -> nat, i: nat, j: nat)
    requires Reachable(w) && i < j < |w.db.audit| && w.db.audit[i].event.Begun? && w.db.audit[j].event.Begun?
    requires forall p :: 0 <= p < |w.db.audit| && w.db.audit[p].event.Begun? ==>
               w.db.audit[p].event.requestId == RequestId(w.db.audit[p].taskId, w.db.audit[p].event.token, index(p))
    requires forall p, q :: 0 <= p < q < |w.db.audit| && FreshSince(w.db.audit, p, q) ==> index(p) != index(q)
    ensures w.db.audit[i].event.requestId != w.db.audit[j].event.requestId
  {
    ReachableOk(w);
    var a, b := w.db.audit[i], w.db.audit[j];
    if a.event.requestId == b.event.requestId {
      RequestIdInjective(a.taskId, a.event.token, index(i), b.taskId, b.event.token, index(j));
      assert FreshSince(w.db.audit, i, j);
    }
  }

  // Two begins of one task with no claim of it in between.
  predicate FreshSince(audit: seq<AuditRow>, p: nat, q: nat) {
    && p < q < |audit| && audit[p].event.Begun? && audit[q].event.Begun? && audit[p].taskId == audit[q].taskId
    && forall m :: p < m < q ==> !ClaimRow(audit[m], audit[p].taskId)
  }
}
