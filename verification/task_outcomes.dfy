// What each ledger transaction answers and leaves behind, in the tables' own columns, and what the
// columns of any reachable row say about its history.
module TaskOutcomes {
  import opened Wrappers
  import opened Runs
  import opened Scopes
  import opened TaskModel
  import opened TaskInvariant
  import opened TaskSafety
  import opened TaskTheorems

  // ---- Submission ----

  // The task is completed, by this lease, with this submission's own identifier and body.
  predicate ResultStored(db: Db, s: Submission, applied: bool) {
    && s.lease.taskId in db.tasks
    && var row := db.tasks[s.lease.taskId];
    && row.status == Completed && row.resultId == Some(s.resultId) && row.result == Some(s.body)
    && row.effectApplied == applied
    && row.token == s.lease.token && row.owner == Some(s.lease.worker) && row.spec.scope == s.lease.scope
    && row.expiry == Some(s.lease.expiresAt)
  }

  // The transaction is on the trail, as this event of the lease's task.
  predicate Trailed(db: Db, db': Db, id: TaskId, e: Event) {
    db'.audit == db.audit + [AuditRow(id, e)]
  }

  // The lease's attempt row is closed with this outcome, under its worker.
  predicate AttemptEndedWith(db: Db, l: Lease, outcome: string) {
    (l.taskId, l.token) in db.attempts && db.attempts[(l.taskId, l.token)] == Attempt(l.worker, true, Some(outcome))
  }

  lemma OpenAttempt(w: World, l: Lease, t: real)
    requires Reachable(w) && Owned(w.db, l, t, true)
    ensures (l.taskId, l.token) in w.db.attempts && w.db.attempts[(l.taskId, l.token)].worker == l.worker
  {
    ReachableOk(w);
    var key := (l.taskId, l.token);
    assert RowOk(w.db.limits, w.db.tasks[l.taskId]);
    assert Issued(w.db.tasks, key);
    assert AttemptOk(w.db.tasks[key.0], key.1, w.db.attempts[key]);
  }

  // A submission that is not a replay is taken exactly from the owner of an unexpired claim. It
  // stores its own identifier and body: for good without a publication, else until the callback.
  lemma SubmitStores(w: World, s: Submission, publishes: bool, t: real)
    requires Reachable(w)
    ensures var (db', reply) := Submit(w.db, s, publishes, t);
            && (reply == Ok(Finished) || reply == Ok(MustPublish) <==>
                !Blank(s.resultId) && Owned(w.db, s.lease, t, false))
            && (reply == Ok(Finished) ==>
                  !publishes && ResultStored(db', s, false) && AttemptEndedWith(db', s.lease, "completed")
                  && Trailed(w.db, db', s.lease.taskId, CompletedWith(s.lease.token, s.resultId)))
            && (reply == Ok(MustPublish) ==>
                  publishes && db'.attempts == w.db.attempts && s.lease.taskId in db'.tasks
                  && Trailed(w.db, db', s.lease.taskId, SubmittingResult(s.lease.token, s.resultId))
                  && db'.tasks[s.lease.taskId] == w.db.tasks[s.lease.taskId].(status := Submitting,
                                                                     resultId := Some(s.resultId),
                                                                     result := Some(s.body)))
            && (reply != Ok(Finished) && reply != Ok(MustPublish) ==> db' == w.db)
  {
    if Owned(w.db, s.lease, t, false) { OpenAttempt(w, s.lease, t); }
  }

  // A publication completes exactly when its lease still holds the task before the callback and
  // after it, and the callback returns; else nothing changes.
  lemma PublishStores(w: World, s: Submission, back: bool, t: real, u: real)
    requires Reachable(w)
    ensures var (db', reply) := Publish(w.db, s, back, t, u);
            && (reply == Ok(()) <==> back && Owned(w.db, s.lease, t, true) && Owned(w.db, s.lease, u, true))
            && (reply == Ok(()) ==>
                  ResultStored(db', s, true) && AttemptEndedWith(db', s.lease, "completed")
                  && Trailed(w.db, db', s.lease.taskId, CompletedWith(s.lease.token, s.resultId)))
            && (reply != Ok(()) ==> db' == w.db)
  {
    if Owned(w.db, s.lease, t, true) { OpenAttempt(w, s.lease, t); }
  }

  // A stored result stays as it is along every run. The submission that stored it replays; any other
  // by the same lease conflicts; neither changes the tables.
  lemma StoredResultReplays(w: World, s: Submission, applied: bool, ops: seq<Op>, other: Submission, publishes: bool,
                            t: real)
    requires Reachable(w) && ResultStored(w.db, s, applied) && !Blank(s.resultId)
    requires Allowed(Ready, Step, w, ops) && other.lease == s.lease
    ensures var db := Run(Step, w, ops).db;
            && ResultStored(db, s, applied)
            && Submit(db, s, publishes, t) == (db, Ok(Replayed))
            && (other != s && !Blank(other.resultId) ==> Submit(db, other, publishes, t) == (db, Err(TaskConflict)))
  {
    TerminalRowsAbsorb(w, ops, s.lease.taskId);
  }

  // So a submission that finished, or a publication that returned, replays after any further run.
  lemma FinishedReplays(w: World, s: Submission, t: real, ops: seq<Op>, publishes: bool, u: real)
    requires Reachable(w) && w.now <= t && Submit(w.db, s, false, t).1 == Ok(Finished)
    requires Allowed(Ready, Step, Step(w, DoSubmit(s, false, t)), ops)
    ensures var db := Run(Step, Step(w, DoSubmit(s, false, t)), ops).db;
            ResultStored(db, s, false) && Submit(db, s, publishes, u) == (db, Ok(Replayed))
  {
    SubmitStores(w, s, false, t);
    ReachableStep(w, DoSubmit(s, false, t));
    StoredResultReplays(Step(w, DoSubmit(s, false, t)), s, false, ops, s, publishes, u);
  }

  lemma PublishedReplays(w: World, slot: nat, t: real, t': real, ops: seq<Op>, publishes: bool, u: real)
    requires Reachable(w) && w.now <= t <= t' && slot < |w.inflight|
    requires Publish(w.db, w.inflight[slot], true, t, t').1 == Ok(()) && !Blank(w.inflight[slot].resultId)
    requires Allowed(Ready, Step, Step(w, DoPublish(slot, true, t, t')), ops)
    ensures var db, s := Run(Step, Step(w, DoPublish(slot, true, t, t')), ops).db, w.inflight[slot];
            ResultStored(db, s, true) && Submit(db, s, publishes, u) == (db, Ok(Replayed))
  {
    var op := DoPublish(slot, true, t, t');
    PublishStores(w, w.inflight[slot], true, t, t');
    ReachableStep(w, op);
    StoredResultReplays(Step(w, op), w.inflight[slot], true, ops, w.inflight[slot], publishes, u);
  }

  // ---- Claim ----

  // The caller may see the task: its workspace, one of its authorized scopes, its modules, and its
  // dependency neighbourhood.
  predicate InReach(db: Db, loc: Locality, id: TaskId)
    requires id in db.tasks
  {
    var row := db.tasks[id];
    && row.spec.workspace == loc.workspace
    && (exists i :: 0 <= i < |loc.authorized| && Authorizes(loc.authorized[i], row.spec.scope))
    && (|loc.modules| > 0 ==> row.spec.moduleName in loc.modules)
    && (|loc.dependencyOf| > 0 ==>
          exists i :: 0 <= i < |loc.dependencyOf|
                      && var d := loc.dependencyOf[i];
                         id == d || d in row.deps || (d in db.tasks && id in db.tasks[d].deps))
  }

  // Nobody holds the task: it waits, or its holder's lease has run out.
  predicate Unheld(row: Task, t: real) {
    || row.status in {Available, Partial, HandedOff}
    || (row.status == Claimed && row.expiry.Some? && row.expiry.value <= t)
  }

  // Another worker is busy in a scope that is the same, or, roots apart, contains the other.
  predicate BusyScope(row: Task, scope: string, t: real) {
    && (row.status == Submitting || (row.status == Claimed && row.expiry.Some? && t < row.expiry.value))
    && ScopesCollide(row.spec.scope, scope) && (row.spec.scope == scope || (row.spec.scope != ROOT && scope != ROOT))
  }

  // A claim is granted in a reachable state exactly when the arguments and the run's limits allow
  // it, the task is in reach and unheld, has attempts left and no open request, all it depends on is
  // completed, and no other task keeps its scope busy.
  lemma ClaimedExactly(w: World, id: TaskId, worker: WorkerId, ttl: real, loc: Locality, start: real, t: real)
    requires Reachable(w)
    ensures var db, reply := w.db, Claim(w.db, id, worker, ttl, loc, start, t).1;
            reply.Ok? && reply.value.Some? <==>
            && 0.0 < ttl <= 86400.0 && !Blank(worker)
            && 0.0 <= start - db.startedAt < db.limits.maxRuntimeSeconds && |db.attempts| < db.limits.maxAttempts
            && id in db.tasks && InReach(db, loc, id) && Unheld(db.tasks[id], t)
            && db.tasks[id].attempts < db.limits.maxAttemptsPerTask && db.tasks[id].unconfirmed == None
            && (forall d :: d in db.tasks[id].deps ==> d in db.tasks && db.tasks[d].status == Completed)
            && (forall c :: c in db.tasks && c != id ==> !BusyScope(db.tasks[c], db.tasks[id].spec.scope, t))
  {
    if id in w.db.tasks {
      LocalExactly(w.db, loc, id);
      FreeExactly(w, id, t);
    }
  }

  lemma LocalExactly(db: Db, loc: Locality, id: TaskId)
    requires id in db.tasks
    ensures Local(db, loc, id) <==> InReach(db, loc, id)
  {
    var row := db.tasks[id];
    if path :| path in loc.authorized && Authorizes(path, row.spec.scope) {
      var i :| 0 <= i < |loc.authorized| && loc.authorized[i] == path;
      assert Authorizes(loc.authorized[i], row.spec.scope);
    }
    if d :| d in loc.dependencyOf && (id == d || d in row.deps || (d in db.tasks && id in db.tasks[d].deps)) {
      var i :| 0 <= i < |loc.dependencyOf| && loc.dependencyOf[i] == d;
    }
  }

  lemma FreeExactly(w: World, id: TaskId, t: real)
    requires Reachable(w) && id in w.db.tasks
    ensures ScopeFree(w.db, id, t) <==>
            forall c :: c in w.db.tasks && c != id ==> !BusyScope(w.db.tasks[c], w.db.tasks[id].spec.scope, t)
  {
    ReachableOk(w);
    forall c | c in w.db.tasks && c != id
      ensures BusyScope(w.db.tasks[c], w.db.tasks[id].spec.scope, t) <==>
              Live(w.db.tasks[c], t) && GuardBlocks(w.db.tasks[c].spec.scope, w.db.tasks[id].spec.scope)
    {
      assert RowOk(w.db.limits, w.db.tasks[c]) && RowOk(w.db.limits, w.db.tasks[id]);
      GuardMeans(w.db.tasks[c].spec.scope, w.db.tasks[id].spec.scope);
    }
  }

  lemma GuardMeans(s: string, t: string)
    requires Canonical(s) && Canonical(t)
    ensures GuardBlocks(s, t) <==> ScopesCollide(s, t) && (s == t || (s != ROOT && t != ROOT))
  {
    GuardAgreesExactly(s, t);
    if s != t && s == ROOT { RootEscapesTheGuard(t); }
    if s != t && t == ROOT { RootEscapesTheGuard(s); }
  }

  // What a granted claim leaves: the next token and attempt under a new expiry, the results so far
  // kept, and no other task touched.
  lemma ClaimLeaves(db: Db, id: TaskId, worker: WorkerId, ttl: real, loc: Locality, start: real, t: real)
    requires Claim(db, id, worker, ttl, loc, start, t).1.Ok?
    requires Claim(db, id, worker, ttl, loc, start, t).1.value.Some?
    ensures var db' := Claim(db, id, worker, ttl, loc, start, t).0;
            && id in db.tasks && db'.evidence == db.evidence
            && var row := db.tasks[id];
               && db'.tasks == db.tasks[id := row.(status := Claimed, attempts := row.attempts + 1,
                                                   token := row.token + 1, owner := Some(worker),
                                                   expiry := Some(t + ttl))]
               && db'.audit == db.audit + [AuditRow(id, ClaimedBy(worker, row.token + 1))]
  {
  }

  lemma HolderAttempt(w: World, id: TaskId)
    requires Reachable(w) && id in w.db.tasks
    ensures var row := w.db.tasks[id];
            && (id, row.token + 1) !in w.db.attempts
            && (row.status == Claimed ==>
                  (id, row.token) in w.db.attempts && row.owner == Some(w.db.attempts[(id, row.token)].worker))
  {
    ReachableOk(w);
    var row := w.db.tasks[id];
    assert RowOk(w.db.limits, row);
    if row.status == Claimed {
      assert Issued(w.db.tasks, (id, row.token));
      assert AttemptOk(row, row.token, w.db.attempts[(id, row.token)]);
    }
    assert !Issued(w.db.tasks, (id, row.token + 1));
  }

  lemma ClaimSetsAttempts(db: Db, id: TaskId, worker: WorkerId, ttl: real, loc: Locality, start: real, t: real)
    requires Claim(db, id, worker, ttl, loc, start, t).1.Ok?
    requires Claim(db, id, worker, ttl, loc, start, t).1.value.Some?
    ensures id in db.tasks
    ensures var row := db.tasks[id];
            Claim(db, id, worker, ttl, loc, start, t).0.attempts ==
            (if row.status == Claimed then CloseAttempt(db, id, row.token, "expired") else db).attempts
            [(id, row.token + 1) := Attempt(worker, false, None)]
  {
  }

  // It opens the attempt of its token and closes that of an expired holder as expired.
  lemma ClaimAttempts(w: World, id: TaskId, worker: WorkerId, ttl: real, loc: Locality, start: real, t: real)
    requires Reachable(w) && Claim(w.db, id, worker, ttl, loc, start, t).1.Ok?
    requires Claim(w.db, id, worker, ttl, loc, start, t).1.value.Some?
    ensures id in w.db.tasks
    ensures var before, after := w.db.attempts, Claim(w.db, id, worker, ttl, loc, start, t).0.attempts;
            var row := w.db.tasks[id];
            && (id, row.token + 1) in after && after[(id, row.token + 1)] == Attempt(worker, false, None)
            && (row.status == Claimed ==>
                  (id, row.token) in before && (id, row.token) in after && row.owner.Some?
                  && after[(id, row.token)] == Attempt(row.owner.value, true, Some("expired")))
            && (forall key :: key in before && key != (id, row.token) ==> key in after && after[key] == before[key])
  {
    ClaimSetsAttempts(w.db, id, worker, ttl, loc, start, t);
    HolderAttempt(w, id);
  }

  // ---- The end of a hold ----

  // Where a task goes when its holder gives it up: behind its open request, to its end when its
  // attempts are used up, or back into the queue.
  predicate GivenUp(limits: RunLimits, row: Task, row': Task) {
    && row' == row.(status := row'.status, owner := None, expiry := None)
    && (row'.status == Blocked <==> row.unconfirmed != None)
    && (row'.status == Failed <==> row.unconfirmed == None && row.attempts >= limits.maxAttemptsPerTask)
    && (row'.status == Available <==> row.unconfirmed == None && row.attempts < limits.maxAttemptsPerTask)
  }

  // Release and failure are taken exactly from the owner of an unexpired claim; they give up the task
  // and close the attempt under their own names.
  lemma GivingUp(w: World, l: Lease, t: real)
    requires Reachable(w)
    ensures var (released, r) := Release(w.db, l, t); var (failed, f) := Fail(w.db, l, t);
            && (r == Ok(true) <==> Owned(w.db, l, t, false)) && (f == Ok(()) <==> Owned(w.db, l, t, false)) && r.Ok?
            && (!Owned(w.db, l, t, false) ==> released == w.db && failed == w.db)
            && (Owned(w.db, l, t, false) ==>
                  && l.taskId in released.tasks
                  && GivenUp(w.db.limits, w.db.tasks[l.taskId], released.tasks[l.taskId])
                  && AttemptEndedWith(released, l, "released") && AttemptEndedWith(failed, l, "failed")
                  && Trailed(w.db, released, l.taskId, AttemptEnded("released", l.token))
                  && Trailed(w.db, failed, l.taskId, AttemptEnded("failed", l.token))
                  && failed.tasks == released.tasks
                  && released.tasks == w.db.tasks[l.taskId := released.tasks[l.taskId]])
  {
    if Owned(w.db, l, t, false) { OpenAttempt(w, l, t); }
  }

  // A handoff is taken exactly from the owner, to another named worker. The task is open to claims
  // again; a kept partial result takes the place of the one before, and none leaves it.
  lemma HandingOff(w: World, l: Lease, target: WorkerId, kept: Option<string>, t: real)
    requires Reachable(w)
    ensures var (db', reply) := Handoff(w.db, l, target, kept, t);
            && (reply == Ok(()) <==> !Blank(target) && Owned(w.db, l, t, false) && target != l.worker)
            && (reply != Ok(()) ==> db' == w.db)
            && (reply == Ok(()) ==>
                  && var row := w.db.tasks[l.taskId];
                  && db'.tasks == w.db.tasks[l.taskId := row.(status := if kept == None then HandedOff else Partial,
                                                              owner := None, expiry := None,
                                                              result := if kept == None then row.result else kept)]
                  && AttemptEndedWith(db', l, if kept == None then "handoff" else "partial")
                  && Trailed(w.db, db', l.taskId, Yielded(l.worker, target, l.token, kept != None)))
  {
    if Owned(w.db, l, t, false) { OpenAttempt(w, l, t); }
  }

  // A renewal is taken exactly from the owner and moves the expiry, and nothing else of the row.
  lemma Renewing(db: Db, l: Lease, ttl: real, t: real, u: real)
    ensures var (db', reply) := Renew(db, l, ttl, t, u);
            && (reply.Err? <==> !(0.0 < ttl <= 86400.0))
            && (reply.Ok? && reply.value.Some? <==> 0.0 < ttl <= 86400.0 && Owned(db, l, t, false))
            && (if reply.Ok? && reply.value.Some? then
                  && reply.value.value == l.(expiresAt := u + ttl) && db'.attempts == db.attempts
                  && Trailed(db, db', l.taskId, Renewed(l.worker, l.token, u + ttl))
                  && db'.tasks == db.tasks[l.taskId := db.tasks[l.taskId].(expiry := Some(u + ttl))]
                else db' == db)
  {
  }

  // ---- Requests ----

  function Tally(audit: seq<AuditRow>, p: AuditRow -> bool): nat {
    |set i: nat | i < |audit| && p(audit[i])|
  }

  lemma TallyAppend(audit: seq<AuditRow>, a: AuditRow, p: AuditRow -> bool)
    ensures Tally(audit + [a], p) == Tally(audit, p) + (if p(a) then 1 else 0)
  {
    var before := set i: nat | i < |audit| && p(audit[i]);
    assert (set i: nat | i < |audit + [a]| && p((audit + [a])[i])) == before + (if p(a) then {|audit|} else {});
  }

  function BeginOf(id: TaskId): AuditRow -> bool {
    (a: AuditRow) => a.taskId == id && a.event.Begun?
  }

  lemma {:induction false} BeginsAreTallied(audit: seq<AuditRow>, id: TaskId)
    ensures Begins(audit, id) == Tally(audit, BeginOf(id))
  {
    if audit != [] {
      var front, last := audit[..|audit| - 1], audit[|audit| - 1];
      assert audit == front + [last];
      BeginsAreTallied(front, id);
      TallyAppend(front, last, BeginOf(id));
    }
  }

  // A request begins exactly for the owner of a task without an open one, while fewer requests of the
  // task than the caller's limit have ever begun; it is then the open one.
  lemma Beginning(db: Db, l: Lease, request: string, limit: Option<int>, t: real)
    ensures var (db', reply) := Begin(db, l, request, limit, t);
            && (reply == Ok(()) <==>
                && !Blank(request) && Owned(db, l, t, false) && db.tasks[l.taskId].unconfirmed == None
                && (limit.Some? ==> 1 <= limit.value <= 10 && Tally(db.audit, BeginOf(l.taskId)) < limit.value))
            && (reply != Ok(()) ==> db' == db)
            && (reply == Ok(()) ==>
                  && db'.tasks == db.tasks[l.taskId := db.tasks[l.taskId].(unconfirmed := Some(request))]
                  && db'.attempts == db.attempts && Trailed(db, db', l.taskId, Begun(request, l.token))
                  && Tally(db'.audit, BeginOf(l.taskId)) == Tally(db.audit, BeginOf(l.taskId)) + 1)
  {
    BeginsAreTallied(db.audit, l.taskId);
    TallyAppend(db.audit, AuditRow(l.taskId, Begun(request, l.token)), BeginOf(l.taskId));
  }

  // A confirmation is taken exactly from the owner, for the open request, and closes it.
  lemma Confirming(db: Db, l: Lease, request: string, t: real)
    ensures var (db', reply) := Confirm(db, l, request, t);
            && (reply == Ok(()) <==> Owned(db, l, t, false) && db.tasks[l.taskId].unconfirmed == Some(request))
            && (reply != Ok(()) ==> db' == db)
            && (reply == Ok(()) ==>
                  && db'.tasks == db.tasks[l.taskId := db.tasks[l.taskId].(unconfirmed := None)]
                  && db'.attempts == db.attempts && Trailed(db, db', l.taskId, Confirmed(request, l.token)))
  {
  }
}
