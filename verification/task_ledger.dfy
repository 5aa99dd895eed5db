// The ledger object: every method is one write transaction over the tables it owns, and
// commits exactly what the corresponding function of TaskModel says.
module TaskLedgers {
  import opened Wrappers
  import opened Scopes
  import M = TaskModel

  class TaskLedger {
    const limits: M.RunLimits
    const startedAt: real
    var tasks: map<M.TaskId, M.Task>
    var evidence: map<string, M.Evidence>
    var attempts: map<(M.TaskId, nat), M.Attempt>
    var audit: seq<M.AuditRow>

    constructor (limits: M.RunLimits, startedAt: real)
      ensures Db() == M.Opened(limits, startedAt)
    {
      this.limits := limits;
      this.startedAt := startedAt;
      tasks, evidence, attempts, audit := map[], map[], map[], [];
    }

    function Db(): M.Db
      reads this
    {
      M.Db(limits, startedAt, tasks, evidence, attempts, audit)
    }

    method Log(id: M.TaskId, e: M.Event)
      modifies this`audit
      ensures Db() == M.Log(old(Db()), id, e)
    {
      audit := audit + [M.AuditRow(id, e)];
    }

    method CloseAttempt(id: M.TaskId, token: nat, outcome: string)
      modifies this`attempts
      ensures Db() == M.CloseAttempt(old(Db()), id, token, outcome)
    {
      if (id, token) in attempts {
        attempts := attempts[(id, token) := attempts[(id, token)].(finished := true, outcome := Some(outcome))];
      }
    }

    method Enqueue(r: M.Request, now: real) returns (reply: M.Outcome<M.TaskId>)
      modifies this
      ensures (Db(), reply) == M.Enqueue(old(Db()), r, now)
    {
      if |r.deps| > 64 || r.id in r.deps || !Canonical(r.spec.scope) { return Err(M.InvalidArgument); }
      if r.id in tasks {
        return if M.SameTask(tasks[r.id], r) then Ok(r.id) else Err(M.TaskConflict);
      }
      if r.evidenceKey.Some? && r.evidenceKey.value in evidence {
        var key := r.evidenceKey.value;
        var seen := evidence[key];
        if seen.taskId !in tasks { return Err(M.UnknownTask); }
        if tasks[seen.taskId].spec.scope != r.spec.scope { return Err(M.TaskConflict); }
        evidence := evidence[key := seen.(occurrences := seen.occurrences + 1)];
        Log(seen.taskId, M.EvidenceDuplicate(key));
        return Ok(seen.taskId);
      }
      if !M.RuntimeLeft(Db(), now) || |tasks| >= limits.maxTasks { return Err(M.RunLimitReached); }
      if r.derivedFrom.Some? && r.derivedFrom.value !in tasks { return Err(M.UnknownTask); }
      if r.derivedFrom.Some? && |M.DerivedTasks(Db())| >= limits.maxDerivedTasks { return Err(M.RunLimitReached); }
      for i := 0 to |r.deps|
        invariant Db() == old(Db())
        invariant forall k :: 0 <= k < i ==> r.deps[k] in tasks
      {
        if r.deps[i] !in tasks { return Err(M.UnknownTask); }
      }
      tasks := tasks[r.id := M.NewTask(Db(), r)];
      if r.evidenceKey.Some? {
        evidence := evidence[r.evidenceKey.value := M.Evidence(r.id, 1)];
      }
      Log(r.id, M.Created(r.derivedFrom));
      reply := Ok(r.id);
    }

    method Claim(id: M.TaskId, worker: M.WorkerId, ttl: real, loc: M.Locality, start: real, now: real)
      returns (reply: M.Outcome<Option<M.Lease>>)
      modifies this
      ensures (Db(), reply) == M.Claim(old(Db()), id, worker, ttl, loc, start, now)
    {
      if !M.TtlOk(ttl) || Blank(worker) { return Err(M.InvalidArgument); }
      if !M.RuntimeLeft(Db(), start) || |attempts| >= limits.maxAttempts { return Err(M.RunLimitReached); }
      if id !in tasks || !M.Local(Db(), loc, id) || !M.Eligible(Db(), id, now) { return Ok(None); }
      var row := tasks[id];
      if row.status.Claimed? {
        CloseAttempt(id, row.token, "expired");
      }
      var lease := M.Lease(id, row.spec.scope, worker, row.token + 1, now + ttl);
      tasks := tasks[id := row.(status := M.Claimed, attempts := row.attempts + 1, token := lease.token,
                                owner := Some(worker), expiry := Some(lease.expiresAt))];
      attempts := attempts[(id, lease.token) := M.Attempt(worker, false, None)];
      Log(id, M.ClaimedBy(worker, lease.token));
      reply := Ok(Some(lease));
    }

    method Renew(l: M.Lease, ttl: real, now: real, stamp: real) returns (reply: M.Outcome<Option<M.Lease>>)
      modifies this
      ensures (Db(), reply) == M.Renew(old(Db()), l, ttl, now, stamp)
    {
      if !M.TtlOk(ttl) { return Err(M.InvalidArgument); }
      if !M.Owned(Db(), l, now, false) { return Ok(None); }
      var renewed := l.(expiresAt := stamp + ttl);
      tasks := tasks[l.taskId := tasks[l.taskId].(expiry := Some(renewed.expiresAt))];
      Log(l.taskId, M.Renewed(l.worker, l.token, renewed.expiresAt));
      reply := Ok(Some(renewed));
    }

    method FinishAttempt(l: M.Lease, outcome: string)
      requires l.taskId in tasks
      modifies this
      ensures Db() == M.FinishAttempt(old(Db()), l, outcome)
    {
      var row := tasks[l.taskId];
      var status := if row.attempts >= limits.maxAttemptsPerTask then M.Failed else M.Available;
      if row.unconfirmed.Some? {
        status := M.Blocked;
      }
      tasks := tasks[l.taskId := row.(status := status, owner := None, expiry := None)];
      CloseAttempt(l.taskId, l.token, outcome);
      Log(l.taskId, M.AttemptEnded(outcome, l.token));
    }

    method Release(l: M.Lease, now: real) returns (reply: M.Outcome<bool>)
      modifies this
      ensures (Db(), reply) == M.Release(old(Db()), l, now)
    {
      if !M.Owned(Db(), l, now, false) { return Ok(false); }
      FinishAttempt(l, "released");
      reply := Ok(true);
    }

    method Fail(l: M.Lease, now: real) returns (reply: M.Outcome<()>)
      modifies this
      ensures (Db(), reply) == M.Fail(old(Db()), l, now)
    {
      if !M.Owned(Db(), l, now, false) { return Err(M.Fenced(Db(), l)); }
      FinishAttempt(l, "failed");
      reply := Ok(());
    }

    // `SELECT COUNT(*) FROM task_audit WHERE task_id=? AND event='execution_unconfirmed'`.
    method CountBegins(id: M.TaskId) returns (count: nat)
      ensures count == M.Begins(audit, id)
    {
      count := 0;
      for i := 0 to |audit|
        invariant count == M.Begins(audit[..i], id)
      {
        assert audit[..i + 1][..i] == audit[..i];
        if M.IsBegin(audit[i], id) { count := count + 1; }
      }
      assert audit[..|audit|] == audit;
    }

    method Begin(l: M.Lease, requestId: string, maxExecutions: Option<int>, now: real) returns (reply: M.Outcome<()>)
      modifies this
      ensures (Db(), reply) == M.Begin(old(Db()), l, requestId, maxExecutions, now)
    {
      if Blank(requestId) || (maxExecutions.Some? && !(1 <= maxExecutions.value <= 10)) {
        return Err(M.InvalidArgument);
      }
      if !M.Owned(Db(), l, now, false) { return Err(M.Fenced(Db(), l)); }
      if tasks[l.taskId].unconfirmed.Some? { return Err(M.TaskConflict); }
      if maxExecutions.Some? {
        var count := CountBegins(l.taskId);
        if count >= maxExecutions.value { return Err(M.TaskConflict); }
      }
      tasks := tasks[l.taskId := tasks[l.taskId].(unconfirmed := Some(requestId))];
      Log(l.taskId, M.Begun(requestId, l.token));
      reply := Ok(());
    }

    method Confirm(l: M.Lease, requestId: string, now: real) returns (reply: M.Outcome<()>)
      modifies this
      ensures (Db(), reply) == M.Confirm(old(Db()), l, requestId, now)
    {
      if !M.Owned(Db(), l, now, false) { return Err(M.Fenced(Db(), l)); }
      if tasks[l.taskId].unconfirmed != Some(requestId) { return Err(M.TaskConflict); }
      tasks := tasks[l.taskId := tasks[l.taskId].(unconfirmed := None)];
      Log(l.taskId, M.Confirmed(requestId, l.token));
      reply := Ok(());
    }

    method RecordConditionFailure(id: M.TaskId) returns (reply: M.Outcome<()>)
      modifies this
      ensures (Db(), reply) == M.RecordConditionFailure(old(Db()), id)
    {
      if id !in tasks { return Err(M.UnknownTask); }
      var row := tasks[id];
      if row.status in {M.Completed, M.Failed, M.Blocked, M.Claimed, M.Submitting} { return Ok(()); }
      var count := row.conditionFailures + 1;
      var blocked := count >= limits.maxAttemptsPerTask;
      tasks := tasks[id := row.(conditionFailures := count, status := if blocked then M.Blocked else row.status)];
      Log(id, M.ConditionFailed(count, blocked));
      reply := Ok(());
    }

    method Handoff(l: M.Lease, target: M.WorkerId, kept: Option<string>, now: real) returns (reply: M.Outcome<()>)
      modifies this
      ensures (Db(), reply) == M.Handoff(old(Db()), l, target, kept, now)
    {
      if Blank(target) { return Err(M.InvalidArgument); }
      if !M.Owned(Db(), l, now, false) { return Err(M.Fenced(Db(), l)); }
      var row := tasks[l.taskId];
      if row.owner == Some(target) { return Err(M.TaskConflict); }
      tasks := tasks[l.taskId := row.(status := if kept.Some? then M.Partial else M.HandedOff, owner := None,
                                      expiry := None, result := if kept.Some? then kept else row.result)];
      CloseAttempt(l.taskId, l.token, if kept.Some? then "partial" else "handoff");
      Log(l.taskId, M.Yielded(l.worker, target, l.token, kept.Some?));
      reply := Ok(());
    }

    method Complete(s: M.Submission, effectApplied: bool)
      requires s.lease.taskId in tasks
      modifies this
      ensures Db() == M.Complete(old(Db()), s, effectApplied)
    {
      var id := s.lease.taskId;
      tasks := tasks[id := tasks[id].(status := M.Completed, resultId := Some(s.resultId), result := Some(s.body),
                                      effectApplied := effectApplied)];
      CloseAttempt(id, s.lease.token, "completed");
      Log(id, M.CompletedWith(s.lease.token, s.resultId));
    }

    method Submit(s: M.Submission, publishes: bool, now: real) returns (reply: M.Outcome<M.Submitted>)
      modifies this
      ensures (Db(), reply) == M.Submit(old(Db()), s, publishes, now)
    {
      var id := s.lease.taskId;
      if Blank(s.resultId) { return Err(M.InvalidArgument); }
      if id !in tasks { return Err(M.UnknownTask); }
      var row := tasks[id];
      if row.status.Completed? && M.HeldBy(row, s.lease) {
        if row.resultId == Some(s.resultId) && row.result == Some(s.body) { return Ok(M.Replayed); }
        return Err(M.TaskConflict);
      }
      if !M.Owned(Db(), s.lease, now, false) { return Err(M.LeaseLost); }
      if !publishes {
        Complete(s, false);
        return Ok(M.Finished);
      }
      tasks := tasks[id := row.(status := M.Submitting, resultId := Some(s.resultId), result := Some(s.body))];
      Log(id, M.SubmittingResult(s.lease.token, s.resultId));
      reply := Ok(M.MustPublish);
    }

    // The second transaction; `callbackReturns` is whether the publication callback came back.
    method Publish(s: M.Submission, callbackReturns: bool, now: real, after: real) returns (reply: M.Outcome<()>)
      modifies this
      ensures (Db(), reply) == M.Publish(old(Db()), s, callbackReturns, now, after)
    {
      if !M.Owned(Db(), s.lease, now, true) { return Err(M.Fenced(Db(), s.lease)); }
      if !callbackReturns || !M.Owned(Db(), s.lease, after, true) { return Err(M.LeaseLost); }
      Complete(s, true);
      reply := Ok(());
    }
  }
}
