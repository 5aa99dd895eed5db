// The durable task tables as values, and each ledger transaction as a function on them.
module TaskModel {
  import opened Wrappers
  import opened Scopes

  type TaskId = string
  type WorkerId = string

  datatype RunLimits = RunLimits(maxTasks: nat, maxAttempts: nat, maxAttemptsPerTask: nat,
                                 maxDerivedTasks: nat, maxRuntimeSeconds: real)

  datatype Status = Available | Claimed | Submitting | Partial | HandedOff | Completed | Failed | Blocked

  // The part of a task row that no transaction changes.
  datatype TaskSpec = TaskSpec(workspace: string, scope: string, kind: string, payload: string,
                               moduleName: string, capability: string, acceptance: string)

  datatype Task = Task(rowid: nat, spec: TaskSpec, deps: set<TaskId>, derivedFrom: Option<TaskId>,
                       status: Status, attempts: nat, token: nat, owner: Option<WorkerId>,
                       expiry: Option<real>, unconfirmed: Option<string>, resultId: Option<string>,
                       result: Option<string>, effectApplied: bool, conditionFailures: nat)

  datatype Attempt = Attempt(worker: WorkerId, finished: bool, outcome: Option<string>)

  datatype Evidence = Evidence(taskId: TaskId, occurrences: nat)

  datatype Event =
    | Created(derivedFrom: Option<TaskId>)
    | EvidenceDuplicate(key: string)
    | ClaimedBy(worker: WorkerId, token: nat)
    | Renewed(worker: WorkerId, token: nat, expiresAt: real)
    | Begun(requestId: string, token: nat)
    | Confirmed(requestId: string, token: nat)
    | AttemptEnded(outcome: string, token: nat)
    | ConditionFailed(count: nat, blocked: bool)
    | Yielded(source: WorkerId, target: WorkerId, token: nat, kept: bool)
    | SubmittingResult(token: nat, resultId: string)
    | CompletedWith(token: nat, resultId: string)

  datatype AuditRow = AuditRow(taskId: TaskId, event: Event)

  datatype Db = Db(limits: RunLimits, startedAt: real, tasks: map<TaskId, Task>,
                   evidence: map<string, Evidence>, attempts: map<(TaskId, nat), Attempt>,
                   audit: seq<AuditRow>)

  datatype Lease = Lease(taskId: TaskId, scope: string, worker: WorkerId, token: nat, expiresAt: real)

  datatype Locality = Locality(workspace: string, authorized: seq<string>, modules: seq<string>,
                               dependencyOf: seq<TaskId>)

  datatype Error = InvalidArgument | UnknownTask | LeaseLost | TaskConflict | RunLimitReached

  type Outcome<T> = Result<T, Error>

  function Opened(limits: RunLimits, startedAt: real): Db {
    Db(limits, startedAt, map[], map[], map[], [])
  }

  // ---- Row helpers ----

  function Log(db: Db, id: TaskId, e: Event): Db {
    db.(audit := db.audit + [AuditRow(id, e)])
  }

  function Put(db: Db, id: TaskId, row: Task): Db {
    db.(tasks := db.tasks[id := row])
  }

  // `UPDATE task_attempts ... WHERE token=?` touches nothing when the row is absent.
  function CloseAttempt(db: Db, id: TaskId, token: nat, outcome: string): Db {
    if (id, token) in db.attempts then
      db.(attempts := db.attempts[(id, token) :=
        db.attempts[(id, token)].(finished := true, outcome := Some(outcome))])
    else db
  }

  predicate Held(row: Task) {
    row.status.Claimed? || row.status.Submitting?
  }

  // A task that keeps its scope busy at `now`.
  predicate Live(row: Task, now: real) {
    row.status.Submitting? || (row.status.Claimed? && row.expiry.Some? && row.expiry.value > now)
  }

  predicate RuntimeLeft(db: Db, now: real) {
    0.0 <= now - db.startedAt < db.limits.maxRuntimeSeconds
  }

  predicate TtlOk(ttl: real) {
    0.0 < ttl <= 86400.0
  }

  // ---- Enqueue ----

  datatype Request = Request(id: TaskId, spec: TaskSpec, deps: seq<TaskId>, evidenceKey: Option<string>,
                             derivedFrom: Option<TaskId>)

  function DerivedTasks(db: Db): set<TaskId> {
    set id | id in db.tasks && db.tasks[id].derivedFrom.Some?
  }

  function NewTask(db: Db, r: Request): Task {
    Task(|db.tasks|, r.spec, (set d | d in r.deps), r.derivedFrom, Available, 0, 0, None, None, None, None, None,
         false, 0)
  }

  predicate SameTask(row: Task, r: Request) {
    var deps := set d | d in r.deps;
    && row.spec.(acceptance := r.spec.acceptance) == r.spec
    && (deps == {} || row.deps == deps)
    && (r.spec.acceptance == "" || row.spec.acceptance == r.spec.acceptance)
  }

  function Enqueue(db: Db, r: Request, now: real): (Db, Outcome<TaskId>) {
    if |r.deps| > 64 || r.id in r.deps || !Canonical(r.spec.scope) then (db, Err(InvalidArgument))
    else if r.id in db.tasks then
      if SameTask(db.tasks[r.id], r) then (db, Ok(r.id)) else (db, Err(TaskConflict))
    else if r.evidenceKey.Some? && r.evidenceKey.value in db.evidence then
      var key := r.evidenceKey.value;
      var seen := db.evidence[key];
      if seen.taskId !in db.tasks then (db, Err(UnknownTask))
      else if db.tasks[seen.taskId].spec.scope != r.spec.scope then (db, Err(TaskConflict))
      else
        var counted := db.(evidence := db.evidence[key := seen.(occurrences := seen.occurrences + 1)]);
        (Log(counted, seen.taskId, EvidenceDuplicate(key)), Ok(seen.taskId))
    else if !RuntimeLeft(db, now) || |db.tasks| >= db.limits.maxTasks then (db, Err(RunLimitReached))
    else if r.derivedFrom.Some? && r.derivedFrom.value !in db.tasks then (db, Err(UnknownTask))
    else if r.derivedFrom.Some? && |DerivedTasks(db)| >= db.limits.maxDerivedTasks then (db, Err(RunLimitReached))
    else if exists d :: d in r.deps && d !in db.tasks then (db, Err(UnknownTask))
    else
      var added := Put(db, r.id, NewTask(db, r));
      var keyed := if r.evidenceKey.Some?
                   then added.(evidence := added.evidence[r.evidenceKey.value := Evidence(r.id, 1)]) else added;
      (Log(keyed, r.id, Created(r.derivedFrom)), Ok(r.id))
  }

  // ---- Claim ----

  predicate Local(db: Db, loc: Locality, id: TaskId)
    requires id in db.tasks
  {
    var row := db.tasks[id];
    && row.spec.workspace == loc.workspace
    && (exists path :: path in loc.authorized && Authorizes(path, row.spec.scope))
    && (loc.modules == [] || row.spec.moduleName in loc.modules)
    && (loc.dependencyOf == [] || id in loc.dependencyOf
        || (exists d :: d in loc.dependencyOf && d in row.deps)
        || (exists d :: d in loc.dependencyOf && d in db.tasks && id in db.tasks[d].deps))
  }

  predicate DependenciesDone(db: Db, row: Task) {
    forall d :: d in row.deps ==> d in db.tasks && db.tasks[d].status.Completed?
  }

  predicate ScopeFree(db: Db, id: TaskId, now: real)
    requires id in db.tasks
  {
    forall c :: c in db.tasks && c != id && Live(db.tasks[c], now) ==>
                  !GuardBlocks(db.tasks[c].spec.scope, db.tasks[id].spec.scope)
  }

  predicate Eligible(db: Db, id: TaskId, now: real)
    requires id in db.tasks
  {
    var row := db.tasks[id];
    && (row.status.Available? || row.status.Partial? || row.status.HandedOff?
        || (row.status.Claimed? && row.expiry.Some? && row.expiry.value <= now))
    && row.attempts < db.limits.maxAttemptsPerTask
    && row.unconfirmed.None?
    && DependenciesDone(db, row)
    && ScopeFree(db, id, now)
  }

  function Claim(db: Db, id: TaskId, worker: WorkerId, ttl: real, loc: Locality, start: real, now: real)
    : (Db, Outcome<Option<Lease>>)
  {
    if !TtlOk(ttl) || Blank(worker) then (db, Err(InvalidArgument))
    else if !RuntimeLeft(db, start) || |db.attempts| >= db.limits.maxAttempts then (db, Err(RunLimitReached))
    else if id !in db.tasks || !Local(db, loc, id) || !Eligible(db, id, now) then (db, Ok(None))
    else
      var row := db.tasks[id];
      var lease := Lease(id, row.spec.scope, worker, row.token + 1, now + ttl);
      var closed := if row.status.Claimed? then CloseAttempt(db, id, row.token, "expired") else db;
      var held := Put(closed, id, row.(status := Claimed, attempts := row.attempts + 1, token := lease.token,
                                       owner := Some(worker), expiry := Some(lease.expiresAt)));
      var begun := held.(attempts := held.attempts[(id, lease.token) := Attempt(worker, false, None)]);
      (Log(begun, id, ClaimedBy(worker, lease.token)), Ok(Some(lease)))
  }

  // ---- Holder operations ----

  predicate Owned(db: Db, l: Lease, now: real, orSubmitting: bool) {
    && l.taskId in db.tasks
    && var row := db.tasks[l.taskId];
    && row.owner == Some(l.worker)
    && row.token == l.token
    && row.spec.scope == l.scope
    && row.expiry == Some(l.expiresAt)
    && (row.status.Claimed? || (orSubmitting && row.status.Submitting?))
    && now < l.expiresAt
  }

  function Fenced(db: Db, l: Lease): Error {
    if l.taskId in db.tasks then LeaseLost else UnknownTask
  }

  function Renew(db: Db, l: Lease, ttl: real, now: real, stamp: real): (Db, Outcome<Option<Lease>>) {
    if !TtlOk(ttl) then (db, Err(InvalidArgument))
    else if !Owned(db, l, now, false) then (db, Ok(None))
    else
      var renewed := l.(expiresAt := stamp + ttl);
      var row := db.tasks[l.taskId].(expiry := Some(renewed.expiresAt));
      (Log(Put(db, l.taskId, row), l.taskId, Renewed(l.worker, l.token, renewed.expiresAt)), Ok(Some(renewed)))
  }

  // `_finish_attempt`: retry, give up, or block behind an unconfirmed request.
  function FinishAttempt(db: Db, l: Lease, outcome: string): Db
    requires l.taskId in db.tasks
  {
    var row := db.tasks[l.taskId];
    var status := if row.unconfirmed.Some? then Blocked
                  else if row.attempts >= db.limits.maxAttemptsPerTask then Failed else Available;
    var freed := Put(db, l.taskId, row.(status := status, owner := None, expiry := None));
    Log(CloseAttempt(freed, l.taskId, l.token, outcome), l.taskId, AttemptEnded(outcome, l.token))
  }

  function Release(db: Db, l: Lease, now: real): (Db, Outcome<bool>) {
    if Owned(db, l, now, false) then (FinishAttempt(db, l, "released"), Ok(true)) else (db, Ok(false))
  }

  function Fail(db: Db, l: Lease, now: real): (Db, Outcome<()>) {
    if Owned(db, l, now, false) then (FinishAttempt(db, l, "failed"), Ok(())) else (db, Err(Fenced(db, l)))
  }

  predicate IsBegin(a: AuditRow, id: TaskId) {
    a.taskId == id && a.event.Begun?
  }

  function Begins(audit: seq<AuditRow>, id: TaskId): nat {
    if audit == [] then 0
    else Begins(audit[..|audit| - 1], id) + (if IsBegin(audit[|audit| - 1], id) then 1 else 0)
  }

  function Begin(db: Db, l: Lease, requestId: string, maxExecutions: Option<int>, now: real): (Db, Outcome<()>) {
    if Blank(requestId) || (maxExecutions.Some? && !(1 <= maxExecutions.value <= 10)) then (db, Err(InvalidArgument))
    else if !Owned(db, l, now, false) then (db, Err(Fenced(db, l)))
    else if db.tasks[l.taskId].unconfirmed.Some? then (db, Err(TaskConflict))
    else if maxExecutions.Some? && Begins(db.audit, l.taskId) >= maxExecutions.value then (db, Err(TaskConflict))
    else
      var row := db.tasks[l.taskId].(unconfirmed := Some(requestId));
      (Log(Put(db, l.taskId, row), l.taskId, Begun(requestId, l.token)), Ok(()))
  }

  function Confirm(db: Db, l: Lease, requestId: string, now: real): (Db, Outcome<()>) {
    if !Owned(db, l, now, false) then (db, Err(Fenced(db, l)))
    else if db.tasks[l.taskId].unconfirmed != Some(requestId) then (db, Err(TaskConflict))
    else
      var row := db.tasks[l.taskId].(unconfirmed := None);
      (Log(Put(db, l.taskId, row), l.taskId, Confirmed(requestId, l.token)), Ok(()))
  }

  function RecordConditionFailure(db: Db, id: TaskId): (Db, Outcome<()>) {
    if id !in db.tasks then (db, Err(UnknownTask))
    else
      var row := db.tasks[id];
      if row.status.Completed? || row.status.Failed? || row.status.Blocked? || Held(row) then (db, Ok(()))
      else
        var count := row.conditionFailures + 1;
        var blocked := count >= db.limits.maxAttemptsPerTask;
        var next := row.(conditionFailures := count, status := if blocked then Blocked else row.status);
        (Log(Put(db, id, next), id, ConditionFailed(count, blocked)), Ok(()))
  }

  function Handoff(db: Db, l: Lease, target: WorkerId, kept: Option<string>, now: real): (Db, Outcome<()>) {
    if Blank(target) then (db, Err(InvalidArgument))
    else if !Owned(db, l, now, false) then (db, Err(Fenced(db, l)))
    else if l.worker == target then (db, Err(TaskConflict))
    else
      var row := db.tasks[l.taskId];
      var next := row.(status := if kept.Some? then Partial else HandedOff, owner := None, expiry := None,
                       result := if kept.Some? then kept else row.result);
      var freed := Put(db, l.taskId, next);
      (Log(CloseAttempt(freed, l.taskId, l.token, if kept.Some? then "partial" else "handoff"),
           l.taskId, Yielded(l.worker, target, l.token, kept.Some?)), Ok(()))
  }

  // ---- Submit: two transactions when a publication callback is given ----

  datatype Submission = Submission(lease: Lease, resultId: string, body: string)

  datatype Submitted = Replayed | Finished | MustPublish

  predicate HeldBy(row: Task, l: Lease) {
    row.token == l.token && row.owner == Some(l.worker) && row.spec.scope == l.scope
    && row.expiry == Some(l.expiresAt)
  }

  function Complete(db: Db, s: Submission, effectApplied: bool): Db
    requires s.lease.taskId in db.tasks
  {
    var id := s.lease.taskId;
    var row := db.tasks[id].(status := Completed, resultId := Some(s.resultId), result := Some(s.body),
                             effectApplied := effectApplied);
    Log(CloseAttempt(Put(db, id, row), id, s.lease.token, "completed"), id,
        CompletedWith(s.lease.token, s.resultId))
  }

  // First transaction of `submit`.
  function Submit(db: Db, s: Submission, publishes: bool, now: real): (Db, Outcome<Submitted>) {
    var id := s.lease.taskId;
    if Blank(s.resultId) then (db, Err(InvalidArgument))
    else if id !in db.tasks then (db, Err(UnknownTask))
    else
      var row := db.tasks[id];
      if row.status.Completed? && HeldBy(row, s.lease) then
        if row.resultId == Some(s.resultId) && row.result == Some(s.body) then (db, Ok(Replayed))
        else (db, Err(TaskConflict))
      else if !Owned(db, s.lease, now, false) then (db, Err(LeaseLost))
      else if !publishes then (Complete(db, s, false), Ok(Finished))
      else
        var next := row.(status := Submitting, resultId := Some(s.resultId), result := Some(s.body));
        (Log(Put(db, id, next), id, SubmittingResult(s.lease.token, s.resultId)), Ok(MustPublish))
  }

  // Second transaction: the callback starts only under a live submitting lease, and a
  // callback that raises, or outlives the lease, rolls the rows back.
  function Publish(db: Db, s: Submission, callbackReturns: bool, now: real, after: real): (Db, Outcome<()>) {
    if !Owned(db, s.lease, now, true) then (db, Err(Fenced(db, s.lease)))
    else if !callbackReturns || !Owned(db, s.lease, after, true) then (db, Err(LeaseLost))
    else (Complete(db, s, true), Ok(()))
  }
}
