// Workers, crashes and the clock drive the ledger; this invariant survives every step.
module TaskInvariant {
  import opened Wrappers
  import opened Scopes
  import opened TaskModel

  // ---- The system: the shared tables, the clock, and processes between the two
  // ---- transactions of a submit.

  datatype World = World(db: Db, now: real,
                         inflight: seq<Submission>,   // committed `submitting`, callback not begun
                         starts: seq<TaskId>)         // publication callbacks begun so far

  datatype Op =
    | DoEnqueue(request: Request, at: real)
    | DoClaim(id: TaskId, worker: WorkerId, ttl: real, loc: Locality, at: real, stamp: real)
    | DoRenew(lease: Lease, ttl: real, at: real, stamp: real)
    | DoRelease(lease: Lease, at: real)
    | DoFail(lease: Lease, at: real)
    | DoBegin(lease: Lease, requestId: string, maxExecutions: Option<int>, at: real)
    | DoConfirm(lease: Lease, requestId: string, at: real)
    | DoConditionFailure(id: TaskId, at: real)
    | DoHandoff(lease: Lease, target: WorkerId, kept: Option<string>, at: real)
    | DoSubmit(submission: Submission, publishes: bool, at: real)
    | DoPublish(slot: nat, callbackReturns: bool, at: real, stamp: real)
    | Crash(slot: nat, at: real)       // the process dies before its second transaction
    | Idle(at: real)                   // time passes, or a transaction is rolled back

  function Last(op: Op): real {
    if op.DoClaim? || op.DoRenew? || op.DoPublish? then op.stamp else op.at
  }

  // The clock never runs backwards.
  predicate Ready(w: World, op: Op) {
    w.now <= op.at <= Last(op)
  }

  function Without<T>(s: seq<T>, i: nat): seq<T>
    requires i < |s|
  {
    s[..i] + s[i + 1..]
  }

  function DbStep(w: World, op: Op): Db {
    match op
    case DoEnqueue(r, t) => Enqueue(w.db, r, t).0
    case DoClaim(id, worker, ttl, loc, t, u) => Claim(w.db, id, worker, ttl, loc, t, u).0
    case DoRenew(l, ttl, t, u) => Renew(w.db, l, ttl, t, u).0
    case DoRelease(l, t) => Release(w.db, l, t).0
    case DoFail(l, t) => Fail(w.db, l, t).0
    case DoBegin(l, request, max, t) => Begin(w.db, l, request, max, t).0
    case DoConfirm(l, request, t) => Confirm(w.db, l, request, t).0
    case DoConditionFailure(id, _) => RecordConditionFailure(w.db, id).0
    case DoHandoff(l, target, kept, t) => Handoff(w.db, l, target, kept, t).0
    case DoSubmit(s, publishes, t) => Submit(w.db, s, publishes, t).0
    case DoPublish(i, back, t, u) =>
      if i < |w.inflight| then Publish(w.db, w.inflight[i], back, t, u).0 else w.db
    case Crash(_, _) => w.db
    case Idle(_) => w.db
  }

  // Publications in flight and callbacks begun after a step.
  function Flight(w: World, op: Op): (seq<Submission>, seq<TaskId>) {
    match op
    case DoSubmit(s, publishes, t) =>
      if Submit(w.db, s, publishes, t).1 == Ok(MustPublish) then (w.inflight + [s], w.starts)
      else (w.inflight, w.starts)
    case DoPublish(i, _, t, _) =>
      if i < |w.inflight| then
        (Without(w.inflight, i),
         if Owned(w.db, w.inflight[i].lease, t, true) then w.starts + [w.inflight[i].lease.taskId] else w.starts)
      else (w.inflight, w.starts)
    case Crash(i, _) => if i < |w.inflight| then (Without(w.inflight, i), w.starts) else (w.inflight, w.starts)
    case _ => (w.inflight, w.starts)
  }

  function Step(w: World, op: Op): World {
    World(DbStep(w, op), Last(op), Flight(w, op).0, Flight(w, op).1)
  }

  function Start(limits: RunLimits, at: real): World {
    World(Opened(limits, at), at, [], [])
  }

  // ---- The audit trail of external requests ----

  // The request a task's trail leaves open.
  function Marker(audit: seq<AuditRow>, id: TaskId): Option<string> {
    if audit == [] then None
    else
      var last := audit[|audit| - 1];
      if last.taskId == id && last.event.Begun? then Some(last.event.requestId)
      else if last.taskId == id && last.event.Confirmed? then None
      else Marker(audit[..|audit| - 1], id)
  }

  // Begins and confirmations of one task alternate, each confirmation naming its begin.
  predicate Alternates(audit: seq<AuditRow>, id: TaskId) {
    audit == [] ||
    (var front, last := audit[..|audit| - 1], audit[|audit| - 1];
     && Alternates(front, id)
     && (last.taskId == id && last.event.Begun? ==> Marker(front, id) == None)
     && (last.taskId == id && last.event.Confirmed? ==> Marker(front, id) == Some(last.event.requestId)))
  }

  predicate ClaimRow(a: AuditRow, id: TaskId) {
    a.taskId == id && a.event.ClaimedBy?
  }

  // ---- The invariant ----

  ghost predicate RowOk(limits: RunLimits, row: Task) {
    && row.attempts == row.token <= limits.maxAttemptsPerTask
    && (Held(row) ==> row.owner.Some? && row.expiry.Some?)
    && (Held(row) || row.status.Completed? ==> row.token > 0)
    && Canonical(row.spec.scope)
  }

  ghost predicate RowsOk(db: Db) {
    forall id :: id in db.tasks ==> RowOk(db.limits, db.tasks[id])
  }

  predicate Issued(tasks: map<TaskId, Task>, key: (TaskId, nat)) {
    key.0 in tasks && 1 <= key.1 <= tasks[key.0].token
  }

  // Attempt rows are exactly the tokens handed out; the open one belongs to the holder.
  ghost predicate AttemptsOk(db: Db) {
    && |db.attempts| <= db.limits.maxAttempts
    && (forall key :: key in db.attempts <==> Issued(db.tasks, key))
    && (forall key :: key in db.attempts ==> AttemptOk(db.tasks[key.0], key.1, db.attempts[key]))
  }

  predicate AttemptOk(row: Task, k: nat, a: Attempt) {
    && (!a.finished <==> k == row.token && Held(row))
    && (!a.finished ==> row.owner == Some(a.worker))
  }

  ghost predicate DepsOk(tasks: map<TaskId, Task>) {
    && (forall id :: id in tasks ==> tasks[id].rowid < |tasks|)
    && (forall id, d :: id in tasks && d in tasks[id].deps ==>
          d in tasks && tasks[d].rowid < tasks[id].rowid
          && (tasks[id].token > 0 ==> tasks[d].status.Completed?))
  }

  ghost predicate ExclusionOk(db: Db, now: real) {
    forall a, b :: a in db.tasks && b in db.tasks && a != b && Live(db.tasks[a], now) && Live(db.tasks[b], now) ==>
                     !GuardBlocks(db.tasks[a].spec.scope, db.tasks[b].spec.scope)
  }

  ghost predicate MarkerOk(db: Db) {
    forall id: TaskId :: && Alternates(db.audit, id)
                 && Marker(db.audit, id) == if id in db.tasks then db.tasks[id].unconfirmed else None
  }

  // Claims and begins carry the token they act under.
  predicate Stamped(a: AuditRow) {
    a.event.ClaimedBy? || a.event.Begun?
  }

  // Tokens never go back along the trail, and every claim raises them.
  ghost predicate TokensOk(db: Db) {
    && (forall i :: 0 <= i < |db.audit| && Stamped(db.audit[i]) ==>
          db.audit[i].taskId in db.tasks && db.audit[i].event.token <= db.tasks[db.audit[i].taskId].token)
    && (forall i, j :: 0 <= i < j < |db.audit| && Stamped(db.audit[i]) && Stamped(db.audit[j])
          && db.audit[i].taskId == db.audit[j].taskId
          ==> db.audit[i].event.token <= db.audit[j].event.token
              && (db.audit[j].event.ClaimedBy? ==> db.audit[i].event.token < db.audit[j].event.token))
  }

  ghost predicate EvidenceOk(db: Db) {
    forall key :: key in db.evidence ==> db.evidence[key].taskId in db.tasks
  }

  ghost predicate DbInv(db: Db, now: real) {
    RowsOk(db) && AttemptsOk(db) && DepsOk(db.tasks) && ExclusionOk(db, now) && MarkerOk(db) && TokensOk(db)
    && EvidenceOk(db)
  }

  // A process between its transactions holds the only right to start the callback.
  ghost predicate SubmitOk(tasks: map<TaskId, Task>, inflight: seq<Submission>, starts: seq<TaskId>) {
    && (forall i :: 0 <= i < |inflight| ==> AwaitsCallback(tasks, inflight[i].lease.taskId, starts))
    && (forall i, j :: 0 <= i < j < |inflight| ==> inflight[i].lease.taskId != inflight[j].lease.taskId)
    && (forall id :: id in starts ==> CallbackBegun(tasks, id))
    && (forall i, j :: 0 <= i < j < |starts| ==> starts[i] != starts[j])
  }

  predicate AwaitsCallback(tasks: map<TaskId, Task>, id: TaskId, starts: seq<TaskId>) {
    id in tasks && tasks[id].status.Submitting? && id !in starts
  }

  predicate CallbackBegun(tasks: map<TaskId, Task>, id: TaskId) {
    id in tasks && (tasks[id].status.Submitting? || tasks[id].status.Completed?)
  }

  ghost predicate Inv(w: World) {
    DbInv(w.db, w.now) && SubmitOk(w.db.tasks, w.inflight, w.starts)
  }

  // ---- Row edits ----

  // Every transaction that changes an existing task changes one row, at most one attempt
  // row, and appends one audit row. These are the conditions under which it is safe.

  predicate Terminal(row: Task) {
    row.status.Completed? || row.status.Failed? || row.status.Blocked?
  }

  predicate Edits(db: Db, db': Db, id: TaskId, e: Event) {
    && id in db.tasks && id in db'.tasks
    && db'.limits == db.limits && db'.startedAt == db.startedAt && db'.evidence == db.evidence
    && db'.tasks == db.tasks[id := db'.tasks[id]]
    && db'.audit == db.audit + [AuditRow(id, e)]
    && (var row, row' := db.tasks[id], db'.tasks[id];
        && row'.(status := row.status, attempts := row.attempts, token := row.token, owner := row.owner,
                 expiry := row.expiry, unconfirmed := row.unconfirmed, resultId := row.resultId,
                 result := row.result, effectApplied := row.effectApplied,
                 conditionFailures := row.conditionFailures) == row)
  }

  predicate MarkerMoves(row: Task, row': Task, e: Event) {
    match e
    case Begun(request, _) => row.unconfirmed == None && row'.unconfirmed == Some(request)
    case Confirmed(request, _) => row.unconfirmed == Some(request) && row'.unconfirmed == None
    case _ => row'.unconfirmed == row.unconfirmed
  }

  predicate TokenMoves(row: Task, row': Task, e: Event) {
    if e.ClaimedBy? then e.token == row'.token == row.token + 1 && row.unconfirmed == None
    else row'.token == row.token && (e.Begun? ==> e.token == row.token)
  }

  // Under one token, a lease's expiry changes by renewal only, until both owner and expiry go.
  predicate ExpiryMoves(row: Task, row': Task, e: Event) {
    match e
    case ClaimedBy(_, _) => true
    case Renewed(worker, token, expiresAt) =>
      row'.expiry == Some(expiresAt) && row'.owner == row.owner == Some(worker) && token == row.token
    case _ => (row'.expiry == row.expiry && row'.owner == row.owner) || (row'.expiry.None? && row'.owner.None?)
  }

  predicate StatusMoves(row: Task, row': Task) {
    !Terminal(row) && (row.status.Submitting? ==> row'.status.Completed?)
  }

  predicate AttemptsMove(db: Db, db': Db, id: TaskId, outcome: string)
    requires id in db.tasks && id in db'.tasks
  {
    var row, row' := db.tasks[id], db'.tasks[id];
    if row'.token != row.token then
      && !row.status.Submitting?
      && Held(row') && row'.owner.Some? && |db.attempts| < db.limits.maxAttempts
      && db'.attempts == (if row.status.Claimed? then CloseAttempt(db, id, row.token, outcome) else db).attempts
                         [(id, row'.token) := Attempt(row'.owner.value, false, None)]
    else if Held(row) && !Held(row') then
      db'.attempts == CloseAttempt(db, id, row.token, outcome).attempts
    else
      db'.attempts == db.attempts && (Held(row') <==> Held(row)) && row'.owner == row.owner
  }

  ghost predicate GoodEdit(db: Db, db': Db, id: TaskId, e: Event, outcome: string, now: real, t: real) {
    && Edits(db, db', id, e)
    && (var row, row' := db.tasks[id], db'.tasks[id];
        && MarkerMoves(row, row', e)
        && TokenMoves(row, row', e)
        && ExpiryMoves(row, row', e)
        && StatusMoves(row, row')
        && AttemptsMove(db, db', id, outcome)
        && RowOk(db.limits, row')
        && (row'.token > 0 ==> row.token > 0 || DependenciesDone(db, row))
        && (Live(row', t) ==> Live(row, now) || ScopeFree(db, id, t)))
  }

  // ---- Each part of the invariant survives a good edit ----

  // A claim closes the row of an expired holder and opens the next token's.
  lemma RowsClaimed(attempts: map<(TaskId, nat), Attempt>, attempts': map<(TaskId, nat), Attempt>, id: TaskId,
                    row: Task, row': Task, tasks: map<TaskId, Task>)
    requires id in tasks && tasks[id] == row
    requires row'.token == row.token + 1 && Held(row') && row'.owner.Some? && !row.status.Submitting?
    requires forall key :: key in attempts ==> key.0 in tasks && key.1 <= tasks[key.0].token
    requires forall key :: key in attempts ==> AttemptOk(tasks[key.0], key.1, attempts[key])
    requires forall key :: key in attempts' ==> key == (id, row'.token) || key in attempts
    requires forall key :: key in attempts' && key in attempts && key != (id, row.token) ==>
                             attempts'[key] == attempts[key]
    requires (id, row.token) in attempts' ==> attempts'[(id, row.token)].finished
    requires (id, row'.token) in attempts' ==> attempts'[(id, row'.token)] == Attempt(row'.owner.value, false, None)
    ensures forall key :: key in attempts' ==> AttemptOk(tasks[id := row'][key.0], key.1, attempts'[key])
  {
    forall key | key in attempts'
      ensures AttemptOk(tasks[id := row'][key.0], key.1, attempts'[key])
    {
      if key.0 == id {
        assert key == (id, key.1);
      }
    }
  }

  lemma IssuedByClaim(tasks: map<TaskId, Task>, id: TaskId, row': Task, key: (TaskId, nat))
    requires id in tasks && row'.token == tasks[id].token + 1
    ensures Issued(tasks[id := row'], key) <==> Issued(tasks, key) || key == (id, row'.token)
  {
    assert key == (id, row'.token) <==> key.0 == id && key.1 == row'.token;
  }

  lemma AttemptsClaimed(db: Db, db': Db, id: TaskId, outcome: string)
    requires AttemptsOk(db) && id in db.tasks && id in db'.tasks
    requires db'.limits == db.limits && db'.tasks == db.tasks[id := db'.tasks[id]]
    requires Held(db.tasks[id]) ==> db.tasks[id].token > 0
    requires db'.tasks[id].token == db.tasks[id].token + 1 && AttemptsMove(db, db', id, outcome)
    ensures AttemptsOk(db')
  {
    var row, row' := db.tasks[id], db'.tasks[id];
    var closed := (if row.status.Claimed? then CloseAttempt(db, id, row.token, outcome) else db).attempts;
    assert closed.Keys == db.attempts.Keys;
    assert (id, row'.token) !in db.attempts;
    assert db'.attempts.Keys == db.attempts.Keys + {(id, row'.token)};
    assert |db'.attempts| == |db'.attempts.Keys| == |db.attempts.Keys| + 1;
    if (id, row.token) in db.attempts {
      assert AttemptOk(row, row.token, db.attempts[(id, row.token)]);
    }
    RowsClaimed(db.attempts, db'.attempts, id, row, row', db.tasks);
    forall key
      ensures key in db'.attempts <==> Issued(db'.tasks, key)
    {
      IssuedByClaim(db.tasks, id, row', key);
    }
  }

  lemma AttemptsClosed(db: Db, db': Db, id: TaskId, outcome: string)
    requires AttemptsOk(db) && id in db.tasks && id in db'.tasks
    requires db'.limits == db.limits && db'.tasks == db.tasks[id := db'.tasks[id]]
    requires Held(db.tasks[id]) ==> db.tasks[id].token > 0
    requires db'.tasks[id].token == db.tasks[id].token && AttemptsMove(db, db', id, outcome)
    ensures AttemptsOk(db')
  {
    var row, row' := db.tasks[id], db'.tasks[id];
    if Held(row) && !Held(row') {
      assert (id, row.token) in db.attempts;
      assert |db'.attempts| == |db'.attempts.Keys| == |db.attempts.Keys|;
    }
    forall key | key in db'.attempts
      ensures AttemptOk(db'.tasks[key.0], key.1, db'.attempts[key])
    {
      assert key in db.attempts && AttemptOk(db.tasks[key.0], key.1, db.attempts[key]);
    }
  }

  lemma AttemptsKept(db: Db, db': Db, id: TaskId, e: Event, outcome: string, now: real, t: real)
    requires GoodEdit(db, db', id, e, outcome, now, t)
    requires AttemptsOk(db) && RowsOk(db)
    ensures AttemptsOk(db')
  {
    assert RowOk(db.limits, db.tasks[id]);
    if e.ClaimedBy? {
      AttemptsClaimed(db, db', id, outcome);
    } else {
      AttemptsClosed(db, db', id, outcome);
    }
  }

  lemma DepsKept(db: Db, db': Db, id: TaskId, e: Event, outcome: string, now: real, t: real)
    requires GoodEdit(db, db', id, e, outcome, now, t)
    requires DepsOk(db.tasks)
    ensures DepsOk(db'.tasks)
  {
    assert db'.tasks.Keys == db.tasks.Keys;
    assert |db'.tasks| == |db'.tasks.Keys| == |db.tasks|;
    forall x, d | x in db'.tasks && d in db'.tasks[x].deps
      ensures d in db'.tasks && db'.tasks[d].rowid < db'.tasks[x].rowid
      ensures db'.tasks[x].token > 0 ==> db'.tasks[d].status.Completed?
    {
      assert x in db.tasks && d in db.tasks[x].deps;
    }
  }

  lemma LiveEarlier(row: Task, now: real, t: real)
    requires now <= t && Live(row, t)
    ensures Live(row, now)
  {
  }

  lemma ExclusionKept(db: Db, db': Db, id: TaskId, e: Event, outcome: string, now: real, t: real)
    requires GoodEdit(db, db', id, e, outcome, now, t) && now <= t
    requires ExclusionOk(db, now)
    ensures ExclusionOk(db', t)
  {
    forall a, b | a in db'.tasks && b in db'.tasks && a != b && Live(db'.tasks[a], t) && Live(db'.tasks[b], t)
      ensures !GuardBlocks(db'.tasks[a].spec.scope, db'.tasks[b].spec.scope)
    {
      if a == id {
        assert Live(db.tasks[b], t);
      } else if b == id {
        assert Live(db.tasks[a], t);
      } else {
        LiveEarlier(db.tasks[a], now, t);
        LiveEarlier(db.tasks[b], now, t);
      }
    }
  }

  lemma LogAppends(audit: seq<AuditRow>, a: AuditRow)
    ensures (audit + [a])[..|audit + [a]| - 1] == audit
  {
  }

  lemma MarkerKept(db: Db, db': Db, id: TaskId, e: Event, outcome: string, now: real, t: real)
    requires GoodEdit(db, db', id, e, outcome, now, t)
    requires MarkerOk(db)
    ensures MarkerOk(db')
  {
    LogAppends(db.audit, AuditRow(id, e));
    forall x: TaskId
      ensures Alternates(db'.audit, x)
      ensures Marker(db'.audit, x) == if x in db'.tasks then db'.tasks[x].unconfirmed else None
    {
      assert Alternates(db.audit, x);
      assert Marker(db.audit, x) == if x in db.tasks then db.tasks[x].unconfirmed else None;
    }
  }

  lemma TokensKept(db: Db, db': Db, id: TaskId, e: Event, outcome: string, now: real, t: real)
    requires GoodEdit(db, db', id, e, outcome, now, t)
    requires TokensOk(db)
    ensures TokensOk(db')
  {
  }

  lemma EditKeeps(db: Db, db': Db, id: TaskId, e: Event, outcome: string, now: real, t: real)
    requires GoodEdit(db, db', id, e, outcome, now, t) && now <= t
    requires DbInv(db, now)
    ensures DbInv(db', t)
  {
    AttemptsKept(db, db', id, e, outcome, now, t);
    DepsKept(db, db', id, e, outcome, now, t);
    ExclusionKept(db, db', id, e, outcome, now, t);
    MarkerKept(db, db', id, e, outcome, now, t);
    TokensKept(db, db', id, e, outcome, now, t);
  }

  // ---- Insertion and evidence counting ----

  ghost predicate Inserts(db: Db, db': Db, r: Request) {
    && r.id !in db.tasks && Canonical(r.spec.scope)
    && r.id !in r.deps && (forall d :: d in r.deps ==> d in db.tasks)
    && db'.limits == db.limits && db'.startedAt == db.startedAt && db'.attempts == db.attempts
    && db'.tasks == db.tasks[r.id := NewTask(db, r)]
    && (forall key :: key in db'.evidence ==>
          (key in db.evidence && db'.evidence[key] == db.evidence[key]) || db'.evidence[key].taskId == r.id)
    && db'.audit == db.audit + [AuditRow(r.id, Created(r.derivedFrom))]
  }

  ghost predicate Counts(db: Db, db': Db, a: AuditRow) {
    && db'.limits == db.limits && db'.startedAt == db.startedAt
    && db'.tasks == db.tasks && db'.attempts == db.attempts
    && db'.audit == db.audit + [a] && a.event.EvidenceDuplicate?
    && (forall key :: key in db'.evidence ==> key in db.evidence
                                              && db'.evidence[key].taskId == db.evidence[key].taskId)
  }

  lemma InsertKeepsRows(db: Db, db': Db, r: Request)
    requires Inserts(db, db', r)
    requires RowsOk(db)
    ensures RowsOk(db')
  {
    assert RowOk(db.limits, NewTask(db, r));
  }

  // A new row gets a fresh row id, so dependencies only ever point backwards.
  lemma InsertKeepsDeps(tasks: map<TaskId, Task>, id: TaskId, row: Task)
    requires DepsOk(tasks) && id !in tasks
    requires row.rowid == |tasks| && row.token == 0
    requires forall d :: d in row.deps ==> d in tasks
    ensures DepsOk(tasks[id := row])
  {
    var tasks' := tasks[id := row];
    assert tasks'.Keys == tasks.Keys + {id};
    assert |tasks'| == |tasks| + 1 by {
      assert |tasks'| == |tasks'.Keys| == |tasks.Keys| + 1;
    }
    forall x, d | x in tasks' && d in tasks'[x].deps
      ensures d in tasks' && tasks'[d].rowid < tasks'[x].rowid
      ensures tasks'[x].token > 0 ==> tasks'[d].status.Completed?
    {
      assert d in tasks && d != id;
      if x != id {
        assert x in tasks && d in tasks[x].deps;
      }
    }
  }

  lemma InsertKeepsExclusion(db: Db, db': Db, r: Request, now: real)
    requires Inserts(db, db', r)
    requires ExclusionOk(db, now)
    ensures ExclusionOk(db', now)
  {
    assert !Live(db'.tasks[r.id], now);
  }

  lemma TrailKept(db: Db, db': Db, a: AuditRow)
    requires db'.audit == db.audit + [a] && !a.event.Begun? && !a.event.Confirmed?
    requires forall x :: x in db.tasks ==> x in db'.tasks && db'.tasks[x].unconfirmed == db.tasks[x].unconfirmed
    requires forall x :: x in db'.tasks && x !in db.tasks ==> db'.tasks[x].unconfirmed == None
    requires MarkerOk(db)
    ensures MarkerOk(db')
  {
    LogAppends(db.audit, a);
    forall x: TaskId
      ensures Alternates(db'.audit, x)
      ensures Marker(db'.audit, x) == if x in db'.tasks then db'.tasks[x].unconfirmed else None
    {
      assert Alternates(db.audit, x);
      assert Marker(db.audit, x) == if x in db.tasks then db.tasks[x].unconfirmed else None;
    }
  }

  lemma InsertKeepsAttempts(db: Db, db': Db, r: Request)
    requires Inserts(db, db', r)
    requires AttemptsOk(db)
    ensures AttemptsOk(db')
  {
    forall key: (TaskId, nat)
      ensures Issued(db'.tasks, key) <==> Issued(db.tasks, key)
    {
    }
  }

  lemma InsertKeepsTokens(db: Db, db': Db, r: Request)
    requires Inserts(db, db', r)
    requires TokensOk(db)
    ensures TokensOk(db')
  {
  }

  lemma InsertKeeps(db: Db, db': Db, r: Request, now: real)
    requires Inserts(db, db', r)
    requires DbInv(db, now)
    ensures DbInv(db', now)
  {
    InsertKeepsRows(db, db', r);
    InsertKeepsDeps(db.tasks, r.id, NewTask(db, r));
    InsertKeepsExclusion(db, db', r, now);
    InsertKeepsAttempts(db, db', r);
    InsertKeepsTokens(db, db', r);
    TrailKept(db, db', AuditRow(r.id, Created(r.derivedFrom)));
  }

  lemma LaterClock(db: Db, now: real, t: real)
    requires ExclusionOk(db, now) && now <= t
    ensures ExclusionOk(db, t)
  {
    forall a, b | a in db.tasks && b in db.tasks && a != b && Live(db.tasks[a], t) && Live(db.tasks[b], t)
      ensures !GuardBlocks(db.tasks[a].spec.scope, db.tasks[b].spec.scope)
    {
      LiveEarlier(db.tasks[a], now, t);
      LiveEarlier(db.tasks[b], now, t);
    }
  }

  // ---- Every transaction is one of four changes ----

  ghost predicate Change(db: Db, db': Db, now: real, t: real) {
    || db' == db
    || (exists id, e, outcome :: GoodEdit(db, db', id, e, outcome, now, t))
    || (exists r :: Inserts(db, db', r))
    || (exists a :: Counts(db, db', a))
  }

  lemma CountKeepsRest(db: Db, db': Db, a: AuditRow)
    requires Counts(db, db', a)
    ensures RowsOk(db) ==> RowsOk(db')
    ensures AttemptsOk(db) ==> AttemptsOk(db')
    ensures TokensOk(db) ==> TokensOk(db')
    ensures EvidenceOk(db) ==> EvidenceOk(db')
  {
  }

  lemma CountKeeps(db: Db, db': Db, a: AuditRow, now: real)
    requires Counts(db, db', a) && DbInv(db, now)
    ensures DbInv(db', now)
  {
    CountKeepsRest(db, db', a);
    TrailKept(db, db', a);
    assert ExclusionOk(db', now);
  }

  lemma DbInvLater(db: Db, now: real, t: real)
    requires DbInv(db, now) && now <= t
    ensures DbInv(db, t)
  {
    LaterClock(db, now, t);
  }

  lemma ChangeKeeps(db: Db, db': Db, now: real, t: real)
    requires DbInv(db, now) && now <= t && Change(db, db', now, t)
    ensures DbInv(db', t)
  {
    DbInvLater(db, now, t);
    if db' == db {
    } else if id, e, outcome :| GoodEdit(db, db', id, e, outcome, now, t) {
      EditKeeps(db, db', id, e, outcome, now, t);
    } else if r :| Inserts(db, db', r) {
      InsertKeeps(db, db', r, t);
    } else {
      var a :| Counts(db, db', a);
      CountKeeps(db, db', a, t);
    }
  }

  ghost predicate HolderOk(db: Db, id: TaskId) {
    id in db.tasks ==> RowOk(db.limits, db.tasks[id])
  }

  lemma EnqueueChanges(db: Db, r: Request, now: real, t: real)
    ensures Change(db, Enqueue(db, r, t).0, now, t)
  {
    var db' := Enqueue(db, r, t).0;
    if r.id in db'.tasks && r.id !in db.tasks {
      assert db'.tasks == db.tasks[r.id := NewTask(db, r)];
      assert Inserts(db, db', r);
    } else if db' != db {
      assert Counts(db, db', db'.audit[|db.audit|]);
    }
  }

  lemma ClaimChanges(db: Db, id: TaskId, worker: WorkerId, ttl: real, loc: Locality, now: real, t: real, u: real)
    requires HolderOk(db, id) && now <= t <= u
    ensures Change(db, Claim(db, id, worker, ttl, loc, t, u).0, now, u)
  {
    var db' := Claim(db, id, worker, ttl, loc, t, u).0;
    if db' != db {
      var row, row' := db.tasks[id], db'.tasks[id];
      assert row' == row.(status := Claimed, attempts := row.attempts + 1, token := row.token + 1,
                          owner := Some(worker), expiry := Some(u + ttl));
      assert RowOk(db.limits, row');
      assert AttemptsMove(db, db', id, "expired");
      assert Edits(db, db', id, ClaimedBy(worker, row'.token));
      assert GoodEdit(db, db', id, ClaimedBy(worker, row'.token), "expired", now, u);
    }
  }

  lemma RenewChanges(db: Db, l: Lease, ttl: real, now: real, t: real, u: real)
    requires HolderOk(db, l.taskId) && now <= t <= u
    ensures Change(db, Renew(db, l, ttl, t, u).0, now, u)
  {
    var db' := Renew(db, l, ttl, t, u).0;
    if db' != db {
      assert GoodEdit(db, db', l.taskId, Renewed(l.worker, l.token, u + ttl), "", now, u);
    }
  }

  lemma FinishChanges(db: Db, l: Lease, outcome: string, now: real, t: real)
    requires HolderOk(db, l.taskId) && now <= t && Owned(db, l, t, false)
    ensures Change(db, FinishAttempt(db, l, outcome), now, t)
  {
    assert GoodEdit(db, FinishAttempt(db, l, outcome), l.taskId, AttemptEnded(outcome, l.token), outcome, now, t);
  }

  lemma BeginChanges(db: Db, l: Lease, request: string, max: Option<int>, now: real, t: real)
    requires HolderOk(db, l.taskId) && now <= t
    ensures Change(db, Begin(db, l, request, max, t).0, now, t)
  {
    var db' := Begin(db, l, request, max, t).0;
    if db' != db {
      assert GoodEdit(db, db', l.taskId, Begun(request, l.token), "", now, t);
    }
  }

  lemma ConfirmChanges(db: Db, l: Lease, request: string, now: real, t: real)
    requires HolderOk(db, l.taskId) && now <= t
    ensures Change(db, Confirm(db, l, request, t).0, now, t)
  {
    var db' := Confirm(db, l, request, t).0;
    if db' != db {
      assert GoodEdit(db, db', l.taskId, Confirmed(request, l.token), "", now, t);
    }
  }

  lemma ConditionChanges(db: Db, id: TaskId, now: real, t: real)
    requires HolderOk(db, id) && now <= t
    ensures Change(db, RecordConditionFailure(db, id).0, now, t)
  {
    var db' := RecordConditionFailure(db, id).0;
    if db' != db {
      var count := db.tasks[id].conditionFailures + 1;
      assert GoodEdit(db, db', id, ConditionFailed(count, count >= db.limits.maxAttemptsPerTask), "", now, t);
    }
  }

  lemma HandoffChanges(db: Db, l: Lease, target: WorkerId, kept: Option<string>, now: real, t: real)
    requires HolderOk(db, l.taskId) && now <= t
    ensures Change(db, Handoff(db, l, target, kept, t).0, now, t)
  {
    var db' := Handoff(db, l, target, kept, t).0;
    if db' != db {
      assert GoodEdit(db, db', l.taskId, Yielded(l.worker, target, l.token, kept.Some?),
                      if kept.Some? then "partial" else "handoff", now, t);
    }
  }

  lemma CompleteChanges(db: Db, s: Submission, effect: bool, now: real, t: real)
    requires HolderOk(db, s.lease.taskId) && now <= t && Owned(db, s.lease, t, true)
    ensures Change(db, Complete(db, s, effect), now, t)
  {
    assert GoodEdit(db, Complete(db, s, effect), s.lease.taskId, CompletedWith(s.lease.token, s.resultId),
                    "completed", now, t);
  }

  lemma SubmitChanges(db: Db, s: Submission, publishes: bool, now: real, t: real)
    requires HolderOk(db, s.lease.taskId) && now <= t
    ensures Change(db, Submit(db, s, publishes, t).0, now, t)
  {
    var db' := Submit(db, s, publishes, t).0;
    if db' == db {
    } else if publishes {
      assert GoodEdit(db, db', s.lease.taskId, SubmittingResult(s.lease.token, s.resultId), "", now, t);
    } else {
      CompleteChanges(db, s, false, now, t);
    }
  }

  lemma AllHoldersOk(db: Db)
    requires RowsOk(db)
    ensures forall id :: HolderOk(db, id)
  {
  }

  lemma StepChanges(w: World, op: Op)
    requires RowsOk(w.db) && Ready(w, op)
    ensures Change(w.db, DbStep(w, op), w.now, Last(op))
  {
    var db, now := w.db, w.now;
    AllHoldersOk(db);
    match op
    case DoEnqueue(r, t) => EnqueueChanges(db, r, now, t);
    case DoClaim(id, worker, ttl, loc, t, u) => ClaimChanges(db, id, worker, ttl, loc, now, t, u);
    case DoRenew(l, ttl, t, u) => RenewChanges(db, l, ttl, now, t, u);
    case DoRelease(l, t) => if Owned(db, l, t, false) { FinishChanges(db, l, "released", now, t); }
    case DoFail(l, t) => if Owned(db, l, t, false) { FinishChanges(db, l, "failed", now, t); }
    case DoBegin(l, request, max, t) => BeginChanges(db, l, request, max, now, t);
    case DoConfirm(l, request, t) => ConfirmChanges(db, l, request, now, t);
    case DoConditionFailure(id, t) => ConditionChanges(db, id, now, t);
    case DoHandoff(l, target, kept, t) => HandoffChanges(db, l, target, kept, now, t);
    case DoSubmit(s, publishes, t) => SubmitChanges(db, s, publishes, now, t);
    case DoPublish(i, back, t, u) =>
      if i < |w.inflight| && back && Owned(db, w.inflight[i].lease, u, true) {
        CompleteChanges(db, w.inflight[i], true, now, u);
      }
    case Crash(_, _) =>
    case Idle(_) =>
  }
}
