// Enqueueing and condition failures, and what every reachable row says about its own history: why it
// ended, what it stores, and how often things happened to it.
module TaskHistory {
  import opened Wrappers
  import opened Runs
  import opened Scopes
  import opened TaskModel
  import opened TaskInvariant
  import opened TaskSafety
  import opened TaskOutcomes

  // ---- Enqueue ----

  // The request repeats what the task already is; dependencies and acceptance may be left out.
  predicate Repeats(row: Task, r: Request) {
    && row.spec.workspace == r.spec.workspace && row.spec.scope == r.spec.scope && row.spec.kind == r.spec.kind
    && row.spec.payload == r.spec.payload && row.spec.moduleName == r.spec.moduleName
    && row.spec.capability == r.spec.capability
    && (r.deps != [] ==> (forall d :: d in row.deps ==> d in r.deps) && forall d :: d in r.deps ==> d in row.deps)
    && (r.spec.acceptance != "" ==> row.spec.acceptance == r.spec.acceptance)
  }

  predicate WellFormed(r: Request) {
    |r.deps| <= 64 && r.id !in r.deps && Canonical(r.spec.scope)
  }

  predicate SeenBefore(db: Db, r: Request) {
    r.evidenceKey.Some? && r.evidenceKey.value in db.evidence
  }

  // The run has room for the task, and it refers to known tasks only.
  predicate Admissible(db: Db, r: Request, t: real) {
    && 0.0 <= t - db.startedAt < db.limits.maxRuntimeSeconds && |db.tasks| < db.limits.maxTasks
    && (forall d :: d in r.deps ==> d in db.tasks)
    && (r.derivedFrom.Some? ==>
          r.derivedFrom.value in db.tasks
          && |set id | id in db.tasks && db.tasks[id].derivedFrom != None| < db.limits.maxDerivedTasks)
  }

  // A known identifier is answered with itself, exactly when the request repeats the task.
  lemma KnownTask(db: Db, r: Request, t: real)
    requires WellFormed(r) && r.id in db.tasks
    ensures Enqueue(db, r, t) == (db, if Repeats(db.tasks[r.id], r) then Ok(r.id) else Err(TaskConflict))
  {
    var row, deps := db.tasks[r.id], set d | d in r.deps;
    assert r.deps == [] <==> deps == {} by {
      if r.deps != [] { assert r.deps[0] in deps; }
    }
    assert row.spec.(acceptance := r.spec.acceptance) == r.spec <==>
           (row.spec.workspace, row.spec.scope, row.spec.kind, row.spec.payload, row.spec.moduleName,
            row.spec.capability) == (r.spec.workspace, r.spec.scope, r.spec.kind, r.spec.payload, r.spec.moduleName,
            r.spec.capability);
    assert row.deps == deps <==>
           (forall d :: d in row.deps ==> d in r.deps) && forall d :: d in r.deps ==> d in row.deps;
  }

  // Evidence seen before creates no task: it is counted on the task it created, whose scope it must name.
  lemma SeenEvidence(w: World, r: Request, t: real)
    requires Reachable(w) && WellFormed(r) && r.id !in w.db.tasks && SeenBefore(w.db, r)
    ensures w.db.evidence[r.evidenceKey.value].taskId in w.db.tasks
    ensures var (db', reply) := Enqueue(w.db, r, t);
            var seen := w.db.evidence[r.evidenceKey.value];
            && db'.tasks == w.db.tasks && db'.attempts == w.db.attempts
            && (if w.db.tasks[seen.taskId].spec.scope == r.spec.scope then
                  reply == Ok(seen.taskId) && Trailed(w.db, db', seen.taskId, EvidenceDuplicate(r.evidenceKey.value))
                  && db'.evidence == w.db.evidence[r.evidenceKey.value := Evidence(seen.taskId, seen.occurrences + 1)]
                else reply == Err(TaskConflict) && db' == w.db)
  {
    EvidenceKnown(w, r.evidenceKey.value);
  }

  lemma EvidenceKnown(w: World, key: string)
    requires Reachable(w) && key in w.db.evidence
    ensures w.db.evidence[key].taskId in w.db.tasks
  {
    ReachableOk(w);
  }

  // A new task is taken exactly when it is admissible; it waits, untouched, under the next row id,
  // and is the task its evidence created.
  lemma NewTasks(db: Db, r: Request, t: real)
    requires WellFormed(r) && r.id !in db.tasks && !SeenBefore(db, r)
    ensures var (db', reply) := Enqueue(db, r, t);
            && (reply.Ok? <==> Admissible(db, r, t))
            && (reply.Err? ==> db' == db)
            && (reply.Ok? ==>
                  && reply == Ok(r.id) && db'.attempts == db.attempts && Trailed(db, db', r.id, Created(r.derivedFrom))
                  && db'.tasks == db.tasks[r.id := Task(|db.tasks|, r.spec, (set d | d in r.deps), r.derivedFrom,
                                                       Available, 0, 0, None, None, None, None, None, false, 0)]
                  && db'.evidence == (if r.evidenceKey.Some? then db.evidence[r.evidenceKey.value := Evidence(r.id, 1)]
                                      else db.evidence))
  {
    assert DerivedTasks(db) == set id | id in db.tasks && db.tasks[id].derivedFrom != None;
  }

  lemma IllFormed(db: Db, r: Request, t: real)
    ensures !WellFormed(r) <==> Enqueue(db, r, t) == (db, Err(InvalidArgument))
  {
  }

  // ---- Condition failures ----

  // Only a task nobody holds and nothing ended is counted; it is blocked once the count reaches the
  // attempt limit.
  lemma CountingConditions(db: Db, id: TaskId)
    requires id in db.tasks
    ensures var (db', reply) := RecordConditionFailure(db, id);
            var row := db.tasks[id];
            && reply == Ok(()) && db'.attempts == db.attempts && db'.evidence == db.evidence
            && (if row.status in {Available, Partial, HandedOff} then
                  db'.tasks == db.tasks[id := row.(conditionFailures := row.conditionFailures + 1,
                                                   status := if row.conditionFailures + 1 < db.limits.maxAttemptsPerTask
                                                             then row.status else Blocked)]
                  && Trailed(db, db', id, ConditionFailed(row.conditionFailures + 1,
                                                          row.conditionFailures + 1 >= db.limits.maxAttemptsPerTask))
                else db' == db)
  {
  }

  // ---- What a row says about its history ----

  function ConditionOf(id: TaskId): AuditRow -> bool {
    (a: AuditRow) => a.taskId == id && a.event.ConditionFailed?
  }

  function DuplicateOf(key: string): AuditRow -> bool {
    (a: AuditRow) => a.event == EvidenceDuplicate(key)
  }

  // Why the row is where it is.
  predicate Explained(limits: RunLimits, row: Task) {
    && (row.status == Failed ==> row.unconfirmed == None && row.attempts >= limits.maxAttemptsPerTask)
    && (row.status == Blocked ==>
          row.unconfirmed != None || row.conditionFailures >= limits.maxAttemptsPerTask)
    && (row.status == Available ==> row.unconfirmed == None)
    && (row.status == Partial ==> row.result != None)
    && (row.status in {Submitting, Completed} ==>
          row.result != None && row.resultId.Some? && !Blank(row.resultId.value))
    && (row.effectApplied ==> row.status == Completed)
    && (row.owner != None <==> row.status in {Claimed, Submitting, Completed})
    && (row.expiry != None <==> row.owner != None)
    && (row.status != Blocked && row.conditionFailures > 0 ==> row.conditionFailures < limits.maxAttemptsPerTask)
  }

  predicate AllExplained(limits: RunLimits, tasks: map<TaskId, Task>) {
    forall id :: id in tasks ==> Explained(limits, tasks[id])
  }

  function Conditions(tasks: map<TaskId, Task>, id: TaskId): nat {
    if id in tasks then tasks[id].conditionFailures else 0
  }

  ghost predicate ConditionsTallied(tasks: map<TaskId, Task>, audit: seq<AuditRow>) {
    forall id: TaskId :: Tally(audit, ConditionOf(id)) == Conditions(tasks, id)
  }

  // The first sighting of a key creates its task; each later one is an event.
  ghost predicate SightingsTallied(evidence: map<string, Evidence>, audit: seq<AuditRow>) {
    forall key: string :: Tally(audit, DuplicateOf(key)) ==
                          if key in evidence then evidence[key].occurrences - 1 else 0
  }

  predicate SizesOk(limits: RunLimits, tasks: map<TaskId, Task>) {
    |tasks| <= limits.maxTasks && |DerivedIn(tasks)| <= limits.maxDerivedTasks
  }

  ghost predicate HistoryOk(db: Db) {
    && AllExplained(db.limits, db.tasks) && ConditionsTallied(db.tasks, db.audit)
    && SightingsTallied(db.evidence, db.audit) && SizesOk(db.limits, db.tasks)
  }

  function DerivedIn(tasks: map<TaskId, Task>): set<TaskId> {
    set id | id in tasks && tasks[id].derivedFrom.Some?
  }

  lemma OneMoreRow(tasks: map<TaskId, Task>, id: TaskId, row: Task)
    requires id !in tasks
    ensures |tasks[id := row]| == |tasks| + 1
  {
    assert tasks[id := row].Keys == tasks.Keys + {id};
    assert |tasks[id := row]| == |tasks[id := row].Keys| == |tasks.Keys| + 1;
  }

  lemma OneMoreDerived(tasks: map<TaskId, Task>, id: TaskId, row: Task)
    requires id !in tasks
    ensures DerivedIn(tasks[id := row]) <= DerivedIn(tasks) + {id}
    ensures row.derivedFrom.None? ==> DerivedIn(tasks[id := row]) <= DerivedIn(tasks)
  {
  }

  lemma SmallerSet<T>(a: set<T>, b: set<T>)
    requires a <= b
    ensures |a| <= |b|
  {
    assert b == a + (b - a);
  }

  lemma OneMoreTask(limits: RunLimits, tasks: map<TaskId, Task>, id: TaskId, row: Task)
    requires SizesOk(limits, tasks) && id !in tasks && |tasks| < limits.maxTasks
    requires row.derivedFrom.Some? ==> |DerivedIn(tasks)| < limits.maxDerivedTasks
    ensures SizesOk(limits, tasks[id := row])
  {
    OneMoreRow(tasks, id, row);
    OneMoreDerived(tasks, id, row);
    SmallerSet(DerivedIn(tasks[id := row]), DerivedIn(tasks) + (if row.derivedFrom.Some? then {id} else {}));
  }

  lemma SameTasks(limits: RunLimits, tasks: map<TaskId, Task>, id: TaskId, row: Task)
    requires SizesOk(limits, tasks) && id in tasks && row.derivedFrom == tasks[id].derivedFrom
    ensures SizesOk(limits, tasks[id := row])
  {
    var edited := tasks[id := row];
    assert edited.Keys == tasks.Keys;
    assert |edited| == |edited.Keys| == |tasks.Keys|;
    assert DerivedIn(edited) == DerivedIn(tasks);
  }

  lemma ConditionsMove(tasks: map<TaskId, Task>, audit: seq<AuditRow>, id: TaskId, row: Task, e: Event)
    requires ConditionsTallied(tasks, audit)
    requires row.conditionFailures == Conditions(tasks, id) + (if e.ConditionFailed? then 1 else 0)
    ensures ConditionsTallied(tasks[id := row], audit + [AuditRow(id, e)])
  {
    forall x: TaskId
      ensures Tally(audit + [AuditRow(id, e)], ConditionOf(x)) == Conditions(tasks[id := row], x)
    {
      TallyAppend(audit, AuditRow(id, e), ConditionOf(x));
    }
  }

  lemma SightingsStay(evidence: map<string, Evidence>, audit: seq<AuditRow>, a: AuditRow)
    requires SightingsTallied(evidence, audit) && !a.event.EvidenceDuplicate?
    ensures SightingsTallied(evidence, audit + [a])
  {
    forall key: string
      ensures Tally(audit + [a], DuplicateOf(key)) == if key in evidence then evidence[key].occurrences - 1 else 0
    {
      TallyAppend(audit, a, DuplicateOf(key));
    }
  }

  // An edit of one row keeps the history when the row stays explained and its counts move with the trail.
  lemma EditKeepsHistory(db: Db, db': Db, id: TaskId, e: Event)
    requires HistoryOk(db) && Edits(db, db', id, e) && Explained(db.limits, db'.tasks[id])
    requires !e.EvidenceDuplicate?
    requires db'.tasks[id].conditionFailures ==
             db.tasks[id].conditionFailures + (if e.ConditionFailed? then 1 else 0)
    ensures HistoryOk(db')
  {
    SameTasks(db.limits, db.tasks, id, db'.tasks[id]);
    ConditionsMove(db.tasks, db.audit, id, db'.tasks[id], e);
    SightingsStay(db.evidence, db.audit, AuditRow(id, e));
  }

  // A new row under fresh evidence keeps the history.
  lemma InsertKeepsHistory(db: Db, db': Db, id: TaskId, row: Task, key: Option<string>, e: Event)
    requires HistoryOk(db) && id !in db.tasks && Explained(db.limits, row) && row.conditionFailures == 0
    requires db'.limits == db.limits && db'.tasks == db.tasks[id := row] && db'.audit == db.audit + [AuditRow(id, e)]
    requires key.Some? ==> key.value !in db.evidence
    requires db'.evidence == if key.Some? then db.evidence[key.value := Evidence(id, 1)] else db.evidence
    requires e.Created? && |db.tasks| < db.limits.maxTasks
    requires row.derivedFrom.Some? ==> |DerivedIn(db.tasks)| < db.limits.maxDerivedTasks
    ensures HistoryOk(db')
  {
    OneMoreTask(db.limits, db.tasks, id, row);
    ConditionsMove(db.tasks, db.audit, id, row, e);
    SightingsStay(db.evidence, db.audit, AuditRow(id, e));
  }

  lemma NewTaskTrail(db: Db, r: Request, t: real)
    requires WellFormed(r) && r.id !in db.tasks && !SeenBefore(db, r) && Enqueue(db, r, t).1.Ok?
    ensures var db' := Enqueue(db, r, t).0;
            && db'.audit == db.audit + [AuditRow(r.id, Created(r.derivedFrom))] && db'.limits == db.limits
            && db'.tasks == db.tasks[r.id := NewTask(db, r)]
            && db'.evidence == (if r.evidenceKey.Some? then db.evidence[r.evidenceKey.value := Evidence(r.id, 1)]
                                else db.evidence)
            && |db.tasks| < db.limits.maxTasks
            && (r.derivedFrom.Some? ==> |DerivedIn(db.tasks)| < db.limits.maxDerivedTasks)
  {
    assert DerivedTasks(db) == DerivedIn(db.tasks);
  }

  lemma NewTaskKeepsHistory(db: Db, r: Request, t: real)
    requires HistoryOk(db) && WellFormed(r) && r.id !in db.tasks && !SeenBefore(db, r) && Enqueue(db, r, t).1.Ok?
    ensures HistoryOk(Enqueue(db, r, t).0)
  {
    NewTaskTrail(db, r, t);
    InsertKeepsHistory(db, Enqueue(db, r, t).0, r.id, NewTask(db, r), r.evidenceKey, Created(r.derivedFrom));
  }

  lemma SightingsMove(evidence: map<string, Evidence>, audit: seq<AuditRow>, key: string, id: TaskId)
    requires SightingsTallied(evidence, audit) && key in evidence
    ensures SightingsTallied(evidence[key := evidence[key].(occurrences := evidence[key].occurrences + 1)],
                             audit + [AuditRow(id, EvidenceDuplicate(key))])
  {
    var evidence' := evidence[key := evidence[key].(occurrences := evidence[key].occurrences + 1)];
    var a := AuditRow(id, EvidenceDuplicate(key));
    forall k: string
      ensures Tally(audit + [a], DuplicateOf(k)) == if k in evidence' then evidence'[k].occurrences - 1 else 0
    {
      TallyAppend(audit, a, DuplicateOf(k));
    }
  }

  lemma ConditionsStay(tasks: map<TaskId, Task>, audit: seq<AuditRow>, a: AuditRow)
    requires ConditionsTallied(tasks, audit) && !a.event.ConditionFailed?
    ensures ConditionsTallied(tasks, audit + [a])
  {
    forall x: TaskId ensures Tally(audit + [a], ConditionOf(x)) == Conditions(tasks, x) {
      TallyAppend(audit, a, ConditionOf(x));
    }
  }

  lemma SeenTrail(db: Db, r: Request, t: real)
    requires WellFormed(r) && r.id !in db.tasks && SeenBefore(db, r) && Enqueue(db, r, t).1.Ok?
    ensures var db', key := Enqueue(db, r, t).0, r.evidenceKey.value;
            && db'.limits == db.limits && db'.tasks == db.tasks
            && db'.evidence == db.evidence[key := db.evidence[key].(occurrences := db.evidence[key].occurrences + 1)]
            && db'.audit == db.audit + [AuditRow(db.evidence[key].taskId, EvidenceDuplicate(key))]
  {
  }

  lemma SeenKeepsHistory(db: Db, r: Request, t: real)
    requires HistoryOk(db) && WellFormed(r) && r.id !in db.tasks && SeenBefore(db, r) && Enqueue(db, r, t).1.Ok?
    ensures HistoryOk(Enqueue(db, r, t).0)
  {
    var key := r.evidenceKey.value;
    SeenTrail(db, r, t);
    SightingsMove(db.evidence, db.audit, key, db.evidence[key].taskId);
    ConditionsStay(db.tasks, db.audit, AuditRow(db.evidence[key].taskId, EvidenceDuplicate(key)));
  }

  lemma EnqueueKeepsHistory(db: Db, r: Request, t: real)
    requires HistoryOk(db)
    ensures HistoryOk(Enqueue(db, r, t).0)
  {
    IllFormed(db, r, t);
    if WellFormed(r) {
      if r.id in db.tasks {
        KnownTask(db, r, t);
      } else if Enqueue(db, r, t).1.Ok? {
        if SeenBefore(db, r) { SeenKeepsHistory(db, r, t); } else { NewTaskKeepsHistory(db, r, t); }
      }
    }
  }

  lemma ClaimEdits(db: Db, id: TaskId, worker: WorkerId, ttl: real, loc: Locality, start: real, t: real)
    requires Claim(db, id, worker, ttl, loc, start, t).1.Ok?
    requires Claim(db, id, worker, ttl, loc, start, t).1.value.Some?
    ensures id in db.tasks
    ensures Edits(db, Claim(db, id, worker, ttl, loc, start, t).0, id, ClaimedBy(worker, db.tasks[id].token + 1))
    ensures var row := db.tasks[id];
            Claim(db, id, worker, ttl, loc, start, t).0.tasks[id] ==
            row.(status := Claimed, attempts := row.attempts + 1, token := row.token + 1, owner := Some(worker),
                 expiry := Some(t + ttl))
    ensures db.tasks[id].status in {Available, Partial, HandedOff, Claimed}
  {
  }

  lemma ClaimKeepsHistory(db: Db, id: TaskId, worker: WorkerId, ttl: real, loc: Locality, start: real, t: real)
    requires HistoryOk(db)
    ensures HistoryOk(Claim(db, id, worker, ttl, loc, start, t).0)
  {
    var reply := Claim(db, id, worker, ttl, loc, start, t).1;
    if reply.Ok? && reply.value.Some? {
      ClaimEdits(db, id, worker, ttl, loc, start, t);
      EditKeepsHistory(db, Claim(db, id, worker, ttl, loc, start, t).0, id,
                       ClaimedBy(worker, db.tasks[id].token + 1));
    } else {
      RefusedClaim(db, id, worker, ttl, loc, start, t);
    }
  }

  lemma RefusedClaim(db: Db, id: TaskId, worker: WorkerId, ttl: real, loc: Locality, start: real, t: real)
    requires var reply := Claim(db, id, worker, ttl, loc, start, t).1; !(reply.Ok? && reply.value.Some?)
    ensures Claim(db, id, worker, ttl, loc, start, t).0 == db
  {
  }

  lemma HolderKeepsHistory(db: Db, l: Lease, t: real)
    requires HistoryOk(db) && Owned(db, l, t, false)
    ensures HistoryOk(FinishAttempt(db, l, "released")) && HistoryOk(FinishAttempt(db, l, "failed"))
  {
    EditKeepsHistory(db, FinishAttempt(db, l, "released"), l.taskId, AttemptEnded("released", l.token));
    EditKeepsHistory(db, FinishAttempt(db, l, "failed"), l.taskId, AttemptEnded("failed", l.token));
  }

  lemma RenewKeepsHistory(db: Db, l: Lease, ttl: real, t: real, u: real)
    requires HistoryOk(db)
    ensures HistoryOk(Renew(db, l, ttl, t, u).0)
  {
    var (db', reply) := Renew(db, l, ttl, t, u);
    if reply.Ok? && reply.value.Some? {
      EditKeepsHistory(db, db', l.taskId, Renewed(l.worker, l.token, u + ttl));
    }
  }

  lemma RequestKeepsHistory(db: Db, l: Lease, request: string, limit: Option<int>, t: real)
    requires HistoryOk(db)
    ensures HistoryOk(Begin(db, l, request, limit, t).0) && HistoryOk(Confirm(db, l, request, t).0)
  {
    if Begin(db, l, request, limit, t).1.Ok? {
      EditKeepsHistory(db, Begin(db, l, request, limit, t).0, l.taskId, Begun(request, l.token));
    }
    if Confirm(db, l, request, t).1.Ok? {
      EditKeepsHistory(db, Confirm(db, l, request, t).0, l.taskId, Confirmed(request, l.token));
    }
  }

  lemma ConditionKeepsHistory(db: Db, id: TaskId)
    requires HistoryOk(db)
    ensures HistoryOk(RecordConditionFailure(db, id).0)
  {
    var db' := RecordConditionFailure(db, id).0;
    if db' != db {
      var count := db.tasks[id].conditionFailures + 1;
      EditKeepsHistory(db, db', id, ConditionFailed(count, count >= db.limits.maxAttemptsPerTask));
    }
  }

  lemma HandoffKeepsHistory(db: Db, l: Lease, target: WorkerId, kept: Option<string>, t: real)
    requires HistoryOk(db)
    ensures HistoryOk(Handoff(db, l, target, kept, t).0)
  {
    var (db', reply) := Handoff(db, l, target, kept, t);
    if reply.Ok? {
      EditKeepsHistory(db, db', l.taskId, Yielded(l.worker, target, l.token, kept.Some?));
    }
  }

  lemma CompleteKeepsHistory(db: Db, s: Submission, applied: bool, t: real)
    requires HistoryOk(db) && Owned(db, s.lease, t, true) && !Blank(s.resultId)
    ensures HistoryOk(Complete(db, s, applied))
  {
    EditKeepsHistory(db, Complete(db, s, applied), s.lease.taskId, CompletedWith(s.lease.token, s.resultId));
  }

  lemma SubmitKeepsHistory(db: Db, s: Submission, publishes: bool, t: real)
    requires HistoryOk(db)
    ensures HistoryOk(Submit(db, s, publishes, t).0)
  {
    var (db', reply) := Submit(db, s, publishes, t);
    if reply == Ok(Finished) {
      CompleteKeepsHistory(db, s, false, t);
    } else if reply == Ok(MustPublish) {
      EditKeepsHistory(db, db', s.lease.taskId, SubmittingResult(s.lease.token, s.resultId));
    }
  }

  // What waits for its callback is what its row stores.
  predicate Waiting(tasks: map<TaskId, Task>, s: Submission) {
    && s.lease.taskId in tasks && !Blank(s.resultId)
    && tasks[s.lease.taskId].resultId == Some(s.resultId) && tasks[s.lease.taskId].result == Some(s.body)
  }

  ghost predicate RecordOk(w: World) {
    Inv(w) && HistoryOk(w.db) && forall i :: 0 <= i < |w.inflight| ==> Waiting(w.db.tasks, w.inflight[i])
  }

  lemma PublishKeepsHistory(db: Db, s: Submission, back: bool, t: real, u: real)
    requires HistoryOk(db) && !Blank(s.resultId)
    ensures HistoryOk(Publish(db, s, back, t, u).0)
  {
    if Publish(db, s, back, t, u).1.Ok? { CompleteKeepsHistory(db, s, true, u); }
  }

  lemma GivingUpKeepsHistory(db: Db, l: Lease, t: real)
    requires HistoryOk(db)
    ensures HistoryOk(Release(db, l, t).0) && HistoryOk(Fail(db, l, t).0)
  {
    if Owned(db, l, t, false) { HolderKeepsHistory(db, l, t); }
  }

  lemma HolderOpKeepsHistory(w: World, op: Op)
    requires HistoryOk(w.db) && LeaseOp(op)
    ensures HistoryOk(DbStep(w, op))
  {
    match op
    case DoRenew(l, ttl, t, u) => RenewKeepsHistory(w.db, l, ttl, t, u);
    case DoRelease(l, t) => GivingUpKeepsHistory(w.db, l, t);
    case DoFail(l, t) => GivingUpKeepsHistory(w.db, l, t);
    case DoBegin(l, request, limit, t) => RequestKeepsHistory(w.db, l, request, limit, t);
    case DoConfirm(l, request, t) => RequestKeepsHistory(w.db, l, request, None, t);
    case DoHandoff(l, target, kept, t) => HandoffKeepsHistory(w.db, l, target, kept, t);
  }

  lemma HistoryKept(w: World, op: Op)
    requires HistoryOk(w.db) && forall i :: 0 <= i < |w.inflight| ==> Waiting(w.db.tasks, w.inflight[i])
    ensures HistoryOk(DbStep(w, op))
  {
    if LeaseOp(op) {
      HolderOpKeepsHistory(w, op);
    } else {
      match op
      case DoEnqueue(r, t) => EnqueueKeepsHistory(w.db, r, t);
      case DoClaim(id, worker, ttl, loc, t, u) => ClaimKeepsHistory(w.db, id, worker, ttl, loc, t, u);
      case DoConditionFailure(id, _) => ConditionKeepsHistory(w.db, id);
      case DoSubmit(s, publishes, t) => SubmitKeepsHistory(w.db, s, publishes, t);
      case DoPublish(i, back, t, u) =>
        if i < |w.inflight| { PublishKeepsHistory(w.db, w.inflight[i], back, t, u); }
      case _ =>
    }
  }

  lemma WaitingKept(w: World, op: Op, s: Submission)
    requires Inv(w) && Ready(w, op) && Waiting(w.db.tasks, s) && w.db.tasks[s.lease.taskId].status.Submitting?
    requires op.DoPublish? && op.slot < |w.inflight| ==> w.inflight[op.slot].lease.taskId != s.lease.taskId
    ensures Waiting(DbStep(w, op).tasks, s)
  {
    if op.DoPublish? && op.slot < |w.inflight| {
      assert AwaitsCallback(w.db.tasks, w.inflight[op.slot].lease.taskId, w.starts);
      PublishTouchesOne(w.db, w.inflight[op.slot], op.callbackReturns, op.at, op.stamp);
    } else {
      SubmittingUntouched(w, op, s.lease.taskId);
    }
  }

  lemma SubmittedWaits(db: Db, s: Submission, t: real)
    requires Submit(db, s, true, t).1 == Ok(MustPublish)
    ensures Waiting(Submit(db, s, true, t).0.tasks, s)
  {
  }

  // A submission waiting after a step waited before it, or has just been stored.
  lemma FlightFrom(w: World, op: Op, i: nat) returns (k: nat)
    requires i < |Flight(w, op).0|
    ensures if k < |w.inflight| then
              Flight(w, op).0[i] == w.inflight[k] && (op.DoPublish? && op.slot < |w.inflight| ==> op.slot != k)
            else EntersFlight(w, op) && Flight(w, op).0[i] == op.submission
  {
    k := if LeavesFlight(w, op) && i >= op.slot then i + 1 else i;
  }

  lemma FlightKeepsWaiting(w: World, op: Op, i: nat)
    requires RecordOk(w) && Ready(w, op) && i < |Flight(w, op).0|
    ensures Waiting(DbStep(w, op).tasks, Flight(w, op).0[i])
  {
    var k := FlightFrom(w, op, i);
    if k < |w.inflight| {
      assert AwaitsCallback(w.db.tasks, w.inflight[k].lease.taskId, w.starts);
      DistinctFlight(w, op, k);
      WaitingKept(w, op, w.inflight[k]);
    } else {
      SubmittedWaits(w.db, op.submission, op.at);
    }
  }

  lemma DistinctFlight(w: World, op: Op, k: nat)
    requires Inv(w) && k < |w.inflight| && (op.DoPublish? && op.slot < |w.inflight| ==> op.slot != k)
    ensures op.DoPublish? && op.slot < |w.inflight| ==> w.inflight[op.slot].lease.taskId != w.inflight[k].lease.taskId
  {
  }

  lemma StepKeepsRecord(w: World, op: Op)
    requires RecordOk(w) && Ready(w, op)
    ensures RecordOk(Step(w, op))
  {
    StepKeeps(w, op);
    HistoryKept(w, op);
    forall i | 0 <= i < |Flight(w, op).0|
      ensures Waiting(DbStep(w, op).tasks, Flight(w, op).0[i])
    {
      FlightKeepsWaiting(w, op, i);
    }
  }

  lemma StartRecord(limits: RunLimits, at: real)
    ensures RecordOk(Start(limits, at))
  {
    StartOk(limits, at);
    assert DerivedIn(map[]) == {};
  }

  // In every reachable state each row explains itself: a failed task used up its attempts with
  // nothing open, a blocked one has an open request or too many condition failures, a completed or
  // submitting one has its result, exactly the held and completed ones have an owner and expiry.
  // Condition failures and evidence occurrences count their events, and tasks, derived tasks
  // and their limits agree.
  lemma RowsExplainThemselves(w: World)
    requires Reachable(w)
    ensures HistoryOk(w.db)
    ensures forall i :: 0 <= i < |w.inflight| ==> Waiting(w.db.tasks, w.inflight[i])
  {
    var limits, at, ops :| Allowed(Ready, Step, Start(limits, at), ops) && w == Run(Step, Start(limits, at), ops);
    forall v, o | RecordOk(v) && Ready(v, o) ensures RecordOk(Step(v, o)) { StepKeepsRecord(v, o); }
    StartRecord(limits, at);
    Invariant(Ready, Step, RecordOk, Start(limits, at), ops);
  }

  // A submission is answered as a replay exactly when it is the stored one, and as a conflict exactly
  // when its lease completed the task with another identifier or body.
  lemma ReplaysExactly(w: World, s: Submission, publishes: bool, t: real)
    requires Reachable(w)
    ensures Submit(w.db, s, publishes, t).1 == Ok(Replayed) <==>
            !Blank(s.resultId) && (ResultStored(w.db, s, true) || ResultStored(w.db, s, false))
    ensures Submit(w.db, s, publishes, t).1 == Err(TaskConflict) <==>
            !Blank(s.resultId)
            && exists id, body, applied :: ResultStored(w.db, Submission(s.lease, id, body), applied)
                                           && (id, body) != (s.resultId, s.body)
  {
    RowsExplainThemselves(w);
    if Submit(w.db, s, publishes, t).1 == Err(TaskConflict) {
      var row := w.db.tasks[s.lease.taskId];
      assert Explained(w.db.limits, row);
      assert ResultStored(w.db, Submission(s.lease, row.resultId.value, row.result.value), row.effectApplied);
    }
  }
}
