// Theorems about every reachable state and every run of the task ledger.
module TaskSafety {
  import opened Wrappers
  import opened TaskModel
  import opened TaskInvariant
  import opened Runs

  // ---- What later states keep of earlier ones ----

  predicate RowLater(row: Task, row': Task) {
    && row'.rowid == row.rowid && row'.spec == row.spec && row'.deps == row.deps
    && row.token <= row'.token
    && (Terminal(row) ==> row' == row)
    && (row.status.Submitting? ==> row' == row || (row'.status.Completed? && row'.token == row.token))
  }

  ghost predicate Later(db: Db, db': Db) {
    && db'.limits == db.limits
    && db.audit <= db'.audit
    && (forall id :: id in db.tasks ==> id in db'.tasks && RowLater(db.tasks[id], db'.tasks[id]))
  }

  lemma ChangeIsLater(db: Db, db': Db, now: real, t: real)
    requires Change(db, db', now, t)
    ensures Later(db, db')
    ensures |db.audit| <= |db'.audit| <= |db.audit| + 1
  {
    if db' == db {
    } else if id, e, outcome :| GoodEdit(db, db', id, e, outcome, now, t) {
      assert RowLater(db.tasks[id], db'.tasks[id]);
    } else if r :| Inserts(db, db', r) {
    } else {
      var a :| Counts(db, db', a);
    }
  }

  lemma LaterReflexive(db: Db)
    ensures Later(db, db)
  {
    assert forall id :: id in db.tasks ==> RowLater(db.tasks[id], db.tasks[id]);
  }

  lemma LaterTransitive(a: Db, b: Db, c: Db)
    requires Later(a, b) && Later(b, c)
    ensures Later(a, c)
  {
    forall id | id in a.tasks
      ensures id in c.tasks && RowLater(a.tasks[id], c.tasks[id])
    {
      assert RowLater(a.tasks[id], b.tasks[id]);
      assert RowLater(b.tasks[id], c.tasks[id]);
    }
  }

  // ---- Publications in flight ----

  type Tasks = map<TaskId, Task>

  lemma FlightLater(tasks: Tasks, tasks': Tasks, inflight: seq<Submission>, starts: seq<TaskId>)
    requires SubmitOk(tasks, inflight, starts)
    requires forall id :: id in tasks && tasks[id].status.Submitting? ==> id in tasks' && tasks'[id] == tasks[id]
    requires forall id :: id in tasks && tasks[id].status.Completed? ==> id in tasks' && tasks'[id] == tasks[id]
    ensures SubmitOk(tasks', inflight, starts)
  {
    assert forall id :: id in starts ==> CallbackBegun(tasks, id);
  }

  lemma FlightEntered(tasks: Tasks, tasks': Tasks, inflight: seq<Submission>, starts: seq<TaskId>, s: Submission)
    requires SubmitOk(tasks, inflight, starts)
    requires s.lease.taskId in tasks && tasks[s.lease.taskId].status.Claimed?
    requires s.lease.taskId in tasks' && tasks'[s.lease.taskId].status.Submitting?
    requires forall id :: id in tasks && id != s.lease.taskId ==> id in tasks' && tasks'[id] == tasks[id]
    ensures SubmitOk(tasks', inflight + [s], starts)
  {
    var id := s.lease.taskId;
    assert id !in starts by { assert !CallbackBegun(tasks, id); }
    forall i | 0 <= i < |inflight|
      ensures inflight[i].lease.taskId != id && AwaitsCallback(tasks', inflight[i].lease.taskId, starts)
    {
      assert AwaitsCallback(tasks, inflight[i].lease.taskId, starts);
    }
    assert forall x :: x in starts ==> CallbackBegun(tasks, x) && CallbackBegun(tasks', x);
  }

  lemma FlightLeft(tasks: Tasks, tasks': Tasks, inflight: seq<Submission>, starts: seq<TaskId>, slot: nat, began: bool)
    requires SubmitOk(tasks, inflight, starts) && slot < |inflight|
    requires forall id :: id in tasks && id != inflight[slot].lease.taskId ==> id in tasks' && tasks'[id] == tasks[id]
    requires CallbackBegun(tasks', inflight[slot].lease.taskId)
    ensures SubmitOk(tasks', Without(inflight, slot),
                     if began then starts + [inflight[slot].lease.taskId] else starts)
  {
    var id, rest := inflight[slot].lease.taskId, Without(inflight, slot);
    var starts' := if began then starts + [id] else starts;
    assert AwaitsCallback(tasks, id, starts);
    forall i | 0 <= i < |rest|
      ensures AwaitsCallback(tasks', rest[i].lease.taskId, starts')
    {
      var k := if i < slot then i else i + 1;
      assert rest[i] == inflight[k] && AwaitsCallback(tasks, inflight[k].lease.taskId, starts);
    }
    assert forall x :: x in starts ==> CallbackBegun(tasks, x);
  }

  lemma SubmitEntersFlight(db: Db, s: Submission, now: real)
    requires Submit(db, s, true, now).1 == Ok(MustPublish)
    ensures var tasks' := Submit(db, s, true, now).0.tasks;
            && s.lease.taskId in db.tasks && db.tasks[s.lease.taskId].status.Claimed?
            && tasks' == db.tasks[s.lease.taskId := tasks'[s.lease.taskId]]
            && tasks'[s.lease.taskId].status.Submitting?
  {
  }

  lemma PublishTouchesOne(db: Db, s: Submission, back: bool, now: real, after: real)
    requires s.lease.taskId in db.tasks && CallbackBegun(db.tasks, s.lease.taskId)
    ensures var tasks' := Publish(db, s, back, now, after).0.tasks;
            && CallbackBegun(tasks', s.lease.taskId)
            && (forall id :: id in db.tasks && id != s.lease.taskId ==> id in tasks' && tasks'[id] == db.tasks[id])
  {
  }

  predicate LeaseOp(op: Op) {
    op.DoRenew? || op.DoRelease? || op.DoFail? || op.DoBegin? || op.DoConfirm? || op.DoHandoff?
  }

  // Lease operations act on claimed rows only.
  lemma LeaseOpsSpareSubmitting(w: World, op: Op, id: TaskId)
    requires LeaseOp(op) && id in w.db.tasks && w.db.tasks[id].status.Submitting?
    ensures id in DbStep(w, op).tasks && DbStep(w, op).tasks[id] == w.db.tasks[id]
  {
    match op
    case DoHandoff(_, _, _, _) =>
    case DoBegin(_, _, _, _) =>
    case _ =>
  }

  // Any step other than a publication leaves submitting rows alone.
  lemma SubmittingUntouched(w: World, op: Op, id: TaskId)
    requires !(op.DoPublish? && op.slot < |w.inflight|) && id in w.db.tasks && w.db.tasks[id].status.Submitting?
    ensures id in DbStep(w, op).tasks && DbStep(w, op).tasks[id] == w.db.tasks[id]
  {
    if LeaseOp(op) {
      LeaseOpsSpareSubmitting(w, op, id);
    } else {
      match op
      case DoEnqueue(r, t) =>
      case DoClaim(_, _, _, _, _, _) =>
      case DoSubmit(_, _, _) =>
      case _ =>
    }
  }

  lemma QuietStep(w: World, op: Op)
    requires Inv(w) && Ready(w, op) && !(op.DoPublish? && op.slot < |w.inflight|)
    ensures SubmitOk(DbStep(w, op).tasks, w.inflight, w.starts)
  {
    StepChanges(w, op);
    ChangeIsLater(w.db, DbStep(w, op), w.now, Last(op));
    forall id | id in w.db.tasks && w.db.tasks[id].status.Submitting?
      ensures id in DbStep(w, op).tasks && DbStep(w, op).tasks[id] == w.db.tasks[id]
    {
      SubmittingUntouched(w, op, id);
    }
    forall id | id in w.db.tasks && w.db.tasks[id].status.Completed?
      ensures id in DbStep(w, op).tasks && DbStep(w, op).tasks[id] == w.db.tasks[id]
    {
      assert RowLater(w.db.tasks[id], DbStep(w, op).tasks[id]);
    }
    FlightLater(w.db.tasks, DbStep(w, op).tasks, w.inflight, w.starts);
  }

  lemma SubmitFlight(w: World, s: Submission, t: real)
    requires SubmitOk(w.db.tasks, w.inflight, w.starts)
    requires Submit(w.db, s, true, t).1 == Ok(MustPublish)
    ensures SubmitOk(Submit(w.db, s, true, t).0.tasks, w.inflight + [s], w.starts)
  {
    SubmitEntersFlight(w.db, s, t);
    FlightEntered(w.db.tasks, Submit(w.db, s, true, t).0.tasks, w.inflight, w.starts, s);
  }

  lemma PublishFlight(w: World, slot: nat, back: bool, t: real, u: real)
    requires SubmitOk(w.db.tasks, w.inflight, w.starts) && slot < |w.inflight|
    ensures var s := w.inflight[slot];
            SubmitOk(Publish(w.db, s, back, t, u).0.tasks, Without(w.inflight, slot),
                     if Owned(w.db, s.lease, t, true) then w.starts + [s.lease.taskId] else w.starts)
  {
    var s := w.inflight[slot];
    assert AwaitsCallback(w.db.tasks, s.lease.taskId, w.starts);
    PublishTouchesOne(w.db, s, back, t, u);
    FlightLeft(w.db.tasks, Publish(w.db, s, back, t, u).0.tasks, w.inflight, w.starts, slot,
               Owned(w.db, s.lease, t, true));
  }

  lemma CrashFlight(w: World, slot: nat)
    requires SubmitOk(w.db.tasks, w.inflight, w.starts) && slot < |w.inflight|
    ensures SubmitOk(w.db.tasks, Without(w.inflight, slot), w.starts)
  {
    assert AwaitsCallback(w.db.tasks, w.inflight[slot].lease.taskId, w.starts);
    FlightLeft(w.db.tasks, w.db.tasks, w.inflight, w.starts, slot, false);
  }

  predicate EntersFlight(w: World, op: Op) {
    op.DoSubmit? && op.publishes && Submit(w.db, op.submission, true, op.at).1 == Ok(MustPublish)
  }

  predicate LeavesFlight(w: World, op: Op) {
    (op.DoPublish? || op.Crash?) && op.slot < |w.inflight|
  }

  lemma QuietFlight(w: World, op: Op)
    requires !EntersFlight(w, op) && !LeavesFlight(w, op)
    ensures Flight(w, op) == (w.inflight, w.starts)
  {
  }

  lemma FlightKept(w: World, op: Op)
    requires Inv(w) && Ready(w, op)
    ensures SubmitOk(DbStep(w, op).tasks, Flight(w, op).0, Flight(w, op).1)
  {
    if EntersFlight(w, op) {
      SubmitFlight(w, op.submission, op.at);
    } else if LeavesFlight(w, op) && op.DoPublish? {
      PublishFlight(w, op.slot, op.callbackReturns, op.at, op.stamp);
    } else if LeavesFlight(w, op) {
      CrashFlight(w, op.slot);
    } else {
      QuietFlight(w, op);
      QuietStep(w, op);
    }
  }

  lemma StepKeeps(w: World, op: Op)
    requires Inv(w) && Ready(w, op)
    ensures Inv(Step(w, op)) && Later(w.db, Step(w, op).db)
  {
    StepChanges(w, op);
    ChangeKeeps(w.db, DbStep(w, op), w.now, Last(op));
    ChangeIsLater(w.db, DbStep(w, op), w.now, Last(op));
    FlightKept(w, op);
  }

  ghost predicate LaterWorld(w: World, w': World) {
    Later(w.db, w'.db) && w.now <= w'.now
  }

  lemma StartOk(limits: RunLimits, at: real)
    ensures Inv(Start(limits, at))
  {
  }

  lemma EveryStepKeeps()
    ensures forall w, op :: Inv(w) && Ready(w, op) ==> Inv(Step(w, op)) && LaterWorld(w, Step(w, op))
  {
    forall w, op | Inv(w) && Ready(w, op)
      ensures Inv(Step(w, op)) && LaterWorld(w, Step(w, op))
    {
      StepKeeps(w, op);
    }
  }

  lemma LaterWorldOrders()
    ensures forall w :: LaterWorld(w, w)
    ensures forall a, b, c :: LaterWorld(a, b) && LaterWorld(b, c) ==> LaterWorld(a, c)
  {
    forall w ensures LaterWorld(w, w) { LaterReflexive(w.db); }
    forall a, b, c | LaterWorld(a, b) && LaterWorld(b, c)
      ensures LaterWorld(a, c)
    {
      LaterTransitive(a.db, b.db, c.db);
    }
  }

  // The invariant holds along every run, and every state is later than the ones before it.
  lemma RunKeeps(w: World, ops: seq<Op>)
    requires Inv(w) && Allowed(Ready, Step, w, ops)
    ensures Inv(Run(Step, w, ops)) && LaterWorld(w, Run(Step, w, ops))
  {
    EveryStepKeeps();
    LaterWorldOrders();
    Invariant(Ready, Step, Inv, w, ops);
    Relation(Ready, Step, Inv, LaterWorld, w, ops);
  }

  ghost predicate Reachable(w: World) {
    exists limits, at, ops :: Allowed(Ready, Step, Start(limits, at), ops) && w == Run(Step, Start(limits, at), ops)
  }

  lemma ReachableOk(w: World)
    requires Reachable(w)
    ensures Inv(w)
  {
    var limits, at, ops :| Allowed(Ready, Step, Start(limits, at), ops) && w == Run(Step, Start(limits, at), ops);
    StartOk(limits, at);
    RunKeeps(Start(limits, at), ops);
  }

  lemma ReachableStep(w: World, op: Op)
    requires Reachable(w) && Ready(w, op)
    ensures Reachable(Step(w, op))
  {
    var limits, at, ops :| Allowed(Ready, Step, Start(limits, at), ops) && w == Run(Step, Start(limits, at), ops);
    RunSnoc(Ready, Step, Start(limits, at), ops, op);
    assert Step(w, op) == Run(Step, Start(limits, at), ops + [op]);
  }

  lemma ReachableStart(limits: RunLimits, at: real)
    ensures Reachable(Start(limits, at))
  {
    assert Allowed(Ready, Step, Start(limits, at), []);
    assert Start(limits, at) == Run(Step, Start(limits, at), []);
  }
}
