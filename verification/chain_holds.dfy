// A worker's own open holds in the shared budget table, and what each transaction does to them.
module ChainHolds {
  import opened Wrappers
  import opened ChainScripts
  import M = BudgetModel
  import B = BudgetSafety

  // ---- This worker's open holds ----

  function PendingOf(b: M.Budget, worker: string): set<nat> {
    set i: nat | i < |b.rows| && b.rows[i].reservation.worker == worker && b.rows[i].status.Pending?
  }

  // Besides the holds it found, the worker has at most its active one open.
  predicate Held(b: M.Budget, worker: string, found: set<nat>, active: Option<M.Reservation>) {
    && PendingOf(b, worker) <= found + (if active.Some? then {active.value.id} else {})
    && (active.Some? ==>
          M.Stored(b, active.value) && active.value.worker == worker && b.rows[active.value.id].status.Pending?
          && active.value.id !in found)
    && (forall i :: i in found ==> i < |b.rows|)
  }

  lemma ReserveHolds(b: M.Budget, worker: string, taskId: string, bound: M.Bound, requestId: Option<string>,
                     now: real, found: set<nat>)
    requires Held(b, worker, found, None)
    ensures var (b', reply) := M.Reserve(b, worker, taskId, bound, requestId, now);
            if reply.Ok? then Held(b', worker, found, Some(reply.value)) && reply.value.createdAt == now
                              && reply.value.requestId == (if requestId.Some? then requestId.value else taskId)
                              && reply.value.worker == worker && reply.value.taskId == taskId
                              && reply.value.bound == bound
            else b' == b
  {
    var (b', reply) := M.Reserve(b, worker, taskId, bound, requestId, now);
    if reply.Ok? {
      assert b'.rows == b.rows + [M.Row(reply.value, M.Pending, None, None, None, None, None)];
      forall i | i in PendingOf(b', worker) && i < |b.rows|
        ensures i in found
      {
        assert i in PendingOf(b, worker);
      }
    }
  }

  lemma Released(b: M.Budget, b': M.Budget, worker: string, found: set<nat>, r: M.Reservation, row: M.Row)
    requires Held(b, worker, found, Some(r)) && b'.rows == b.rows[r.id := row] && !row.status.Pending?
    ensures Held(b', worker, found, None)
  {
    forall i | i in PendingOf(b', worker)
      ensures i in found
    {
      assert i in PendingOf(b, worker);
    }
  }

  lemma SettleReleases(b: M.Budget, worker: string, found: set<nat>, r: M.Reservation, usage: Option<M.Usage>,
                       stop: bool, now: real)
    requires Held(b, worker, found, Some(r))
    ensures var (b', reply) := M.Settle(b, r, usage, stop, now);
            if now < r.createdAt then reply.Err? && b' == b else reply.Ok? && Held(b', worker, found, None)
  {
    if now >= r.createdAt {
      var b' := M.Settle(b, r, usage, stop, now).0;
      Released(b, b', worker, found, r, b'.rows[r.id]);
    }
  }

  lemma RejectionReleases(b: M.Budget, worker: string, found: set<nat>, r: M.Reservation, now: real)
    requires Held(b, worker, found, Some(r))
    ensures var (b', reply) := M.MarkUnknownRejection(b, r, now);
            if now < r.createdAt then reply.Err? && b' == b else reply.Ok? && Held(b', worker, found, None)
  {
    if now >= r.createdAt {
      var b' := M.MarkUnknownRejection(b, r, now).0;
      Released(b, b', worker, found, r, b'.rows[r.id]);
    }
  }

  // Rows only grow, and this worker's own rows are as they were.
  predicate OwnRowsKept(b: M.Budget, b': M.Budget, worker: string) {
    && |b.rows| <= |b'.rows|
    && (forall i :: 0 <= i < |b'.rows| && b'.rows[i].reservation.worker == worker ==>
          i < |b.rows| && b'.rows[i] == b.rows[i])
    && (forall i :: 0 <= i < |b.rows| ==> b'.rows[i].reservation == b.rows[i].reservation)
  }

  lemma ReserveKeepsOthers(b: M.Budget, worker: string, w: string, taskId: string, bound: M.Bound,
                           requestId: Option<string>, now: real)
    requires w != worker
    ensures OwnRowsKept(b, M.Reserve(b, w, taskId, bound, requestId, now).0, worker)
  {
    var (b', reply) := M.Reserve(b, w, taskId, bound, requestId, now);
    if reply.Ok? {
      assert b'.rows == b.rows + [M.Row(reply.value, M.Pending, None, None, None, None, None)];
    }
  }

  lemma OneRowKeepsOthers(b: M.Budget, b': M.Budget, worker: string, r: M.Reservation, row: M.Row)
    requires M.Stored(b, r) && r.worker != worker && row.reservation == r
    requires b'.rows == b.rows[r.id := row]
    ensures OwnRowsKept(b, b', worker)
  {
  }

  lemma SettleKeepsOthers(b: M.Budget, worker: string, r: M.Reservation, usage: Option<M.Usage>, stop: bool, now: real)
    requires r.worker != worker
    ensures OwnRowsKept(b, M.Settle(b, r, usage, stop, now).0, worker)
  {
    var b' := M.Settle(b, r, usage, stop, now).0;
    if b'.rows != b.rows {
      OneRowKeepsOthers(b, b', worker, r, b'.rows[r.id]);
    }
  }

  lemma OthersKeepRows(b: M.Budget, worker: string, op: B.Op)
    requires ByOthers(worker, op)
    ensures OwnRowsKept(b, B.BudgetStep(b, op), worker)
  {
    match op
    case DoReserve(w, task, bound, request, t, _) => ReserveKeepsOthers(b, worker, w, task, bound, request, t);
    case DoSettle(r, usage, stop, t, _) => SettleKeepsOthers(b, worker, r, usage, stop, t);
    case DoReject(r, t, _) =>
      var b' := M.MarkUnknownRejection(b, r, t).0;
      if b'.rows != b.rows { OneRowKeepsOthers(b, b', worker, r, b'.rows[r.id]); }
    case Idle(_) =>
  }

  lemma KeptHeld(b: M.Budget, b': M.Budget, worker: string, found: set<nat>, active: Option<M.Reservation>)
    requires Held(b, worker, found, active) && OwnRowsKept(b, b', worker)
    ensures Held(b', worker, found, active)
  {
    forall i | i in PendingOf(b', worker)
      ensures i in PendingOf(b, worker)
    {
    }
  }
}
