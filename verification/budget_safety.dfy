// Spending and burn bounds over every run of the shared budget.
module BudgetSafety {
  import opened Wrappers
  import opened Sums
  import opened Runs
  import opened BudgetModel

  // ---- The system: many workers, each acting on a clock reading that may be stale ----

  datatype World = World(budget: Budget, now: real)

  datatype Op =
    | DoReserve(worker: string, taskId: string, bound: Bound, requestId: Option<string>, reading: real, at: real)
    | DoSettle(reservation: Reservation, usage: Option<Usage>, stop: bool, reading: real, at: real)
    | DoReject(reservation: Reservation, reading: real, at: real)
    | Idle(at: real)

  // The clock never runs backwards; a reading is taken before its transaction commits.
  predicate Ready(w: World, op: Op) {
    w.now <= op.at && (!op.Idle? ==> op.reading <= op.at)
  }

  function BudgetStep(b: Budget, op: Op): Budget {
    match op
    case DoReserve(worker, task, bound, request, t, _) => Reserve(b, worker, task, bound, request, t).0
    case DoSettle(r, usage, stop, t, _) => Settle(b, r, usage, stop, t).0
    case DoReject(r, t, _) => MarkUnknownRejection(b, r, t).0
    case Idle(_) => b
  }

  function Step(w: World, op: Op): World {
    World(BudgetStep(w.budget, op), op.at)
  }

  function Start(policy: Policy, at: real): World {
    World(Budget(policy, at, [], None), at)
  }

  // ---- The invariant ----

  ghost predicate RowOk(b: Budget, row: Row) {
    && BoundOk(row.reservation.bound)
    && Amount(row) >= 0.0
    && (row.status.Settled? <==> row.admitted.Some?)
    && (row.status.Settled? ==> Commitment(row) >= Amount(row))
    && (!row.status.Pending? ==> row.settledAt.Some?)
    && (row.status.Pending? ==> row.tokens.None? && row.settlement.None?)
    && BoundTotal(row.reservation.bound) <= b.policy.maxTokens
    && (b.policy.prices.Some? ==>
          Estimate(b.policy.prices.value, row.reservation.bound.inputTokens, row.reservation.bound.maxOutputTokens)
          <= Amount(row))
    && (b.breaker.None? ==> Charge(row) <= BoundTotal(row.reservation.bound))
    && (Commitment(row) > Amount(row) ==> b.breaker.Some?)
  }

  ghost predicate RowsOk(b: Budget) {
    forall i :: 0 <= i < |b.rows| ==> RowOk(b, b.rows[i]) && b.rows[i].reservation.id == i
  }

  ghost predicate RequestsOk(rows: seq<Row>) {
    && (forall i, j :: 0 <= i < j < |rows| ==> rows[i].reservation.requestId != rows[j].reservation.requestId)
    && (forall i, j :: 0 <= i < j < |rows| && rows[i].reservation.taskId == rows[j].reservation.taskId ==>
          !(rows[i].status.Pending? && rows[j].status.Pending?))
  }

  ghost predicate MoneyOk(b: Budget) {
    b.policy.admission ==> Sum(Amount, b.rows) <= b.policy.maxCost
  }

  // The burn of one worker in the window ending at `t`.
  function WindowBurn(b: Budget, worker: string, t: real): nat {
    Burn(b.rows, worker, t - b.policy.burnWindow)
  }

  ghost predicate BurnOk(b: Budget, now: real) {
    b.breaker.None? ==> forall worker, t :: now <= t ==> WindowBurn(b, worker, t) <= b.policy.burnRate
  }

  ghost predicate Inv(w: World) {
    PolicyOk(w.budget.policy) && RowsOk(w.budget) && RequestsOk(w.budget.rows) && MoneyOk(w.budget)
    && BurnOk(w.budget, w.now)
  }

  // ---- Arithmetic ----

  lemma EstimateMonotone(p: Prices, i: nat, o: nat, i': nat, o': nat)
    requires p.inputPerMillion >= 0.0 && p.outputPerMillion >= 0.0 && i <= i' && o <= o'
    ensures Estimate(p, i, o) <= Estimate(p, i', o')
    ensures Estimate(p, i, o) >= 0.0
  {
    assert i as real * p.inputPerMillion <= i' as real * p.inputPerMillion;
    assert o as real * p.outputPerMillion <= o' as real * p.outputPerMillion;
  }

  // A settlement above its reservation is only possible past the token bound.
  lemma OverrunNeedsBreach(p: Policy, row: Row, u: Usage)
    requires PolicyOk(p) && p.prices.Some?
    requires Estimate(p.prices.value, row.reservation.bound.inputTokens, row.reservation.bound.maxOutputTokens)
             <= Amount(row)
    requires Estimate(p.prices.value, u.prompt, u.completion) > Amount(row)
    ensures TokenBreach(p, row.reservation.bound, u)
  {
    var b := row.reservation.bound;
    if u.prompt <= b.inputTokens && u.completion <= b.maxOutputTokens {
      EstimateMonotone(p.prices.value, u.prompt, u.completion, b.inputTokens, b.maxOutputTokens);
    }
  }

  lemma BurnAppend(rows: seq<Row>, row: Row, worker: string, since: real)
    ensures Burn(rows + [row], worker, since) ==
            Burn(rows, worker, since) + (if Burning(row, worker, since) then Charge(row) else 0)
  {
    assert (rows + [row])[..|rows + [row]| - 1] == rows;
  }

  // Replacing a row by one that charges no more cannot raise the burn.
  lemma {:induction false} BurnUpdate(rows: seq<Row>, i: nat, row: Row, worker: string, since: real)
    requires i < |rows|
    requires Burning(row, worker, since) ==> Burning(rows[i], worker, since) && Charge(row) <= Charge(rows[i])
    ensures Burn(rows[i := row], worker, since) <= Burn(rows, worker, since)
  {
    var front := rows[..|rows| - 1];
    if i == |rows| - 1 {
      assert rows[i := row][..|rows| - 1] == front;
    } else {
      assert rows[i := row][..|rows| - 1] == front[i := row];
      BurnUpdate(front, i, row, worker, since);
    }
  }

  // A later window start drops rows, never adds them.
  lemma {:induction false} BurnLater(rows: seq<Row>, worker: string, since: real, since': real)
    requires since <= since'
    ensures Burn(rows, worker, since') <= Burn(rows, worker, since)
  {
    if rows != [] {
      BurnLater(rows[..|rows| - 1], worker, since, since');
    }
  }

  // Spent plus held money is what the rows commit.
  lemma CommittedSplits(b: Budget)
    requires RowsOk(b)
    ensures Committed(b) == Sum(Admitted, b.rows) + Sum(Hold, b.rows)
    ensures Sum(Amount, b.rows) <= Committed(b)
  {
    forall i | 0 <= i < |b.rows|
      ensures Commitment(b.rows[i]) == Admitted(b.rows[i]) + Hold(b.rows[i])
      ensures Amount(b.rows[i]) <= Commitment(b.rows[i])
    {
      assert RowOk(b, b.rows[i]);
    }
    SumAgrees(Admitted, Hold, Commitment, b.rows);
    SumMonotone(Amount, Commitment, b.rows);
  }

  // ---- Every transaction is one of three changes ----

  // The breaker may be latched, never cleared.
  predicate Latches(b: Budget, b': Budget) {
    b'.policy == b.policy && b'.startedAt == b.startedAt && (b.breaker.Some? ==> b'.breaker.Some?)
  }

  ghost predicate Admits(b: Budget, b': Budget, row: Row, reading: real) {
    && b' == b.(rows := b.rows + [row])
    && b.breaker.None?
    && row.status.Pending? && row.reservation.id == |b.rows| && RowOk(b', row)
    && !AlreadyReserved(b.rows, row.reservation.requestId, row.reservation.taskId)
    && Burn(b.rows, row.reservation.worker, reading - b.policy.burnWindow) + BoundTotal(row.reservation.bound)
       <= b.policy.burnRate
    && (b.policy.admission ==> Sum(Admitted, b.rows) + Sum(Hold, b.rows) + Amount(row) <= b.policy.maxCost)
  }

  ghost predicate Closes(b: Budget, b': Budget, i: nat, row: Row) {
    && i < |b.rows| && Latches(b, b')
    && b'.rows == b.rows[i := row]
    && b.rows[i].status.Pending? && !row.status.Pending?
    && row.reservation == b.rows[i].reservation && RowOk(b', row)
  }

  ghost predicate Change(b: Budget, b': Budget, reading: real) {
    || (Latches(b, b') && b'.rows == b.rows)
    || (exists row :: Admits(b, b', row, reading))
    || (exists i, row :: Closes(b, b', i, row))
  }

  lemma ReserveChanges(b: Budget, worker: string, task: string, bound: Bound, request: Option<string>, t: real)
    requires PolicyOk(b.policy)
    ensures Change(b, Reserve(b, worker, task, bound, request, t).0, t)
  {
    var (b', reply) := Reserve(b, worker, task, bound, request, t);
    if reply.Ok? {
      var row := b'.rows[|b.rows|];
      var amount := ReservationAmount(b.policy, bound);
      assert b'.rows == b.rows + [row];
      if b.policy.prices.Some? {
        EstimateMonotone(b.policy.prices.value, bound.inputTokens, bound.maxOutputTokens, bound.inputTokens,
                         bound.maxOutputTokens);
      }
      assert RowOk(b', row);
      assert Admits(b, b', row, t);
    }
  }

  lemma SettleKnownChanges(b: Budget, r: Reservation, u: Usage, now: real)
    requires PolicyOk(b.policy) && Stored(b, r) && RowOk(b, b.rows[r.id]) && b.rows[r.id].status.Pending?
    ensures Closes(b, SettleKnown(b, r, u, now), r.id, SettledRow(b.policy, b.rows[r.id], u, now))
  {
    var b', row := SettleKnown(b, r, u, now), SettledRow(b.policy, b.rows[r.id], u, now);
    if b.policy.prices.Some? && Estimate(b.policy.prices.value, u.prompt, u.completion) > r.amount {
      OverrunNeedsBreach(b.policy, b.rows[r.id], u);
    }
    assert RowOk(b', row);
  }

  lemma TripLatches(b: Budget, r: Reason)
    ensures Latches(b, Trip(b, r)) && Trip(b, r).rows == b.rows && Trip(b, r).breaker.Some?
  {
  }

  lemma RowOkLatched(b: Budget, b': Budget, row: Row)
    requires RowOk(b, row) && Latches(b, b')
    ensures RowOk(b', row)
  {
  }

  lemma SettleChanges(b: Budget, r: Reservation, usage: Option<Usage>, stop: bool, t: real)
    requires PolicyOk(b.policy) && RowsOk(b)
    ensures Change(b, Settle(b, r, usage, stop, t).0, t)
  {
    var b' := Settle(b, r, usage, stop, t).0;
    TripLatches(b, ProviderHttpError);
    if Stored(b, r) && b.rows[r.id].status.Pending? && t >= r.createdAt {
      var stopped := if stop then Trip(b, ProviderHttpError) else b;
      RowOkLatched(b, stopped, b.rows[r.id]);
      var reported := Reported(usage);
      if reported.Some? {
        SettleKnownChanges(stopped, r, reported.value, t);
        assert Closes(b, b', r.id, SettledRow(b.policy, b.rows[r.id], reported.value, t));
      } else {
        assert Closes(b, b', r.id, b.rows[r.id].(status := Uncertain, settledAt := Some(t)));
      }
    }
  }

  lemma RejectChanges(b: Budget, r: Reservation, t: real)
    requires RowsOk(b)
    ensures Change(b, MarkUnknownRejection(b, r, t).0, t)
  {
    if Stored(b, r) && b.rows[r.id].status.Pending? && t >= r.createdAt {
      assert RowOk(b, b.rows[r.id]);
      assert Closes(b, MarkUnknownRejection(b, r, t).0, r.id, b.rows[r.id].(status := Uncertain, settledAt := Some(t)));
    }
  }

  function Reading(op: Op): real {
    if op.Idle? then op.at else op.reading
  }

  lemma StepChanges(b: Budget, op: Op)
    requires PolicyOk(b.policy) && RowsOk(b)
    ensures Change(b, BudgetStep(b, op), Reading(op))
  {
    match op
    case DoReserve(worker, task, bound, request, t, _) => ReserveChanges(b, worker, task, bound, request, t);
    case DoSettle(r, usage, stop, t, _) => SettleChanges(b, r, usage, stop, t);
    case DoReject(r, t, _) => RejectChanges(b, r, t);
    case Idle(_) =>
  }

  // ---- Each part of the invariant survives each change ----

  lemma LatchKeepsRows(b: Budget, b': Budget)
    requires RowsOk(b) && Latches(b, b') && b'.rows == b.rows
    ensures RowsOk(b')
  {
    forall i | 0 <= i < |b.rows| ensures RowOk(b', b.rows[i]) { assert RowOk(b, b.rows[i]); }
  }

  lemma AdmitKeeps(b: Budget, b': Budget, row: Row, reading: real, now: real)
    requires Admits(b, b', row, reading) && reading <= now
    requires RowsOk(b) && RequestsOk(b.rows) && BurnOk(b, now) && PolicyOk(b.policy)
    ensures RowsOk(b') && RequestsOk(b'.rows) && MoneyOk(b') && BurnOk(b', now)
  {
    forall i | 0 <= i < |b'.rows| ensures RowOk(b', b'.rows[i]) && b'.rows[i].reservation.id == i {
      if i < |b.rows| { assert RowOk(b, b.rows[i]); }
    }
    CommittedSplits(b);
    SumAppend(Amount, b.rows, row);
    forall worker, t | now <= t
      ensures WindowBurn(b', worker, t) <= b.policy.burnRate
    {
      assert WindowBurn(b, worker, t) <= b.policy.burnRate;
      BurnAppend(b.rows, row, worker, t - b.policy.burnWindow);
      BurnLater(b.rows, row.reservation.worker, reading - b.policy.burnWindow, t - b.policy.burnWindow);
    }
  }

  lemma CloseKeeps(b: Budget, b': Budget, i: nat, row: Row, now: real)
    requires Closes(b, b', i, row)
    requires RowsOk(b) && RequestsOk(b.rows) && MoneyOk(b) && BurnOk(b, now)
    ensures RowsOk(b') && RequestsOk(b'.rows) && MoneyOk(b') && BurnOk(b', now)
  {
    assert RowOk(b, b.rows[i]);
    forall k | 0 <= k < |b'.rows| ensures RowOk(b', b'.rows[k]) && b'.rows[k].reservation.id == k {
      assert RowOk(b, b.rows[k]);
    }
    SumUpdate(Amount, b.rows, i, row);
    if b'.breaker.None? {
      forall worker, t | now <= t
        ensures WindowBurn(b', worker, t) <= b.policy.burnRate
      {
        assert WindowBurn(b, worker, t) <= b.policy.burnRate;
        BurnUpdate(b.rows, i, row, worker, t - b.policy.burnWindow);
      }
    }
  }

  lemma LatchKeeps(b: Budget, b': Budget, now: real)
    requires Latches(b, b') && b'.rows == b.rows
    requires RowsOk(b) && MoneyOk(b) && BurnOk(b, now)
    ensures RowsOk(b') && MoneyOk(b') && BurnOk(b', now)
  {
    LatchKeepsRows(b, b');
    forall worker, t | now <= t && b'.breaker.None?
      ensures WindowBurn(b', worker, t) <= b'.policy.burnRate
    {
      assert WindowBurn(b, worker, t) <= b.policy.burnRate;
    }
  }

  lemma StepKeeps(w: World, op: Op)
    requires Inv(w) && Ready(w, op)
    ensures Inv(Step(w, op))
  {
    var b, b' := w.budget, BudgetStep(w.budget, op);
    StepChanges(b, op);
    assert BurnOk(b, op.at);
    if Latches(b, b') && b'.rows == b.rows {
      LatchKeeps(b, b', op.at);
    } else if row :| Admits(b, b', row, Reading(op)) {
      AdmitKeeps(b, b', row, Reading(op), op.at);
    } else {
      var i, row :| Closes(b, b', i, row);
      CloseKeeps(b, b', i, row, op.at);
    }
  }

  // ---- What later states keep ----

  ghost predicate RowsLater(b: Budget, b': Budget) {
    && Latches(b, b')
    && |b.rows| <= |b'.rows|
    && (b.breaker.Some? ==> |b'.rows| == |b.rows|)
    && (forall i :: 0 <= i < |b.rows| ==>
          b'.rows[i].reservation == b.rows[i].reservation
          && (!b.rows[i].status.Pending? ==> b'.rows[i] == b.rows[i]))
    && Committed(b) <= Committed(b')
  }

  ghost predicate Later(w: World, w': World) {
    RowsLater(w.budget, w'.budget) && w.now <= w'.now
  }

  lemma AdmitIsLater(b: Budget, b': Budget, row: Row, reading: real)
    requires Admits(b, b', row, reading)
    ensures RowsLater(b, b')
  {
    SumAppend(Commitment, b.rows, row);
  }

  lemma CloseIsLater(b: Budget, b': Budget, i: nat, row: Row)
    requires Closes(b, b', i, row)
    ensures RowsLater(b, b')
  {
    SumUpdate(Commitment, b.rows, i, row);
  }

  lemma StepIsLater(w: World, op: Op)
    requires Inv(w) && Ready(w, op)
    ensures Later(w, Step(w, op))
  {
    var b, b' := w.budget, BudgetStep(w.budget, op);
    StepChanges(b, op);
    if Latches(b, b') && b'.rows == b.rows {
      assert RowsLater(b, b');
    } else if row :| Admits(b, b', row, Reading(op)) {
      AdmitIsLater(b, b', row, Reading(op));
    } else {
      var i, row :| Closes(b, b', i, row);
      CloseIsLater(b, b', i, row);
    }
  }

  lemma RunKeeps(w: World, ops: seq<Op>)
    requires Inv(w) && Allowed(Ready, Step, w, ops)
    ensures Inv(Run(Step, w, ops)) && Later(w, Run(Step, w, ops))
  {
    forall v, o | Inv(v) && Ready(v, o)
      ensures Inv(Step(v, o)) && Later(v, Step(v, o))
    {
      StepKeeps(v, o);
      StepIsLater(v, o);
    }
    Invariant(Ready, Step, Inv, w, ops);
    Relation(Ready, Step, Inv, Later, w, ops);
  }

  ghost predicate Reachable(w: World) {
    exists policy, at, ops :: PolicyOk(policy) && Allowed(Ready, Step, Start(policy, at), ops)
                              && w == Run(Step, Start(policy, at), ops)
  }

  lemma ReachableOk(w: World)
    requires Reachable(w)
    ensures Inv(w)
  {
    var policy, at, ops :| PolicyOk(policy) && Allowed(Ready, Step, Start(policy, at), ops)
                           && w == Run(Step, Start(policy, at), ops);
    RunKeeps(Start(policy, at), ops);
  }

  // ---- Theorems ----

  // With admission enabled, reservations never exceed the budget; and while no stop is latched,
  // neither does the committed money, which then equals the reservations.
  lemma SpendingBound(w: World)
    requires Reachable(w) && w.budget.policy.admission
    ensures Sum(Amount, w.budget.rows) <= w.budget.policy.maxCost
    ensures w.budget.breaker.None? ==> Committed(w.budget) == Sum(Amount, w.budget.rows)
  {
    ReachableOk(w);
    CommittedSplits(w.budget);
    if w.budget.breaker.None? {
      forall i | 0 <= i < |w.budget.rows|
        ensures Commitment(w.budget.rows[i]) <= Amount(w.budget.rows[i])
      {
        assert RowOk(w.budget, w.budget.rows[i]);
      }
      SumMonotone(Commitment, Amount, w.budget.rows);
    }
  }

  // Committed money never decreases along a run, and a settled, uncertain or released row is final.
  lemma CommitmentsAreForGood(w: World, ops: seq<Op>, i: nat)
    requires Reachable(w) && Allowed(Ready, Step, w, ops) && i < |w.budget.rows|
    ensures Committed(w.budget) <= Committed(Run(Step, w, ops).budget)
    ensures i < |Run(Step, w, ops).budget.rows|
    ensures !w.budget.rows[i].status.Pending? ==> Run(Step, w, ops).budget.rows[i] == w.budget.rows[i]
    ensures Run(Step, w, ops).budget.rows[i].reservation == w.budget.rows[i].reservation
  {
    ReachableOk(w);
    RunKeeps(w, ops);
  }

  // A row that commits more than it reserved was settled past its token bound, and the stop is latched.
  lemma OverrunIsLatched(w: World, i: nat)
    requires Reachable(w) && i < |w.budget.rows|
    requires Commitment(w.budget.rows[i]) > Amount(w.budget.rows[i])
    ensures w.budget.breaker.Some?
  {
    ReachableOk(w);
    assert RowOk(w.budget, w.budget.rows[i]);
  }

  // The settlement itself: above the reservation only with a token breach, which latches the stop.
  lemma SettlingAboveReservation(w: World, r: Reservation, u: Usage, stop: bool, now: real)
    requires Reachable(w) && Stored(w.budget, r) && w.budget.rows[r.id].status.Pending?
    requires var b' := Settle(w.budget, r, Some(u), stop, now).0; Commitment(b'.rows[r.id]) > r.amount
    ensures TokenBreach(w.budget.policy, r.bound, u)
    ensures Settle(w.budget, r, Some(u), stop, now).0.breaker.Some?
  {
    ReachableOk(w);
    var b, row := w.budget, w.budget.rows[r.id];
    assert RowOk(b, row);
    OverrunNeedsBreach(b.policy, row, u);
  }

  // Once a stop is latched no run admits another reservation.
  lemma LatchedStopAdmitsNothing(w: World, ops: seq<Op>, worker: string, taskId: string, bound: Bound,
                                 request: Option<string>, t: real)
    requires Reachable(w) && Allowed(Ready, Step, w, ops) && w.budget.breaker.Some?
    ensures var b' := Run(Step, w, ops).budget;
            && b'.breaker.Some? && |b'.rows| == |w.budget.rows|
            && Reserve(b', worker, taskId, bound, request, t).0 == b'
            && Reserve(b', worker, taskId, bound, request, t).1.Err?
  {
    ReachableOk(w);
    RunKeeps(w, ops);
  }

  // While no stop is latched, no worker's burn in any window ending now or later passes the rate,
  // whatever stale clock readings the workers used.
  lemma BurnRateHolds(w: World, worker: string, t: real)
    requires Reachable(w) && w.budget.breaker.None? && w.now <= t
    ensures WindowBurn(w.budget, worker, t) <= w.budget.policy.burnRate
  {
    ReachableOk(w);
  }

  // Request ids are never reused and a task has at most one request in flight.
  lemma OneRequestInFlight(w: World, i: nat, j: nat)
    requires Reachable(w) && i < j < |w.budget.rows|
    ensures w.budget.rows[i].reservation.requestId != w.budget.rows[j].reservation.requestId
    ensures w.budget.rows[i].reservation.taskId == w.budget.rows[j].reservation.taskId ==>
              !(w.budget.rows[i].status.Pending? && w.budget.rows[j].status.Pending?)
  {
    ReachableOk(w);
  }
}
