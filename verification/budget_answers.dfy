// What the budget's answers mean, in the rows' own columns: the burn window, the exact condition of
// an admission, and what a settlement stores and stops.
module BudgetAnswers {
  import opened Wrappers
  import opened Sums
  import opened Runs
  import opened BudgetModel
  import opened BudgetSafety

  // ---- The sliding window, over any selection of rows ----

  predicate Among(rows: seq<Row>, picks: seq<nat>) {
    forall k :: 0 <= k < |picks| ==> picks[k] < |rows|
  }

  // The tokens of the picked rows: what each used where that is known, else what it may use.
  function TokensOf(rows: seq<Row>, picks: seq<nat>): nat
    requires Among(rows, picks)
  {
    if picks == [] then 0
    else
      var row := rows[picks[|picks| - 1]];
      TokensOf(rows, picks[..|picks| - 1])
      + (match row.tokens
         case Some(used) => used
         case None => row.reservation.bound.inputTokens + row.reservation.bound.maxOutputTokens)
  }

  // A worker's request that still weighs on its rate: its usage is open, or it was closed in the window.
  predicate Weighs(row: Row, worker: string, since: real) {
    && row.reservation.worker == worker
    && (row.status == Pending || row.status == Uncertain || (row.settledAt.Some? && since < row.settledAt.value))
  }

  // Distinct rows that weigh.
  predicate Picks(rows: seq<Row>, picks: seq<nat>, worker: string, since: real) {
    && Among(rows, picks)
    && (forall k :: 0 <= k < |picks| ==> Weighs(rows[picks[k]], worker, since))
    && (forall j, k :: 0 <= j < k < |picks| ==> picks[j] != picks[k])
  }

  lemma {:induction false} TokensOfPrefix(rows: seq<Row>, longer: seq<Row>, picks: seq<nat>)
    requires rows <= longer && Among(rows, picks)
    ensures TokensOf(longer, picks) == TokensOf(rows, picks)
  {
    if picks != [] { TokensOfPrefix(rows, longer, picks[..|picks| - 1]); }
  }

  // Taking one pick out takes its own tokens out, wherever it stands.
  lemma {:induction false} TokensOfRemoved(rows: seq<Row>, picks: seq<nat>, k: nat)
    requires k < |picks| && Among(rows, picks)
    ensures TokensOf(rows, picks) == TokensOf(rows, picks[..k] + picks[k + 1..]) + Charge(rows[picks[k]])
  {
    var n := |picks| - 1;
    var rest := picks[..k] + picks[k + 1..];
    if k == n {
      assert rest == picks[..n];
    } else {
      assert picks[..n][..k] + picks[..n][k + 1..] == rest[..n - 1];
      TokensOfRemoved(rows, picks[..n], k);
    }
  }

  // Picks that leave the last row alone are picks of the rows before it.
  lemma PicksBefore(rows: seq<Row>, n: nat, picks: seq<nat>, worker: string, since: real)
    requires n <= |rows| && Among(rows[..n], picks)
    ensures Picks(rows, picks, worker, since) <==> Picks(rows[..n], picks, worker, since)
    ensures TokensOf(rows, picks) == TokensOf(rows[..n], picks)
  {
    TokensOfPrefix(rows[..n], rows, picks);
    assert forall k :: 0 <= k < |picks| ==> rows[..n][picks[k]] == rows[picks[k]];
  }

  lemma PicksWithout(rows: seq<Row>, picks: seq<nat>, k: nat, worker: string, since: real)
    requires Picks(rows, picks, worker, since) && k < |picks| && picks[k] == |rows| - 1
    ensures var rest := picks[..k] + picks[k + 1..];
            Picks(rows, rest, worker, since) && Among(rows[..|rows| - 1], rest)
  {
    var rest := picks[..k] + picks[k + 1..];
    assert forall j :: 0 <= j < |rest| ==> rest[j] == picks[if j < k then j else j + 1];
  }

  lemma {:induction false} PicksWithinBurn(rows: seq<Row>, picks: seq<nat>, worker: string, since: real)
    requires Picks(rows, picks, worker, since)
    ensures TokensOf(rows, picks) <= Burn(rows, worker, since)
    decreases |rows|
  {
    if rows == [] {
      assert picks == [];
    } else {
      var n := |rows| - 1;
      var rest := picks;
      if k :| 0 <= k < |picks| && picks[k] == n {
        rest := picks[..k] + picks[k + 1..];
        TokensOfRemoved(rows, picks, k);
        PicksWithout(rows, picks, k, worker, since);
      }
      PicksBefore(rows, n, rest, worker, since);
      PicksWithinBurn(rows[..n], rest, worker, since);
    }
  }

  lemma TokensOneMore(rows: seq<Row>, picks: seq<nat>, n: nat)
    requires Among(rows, picks) && n < |rows|
    ensures TokensOf(rows, picks + [n]) == TokensOf(rows, picks) + Charge(rows[n])
  {
    assert (picks + [n])[..|picks|] == picks;
  }

  lemma PicksOneMore(rows: seq<Row>, picks: seq<nat>, n: nat, worker: string, since: real)
    requires n < |rows| && Weighs(rows[n], worker, since)
    requires Picks(rows, picks, worker, since) && Among(rows[..n], picks)
    ensures Picks(rows, picks + [n], worker, since)
  {
  }

  lemma BurnOfLast(rows: seq<Row>, worker: string, since: real)
    requires rows != []
    ensures var n := |rows| - 1;
            Burn(rows, worker, since) ==
            Burn(rows[..n], worker, since) + (if Weighs(rows[n], worker, since) then Charge(rows[n]) else 0)
  {
  }

  // Some selection reaches the burn: all rows that weigh.
  lemma {:induction false} BurnIsPicked(rows: seq<Row>, worker: string, since: real) returns (picks: seq<nat>)
    ensures Picks(rows, picks, worker, since) && TokensOf(rows, picks) == Burn(rows, worker, since)
  {
    if rows == [] {
      picks := [];
    } else {
      var n := |rows| - 1;
      var front := BurnIsPicked(rows[..n], worker, since);
      PicksBefore(rows, n, front, worker, since);
      BurnOfLast(rows, worker, since);
      if !Weighs(rows[n], worker, since) { return front; }
      PicksOneMore(rows, front, n, worker, since);
      TokensOneMore(rows, front, n);
      return front + [n];
    }
  }

  // While no stop is latched, any requests of one worker that are open, or were closed within the
  // window ending at any time from now on, used or may use no more tokens than the rate allows.
  lemma RateHoldsForAnyRequests(w: World, worker: string, t: real, picks: seq<nat>)
    requires Reachable(w) && w.budget.breaker.None? && w.now <= t
    requires Picks(w.budget.rows, picks, worker, t - w.budget.policy.burnWindow)
    ensures TokensOf(w.budget.rows, picks) <= w.budget.policy.burnRate
  {
    BurnRateHolds(w, worker, t);
    PicksWithinBurn(w.budget.rows, picks, worker, t - w.budget.policy.burnWindow);
  }

  // No reservation is admitted on top of requests with which it would exceed the rate.
  lemma RateRefuses(b: Budget, worker: string, taskId: string, bound: Bound, request: Option<string>, t: real,
                    picks: seq<nat>)
    requires Picks(b.rows, picks, worker, t - b.policy.burnWindow)
    requires TokensOf(b.rows, picks) + bound.inputTokens + bound.maxOutputTokens > b.policy.burnRate
             || TokensOf(b.rows, picks) >= b.policy.burnRate
    ensures Reserve(b, worker, taskId, bound, request, t).1.Err?
    ensures Reserve(b, worker, taskId, bound, request, t).0 == b
  {
    PicksWithinBurn(b.rows, picks, worker, t - b.policy.burnWindow);
    assert BoundTotal(bound) == bound.inputTokens + bound.maxOutputTokens;
    if Reserve(b, worker, taskId, bound, request, t).1.Ok? {
      BurnLimits(b, worker, taskId, RequestOf(taskId, request), BoundTotal(bound),
                 ReservationAmount(b.policy, bound).value, t);
    }
  }

  lemma BurnLimits(b: Budget, worker: string, taskId: string, request: string, total: nat, amount: real, t: real)
    requires Admission(b, worker, taskId, request, total, amount, t).Ok?
    ensures var burn := Burn(b.rows, worker, t - b.policy.burnWindow);
            burn < b.policy.burnRate && burn + total <= b.policy.burnRate
  {
  }

  // ---- Money ----

  // The estimate is the one linear function that charges a million tokens of each kind its price.
  lemma EstimateIsPriced(p: Prices, i: nat, o: nat, i': nat, o': nat)
    ensures Estimate(p, i + i', o + o') == Estimate(p, i, o) + Estimate(p, i', o')
    ensures Estimate(p, 1000000, 0) == p.inputPerMillion && Estimate(p, 0, 1000000) == p.outputPerMillion
  {
    assert (i + i') as real * p.inputPerMillion == i as real * p.inputPerMillion + i' as real * p.inputPerMillion;
    assert (o + o') as real * p.outputPerMillion == o as real * p.outputPerMillion + o' as real * p.outputPerMillion;
  }

  // A bound the policy takes, and the amount it holds for it: a verified ceiling that covers the
  // price, or the operator's allowance, raised to the price where it is lower.
  predicate Holds(p: Policy, bound: Bound, amount: real) {
    && (p.prices.Some? ==>
          p.prices.value.provider == bound.provider && p.prices.value.model == bound.model
          && Estimate(p.prices.value, bound.inputTokens, bound.maxOutputTokens) <= amount)
    && bound.inputTokens + bound.maxOutputTokens <= p.maxTokens
    && (bound.maxCost.Some? ==> bound.maxCost.value >= 0.0)
    && (if bound.verified then bound.providerEnforced && bound.maxCost == Some(amount) && p.prices.Some?
        else
          && p.admission && p.allowance.Some? && p.allowance.value <= amount
          && (amount == p.allowance.value
              || (p.prices.Some? && amount == Estimate(p.prices.value, bound.inputTokens, bound.maxOutputTokens))))
  }

  lemma HoldsExactly(p: Policy, bound: Bound)
    ensures forall amount :: Holds(p, bound, amount) <==> ReservationAmount(p, bound) == Ok(amount)
  {
  }

  // ---- Admission ----

  function RequestOf(taskId: string, request: Option<string>): string {
    if request.Some? then request.value else taskId
  }

  // The run's limits leave room for one more request of this task.
  predicate RoomFor(b: Budget, taskId: string, t: real) {
    var l := b.policy.limits;
    && b.startedAt <= t < b.startedAt + l.maxRuntimeSeconds
    && |b.rows| < l.maxAttempts
    && |set i: nat | i < |b.rows| && b.rows[i].reservation.taskId == taskId| < l.maxAttemptsPerTask
    && ((exists i :: 0 <= i < |b.rows| && b.rows[i].reservation.taskId == taskId)
        || |set i: nat | i < |b.rows| :: b.rows[i].reservation.taskId| < l.maxTasks)
  }

  // No request may be sent twice, and a task has one in flight.
  predicate IsNew(b: Budget, taskId: string, request: string) {
    forall i :: 0 <= i < |b.rows| ==>
                  b.rows[i].reservation.requestId != request
                  && !(b.rows[i].reservation.taskId == taskId && b.rows[i].status == Pending)
  }

  // Whatever requests of the worker are picked, the rate leaves room for this one.
  ghost predicate RateLeaves(b: Budget, worker: string, bound: Bound, t: real) {
    forall picks :: Picks(b.rows, picks, worker, t - b.policy.burnWindow) ==>
                      && TokensOf(b.rows, picks) < b.policy.burnRate
                      && TokensOf(b.rows, picks) + bound.inputTokens + bound.maxOutputTokens <= b.policy.burnRate
  }

  lemma RateLeavesExactly(b: Budget, worker: string, bound: Bound, t: real)
    ensures var burn := Burn(b.rows, worker, t - b.policy.burnWindow);
            RateLeaves(b, worker, bound, t) <==>
            burn < b.policy.burnRate && burn + BoundTotal(bound) <= b.policy.burnRate
  {
    var since := t - b.policy.burnWindow;
    var all := BurnIsPicked(b.rows, worker, since);
    forall picks | Picks(b.rows, picks, worker, since)
      ensures TokensOf(b.rows, picks) <= Burn(b.rows, worker, since)
    {
      PicksWithinBurn(b.rows, picks, worker, since);
    }
  }

  lemma RoomExactly(b: Budget, taskId: string)
    ensures |TaskRows(b.rows, taskId)| == 0 <==>
            forall i :: 0 <= i < |b.rows| ==> b.rows[i].reservation.taskId != taskId
  {
    if i :| 0 <= i < |b.rows| && b.rows[i].reservation.taskId == taskId {
      assert i in TaskRows(b.rows, taskId);
    }
  }

  lemma NewExactly(rows: seq<Row>, requestId: string, taskId: string)
    ensures AlreadyReserved(rows, requestId, taskId) <==>
            exists i :: 0 <= i < |rows| && (rows[i].reservation.requestId == requestId
                                            || (rows[i].reservation.taskId == taskId && rows[i].status == Pending))
  {
  }

  lemma AdmissionExactly(b: Budget, worker: string, taskId: string, bound: Bound, request: string, amount: real,
                         t: real)
    ensures Admission(b, worker, taskId, request, BoundTotal(bound), amount, t).Ok? <==>
            && RoomFor(b, taskId, t) && b.breaker.None? && IsNew(b, taskId, request) && RateLeaves(b, worker, bound, t)
            && (b.policy.admission ==> Sum(Admitted, b.rows) + Sum(Hold, b.rows) + amount <= b.policy.maxCost)
  {
    RateLeavesExactly(b, worker, bound, t);
    RoomExactly(b, taskId);
    NewExactly(b.rows, request, taskId);
  }

  // A request is admitted in a reachable state exactly when it names its parties, the policy takes
  // its bound, the run has room, no stop is latched, it is new, the worker's rate leaves room
  // and, with admission enabled, the reservations with its own stay within the budget.
  lemma AdmittedExactly(w: World, worker: string, taskId: string, bound: Bound, request: Option<string>, t: real)
    requires Reachable(w)
    ensures var b := w.budget;
            Reserve(b, worker, taskId, bound, request, t).1.Ok? <==>
            && !Blank(worker) && !Blank(taskId) && !Blank(RequestOf(taskId, request))
            && RoomFor(b, taskId, t) && b.breaker.None? && IsNew(b, taskId, RequestOf(taskId, request))
            && RateLeaves(b, worker, bound, t)
            && exists amount :: Holds(b.policy, bound, amount)
                                && (b.policy.admission ==> Sum(Amount, b.rows) + amount <= b.policy.maxCost)
  {
    var b, held := w.budget, ReservationAmount(w.budget.policy, bound);
    HoldsExactly(b.policy, bound);
    if held.Ok? {
      AdmissionExactly(b, worker, taskId, bound, RequestOf(taskId, request), held.value, t);
    }
    ReachableOk(w);
    CommittedSplits(b);
    if b.breaker.None? { CommittedIsReserved(w); }
  }

  lemma CommittedIsReserved(w: World)
    requires Reachable(w) && w.budget.breaker.None?
    ensures Committed(w.budget) == Sum(Amount, w.budget.rows)
  {
    ReachableOk(w);
    CommittedSplits(w.budget);
    forall i | 0 <= i < |w.budget.rows|
      ensures Commitment(w.budget.rows[i]) <= Amount(w.budget.rows[i])
    {
      assert RowOk(w.budget, w.budget.rows[i]);
    }
    SumMonotone(Commitment, Amount, w.budget.rows);
  }

  // A bound is refused for what is wrong with it.
  lemma BoundRefusals(p: Policy, bound: Bound)
    requires ReservationAmount(p, bound).Err?
    ensures var e := ReservationAmount(p, bound).error;
            var priced := p.prices.Some? && p.prices.value.provider == bound.provider
                          && p.prices.value.model == bound.model;
            match e
            case Invalid =>
              (bound.maxCost.Some? && bound.maxCost.value < 0.0)
              || (bound.verified && (!bound.providerEnforced || bound.maxCost.None?))
            case Blocked("explicit_unbounded_admission_required") =>
              !bound.verified && (p.allowance.None? || !p.admission)
            case Blocked("explicit_matching_model_prices_required") =>
              !priced && (p.prices.Some? || bound.verified)
            case Blocked("task_token_bound_exceeded") => bound.inputTokens + bound.maxOutputTokens > p.maxTokens
            case Blocked("request_cost_bound_below_estimate") =>
              bound.verified && bound.maxCost.Some? && priced
              && bound.maxCost.value < Estimate(p.prices.value, bound.inputTokens, bound.maxOutputTokens)
            case _ => false
  {
  }

  // A request is refused for what stands against it: a limit of the run, the latched stop, the
  // worker's rate, its own repetition, or the budget.
  lemma AdmissionRefusals(b: Budget, worker: string, taskId: string, bound: Bound, request: string, amount: real,
                          t: real)
    requires Admission(b, worker, taskId, request, BoundTotal(bound), amount, t).Err?
    ensures var e, l := Admission(b, worker, taskId, request, BoundTotal(bound), amount, t).error, b.policy.limits;
            match e
            case Blocked("run_runtime_limit") => !(b.startedAt <= t < b.startedAt + l.maxRuntimeSeconds)
            case Blocked("max_attempts") => |b.rows| >= l.maxAttempts
            case Blocked("max_attempts_per_task") =>
              |set i: nat | i < |b.rows| && b.rows[i].reservation.taskId == taskId| >= l.maxAttemptsPerTask
            case Blocked("max_tasks") =>
              (forall i :: 0 <= i < |b.rows| ==> b.rows[i].reservation.taskId != taskId)
              && |set i: nat | i < |b.rows| :: b.rows[i].reservation.taskId| >= l.maxTasks
            case Stopped(reason) => b.breaker == Some(reason)
            case Blocked("worker_burn_rate") => !RateLeaves(b, worker, bound, t)
            case Blocked("task_already_reserved_no_retry") => !IsNew(b, taskId, request)
            case Blocked("swarm_reservation_capacity") =>
              b.policy.admission && Sum(Admitted, b.rows) + Sum(Hold, b.rows) + amount > b.policy.maxCost
            case _ => false
  {
    RateLeavesExactly(b, worker, bound, t);
    RoomExactly(b, taskId);
    NewExactly(b.rows, request, taskId);
  }

  // An admitted request is one more row, pending, that holds its amount; nothing else changes.
  lemma AdmittedRow(b: Budget, worker: string, taskId: string, bound: Bound, request: Option<string>, t: real)
    requires Reserve(b, worker, taskId, bound, request, t).1.Ok?
    ensures var (b', reply) := Reserve(b, worker, taskId, bound, request, t);
            var r := reply.value;
            && Holds(b.policy, bound, r.amount)
            && (r.worker, r.taskId, r.requestId) == (worker, taskId, RequestOf(taskId, request))
            && r.bound == bound && r.createdAt == t && r.id == |b.rows|
            && b'.policy == b.policy && b'.startedAt == b.startedAt && b'.breaker == b.breaker
            && |b'.rows| == |b.rows| + 1 && b'.rows[..|b.rows|] == b.rows
            && b'.rows[|b.rows|].reservation == r && b'.rows[|b.rows|].status == Pending
            && b'.rows[|b.rows|].tokens.None? && b'.rows[|b.rows|].settledAt.None?
  {
    HoldsExactly(b.policy, bound);
  }

  // ---- Settlement ----

  // Usage that can be stored.
  predicate Known(usage: Option<Usage>) {
    usage.Some? && usage.value.prompt + usage.value.completion <= MAX_TOKENS
  }

  // What the operator is charged for usage at these prices: the estimate, and never less than was held.
  predicate Charged(row: Row, p: Prices, u: Usage) {
    var estimate := Estimate(p, u.prompt, u.completion);
    && row.estimate == Some(estimate) && row.admitted.Some?
    && estimate <= row.admitted.value && row.reservation.amount <= row.admitted.value
    && row.admitted.value in {estimate, row.reservation.amount}
  }

  // What a first settlement makes of its row: the usage under the reservation, charged where a price
  // is known, or the whole hold where the usage or the price is not.
  predicate StoredAs(p: Policy, row: Row, row': Row, usage: Option<Usage>, now: real) {
    && row'.reservation == row.reservation && row'.settledAt == Some(now)
    && (!Known(usage) ==> row' == row.(status := Uncertain, settledAt := Some(now)))
    && (Known(usage) ==>
          && row'.tokens == Some(usage.value.prompt + usage.value.completion) && row'.settlement == usage
          && (if p.prices.Some? then row'.status == Settled && Charged(row', p.prices.value, usage.value)
              else row'.status == (if p.allowUnknownCost then UnknownCostAllowed else Uncertain)
                   && row'.estimate == row.estimate && row'.admitted == row.admitted))
  }

  lemma SettledRowMeans(p: Policy, row: Row, u: Usage, now: real)
    requires Known(Some(u))
    ensures StoredAs(p, row, SettledRow(p, row, u, now), Some(u), now)
  {
  }

  lemma SettlesOneRow(b: Budget, r: Reservation, u: Usage, now: real)
    requires Stored(b, r)
    ensures SettleKnown(b, r, u, now).rows == b.rows[r.id := SettledRow(b.policy, b.rows[r.id], u, now)]
    ensures SettleUnknown(b, r, now).rows == b.rows[r.id := b.rows[r.id].(status := Uncertain, settledAt := Some(now))]
    ensures SettleKnown(b, r, u, now).policy == b.policy == SettleUnknown(b, r, now).policy
  {
  }

  function FirstRow(b: Budget, r: Reservation, usage: Option<Usage>, now: real): Row
    requires Stored(b, r)
  {
    if Known(usage) then SettledRow(b.policy, b.rows[r.id], usage.value, now)
    else b.rows[r.id].(status := Uncertain, settledAt := Some(now))
  }

  lemma FirstSettlementIs(b: Budget, r: Reservation, usage: Option<Usage>, stop: bool, now: real)
    requires Stored(b, r) && b.rows[r.id].status == Pending && r.createdAt <= now
    ensures var stopped := if stop then Trip(b, ProviderHttpError) else b;
            Stored(stopped, r)
            && Settle(b, r, usage, stop, now) ==
               (if Known(usage) then SettleKnown(stopped, r, usage.value, now) else SettleUnknown(stopped, r, now),
                Ok(()))
  {
  }

  lemma FirstSettlementRow(b: Budget, r: Reservation, usage: Option<Usage>, stop: bool, now: real)
    requires Stored(b, r) && b.rows[r.id].status == Pending && r.createdAt <= now
    ensures Settle(b, r, usage, stop, now).0.rows == b.rows[r.id := FirstRow(b, r, usage, now)]
    ensures Settle(b, r, usage, stop, now).0.policy == b.policy && Settle(b, r, usage, stop, now).1.Ok?
  {
    FirstSettlementIs(b, r, usage, stop, now);
    TripLatches(b, ProviderHttpError);
    var stopped := if stop then Trip(b, ProviderHttpError) else b;
    SettlesOneRow(stopped, r, if usage.Some? then usage.value else Usage(0, 0), now);
  }

  // A first settlement changes its own row and no other.
  lemma FirstSettlementStores(b: Budget, r: Reservation, usage: Option<Usage>, stop: bool, now: real)
    requires Stored(b, r) && b.rows[r.id].status == Pending && r.createdAt <= now
    ensures Settle(b, r, usage, stop, now).1.Ok? && Settle(b, r, usage, stop, now).0.policy == b.policy
    ensures var rows := Settle(b, r, usage, stop, now).0.rows;
            |rows| == |b.rows| && StoredAs(b.policy, b.rows[r.id], rows[r.id], usage, now)
            && forall i :: 0 <= i < |rows| && i != r.id ==> rows[i] == b.rows[i]
  {
    FirstSettlementRow(b, r, usage, stop, now);
    StoredFirst(b, r, usage, now);
  }

  lemma StoredFirst(b: Budget, r: Reservation, usage: Option<Usage>, now: real)
    requires Stored(b, r)
    ensures StoredAs(b.policy, b.rows[r.id], FirstRow(b, r, usage, now), usage, now)
  {
    if Known(usage) { SettledRowMeans(b.policy, b.rows[r.id], usage.value, now); }
  }

  // Any later settlement changes no row, and is refused exactly when both usages are known and differ.
  // A first one is refused exactly when the clock is behind the reservation.
  lemma LaterSettlementsChangeNoRow(b: Budget, r: Reservation, usage: Option<Usage>, stop: bool, now: real)
    ensures var (b', reply) := Settle(b, r, usage, stop, now);
            && (Stored(b, r) && b.rows[r.id].status != Pending ==>
                  b'.rows == b.rows
                  && (reply.Err? <==>
                      Known(usage) && b.rows[r.id].settlement.Some? && usage != b.rows[r.id].settlement))
            && (Stored(b, r) && b.rows[r.id].status == Pending ==> (reply.Err? <==> now < r.createdAt))
            && (!Stored(b, r) ==> reply.Err?)
            && (reply.Err? ==> b' == b)
  {
  }

  // A rejection without usage holds the row and stops nothing.
  lemma RejectionHolds(b: Budget, r: Reservation, now: real)
    ensures var (b', reply) := MarkUnknownRejection(b, r, now);
            && (reply.Ok? <==> Stored(b, r) && (b.rows[r.id].status != Pending || r.createdAt <= now))
            && b'.breaker == b.breaker && b'.policy == b.policy
            && (if reply.Ok? && b.rows[r.id].status == Pending then
                  b'.rows == b.rows[r.id := b.rows[r.id].(status := Uncertain, settledAt := Some(now))]
                else b' == b)
  {
  }

  // ---- Stops ----

  // The usage passed what the reservation or the policy bounds.
  predicate Overran(p: Policy, r: Reservation, u: Usage) {
    || u.prompt > r.bound.inputTokens || u.completion > r.bound.maxOutputTokens
    || u.prompt + u.completion > p.maxTokens
    || (r.bound.verified && p.prices.Some? && Estimate(p.prices.value, u.prompt, u.completion) > r.amount)
  }

  // A stop that may stand in the place of another: unknown effects above broken bounds, these above
  // unknown cost, that above an exhausted budget.
  predicate Outranks(a: Reason, b: Reason) {
    || a in {UnknownUsage, ProviderHttpError}
    || (a in {BoundViolated, TokenLimitExceeded} && b !in {UnknownUsage, ProviderHttpError})
    || (a == UnknownCost && b in {UnknownCost, CostExhausted})
    || (a == CostExhausted && b == CostExhausted)
  }

  // What a row is estimated to have cost, if anything.
  function Spent(row: Row): real {
    match row.estimate
    case Some(cost) => cost
    case None => 0.0
  }

  // The stops a settlement calls for.
  function Called(b: Budget, r: Reservation, usage: Option<Usage>, stop: bool, now: real): set<Reason>
    requires Stored(b, r)
  {
    (if stop then {ProviderHttpError} else {})
    + (if b.rows[r.id].status != Pending then {}
       else if !Known(usage) then (if b.policy.allowUnknownUsage then {} else {UnknownUsage})
       else CalledByUsage(b.policy, r, usage.value, Settle(b, r, usage, stop, now).0.rows))
  }

  // The cost stops are called for by a missing price, or by all estimates so far reaching the budget
  // where nothing was overrun.
  function CalledByUsage(p: Policy, r: Reservation, u: Usage, after: seq<Row>): set<Reason> {
    (if p.prices.None? && !p.allowUnknownCost then {UnknownCost} else {})
    + (if Overran(p, r, u) then {if r.bound.providerEnforced then BoundViolated else TokenLimitExceeded}
       else if p.prices.Some? && Sum(Spent, after) >= p.maxCost then {CostExhausted}
       else {})
  }

  // The stop latched after `called` were called for: one of these or the one before, outranked by
  // none of them; the one before stays where it outranks the new one or is its equal.
  predicate Latched(before: Option<Reason>, after: Option<Reason>, called: set<Reason>) {
    && (after.Some? <==> before.Some? || called != {})
    && (after.Some? ==> after == before || after.value in called)
    && (before.Some? && after != before ==> after.Some? && !Outranks(before.value, after.value))
    && (forall reason :: reason in called || before == Some(reason) ==>
                           after.Some? && Outranks(after.value, reason))
  }

  lemma LatchedOne(b: Budget, reason: Reason)
    ensures Latched(b.breaker, Trip(b, reason).breaker, {reason})
  {
  }

  lemma LatchedNone(before: Option<Reason>)
    ensures Latched(before, before, {})
  {
  }

  lemma OutranksChains(a: Reason, b: Reason, c: Reason)
    requires Outranks(a, b) && Outranks(b, c)
    ensures Outranks(a, c)
  {
  }

  lemma LatchedChains(x: Option<Reason>, y: Option<Reason>, z: Option<Reason>, first: set<Reason>, second: set<Reason>)
    requires Latched(x, y, first) && Latched(y, z, second)
    ensures Latched(x, z, first + second)
  {
    forall reason | reason in first + second || x == Some(reason)
      ensures z.Some? && Outranks(z.value, reason)
    {
      if reason !in second { OutranksChains(z.value, y.value, reason); }
    }
    if x.Some? && z != x && y != x && Outranks(x.value, z.value) { OutranksChains(x.value, z.value, y.value); }
  }

  lemma OverranExactly(p: Policy, r: Reservation, u: Usage)
    ensures Overran(p, r, u) <==> Violates(p, r, u)
  {
  }

  lemma SpentIsEstimated(rows: seq<Row>)
    ensures Sum(Spent, rows) == Sum(Estimated, rows)
  {
    SumMonotone(Spent, Estimated, rows);
    SumMonotone(Estimated, Spent, rows);
  }

  // The two trips a known usage may cause, in their order.
  lemma UsageTrips(b: Budget, r: Reservation, u: Usage, now: real) returns (priced: Budget)
    requires Stored(b, r)
    ensures var b', p := SettleKnown(b, r, u, now), b.policy;
            && Latched(b.breaker, priced.breaker, if p.prices.None? && !p.allowUnknownCost then {UnknownCost} else {})
            && Latched(priced.breaker, b'.breaker, CalledByUsage(p.(allowUnknownCost := true), r, u, b'.rows))
  {
    var settled := SetRow(b, r.id, SettledRow(b.policy, b.rows[r.id], u, now));
    priced := if b.policy.prices.None? && !b.policy.allowUnknownCost then Trip(settled, UnknownCost) else settled;
    LatchedNone(b.breaker);
    LatchedOne(settled, UnknownCost);
    OverranExactly(b.policy, r, u);
    SpentIsEstimated(settled.rows);
    LatchedNone(priced.breaker);
    LatchedOne(priced, if r.bound.providerEnforced then BoundViolated else TokenLimitExceeded);
    LatchedOne(priced, CostExhausted);
  }

  lemma UsageLatches(b: Budget, r: Reservation, u: Usage, now: real)
    requires Stored(b, r)
    ensures var b' := SettleKnown(b, r, u, now);
            Latched(b.breaker, b'.breaker, CalledByUsage(b.policy, r, u, b'.rows))
  {
    var b', p := SettleKnown(b, r, u, now), b.policy;
    var priced := UsageTrips(b, r, u, now);
    var first: set<Reason> := if p.prices.None? && !p.allowUnknownCost then {UnknownCost} else {};
    var second := CalledByUsage(p.(allowUnknownCost := true), r, u, b'.rows);
    LatchedChains(b.breaker, priced.breaker, b'.breaker, first, second);
    assert first + second == CalledByUsage(p, r, u, b'.rows);
  }

  lemma UnknownLatches(b: Budget, r: Reservation, now: real)
    requires Stored(b, r)
    ensures Latched(b.breaker, SettleUnknown(b, r, now).breaker,
                    if b.policy.allowUnknownUsage then {} else {UnknownUsage})
  {
    LatchedNone(b.breaker);
    LatchedOne(SetRow(b, r.id, b.rows[r.id].(status := Uncertain, settledAt := Some(now))), UnknownUsage);
  }

  // A settlement leaves a stop latched exactly when one was, or it calls for one; the latched reason
  // is the old one or one called for, and none of these outranks it.
  lemma StopsExactly(b: Budget, r: Reservation, usage: Option<Usage>, stop: bool, now: real)
    requires Settle(b, r, usage, stop, now).1.Ok?
    ensures Stored(b, r)
    ensures Latched(b.breaker, Settle(b, r, usage, stop, now).0.breaker, Called(b, r, usage, stop, now))
  {
    var b' := Settle(b, r, usage, stop, now).0;
    var stopped := if stop then Trip(b, ProviderHttpError) else b;
    var first: set<Reason> := if stop then {ProviderHttpError} else {};
    LatchedOne(b, ProviderHttpError);
    LatchedNone(b.breaker);
    var second: set<Reason> := {};
    if b.rows[r.id].status != Pending {
      LatchedNone(stopped.breaker);
    } else if Known(usage) {
      UsageLatches(stopped, r, usage.value, now);
      second := CalledByUsage(b.policy, r, usage.value, b'.rows);
    } else {
      UnknownLatches(stopped, r, now);
      second := if b.policy.allowUnknownUsage then {} else {UnknownUsage};
    }
    LatchedChains(b.breaker, stopped.breaker, b'.breaker, first, second);
    assert first + second == Called(b, r, usage, stop, now);
  }

  // Along every run a latched stop stays latched, and only a reason that outranks it takes its place.
  ghost predicate Escalates(w: World, w': World) {
    w.budget.breaker.Some? ==>
      w'.budget.breaker.Some? && Outranks(w'.budget.breaker.value, w.budget.breaker.value)
  }

  lemma StepEscalates(w: World, op: Op)
    ensures Escalates(w, Step(w, op))
  {
    match op
    case DoSettle(r, usage, stop, t, _) =>
      if Settle(w.budget, r, usage, stop, t).1.Ok? { StopsExactly(w.budget, r, usage, stop, t); }
      else { LaterSettlementsChangeNoRow(w.budget, r, usage, stop, t); }
    case DoReject(r, t, _) => RejectionHolds(w.budget, r, t);
    case _ =>
  }

  lemma StopsOnlyEscalate(w: World, ops: seq<Op>)
    requires Allowed(Ready, Step, w, ops)
    ensures Escalates(w, Run(Step, w, ops))
  {
    forall v, o ensures Escalates(v, Step(v, o)) { StepEscalates(v, o); }
    Relation(Ready, Step, (v: World) => true, (v, v') => Escalates(v, v'), w, ops);
  }
}
