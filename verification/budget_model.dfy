// The swarm budget table as a value, and each budget transaction as a function on it.
module BudgetModel {
  import opened Wrappers
  import opened Sums

  datatype Prices = Prices(provider: string, model: string, inputPerMillion: real, outputPerMillion: real)

  datatype Limits = Limits(maxTasks: nat, maxAttempts: nat, maxAttemptsPerTask: nat, maxRuntimeSeconds: real)

  datatype Policy = Policy(maxTokens: nat, maxCost: real, burnRate: nat, burnWindow: real,
                           prices: Option<Prices>, limits: Limits, admission: bool,
                           allowance: Option<real>, allowUnknownCost: bool, allowUnknownUsage: bool)

  predicate PolicyOk(p: Policy) {
    && p.maxCost > 0.0 && p.burnWindow > 0.0
    && (p.prices.Some? ==> p.prices.value.inputPerMillion >= 0.0 && p.prices.value.outputPerMillion >= 0.0)
    && (p.allowance.Some? ==> p.allowance.value > 0.0 && p.admission)
  }

  datatype Bound = Bound(provider: string, model: string, inputTokens: nat, maxOutputTokens: nat,
                         providerEnforced: bool, verified: bool, maxCost: Option<real>)

  // `credible_bound`: a verified bound is provider enforced and carries its cost ceiling.
  predicate BoundOk(b: Bound) {
    (b.maxCost.Some? ==> b.maxCost.value >= 0.0) && (b.verified ==> b.providerEnforced && b.maxCost.Some?)
  }

  function BoundTotal(b: Bound): nat {
    b.inputTokens + b.maxOutputTokens
  }

  datatype Usage = Usage(prompt: nat, completion: nat)

  function UsageTotal(u: Usage): nat {
    u.prompt + u.completion
  }

  const MAX_TOKENS: nat := 0x7FFF_FFFF_FFFF_FFFF

  datatype Reservation = Reservation(id: nat, requestId: string, worker: string, taskId: string, bound: Bound,
                                     amount: real, createdAt: real)

  datatype RowStatus = Pending | Uncertain | Settled | UnknownCostAllowed

  datatype Row = Row(reservation: Reservation, status: RowStatus, settledAt: Option<real>, tokens: Option<nat>,
                     estimate: Option<real>, settlement: Option<Usage>, admitted: Option<real>)

  datatype Reason = CostExhausted | UnknownCost | BoundViolated | TokenLimitExceeded | UnknownUsage | ProviderHttpError

  datatype Budget = Budget(policy: Policy, startedAt: real, rows: seq<Row>, breaker: Option<Reason>)

  datatype BudgetError = Invalid | Backwards | Conflict | Blocked(reason: string) | Stopped(latched: Reason)

  type Outcome<T> = Result<T, BudgetError>

  // ---- Money ----

  function Estimate(p: Prices, inputTokens: nat, outputTokens: nat): real {
    (inputTokens as real * p.inputPerMillion + outputTokens as real * p.outputPerMillion) / 1000000.0
  }

  function Amount(row: Row): real {
    row.reservation.amount
  }

  function Admitted(row: Row): real {
    if row.admitted.Some? then row.admitted.value else 0.0
  }

  function Hold(row: Row): real {
    if row.status.Settled? then 0.0 else Amount(row)
  }

  // What a row commits for good: its admitted amount once settled, its reservation until then.
  function Commitment(row: Row): real {
    if row.status.Settled? then Admitted(row) else Amount(row)
  }

  function Estimated(row: Row): real {
    if row.estimate.Some? then row.estimate.value else 0.0
  }

  function Committed(b: Budget): real {
    Sum(Commitment, b.rows)
  }

  // ---- Burn ----

  function Charge(row: Row): nat {
    if row.tokens.Some? then row.tokens.value else BoundTotal(row.reservation.bound)
  }

  // Unsettled holds count for ever; settled ones while their settlement is inside the window.
  predicate Burning(row: Row, worker: string, since: real) {
    && row.reservation.worker == worker
    && ((!row.status.Settled? && !row.status.UnknownCostAllowed?)
        || (row.settledAt.Some? && row.settledAt.value > since))
  }

  function Burn(rows: seq<Row>, worker: string, since: real): nat {
    if rows == [] then 0
    else
      var last := rows[|rows| - 1];
      Burn(rows[..|rows| - 1], worker, since) + (if Burning(last, worker, since) then Charge(last) else 0)
  }

  // ---- Reserve ----

  function TaskRows(rows: seq<Row>, taskId: string): set<nat> {
    set i: nat | i < |rows| && rows[i].reservation.taskId == taskId
  }

  function TaskIds(rows: seq<Row>): set<string> {
    set i: nat | i < |rows| :: rows[i].reservation.taskId
  }

  predicate AlreadyReserved(rows: seq<Row>, requestId: string, taskId: string) {
    exists i :: 0 <= i < |rows| && (rows[i].reservation.requestId == requestId
                                    || (rows[i].reservation.taskId == taskId && rows[i].status.Pending?))
  }

  // The amount a reservation holds, or why it cannot be admitted at all.
  function ReservationAmount(p: Policy, bound: Bound): Outcome<real> {
    if !BoundOk(bound) then Err(Invalid)
    else if !bound.verified && (p.allowance.None? || !p.admission) then
      Err(Blocked("explicit_unbounded_admission_required"))
    else if p.prices.Some? && (p.prices.value.provider != bound.provider || p.prices.value.model != bound.model) then
      Err(Blocked("explicit_matching_model_prices_required"))
    else if BoundTotal(bound) > p.maxTokens then Err(Blocked("task_token_bound_exceeded"))
    else if bound.verified then
      if p.prices.None? then Err(Blocked("explicit_matching_model_prices_required"))
      else if bound.maxCost.value < Estimate(p.prices.value, bound.inputTokens, bound.maxOutputTokens) then
        Err(Blocked("request_cost_bound_below_estimate"))
      else Ok(bound.maxCost.value)
    else if p.prices.None? then Ok(p.allowance.value)
    else
      var estimate := Estimate(p.prices.value, bound.inputTokens, bound.maxOutputTokens);
      Ok(if estimate > p.allowance.value then estimate else p.allowance.value)
  }

  // The admission checks made inside the transaction, in their order.
  function Admission(b: Budget, worker: string, taskId: string, requestId: string, total: nat, amount: real, now: real)
    : Outcome<()>
  {
    var l, since := b.policy.limits, now - b.policy.burnWindow;
    var attempts := |TaskRows(b.rows, taskId)|;
    if now < b.startedAt || now - b.startedAt >= l.maxRuntimeSeconds then Err(Blocked("run_runtime_limit"))
    else if |b.rows| >= l.maxAttempts then Err(Blocked("max_attempts"))
    else if attempts >= l.maxAttemptsPerTask then Err(Blocked("max_attempts_per_task"))
    else if attempts == 0 && |TaskIds(b.rows)| >= l.maxTasks then Err(Blocked("max_tasks"))
    else if b.breaker.Some? then Err(Stopped(b.breaker.value))
    else if Burn(b.rows, worker, since) >= b.policy.burnRate then Err(Blocked("worker_burn_rate"))
    else if AlreadyReserved(b.rows, requestId, taskId) then Err(Blocked("task_already_reserved_no_retry"))
    else if Burn(b.rows, worker, since) + total > b.policy.burnRate then Err(Blocked("worker_burn_rate"))
    else if b.policy.admission && Sum(Admitted, b.rows) + Sum(Hold, b.rows) + amount > b.policy.maxCost then
      Err(Blocked("swarm_reservation_capacity"))
    else Ok(())
  }

  function Reserve(b: Budget, worker: string, taskId: string, bound: Bound, requestId: Option<string>, now: real)
    : (Budget, Outcome<Reservation>)
  {
    if Blank(worker) || Blank(taskId) then (b, Err(Invalid))
    else
      var amount := ReservationAmount(b.policy, bound);
      var request := if requestId.Some? then requestId.value else taskId;
      if amount.Err? then (b, Err(amount.error))
      else if Blank(request) then (b, Err(Invalid))
      else
        var admission := Admission(b, worker, taskId, request, BoundTotal(bound), amount.value, now);
        if admission.Err? then (b, Err(admission.error))
        else
          var r := Reservation(|b.rows|, request, worker, taskId, bound, amount.value, now);
          (b.(rows := b.rows + [Row(r, Pending, None, None, None, None, None)]), Ok(r))
  }

  // ---- Settlement ----

  predicate Stored(b: Budget, r: Reservation) {
    r.id < |b.rows| && b.rows[r.id].reservation == r
  }

  function Priority(r: Reason): nat {
    match r
    case CostExhausted => 1
    case UnknownCost => 2
    case BoundViolated => 3
    case TokenLimitExceeded => 3
    case UnknownUsage => 4
    case ProviderHttpError => 4
  }

  // `_trip`: the stop reason is latched, and only a higher priority replaces it.
  function Trip(b: Budget, r: Reason): Budget {
    if b.breaker.None? || Priority(r) > Priority(b.breaker.value) then b.(breaker := Some(r)) else b
  }

  function SetRow(b: Budget, i: nat, row: Row): Budget
    requires i < |b.rows|
  {
    b.(rows := b.rows[i := row])
  }

  function MarkUnknownRejection(b: Budget, r: Reservation, now: real): (Budget, Outcome<()>) {
    if !Stored(b, r) then (b, Err(Invalid))
    else if !b.rows[r.id].status.Pending? then (b, Ok(()))
    else if now < r.createdAt then (b, Err(Backwards))
    else (SetRow(b, r.id, b.rows[r.id].(status := Uncertain, settledAt := Some(now))), Ok(()))
  }

  // The settled row for known usage: priced, or held in full when no price is configured.
  function SettledRow(p: Policy, row: Row, u: Usage, now: real): Row {
    var known := row.(settledAt := Some(now), tokens := Some(UsageTotal(u)), settlement := Some(u));
    if p.prices.None? then known.(status := if p.allowUnknownCost then UnknownCostAllowed else Uncertain)
    else
      var estimate := Estimate(p.prices.value, u.prompt, u.completion);
      known.(status := Settled, estimate := Some(estimate),
             admitted := Some(if estimate > Amount(row) then estimate else Amount(row)))
  }

  // The token half of the bound check.
  predicate TokenBreach(p: Policy, bound: Bound, u: Usage) {
    u.prompt > bound.inputTokens || u.completion > bound.maxOutputTokens || UsageTotal(u) > p.maxTokens
  }

  predicate Violates(p: Policy, r: Reservation, u: Usage) {
    || TokenBreach(p, r.bound, u)
    || (r.bound.verified && p.prices.Some? && Estimate(p.prices.value, u.prompt, u.completion) > r.amount)
  }

  function SettleKnown(b: Budget, r: Reservation, u: Usage, now: real): Budget
    requires Stored(b, r)
  {
    var settled := SetRow(b, r.id, SettledRow(b.policy, b.rows[r.id], u, now));
    var priced := if b.policy.prices.None? && !b.policy.allowUnknownCost then Trip(settled, UnknownCost) else settled;
    if Violates(b.policy, r, u) then
      Trip(priced, if r.bound.providerEnforced then BoundViolated else TokenLimitExceeded)
    else if b.policy.prices.Some? && Sum(Estimated, settled.rows) >= b.policy.maxCost then Trip(priced, CostExhausted)
    else priced
  }

  function SettleUnknown(b: Budget, r: Reservation, now: real): Budget
    requires Stored(b, r)
  {
    var held := SetRow(b, r.id, b.rows[r.id].(status := Uncertain, settledAt := Some(now)));
    if b.policy.allowUnknownUsage then held else Trip(held, UnknownUsage)
  }

  function Reported(usage: Option<Usage>): Option<Usage> {
    if usage.Some? && UsageTotal(usage.value) > MAX_TOKENS then None else usage
  }

  function Settle(b: Budget, r: Reservation, usage: Option<Usage>, stopOnProviderError: bool, now: real)
    : (Budget, Outcome<()>)
  {
    if !Stored(b, r) then (b, Err(Invalid))
    else
      var reported := Reported(usage);
      var stopped := if stopOnProviderError then Trip(b, ProviderHttpError) else b;
      var row := b.rows[r.id];
      if !row.status.Pending? then
        if row.settlement.Some? && reported.Some? && row.settlement != reported then (b, Err(Conflict))
        else (stopped, Ok(()))
      else if now < r.createdAt then (b, Err(Backwards))
      else if reported.None? then (SettleUnknown(stopped, r, now), Ok(()))
      else (SettleKnown(stopped, r, reported.value, now), Ok(()))
  }
}
