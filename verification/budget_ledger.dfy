// The budget object: each method is one write transaction and commits what BudgetModel says.
module BudgetLedgers {
  import opened Wrappers
  import opened Sums
  import M = BudgetModel

  class BudgetLedger {
    const policy: M.Policy
    const startedAt: real
    var rows: seq<M.Row>
    var breaker: Option<M.Reason>

    constructor (policy: M.Policy, startedAt: real)
      ensures State() == M.Budget(policy, startedAt, [], None)
    {
      this.policy, this.startedAt := policy, startedAt;
      rows, breaker := [], None;
    }

    function State(): M.Budget
      reads this
    {
      M.Budget(policy, startedAt, rows, breaker)
    }

    // The burn loop of `_snapshot` and `reserve`.
    method WorkerBurn(worker: string, since: real) returns (burn: nat)
      ensures burn == M.Burn(rows, worker, since)
    {
      burn := 0;
      for i := 0 to |rows|
        invariant burn == M.Burn(rows[..i], worker, since)
      {
        assert rows[..i + 1][..i] == rows[..i];
        if M.Burning(rows[i], worker, since) {
          burn := burn + M.Charge(rows[i]);
        }
      }
      assert rows[..|rows|] == rows;
    }

    // Admitted money and open holds, in one pass over the rows.
    method Totals() returns (spent: real, holds: real, estimated: real)
      ensures spent == Sum(M.Admitted, rows) && holds == Sum(M.Hold, rows) && estimated == Sum(M.Estimated, rows)
    {
      spent, holds, estimated := 0.0, 0.0, 0.0;
      for i := 0 to |rows|
        invariant spent == Sum(M.Admitted, rows[..i]) && holds == Sum(M.Hold, rows[..i])
        invariant estimated == Sum(M.Estimated, rows[..i])
      {
        assert rows[..i + 1] == rows[..i] + [rows[i]];
        SumAppend(M.Admitted, rows[..i], rows[i]);
        SumAppend(M.Hold, rows[..i], rows[i]);
        SumAppend(M.Estimated, rows[..i], rows[i]);
        if rows[i].admitted.Some? { spent := spent + rows[i].admitted.value; }
        if !rows[i].status.Settled? { holds := holds + rows[i].reservation.amount; }
        if rows[i].estimate.Some? { estimated := estimated + rows[i].estimate.value; }
      }
      assert rows[..|rows|] == rows;
    }

    method Reserve(worker: string, taskId: string, bound: M.Bound, requestId: Option<string>, now: real)
      returns (reply: M.Outcome<M.Reservation>)
      modifies this
      ensures (State(), reply) == M.Reserve(old(State()), worker, taskId, bound, requestId, now)
    {
      if Blank(worker) || Blank(taskId) { return Err(M.Invalid); }
      var amount := M.ReservationAmount(policy, bound);
      if amount.Err? { return Err(amount.error); }
      var request := if requestId.Some? then requestId.value else taskId;
      if Blank(request) { return Err(M.Invalid); }
      if now < startedAt || now - startedAt >= policy.limits.maxRuntimeSeconds {
        return Err(M.Blocked("run_runtime_limit"));
      }
      if |rows| >= policy.limits.maxAttempts { return Err(M.Blocked("max_attempts")); }
      var attempts := |M.TaskRows(rows, taskId)|;
      if attempts >= policy.limits.maxAttemptsPerTask { return Err(M.Blocked("max_attempts_per_task")); }
      if attempts == 0 && |M.TaskIds(rows)| >= policy.limits.maxTasks { return Err(M.Blocked("max_tasks")); }
      if breaker.Some? { return Err(M.Stopped(breaker.value)); }
      var burn := WorkerBurn(worker, now - policy.burnWindow);
      if burn >= policy.burnRate { return Err(M.Blocked("worker_burn_rate")); }
      if M.AlreadyReserved(rows, request, taskId) { return Err(M.Blocked("task_already_reserved_no_retry")); }
      if burn + M.BoundTotal(bound) > policy.burnRate { return Err(M.Blocked("worker_burn_rate")); }
      var spent, holds, _ := Totals();
      if policy.admission && spent + holds + amount.value > policy.maxCost {
        return Err(M.Blocked("swarm_reservation_capacity"));
      }
      var r := M.Reservation(|rows|, request, worker, taskId, bound, amount.value, now);
      rows := rows + [M.Row(r, M.Pending, None, None, None, None, None)];
      reply := Ok(r);
    }

    method Trip(r: M.Reason)
      modifies this`breaker
      ensures State() == M.Trip(old(State()), r)
    {
      if breaker.None? || M.Priority(r) > M.Priority(breaker.value) {
        breaker := Some(r);
      }
    }

    method MarkUnknownRejection(r: M.Reservation, now: real) returns (reply: M.Outcome<()>)
      modifies this
      ensures (State(), reply) == M.MarkUnknownRejection(old(State()), r, now)
    {
      if !M.Stored(State(), r) { return Err(M.Invalid); }
      if !rows[r.id].status.Pending? { return Ok(()); }
      if now < r.createdAt { return Err(M.Backwards); }
      rows := rows[r.id := rows[r.id].(status := M.Uncertain, settledAt := Some(now))];
      reply := Ok(());
    }

    method SettleKnown(r: M.Reservation, u: M.Usage, now: real)
      requires M.Stored(State(), r)
      modifies this
      ensures State() == M.SettleKnown(old(State()), r, u, now)
    {
      rows := rows[r.id := M.SettledRow(policy, rows[r.id], u, now)];
      if policy.prices.None? && !policy.allowUnknownCost {
        Trip(M.UnknownCost);
      }
      var _, _, spent := Totals();
      if M.Violates(policy, r, u) {
        Trip(if r.bound.providerEnforced then M.BoundViolated else M.TokenLimitExceeded);
      } else if policy.prices.Some? && spent >= policy.maxCost {
        Trip(M.CostExhausted);
      }
    }

    method Settle(r: M.Reservation, usage: Option<M.Usage>, stopOnProviderError: bool, now: real)
      returns (reply: M.Outcome<()>)
      modifies this
      ensures (State(), reply) == M.Settle(old(State()), r, usage, stopOnProviderError, now)
    {
      if !M.Stored(State(), r) { return Err(M.Invalid); }
      var reported := M.Reported(usage);
      var row := rows[r.id];
      if !row.status.Pending? {
        if row.settlement.Some? && reported.Some? && row.settlement != reported { return Err(M.Conflict); }
      } else if now < r.createdAt {
        return Err(M.Backwards);
      }
      if stopOnProviderError {
        Trip(M.ProviderHttpError);
      }
      if row.status.Pending? {
        if reported.Some? {
          SettleKnown(r, reported.value, now);
        } else {
          rows := rows[r.id := row.(status := M.Uncertain, settledAt := Some(now))];
          if !policy.allowUnknownUsage { Trip(M.UnknownUsage); }
        }
      }
      reply := Ok(());
    }
  }
}
