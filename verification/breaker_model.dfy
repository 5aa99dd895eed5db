// The four-state circuit breaker of one (provider, reason): the pure transition and the
// guarded row updates that apply it.
module BreakerModel {
  import opened Wrappers
  import opened FaultAggregates

  datatype State = Insufficient | Normal | Suspended | Probing

  datatype Event = Aggregated | CooldownExpired | ProbeSuccess | ProbeFailure

  datatype Action = PersistState | ClaimSlot | ReleaseSlot | SetCooldown | ResetWindow

  datatype Config = Config(windowSeconds: real, cooldownSeconds: real, probeTtlSeconds: real,
                           failureThreshold: nat, minSamples: nat, directReasons: set<string>)

  predicate ConfigOk(c: Config) {
    c.windowSeconds > 0.0 && c.cooldownSeconds > 0.0 && c.probeTtlSeconds > 0.0
    && c.failureThreshold >= 1 && c.minSamples >= 1
  }

  datatype Params = Params(now: real, reason: string, sampleCount: nat, confirmed: nat, retryUntil: Option<real>,
                           cooldownUntil: Option<real>, probeExpires: Option<real>, probeOwner: Option<string>,
                           worker: Option<string>)

  predicate SuspensionRequired(c: Config, p: Params) {
    || (p.reason in c.directReasons && p.confirmed > 0)
    || (p.sampleCount >= c.failureThreshold && p.sampleCount >= c.minSamples)
  }

  predicate LiveProbe(p: Params) {
    p.worker.Some? && p.worker == p.probeOwner && p.probeExpires.Some? && p.probeExpires.value > p.now
  }

  function CooldownDeadline(c: Config, p: Params): real {
    if p.retryUntil.Some? then p.retryUntil.value else p.now + c.cooldownSeconds
  }

  function Transition(c: Config, s: State, e: Event, p: Params): (State, seq<Action>) {
    match e
    case Aggregated =>
      if s.Suspended? || s.Probing? then
        if s.Suspended? && p.retryUntil.Some?
           && (p.cooldownUntil.None? || p.retryUntil.value > p.cooldownUntil.value)
        then (Suspended, [PersistState, SetCooldown])
        else (s, [])
      else if SuspensionRequired(c, p) then (Suspended, [PersistState, SetCooldown])
      else if s.Insufficient? && p.sampleCount >= c.minSamples then (Normal, [PersistState])
      else (s, [])
    case CooldownExpired =>
      if s.Suspended? then
        if p.cooldownUntil.Some? && p.cooldownUntil.value <= p.now then (Probing, [PersistState, ClaimSlot])
        else (s, [])
      else if s.Probing? && p.probeExpires.Some? && p.probeExpires.value <= p.now then
        (Probing, [PersistState, ClaimSlot])
      else (s, [])
    case ProbeSuccess =>
      if s.Probing? && LiveProbe(p) then (Normal, [PersistState, ReleaseSlot, ResetWindow]) else (s, [])
    case ProbeFailure =>
      if s.Probing? && LiveProbe(p) then (Suspended, [PersistState, ReleaseSlot, SetCooldown]) else (s, [])
  }

  // ---- The durable row ----

  datatype Row = Row(state: State, sampleCount: nat, confirmed: nat, cooldownUntil: Option<real>,
                     retryUntil: Option<real>, probeOwner: Option<string>, probeToken: nat,
                     probeExpires: Option<real>, recoveredAt: Option<real>, recoverySequence: Option<nat>)

  // A missing row reads as this view.
  const NEW_ROW := Row(Insufficient, 0, 0, None, None, None, 0, None, None, None)

  predicate Eligible(row: Row, worker: Option<string>, at: real) {
    || row.state.Insufficient? || row.state.Normal?
    || (row.state.Probing? && worker.Some? && worker == row.probeOwner && row.probeExpires.Some?
        && row.probeExpires.value > at)
  }

  function NextValues(c: Config, row: Row, next: State, actions: seq<Action>, p: Params): Row {
    var moved := row.(state := next);
    var cooled := if SetCooldown in actions
                  then moved.(cooldownUntil := Some(CooldownDeadline(c, p)), retryUntil := p.retryUntil) else moved;
    var suspended := if next.Suspended? && !row.state.Suspended?
                     then cooled.(sampleCount := p.sampleCount, confirmed := p.confirmed, probeOwner := None,
                                  probeExpires := None) else cooled;
    if next.Normal? && row.state.Probing?
    then suspended.(sampleCount := 0, confirmed := 0, cooldownUntil := None, retryUntil := None) else suspended
  }

  // The evidence an aggregate is worth for this row: all of it, or what postdates the recovery.
  function Effective(row: Row, a: Aggregate): Option<Aggregate> {
    if row.recoveredAt.Some? then AfterRecovery(a, row.recoveredAt.value, row.recoverySequence) else Some(a)
  }

  function AggregateParams(row: Row, a: Aggregate, now: real): Params {
    Params(now, a.reason, a.sampleCount, a.confirmed, a.retryUntil, row.cooldownUntil, row.probeExpires,
           row.probeOwner, None)
  }

  // `_apply_aggregate`: the new row, and what the worker's window keeps for this key.
  function ApplyAggregate(c: Config, row: Row, a: Aggregate, now: real): (Row, Option<Aggregate>) {
    var evidence := Effective(row, a);
    if evidence.None? then (row, None)
    else
      var p := AggregateParams(row, evidence.value, now);
      var (next, actions) := Transition(c, row.state, Aggregated, p);
      (if actions == [] then row else NextValues(c, row, next, actions, p), evidence)
  }

  // ---- Probe slots ----

  datatype ProbeError = Invalid

  type Outcome<T> = Result<T, ProbeError>

  function ClaimParams(row: Row, reason: string, worker: string, at: real): Params {
    Params(at, reason, 0, 0, None, row.cooldownUntil, row.probeExpires, row.probeOwner, Some(worker))
  }

  // The WHERE clause of the claiming UPDATE.
  predicate ClaimGuard(row: Row, token: nat, at: real) {
    && row.probeToken == token
    && ((row.state.Suspended? && row.cooldownUntil.Some? && row.cooldownUntil.value <= at)
        || (row.state.Probing? && row.probeExpires.Some? && row.probeExpires.value <= at))
  }

  // The token won, if any.
  function TryClaim(c: Config, row: Row, reason: string, worker: string, at: real): (Row, Outcome<Option<nat>>) {
    if Blank(worker) then (row, Err(Invalid))
    else
      var (next, actions) := Transition(c, row.state, CooldownExpired, ClaimParams(row, reason, worker, at));
      if !next.Probing? || ClaimSlot !in actions || !ClaimGuard(row, row.probeToken, at) then (row, Ok(None))
      else
        (row.(state := Probing, probeOwner := Some(worker), probeToken := row.probeToken + 1,
              probeExpires := Some(at + c.probeTtlSeconds)), Ok(Some(row.probeToken + 1)))
  }

  function FinishParams(row: Row, reason: string, worker: string, retryUntil: Option<real>, at: real): Params {
    Params(at, reason, 0, 0, retryUntil, None, row.probeExpires, row.probeOwner, Some(worker))
  }

  // The WHERE clause of the finishing UPDATE.
  predicate FinishGuard(row: Row, worker: string, token: nat, at: real) {
    row.state.Probing? && row.probeOwner == Some(worker) && row.probeToken == token
    && row.probeExpires.Some? && row.probeExpires.value > at
  }

  // `_finish_probe`: whether this outcome was applied. `checkpoint` is the log position read
  // when a success commits, none when no store was observed.
  function FinishProbe(c: Config, row: Row, reason: string, worker: string, success: bool, token: int,
                       retryUntil: Option<real>, checkpoint: Option<nat>, at: real): (Row, Outcome<bool>)
  {
    if token < 1 then (row, Err(Invalid))
    else
      var hint := if success then None else retryUntil;
      var p := FinishParams(row, reason, worker, hint, at);
      var (next, actions) := Transition(c, row.state, if success then ProbeSuccess else ProbeFailure, p);
      if actions == [] || row.probeToken != token || !FinishGuard(row, worker, token, at) then (row, Ok(false))
      else if next.Normal? then
        (row.(state := Normal, probeOwner := None, probeExpires := None, sampleCount := 0, confirmed := 0,
              cooldownUntil := None, retryUntil := None, recoveredAt := Some(at), recoverySequence := checkpoint),
         Ok(true))
      else
        (row.(state := next, probeOwner := None, probeExpires := None,
              cooldownUntil := Some(CooldownDeadline(c, p)), retryUntil := hint), Ok(true))
  }
}
