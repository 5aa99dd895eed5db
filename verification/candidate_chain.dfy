// One worker's processing of one task: the candidate loop over the real budget object, with other
// workers' transactions in between and every outside answer drawn from a script.
module CandidateChains {
  import opened Wrappers
  import opened ChainProtocol
  import opened ChainScripts
  import opened ChainHolds
  import opened BudgetLedgers
  import L = FaultLog
  import M = BudgetModel
  import A = BudgetAnswers
  import B = BudgetSafety
  import RequestIds

  // What the ledger is told when a reply settles its hold.
  function Told(b: M.Budget, r: M.Reservation, reply: Reply, at: real): M.Budget {
    match SettlementOf(reply)
    case StoppedOnError => M.Settle(b, r, reply.usage, true, at).0
    case HeldRejection => M.MarkUnknownRejection(b, r, at).0
    case HeldUncertain => M.Settle(b, r, None, false, at).0
    case _ => M.Settle(b, r, reply.usage, false, at).0
  }

  // In the ledger's terms: a provider error leaves a stop latched; a rejection of unknown usage holds
  // its row and stops nothing; an open effect holds its row and, unless the policy allows unknown
  // usage, stops; and a certain reply stores its usage.
  lemma ToldMeans(b: M.Budget, r: M.Reservation, reply: Reply, at: real)
    requires M.Stored(b, r) && b.rows[r.id].status == M.Pending && r.createdAt <= at
    ensures var b' := Told(b, r, reply, at);
            && |b'.rows| == |b.rows| && (forall i :: 0 <= i < |b.rows| && i != r.id ==> b'.rows[i] == b.rows[i])
            && (reply.httpError ==> b'.breaker.Some? && A.Outranks(b'.breaker.value, M.ProviderHttpError))
            && (!reply.httpError && reply.uncertain ==>
                  b'.rows[r.id] == b.rows[r.id].(status := M.Uncertain, settledAt := Some(at)))
            && (!reply.httpError && reply.uncertain && ClassIs(reply, L.ConfirmedRejection) ==> b'.breaker == b.breaker)
            && (!reply.httpError && OpenEffect(reply) && !b.policy.allowUnknownUsage ==>
                  b'.breaker.Some? && A.Outranks(b'.breaker.value, M.UnknownUsage))
            && (reply.httpError || !reply.uncertain ==>
                  A.StoredAs(b.policy, b.rows[r.id], b'.rows[r.id], reply.usage, at))
  {
    var stop := reply.httpError;
    var usage := if !stop && reply.uncertain then None else reply.usage;
    A.FirstSettlementStores(b, r, usage, stop, at);
    A.StopsExactly(b, r, usage, stop, at);
    A.RejectionHolds(b, r, at);
    assert stop ==> M.ProviderHttpError in A.Called(b, r, usage, stop, at);
    assert usage.None? && !b.policy.allowUnknownUsage ==> M.UnknownUsage in A.Called(b, r, usage, stop, at);
  }

  // The first candidate, tried after the other workers' transactions before it.
  predicate FirstIsAdmitted(job: Job, b: M.Budget) {
    && job.turns != [] && job.turns[0].bound.Some? && job.turns[0].leaseHeld && job.turns[0].routable
    && M.Reserve(Others(b, job.turns[0].others), job.worker, job.taskId, job.turns[0].bound.value,
                 Some(RequestIds.RequestId(job.taskId, job.token, 0)), job.turns[0].reserveAt).1.Ok?
  }

  class CandidateChain {
    const budget: BudgetLedger
    const worker: string
    var active: Option<M.Reservation>
    var current: nat               // the candidate index `active` belongs to
    var trace: seq<Effect>
    ghost var phase: Phase
    ghost var admitted: set<nat>   // every candidate index reserved so far

    constructor (budget: BudgetLedger, worker: string)
      ensures this.budget == budget && this.worker == worker && active == None && trace == []
      ensures Fresh()
    {
      this.budget, this.worker := budget, worker;
      active, current, trace, phase, admitted := None, 0, [], INITIAL, {};
    }

    // Before any effect.
    ghost predicate Fresh()
      reads this
    {
      trace == [] && phase == INITIAL && active.None? && admitted == {}
    }

    // The effects so far follow the protocol and the script; the worker has at most its active hold
    // open, and that one is the current candidate's.
    ghost predicate Running(job: Job, found: set<nat>, waiting: Option<nat>)
      reads this, budget
    {
      && worker == job.worker && JobOk(job)
      && After(trace) == Some(phase) && AsScripted(job, trace, waiting) && AreReserved(admitted, trace)
      && Held(budget.State(), worker, found, active)
      && phase.active == (if active.Some? then Some(current) else None)
      && (active.Some? ==>
            current in admitted && current < |job.turns| && active.value.createdAt == job.turns[current].reserveAt)
    }

    // Whether the hold is open, and whose it is, once the loop is over.
    ghost predicate OpenIs(turns: seq<Turn>)
      reads this
    {
      && (active.Some? ==> current in admitted && current < |turns| && LeavesOpen(turns[current]))
      && (forall i :: i in admitted ==> i < |turns| && (LeavesOpen(turns[i]) ==> active.Some? && i == current))
    }

    ghost predicate Owes(deferred: Option<(nat, L.FailureClass)>)
      reads this
    {
      && phase.switched.None?
      && phase.owed == (if deferred.Some? then Some(Owed(deferred.value.0, deferred.value.1, true)) else None)
    }

    method Emit(e: Effect, ghost job: Job, ghost waiting: Option<nat>)
      requires After(trace) == Some(phase) && AsScripted(job, trace, waiting) && AreReserved(admitted, trace)
      requires Permits(phase, e) && EffectOk(job, e) && (Answered(e) ==> waiting.None?)
      modifies this`trace, this`phase, this`admitted
      ensures trace == old(trace) + [e] && phase == Advance(old(phase), e)
      ensures After(trace) == Some(phase) && AsScripted(job, trace, WaitingAfter(waiting, e))
      ensures AreReserved(admitted, trace)
      ensures admitted == if e.Reserved? then old(admitted) + {e.index} else old(admitted)
    {
      assert (trace + [e])[..|trace + [e]| - 1] == trace;
      Extends(job, trace, waiting, e);
      ReservedGrow(admitted, trace, e);
      if e.Reserved? { admitted := admitted + {e.index}; }
      trace, phase := trace + [e], Advance(phase, e);
    }

    method Interfere(ops: seq<B.Op>, ghost found: set<nat>)
      requires Held(budget.State(), worker, found, active)
      requires forall i :: 0 <= i < |ops| ==> ByOthers(worker, ops[i])
      modifies budget
      ensures budget.State() == Others(old(budget.State()), ops)
      ensures Held(budget.State(), worker, found, active)
    {
      for i := 0 to |ops|
        invariant budget.State() == Others(old(budget.State()), ops[..i])
        invariant Held(budget.State(), worker, found, active)
      {
        ghost var before := budget.State();
        assert ops[..i + 1][..i] == ops[..i];
        match ops[i] {
          case DoReserve(w, task, bound, request, t, _) =>
            var _ := budget.Reserve(w, task, bound, request, t);
          case DoSettle(r, usage, stop, t, _) =>
            var _ := budget.Settle(r, usage, stop, t);
          case DoReject(r, t, _) =>
            var _ := budget.MarkUnknownRejection(r, t);
          case Idle(_) =>
        }
        OthersKeepRows(before, worker, ops[i]);
        KeptHeld(before, budget.State(), worker, found, active);
      }
      assert ops[..|ops|] == ops;
    }

    // `mark_uncertain(self._active); self._active = None`, which only a backward clock can defeat.
    method MarkUncertain(at: real, ghost job: Job, ghost found: set<nat>)
      requires Running(job, found, None) && active.Some?
      modifies this`active, this`trace, this`phase, this`admitted, budget
      ensures Running(job, found, None) && old(trace) <= trace && admitted == old(admitted)
      ensures budget.State() == M.Settle(old(budget.State()), old(active).value, None, false, at).0
      ensures if at < old(active).value.createdAt then active == old(active) && phase == old(phase)
              else active == None && phase == old(phase).(active := None)
    {
      var r := active.value;
      SettleReleases(budget.State(), worker, found, r, None, false, at);
      var reply := budget.Settle(r, None, false, at);
      if reply.Ok? {
        active := None;
        Emit(Resolved(current, Abandoned), job, None);
      }
    }

    // From the reservation to the executor's reply; none when anything on the way raises.
    method Send(index: nat, t: Turn, ghost job: Job, ghost found: set<nat>) returns (reply: Option<Reply>)
      requires Running(job, found, None) && index < |job.turns| && t == job.turns[index]
      requires active.Some? && current == index
      requires phase.unconfirmed.None? && phase.reply.None? && phase.owed.None?
      modifies this`active, this`trace, this`phase, this`admitted, budget
      ensures Running(job, found, None) && old(trace) <= trace && admitted == old(admitted)
      ensures phase.owed.None? && phase.switched == old(phase).switched
      ensures reply == if t.prepared && t.begun then t.reply else None
      ensures reply.None? ==> (active.Some? <==> t.abortAt < t.reserveAt)
      ensures reply.Some? ==>
                active == old(active) && active.Some?
                && phase == old(phase).(unconfirmed := Some(index), reply := Some((index, reply.value)))
    {
      if !t.prepared || !t.begun {
        MarkUncertain(t.abortAt, job, found);
        return None;
      }
      Emit(Began(index), job, None);
      Interfere(t.meanwhile, found);
      if t.reply.None? {
        MarkUncertain(t.abortAt, job, found);
        return None;
      }
      Emit(Executed(index, t.reply.value), job, None);
      return t.reply;
    }

    // One of the four settlements; false when the clock ran backwards and it raises.
    method SettleReply(index: nat, t: Turn, reply: Reply, ghost job: Job, ghost found: set<nat>) returns (ok: bool)
      requires Running(job, found, None) && index < |job.turns| && t == job.turns[index]
      requires active.Some? && current == index && phase.reply == Some((index, reply)) && t.reply == Some(reply)
      modifies this`active, this`trace, this`phase, this`admitted, budget
      ensures Running(job, found, if ok then Some(index) else None) && admitted == old(admitted)
      ensures budget.State() == Told(old(budget.State()), old(active).value, reply, t.settleAt)
      ensures ok <==> t.settleAt >= t.reserveAt
      ensures if ok then active.None? && phase == old(phase).(active := None)
                         && trace == old(trace) + [Resolved(index, SettlementOf(reply))]
              else active == old(active) && phase == old(phase) && trace == old(trace)
    {
      var r, outcome := active.value, Ok(());
      if reply.httpError {
        SettleReleases(budget.State(), worker, found, r, reply.usage, true, t.settleAt);
        outcome := budget.Settle(r, reply.usage, true, t.settleAt);
      } else if reply.uncertain && Rejection(reply) {
        RejectionReleases(budget.State(), worker, found, r, t.settleAt);
        outcome := budget.MarkUnknownRejection(r, t.settleAt);
      } else {
        var usage := if reply.uncertain then None else reply.usage;
        SettleReleases(budget.State(), worker, found, r, usage, false, t.settleAt);
        outcome := budget.Settle(r, usage, false, t.settleAt);
      }
      if outcome.Err? { return false; }
      active := None;
      Emit(Resolved(index, SettlementOf(reply)), job, None);
      return true;
    }

    // A judgement, and the record of a failure that cannot lead to a switch.
    method Judge(index: nat, reply: Reply, judge: Judge, ghost job: Job)
      requires After(trace) == Some(phase) && AsScripted(job, trace, Some(index)) && AreReserved(admitted, trace)
      requires var e := Judged(index, reply.classification, judge); Permits(phase, e) && EffectOk(job, e)
      modifies this`trace, this`phase, this`admitted
      ensures After(trace) == Some(phase) && AsScripted(job, trace, None) && AreReserved(admitted, trace)
      ensures old(trace) <= trace && admitted == old(admitted)
      ensures var due := DueOf(index, reply.classification, judge);
              phase == old(phase).(judged := true, switched := None,
                                   owed := if due.Some? && due.value.switching then due else None)
    {
      Emit(Judged(index, reply.classification, judge), job, Some(index));
      var due := DueOf(index, reply.classification, judge);
      if due.Some? && !due.value.switching {
        Emit(Recorded(index, due.value.failure, None), job, None);
      }
    }

    // What a cleared reply leads to: the next candidate, the end of the loop, or the end of the task.
    method Follow(index: nat, t: Turn, reply: Reply, hasLater: bool, ghost job: Job, ghost found: set<nat>)
      returns (control: Control, deferred: Option<(nat, L.FailureClass)>)
      requires index < |job.turns| && t == job.turns[index]
      requires t.reply == Some(reply) && hasLater == (index + 1 < |job.turns|)
      requires t.checked && (Confirmable(reply) ==> t.confirmed)
      requires Running(job, found, if JudgeOf(t, reply, hasLater).Some? then Some(index) else None)
      requires active.None? && phase.next == index + 1
      requires phase.unconfirmed == if Confirmable(reply) then None else Some(index)
      requires phase.reply == Some((index, reply)) && !phase.judged && phase.owed.None? && phase.switched.None?
      modifies this`trace, this`phase, this`admitted
      ensures Running(job, found, None) && old(trace) <= trace && admitted == old(admitted)
      ensures phase.next == old(phase).next && phase.reply == old(phase).reply
      ensures phase.unconfirmed == old(phase).unconfirmed && Owes(deferred)
      ensures control == Followed(t, reply, hasLater)
      ensures deferred == if control.Proceed? then Some((index, REJECTED)) else None
    {
      deferred := None;
      if reply.uncertain && !Rejection(reply) {
        Judge(index, reply, AsUncertain, job);
        return if t.reported then Return(Sleeping) else Raise, None;
      }
      if t.stopped { return Return(Sleeping), None; }
      if !t.reported { return Raise, None; }
      if Usable(reply) { return Leave, None; }
      var reject := if t.failAccepted then Return(Rejected) else Raise;
      if reply.classification.None? { return reject, None; }
      var (action, _) := Decide(reply.classification, hasLater);
      Judge(index, reply, ByDecide(hasLater), job);
      match action {
        case Switch =>
          deferred := Some((index, REJECTED));
          control := Proceed;
        case StopCapabilityMismatch => control := reject;
        case StopBudgetExhausted => control := Return(Sleeping);
        case StopUnknownEffect => control := Return(Sleeping);
        case _ => control := reject;
      }
    }

    // A settled reply is checked and, where its effect is known, confirmed, before it is followed.
    method Conclude(index: nat, t: Turn, reply: Reply, hasLater: bool, ghost job: Job, ghost found: set<nat>)
      returns (control: Control, deferred: Option<(nat, L.FailureClass)>)
      requires Running(job, found, Some(index)) && index < |job.turns| && t == job.turns[index]
      requires t.reply == Some(reply) && hasLater == (index + 1 < |job.turns|)
      requires active.None? && phase.next == index + 1 && phase.unconfirmed == Some(index)
      requires phase.reply == Some((index, reply)) && !phase.judged && phase.owed.None? && phase.switched.None?
      modifies this`trace, this`phase, this`admitted
      ensures Running(job, found, None) && old(trace) <= trace && admitted == old(admitted)
      ensures phase.next == old(phase).next && phase.reply == old(phase).reply
      ensures Owes(deferred)
      ensures LeadsTo(t, reply, hasLater, control)
      ensures control.Proceed? <==> JudgeOf(t, reply, hasLater) == Some(ByDecide(true)) && Rejection(reply)
      ensures deferred == if control.Proceed? then Some((index, REJECTED)) else None
      ensures control.Proceed? || control.Leave? ==> phase.unconfirmed.None?
      ensures control.Leave? ==> Usable(reply)
    {
      control, deferred := Raise, None;
      FollowedLeads(t, reply, hasLater);
      if JudgeOf(t, reply, hasLater).None? { NothingToJudge(job, trace, index); }
      if t.checked && (Confirmable(reply) ==> t.confirmed) {
        if Confirmable(reply) {
          Emit(Confirmed(index), job, if JudgeOf(t, reply, hasLater).None? then None else Some(index));
        }
        control, deferred := Follow(index, t, reply, hasLater, job, found);
      }
    }

    // The state at the head of the loop: nothing open, a rejection still to be recorded exactly when
    // some candidate has been tried, and no turn behind that left its hold open.
    ghost predicate AtHead(job: Job, found: set<nat>, index: nat, deferred: Option<(nat, L.FailureClass)>,
                           result: Option<Reply>)
      reads this, budget
    {
      && Running(job, found, None) && active.None? && phase.next <= index
      && phase.unconfirmed.None? && Owes(deferred)
      && (if result.None? then phase.next == 0 && deferred.None? && trace == []
          else deferred.Some? && deferred.value.1 == REJECTED && !result.value.candidate && trace != [])
      && (forall i :: i in admitted ==> i < |job.turns| && !LeavesOpen(job.turns[i]))
      && AllSettled(job.turns, admitted, trace)
    }

    // Other workers' transactions, then the reservation of one candidate.
    method ReserveNext(t: Turn, requestId: string, taskId: string, ghost found: set<nat>)
      returns (reply: M.Outcome<M.Reservation>)
      requires Held(budget.State(), worker, found, None) && active.None? && t.bound.Some? && TurnOk(worker, t)
      modifies budget
      ensures (budget.State(), reply) ==
              M.Reserve(Others(old(budget.State()), t.others), worker, taskId, t.bound.value, Some(requestId),
                        t.reserveAt)
      ensures Held(budget.State(), worker, found, if reply.Ok? then Some(reply.value) else None)
      ensures reply.Ok? ==>
                && reply.value.createdAt == t.reserveAt && reply.value.requestId == requestId
                && reply.value.worker == worker && reply.value.taskId == taskId && reply.value.bound == t.bound.value
    {
      Interfere(t.others, found);
      ReserveHolds(budget.State(), worker, taskId, t.bound.value, Some(requestId), t.reserveAt, found);
      reply := budget.Reserve(worker, taskId, t.bound.value, Some(requestId), t.reserveAt);
    }

    // A reservation, and the record of the switch it completes.
    method Announce(index: nat, identity: string, r: M.Reservation, deferred: Option<(nat, L.FailureClass)>,
                    ghost job: Job)
      requires After(trace) == Some(phase) && AsScripted(job, trace, None) && AreReserved(admitted, trace)
      requires MayReserve(phase, index) && EffectOk(job, Reserved(index, identity, r)) && Owes(deferred)
      requires phase.unconfirmed.None?
      modifies this`trace, this`phase, this`admitted
      ensures After(trace) == Some(phase) && AsScripted(job, trace, None) && AreReserved(admitted, trace)
      ensures old(trace) <= trace && admitted == old(admitted) + {index}
      ensures phase == Phase(index + 1, Some(index), None, None, false, None, None)
    {
      Emit(Reserved(index, identity, r), job, None);
      if deferred.Some? {
        Emit(Recorded(deferred.value.0, deferred.value.1, Some(identity)), job, None);
      }
    }

    // Admission of one candidate, and the record of the switch it completes.
    method Admit(index: nat, t: Turn, taskId: string, token: nat, deferred: Option<(nat, L.FailureClass)>,
                 ghost result: Option<Reply>, ghost job: Job, ghost found: set<nat>)
      returns (reply: M.Outcome<M.Reservation>)
      requires AtHead(job, found, index, deferred, result) && index < |job.turns| && t == job.turns[index]
      requires t.bound.Some? && taskId == job.taskId && token == job.token
      modifies this, budget
      ensures Running(job, found, None) && old(trace) <= trace
      ensures (budget.State(), reply) ==
              M.Reserve(Others(old(budget.State()), t.others), worker, taskId, t.bound.value,
                        Some(RequestIds.RequestId(taskId, token, index)), t.reserveAt)
      ensures reply.Err? ==> active.None? && phase == old(phase) && trace == old(trace) && admitted == old(admitted)
      ensures reply.Ok? ==>
                active == Some(reply.value) && current == index && admitted == old(admitted) + {index}
                && phase == Phase(index + 1, Some(index), None, None, false, None, None)
    {
      reply := ReserveNext(t, RequestIds.RequestId(taskId, token, index), taskId, found);
      if reply.Err? { return; }
      active, current := Some(reply.value), index;
      Announce(index, Identity(t.bound.value), reply.value, deferred, job);
    }

    // One admitted candidate, from the send to what its reply leads to.
    method Attempt(index: nat, t: Turn, hasLater: bool, ghost job: Job, ghost found: set<nat>)
      returns (control: Control, deferred: Option<(nat, L.FailureClass)>, reply: Option<Reply>)
      requires Running(job, found, None) && index < |job.turns| && t == job.turns[index]
      requires hasLater == (index + 1 < |job.turns|) && active.Some? && current == index
      requires phase == Phase(index + 1, Some(index), None, None, false, None, None)
      modifies this, budget
      ensures Running(job, found, None) && old(trace) <= trace && admitted == old(admitted) && current == index
      ensures Owes(deferred)
      ensures active.Some? <==> LeavesOpen(t)
      ensures Settles(t) ==> SettledIn(trace, index, SettlementOf(t.reply.value))
      ensures active.Some? ==> control.Raise?
      ensures deferred == if control.Proceed? then Some((index, REJECTED)) else None
      ensures control.Proceed? ==>
                phase.next == index + 1 && phase.unconfirmed.None? && reply.Some? && !reply.value.candidate
      ensures control.Leave? ==> phase.unconfirmed.None? && phase.reply.Some? && Usable(phase.reply.value.1)
      ensures TurnLeadsTo(t, hasLater, control)
    {
      control, deferred, reply := Raise, None, None;
      if !t.statusWritten { return; }
      reply := Send(index, t, job, found);
      if reply.None? { return; }
      var settled := SettleReply(index, t, reply.value, job, found);
      if !settled { return; }
      ghost var settledTrace := trace;
      assert settledTrace[|settledTrace| - 1] == Resolved(index, SettlementOf(reply.value));
      control, deferred := Conclude(index, t, reply.value, hasLater, job, found);
      SettledGrows(settledTrace, trace, index, SettlementOf(reply.value));
    }

    // An admitted candidate, after others that were all switched on.
    method Pursue(index: nat, t: Turn, hasLater: bool, ghost before: set<nat>, ghost job: Job, ghost found: set<nat>)
      returns (control: Control, deferred: Option<(nat, L.FailureClass)>, result: Option<Reply>)
      requires Running(job, found, None) && index < |job.turns| && t == job.turns[index]
      requires hasLater == (index + 1 < |job.turns|) && active.Some? && current == index
      requires phase == Phase(index + 1, Some(index), None, None, false, None, None)
      requires admitted == before + {index} && index !in before
      requires AllSwitched(job.turns, before) && AllSettled(job.turns, before, trace)
      requires forall i :: i in before ==> i < |job.turns| && !LeavesOpen(job.turns[i])
      modifies this, budget
      ensures Running(job, found, None) && Owes(deferred) && OpenIs(job.turns)
      ensures admitted == old(admitted) && AllSettled(job.turns, admitted, trace)
      ensures if control.Proceed? then AllSwitched(job.turns, admitted) else Explains(job.turns, admitted, control)
      ensures control.Proceed? ==> AtHead(job, found, index + 1, deferred, result)
      ensures active.Some? ==> control.Raise?
      ensures control.Leave? ==> deferred.None? && phase.unconfirmed.None? && phase.reply.Some?
                                 && Usable(phase.reply.value.1)
    {
      control, deferred, result := Attempt(index, t, hasLater, job, found);
      LastExplains(job.turns, before, index, control);
      AllSettledGrow(job.turns, before, old(trace), trace, index);
    }

    // One pass of the loop: skip the candidate, or admit and try it.
    method TryOne(index: nat, t: Turn, taskId: string, token: nat, hasLater: bool,
                  deferred: Option<(nat, L.FailureClass)>, result: Option<Reply>, ghost job: Job, ghost found: set<nat>)
      returns (control: Control, deferred': Option<(nat, L.FailureClass)>, result': Option<Reply>)
      requires AtHead(job, found, index, deferred, result) && index < |job.turns| && t == job.turns[index]
      requires hasLater == (index + 1 < |job.turns|) && taskId == job.taskId && token == job.token
      requires AllSwitched(job.turns, admitted) && index !in admitted
      modifies this, budget
      ensures Running(job, found, None) && Owes(deferred') && OpenIs(job.turns)
      ensures old(admitted) <= admitted <= old(admitted) + {index} && AllSettled(job.turns, admitted, trace)
      ensures if control.Proceed? then AllSwitched(job.turns, admitted) else Explains(job.turns, admitted, control)
      ensures control.Proceed? ==> AtHead(job, found, index + 1, deferred', result')
      ensures active.Some? ==> control.Raise?
      ensures control.Leave? ==> deferred'.None? && phase.unconfirmed.None? && phase.reply.Some?
                                 && Usable(phase.reply.value.1)
      ensures index == 0 && FirstIsAdmitted(job, old(budget.State())) ==> 0 in admitted
    {
      deferred', result' := deferred, result;
      RefusedExplains(job.turns, admitted, Raise);
      if t.bound.None? || !t.leaseHeld { return Raise, deferred, result; }
      if !t.routable { return Proceed, deferred, result; }
      ghost var before := admitted;
      var reply := Admit(index, t, taskId, token, deferred, result, job, found);
      if reply.Err? {
        control := if reply.error.Blocked? || reply.error.Stopped? then Return(Sleeping) else Raise;
        RefusedExplains(job.turns, admitted, control);
        return;
      }
      StillSettled(job.turns, before, old(trace), trace);
      control, deferred', result' := Pursue(index, t, hasLater, before, job, found);
    }

    // The candidate loop and what follows it, up to the first exit.
    method Loop(taskId: string, token: nat, turns: seq<Turn>, ending: Ending, ghost found: set<nat>)
      returns (control: Control, deferred: Option<(nat, L.FailureClass)>)
      requires AtHead(Job(worker, taskId, token, turns), found, 0, None, None)
      modifies this, budget
      ensures Running(Job(worker, taskId, token, turns), found, None) && Owes(deferred) && OpenIs(turns)
      ensures AllSettled(turns, admitted, trace)
      ensures FirstIsAdmitted(Job(worker, taskId, token, turns), old(budget.State())) ==> 0 in admitted
      ensures control.Return? || control.Raise?
      ensures active.Some? ==> control.Raise?
      ensures control == Return(Completed) ==>
                deferred.None? && phase.unconfirmed.None? && phase.reply.Some? && Usable(phase.reply.value.1)
      ensures VerdictFollows(turns, admitted, ending, VerdictOf(control))
      ensures active.Some? ==> VerdictFollows(turns, admitted, ending, Escaped)
      ensures control.Return? ==> control.verdict in {Sleeping, Rejected, Completed}
    {
      ghost var job := Job(worker, taskId, token, turns);
      deferred := None;
      var result: Option<Reply> := None;
      for index := 0 to |turns|
        invariant AtHead(job, found, index, deferred, result)
        invariant index == 0 ==> budget.State() == old(budget.State())
        invariant index > 0 && FirstIsAdmitted(job, old(budget.State())) ==> 0 in admitted
        invariant AllSwitched(turns, admitted) && forall i :: i in admitted ==> i < index
      {
        control, deferred, result :=
          TryOne(index, turns[index], taskId, token, index + 1 < |turns|, deferred, result, job, found);
        if !control.Proceed? {
          VerdictExplained(turns, admitted, ending, control);
          if control.Leave? { control := OfEnding(ending); }
          return;
        }
      }
      // Every candidate skipped: sleep. Otherwise the last reply tried carries no candidate.
      control := if result.None? then Return(Sleeping) else Raise;
      RefusedExplains(turns, admitted, control);
      VerdictExplained(turns, admitted, ending, control);
    }

    // `_process`. In its last clean-up the renewal thread must end before a hold is closed, and
    // `finalAt` is the clock read for that. The worker is left with a new pending hold exactly when
    // an admitted candidate left it open and the thread does not end or that clock is behind.
    method Process(taskId: string, token: nat, turns: seq<Turn>, ending: Ending, renewalEnded: bool, finalAt: real)
      returns (verdict: Verdict)
      requires Fresh() && forall i :: 0 <= i < |turns| ==> TurnOk(worker, turns[i])
      modifies this, budget
      ensures After(trace).Some? && AsScripted(Job(worker, taskId, token, turns), trace, None)
      ensures AreReserved(admitted, trace) && AllSettled(turns, admitted, trace)
      ensures forall i :: i in admitted ==> i < |turns|
      ensures verdict.Escaped? <==>
              exists i :: i in admitted && i < |turns| && LeavesOpen(turns[i])
                          && (!renewalEnded || finalAt < turns[i].reserveAt)
      ensures renewalEnded && (forall i :: 0 <= i < |turns| ==> turns[i].reserveAt <= finalAt) ==> !verdict.Escaped?
      ensures verdict.Raised? ==> !renewalEnded
      ensures !verdict.Escaped? ==>
                Closed(trace) && RecordsFollow(Job(worker, taskId, token, turns), trace)
                && PendingOf(budget.State(), worker) <= old(PendingOf(budget.State(), worker))
      ensures verdict.Escaped? ==>
                exists i :: i in PendingOf(budget.State(), worker) && i !in old(PendingOf(budget.State(), worker))
      ensures FirstIsAdmitted(Job(worker, taskId, token, turns), old(budget.State())) ==> 0 in admitted
      ensures renewalEnded ==> VerdictFollows(turns, admitted, ending, verdict)
      ensures verdict.Completed? ==>
                exists p, q :: 0 <= p < q < |trace| && trace[p].Executed? && Usable(trace[p].reply)
                               && trace[q] == Confirmed(trace[p].index)
    {
      ghost var job := Job(worker, taskId, token, turns);
      ghost var found := PendingOf(budget.State(), worker);
      assert AsScripted(job, trace, None) && AreReserved(admitted, trace);
      var control, deferred := Loop(taskId, token, turns, ending, found);
      CleanUp(deferred, renewalEnded, finalAt, job, found);
      verdict := if active.Some? then Escaped
                 else if !renewalEnded then Raised
                 else VerdictOf(control);
      if active.None? { ClosedRecordsFollow(job, trace); }
      if verdict.Completed? { CompletedWasConfirmed(trace); }
    }

    // The `finally` block: record what no switch completed, and mark an open hold uncertain unless the
    // wait for the renewal thread raises first.
    method CleanUp(deferred: Option<(nat, L.FailureClass)>, renewalEnded: bool, at: real, ghost job: Job,
                   ghost found: set<nat>)
      requires Running(job, found, None) && Owes(deferred) && AllSettled(job.turns, admitted, trace)
      modifies this`active, this`trace, this`phase, this`admitted, budget
      ensures Running(job, found, None) && Owes(None) && AllSettled(job.turns, admitted, trace)
      ensures admitted == old(admitted) && phase.unconfirmed == old(phase).unconfirmed
      ensures phase.reply == old(phase).reply
      ensures active == if old(active).Some? && (!renewalEnded || at < old(active).value.createdAt) then old(active)
                        else None
    {
      if deferred.Some? {
        Emit(Recorded(deferred.value.0, deferred.value.1, None), job, None);
      }
      if renewalEnded && active.Some? {
        MarkUncertain(at, job, found);
      }
      StillSettled(job.turns, admitted, old(trace), trace);
    }
  }

  // A run that leaves a hold pending: the status file fails right after the reservation, and the
  // clean-up reads a clock behind it.
  method LeavesPending() returns (chain: CandidateChain, verdict: Verdict)
    ensures fresh(chain) && fresh(chain.budget)
    ensures verdict == Escaped && PendingOf(chain.budget.State(), chain.worker) != {}
  {
    var limits := M.Limits(1, 1, 1, 100.0);
    var policy := M.Policy(10, 1.0, 10, 1.0, None, limits, true, Some(1.0), false, false);
    var budget := new BudgetLedger(policy, 0.0);
    var bound := M.Bound("p", "m", 1, 1, false, false, None);
    chain := new CandidateChain(budget, "w");
    var turn := Turn(Some(bound), true, true, [], 5.0, false, true, true, None, [], 5.0, 5.0, false, true, true, true,
                     true);
    assert TurnOk("w", turn);
    FirstReservation(policy, bound);
    assert FirstIsAdmitted(Job("w", "t", 1, [turn]), budget.State());
    verdict := chain.Process("t", 1, [turn], EndingRaises, true, 0.0);
    assert LeavesOpen([turn][0]);
  }

  lemma FirstReservation(policy: M.Policy, bound: M.Bound)
    requires bound == M.Bound("p", "m", 1, 1, false, false, None)
    requires policy == M.Policy(10, 1.0, 10, 1.0, None, M.Limits(1, 1, 1, 100.0), true, Some(1.0), false, false)
    ensures M.Reserve(M.Budget(policy, 0.0, [], None), "w", "t", bound, Some(RequestIds.RequestId("t", 1, 0)),
                      5.0).1.Ok?
  {
    var id := RequestIds.RequestId("t", 1, 0);
    assert !Blank("w") by { assert "w"[0] == 'w'; }
    assert !Blank("t") by { assert "t"[0] == 't'; }
    assert !Blank(id) by { assert id[0] == 't'; }
  }
}
