// One processing attempt as a script: what the outside world answers, and what a trace that follows
// the script contains.
module ChainScripts {
  import opened Wrappers
  import opened ChainProtocol
  import L = FaultLog
  import M = BudgetModel
  import B = BudgetSafety
  import RequestIds

  // ---- What the outside world answers while one candidate is tried ----

  datatype Turn = Turn(
    bound: Option<M.Bound>,       // none: computing the bound raises
    leaseHeld: bool,              // the renewal check before routing
    routable: bool,               // the breaker guard
    others: seq<B.Op>,            // other workers' budget transactions before the reservation
    reserveAt: real,
    statusWritten: bool,
    prepared: bool,               // lease check, snapshot and experience all succeed
    begun: bool,                  // the task ledger accepts the begin
    reply: Option<Reply>,         // none: the executor raises
    meanwhile: seq<B.Op>,         // other workers' transactions while it runs
    abortAt: real,
    settleAt: real,
    stopped: bool,                // the settled snapshot sleeps for another than the three soft reasons
    checked: bool,                // status file and execution provenance
    confirmed: bool,              // the lease check passes and the task ledger accepts the confirmation
    reported: bool,               // the probe outcome is stored
    failAccepted: bool)           // the task ledger accepts the task's failure

  // What happens after the loop to a usable candidate: publish, validate, hand off, submit.
  datatype Ending = EndingRaises | EndingRejects | EndingCompletes

  // The last two are exceptions out of the clean-up: one with nothing open, one past an open hold.
  datatype Verdict = Completed | Rejected | Sleeping | Failed | Raised | Escaped

  datatype Control = Proceed | Leave | Return(verdict: Verdict) | Raise

  function OfEnding(e: Ending): Control {
    match e
    case EndingRaises => Raise
    case EndingRejects => Return(Rejected)
    case EndingCompletes => Return(Completed)
  }

  function Identity(b: M.Bound): string {
    b.provider + ":" + b.model
  }

  predicate ByOthers(worker: string, op: B.Op) {
    match op
    case DoReserve(w, _, _, _, _, _) => w != worker
    case DoSettle(r, _, _, _, _) => r.worker != worker
    case DoReject(r, _, _) => r.worker != worker
    case Idle(_) => true
  }

  predicate TurnOk(worker: string, t: Turn) {
    && (forall i :: 0 <= i < |t.others| ==> ByOthers(worker, t.others[i]))
    && (forall i :: 0 <= i < |t.meanwhile| ==> ByOthers(worker, t.meanwhile[i]))
  }

  // One worker's attempt at one task.
  datatype Job = Job(worker: string, taskId: string, token: nat, turns: seq<Turn>)

  predicate JobOk(job: Job) {
    forall i :: 0 <= i < |job.turns| ==> TurnOk(job.worker, job.turns[i])
  }

  // Other workers' transactions, in order.
  function Others(b: M.Budget, ops: seq<B.Op>): M.Budget {
    if ops == [] then b else B.BudgetStep(Others(b, ops[..|ops| - 1]), ops[|ops| - 1])
  }

  // ---- What a script says about its own turns ----

  // Where the classification of a settled reply is judged, if it is: after the checks and the
  // confirmation, at once when the effect is uncertain, and by `decide` when the loop gets that far.
  function JudgeOf(t: Turn, r: Reply, hasLater: bool): Option<Judge> {
    if !t.checked || (Confirmable(r) && !t.confirmed) then None
    else if r.uncertain && !Rejection(r) then Some(AsUncertain)
    else if t.stopped || !t.reported || Usable(r) || r.classification.None? then None
    else Some(ByDecide(hasLater))
  }

  // The failure a candidate's settled reply must be recorded with.
  function FailureDue(job: Job, i: nat): Option<L.FailureClass> {
    if i >= |job.turns| || job.turns[i].reply.None? then None
    else
      var reply := job.turns[i].reply.value;
      var judge := JudgeOf(job.turns[i], reply, i + 1 < |job.turns|);
      if judge.None? then None
      else
        var due := DueOf(i, reply.classification, judge.value);
        if due.Some? then Some(due.value.failure) else None
  }

  // ---- Where a settled reply leads, by its own facts ----

  predicate ClassIs(r: Reply, failure: L.FailureClass) {
    r.classification == Some(Known(failure))
  }

  // The request is known to have had its effect, or none: certain and not of unknown effect, or a
  // confirmed rejection.
  predicate EffectKnown(r: Reply) {
    ClassIs(r, L.ConfirmedRejection) || (!r.uncertain && !ClassIs(r, L.UnknownEffect))
  }

  predicate OpenEffect(r: Reply) {
    r.uncertain && !ClassIs(r, L.ConfirmedRejection)
  }

  // A candidate that may be used: even a certain one is not, when its effect is unknown.
  predicate Usability(r: Reply) {
    r.candidate && !ClassIs(r, L.UnknownEffect)
  }

  // Status and provenance hold, and a known effect was confirmed.
  predicate Cleared(t: Turn, r: Reply) {
    t.checked && (EffectKnown(r) ==> t.confirmed)
  }

  // The loop gets to use or judge the reply: no open effect, no stop, the probe outcome reported.
  predicate Judgeable(t: Turn, r: Reply) {
    Cleared(t, r) && !OpenEffect(r) && !t.stopped && t.reported
  }

  // The worker sleeps on an open effect, a stopped budget, an exhausted one, or an unknown effect.
  predicate SleepsOn(t: Turn, r: Reply) {
    || (Cleared(t, r) && OpenEffect(r) && t.reported)
    || (Cleared(t, r) && !OpenEffect(r) && t.stopped)
    || (Judgeable(t, r) && !Usability(r) && (ClassIs(r, L.BudgetExhausted) || ClassIs(r, L.UnknownEffect)))
  }

  // The task is failed on a missing candidate, a local failure, a capability mismatch, or a
  // rejection with no candidate left, if the ledger takes the failure.
  predicate RejectsOn(t: Turn, r: Reply, hasLater: bool) {
    && Judgeable(t, r) && !Usability(r) && t.failAccepted
    && (|| r.classification.None? || r.classification.value.Unrecognized? || ClassIs(r, L.CapabilityMismatch)
        || (ClassIs(r, L.ConfirmedRejection) && !hasLater))
  }

  // The next candidate follows a confirmed rejection, and nothing else.
  predicate SwitchesOn(t: Turn, r: Reply, hasLater: bool) {
    Judgeable(t, r) && !Usability(r) && ClassIs(r, L.ConfirmedRejection) && hasLater
  }

  predicate UsesOn(t: Turn, r: Reply) {
    Judgeable(t, r) && Usability(r)
  }

  // The control a settled reply leads to; anything else raises.
  predicate LeadsTo(t: Turn, r: Reply, hasLater: bool, control: Control) {
    && (control == Return(Sleeping) <==> SleepsOn(t, r))
    && (control == Return(Rejected) <==> RejectsOn(t, r, hasLater))
    && (control == Proceed <==> SwitchesOn(t, r, hasLater))
    && (control == Leave <==> UsesOn(t, r))
    && (control.Return? ==> control.verdict in {Sleeping, Rejected})
  }

  // The branches behind a settled and cleared reply, in their order.
  function Followed(t: Turn, r: Reply, hasLater: bool): Control {
    var reject := if t.failAccepted then Return(Rejected) else Raise;
    if r.uncertain && !Rejection(r) then if t.reported then Return(Sleeping) else Raise
    else if t.stopped then Return(Sleeping)
    else if !t.reported then Raise
    else if Usable(r) then Leave
    else match Decide(r.classification, hasLater).0
      case Switch => Proceed
      case StopBudgetExhausted => Return(Sleeping)
      case StopUnknownEffect => Return(Sleeping)
      case _ => reject
  }

  lemma FollowedLeads(t: Turn, r: Reply, hasLater: bool)
    ensures LeadsTo(t, r, hasLater,
                    if t.checked && (Confirmable(r) ==> t.confirmed) then Followed(t, r, hasLater) else Raise)
  {
  }

  // Where a tried candidate leads: an unsettled one raises.
  predicate TurnLeadsTo(t: Turn, hasLater: bool, control: Control) {
    if Settles(t) then LeadsTo(t, t.reply.value, hasLater, control) else control == Raise
  }

  predicate SleptAt(turns: seq<Turn>, i: nat) {
    i < |turns| && Settles(turns[i]) && SleepsOn(turns[i], turns[i].reply.value)
  }

  predicate RejectedAt(turns: seq<Turn>, i: nat) {
    i < |turns| && Settles(turns[i]) && RejectsOn(turns[i], turns[i].reply.value, i + 1 < |turns|)
  }

  predicate UsedAt(turns: seq<Turn>, i: nat) {
    i < |turns| && Settles(turns[i]) && UsesOn(turns[i], turns[i].reply.value)
  }

  predicate SwitchedAt(turns: seq<Turn>, i: nat) {
    i < |turns| && Settles(turns[i]) && SwitchesOn(turns[i], turns[i].reply.value, i + 1 < |turns|)
  }

  // Every candidate tried so far was a rejection to switch on.
  predicate AllSwitched(turns: seq<Turn>, admitted: set<nat>) {
    forall i :: i in admitted ==> SwitchedAt(turns, i)
  }

  // How the loop over the candidates ends: as one of the tried ones leads, or asleep when each was
  // switched on and the next was refused, or none was routable.
  predicate Explains(turns: seq<Turn>, admitted: set<nat>, control: Control) {
    && (forall i :: i in admitted ==>
          && (SleptAt(turns, i) ==> control == Return(Sleeping))
          && (RejectedAt(turns, i) ==> control == Return(Rejected))
          && (UsedAt(turns, i) ==> control == Leave))
    && (control == Return(Rejected) ==> exists i :: i in admitted && RejectedAt(turns, i))
    && (control == Leave ==> exists i :: i in admitted && UsedAt(turns, i))
    && (control == Return(Sleeping) ==>
          (exists i :: i in admitted && SleptAt(turns, i)) || AllSwitched(turns, admitted))
    && (control.Return? ==> control.verdict in {Sleeping, Rejected})
  }

  lemma LastExplains(turns: seq<Turn>, admitted: set<nat>, index: nat, control: Control)
    requires AllSwitched(turns, admitted) && index < |turns| && index !in admitted
    requires TurnLeadsTo(turns[index], index + 1 < |turns|, control)
    ensures if control == Proceed then AllSwitched(turns, admitted + {index})
            else Explains(turns, admitted + {index}, control)
  {
    assert index in admitted + {index};
    assert SleptAt(turns, index) <==> control == Return(Sleeping);
    assert RejectedAt(turns, index) <==> control == Return(Rejected);
    assert UsedAt(turns, index) <==> control == Leave;
    assert SwitchedAt(turns, index) <==> control == Proceed;
    forall i | i in admitted
      ensures !SleptAt(turns, i) && !RejectedAt(turns, i) && !UsedAt(turns, i)
    {
      assert SwitchedAt(turns, i);
    }
  }

  lemma RefusedExplains(turns: seq<Turn>, admitted: set<nat>, control: Control)
    requires AllSwitched(turns, admitted) && (control == Return(Sleeping) || control == Raise)
    ensures Explains(turns, admitted, control)
  {
    forall i | i in admitted
      ensures !SleptAt(turns, i) && !RejectedAt(turns, i) && !UsedAt(turns, i)
    {
      assert SwitchedAt(turns, i);
    }
  }

  // The verdict of an attempt whose renewal thread ended: what the loop and, for a usable candidate,
  // its publication lead to.
  predicate VerdictFollows(turns: seq<Turn>, admitted: set<nat>, ending: Ending, verdict: Verdict) {
    && (forall i :: i in admitted ==>
          && (SleptAt(turns, i) ==> verdict == Sleeping) && (RejectedAt(turns, i) ==> verdict == Rejected)
          && (UsedAt(turns, i) ==>
                verdict == match ending
                           case EndingRaises => Failed
                           case EndingRejects => Rejected
                           case EndingCompletes => Completed))
    && (verdict == Completed ==> exists i :: i in admitted && UsedAt(turns, i))
    && (verdict == Rejected ==> exists i :: i in admitted && (RejectedAt(turns, i) || UsedAt(turns, i)))
    && (verdict == Sleeping ==> (exists i :: i in admitted && SleptAt(turns, i)) || AllSwitched(turns, admitted))
  }

  // An admitted turn after which the hold is still open: the clock read before closing it was
  // behind the reservation, or the status file failed first.
  predicate LeavesOpen(t: Turn) {
    if !t.statusWritten then true
    else if !t.prepared || !t.begun || t.reply.None? then t.abortAt < t.reserveAt
    else t.settleAt < t.reserveAt
  }

  // An admitted turn whose reply settles its hold.
  predicate Settles(t: Turn) {
    t.statusWritten && t.prepared && t.begun && t.reply.Some? && t.settleAt >= t.reserveAt
  }

  // ---- Traces that follow a script ----

  predicate EffectOk(job: Job, e: Effect) {
    match e
    case Reserved(i, identity, r) =>
      && i < |job.turns| && job.turns[i].bound.Some? && identity == Identity(job.turns[i].bound.value)
      && r.worker == job.worker && r.taskId == job.taskId && r.bound == job.turns[i].bound.value
      && r.requestId == RequestIds.RequestId(job.taskId, job.token, i) && r.createdAt == job.turns[i].reserveAt
    case Executed(i, r) => i < |job.turns| && job.turns[i].reply == Some(r)
    case Resolved(i, how) =>
      !how.Abandoned? ==>
        i < |job.turns| && job.turns[i].reply.Some? && how == SettlementOf(job.turns[i].reply.value)
    case Confirmed(i) => i < |job.turns| && job.turns[i].confirmed
    case Judged(i, c, judge) =>
      i < |job.turns| && job.turns[i].reply.Some? && c == job.turns[i].reply.value.classification
      && JudgeOf(job.turns[i], job.turns[i].reply.value, i + 1 < |job.turns|) == Some(judge)
    case _ => true
  }

  predicate JudgedAfter(trace: seq<Effect>, p: nat, i: nat, c: Option<Classification>, judge: Judge) {
    exists q :: p < q < |trace| && trace[q] == Judged(i, c, judge)
  }

  // A settled reply is judged where the script says, unless its judgement is still to come.
  predicate PositionOk(job: Job, trace: seq<Effect>, p: nat, waiting: Option<nat>)
    requires p < |trace|
  {
    var e := trace[p];
    && EffectOk(job, e)
    && (Answered(e) && waiting != Some(e.index) ==>
          var reply := job.turns[e.index].reply.value;
          var judge := JudgeOf(job.turns[e.index], reply, e.index + 1 < |job.turns|);
          judge.Some? ==> JudgedAfter(trace, p, e.index, reply.classification, judge.value))
  }

  predicate AsScripted(job: Job, trace: seq<Effect>, waiting: Option<nat>) {
    forall p :: 0 <= p < |trace| ==> PositionOk(job, trace, p, waiting)
  }

  function WaitingAfter(waiting: Option<nat>, e: Effect): Option<nat> {
    if Answered(e) then Some(e.index)
    else if e.Judged? && waiting == Some(e.index) then None
    else waiting
  }

  lemma Extends(job: Job, trace: seq<Effect>, waiting: Option<nat>, e: Effect)
    requires AsScripted(job, trace, waiting) && EffectOk(job, e) && (Answered(e) ==> waiting.None?)
    ensures AsScripted(job, trace + [e], WaitingAfter(waiting, e))
  {
    var longer := trace + [e];
    forall p | 0 <= p < |longer|
      ensures PositionOk(job, longer, p, WaitingAfter(waiting, e))
    {
      if p < |trace| {
        assert PositionOk(job, trace, p, waiting) && longer[p] == trace[p];
        var i := if Answered(trace[p]) then trace[p].index else 0;
        if Answered(trace[p]) && WaitingAfter(waiting, e) != Some(i) {
          var reply := job.turns[i].reply.value;
          var judge := JudgeOf(job.turns[i], reply, i + 1 < |job.turns|);
          if judge.Some? {
            if waiting == Some(i) {
              assert longer[|trace|] == Judged(i, reply.classification, judge.value);
            } else {
              var q :| p < q < |trace| && trace[q] == Judged(i, reply.classification, judge.value);
              assert longer[q] == trace[q];
            }
            assert JudgedAfter(longer, p, i, reply.classification, judge.value);
          }
        }
      }
    }
  }

  // A reply the script does not judge is not waited for.
  lemma NothingToJudge(job: Job, trace: seq<Effect>, i: nat)
    requires AsScripted(job, trace, Some(i)) && i < |job.turns| && job.turns[i].reply.Some?
    requires JudgeOf(job.turns[i], job.turns[i].reply.value, i + 1 < |job.turns|).None?
    ensures AsScripted(job, trace, None)
  {
    forall p | 0 <= p < |trace|
      ensures PositionOk(job, trace, p, None)
    {
      assert PositionOk(job, trace, p, Some(i));
    }
  }

  // Every settled reply whose failure is due is recorded once, naming the candidate reserved next
  // or none, and nothing else is recorded.
  ghost predicate RecordsFollow(job: Job, trace: seq<Effect>) {
    && (forall p :: 0 <= p < |trace| && Answered(trace[p]) && FailureDue(job, trace[p].index).Some? ==>
          RecordedOnce(trace, p, trace[p].index, FailureDue(job, trace[p].index).value))
    && (forall q :: 0 <= q < |trace| && trace[q].Recorded? ==>
          FailureDue(job, trace[q].index) == Some(trace[q].failure))
  }

  lemma DueIsRecorded(job: Job, trace: seq<Effect>, p: nat)
    requires Closed(trace) && AsScripted(job, trace, None) && p < |trace| && Answered(trace[p])
    requires FailureDue(job, trace[p].index).Some?
    ensures RecordedOnce(trace, p, trace[p].index, FailureDue(job, trace[p].index).value)
  {
    assert PositionOk(job, trace, p, None);
    var i := trace[p].index;
    var reply := job.turns[i].reply.value;
    var judge := JudgeOf(job.turns[i], reply, i + 1 < |job.turns|).value;
    var d :| p < d < |trace| && trace[d] == Judged(i, reply.classification, judge);
    SettledThenRecorded(trace, p, d);
  }

  lemma ClosedRecordsFollow(job: Job, trace: seq<Effect>)
    requires Closed(trace) && AsScripted(job, trace, None)
    ensures RecordsFollow(job, trace)
  {
    forall p | 0 <= p < |trace| && Answered(trace[p]) && FailureDue(job, trace[p].index).Some?
      ensures RecordedOnce(trace, p, trace[p].index, FailureDue(job, trace[p].index).value)
    {
      DueIsRecorded(job, trace, p);
    }
    forall q | 0 <= q < |trace| && trace[q].Recorded?
      ensures FailureDue(job, trace[q].index) == Some(trace[q].failure)
    {
      RecordsAreJudged(trace, q);
      var d :| 0 <= d < q && FailureJudged(trace[d]) && trace[d].index == trace[q].index
               && FailureOf(trace[d]) == trace[q].failure;
      assert PositionOk(job, trace, d, None);
    }
  }

  predicate SettledIn(trace: seq<Effect>, i: nat, how: Settlement) {
    exists p :: 0 <= p < |trace| && trace[p] == Resolved(i, how)
  }

  // Every admitted candidate whose reply settles its hold is seen to be settled by it.
  predicate AllSettled(turns: seq<Turn>, admitted: set<nat>, trace: seq<Effect>) {
    forall i :: i in admitted && i < |turns| && Settles(turns[i]) ==>
                  SettledIn(trace, i, SettlementOf(turns[i].reply.value))
  }

  lemma SettledGrows(trace: seq<Effect>, trace': seq<Effect>, i: nat, how: Settlement)
    requires trace <= trace' && SettledIn(trace, i, how)
    ensures SettledIn(trace', i, how)
  {
    var p :| 0 <= p < |trace| && trace[p] == Resolved(i, how);
    assert trace'[p] == trace[p];
  }

  lemma StillSettled(turns: seq<Turn>, admitted: set<nat>, trace: seq<Effect>, trace': seq<Effect>)
    requires trace <= trace' && AllSettled(turns, admitted, trace)
    ensures AllSettled(turns, admitted, trace')
  {
    forall i | i in admitted && i < |turns| && Settles(turns[i])
      ensures SettledIn(trace', i, SettlementOf(turns[i].reply.value))
    {
      SettledGrows(trace, trace', i, SettlementOf(turns[i].reply.value));
    }
  }

  lemma AllSettledGrow(turns: seq<Turn>, admitted: set<nat>, trace: seq<Effect>, trace': seq<Effect>, index: nat)
    requires trace <= trace' && AllSettled(turns, admitted, trace) && index < |turns|
    requires Settles(turns[index]) ==> SettledIn(trace', index, SettlementOf(turns[index].reply.value))
    ensures AllSettled(turns, admitted + {index}, trace')
  {
    StillSettled(turns, admitted, trace, trace');
  }

  // The candidates reserved in a trace.
  ghost predicate AreReserved(admitted: set<nat>, trace: seq<Effect>) {
    && (forall p :: 0 <= p < |trace| && trace[p].Reserved? ==> trace[p].index in admitted)
    && (forall i :: i in admitted ==> exists p :: 0 <= p < |trace| && trace[p].Reserved? && trace[p].index == i)
  }

  lemma ReservedGrow(admitted: set<nat>, trace: seq<Effect>, e: Effect)
    requires AreReserved(admitted, trace)
    ensures AreReserved(if e.Reserved? then admitted + {e.index} else admitted, trace + [e])
  {
    var admitted' := if e.Reserved? then admitted + {e.index} else admitted;
    forall i | i in admitted'
      ensures exists p :: 0 <= p < |trace + [e]| && (trace + [e])[p].Reserved? && (trace + [e])[p].index == i
    {
      if i in admitted {
        var p :| 0 <= p < |trace| && trace[p].Reserved? && trace[p].index == i;
        assert (trace + [e])[p] == trace[p];
      } else {
        assert (trace + [e])[|trace|] == e;
      }
    }
  }

  // A trace that ends with everything confirmed confirmed its last reply.
  lemma CompletedWasConfirmed(trace: seq<Effect>)
    requires After(trace).Some? && After(trace).value.reply.Some? && After(trace).value.unconfirmed.None?
    requires Usable(After(trace).value.reply.value.1)
    ensures exists p, q :: 0 <= p < q < |trace| && trace[p].Executed? && Usable(trace[p].reply)
                           && trace[q] == Confirmed(trace[p].index)
  {
    Ends(trace);
    ReplyWasExecuted(trace, |trace|);
    var reply := At(trace, |trace|).reply.value;
    var p :| 0 <= p < |trace| && trace[p] == Executed(reply.0, reply.1);
    SendsAreAdmitted(trace, p);
    var b :| 0 <= b < p && trace[b] == Began(trace[p].index);
    if forall q :: b < q < |trace| ==> trace[q] != Confirmed(trace[b].index) {
      UnconfirmedUntil(trace, b, |trace|);
    }
    var q :| b < q < |trace| && trace[q] == Confirmed(trace[b].index);
    OneStep(trace, p);
    OneStep(trace, q);
    ReplyIndexReserved(trace, q);
    if q < p {
      NeverActiveAgain(trace, q, p, trace[p].index);
    }
  }

  function VerdictOf(control: Control): Verdict {
    if control.Return? then control.verdict else Failed
  }

  // The verdict is the loop's, with a usable candidate's publication in the place of leaving it.
  lemma VerdictExplained(turns: seq<Turn>, admitted: set<nat>, ending: Ending, reached: Control)
    requires Explains(turns, admitted, reached)
    ensures VerdictFollows(turns, admitted, ending,
                           VerdictOf(if reached.Leave? then OfEnding(ending) else reached))
    ensures reached == Raise ==> VerdictFollows(turns, admitted, ending, Escaped)
  {
  }

  // A failure is to be recorded exactly when the reply was cleared, is classified as that failure, and
  // either leaves its effect open or is judged without a usable candidate.
  lemma FailureDueExactly(job: Job, i: nat, failure: L.FailureClass)
    requires i < |job.turns| && job.turns[i].reply.Some?
    ensures var t, r := job.turns[i], job.turns[i].reply.value;
            FailureDue(job, i) == Some(failure) <==>
            ClassIs(r, failure)
            && (if OpenEffect(r) then Cleared(t, r) else Judgeable(t, r) && !Usability(r))
  {
  }
}
