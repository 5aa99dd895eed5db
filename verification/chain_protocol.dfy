// The candidate chain's protocol: which effects one processing attempt may have, in which order.
module ChainProtocol {
  import opened Wrappers
  import L = FaultLog
  import M = BudgetModel

  datatype Classification = Known(failure: L.FailureClass) | Unrecognized(name: string)

  const REJECTED: L.FailureClass := L.ConfirmedRejection

  // What an executor reported for one request.
  datatype Reply = Reply(candidate: bool, uncertain: bool, classification: Option<Classification>,
                         usage: Option<M.Usage>, httpError: bool)

  datatype Action = Switch | StopUnknownEffect | StopBudgetExhausted | StopCapabilityMismatch | StopLocalFailure
                  | ExitCandidatesRejected

  // `decide`: the action, and whether the outcome is recorded as a provider fault.
  function Decide(c: Option<Classification>, hasLater: bool): (Action, bool) {
    match c
    case Some(Known(ConfirmedRejection)) => (if hasLater then Switch else ExitCandidatesRejected, true)
    case Some(Known(UnknownEffect)) => (StopUnknownEffect, true)
    case Some(Known(BudgetExhausted)) => (StopBudgetExhausted, true)
    case Some(Known(CapabilityMismatch)) => (StopCapabilityMismatch, true)
    case _ => (StopLocalFailure, false)
  }

  predicate Rejection(r: Reply) {
    r.classification == Some(Known(REJECTED))
  }

  predicate Confirmable(r: Reply) {
    r.classification != Some(Known(L.UnknownEffect)) && (!r.uncertain || Rejection(r))
  }

  predicate Usable(r: Reply) {
    r.candidate && r.classification != Some(Known(L.UnknownEffect))
  }

  // How a hold was closed: by the four settlements of a reply, or by a clean-up.
  datatype Settlement = ByUsage | StoppedOnError | HeldUncertain | HeldRejection | Abandoned

  function SettlementOf(r: Reply): Settlement {
    if r.httpError then StoppedOnError
    else if r.uncertain then if Rejection(r) then HeldRejection else HeldUncertain
    else ByUsage
  }

  // Where a reply's classification is judged: by `decide`, or as an unknown effect that ends the chain.
  datatype Judge = ByDecide(hasLater: bool) | AsUncertain

  datatype Effect =
    | Reserved(index: nat, identity: string, reservation: M.Reservation)
    | Began(index: nat)
    | Executed(index: nat, reply: Reply)
    | Resolved(index: nat, how: Settlement)
    | Confirmed(index: nat)
    | Judged(index: nat, classification: Option<Classification>, judge: Judge)
    | Recorded(index: nat, failure: L.FailureClass, switchedTo: Option<string>)

  // A failure still to be recorded; `switching` when the next candidate may follow.
  datatype Owed = Owed(index: nat, failure: L.FailureClass, switching: bool)

  // What a judgement makes the chain owe: every known classification, wherever it is judged.
  function DueOf(index: nat, c: Option<Classification>, judge: Judge): Option<Owed> {
    match judge
    case ByDecide(later) =>
      var (action, record) := Decide(c, later);
      if record then Some(Owed(index, c.value.failure, action.Switch?)) else None
    case AsUncertain =>
      if c.Some? && c.value.Known? then Some(Owed(index, c.value.failure, false)) else None
  }

  predicate FailureJudged(e: Effect) {
    e.Judged? && DueOf(e.index, e.classification, e.judge).Some?
  }

  // The failure a judgement is to be recorded with.
  function FailureOf(e: Effect): L.FailureClass
    requires FailureJudged(e)
  {
    DueOf(e.index, e.classification, e.judge).value.failure
  }

  // `next`: above every index reserved so far; `owed`: the failure still to be recorded, and
  // `switched` the candidate reserved since, if any.
  datatype Phase = Phase(next: nat, active: Option<nat>, unconfirmed: Option<nat>, reply: Option<(nat, Reply)>,
                         judged: bool, owed: Option<Owed>, switched: Option<string>)

  const INITIAL := Phase(0, None, None, None, false, None, None)

  // A candidate may be reserved first of all, or where `decide` said to switch.
  predicate MayReserve(p: Phase, index: nat) {
    && p.active.None? && p.unconfirmed.None? && index >= p.next
    && (|| (p.next == 0 && p.owed.None?)
        || (p.owed.Some? && p.owed.value.switching && p.switched.None?))
  }

  predicate Permits(p: Phase, e: Effect) {
    match e
    case Reserved(i, _, _) => MayReserve(p, i)
    case Began(i) => p.active == Some(i) && p.unconfirmed.None? && p.reply.None? && p.owed.None?
    case Executed(i, _) => p.active == Some(i) && p.unconfirmed == Some(i) && p.reply.None?
    case Resolved(i, how) =>
      p.active == Some(i)
      && (how == Abandoned || (p.reply.Some? && p.reply.value.0 == i && how == SettlementOf(p.reply.value.1)))
    case Confirmed(i) =>
      p.active.None? && p.unconfirmed == Some(i) && p.reply.Some? && p.reply.value.0 == i
      && Confirmable(p.reply.value.1)
    case Judged(i, c, judge) =>
      p.active.None? && p.reply.Some? && p.reply.value.0 == i && p.reply.value.1.classification == c
      && !p.judged && p.owed.None? && (Rejection(p.reply.value.1) ==> p.unconfirmed.None?)
      && (judge.AsUncertain? <==> p.reply.value.1.uncertain && !Rejection(p.reply.value.1))
    case Recorded(i, c, to) =>
      p.owed.Some? && p.owed.value.index == i && p.owed.value.failure == c && to == p.switched
  }

  function Advance(p: Phase, e: Effect): Phase {
    match e
    case Reserved(i, identity, _) =>
      p.(next := i + 1, active := Some(i), reply := None, judged := false,
         switched := if p.owed.Some? then Some(identity) else None)
    case Began(i) => p.(unconfirmed := Some(i))
    case Executed(i, r) => p.(reply := Some((i, r)))
    case Resolved(_, _) => p.(active := None)
    case Confirmed(_) => p.(unconfirmed := None)
    case Judged(i, c, judge) => p.(judged := true, owed := DueOf(i, c, judge), switched := None)
    case Recorded(_, _, _) => p.(owed := None, switched := None)
  }

  // The phase a permitted trace leads to.
  function After(trace: seq<Effect>): Option<Phase> {
    if trace == [] then Some(INITIAL)
    else
      var p, e := After(trace[..|trace| - 1]), trace[|trace| - 1];
      if p.Some? && Permits(p.value, e) then Some(Advance(p.value, e)) else None
  }

  // Nothing reserved is unsettled, nothing owed is unrecorded.
  predicate Closed(trace: seq<Effect>) {
    After(trace).Some? && After(trace).value.active.None? && After(trace).value.owed.None?
  }

  // ---- Walking a permitted trace ----

  lemma {:induction false} PrefixPermitted(trace: seq<Effect>, m: nat)
    requires After(trace).Some? && m <= |trace|
    ensures After(trace[..m]).Some?
    decreases |trace|
  {
    if m < |trace| {
      assert trace[..|trace| - 1][..m] == trace[..m];
      PrefixPermitted(trace[..|trace| - 1], m);
    } else {
      assert trace[..m] == trace;
    }
  }

  function At(trace: seq<Effect>, m: nat): Phase
    requires After(trace).Some? && m <= |trace|
  {
    PrefixPermitted(trace, m);
    After(trace[..m]).value
  }

  lemma OneStep(trace: seq<Effect>, m: nat)
    requires After(trace).Some? && m < |trace|
    ensures Permits(At(trace, m), trace[m]) && At(trace, m + 1) == Advance(At(trace, m), trace[m])
  {
    PrefixPermitted(trace, m + 1);
    assert trace[..m + 1][..m] == trace[..m];
  }

  lemma Ends(trace: seq<Effect>)
    requires After(trace).Some?
    ensures At(trace, |trace|) == After(trace).value
  {
    assert trace[..|trace|] == trace;
  }

  lemma {:induction false} NextGrows(trace: seq<Effect>, p: nat, m: nat)
    requires After(trace).Some? && p <= m <= |trace|
    ensures At(trace, p).next <= At(trace, m).next
    decreases m
  {
    if p < m {
      NextGrows(trace, p, m - 1);
      OneStep(trace, m - 1);
    }
  }

  // ---- Reservations ----

  // Candidate indices are reserved in order, each at most once.
  lemma IndicesIncrease(trace: seq<Effect>, p: nat, q: nat)
    requires After(trace).Some? && p < q < |trace| && trace[p].Reserved? && trace[q].Reserved?
    ensures trace[p].index < trace[q].index
  {
    OneStep(trace, p);
    NextGrows(trace, p + 1, q);
    OneStep(trace, q);
  }

  predicate ResolvedBetween(trace: seq<Effect>, p: nat, m: nat, index: nat) {
    exists q :: p < q < m <= |trace| && trace[q].Resolved? && trace[q].index == index
  }

  lemma {:induction false} ActiveUntilResolved(trace: seq<Effect>, p: nat, m: nat)
    requires After(trace).Some? && p < m <= |trace| && trace[p].Reserved?
    requires forall q :: p < q < m && trace[q].Resolved? ==> trace[q].index != trace[p].index
    ensures At(trace, m).active == Some(trace[p].index)
    decreases m
  {
    OneStep(trace, m - 1);
    if p < m - 1 {
      ActiveUntilResolved(trace, p, m - 1);
    }
  }

  lemma {:induction false} NeverActiveAgain(trace: seq<Effect>, p: nat, m: nat, index: nat)
    requires After(trace).Some? && p <= m <= |trace|
    requires At(trace, p).next > index && At(trace, p).active != Some(index)
    ensures At(trace, m).active != Some(index)
    decreases m
  {
    if p < m {
      NeverActiveAgain(trace, p, m - 1, index);
      NextGrows(trace, p, m - 1);
      OneStep(trace, m - 1);
    }
  }

  lemma ResolvedOnce(trace: seq<Effect>, p: nat, q: nat, q': nat)
    requires After(trace).Some? && p < q < q' < |trace| && trace[p].Reserved?
    requires trace[q].Resolved? && trace[q].index == trace[p].index
    ensures !(trace[q'].Resolved? && trace[q'].index == trace[p].index)
  {
    OneStep(trace, p);
    OneStep(trace, q);
    NextGrows(trace, p + 1, q + 1);
    NeverActiveAgain(trace, q + 1, q', trace[p].index);
    OneStep(trace, q');
  }

  // In a closed trace every reservation is settled or held exactly once, and before the next
  // reservation is made.
  lemma EveryReservationResolved(trace: seq<Effect>, p: nat)
    requires Closed(trace) && p < |trace| && trace[p].Reserved?
    ensures ResolvedBetween(trace, p, |trace|, trace[p].index)
    ensures forall q :: p < q < |trace| && trace[q].Reserved? ==> ResolvedBetween(trace, p, q, trace[p].index)
    ensures forall q, q' :: p < q < q' < |trace| && trace[q].Resolved? && trace[q].index == trace[p].index ==>
                              !(trace[q'].Resolved? && trace[q'].index == trace[p].index)
  {
    Ends(trace);
    if !ResolvedBetween(trace, p, |trace|, trace[p].index) {
      ActiveUntilResolved(trace, p, |trace|);
    }
    forall q | p < q < |trace| && trace[q].Reserved?
      ensures ResolvedBetween(trace, p, q, trace[p].index)
    {
      OneStep(trace, q);
      if !ResolvedBetween(trace, p, q, trace[p].index) { ActiveUntilResolved(trace, p, q); }
    }
    forall q, q' | p < q < q' < |trace| && trace[q].Resolved? && trace[q].index == trace[p].index
      ensures !(trace[q'].Resolved? && trace[q'].index == trace[p].index)
    {
      ResolvedOnce(trace, p, q, q');
    }
  }

  // ---- Sends and confirmations ----

  lemma {:induction false} ActiveWasReserved(trace: seq<Effect>, m: nat)
    requires After(trace).Some? && m <= |trace| && At(trace, m).active.Some?
    ensures exists p :: 0 <= p < m && trace[p].Reserved? && trace[p].index == At(trace, m).active.value
  {
    if m > 0 {
      OneStep(trace, m - 1);
      if !trace[m - 1].Reserved? { ActiveWasReserved(trace, m - 1); }
    }
  }

  lemma {:induction false} UnconfirmedBegan(trace: seq<Effect>, m: nat)
    requires After(trace).Some? && m <= |trace| && At(trace, m).unconfirmed.Some?
    ensures exists p :: 0 <= p < m && trace[p] == Began(At(trace, m).unconfirmed.value)
  {
    if m > 0 {
      OneStep(trace, m - 1);
      if !trace[m - 1].Began? { UnconfirmedBegan(trace, m - 1); }
    }
  }

  lemma {:induction false} ReplyWasExecuted(trace: seq<Effect>, m: nat)
    requires After(trace).Some? && m <= |trace| && At(trace, m).reply.Some?
    ensures exists p :: 0 <= p < m
                        && trace[p] == Executed(At(trace, m).reply.value.0, At(trace, m).reply.value.1)
  {
    if m > 0 {
      OneStep(trace, m - 1);
      if !trace[m - 1].Executed? { ReplyWasExecuted(trace, m - 1); }
    }
  }

  // No request is sent that was not admitted and marked begun first.
  lemma SendsAreAdmitted(trace: seq<Effect>, q: nat)
    requires After(trace).Some? && q < |trace| && trace[q].Executed?
    ensures exists p :: 0 <= p < q && trace[p].Reserved? && trace[p].index == trace[q].index
    ensures exists p :: 0 <= p < q && trace[p] == Began(trace[q].index)
  {
    OneStep(trace, q);
    ActiveWasReserved(trace, q);
    UnconfirmedBegan(trace, q);
  }

  // A confirmation answers a reply whose effect is known.
  lemma ConfirmsOnlyKnownEffects(trace: seq<Effect>, q: nat)
    requires After(trace).Some? && q < |trace| && trace[q].Confirmed?
    ensures exists p :: 0 <= p < q && trace[p].Executed? && trace[p].index == trace[q].index
                        && Confirmable(trace[p].reply)
  {
    OneStep(trace, q);
    ReplyWasExecuted(trace, q);
  }

  lemma {:induction false} UnconfirmedUntil(trace: seq<Effect>, p: nat, m: nat)
    requires After(trace).Some? && p < m <= |trace| && trace[p].Began?
    requires forall q :: p < q < m ==> trace[q] != Confirmed(trace[p].index)
    ensures At(trace, m).unconfirmed == Some(trace[p].index)
    decreases m
  {
    OneStep(trace, m - 1);
    if p < m - 1 {
      UnconfirmedUntil(trace, p, m - 1);
    }
  }

  // A request that began and was not confirmed is the last one: nothing is reserved, so nothing is
  // sent, after it.
  lemma UnconfirmedIsLast(trace: seq<Effect>, p: nat, q: nat)
    requires After(trace).Some? && p < q < |trace| && trace[p].Began? && trace[q].Reserved?
    ensures exists m :: p < m < q && trace[m] == Confirmed(trace[p].index)
  {
    OneStep(trace, q);
    if forall m :: p < m < q ==> trace[m] != Confirmed(trace[p].index) {
      UnconfirmedUntil(trace, p, q);
    }
  }

  // ---- Recorded failures ----

  // The first candidate reserved after position `p`, before `m`.
  function NextReserved(trace: seq<Effect>, p: nat, m: nat): Option<string>
    requires m <= |trace|
    decreases m
  {
    if m <= p + 1 then None
    else
      var earlier := NextReserved(trace, p, m - 1);
      if earlier.None? && trace[m - 1].Reserved? then Some(trace[m - 1].identity) else earlier
  }

  predicate RecordedBetween(trace: seq<Effect>, p: nat, m: nat, index: nat) {
    exists q :: p < q < m <= |trace| && trace[q].Recorded? && trace[q].index == index
  }

  lemma {:induction false} OwedUntilRecorded(trace: seq<Effect>, p: nat, m: nat)
    requires After(trace).Some? && p < m <= |trace| && FailureJudged(trace[p])
    requires forall q :: p < q < m && trace[q].Recorded? ==> trace[q].index != trace[p].index
    ensures At(trace, m).owed == DueOf(trace[p].index, trace[p].classification, trace[p].judge)
    ensures At(trace, m).switched == NextReserved(trace, p, m)
    decreases m
  {
    OneStep(trace, m - 1);
    if p < m - 1 {
      OwedUntilRecorded(trace, p, m - 1);
    }
  }

  lemma {:induction false} NextReservedStays(trace: seq<Effect>, p: nat, m: nat, m': nat)
    requires m <= m' <= |trace| && NextReserved(trace, p, m).Some?
    ensures NextReserved(trace, p, m') == NextReserved(trace, p, m)
    decreases m'
  {
    if m < m' {
      NextReservedStays(trace, p, m, m' - 1);
    }
  }

  // With nothing owed after a first reservation, no candidate is reserved any more.
  lemma {:induction false} NothingMore(trace: seq<Effect>, p: nat, q: nat, m: nat)
    requires After(trace).Some? && p < q <= m <= |trace|
    requires At(trace, q).next > 0 && At(trace, q).owed.None? && At(trace, q).judged
    requires NextReserved(trace, p, q).None?
    ensures NextReserved(trace, p, m).None? && At(trace, m).owed.None? && At(trace, m).judged
    ensures At(trace, m).next > 0
    decreases m
  {
    if q < m {
      NothingMore(trace, p, q, m - 1);
      OneStep(trace, m - 1);
    }
  }

  // Once judged, an index is never owed a second time.
  predicate Spent(p: Phase, index: nat) {
    p.next > index && p.active != Some(index) && (p.reply.Some? && p.reply.value.0 == index ==> p.judged)
  }

  lemma {:induction false} OwedOnce(trace: seq<Effect>, p: nat, m: nat, index: nat)
    requires After(trace).Some? && p <= m <= |trace| && Spent(At(trace, p), index)
    requires At(trace, p).owed.None? || At(trace, p).owed.value.index != index
    ensures Spent(At(trace, m), index) && (At(trace, m).owed.None? || At(trace, m).owed.value.index != index)
    decreases m
  {
    if p < m {
      OwedOnce(trace, p, m - 1, index);
      OneStep(trace, m - 1);
    }
  }

  lemma {:induction false} ReplyIndexReserved(trace: seq<Effect>, m: nat)
    requires After(trace).Some? && m <= |trace|
    ensures var p := At(trace, m);
            && (p.active.Some? ==> p.active.value < p.next)
            && (p.reply.Some? ==> p.reply.value.0 < p.next && (p.active.Some? ==> p.active.value == p.reply.value.0))
            && (p.judged ==> p.reply.Some? && p.active.None?)
            && (p.owed.Some? && p.switched.None? ==> p.reply.Some? && p.reply.value.0 == p.owed.value.index && p.judged)
            && (p.owed.None? ==> p.switched.None?)
            && (p.owed.Some? ==> p.owed.value.index < p.next
                                 && (p.active.Some? ==> p.owed.value.index < p.active.value)
                                 && (p.reply.Some? ==> p.owed.value.index <= p.reply.value.0)
                                 && (p.reply.Some? && p.reply.value.0 == p.owed.value.index ==> p.judged))
            && (p.active.Some? && p.reply.Some? ==> p.owed.None?)
            && (p.unconfirmed.Some? && p.active.Some? ==> p.owed.None?)
  {
    if m > 0 {
      ReplyIndexReserved(trace, m - 1);
      OneStep(trace, m - 1);
    }
  }

  lemma {:induction false} FirstRecorded(trace: seq<Effect>, p: nat, m: nat, index: nat) returns (q: nat)
    requires RecordedBetween(trace, p, m, index)
    ensures p < q < m <= |trace| && trace[q].Recorded? && trace[q].index == index
    ensures !RecordedBetween(trace, p, q, index)
    decreases m
  {
    q :| p < q < m <= |trace| && trace[q].Recorded? && trace[q].index == index;
    if RecordedBetween(trace, p, q, index) {
      q := FirstRecorded(trace, p, q, index);
    }
  }

  // A failure is recorded only after it was judged, and judged only once.
  lemma NotOwedBefore(trace: seq<Effect>, q: nat, p: nat)
    requires After(trace).Some? && q < p < |trace| && FailureJudged(trace[p]) && trace[q].Recorded?
    ensures trace[q].index != trace[p].index
  {
    OneStep(trace, q);
    OneStep(trace, p);
    ReplyIndexReserved(trace, q);
    if trace[q].index == trace[p].index {
      OwedOnce(trace, q + 1, p, trace[p].index);
    }
  }

  lemma FirstRecordNamesNext(trace: seq<Effect>, p: nat, q: nat)
    requires After(trace).Some? && p < q < |trace| && FailureJudged(trace[p])
    requires trace[q].Recorded? && trace[q].index == trace[p].index && !RecordedBetween(trace, p, q, trace[p].index)
    ensures trace[q] == Recorded(trace[p].index, FailureOf(trace[p]), NextReserved(trace, p, |trace|))
  {
    OwedUntilRecorded(trace, p, q);
    OneStep(trace, q);
    ReplyIndexReserved(trace, q);
    if NextReserved(trace, p, q).Some? {
      NextReservedStays(trace, p, q, |trace|);
    } else {
      NothingMore(trace, p, q + 1, |trace|);
    }
  }

  lemma NotRecordedTwice(trace: seq<Effect>, q: nat, q': nat)
    requires After(trace).Some? && q < q' < |trace| && trace[q].Recorded?
    ensures !(trace[q'].Recorded? && trace[q'].index == trace[q].index)
  {
    OneStep(trace, q);
    ReplyIndexReserved(trace, q);
    OwedOnce(trace, q + 1, q', trace[q].index);
    OneStep(trace, q');
  }

  // In a closed trace every judged failure is recorded exactly once, and its
  // `switched_to` names the next candidate actually reserved, or nothing when none was.
  lemma RecordedExactlyOnce(trace: seq<Effect>, p: nat)
    requires Closed(trace) && p < |trace| && FailureJudged(trace[p])
    ensures exists q :: p < q < |trace|
                        && trace[q] == Recorded(trace[p].index, FailureOf(trace[p]), NextReserved(trace, p, |trace|))
                        && forall q' :: 0 <= q' < |trace| && q' != q ==>
                                          !(trace[q'].Recorded? && trace[q'].index == trace[p].index)
  {
    Ends(trace);
    if !RecordedBetween(trace, p, |trace|, trace[p].index) { OwedUntilRecorded(trace, p, |trace|); }
    var q := FirstRecorded(trace, p, |trace|, trace[p].index);
    FirstRecordNamesNext(trace, p, q);
    forall q' | 0 <= q' < |trace| && q' != q
      ensures !(trace[q'].Recorded? && trace[q'].index == trace[p].index)
    {
      if q' > q {
        NotRecordedTwice(trace, q, q');
      } else if q' < p && trace[q'].Recorded? {
        NotOwedBefore(trace, q', p);
      }
    }
  }

  // Every reservation but the first answers a confirmed rejection that `decide` switched on.
  lemma OnlyRejectionsSwitch(trace: seq<Effect>, p: nat, q: nat)
    requires After(trace).Some? && p < q < |trace| && trace[p].Reserved? && trace[q].Reserved?
    ensures exists m :: p < m < q && FailureJudged(trace[m]) && FailureOf(trace[m]) == REJECTED
                        && trace[m].judge == ByDecide(true)
  {
    OneStep(trace, p);
    OneStep(trace, q);
    NextGrows(trace, p + 1, q);
    var m := OwedWasJudged(trace, q);
    if m < p {
      ReservedSeen(trace, m, p, q);
    }
  }

  lemma {:induction false} ReservedSeen(trace: seq<Effect>, m: nat, p: nat, q: nat)
    requires m < p < q <= |trace| && trace[p].Reserved?
    ensures NextReserved(trace, m, q).Some?
    decreases q
  {
    if p < q - 1 { ReservedSeen(trace, m, p, q - 1); }
  }

  lemma {:induction false} OwedWasJudged(trace: seq<Effect>, q: nat) returns (m: nat)
    requires After(trace).Some? && q <= |trace| && At(trace, q).owed.Some?
    ensures m < q && FailureJudged(trace[m])
    ensures At(trace, q).owed == DueOf(trace[m].index, trace[m].classification, trace[m].judge)
    ensures NextReserved(trace, m, q) == At(trace, q).switched
    decreases q
  {
    OneStep(trace, q - 1);
    if trace[q - 1].Judged? {
      m := q - 1;
    } else {
      m := OwedWasJudged(trace, q - 1);
    }
  }

  // ---- From the settlement of a reply to its record ----

  // A reply was received and its hold settled by it.
  predicate Answered(e: Effect) {
    e.Resolved? && !e.how.Abandoned?
  }

  lemma {:induction false} ReplyNotOlder(trace: seq<Effect>, q: nat, m: nat)
    requires After(trace).Some? && q < m <= |trace| && trace[q].Reserved?
    ensures At(trace, m).next > trace[q].index
    ensures At(trace, m).reply.Some? ==> At(trace, m).reply.value.0 >= trace[q].index
    ensures At(trace, m).active.Some? ==> At(trace, m).active.value >= trace[q].index
    decreases m
  {
    OneStep(trace, m - 1);
    if q < m - 1 { ReplyNotOlder(trace, q, m - 1); }
  }

  // Nothing is reserved between the settlement of a reply and its judgement.
  lemma NoneReservedBetween(trace: seq<Effect>, p: nat, q: nat, d: nat)
    requires After(trace).Some? && p < q < d < |trace| && Answered(trace[p])
    requires trace[d].Judged? && trace[d].index == trace[p].index
    ensures !trace[q].Reserved?
  {
    OneStep(trace, p);
    OneStep(trace, q);
    OneStep(trace, d);
    ReplyIndexReserved(trace, p);
    NextGrows(trace, p, q);
    if trace[q].Reserved? {
      ReplyNotOlder(trace, q, d);
    }
  }

  lemma {:induction false} SameNext(trace: seq<Effect>, p: nat, d: nat, m: nat)
    requires p < d < m <= |trace| && !trace[d].Reserved? && forall q :: p < q < d ==> !trace[q].Reserved?
    ensures NextReserved(trace, p, m) == NextReserved(trace, d, m)
    decreases m
  {
    if d + 1 < m {
      SameNext(trace, p, d, m - 1);
    } else {
      NoneYet(trace, p, m);
    }
  }

  lemma {:induction false} NoneYet(trace: seq<Effect>, p: nat, m: nat)
    requires m <= |trace| && forall q :: p < q < m ==> !trace[q].Reserved?
    ensures NextReserved(trace, p, m).None?
    decreases m
  {
    if m > p + 1 { NoneYet(trace, p, m - 1); }
  }

  // The failure is recorded once, after position `p`, naming the candidate reserved next after `p`.
  predicate RecordedOnce(trace: seq<Effect>, p: nat, index: nat, failure: L.FailureClass) {
    exists q :: p < q < |trace| && trace[q] == Recorded(index, failure, NextReserved(trace, p, |trace|))
                && forall q' :: 0 <= q' < |trace| && q' != q ==> !(trace[q'].Recorded? && trace[q'].index == index)
  }

  // A settled reply that is judged a failure is recorded once, with the candidate reserved next.
  lemma SettledThenRecorded(trace: seq<Effect>, p: nat, d: nat)
    requires Closed(trace) && p < d < |trace| && Answered(trace[p])
    requires FailureJudged(trace[d]) && trace[d].index == trace[p].index
    ensures RecordedOnce(trace, p, trace[p].index, FailureOf(trace[d]))
  {
    RecordedExactlyOnce(trace, d);
    forall q | p < q < d ensures !trace[q].Reserved? {
      NoneReservedBetween(trace, p, q, d);
    }
    SameNext(trace, p, d, |trace|);
  }

  // Nothing is recorded that was not judged so.
  lemma RecordsAreJudged(trace: seq<Effect>, q: nat)
    requires After(trace).Some? && q < |trace| && trace[q].Recorded?
    ensures exists d :: 0 <= d < q && FailureJudged(trace[d]) && trace[d].index == trace[q].index
                        && FailureOf(trace[d]) == trace[q].failure
  {
    OneStep(trace, q);
    var d := OwedWasJudged(trace, q);
  }
}
