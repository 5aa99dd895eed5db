// What each breaker event does to the row, in terms of the evidence in force and the configured times.
module BreakerOutcomes {
  import opened Wrappers
  import opened Runs
  import opened FaultAggregates
  import opened BreakerModel
  import opened BreakerSafety
  import opened BreakerTheorems

  lemma ReachableStep(k: Site, w: World, op: Op)
    requires Reachable(k, w)
    ensures Reachable(k, Step(k, w, op))
  {
    var ops :| w == Run(Steps(k), START, ops);
    AnythingIsAllowed(k, START, ops);
    RunSnoc(Anything, Steps(k), START, ops, op);
  }

  // ---- The evidence in force ----

  // The samples a worker's window holds that lie past the recovery boundary.
  function InForce(w: World, worker: string): set<Sample>
    requires worker in w.caches
  {
    set x | x in w.caches[worker].samples && Counted(w.row, x)
  }

  function ConfirmedInForce(w: World, worker: string): set<Sample>
    requires worker in w.caches
  {
    set x | x in InForce(w, worker) && x.confirmed
  }

  // The latest deadline any of these samples carries.
  predicate LatestOf(samples: set<Sample>, hint: Option<real>) {
    && (hint.None? <==> forall x :: x in samples ==> x.retryUntil.None?)
    && (hint.Some? ==>
          (exists x :: x in samples && x.retryUntil == hint)
          && forall x :: x in samples && x.retryUntil.Some? ==> x.retryUntil.value <= hint.value)
  }

  predicate LatestHint(w: World, worker: string, hint: Option<real>)
    requires worker in w.caches
  {
    LatestOf(InForce(w, worker), hint)
  }

  lemma {:induction false} CountsElements(s: seq<Sample>)
    requires Distinct(s)
    ensures |set x | x in s| == |s|
  {
    if s != [] {
      var front, last := s[..|s| - 1], s[|s| - 1];
      CountsElements(front);
      assert last !in front;
      assert (set x | x in s) == (set x | x in front) + {last};
    }
  }

  lemma {:induction false} CountsConfirmed(s: seq<Sample>)
    requires Distinct(s)
    ensures |set x | x in s && x.confirmed| == CountConfirmed(s)
  {
    if s != [] {
      var front, last := s[..|s| - 1], s[|s| - 1];
      CountsConfirmed(front);
      assert last !in front;
      assert (set x | x in s && x.confirmed) ==
             (set x | x in front && x.confirmed) + (if last.confirmed then {last} else {});
    }
  }

  // A summary's numbers are those of the set of its samples.
  lemma SummaryOfSet(provider: string, reason: string, s: seq<Sample>, samples: set<Sample>)
    requires s != [] && Distinct(s) && forall x :: x in samples <==> x in s
    ensures var a := FromSamples(provider, reason, s);
            && samples != {} && a.sampleCount == |samples| && a.confirmed == |set x | x in samples && x.confirmed|
            && LatestOf(samples, a.retryUntil)
  {
    SummaryMeans(provider, reason, s);
    CountsElements(s);
    CountsConfirmed(s);
    assert samples == set x | x in s;
    assert (set x | x in samples && x.confirmed) == set x | x in s && x.confirmed;
    assert s[0] in samples;
  }

  // What an apply decides by is exactly the evidence in force: its numbers and its latest hint.
  lemma DecidesByEvidence(k: Site, w: World, worker: string)
    requires SiteOk(k) && Reachable(k, w) && worker in w.caches
    ensures var a := Effective(w.row, w.caches[worker]);
            && (a.None? <==> InForce(w, worker) == {})
            && (a.Some? ==>
                  && a.value.sampleCount == |InForce(w, worker)| && a.value.reason == k.reason
                  && a.value.confirmed == |ConfirmedInForce(w, worker)|
                  && LatestHint(w, worker, a.value.retryUntil))
  {
    ReachableOk(k, w);
    EffectiveSamples(k, w, worker);
    var a := Effective(w.row, w.caches[worker]);
    if a.Some? {
      SummaryOfSet(a.value.provider, a.value.reason, a.value.samples, InForce(w, worker));
    }
  }

  // ---- What an apply does ----

  predicate Enough(k: Site, w: World, worker: string)
    requires worker in w.caches
  {
    || (k.reason in k.config.directReasons && ConfirmedInForce(w, worker) != {})
    || (|InForce(w, worker)| >= k.config.failureThreshold && |InForce(w, worker)| >= k.config.minSamples)
  }

  // A healthy breaker is suspended by enough evidence, with its counts; enough samples without it
  // end the insufficiency of the first observations; anything else leaves the row alone.
  lemma ApplyToHealthy(k: Site, w: World, worker: string, now: real)
    requires SiteOk(k) && Reachable(k, w) && worker in w.caches
    requires w.row.state == Normal || w.row.state == Insufficient
    ensures var row, row' := w.row, Step(k, w, Apply(worker, now)).row;
            if Enough(k, w, worker) then
              && row'.state == Suspended && row'.probeOwner.None? && row'.probeExpires.None?
              && row'.sampleCount == |InForce(w, worker)| && row'.confirmed == |ConfirmedInForce(w, worker)|
              && row'.probeToken == row.probeToken
              && (row'.recoveredAt, row'.recoverySequence) == (row.recoveredAt, row.recoverySequence)
            else if row.state == Insufficient && |InForce(w, worker)| >= k.config.minSamples then
              row' == row.(state := Normal)
            else row' == row
  {
    DecidesByEvidence(k, w, worker);
  }

  // A suspension is extended exactly by a later hint in force, to the latest one; a probe in flight
  // is not disturbed.
  lemma ApplyToSuspended(k: Site, w: World, worker: string, now: real)
    requires SiteOk(k) && Reachable(k, w) && worker in w.caches
    requires w.row.state == Suspended || w.row.state == Probing
    ensures var row, row' := w.row, Step(k, w, Apply(worker, now)).row;
            && (row.state == Probing ==> row' == row)
            && (row.state == Suspended ==>
                  && row.cooldownUntil.Some?
                  && (if exists x :: x in InForce(w, worker) && x.retryUntil.Some?
                                     && x.retryUntil.value > row.cooldownUntil.value
                      then row' == row.(cooldownUntil := row'.cooldownUntil, retryUntil := row'.cooldownUntil)
                           && row'.cooldownUntil.Some? && LatestHint(w, worker, row'.cooldownUntil)
                      else row' == row))
  {
    ReachableSlot(k, w);
    DecidesByEvidence(k, w, worker);
  }

  // ---- The deadline of a suspension ----

  function Moment(op: Op): real
    requires op.Apply? || op.Finish?
  {
    if op.Apply? then op.now else op.at
  }

  // The hint a suspension was entered with: the latest in force, or the one the probe reported.
  predicate EnteredWith(w: World, op: Op, hint: Option<real>) {
    match op
    case Apply(worker, _) => worker in w.caches && LatestHint(w, worker, hint)
    case Finish(_, success, _, retryUntil, _, _) => !success && hint == retryUntil
    case _ => false
  }

  function DeadlineFrom(k: Site, op: Op, hint: Option<real>): real
    requires op.Apply? || op.Finish?
  {
    match hint
    case Some(until) => until
    case None => Moment(op) + k.config.cooldownSeconds
  }

  // A step into suspension sets the deadline to the reported hint, or else to the cooldown after it.
  lemma SuspensionDeadline(k: Site, w: World, op: Op) returns (hint: Option<real>)
    requires SiteOk(k) && Reachable(k, w)
    requires w.row.state != Suspended && Step(k, w, op).row.state == Suspended
    ensures EnteredWith(w, op, hint)
    ensures Step(k, w, op).row.cooldownUntil == Some(DeadlineFrom(k, op, hint))
    ensures Step(k, w, op).row.retryUntil == hint
  {
    match op {
      case Apply(worker, now) =>
        DecidesByEvidence(k, w, worker);
        hint := Effective(w.row, w.caches[worker]).value.retryUntil;
      case Finish(worker, success, token, retryUntil, observed, at) =>
        hint := retryUntil;
      case _ =>
    }
  }

  // And along every run from there the next probe event is a claim no earlier than that deadline:
  // without a hint, not before the configured cooldown is over.
  lemma DeadlineIsWaitedOut(k: Site, w: World, op: Op, ops: seq<Op>) returns (hint: Option<real>)
    requires SiteOk(k) && Reachable(k, w)
    requires w.row.state != Suspended && Step(k, w, op).row.state == Suspended
    ensures EnteredWith(w, op, hint)
    ensures var start, w' := |Step(k, w, op).trail|, Run(Steps(k), Step(k, w, op), ops);
            && start <= |w'.trail|
            && (if |w'.trail| == start then w'.row.state == Suspended
                else w'.trail[start].Claimed? && w'.trail[start].at >= DeadlineFrom(k, op, hint))
  {
    hint := SuspensionDeadline(k, w, op);
    ReachableStep(k, w, op);
    CooldownIsWaitedOut(k, Step(k, w, op), ops);
  }

  // ---- Probe slots ----

  // A claim wins exactly when the deadline has passed, or a slot has lapsed; the winner holds the
  // slot under the next token for the configured time, and nothing else changes.
  lemma ClaimsExactly(c: Config, row: Row, reason: string, worker: string, at: real)
    ensures var (row', won) := TryClaim(c, row, reason, worker, at);
            && (won.Ok? <==> !Blank(worker))
            && (won.Ok? && won.value.Some? <==>
                && !Blank(worker)
                && ((row.state == Suspended && row.cooldownUntil.Some? && row.cooldownUntil.value <= at)
                    || (row.state == Probing && row.probeExpires.Some? && row.probeExpires.value <= at)))
            && (if won.Ok? && won.value.Some? then
                  won.value.value == row.probeToken + 1
                  && row' == row.(state := Probing, probeOwner := Some(worker), probeToken := won.value.value,
                                  probeExpires := Some(at + c.probeTtlSeconds))
                else row' == row)
  {
  }

  // An outcome counts exactly when its worker holds the slot of its token and the slot has not
  // lapsed. Success clears the evidence and sets the boundary; failure suspends again.
  lemma OutcomesExactly(c: Config, row: Row, reason: string, worker: string, success: bool, token: int,
                        retryUntil: Option<real>, checkpoint: Option<nat>, at: real)
    ensures var (row', applied) := FinishProbe(c, row, reason, worker, success, token, retryUntil, checkpoint, at);
            && (applied.Ok? <==> token >= 1)
            && (applied == Ok(true) <==>
                && token >= 1 && row.state == Probing && row.probeToken == token && row.probeOwner == Some(worker)
                && row.probeExpires.Some? && at < row.probeExpires.value)
            && (applied != Ok(true) ==> row' == row)
            && (applied == Ok(true) && success ==>
                  row' == Row(Normal, 0, 0, None, None, None, row.probeToken, None, Some(at), checkpoint))
            && (applied == Ok(true) && !success ==>
                  row' == row.(state := Suspended, probeOwner := None, probeExpires := None, retryUntil := retryUntil,
                               cooldownUntil := if retryUntil.Some? then retryUntil else Some(at + c.cooldownSeconds)))
  {
  }
}
