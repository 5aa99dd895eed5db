// What every run of the breaker guarantees: one probe slot, fenced outcomes, and a recovery
// boundary that only evidence recorded after it can cross.
module BreakerTheorems {
  import opened Wrappers
  import opened Runs
  import Log = FaultLog
  import opened FaultAggregates
  import opened BreakerModel
  import opened BreakerSafety

  // ---- Runs ----

  function Steps(k: Site): (World, Op) -> World {
    (w: World, op: Op) => Step(k, w, op)
  }

  predicate Anything(w: World, op: Op) {
    true
  }

  lemma {:induction false} AnythingIsAllowed(k: Site, w: World, ops: seq<Op>)
    ensures Allowed(Anything, Steps(k), w, ops)
    decreases |ops|
  {
    if ops != [] { AnythingIsAllowed(k, Step(k, w, ops[0]), ops[1..]); }
  }

  ghost predicate Reachable(k: Site, w: World) {
    exists ops :: w == Run(Steps(k), START, ops)
  }

  lemma StartOk(k: Site)
    ensures Inv(k, START)
  {
  }

  lemma RunKeepsSlot(k: Site, w: World, ops: seq<Op>)
    requires SlotOk(w)
    ensures SlotOk(Run(Steps(k), w, ops))
  {
    forall v, o | SlotOk(v) && Anything(v, o)
      ensures SlotOk(Steps(k)(v, o))
    {
      StepKeepsSlot(k, v, o);
    }
    AnythingIsAllowed(k, w, ops);
    Invariant(Anything, Steps(k), SlotOk, w, ops);
  }

  lemma ReachableSlot(k: Site, w: World)
    requires Reachable(k, w)
    ensures SlotOk(w)
  {
    var ops :| w == Run(Steps(k), START, ops);
    StartOk(k);
    RunKeepsSlot(k, START, ops);
  }

  lemma RunKeeps(k: Site, w: World, ops: seq<Op>)
    requires SiteOk(k) && Inv(k, w)
    ensures Inv(k, Run(Steps(k), w, ops))
  {
    var inv := (v: World) => Inv(k, v);
    forall v, o | inv(v) && Anything(v, o)
      ensures inv(Steps(k)(v, o))
    {
      StepKeeps(k, v, o);
    }
    AnythingIsAllowed(k, w, ops);
    Invariant(Anything, Steps(k), inv, w, ops);
  }

  lemma ReachableOk(k: Site, w: World)
    requires SiteOk(k) && Reachable(k, w)
    ensures Inv(k, w)
  {
    var ops :| w == Run(Steps(k), START, ops);
    StartOk(k);
    RunKeeps(k, START, ops);
  }

  // ---- One probe slot ----

  // In every reachable state: the slot is held exactly while probing, a suspension has its
  // deadline, claims carry strictly increasing tokens, and every outcome answers the one claim of
  // its token, by the claiming worker, before that claim expired, and no token has two outcomes.
  lemma SingleProbeSlot(k: Site, w: World)
    requires Reachable(k, w)
    ensures w.row.state.Probing? <==> w.row.probeOwner.Some?
    ensures w.row.state.Probing? <==> w.row.probeExpires.Some?
    ensures w.row.state.Suspended? ==> w.row.cooldownUntil.Some?
    ensures forall i, j :: 0 <= i < j < |w.trail| && w.trail[i].Claimed? && w.trail[j].Claimed? ==>
                             w.trail[i].token < w.trail[j].token
    ensures forall j :: 0 <= j < |w.trail| && !w.trail[j].Claimed? ==>
                          exists i :: Answers(w.trail, i, j)
    ensures forall i, j :: 0 <= i < j < |w.trail| && !w.trail[i].Claimed? && !w.trail[j].Claimed? ==>
                             w.trail[i].token != w.trail[j].token
  {
    ReachableSlot(k, w);
  }

  // ---- The way back to normal ----

  predicate ClaimFrom(trail: seq<Mark>, start: nat, token: nat) {
    exists i :: start <= i < |trail| && ClaimAt(trail, i, token)
  }

  predicate SuccessAt(trail: seq<Mark>, j: int, token: nat) {
    0 <= j < |trail| && trail[j].Succeeded? && trail[j].token == token
  }

  predicate SuccessFrom(trail: seq<Mark>, start: nat, token: nat) {
    exists j :: start <= j < |trail| && SuccessAt(trail, j, token)
  }

  predicate RecoveredFrom(trail: seq<Mark>, start: nat) {
    exists i, j :: start <= i < j < |trail| && ClaimAt(trail, i, trail[j].token)
                   && SuccessAt(trail, j, trail[j].token)
  }

  // How a suspension, or a probe in flight, may end.
  ghost predicate Progress(a: World, b: World) {
    var start := |a.trail|;
    && a.trail <= b.trail
    && (a.row.state.Suspended? ==>
          || RecoveredFrom(b.trail, start) || b.row.state.Suspended?
          || (b.row.state.Probing? && ClaimFrom(b.trail, start, b.row.probeToken)))
    && (a.row.state.Probing? ==>
          || RecoveredFrom(b.trail, start) || SuccessFrom(b.trail, start, a.row.probeToken)
          || b.row.state.Suspended?
          || (b.row.state.Probing?
              && (b.row.probeToken == a.row.probeToken || ClaimFrom(b.trail, start, b.row.probeToken))))
  }

  // Marks found in a trail stay found when it grows, or when the search starts earlier.
  lemma FoundInLonger(trail: seq<Mark>, trail': seq<Mark>, start: nat, start': nat, token: nat)
    requires trail <= trail' && start' <= start
    ensures ClaimFrom(trail, start, token) ==> ClaimFrom(trail', start', token)
    ensures SuccessFrom(trail, start, token) ==> SuccessFrom(trail', start', token)
    ensures RecoveredFrom(trail, start) ==> RecoveredFrom(trail', start')
  {
    if i :| start <= i < |trail| && ClaimAt(trail, i, token) {
      assert trail'[i] == trail[i] && ClaimAt(trail', i, token);
    }
    if j :| start <= j < |trail| && SuccessAt(trail, j, token) {
      assert trail'[j] == trail[j] && SuccessAt(trail', j, token);
    }
    if i, j :| start <= i < j < |trail| && ClaimAt(trail, i, trail[j].token) && SuccessAt(trail, j, trail[j].token) {
      assert trail'[i] == trail[i] && trail'[j] == trail[j];
      assert ClaimAt(trail', i, trail'[j].token) && SuccessAt(trail', j, trail'[j].token);
    }
  }

  lemma ClaimThenSuccess(trail: seq<Mark>, trail': seq<Mark>, start: nat, token: nat)
    requires trail <= trail' && ClaimFrom(trail, start, token) && SuccessFrom(trail', |trail|, token)
    ensures RecoveredFrom(trail', start)
  {
    var i :| start <= i < |trail| && ClaimAt(trail, i, token);
    var j :| |trail| <= j < |trail'| && SuccessAt(trail', j, token);
    assert trail'[i] == trail[i];
    assert ClaimAt(trail', i, trail'[j].token) && SuccessAt(trail', j, trail'[j].token);
  }

  lemma ProgressChains(a: World, b: World, c: World)
    requires Progress(a, b) && Progress(b, c)
    ensures Progress(a, c)
  {
    var start, middle := |a.trail|, |b.trail|;
    FoundInLonger(b.trail, c.trail, start, start, a.row.probeToken);
    FoundInLonger(b.trail, c.trail, start, start, b.row.probeToken);
    FoundInLonger(c.trail, c.trail, middle, start, a.row.probeToken);
    FoundInLonger(c.trail, c.trail, middle, start, c.row.probeToken);
    if ClaimFrom(b.trail, start, b.row.probeToken) && SuccessFrom(c.trail, middle, b.row.probeToken) {
      ClaimThenSuccess(b.trail, c.trail, start, b.row.probeToken);
    }
  }

  lemma ClaimProgress(k: Site, w: World, worker: string, at: real)
    requires SlotOk(w)
    ensures Progress(w, Step(k, w, Claim(worker, at)))
  {
    var w' := Step(k, w, Claim(worker, at));
    if w' != w {
      assert ClaimAt(w'.trail, |w.trail|, w'.row.probeToken);
    }
  }

  lemma FinishProgress(k: Site, w: World, worker: string, success: bool, token: int, retry: Option<real>,
                       observed: bool, at: real)
    requires SlotOk(w)
    ensures Progress(w, Step(k, w, Finish(worker, success, token, retry, observed, at)))
  {
    var w' := Step(k, w, Finish(worker, success, token, retry, observed, at));
    FinishedRow(k.config, w.row, k.reason, worker, success, token, retry, CheckpointNow(w, observed), at);
    if w' != w {
      assert w'.trail == w.trail + [FinishMark(worker, success, w.row.probeToken, at)];
      assert success ==> SuccessAt(w'.trail, |w.trail|, w.row.probeToken);
    }
  }

  lemma StepProgress(k: Site, w: World, op: Op)
    requires SlotOk(w)
    ensures Progress(w, Step(k, w, op))
  {
    match op
    case Write(o) =>
    case Read(worker, now) =>
    case Evict(worker) =>
    case Apply(worker, now) =>
      if worker in w.caches { ApplyKeepsRow(k.config, w.row, w.caches[worker], now); }
    case Claim(worker, at) => ClaimProgress(k, w, worker, at);
    case Finish(worker, success, token, retry, observed, at) =>
      FinishProgress(k, w, worker, success, token, retry, observed, at);
  }

  lemma RunProgress(k: Site, w: World, ops: seq<Op>)
    requires SlotOk(w)
    ensures Progress(w, Run(Steps(k), w, ops))
  {
    var rel := (a: World, b: World) => Progress(a, b);
    forall v, o | SlotOk(v) && Anything(v, o)
      ensures SlotOk(Steps(k)(v, o)) && rel(v, Steps(k)(v, o))
    {
      StepKeepsSlot(k, v, o);
      StepProgress(k, v, o);
    }
    forall a, b, c | rel(a, b) && rel(b, c)
      ensures rel(a, c)
    {
      ProgressChains(a, b, c);
    }
    AnythingIsAllowed(k, w, ops);
    Relation(Anything, Steps(k), SlotOk, rel, w, ops);
  }

  // Every path from suspended to normal contains a claim and, later, a success of the same token
  // by the same worker.
  lemma OnlyAProbeRecovers(k: Site, w: World, ops: seq<Op>)
    requires Reachable(k, w) && w.row.state.Suspended?
    requires Run(Steps(k), w, ops).row.state.Normal?
    ensures var trail := Run(Steps(k), w, ops).trail;
            exists i, j :: |w.trail| <= i < j < |trail| && Answers(trail, i, j) && trail[j].Succeeded?
  {
    ReachableSlot(k, w);
    RunKeepsSlot(k, w, ops);
    RunProgress(k, w, ops);
    var trail := Run(Steps(k), w, ops).trail;
    var i, j :| |w.trail| <= i < j < |trail| && ClaimAt(trail, i, trail[j].token)
                && SuccessAt(trail, j, trail[j].token);
    var claim :| Answers(trail, claim, j);
    assert claim == i;
  }

  // ---- The cooldown ----

  // A suspension waits: its deadline only moves later, and the first probe event that ends the wait
  // is a claim made no earlier than the deadline.
  ghost predicate Waits(a: World, b: World) {
    && a.trail <= b.trail
    && (a.row.state.Suspended? && a.row.cooldownUntil.Some? ==>
          if |b.trail| == |a.trail| then
            b.row.state.Suspended? && b.row.cooldownUntil.Some?
            && b.row.cooldownUntil.value >= a.row.cooldownUntil.value
          else b.trail[|a.trail|].Claimed? && b.trail[|a.trail|].at >= a.row.cooldownUntil.value)
  }

  lemma WaitsChain(a: World, b: World, c: World)
    requires Waits(a, b) && Waits(b, c)
    ensures Waits(a, c)
  {
    if |b.trail| == |a.trail| {
      assert b.trail == a.trail;
    } else {
      assert c.trail[|a.trail|] == b.trail[|a.trail|];
    }
  }

  lemma StepWaits(k: Site, w: World, op: Op)
    requires SlotOk(w)
    ensures Waits(w, Step(k, w, op))
  {
    match op
    case Claim(worker, at) =>
    case Finish(worker, success, token, retry, observed, at) =>
      FinishedRow(k.config, w.row, k.reason, worker, success, token, retry, CheckpointNow(w, observed), at);
    case _ =>
  }

  lemma CooldownIsWaitedOut(k: Site, w: World, ops: seq<Op>)
    requires Reachable(k, w) && w.row.state.Suspended?
    ensures var w' := Run(Steps(k), w, ops);
            && w.row.cooldownUntil.Some? && |w.trail| <= |w'.trail|
            && (if |w'.trail| == |w.trail| then
                  w'.row.state.Suspended? && w'.row.cooldownUntil.Some?
                  && w'.row.cooldownUntil.value >= w.row.cooldownUntil.value
                else w'.trail[|w.trail|].Claimed? && w'.trail[|w.trail|].at >= w.row.cooldownUntil.value)
  {
    ReachableSlot(k, w);
    var rel := (a: World, b: World) => Waits(a, b);
    forall v, o | SlotOk(v) && Anything(v, o)
      ensures SlotOk(Steps(k)(v, o)) && rel(v, Steps(k)(v, o))
    {
      StepKeepsSlot(k, v, o);
      StepWaits(k, v, o);
    }
    forall a, b, c | rel(a, b) && rel(b, c)
      ensures rel(a, c)
    {
      WaitsChain(a, b, c);
    }
    AnythingIsAllowed(k, w, ops);
    Relation(Anything, Steps(k), SlotOk, rel, w, ops);
  }

  // ---- The recovery boundary ----

  predicate Counted(row: Row, x: Sample) {
    row.recoveredAt.None? || Postdates(x, row.recoveredAt.value, row.recoverySequence)
  }

  predicate OfSite(k: Site, es: seq<Log.Entry>, e: Log.Entry) {
    e in es && e.fact.runId == k.runId && e.fact.provider == k.provider && e.fact.reason == k.reason
  }

  // Distinct log lines of this run, provider and reason, all seen by this worker's window, all
  // past the recovery boundary, and enough of them.
  predicate Evidence(k: Site, w: World, cached: Aggregate, ev: seq<Log.Entry>) {
    && (forall i :: 0 <= i < |ev| ==>
          OfSite(k, Entries(k, w.store), ev[i]) && SampleOf(ev[i]) in cached.samples
          && Counted(w.row, SampleOf(ev[i])))
    && (forall i, j :: 0 <= i < j < |ev| ==> ev[i].line < ev[j].line)
    && (|| (k.reason in k.config.directReasons
            && exists i :: 0 <= i < |ev| && ev[i].fact.failureClass.ConfirmedRejection?)
        || (|ev| >= k.config.failureThreshold && |ev| >= k.config.minSamples))
  }

  ghost function EntryFor(k: Site, es: seq<Log.Entry>, x: Sample): (e: Log.Entry)
    requires FromEntry(es, k.runId, k.provider, k.reason, x)
    ensures OfSite(k, es, e) && SampleOf(e) == x
  {
    var i :| 0 <= i < |es| && SampleOf(es[i]) == x && es[i].fact.runId == k.runId
             && es[i].fact.provider == k.provider && es[i].fact.reason == k.reason;
    es[i]
  }

  // The samples an apply decides by: exactly the counted ones, still genuine.
  lemma EffectiveSamples(k: Site, w: World, worker: string)
    requires Inv(k, w) && worker in w.caches
    ensures var a := Effective(w.row, w.caches[worker]);
            && (a.Some? ==> Genuine(Entries(k, w.store), k.runId, a.value)
                            && a.value.provider == k.provider && a.value.reason == k.reason)
            && (a.Some? ==> forall x :: x in a.value.samples <==>
                                        x in w.caches[worker].samples && Counted(w.row, x))
            && (a.None? ==> forall x :: x in w.caches[worker].samples ==> !Counted(w.row, x))
  {
    if w.row.recoveredAt.Some? {
      RecoveryKeepsGenuine(Entries(k, w.store), k.runId, w.caches[worker], w.row.recoveredAt.value,
                           w.row.recoverySequence);
    }
  }

  predicate Distinct<T(==)>(s: seq<T>) {
    forall i, j :: 0 <= i < j < |s| ==> s[i] != s[j]
  }

  lemma {:induction false} Pigeonhole<T>(s: seq<T>, t: seq<T>)
    requires Distinct(s) && forall x :: x in s ==> x in t
    ensures |s| <= |t|
    decreases |s|
  {
    if s != [] {
      var last := s[|s| - 1];
      assert last in s && last in t;
      var k :| 0 <= k < |t| && t[k] == last;
      var t' := t[..k] + t[k + 1..];
      forall x | x in s[..|s| - 1]
        ensures x in t'
      {
        assert x in s && x in t;
        var m :| 0 <= m < |t| && t[m] == x;
        assert m != k;
        assert t'[if m < k then m else m - 1] == x;
      }
      Pigeonhole(s[..|s| - 1], t');
    }
  }

  lemma EvidenceSuffices(k: Site, w: World, worker: string, ev: seq<Log.Entry>)
    requires Inv(k, w) && worker in w.caches && Evidence(k, w, w.caches[worker], ev) && SiteOk(k)
    ensures var a := Effective(w.row, w.caches[worker]);
            a.Some? && SuspensionRequired(k.config, AggregateParams(w.row, a.value, 0.0))
  {
    EffectiveSamples(k, w, worker);
    assert ev != [];
    assert SampleOf(ev[0]) in w.caches[worker].samples && Counted(w.row, SampleOf(ev[0]));
    var a := Effective(w.row, w.caches[worker]).value;
    var s := seq(|ev|, i requires 0 <= i < |ev| => SampleOf(ev[i]));
    forall i, j | 0 <= i < j < |s|
      ensures s[i] != s[j]
    {
      assert ev[i].line < ev[j].line;
    }
    Pigeonhole(s, a.samples);
    ConfirmedCounts(a.samples);
    if i :| 0 <= i < |ev| && ev[i].fact.failureClass.ConfirmedRejection? {
      assert SampleOf(ev[i]) in a.samples && SampleOf(ev[i]).confirmed;
    }
  }

  lemma SuspensionHasEvidence(k: Site, w: World, worker: string)
    requires Inv(k, w) && worker in w.caches
    requires var a := Effective(w.row, w.caches[worker]);
             a.Some? && SuspensionRequired(k.config, AggregateParams(w.row, a.value, 0.0))
    ensures exists ev :: Evidence(k, w, w.caches[worker], ev)
  {
    EffectiveSamples(k, w, worker);
    var es, a := Entries(k, w.store), Effective(w.row, w.caches[worker]).value;
    var ev := seq(|a.samples|, i requires 0 <= i < |a.samples| => EntryFor(k, es, a.samples[i]));
    forall i | 0 <= i < |ev|
      ensures OfSite(k, es, ev[i]) && SampleOf(ev[i]) in w.caches[worker].samples && Counted(w.row, SampleOf(ev[i]))
    {
      assert a.samples[i] in a.samples;
    }
    forall i, j | 0 <= i < j < |ev|
      ensures ev[i].line < ev[j].line
    {
      assert SampleOf(ev[i]).sequence < SampleOf(ev[j]).sequence;
    }
    ConfirmedCounts(a.samples);
    if a.confirmed > 0 {
      var i :| 0 <= i < |a.samples| && a.samples[i].confirmed;
      assert ev[i].fact.failureClass.ConfirmedRejection?;
    }
    assert Evidence(k, w, w.caches[worker], ev);
  }

  // A breaker that is neither suspended nor probing becomes suspended by an apply exactly when
  // the window holds counted evidence, however stale that window is.
  lemma SuspendsExactlyOnEvidence(k: Site, w: World, worker: string, now: real)
    requires SiteOk(k) && Reachable(k, w) && worker in w.caches
    requires w.row.state.Normal? || w.row.state.Insufficient?
    ensures Step(k, w, Apply(worker, now)).row.state.Suspended? <==>
            exists ev :: Evidence(k, w, w.caches[worker], ev)
  {
    ReachableOk(k, w);
    var a := Effective(w.row, w.caches[worker]);
    assert a.Some? ==> (SuspensionRequired(k.config, AggregateParams(w.row, a.value, now)) <==>
                        SuspensionRequired(k.config, AggregateParams(w.row, a.value, 0.0)));
    EffectiveSamples(k, w, worker);
    if ev :| Evidence(k, w, w.caches[worker], ev) {
      EvidenceSuffices(k, w, worker, ev);
    } else if a.Some? && SuspensionRequired(k.config, AggregateParams(w.row, a.value, now)) {
      SuspensionHasEvidence(k, w, worker);
    }
  }

  lemma OnlyAppliesSuspend(k: Site, w: World, op: Op)
    requires Inv(k, w) && (w.row.state.Normal? || w.row.state.Insufficient?)
    requires Step(k, w, op).row.state.Suspended?
    ensures op.Apply? && op.worker in w.caches
  {
  }

  // Any step into suspension applies a window that holds counted evidence.
  lemma ReentryEvidence(k: Site, w: World, op: Op) returns (ev: seq<Log.Entry>)
    requires Inv(k, w) && (w.row.state.Normal? || w.row.state.Insufficient?)
    requires Step(k, w, op).row.state.Suspended?
    ensures op.Apply? && op.worker in w.caches && Evidence(k, w, w.caches[op.worker], ev)
  {
    OnlyAppliesSuspend(k, w, op);
    var a := Effective(w.row, w.caches[op.worker]);
    assert SuspensionRequired(k.config, AggregateParams(w.row, a.value, 0.0));
    SuspensionHasEvidence(k, w, op.worker);
    ev :| Evidence(k, w, w.caches[op.worker], ev);
  }

  // Evidence counted after a checkpoint was not in the log when the checkpoint was taken.
  lemma CountedIsNew(k: Site, store: Log.Store, w: World, cached: Aggregate, ev: seq<Log.Entry>, at: real)
    requires Evidence(k, w, cached, ev) && Log.Numbered(Entries(k, store), Log.Checkpoint(store.file))
    requires w.row.recoveredAt == Some(at) && w.row.recoverySequence == Some(Log.Checkpoint(store.file))
    ensures forall i :: 0 <= i < |ev| ==> ev[i] !in Entries(k, store) && ev[i].fact.occurredAt >= at
  {
    forall i | 0 <= i < |ev|
      ensures ev[i] !in Entries(k, store) && ev[i].fact.occurredAt >= at
    {
      assert Counted(w.row, SampleOf(ev[i]));
    }
  }

  // After a recovery that recorded a log checkpoint, whatever run follows: as long as that
  // boundary stands, no step re-enters suspension except on enough facts that entered the log
  // after the recovery and occurred no earlier than it.
  lemma RecoveryBoundary(k: Site, w: World, worker: string, token: int, retry: Option<real>, at: real,
                         ops: seq<Op>, op: Op)
    requires SiteOk(k) && Reachable(k, w)
    requires FinishProbe(k.config, w.row, k.reason, worker, true, token, retry, CheckpointNow(w, true), at).1
             == Ok(true)
    requires var later := Run(Steps(k), Step(k, w, Finish(worker, true, token, retry, true, at)), ops);
             && later.row.recoveredAt == Some(at) && later.row.recoverySequence == CheckpointNow(w, true)
             && (later.row.state.Normal? || later.row.state.Insufficient?)
             && Step(k, later, op).row.state.Suspended?
    ensures var later := Run(Steps(k), Step(k, w, Finish(worker, true, token, retry, true, at)), ops);
            op.Apply? && op.worker in later.caches
            && exists ev: seq<Log.Entry> :: Evidence(k, later, later.caches[op.worker], ev)
                            && forall i :: 0 <= i < |ev| ==>
                                             ev[i] !in Entries(k, w.store) && ev[i].fact.occurredAt >= at
  {
    ReachableOk(k, w);
    var recovered := Step(k, w, Finish(worker, true, token, retry, true, at));
    StepKeeps(k, w, Finish(worker, true, token, retry, true, at));
    RunKeeps(k, recovered, ops);
    var later := Run(Steps(k), recovered, ops);
    var ev := ReentryEvidence(k, later, op);
    Log.RecordsDistinct(k.codec, w.store.file);
    CountedIsNew(k, w.store, later, later.caches[op.worker], ev, at);
  }

  // Without a checkpoint, only strictly later facts count.
  lemma UnobservedRecoveryBoundary(k: Site, w: World, op: Op)
    requires SiteOk(k) && Reachable(k, w) && w.row.recoveredAt.Some? && w.row.recoverySequence.None?
    requires w.row.state.Normal? || w.row.state.Insufficient?
    requires Step(k, w, op).row.state.Suspended?
    ensures op.Apply? && op.worker in w.caches
            && exists ev: seq<Log.Entry> :: Evidence(k, w, w.caches[op.worker], ev)
                            && forall i :: 0 <= i < |ev| ==> ev[i].fact.occurredAt > w.row.recoveredAt.value
  {
    ReachableOk(k, w);
    var ev := ReentryEvidence(k, w, op);
    assert forall i :: 0 <= i < |ev| ==> Counted(w.row, SampleOf(ev[i]));
  }
}
