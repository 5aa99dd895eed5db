// The breaker, its workers' caches and the failure log as one system.
module BreakerSafety {
  import opened Wrappers
  import Log = FaultLog
  import FaultCodec
  import opened FaultAggregates
  import opened BreakerModel

  // ---- The system, for one (provider, reason) ----

  datatype Mark =
    | Claimed(worker: string, token: nat, at: real, expires: real)
    | Succeeded(worker: string, token: nat, at: real)
    | FailedProbe(worker: string, token: nat, at: real)

  datatype Site = Site(config: Config, codec: Log.Codec, runId: string, provider: string, reason: string)

  datatype World = World(row: Row, store: Log.Store,
                         caches: map<string, Aggregate>,   // each worker's window entry for this key
                         trail: seq<Mark>)                 // the probe events of the audit table

  datatype Op =
    | Write(op: Log.Op)                                    // any append, crash or index loss
    | Read(worker: string, now: real)                      // aggregate the log into the worker's window
    | Evict(worker: string)                                // the window entry expires
    | Apply(worker: string, now: real)                     // apply whatever the window holds
    | Claim(worker: string, at: real)
    | Finish(worker: string, success: bool, token: int, retryUntil: Option<real>, observed: bool, at: real)

  function Entries(k: Site, s: Log.Store): seq<Log.Entry> {
    Log.Records(k.codec, s.file)
  }

  function CheckpointNow(w: World, observed: bool): Option<nat> {
    if observed then Some(Log.Checkpoint(w.store.file)) else None
  }

  function ReadCache(k: Site, w: World, worker: string, now: real): map<string, Aggregate> {
    var s := WindowSamples(Entries(k, w.store), k.runId, k.provider, k.reason, now, k.config.windowSeconds);
    if s == [] then w.caches else w.caches[worker := FromSamples(k.provider, k.reason, s)]
  }

  function FinishMark(worker: string, success: bool, token: nat, at: real): Mark {
    if success then Succeeded(worker, token, at) else FailedProbe(worker, token, at)
  }

  function Step(k: Site, w: World, op: Op): World {
    match op
    case Write(o) => w.(store := Log.Step(k.codec, w.store, o))
    case Read(worker, now) => w.(caches := ReadCache(k, w, worker, now))
    case Evict(worker) => w.(caches := w.caches - {worker})
    case Apply(worker, now) =>
      if worker !in w.caches then w
      else
        var (row, kept) := ApplyAggregate(k.config, w.row, w.caches[worker], now);
        w.(row := row, caches := if kept.Some? then w.caches[worker := kept.value] else w.caches - {worker})
    case Claim(worker, at) =>
      var (row, won) := TryClaim(k.config, w.row, k.reason, worker, at);
      if won.Ok? && won.value.Some? then
        w.(row := row, trail := w.trail + [Claimed(worker, won.value.value, at, at + k.config.probeTtlSeconds)])
      else w
    case Finish(worker, success, token, retry, observed, at) =>
      var (row, applied) :=
        FinishProbe(k.config, w.row, k.reason, worker, success, token, retry, CheckpointNow(w, observed), at);
      if applied == Ok(true) then
        World(row, w.store, if success then w.caches - {worker} else w.caches,
              w.trail + [FinishMark(worker, success, w.row.probeToken, at)])
      else w
  }

  const START := World(NEW_ROW, Log.EMPTY, map[], [])

  // ---- The invariant ----

  // The slot is held exactly in the probing state; a suspension always has its deadline.
  predicate RowOk(row: Row) {
    && (row.state.Probing? <==> row.probeOwner.Some?)
    && (row.state.Probing? <==> row.probeExpires.Some?)
    && (row.state.Suspended? ==> row.cooldownUntil.Some?)
    && (row.state.Probing? ==> row.probeToken >= 1)
  }

  predicate ClaimAt(trail: seq<Mark>, i: int, token: nat) {
    0 <= i < |trail| && trail[i].Claimed? && trail[i].token == token
  }

  predicate OutcomeAt(trail: seq<Mark>, i: int, token: nat) {
    0 <= i < |trail| && !trail[i].Claimed? && trail[i].token == token
  }

  // The claim an outcome answers: same token and worker, earlier, not yet expired.
  predicate Answers(trail: seq<Mark>, i: int, j: int) {
    && 0 <= i < j < |trail| && trail[i].Claimed? && !trail[j].Claimed?
    && trail[i].token == trail[j].token && trail[i].worker == trail[j].worker
    && trail[j].at < trail[i].expires
  }

  ghost predicate TrailOk(row: Row, trail: seq<Mark>) {
    && (forall i :: 0 <= i < |trail| ==> 1 <= trail[i].token <= row.probeToken)
    && (forall i, j :: 0 <= i < j < |trail| && trail[i].Claimed? && trail[j].Claimed? ==>
          trail[i].token < trail[j].token)
    && (forall j :: 0 <= j < |trail| && !trail[j].Claimed? ==> exists i :: Answers(trail, i, j))
    && (forall i, j :: 0 <= i < j < |trail| && !trail[i].Claimed? && !trail[j].Claimed? ==>
          trail[i].token < trail[j].token)
    && (row.state.Probing? ==>
          (forall i :: !OutcomeAt(trail, i, row.probeToken))
          && exists i :: ClaimAt(trail, i, row.probeToken) && row.probeOwner == Some(trail[i].worker)
                         && row.probeExpires == Some(trail[i].expires))
  }

  ghost predicate CachesOk(k: Site, w: World) {
    forall worker :: worker in w.caches ==>
                       && Genuine(Entries(k, w.store), k.runId, w.caches[worker])
                       && w.caches[worker].provider == k.provider && w.caches[worker].reason == k.reason
  }

  // The slot alone, whatever the log holds.
  ghost predicate SlotOk(w: World) {
    RowOk(w.row) && TrailOk(w.row, w.trail)
  }

  // The evidence: windows hold genuine log lines, and the boundary lies inside the log.
  ghost predicate EvidenceOk(k: Site, w: World) {
    && CachesOk(k, w) && Log.StoreOk(k.codec, w.store)
    && (w.row.recoverySequence.Some? ==> w.row.recoverySequence.value <= Log.Checkpoint(w.store.file))
  }

  ghost predicate Inv(k: Site, w: World) {
    SlotOk(w) && EvidenceOk(k, w)
  }

  ghost predicate SiteOk(k: Site) {
    ConfigOk(k.config) && Log.CodecOk(k.codec)
  }

  // ---- Guards and transition agree ----

  // The guarded UPDATEs succeed exactly when the pure transition says so (and, for an outcome,
  // when the reported token is the row's).
  lemma GuardsAgree(c: Config, row: Row, reason: string, worker: string, token: int, success: bool,
                    retryUntil: Option<real>, checkpoint: Option<nat>, at: real)
    requires !Blank(worker) && token >= 1
    ensures var (_, actions) := Transition(c, row.state, CooldownExpired, ClaimParams(row, reason, worker, at));
            (TryClaim(c, row, reason, worker, at).1 == Ok(Some(row.probeToken + 1)) <==> ClaimSlot in actions)
            && (TryClaim(c, row, reason, worker, at).1 == Ok(None) <==> ClaimSlot !in actions)
    ensures var hint := if success then None else retryUntil;
            var (_, actions) := Transition(c, row.state, if success then ProbeSuccess else ProbeFailure,
                                           FinishParams(row, reason, worker, hint, at));
            FinishProbe(c, row, reason, worker, success, token, retryUntil, checkpoint, at).1
            == Ok(actions != [] && row.probeToken == token)
  {
  }

  // ---- Preservation ----

  lemma ApplyKeepsRow(c: Config, row: Row, a: Aggregate, now: real)
    requires RowOk(row)
    ensures var row' := ApplyAggregate(c, row, a, now).0;
            && RowOk(row') && row'.probeToken == row.probeToken
            && row'.recoveredAt == row.recoveredAt && row'.recoverySequence == row.recoverySequence
            && (row.state.Probing? ==> row' == row)
            && (row'.state.Probing? <==> row.state.Probing?)
            && (row.state.Suspended? ==> row'.state.Suspended?)
  {
  }

  lemma TrailUnchanged(row: Row, row': Row, trail: seq<Mark>)
    requires TrailOk(row, trail) && row'.probeToken == row.probeToken
    requires row'.state.Probing? ==> row' == row
    ensures TrailOk(row', trail)
  {
  }

  lemma AnswersAppend(trail: seq<Mark>, m: Mark, i: int, j: int)
    requires Answers(trail, i, j)
    ensures Answers(trail + [m], i, j)
  {
  }

  lemma ClaimKeepsTrail(c: Config, row: Row, row': Row, trail: seq<Mark>, reason: string, worker: string, at: real)
    requires TrailOk(row, trail) && (row', Ok(Some(row.probeToken + 1))) == TryClaim(c, row, reason, worker, at)
    ensures TrailOk(row', trail + [Claimed(worker, row.probeToken + 1, at, at + c.probeTtlSeconds)])
  {
    var m := Claimed(worker, row.probeToken + 1, at, at + c.probeTtlSeconds);
    var trail' := trail + [m];
    forall j | 0 <= j < |trail'| && !trail'[j].Claimed?
      ensures exists i :: Answers(trail', i, j)
    {
      var i :| Answers(trail, i, j);
      AnswersAppend(trail, m, i, j);
    }
    assert ClaimAt(trail', |trail|, row'.probeToken);
  }

  // The outcome of the live slot answers its claim, and is the first of its token.
  lemma OutcomeAnswers(row: Row, trail: seq<Mark>, worker: string, m: Mark, at: real) returns (i: nat)
    requires TrailOk(row, trail) && FinishGuard(row, worker, row.probeToken, at)
    requires !m.Claimed? && m.worker == worker && m.token == row.probeToken && m.at == at
    ensures Answers(trail + [m], i, |trail|)
    ensures forall k :: 0 <= k < |trail| && !trail[k].Claimed? ==> trail[k].token < m.token
  {
    i :| ClaimAt(trail, i, row.probeToken) && row.probeOwner == Some(trail[i].worker)
         && row.probeExpires == Some(trail[i].expires);
    forall k | 0 <= k < |trail| && !trail[k].Claimed?
      ensures trail[k].token < m.token
    {
      assert !OutcomeAt(trail, k, row.probeToken);
    }
  }

  lemma FinishKeepsTrail(row: Row, row': Row, trail: seq<Mark>, worker: string, m: Mark, at: real)
    requires TrailOk(row, trail) && FinishGuard(row, worker, row.probeToken, at)
    requires !m.Claimed? && m.worker == worker && m.token == row.probeToken && m.at == at
    requires row'.probeToken == row.probeToken && !row'.state.Probing? && row.probeToken >= 1
    ensures TrailOk(row', trail + [m])
  {
    var trail' := trail + [m];
    var claim := OutcomeAnswers(row, trail, worker, m, at);
    forall j | 0 <= j < |trail'| && !trail'[j].Claimed?
      ensures exists i :: Answers(trail', i, j)
    {
      if j < |trail| {
        var i :| Answers(trail, i, j);
        AnswersAppend(trail, m, i, j);
      } else {
        assert Answers(trail', claim, j);
      }
    }
  }

  lemma CachesGrow(k: Site, w: World, store: Log.Store)
    requires CachesOk(k, w) && Entries(k, w.store) <= Entries(k, store)
    ensures CachesOk(k, w.(store := store))
  {
    forall worker | worker in w.caches
      ensures Genuine(Entries(k, store), k.runId, w.caches[worker])
    {
      GenuineGrows(Entries(k, w.store), Entries(k, store), k.runId, w.caches[worker]);
    }
  }

  lemma ReadKeeps(k: Site, w: World, worker: string, now: real)
    requires CachesOk(k, w)
    ensures CachesOk(k, w.(caches := ReadCache(k, w, worker, now)))
  {
    var es := Entries(k, w.store);
    Log.RecordsDistinct(k.codec, w.store.file);
    WindowIsGenuine(es, k.runId, k.provider, k.reason, now, k.config.windowSeconds, Log.Checkpoint(w.store.file));
  }

  // What an apply leaves in the worker's window is genuine.
  lemma KeptIsGenuine(k: Site, w: World, a: Aggregate)
    requires Genuine(Entries(k, w.store), k.runId, a) && a.provider == k.provider && a.reason == k.reason
    ensures Effective(w.row, a).Some? ==>
              var kept := Effective(w.row, a).value;
              Genuine(Entries(k, w.store), k.runId, kept) && kept.provider == k.provider && kept.reason == k.reason
  {
    if w.row.recoveredAt.Some? {
      RecoveryKeepsGenuine(Entries(k, w.store), k.runId, a, w.row.recoveredAt.value, w.row.recoverySequence);
    }
  }

  lemma ApplyKeepsCaches(k: Site, w: World, worker: string, now: real)
    requires CachesOk(k, w) && worker in w.caches
    ensures CachesOk(k, Step(k, w, Apply(worker, now)))
  {
    var w', kept := Step(k, w, Apply(worker, now)), Effective(w.row, w.caches[worker]);
    KeptIsGenuine(k, w, w.caches[worker]);
    assert w'.caches == if kept.Some? then w.caches[worker := kept.value] else w.caches - {worker};
  }

  lemma ClaimedRow(c: Config, row: Row, reason: string, worker: string, at: real)
    requires RowOk(row)
    ensures var (row', won) := TryClaim(c, row, reason, worker, at);
            (won.Ok? && won.value.Some? ==>
               won.value.value == row.probeToken + 1 && RowOk(row')
               && row'.recoveredAt == row.recoveredAt && row'.recoverySequence == row.recoverySequence)
  {
  }

  lemma FinishedRow(c: Config, row: Row, reason: string, worker: string, success: bool, token: int,
                    retryUntil: Option<real>, checkpoint: Option<nat>, at: real)
    requires RowOk(row)
    ensures var (row', applied) := FinishProbe(c, row, reason, worker, success, token, retryUntil, checkpoint, at);
            (applied == Ok(true) ==>
               && RowOk(row') && !row'.state.Probing? && row'.probeToken == row.probeToken == token
               && FinishGuard(row, worker, row.probeToken, at)
               && (row'.state.Normal? <==> success) && (row'.state.Suspended? <==> !success)
               && (success ==> row'.recoverySequence == checkpoint && row'.recoveredAt == Some(at))
               && (!success ==> row'.recoverySequence == row.recoverySequence && row'.recoveredAt == row.recoveredAt))
  {
  }

  // ---- The slot survives every step, whatever the codec ----

  lemma ApplyKeepsSlot(k: Site, w: World, worker: string, now: real)
    requires SlotOk(w) && worker in w.caches
    ensures SlotOk(Step(k, w, Apply(worker, now)))
  {
    var row' := ApplyAggregate(k.config, w.row, w.caches[worker], now).0;
    ApplyKeepsRow(k.config, w.row, w.caches[worker], now);
    TrailUnchanged(w.row, row', w.trail);
  }

  lemma ClaimKeepsSlot(k: Site, w: World, worker: string, at: real)
    requires SlotOk(w)
    ensures SlotOk(Step(k, w, Claim(worker, at)))
  {
    var (row', won) := TryClaim(k.config, w.row, k.reason, worker, at);
    ClaimedRow(k.config, w.row, k.reason, worker, at);
    if won.Ok? && won.value.Some? {
      ClaimKeepsTrail(k.config, w.row, row', w.trail, k.reason, worker, at);
    }
  }

  lemma FinishKeepsSlot(k: Site, w: World, worker: string, success: bool, token: int, retry: Option<real>,
                        observed: bool, at: real)
    requires SlotOk(w)
    ensures SlotOk(Step(k, w, Finish(worker, success, token, retry, observed, at)))
  {
    var checkpoint := CheckpointNow(w, observed);
    var (row', applied) := FinishProbe(k.config, w.row, k.reason, worker, success, token, retry, checkpoint, at);
    FinishedRow(k.config, w.row, k.reason, worker, success, token, retry, checkpoint, at);
    if applied == Ok(true) {
      FinishKeepsTrail(w.row, row', w.trail, worker, FinishMark(worker, success, w.row.probeToken, at), at);
    }
  }

  lemma StepKeepsSlot(k: Site, w: World, op: Op)
    requires SlotOk(w)
    ensures SlotOk(Step(k, w, op))
  {
    match op
    case Write(_) =>
    case Read(_, _) =>
    case Evict(_) =>
    case Apply(worker, now) => if worker in w.caches { ApplyKeepsSlot(k, w, worker, now); }
    case Claim(worker, at) => ClaimKeepsSlot(k, w, worker, at);
    case Finish(worker, success, token, retry, observed, at) =>
      FinishKeepsSlot(k, w, worker, success, token, retry, observed, at);
  }

  // ---- The evidence survives every step ----

  lemma WriteKeepsEvidence(k: Site, w: World, op: Log.Op)
    requires SiteOk(k) && EvidenceOk(k, w)
    ensures EvidenceOk(k, w.(store := Log.Step(k.codec, w.store, op)))
  {
    Log.StepOk(k.codec, w.store, op);
    Log.StepGrows(k.codec, w.store, op);
    CachesGrow(k, w, Log.Step(k.codec, w.store, op));
  }

  lemma ApplyKeepsEvidence(k: Site, w: World, worker: string, now: real)
    requires Inv(k, w) && worker in w.caches
    ensures EvidenceOk(k, Step(k, w, Apply(worker, now)))
  {
    ApplyKeepsCaches(k, w, worker, now);
    ApplyKeepsRow(k.config, w.row, w.caches[worker], now);
  }

  lemma ClaimKeepsEvidence(k: Site, w: World, worker: string, at: real)
    requires Inv(k, w)
    ensures EvidenceOk(k, Step(k, w, Claim(worker, at)))
  {
    var w' := Step(k, w, Claim(worker, at));
    ClaimedRow(k.config, w.row, k.reason, worker, at);
    assert w' == w.(row := w'.row, trail := w'.trail);
    assert CachesOk(k, w');
  }

  lemma FinishKeepsEvidence(k: Site, w: World, worker: string, success: bool, token: int, retry: Option<real>,
                            observed: bool, at: real)
    requires Inv(k, w)
    ensures EvidenceOk(k, Step(k, w, Finish(worker, success, token, retry, observed, at)))
  {
    var w' := Step(k, w, Finish(worker, success, token, retry, observed, at));
    FinishedRow(k.config, w.row, k.reason, worker, success, token, retry, CheckpointNow(w, observed), at);
    assert w'.store == w.store && w'.caches.Keys <= w.caches.Keys;
    assert CachesOk(k, w');
  }

  lemma StepKeepsEvidence(k: Site, w: World, op: Op)
    requires SiteOk(k) && Inv(k, w)
    ensures EvidenceOk(k, Step(k, w, op))
  {
    match op
    case Write(o) => WriteKeepsEvidence(k, w, o);
    case Read(worker, now) => ReadKeeps(k, w, worker, now);
    case Evict(worker) => assert CachesOk(k, w.(caches := w.caches - {worker}));
    case Apply(worker, now) => if worker in w.caches { ApplyKeepsEvidence(k, w, worker, now); }
    case Claim(worker, at) => ClaimKeepsEvidence(k, w, worker, at);
    case Finish(worker, success, token, retry, observed, at) =>
      FinishKeepsEvidence(k, w, worker, success, token, retry, observed, at);
  }

  lemma StepKeeps(k: Site, w: World, op: Op)
    requires SiteOk(k) && Inv(k, w)
    ensures Inv(k, Step(k, w, op))
  {
    StepKeepsSlot(k, w, op);
    StepKeepsEvidence(k, w, op);
  }

  // Sites exist: any configuration with a codec for any time resolution is one.
  lemma SitesExist(config: Config, rate: nat, runId: string, provider: string, reason: string)
    requires ConfigOk(config) && rate > 0
    ensures SiteOk(Site(config, FaultCodec.Plain(rate), runId, provider, reason))
  {
    FaultCodec.PlainIsOk(rate);
  }
}
