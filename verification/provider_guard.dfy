// Routing one candidate: every breaker of its provider must be healthy or probed by this worker.
module ProviderGuards {
  import opened Wrappers
  import opened BreakerModel
  import opened FaultStores
  import opened SharedBreakers

  datatype GuardResult = GuardResult(routable: bool, claims: map<string, nat>, blocked: set<string>)

  // A judged breaker either blocks the provider, or is healthy, or its live slot is this worker's
  // and the claim carries the slot's token.
  predicate Judged(row: Row, reason: string, worker: string, now: real, claims: map<string, nat>,
                   blocked: set<string>) {
    && (reason !in blocked <==> Eligible(row, Some(worker), now))
    && (reason in claims <==> row.state.Probing? && reason !in blocked)
    && (reason in claims ==>
          row.probeToken == claims[reason] && row.probeOwner == Some(worker)
          && row.probeExpires.Some? && row.probeExpires.value > now)
  }

  ghost predicate Guarding(provider: string, before: map<GroupKey, Row>, rows: map<GroupKey, Row>, todo: set<GroupKey>,
                           worker: string, now: real, claims: map<string, nat>, blocked: set<string>) {
    && rows.Keys == before.Keys
    && (forall k: GroupKey :: k in rows && (k.0 != provider || k in todo) ==> rows[k] == before[k])
    && (forall k: GroupKey :: k in rows && k.0 == provider && k !in todo ==>
          Judged(rows[k], k.1, worker, now, claims, blocked))
    && (forall reason :: reason in claims || reason in blocked ==>
          (provider, reason) in rows && (provider, reason) !in todo)
  }

  // After a claim attempt, the row is this worker's probe exactly when it won or already held it.
  lemma ClaimJudges(c: Config, row: Row, reason: string, worker: string, now: real)
    requires ConfigOk(c) && !Blank(worker) && (row.state.Suspended? || row.state.Probing?)
    ensures var (row', won) := TryClaim(c, row, reason, worker, now);
            won.Ok? && (if won.value.Some? then Eligible(row', Some(worker), now) && row'.state.Probing?
                        else row' == row && (row.state.Suspended? ==> !Eligible(row, Some(worker), now)))
  {
  }

  ghost predicate SameElsewhere(claims: map<string, nat>, blocked: set<string>, claims': map<string, nat>,
                                blocked': set<string>, reason: string) {
    forall other :: other != reason ==>
                      (other in claims' <==> other in claims) && (other in claims ==> claims'[other] == claims[other])
                      && (other in blocked' <==> other in blocked)
  }

  lemma GuardStep(provider: string, before: map<GroupKey, Row>, rows: map<GroupKey, Row>, rows': map<GroupKey, Row>,
                  todo: set<GroupKey>, reason: string, worker: string, now: real, claims: map<string, nat>,
                  blocked: set<string>, claims': map<string, nat>, blocked': set<string>)
    requires Guarding(provider, before, rows, todo, worker, now, claims, blocked)
    requires (provider, reason) in todo && (provider, reason) in rows
    requires OthersKept(rows, rows', (provider, reason)) && (provider, reason) in rows'
    requires SameElsewhere(claims, blocked, claims', blocked', reason)
    requires Judged(rows'[(provider, reason)], reason, worker, now, claims', blocked')
    ensures Guarding(provider, before, rows', todo - {(provider, reason)}, worker, now, claims', blocked')
  {
    forall k: GroupKey | k in rows' && k.0 == provider && k !in todo - {(provider, reason)}
      ensures Judged(rows'[k], k.1, worker, now, claims', blocked')
    {
      if k.1 != reason {
        assert Judged(rows[k], k.1, worker, now, claims, blocked);
      }
    }
    assert rows'.Keys == rows.Keys;
  }

  // One breaker view: skipped when healthy, claimed, recognised as our own live slot, or blocking.
  method JudgeOne(breaker: SharedBreaker, provider: string, reason: string, worker: string, now: real,
                  claims: map<string, nat>, blocked: set<string>)
    returns (claims': map<string, nat>, blocked': set<string>)
    requires ConfigOk(breaker.config) && !Blank(worker)
    requires (provider, reason) in breaker.table.rows && reason !in claims && reason !in blocked
    modifies breaker.table
    ensures OthersKept(old(breaker.table.rows), breaker.table.rows, (provider, reason))
    ensures (provider, reason) in breaker.table.rows
    ensures SameElsewhere(claims, blocked, claims', blocked', reason)
    ensures Judged(breaker.table.rows[(provider, reason)], reason, worker, now, claims', blocked')
  {
    claims', blocked' := claims, blocked;
    var row := breaker.table.rows[(provider, reason)];
    if row.state.Insufficient? || row.state.Normal? { return; }
    ClaimJudges(breaker.config, row, reason, worker, now);
    var claimed := breaker.TryClaimProbe(provider, reason, worker, now);
    if claimed.value.Some? {
      claims' := claims[reason := claimed.value.value.probeToken];
    } else if row.state.Probing? && breaker.IsEligible(provider, reason, Some(worker), now) {
      claims' := claims[reason := row.probeToken];
    } else {
      blocked' := blocked + {reason};
    }
  }

  method GuardProvider(breaker: SharedBreaker, provider: string, worker: string, now: real) returns (r: GuardResult)
    requires ConfigOk(breaker.config) && !Blank(worker)
    modifies breaker.table
    ensures Guarding(provider, old(breaker.table.rows), breaker.table.rows, {}, worker, now, r.claims, r.blocked)
    ensures r.routable <==> forall k: GroupKey :: k in breaker.table.rows && k.0 == provider ==>
                              Eligible(breaker.table.rows[k], Some(worker), now)
  {
    var claims: map<string, nat>, blocked: set<string> := map[], {};
    var todo := set k: GroupKey | k in breaker.table.rows && k.0 == provider;
    while todo != {}
      invariant forall k: GroupKey :: k in todo ==> k in breaker.table.rows && k.0 == provider
      invariant Guarding(provider, old(breaker.table.rows), breaker.table.rows, todo, worker, now, claims, blocked)
      decreases |todo|
    {
      var key :| key in todo;
      var reason := key.1;
      assert key == (provider, reason);
      ghost var rowsBefore, claimsBefore, blockedBefore := breaker.table.rows, claims, blocked;
      claims, blocked := JudgeOne(breaker, provider, reason, worker, now, claims, blocked);
      GuardStep(provider, old(breaker.table.rows), rowsBefore, breaker.table.rows, todo, reason, worker, now,
                claimsBefore, blockedBefore, claims, blocked);
      todo := todo - {key};
    }
    r := GuardResult(blocked == {}, claims, blocked);
    RoutableMeansEligible(provider, old(breaker.table.rows), breaker.table.rows, worker, now, claims, blocked);
  }

  lemma RoutableMeansEligible(provider: string, before: map<GroupKey, Row>, rows: map<GroupKey, Row>, worker: string,
                              now: real, claims: map<string, nat>, blocked: set<string>)
    requires Guarding(provider, before, rows, {}, worker, now, claims, blocked)
    ensures blocked == {} <==>
            forall k: GroupKey :: k in rows && k.0 == provider ==> Eligible(rows[k], Some(worker), now)
  {
    forall k: GroupKey | k in rows && k.0 == provider
      ensures k.1 !in blocked <==> Eligible(rows[k], Some(worker), now)
    {
      assert Judged(rows[k], k.1, worker, now, claims, blocked);
    }
    forall reason | reason in blocked
      ensures exists k: GroupKey :: k in rows && k.0 == provider && !Eligible(rows[k], Some(worker), now)
    {
      assert (provider, reason) in rows && Judged(rows[(provider, reason)], reason, worker, now, claims, blocked);
    }
  }
}
