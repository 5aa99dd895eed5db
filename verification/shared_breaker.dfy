// The breaker object: one worker's window over the shared state table.
module SharedBreakers {
  import opened Wrappers
  import opened FaultAggregates
  import opened BreakerModel
  import opened FaultStores
  import Log = FaultLog

  // `breaker_states`, shared by every worker's breaker.
  class StateTable {
    var rows: map<GroupKey, Row>

    constructor ()
      ensures rows == map[]
    {
      rows := map[];
    }
  }

  // A missing row reads as a new one.
  function View(rows: map<GroupKey, Row>, key: GroupKey): Row {
    if key in rows then rows[key] else NEW_ROW
  }

  // The window after one key's evidence was recomputed.
  function Kept(window: map<GroupKey, Aggregate>, key: GroupKey, a: Option<Aggregate>): map<GroupKey, Aggregate> {
    if a.Some? then window[key := a.value] else window - {key}
  }

  predicate KeyedRight(m: map<GroupKey, Aggregate>) {
    forall k: GroupKey :: k in m ==> (m[k].provider, m[k].reason) == k
  }

  lemma EffectiveKey(row: Row, a: Aggregate)
    ensures Effective(row, a).Some? ==>
              Effective(row, a).value.provider == a.provider && Effective(row, a).value.reason == a.reason
  {
  }

  datatype Cycle = Cycle(config: Config, before: map<GroupKey, Row>, effective: map<GroupKey, Aggregate>, now: real)

  // This key's row and window entry are what its own aggregate makes of them.
  predicate Applied(c: Cycle, rows: map<GroupKey, Row>, window: map<GroupKey, Aggregate>, key: GroupKey)
    requires key in c.effective
  {
    var (row, kept) := ApplyAggregate(c.config, View(c.before, key), c.effective[key], c.now);
    && View(rows, key) == row
    && (if kept.Some? then key in window && window[key] == kept.value else key !in window)
  }

  predicate Waiting(c: Cycle, rows: map<GroupKey, Row>, window: map<GroupKey, Aggregate>, key: GroupKey)
    requires key in c.effective
  {
    View(rows, key) == View(c.before, key) && key in window && window[key] == c.effective[key]
  }

  predicate InCycle(c: Cycle, todo: set<GroupKey>, rows: map<GroupKey, Row>, window: map<GroupKey, Aggregate>) {
    && (forall k: GroupKey :: k in c.effective ==>
          if k in todo then Waiting(c, rows, window, k) else Applied(c, rows, window, k))
    && (forall k: GroupKey :: k in rows && k !in c.effective ==> k in c.before && rows[k] == c.before[k])
    && (forall k: GroupKey :: k in c.before && k !in c.effective ==> k in rows)
    && window.Keys <= c.effective.Keys && KeyedRight(window)
  }

  // Rows and window entries of other keys are as they were.
  ghost predicate OthersKept<T>(before: map<GroupKey, T>, m: map<GroupKey, T>, key: GroupKey) {
    forall k: GroupKey :: k != key ==> (k in m <==> k in before) && (k in m ==> m[k] == before[k])
  }

  lemma CycleStep(c: Cycle, todo: set<GroupKey>, key: GroupKey, rows: map<GroupKey, Row>,
                  window: map<GroupKey, Aggregate>, rows': map<GroupKey, Row>, window': map<GroupKey, Aggregate>)
    requires InCycle(c, todo, rows, window) && key in todo && key in c.effective
    requires (c.effective[key].provider, c.effective[key].reason) == key
    requires OthersKept(rows, rows', key) && OthersKept(window, window', key) && Applied(c, rows', window', key)
    ensures InCycle(c, todo - {key}, rows', window')
  {
    EffectiveKey(View(c.before, key), c.effective[key]);
    forall k: GroupKey | k in c.effective && k != key
      ensures View(rows', k) == View(rows, k)
    {
    }
  }

  // What one `ApplyOne` leaves is what the cycle asks of its key.
  lemma AppliedOne(c: Cycle, key: GroupKey, rows: map<GroupKey, Row>, window: map<GroupKey, Aggregate>,
                   rows': map<GroupKey, Row>, window': map<GroupKey, Aggregate>)
    requires key in c.effective && Waiting(c, rows, window, key)
    requires var (row, kept) := ApplyAggregate(c.config, View(rows, key), c.effective[key], c.now);
             && View(rows', key) == row
             && window' == (if View(rows, key).recoveredAt.Some? then Kept(window, key, kept) else window)
    ensures Applied(c, rows', window', key) && OthersKept(window, window', key)
  {
  }

  lemma CycleStart(c: Cycle, window: map<GroupKey, Aggregate>)
    requires window == c.effective && KeyedRight(window)
    ensures InCycle(c, c.effective.Keys, c.before, window)
  {
  }

  function Lookup(window: map<GroupKey, Aggregate>, key: GroupKey): Option<Aggregate> {
    if key in window then Some(window[key]) else None
  }

  // What an observation judges a key by: the log's fresh samples, or else the live window's entry.
  function Live(codec: Log.Codec, file: Option<seq<Log.Byte>>, runId: string, c: Config,
                window: map<GroupKey, Aggregate>, key: GroupKey, now: real): Option<Aggregate> {
    var s := WindowSamples(Log.Records(codec, file), runId, key.0, key.1, now, c.windowSeconds);
    if s != [] then Some(FromSamples(key.0, key.1, s)) else Lookup(window, key)
  }

  // A key without evidence keeps its row; any other gets the row and the window entry its own
  // evidence makes.
  predicate Follows(c: Config, before: Row, live: Option<Aggregate>, now: real, after: Row, left: Option<Aggregate>) {
    match live
    case None => after == before && left.None?
    case Some(a) => (after, left) == ApplyAggregate(c, before, a, now)
  }

  lemma FollowsCycle(c: Cycle, rows: map<GroupKey, Row>, window: map<GroupKey, Aggregate>)
    requires InCycle(c, {}, rows, window)
    ensures forall key: GroupKey :: Follows(c.config, View(c.before, key), Lookup(c.effective, key), c.now,
                                            View(rows, key), Lookup(window, key))
  {
    forall key: GroupKey
      ensures Follows(c.config, View(c.before, key), Lookup(c.effective, key), c.now, View(rows, key),
                      Lookup(window, key))
    {
      if key in c.effective { assert Applied(c, rows, window, key); }
    }
  }

  class SharedBreaker {
    const config: Config
    const table: StateTable
    var window: map<GroupKey, Aggregate>
    var recoveryStore: FaultObservationStore?

    constructor (config: Config, table: StateTable)
      ensures window == map[] && recoveryStore == null
      ensures this.config == config && this.table == table
    {
      this.config, this.table := config, table;
      window, recoveryStore := map[], null;
    }

    // Window entries past their time to live are gone.
    method Expire(keys: set<GroupKey>)
      modifies this`window
      ensures window == old(window) - keys
    {
      window := window - keys;
    }

    function IsEligible(provider: string, reason: string, worker: Option<string>, at: real): (r: bool)
      reads table
      ensures var row := View(table.rows, (provider, reason));
              r <==> match row.state
                     case Insufficient | Normal => true
                     case Suspended => false
                     case Probing => worker.Some? && worker == row.probeOwner && row.probeExpires.Some?
                                     && at < row.probeExpires.value
    {
      Eligible(View(table.rows, (provider, reason)), worker, at)
    }

    method ApplyOne(a: Aggregate, now: real)
      modifies this`window, table
      ensures var key := (a.provider, a.reason);
              var (row, kept) := ApplyAggregate(config, View(old(table.rows), key), a, now);
              && View(table.rows, key) == row && OthersKept(old(table.rows), table.rows, key)
              && window == (if View(old(table.rows), key).recoveredAt.Some? then Kept(old(window), key, kept)
                            else old(window))
    {
      var key := (a.provider, a.reason);
      var current := View(table.rows, key);
      var evidence := a;
      if current.recoveredAt.Some? {
        var filtered := AfterRecovery(a, current.recoveredAt.value, current.recoverySequence);
        if filtered.None? {
          window := window - {key};
          return;
        }
        evidence := filtered.value;
        window := window[key := evidence];
      }
      var p := AggregateParams(current, evidence, now);
      var (next, actions) := Transition(config, current.state, Aggregated, p);
      if actions == [] { return; }
      table.rows := table.rows[key := NextValues(config, current, next, actions, p)];
    }

    // One observation cycle: the live window, overlaid with the fresh aggregates, is applied key
    // by key. Every row ends as if its own aggregate were the only one, whatever the order.
    method ApplyAggregates(aggregates: map<GroupKey, Aggregate>, now: real)
      requires KeyedRight(aggregates) && KeyedRight(window)
      modifies this`window, table
      ensures InCycle(Cycle(config, old(table.rows), old(window) + aggregates, now), {}, table.rows, window)
    {
      var effective := window + aggregates;
      ghost var cycle := Cycle(config, table.rows, effective, now);
      window := effective;
      var todo := effective.Keys;
      CycleStart(cycle, window);
      while todo != {}
        invariant todo <= effective.Keys && InCycle(cycle, todo, table.rows, window)
        decreases |todo|
      {
        var key :| key in todo;
        assert Waiting(cycle, table.rows, window, key);
        assert (effective[key].provider, effective[key].reason) == key;
        ghost var rowsBefore, windowBefore := table.rows, window;
        ApplyOne(effective[key], now);
        AppliedOne(cycle, key, rowsBefore, windowBefore, table.rows, window);
        CycleStep(cycle, todo, key, rowsBefore, windowBefore, table.rows, window);
        todo := todo - {key};
      }
    }

    method Observe(store: FaultObservationStore, now: real)
      requires KeyedRight(window) && ConfigOk(config) && now >= 0.0
      modifies this, table
      ensures KeyedRight(window) && recoveryStore == store
      ensures forall key: GroupKey ::
                var live := Live(store.codec, store.file, store.runId, config, old(window), key, now);
                Follows(config, View(old(table.rows), key), live, now, View(table.rows, key), Lookup(window, key))
    {
      recoveryStore := store;
      var aggregates := store.AggregateAll(now, config.windowSeconds);
      ghost var was, rows := window, table.rows;
      ApplyAggregates(aggregates.value, now);
      FollowsCycle(Cycle(config, rows, was + aggregates.value, now), table.rows, window);
    }

    // The fresh view for the winner, none for everyone else.
    method TryClaimProbe(provider: string, reason: string, worker: string, at: real)
      returns (reply: Outcome<Option<Row>>)
      modifies table
      ensures var key := (provider, reason);
              var (row, won) := TryClaim(config, View(old(table.rows), key), reason, worker, at);
              && View(table.rows, key) == row
              && OthersKept(old(table.rows), table.rows, key)
              && reply == match won
                          case Err(e) => Err(e)
                          case Ok(None) => Ok(None)
                          case Ok(Some(_)) => Ok(Some(row))
    {
      if Blank(worker) { return Err(Invalid); }
      var key := (provider, reason);
      var current := View(table.rows, key);
      var p := ClaimParams(current, reason, worker, at);
      var (next, actions) := Transition(config, current.state, CooldownExpired, p);
      if !next.Probing? || ClaimSlot !in actions { return Ok(None); }
      if key !in table.rows || !ClaimGuard(table.rows[key], current.probeToken, at) { return Ok(None); }
      var row := table.rows[key];
      table.rows := table.rows[key := row.(state := Probing, probeOwner := Some(worker),
                                           probeToken := row.probeToken + 1,
                                           probeExpires := Some(at + config.probeTtlSeconds))];
      return Ok(Some(View(table.rows, key)));
    }

    method FinishProbeSlot(provider: string, reason: string, worker: string, success: bool, token: int,
                           retryUntil: Option<real>, at: real) returns (reply: Outcome<bool>)
      modifies this`window, table
      ensures var key := (provider, reason);
              var checkpoint := if recoveryStore == null then None else Some(Log.Checkpoint(recoveryStore.file));
              var (row, applied) := FinishProbe(config, View(old(table.rows), key), reason, worker, success, token,
                                                retryUntil, checkpoint, at);
              && View(table.rows, key) == row && reply == applied
              && OthersKept(old(table.rows), table.rows, key)
              && window == (if applied == Ok(true) && success then old(window) - {key} else old(window))
    {
      if token < 1 { return Err(Invalid); }
      var key := (provider, reason);
      var current := View(table.rows, key);
      var hint := if success then None else retryUntil;
      var event := if success then ProbeSuccess else ProbeFailure;
      var p := FinishParams(current, reason, worker, hint, at);
      var (next, actions) := Transition(config, current.state, event, p);
      if actions == [] || current.probeToken != token { return Ok(false); }
      if key !in table.rows || !FinishGuard(table.rows[key], worker, token, at) { return Ok(false); }
      var row := table.rows[key];
      if next.Normal? {
        var checkpoint: Option<nat> := None;
        if recoveryStore != null {
          var position := recoveryStore.CheckpointNow();
          checkpoint := Some(position);
        }
        table.rows := table.rows[key := row.(state := Normal, probeOwner := None, probeExpires := None,
                                             sampleCount := 0, confirmed := 0, cooldownUntil := None,
                                             retryUntil := None, recoveredAt := Some(at),
                                             recoverySequence := checkpoint)];
      } else {
        table.rows := table.rows[key := row.(state := next, probeOwner := None, probeExpires := None,
                                             cooldownUntil := Some(CooldownDeadline(config, p)), retryUntil := hint)];
      }
      if ResetWindow in actions {
        window := window - {key};
      }
      return Ok(true);
    }
  }
}
