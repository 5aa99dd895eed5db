// The store object: the scanning, rebuilding and grouping loops, each proved against FaultLog.
module FaultStores {
  import opened Wrappers
  import opened FaultLog
  import opened FaultAggregates

  datatype IssueReason = InvalidRecord | DuplicateRecord | ConflictingRecord

  datatype Issue = Issue(line: nat, reason: IssueReason)

  datatype StoreError = InvalidObservation | RunIdMismatch | ObservationConflict | InvalidWindow

  type GroupKey = (string, string)

  function Identities(es: seq<Entry>): set<Identity> {
    set i | 0 <= i < |es| :: IdentityOf(es[i].fact)
  }

  // The two membership tests of the scan agree with `Fresh`.
  lemma FreshByLookup(es: seq<Entry>, f: Fact)
    requires DistinctKeys(es)
    ensures Fresh(es, f) <==> KeyOf(f) !in IndexOf(es) && IdentityOf(f) !in Identities(es)
  {
    IndexKey(es, f);
  }

  predicate Repeats(es: seq<Entry>, f: Fact) {
    exists i :: 0 <= i < |es| && KeyOf(es[i].fact) == KeyOf(f) && SameFacts(es[i].fact, f)
  }

  // Why the scan does not accept a line: it is no record, or it repeats an accepted one, or it
  // contradicts one.
  function ReasonFor(c: Codec, lines: seq<seq<Byte>>, line: seq<Byte>): IssueReason {
    match c.decode(line)
    case None => InvalidRecord
    case Some(f) => if Repeats(Scan(c, lines), f) then DuplicateRecord else ConflictingRecord
  }

  // What a scan diagnoses: every line it does not accept, with the reason.
  predicate Diagnosed(c: Codec, lines: seq<seq<Byte>>, es: seq<Entry>, issues: seq<Issue>) {
    && |es| + |issues| == |lines|
    && (forall i :: 0 <= i < |issues| ==>
          && 1 <= issues[i].line <= |lines|
          && issues[i].reason == ReasonFor(c, lines[..issues[i].line - 1], lines[issues[i].line - 1]))
    && (forall i, j :: 0 <= i < |issues| && 0 <= j < |es| ==> issues[i].line != es[j].line)
    && (forall i, j :: 0 <= i < j < |issues| ==> issues[i].line < issues[j].line)
  }

  lemma DiagnosedGrows(c: Codec, lines: seq<seq<Byte>>, line: seq<Byte>, issues: seq<Issue>)
    requires forall i :: 0 <= i < |issues| ==>
               1 <= issues[i].line <= |lines|
               && issues[i].reason == ReasonFor(c, lines[..issues[i].line - 1], lines[issues[i].line - 1])
    ensures var lines' := lines + [line];
            forall i :: 0 <= i < |issues| ==>
                          issues[i].reason == ReasonFor(c, lines'[..issues[i].line - 1], lines'[issues[i].line - 1])
  {
    var lines' := lines + [line];
    forall i | 0 <= i < |issues|
      ensures issues[i].reason == ReasonFor(c, lines'[..issues[i].line - 1], lines'[issues[i].line - 1])
    {
      assert lines'[..issues[i].line - 1] == lines[..issues[i].line - 1];
    }
  }

  lemma Accepted(c: Codec, lines: seq<seq<Byte>>, line: seq<Byte>, es: seq<Entry>, issues: seq<Issue>, f: Fact)
    requires Diagnosed(c, lines, es, issues) && c.decode(line) == Some(f)
    ensures var es' := es + [Entry(|lines| + 1, f)];
            && Diagnosed(c, lines + [line], es', issues)
            && IndexOf(es') == IndexOf(es)[KeyOf(f) := f]
            && Identities(es') == Identities(es) + {IdentityOf(f)}
  {
    var es' := es + [Entry(|lines| + 1, f)];
    DiagnosedGrows(c, lines, line, issues);
    assert es'[..|es'| - 1] == es;
    forall x | x in Identities(es') ensures x in Identities(es) + {IdentityOf(f)} {
      var i :| 0 <= i < |es'| && IdentityOf(es'[i].fact) == x;
      assert i < |es| ==> IdentityOf(es[i].fact) == x;
    }
    forall x | x in Identities(es) + {IdentityOf(f)} ensures x in Identities(es') {
      if x in Identities(es) {
        var i :| 0 <= i < |es| && IdentityOf(es[i].fact) == x;
        assert IdentityOf(es'[i].fact) == x;
      } else {
        assert IdentityOf(es'[|es|].fact) == x;
      }
    }
  }

  lemma Rejected(c: Codec, lines: seq<seq<Byte>>, line: seq<Byte>, es: seq<Entry>, issues: seq<Issue>)
    requires Diagnosed(c, lines, es, issues) && Numbered(es, |lines|)
    ensures Diagnosed(c, lines + [line], es, issues + [Issue(|lines| + 1, ReasonFor(c, lines, line))])
  {
    DiagnosedGrows(c, lines, line, issues);
    assert (lines + [line])[..|lines|] == lines;
  }

  // A repeated record is the one the index holds under its key.
  lemma RepeatsByLookup(es: seq<Entry>, f: Fact)
    requires DistinctKeys(es)
    ensures Repeats(es, f) <==> KeyOf(f) in IndexOf(es) && SameFacts(IndexOf(es)[KeyOf(f)], f)
  {
    IndexKey(es, f);
  }

  // One pass of the scanning loop, in terms of its dictionary and its set.
  lemma ScanOne(c: Codec, lines: seq<seq<Byte>>, line: seq<Byte>, es: seq<Entry>, issues: seq<Issue>)
    requires es == Scan(c, lines) && Diagnosed(c, lines, es, issues)
    ensures c.decode(line).None? ==>
              Scan(c, lines + [line]) == es
              && Diagnosed(c, lines + [line], es, issues + [Issue(|lines| + 1, InvalidRecord)])
    ensures c.decode(line).Some? ==>
              var f := c.decode(line).value;
              var known := KeyOf(f) in IndexOf(es);
              if known || IdentityOf(f) in Identities(es) then
                var reason := if known && SameFacts(IndexOf(es)[KeyOf(f)], f) then DuplicateRecord
                              else ConflictingRecord;
                Scan(c, lines + [line]) == es
                && Diagnosed(c, lines + [line], es, issues + [Issue(|lines| + 1, reason)])
              else
                var es' := es + [Entry(|lines| + 1, f)];
                Scan(c, lines + [line]) == es' && Diagnosed(c, lines + [line], es', issues)
                && IndexOf(es') == IndexOf(es)[KeyOf(f) := f]
                && Identities(es') == Identities(es) + {IdentityOf(f)}
  {
    ScanSnoc(c, lines, line);
    ScanDistinct(c, lines);
    Rejected(c, lines, line, es, issues);
    if c.decode(line).Some? {
      var f := c.decode(line).value;
      FreshByLookup(es, f);
      RepeatsByLookup(es, f);
      Accepted(c, lines, line, es, issues, f);
    }
  }

  predicate Grouped(es: seq<Entry>, runId: string, now: real, window: real, groups: map<GroupKey, seq<Sample>>) {
    && (forall k: GroupKey :: k in groups ==>
          groups[k] != [] && groups[k] == WindowSamples(es, runId, k.0, k.1, now, window))
    && (forall i :: 0 <= i < |es| && InWindow(es[i], runId, es[i].fact.provider, es[i].fact.reason, now, window) ==>
          (es[i].fact.provider, es[i].fact.reason) in groups)
  }

  // One more record changes the group of its own key and no other.
  lemma GroupOne(es: seq<Entry>, e: Entry, runId: string, now: real, window: real,
                 groups: map<GroupKey, seq<Sample>>)
    requires Grouped(es, runId, now, window, groups)
    requires (e.fact.provider, e.fact.reason) !in groups ==>
               WindowSamples(es, runId, e.fact.provider, e.fact.reason, now, window) == []
    ensures var k := (e.fact.provider, e.fact.reason);
            var before := if k in groups then groups[k] else [];
            Grouped(es + [e], runId, now, window,
                    if InWindow(e, runId, k.0, k.1, now, window) then groups[k := before + [SampleOf(e)]] else groups)
  {
    assert (es + [e])[..|es + [e]| - 1] == es;
  }

  lemma {:induction false} NoGroupNoSamples(es: seq<Entry>, runId: string, now: real, window: real,
                                            groups: map<GroupKey, seq<Sample>>, k: GroupKey)
    requires Grouped(es, runId, now, window, groups) && k !in groups
    ensures WindowSamples(es, runId, k.0, k.1, now, window) == []
  {
    NotInWindow(es, runId, now, window, k);
  }

  lemma {:induction false} NotInWindow(es: seq<Entry>, runId: string, now: real, window: real, k: GroupKey)
    requires forall i :: 0 <= i < |es| ==> !InWindow(es[i], runId, k.0, k.1, now, window)
    ensures WindowSamples(es, runId, k.0, k.1, now, window) == []
  {
    if es != [] {
      NotInWindow(es[..|es| - 1], runId, now, window, k);
    }
  }

  // The scanning loop after some lines.
  predicate Scanned(c: Codec, lines: seq<seq<Byte>>, es: seq<Entry>, issues: seq<Issue>, records: map<Key, Fact>,
                    identities: set<Identity>) {
    && es == Scan(c, lines) && Diagnosed(c, lines, es, issues)
    && records == IndexOf(es) && identities == Identities(es)
  }

  method ScanLine(c: Codec, before: seq<seq<Byte>>, line: seq<Byte>, es: seq<Entry>, issues: seq<Issue>,
                  records: map<Key, Fact>, identities: set<Identity>)
    returns (es': seq<Entry>, issues': seq<Issue>, records': map<Key, Fact>, identities': set<Identity>)
    requires Scanned(c, before, es, issues, records, identities)
    ensures Scanned(c, before + [line], es', issues', records', identities')
  {
    ScanOne(c, before, line, es, issues);
    es', issues', records', identities' := es, issues, records, identities;
    var number := |before| + 1;
    match c.decode(line) {
      case None =>
        issues' := issues + [Issue(number, InvalidRecord)];
      case Some(fact) =>
        if KeyOf(fact) in records {
          var same := SameFacts(records[KeyOf(fact)], fact);
          issues' := issues + [Issue(number, if same then DuplicateRecord else ConflictingRecord)];
        } else if IdentityOf(fact) in identities {
          issues' := issues + [Issue(number, ConflictingRecord)];
        } else {
          es' := es + [Entry(number, fact)];
          records' := records[KeyOf(fact) := fact];
          identities' := identities + {IdentityOf(fact)};
        }
    }
  }

  method ScanLines(c: Codec, lines: seq<seq<Byte>>) returns (entries: seq<Entry>, issues: seq<Issue>)
    ensures entries == Scan(c, lines) && Diagnosed(c, lines, entries, issues)
  {
    entries, issues := [], [];
    var records: map<Key, Fact>, identities: set<Identity> := map[], {};
    var before: seq<seq<Byte>> := [];
    for number := 0 to |lines|
      invariant before == lines[..number]
      invariant Scanned(c, before, entries, issues, records, identities)
    {
      var line := lines[number];
      entries, issues, records, identities := ScanLine(c, before, line, entries, issues, records, identities);
      before := before + [line];
    }
    assert before == lines;
  }

  class FaultObservationStore {
    const codec: Codec
    const runId: string
    var file: Option<seq<Byte>>
    var stamp: nat
    var rows: Option<map<Key, Fact>>
    var signature: Option<Signature>

    constructor (codec: Codec, runId: string)
      ensures State() == EMPTY && this.codec == codec && this.runId == runId
    {
      this.codec, this.runId := codec, runId;
      file, stamp, rows, signature := None, 0, None, None;
    }

    function State(): Store
      reads this
    {
      Store(file, stamp, rows, signature)
    }

    method ReadAll() returns (entries: seq<Entry>, issues: seq<Issue>)
      ensures entries == Records(codec, file)
      ensures file.Some? ==> Diagnosed(codec, Lines(file.value), entries, issues)
      ensures file.None? ==> issues == []
    {
      if file.None? { return [], []; }
      entries, issues := ScanLines(codec, Lines(file.value));
    }

    method EnsureIndex()
      modifies this
      ensures State() == Ensured(codec, old(State()))
    {
      if rows.Some? && signature == Some(FileSignature(State())) { return; }
      var entries, _ := ReadAll();
      var index: map<Key, Fact> := map[];
      for i := 0 to |entries|
        invariant index == IndexOf(entries[..i])
        invariant State() == old(State())
      {
        assert entries[..i + 1][..i] == entries[..i];
        index := index[KeyOf(entries[i].fact) := entries[i].fact];
      }
      assert entries[..|entries|] == entries;
      rows, signature := Some(index), Some(FileSignature(State()));
    }

    // True for a new record, False for a replay.
    method Append(f: Fact) returns (reply: Result<bool, StoreError>)
      modifies this
      ensures !codec.valid(f) ==> State() == old(State()) && reply == Err(InvalidObservation)
      ensures codec.valid(f) && f.runId != runId ==> State() == old(State()) && reply == Err(RunIdMismatch)
      ensures codec.valid(f) && f.runId == runId ==>
                State() == Appended(codec, old(State()), f).0
                && reply == match Appended(codec, old(State()), f).1
                            case Conflict => Err(ObservationConflict)
                            case Replay => Ok(false)
                            case Append => Ok(true)
    {
      if !codec.valid(f) { return Err(InvalidObservation); }
      if f.runId != runId { return Err(RunIdMismatch); }
      EnsureIndex();
      var index := rows.value;
      if KeyOf(f) in index && !SameFacts(index[KeyOf(f)], f) { return Err(ObservationConflict); }
      if exists k :: k in index && Elsewhere(index, k, f) { return Err(ObservationConflict); }
      if KeyOf(f) in index { return Ok(false); }
      var content := Bytes(State());
      if content != [] && content[|content| - 1] != NEWLINE {
        content := content + [NEWLINE];
      }
      content := content + codec.encode(f) + [NEWLINE];
      assert content == old(Bytes(State())) + Payload(codec, old(State()), f);
      file, stamp := Some(content), stamp + 1;
      rows := Some(index[KeyOf(f) := f]);
      signature := Some(FileSignature(State()));
      return Ok(true);
    }

    method CheckpointNow() returns (n: nat)
      ensures n == Checkpoint(file)
    {
      n := if file.Some? then |Lines(file.value)| else 0;
    }

    // Every (provider, reason) with failures of this run in the window, with exactly those.
    method AggregateAll(now: real, window: real) returns (reply: Result<map<GroupKey, Aggregate>, StoreError>)
      ensures reply.Err? <==> now < 0.0 || window <= 0.0
      ensures reply.Ok? ==>
                forall k: GroupKey ::
                  var s := WindowSamples(Records(codec, file), runId, k.0, k.1, now, window);
                  (k in reply.value <==> s != [])
                  && (k in reply.value ==> reply.value[k] == FromSamples(k.0, k.1, s))
      ensures reply.Ok? ==>
                forall k: GroupKey, x ::
                  (k in reply.value && x in reply.value[k].samples) <==>
                  Shown(Records(codec, file), runId, k.0, k.1, now, window, x)
    {
      if now < 0.0 || window <= 0.0 { return Err(InvalidWindow); }
      var groups: map<GroupKey, seq<Sample>> := map[];
      var entries, _ := ReadAll();
      for i := 0 to |entries|
        invariant Grouped(entries[..i], runId, now, window, groups)
      {
        var e := entries[i];
        var key := (e.fact.provider, e.fact.reason);
        if key !in groups { NoGroupNoSamples(entries[..i], runId, now, window, groups, key); }
        GroupOne(entries[..i], e, runId, now, window, groups);
        assert entries[..i + 1] == entries[..i] + [e];
        if e.fact.runId == runId && now - window < e.fact.occurredAt <= now {
          groups := groups[key := (if key in groups then groups[key] else []) + [SampleOf(e)]];
        }
      }
      assert entries[..|entries|] == entries;
      forall k: GroupKey | k !in groups
        ensures WindowSamples(entries, runId, k.0, k.1, now, window) == []
      {
        NoGroupNoSamples(entries, runId, now, window, groups, k);
      }
      RecordsDistinct(codec, file);
      forall k: GroupKey, x
        ensures x in WindowSamples(entries, runId, k.0, k.1, now, window) <==>
                Shown(entries, runId, k.0, k.1, now, window, x)
      {
        WindowIsExact(entries, runId, k.0, k.1, now, window, Checkpoint(file));
      }
      return Ok(map k: GroupKey | k in groups :: FromSamples(k.0, k.1, groups[k]));
    }
  }
}
