// The append-only failure log: bytes, lines, the first-valid-wins scan, and the rebuildable index.
module FaultLog {
  import opened Wrappers
  import opened Runs

  newtype Byte = b: int | 0 <= b < 256

  const NEWLINE: Byte := 10

  datatype FailureClass = ConfirmedRejection | UnknownEffect | BudgetExhausted | CapabilityMismatch

  datatype CostState = CostSettled | CostUnknown | CostReserved

  datatype Fact = Fact(observationId: string, runId: string, taskId: string, requestId: string, attempt: nat,
                       provider: string, model: string, failureClass: FailureClass, reason: string,
                       retryAfter: Option<real>, switchedTo: Option<string>, costState: Option<CostState>,
                       occurredAt: real, evidenceRef: Option<string>)

  type Key = (string, string, nat)
  type Identity = (string, string)

  function KeyOf(f: Fact): Key {
    (f.runId, f.requestId, f.attempt)
  }

  function IdentityOf(f: Fact): Identity {
    (f.runId, f.observationId)
  }

  // A replay may regenerate the observation id and nothing else.
  predicate SameFacts(a: Fact, b: Fact) {
    a.(observationId := b.observationId) == b
  }

  // The record model and its encoding: the facts it accepts, one JSON object per line, no proper
  // prefix of which is valid.
  datatype Codec = Codec(valid: Fact -> bool, encode: Fact -> seq<Byte>, decode: seq<Byte> -> Option<Fact>)

  ghost predicate CodecOk(c: Codec) {
    forall f :: c.valid(f) ==>
                  && NEWLINE !in c.encode(f) && c.encode(f) != []
                  && c.decode(c.encode(f)) == Some(f)
                  && (forall n :: 0 <= n < |c.encode(f)| ==> c.decode(c.encode(f)[..n]) == None)
  }

  // ---- Lines ----

  function LineEnd(b: seq<Byte>): (n: nat)
    ensures n <= |b| && NEWLINE !in b[..n]
    ensures n < |b| ==> b[n] == NEWLINE
  {
    if b == [] || b[0] == NEWLINE then 0
    else
      var n := LineEnd(b[1..]);
      assert b[..n + 1] == [b[0]] + b[1..][..n];
      n + 1
  }

  // Iterating a binary file: an unterminated last fragment is a line as well.
  function Lines(b: seq<Byte>): seq<seq<Byte>> {
    if b == [] then []
    else
      var n := LineEnd(b);
      if n == |b| then [b] else [b[..n]] + Lines(b[n + 1..])
  }

  predicate Terminated(b: seq<Byte>) {
    b == [] || b[|b| - 1] == NEWLINE
  }

  // What `append` writes before the payload: a newline sealing a torn last line.
  function Seal(b: seq<Byte>): seq<Byte> {
    if Terminated(b) then [] else [NEWLINE]
  }

  // ---- Scan ----

  datatype Entry = Entry(line: nat, fact: Fact)

  predicate Fresh(es: seq<Entry>, f: Fact) {
    forall i :: 0 <= i < |es| ==> KeyOf(es[i].fact) != KeyOf(f) && IdentityOf(es[i].fact) != IdentityOf(f)
  }

  // Records in file order; the first valid line for a key, and for an identity, wins.
  function Scan(c: Codec, lines: seq<seq<Byte>>): seq<Entry> {
    if lines == [] then []
    else
      var front := Scan(c, lines[..|lines| - 1]);
      match c.decode(lines[|lines| - 1])
      case None => front
      case Some(f) => if Fresh(front, f) then front + [Entry(|lines|, f)] else front
  }

  function Records(c: Codec, file: Option<seq<Byte>>): seq<Entry> {
    if file.Some? then Scan(c, Lines(file.value)) else []
  }

  // `checkpoint`: the number of lines, a torn one included.
  function Checkpoint(file: Option<seq<Byte>>): nat {
    if file.Some? then |Lines(file.value)| else 0
  }

  // ---- Deciding an append ----

  datatype Decision = Conflict | Replay | Append

  // The observation id is taken by another request attempt.
  predicate Elsewhere(rows: map<Key, Fact>, k: Key, f: Fact) {
    k in rows && IdentityOf(rows[k]) == IdentityOf(f) && k != KeyOf(f)
  }

  predicate ElsewhereAt(es: seq<Entry>, i: int, f: Fact) {
    0 <= i < |es| && IdentityOf(es[i].fact) == IdentityOf(f) && KeyOf(es[i].fact) != KeyOf(f)
  }

  // What a full scan of the file says about a new observation.
  function DecideByScan(es: seq<Entry>, f: Fact): Decision {
    if exists i :: 0 <= i < |es| && KeyOf(es[i].fact) == KeyOf(f) && !SameFacts(es[i].fact, f) then Conflict
    else if exists i :: 0 <= i < |es| && ElsewhereAt(es, i, f) then Conflict
    else if exists i :: 0 <= i < |es| && KeyOf(es[i].fact) == KeyOf(f) then Replay
    else Append
  }

  // What the index says.
  function DecideByIndex(rows: map<Key, Fact>, f: Fact): Decision {
    if KeyOf(f) in rows && !SameFacts(rows[KeyOf(f)], f) then Conflict
    else if exists k :: k in rows && Elsewhere(rows, k, f) then Conflict
    else if KeyOf(f) in rows then Replay
    else Append
  }

  // ---- The store ----

  datatype Signature = Missing | Stat(stamp: nat)

  // `stamp` stands for the file's stat fields: every write changes it.
  datatype Store = Store(file: Option<seq<Byte>>, stamp: nat, rows: Option<map<Key, Fact>>,
                         signature: Option<Signature>)

  const EMPTY := Store(None, 0, None, None)

  function FileSignature(s: Store): Signature {
    if s.file.Some? then Stat(s.stamp) else Missing
  }

  // One `_index_record` per scanned record.
  function IndexOf(es: seq<Entry>): map<Key, Fact> {
    if es == [] then map[]
    else IndexOf(es[..|es| - 1])[KeyOf(es[|es| - 1].fact) := es[|es| - 1].fact]
  }

  predicate Trusted(s: Store) {
    s.rows.Some? && s.signature == Some(FileSignature(s))
  }

  // `_ensure_index`: keep a trusted index, rebuild any other from the file.
  function Ensured(c: Codec, s: Store): Store {
    if Trusted(s) then s
    else s.(rows := Some(IndexOf(Records(c, s.file))), signature := Some(FileSignature(s)))
  }

  function Bytes(s: Store): seq<Byte> {
    if s.file.Some? then s.file.value else []
  }

  // Everything an append writes, in order.
  function Payload(c: Codec, s: Store, f: Fact): seq<Byte> {
    Seal(Bytes(s)) + c.encode(f) + [NEWLINE]
  }

  function Appended(c: Codec, s: Store, f: Fact): (Store, Decision) {
    var ready := Ensured(c, s);
    var decision := DecideByIndex(ready.rows.value, f);
    if decision.Append? then
      var written := ready.(file := Some(Bytes(s) + Payload(c, s, f)), stamp := s.stamp + 1);
      (written.(rows := Some(ready.rows.value[KeyOf(f) := f]), signature := Some(Stat(s.stamp + 1))), decision)
    else (ready, decision)
  }

  // A crash after `n` bytes: the file keeps them, the index transaction is rolled back.
  function Torn(c: Codec, s: Store, f: Fact, n: nat): Store {
    if DecideByIndex(Ensured(c, s).rows.value, f).Append? && n <= |Payload(c, s, f)| then
      s.(file := Some(Bytes(s) + Payload(c, s, f)[..n]), stamp := s.stamp + 1)
    else s
  }

  datatype Op =
    | DoAppend(fact: Fact)
    | DoTorn(fact: Fact, n: nat)
    | LoseIndex
    | Reopen

  function Step(c: Codec, s: Store, op: Op): Store {
    match op
    case DoAppend(f) => if c.valid(f) then Appended(c, s, f).0 else s
    case DoTorn(f, n) => if c.valid(f) then Torn(c, s, f, n) else s
    case LoseIndex => s.(rows := None, signature := None)
    case Reopen => s
  }

  // An index that claims the current file really is that file's index.
  ghost predicate StoreOk(c: Codec, s: Store) {
    && (s.signature.Some? && s.signature.value.Stat? ==> s.signature.value.stamp <= s.stamp)
    && (Trusted(s) ==> s.rows.value == IndexOf(Records(c, s.file)))
  }

  // ---- Line lemmas ----

  lemma LineEndAppend(a: seq<Byte>, b: seq<Byte>)
    requires NEWLINE in a
    ensures LineEnd(a + b) == LineEnd(a) < |a|
  {
    if a[0] != NEWLINE {
      assert (a + b)[1..] == a[1..] + b;
      LineEndAppend(a[1..], b);
    }
  }

  lemma FirstLine(a: seq<Byte>, n: nat)
    requires n == LineEnd(a) < |a|
    ensures Lines(a) == [a[..n]] + Lines(a[n + 1..])
  {
  }

  // A text whose first line ends inside `a` splits there, whatever follows.
  lemma FirstLineAppend(a: seq<Byte>, b: seq<Byte>, n: nat)
    requires NEWLINE in a && n == LineEnd(a)
    ensures n < |a| && Lines(a + b) == [a[..n]] + Lines(a[n + 1..] + b)
  {
    LineEndAppend(a, b);
    FirstLine(a + b, n);
    assert (a + b)[..n] == a[..n];
    assert (a + b)[n + 1..] == a[n + 1..] + b;
  }

  lemma Prepended<T>(x: T, p: seq<T>, q: seq<T>)
    ensures [x] + (p + q) == ([x] + p) + q
  {
  }

  lemma {:induction false} LinesAppend(a: seq<Byte>, b: seq<Byte>)
    requires Terminated(a)
    ensures Lines(a + b) == Lines(a) + Lines(b)
    decreases |a|
  {
    if a == [] {
      assert a + b == b;
    } else {
      var n := LineEnd(a);
      FirstLineAppend(a, b, n);
      FirstLine(a, n);
      var rest := a[n + 1..];
      LinesAppend(rest, b);
      Prepended(a[..n], Lines(rest), Lines(b));
    }
  }

  lemma OneLine(p: seq<Byte>)
    requires NEWLINE !in p && p != []
    ensures Lines(p) == [p] && Lines(p + [NEWLINE]) == [p]
  {
    assert LineEnd(p) == |p|;
    var t := p + [NEWLINE];
    LineEndIs(p, [NEWLINE]);
    assert t[..|p|] == p && t[|p| + 1..] == [];
  }

  lemma LineEndIs(p: seq<Byte>, rest: seq<Byte>)
    requires NEWLINE !in p && rest != [] && rest[0] == NEWLINE
    ensures LineEnd(p + rest) == |p|
  {
    if p != [] {
      assert (p + rest)[1..] == p[1..] + rest;
      LineEndIs(p[1..], rest);
    } else {
      assert p + rest == rest;
    }
  }

  // Sealing a torn line adds no line.
  lemma {:induction false} LinesSealed(a: seq<Byte>)
    ensures Lines(a + Seal(a)) == Lines(a) && Terminated(a + Seal(a))
    decreases |a|
  {
    if Terminated(a) {
      assert a + Seal(a) == a;
    } else if NEWLINE !in a {
      OneLine(a);
    } else {
      var n := LineEnd(a);
      FirstLineAppend(a, [NEWLINE], n);
      FirstLine(a, n);
      var rest := a[n + 1..];
      TornRest(a, n);
      LinesSealed(rest);
    }
  }

  lemma TornRest(a: seq<Byte>, n: nat)
    requires n < |a| && a[n] == NEWLINE && !Terminated(a)
    ensures !Terminated(a[n + 1..])
  {
    assert n < |a| - 1;
    assert a[n + 1..][|a| - n - 2] == a[|a| - 1];
  }

  // ---- Scan lemmas ----

  lemma ScanSnoc(c: Codec, lines: seq<seq<Byte>>, line: seq<Byte>)
    ensures Scan(c, lines + [line]) ==
            match c.decode(line)
            case None => Scan(c, lines)
            case Some(f) =>
              if Fresh(Scan(c, lines), f) then Scan(c, lines) + [Entry(|lines| + 1, f)] else Scan(c, lines)
  {
    assert (lines + [line])[..|lines + [line]| - 1] == lines;
  }

  predicate DistinctKeys(es: seq<Entry>) {
    forall i, j :: 0 <= i < j < |es| ==> KeyOf(es[i].fact) != KeyOf(es[j].fact)
  }

  predicate DistinctIdentities(es: seq<Entry>) {
    forall i, j :: 0 <= i < j < |es| ==> IdentityOf(es[i].fact) != IdentityOf(es[j].fact)
  }

  // Line numbers grow, from 1 to at most `last`.
  predicate Numbered(es: seq<Entry>, last: nat) {
    && (forall i :: 0 <= i < |es| ==> 1 <= es[i].line <= last)
    && (forall i, j :: 0 <= i < j < |es| ==> es[i].line < es[j].line)
  }

  // Scanned records have distinct keys and distinct identities: a rebuild never violates the
  // index's primary key or its uniqueness constraint.
  lemma {:induction false} ScanDistinct(c: Codec, lines: seq<seq<Byte>>)
    ensures DistinctKeys(Scan(c, lines)) && DistinctIdentities(Scan(c, lines)) && Numbered(Scan(c, lines), |lines|)
  {
    if lines == [] {
      assert Scan(c, lines) == [];
    } else {
      ScanDistinct(c, lines[..|lines| - 1]);
    }
  }

  // The same request attempt of the same run, and the same observation of it.
  predicate SameAttempt(a: Fact, b: Fact) {
    a.runId == b.runId && a.requestId == b.requestId && a.attempt == b.attempt
  }

  predicate SameObservation(a: Fact, b: Fact) {
    a.runId == b.runId && a.observationId == b.observationId
  }

  // Every recorded fact but its observation identifier agrees.
  predicate SameContent(a: Fact, b: Fact) {
    && SameAttempt(a, b) && a.taskId == b.taskId && a.provider == b.provider && a.model == b.model
    && a.failureClass == b.failureClass && a.reason == b.reason && a.retryAfter == b.retryAfter
    && a.switchedTo == b.switchedTo && a.costState == b.costState && a.occurredAt == b.occurredAt
    && a.evidenceRef == b.evidenceRef
  }

  predicate Claims(es: seq<Entry>, n: nat, f: Fact) {
    exists i :: 0 <= i < |es| && es[i].line < n && (SameAttempt(es[i].fact, f) || SameObservation(es[i].fact, f))
  }

  // A line is on record exactly when it is valid and no earlier line on record has its request
  // attempt or its observation: the first valid line wins.
  lemma {:induction false} FirstValidWins(c: Codec, lines: seq<seq<Byte>>, n: nat, f: Fact)
    requires 1 <= n <= |lines|
    ensures Entry(n, f) in Scan(c, lines) <==> c.decode(lines[n - 1]) == Some(f) && !Claims(Scan(c, lines), n, f)
    decreases |lines|
  {
    var front, last := lines[..|lines| - 1], lines[|lines| - 1];
    var before, es := Scan(c, front), Scan(c, lines);
    ScanDistinct(c, lines);
    ScanDistinct(c, front);
    assert Claims(es, n, f) <==> Claims(before, n, f) by {
      assert forall i :: 0 <= i < |before| ==> es[i] == before[i];
    }
    if n == |lines| {
      LastLine(before, n, f);
      assert forall i :: 0 <= i < |before| ==> before[i].line < n;
    } else {
      FirstValidWins(c, front, n, f);
      assert lines[n - 1] == front[n - 1];
      assert Entry(n, f) in es <==> Entry(n, f) in before;
    }
  }

  lemma LastLine(before: seq<Entry>, n: nat, f: Fact)
    requires n > 0 && Numbered(before, n - 1)
    ensures Claims(before, n, f) <==> !Fresh(before, f)
  {
    if !Fresh(before, f) {
      var i :| 0 <= i < |before| && !(KeyOf(before[i].fact) != KeyOf(f) && IdentityOf(before[i].fact) != IdentityOf(f));
      assert before[i].line < n;
    }
  }

  // What the records say about an observation: a conflict when its attempt is on record with other
  // facts, or its identifier under another attempt; else a replay when its attempt is on record.
  lemma DecidesExactly(es: seq<Entry>, f: Fact)
    ensures DecideByScan(es, f) == Conflict <==>
            exists i :: 0 <= i < |es|
                        && (if SameAttempt(es[i].fact, f) then !SameContent(es[i].fact, f)
                            else SameObservation(es[i].fact, f))
    ensures DecideByScan(es, f) == Append <==>
            forall i :: 0 <= i < |es| ==> !SameAttempt(es[i].fact, f) && !SameObservation(es[i].fact, f)
  {
    forall i | 0 <= i < |es|
      ensures KeyOf(es[i].fact) == KeyOf(f) <==> SameAttempt(es[i].fact, f)
      ensures SameAttempt(es[i].fact, f) ==> (SameFacts(es[i].fact, f) <==> SameContent(es[i].fact, f))
      ensures ElsewhereAt(es, i, f) <==> SameObservation(es[i].fact, f) && !SameAttempt(es[i].fact, f)
    {
    }
    AppendMeansFresh(es, f);
  }

  predicate Recorded(es: seq<Entry>, f: Fact) {
    exists i :: 0 <= i < |es| && es[i].fact == f
  }

  // Read backwards, the index rows are the scanned records under their own keys.
  lemma {:induction false} IndexHolds(es: seq<Entry>, f: Fact)
    requires DistinctKeys(es)
    ensures Recorded(es, f) <==> KeyOf(f) in IndexOf(es) && IndexOf(es)[KeyOf(f)] == f
    ensures KeyOf(f) in IndexOf(es) ==> Recorded(es, IndexOf(es)[KeyOf(f)]) && KeyOf(IndexOf(es)[KeyOf(f)]) == KeyOf(f)
  {
    if es != [] {
      var front, last := es[..|es| - 1], es[|es| - 1].fact;
      IndexHolds(front, f);
      assert Recorded(es, f) <==> Recorded(front, f) || f == last by {
        if i :| 0 <= i < |front| && front[i].fact == f { assert es[i].fact == f; }
        if i :| 0 <= i < |es| && es[i].fact == f { assert i == |es| - 1 || front[i].fact == f; }
      }
      if KeyOf(f) == KeyOf(last) {
        assert es[|es| - 1].fact == last;
        assert forall i :: 0 <= i < |front| ==> KeyOf(es[i].fact) != KeyOf(last);
      } else if KeyOf(f) in IndexOf(front) {
        var i :| 0 <= i < |front| && front[i].fact == IndexOf(front)[KeyOf(f)];
        assert es[i].fact == IndexOf(es)[KeyOf(f)];
      }
    }
  }

  lemma IndexKey(es: seq<Entry>, f: Fact)
    requires DistinctKeys(es)
    ensures KeyOf(f) in IndexOf(es) <==> exists i :: 0 <= i < |es| && KeyOf(es[i].fact) == KeyOf(f)
    ensures forall i :: 0 <= i < |es| && KeyOf(es[i].fact) == KeyOf(f) ==> IndexOf(es)[KeyOf(f)] == es[i].fact
  {
    forall i | 0 <= i < |es| && KeyOf(es[i].fact) == KeyOf(f)
      ensures KeyOf(f) in IndexOf(es) && IndexOf(es)[KeyOf(f)] == es[i].fact
    {
      IndexHolds(es, es[i].fact);
      assert Recorded(es, es[i].fact);
    }
    IndexHolds(es, f);
  }

  lemma {:induction false} KeyMatches(es: seq<Entry>, k: Key)
    ensures k in IndexOf(es) ==> KeyOf(IndexOf(es)[k]) == k
  {
    if es != [] {
      KeyMatches(es[..|es| - 1], k);
    }
  }

  lemma IndexIdentity(es: seq<Entry>, f: Fact)
    requires DistinctKeys(es)
    ensures (exists k :: Elsewhere(IndexOf(es), k, f)) <==> (exists i :: ElsewhereAt(es, i, f))
  {
    var rows := IndexOf(es);
    if k :| Elsewhere(rows, k, f) {
      KeyMatches(es, k);
      IndexHolds(es, rows[k]);
      var i :| 0 <= i < |es| && es[i].fact == rows[k];
      assert ElsewhereAt(es, i, f);
    }
    if i :| ElsewhereAt(es, i, f) {
      IndexHolds(es, es[i].fact);
      assert Recorded(es, es[i].fact);
      assert Elsewhere(rows, KeyOf(es[i].fact), f);
    }
  }

  // The index decides exactly what a full scan of the same records would decide.
  lemma IndexDecidesAsScan(es: seq<Entry>, f: Fact)
    requires DistinctKeys(es)
    ensures DecideByIndex(IndexOf(es), f) == DecideByScan(es, f)
  {
    IndexKey(es, f);
    IndexIdentity(es, f);
  }

  // A scan-level append verdict means neither key nor identity has been seen.
  lemma AppendMeansFresh(es: seq<Entry>, f: Fact)
    ensures DecideByScan(es, f).Append? <==> Fresh(es, f)
  {
    if !Fresh(es, f) {
      var i :| 0 <= i < |es| && !(KeyOf(es[i].fact) != KeyOf(f) && IdentityOf(es[i].fact) != IdentityOf(f));
      assert KeyOf(es[i].fact) == KeyOf(f) || ElsewhereAt(es, i, f);
    }
  }

  // ---- Every operation keeps the index honest ----

  lemma EnsuredOk(c: Codec, s: Store)
    requires StoreOk(c, s)
    ensures var r := Ensured(c, s);
            && StoreOk(c, r) && Trusted(r) && r.rows.value == IndexOf(Records(c, s.file))
            && r.file == s.file && r.stamp == s.stamp
  {
  }

  lemma RecordsDistinct(c: Codec, file: Option<seq<Byte>>)
    ensures var es := Records(c, file);
            DistinctKeys(es) && DistinctIdentities(es) && Numbered(es, Checkpoint(file))
  {
    if file.Some? { ScanDistinct(c, Lines(file.value)); }
  }

  // From any crash point, `append` decides as a full first-valid-wins scan of the file would.
  lemma AppendDecidesByScan(c: Codec, s: Store, f: Fact)
    requires StoreOk(c, s)
    ensures Appended(c, s, f).1 == DecideByScan(Records(c, s.file), f)
  {
    EnsuredOk(c, s);
    RecordsDistinct(c, s.file);
    IndexDecidesAsScan(Records(c, s.file), f);
  }

  lemma Associates(a: seq<Byte>, b: seq<Byte>, c: seq<Byte>)
    ensures a + (b + c) == (a + b) + c
  {
  }

  lemma BodyWritten(a: seq<Byte>, body: seq<Byte>)
    requires NEWLINE !in body && body != []
    ensures Lines(a + (Seal(a) + body)) == Lines(a) + [body]
  {
    LinesSealed(a);
    OneLine(body);
    LinesAppend(a + Seal(a), body);
    Associates(a, Seal(a), body);
  }

  lemma LineWritten(a: seq<Byte>, body: seq<Byte>)
    requires NEWLINE !in body && body != []
    ensures Lines(a + (Seal(a) + body + [NEWLINE])) == Lines(a) + [body]
  {
    LinesSealed(a);
    OneLine(body);
    LinesAppend(a + Seal(a), body + [NEWLINE]);
    Associates(Seal(a), body, [NEWLINE]);
    Associates(a, Seal(a), body + [NEWLINE]);
  }

  lemma WrittenLines(c: Codec, s: Store, f: Fact)
    requires CodecOk(c) && c.valid(f)
    ensures Lines(Bytes(s) + Payload(c, s, f)) == Lines(Bytes(s)) + [c.encode(f)]
  {
    LineWritten(Bytes(s), c.encode(f));
  }

  lemma BytesRecords(c: Codec, s: Store)
    ensures Records(c, s.file) == Scan(c, Lines(Bytes(s))) && Checkpoint(s.file) == |Lines(Bytes(s))|
  {
  }

  // A True result makes the scanned records the old ones plus exactly the new one, on a new
  // last line; a replay or a conflict leaves the file alone.
  lemma AppendAddsExactlyOne(c: Codec, s: Store, f: Fact)
    requires CodecOk(c) && StoreOk(c, s) && c.valid(f)
    ensures var (s', d) := Appended(c, s, f);
            if d.Append? then
              && Records(c, s'.file) == Records(c, s.file) + [Entry(Checkpoint(s.file) + 1, f)]
              && Checkpoint(s'.file) == Checkpoint(s.file) + 1
              && Bytes(s) <= Bytes(s')
            else s'.file == s.file
  {
    AppendDecidesByScan(c, s, f);
    if Appended(c, s, f).1.Append? {
      AppendMeansFresh(Records(c, s.file), f);
      BytesRecords(c, s);
      WrittenLines(c, s, f);
      ScanSnoc(c, Lines(Bytes(s)), c.encode(f));
    }
  }

  lemma AppendedOk(c: Codec, s: Store, f: Fact)
    requires CodecOk(c) && StoreOk(c, s) && c.valid(f)
    ensures StoreOk(c, Appended(c, s, f).0) && Trusted(Appended(c, s, f).0)
  {
    EnsuredOk(c, s);
    AppendAddsExactlyOne(c, s, f);
    var es, s' := Records(c, s.file), Appended(c, s, f).0;
    if Appended(c, s, f).1.Append? {
      var es' := Records(c, s'.file);
      assert es'[..|es'| - 1] == es;
    }
  }

  // A crash before the record's first byte adds no line.
  lemma TornInSeal(c: Codec, s: Store, f: Fact, n: nat)
    requires n <= |Seal(Bytes(s))|
    ensures Lines(Bytes(s) + Payload(c, s, f)[..n]) == Lines(Bytes(s))
  {
    var a, sealed, p := Bytes(s), Seal(Bytes(s)), Payload(c, s, f);
    LinesSealed(a);
    if n == 0 {
      assert a + p[..n] == a;
    } else {
      assert p[..n] == sealed;
    }
  }

  // A crash inside the record leaves its first bytes as a line.
  lemma TornInBody(c: Codec, s: Store, f: Fact, n: nat)
    requires CodecOk(c) && c.valid(f) && |Seal(Bytes(s))| < n <= |Seal(Bytes(s))| + |c.encode(f)|
    ensures Lines(Bytes(s) + Payload(c, s, f)[..n]) == Lines(Bytes(s)) + [c.encode(f)[..n - |Seal(Bytes(s))|]]
  {
    var sealed := Seal(Bytes(s));
    var body := c.encode(f)[..n - |sealed|];
    assert Payload(c, s, f)[..n] == sealed + body;
    BodyWritten(Bytes(s), body);
  }

  lemma TornAfterAll(c: Codec, s: Store, f: Fact, n: nat)
    requires CodecOk(c) && c.valid(f) && n == |Payload(c, s, f)|
    ensures Lines(Bytes(s) + Payload(c, s, f)[..n]) == Lines(Bytes(s)) + [c.encode(f)]
  {
    assert Payload(c, s, f)[..n] == Payload(c, s, f);
    WrittenLines(c, s, f);
  }

  // The lines after a crash that left `n` bytes of an append.
  lemma TornLines(c: Codec, s: Store, f: Fact, n: nat)
    requires CodecOk(c) && c.valid(f) && n <= |Payload(c, s, f)|
    ensures var sealed, body := |Seal(Bytes(s))|, |c.encode(f)|;
            Lines(Bytes(s) + Payload(c, s, f)[..n]) ==
            if n <= sealed then Lines(Bytes(s))
            else if n - sealed < body then Lines(Bytes(s)) + [c.encode(f)[..n - sealed]]
            else Lines(Bytes(s)) + [c.encode(f)]
  {
    var sealed, body := |Seal(Bytes(s))|, |c.encode(f)|;
    if n <= sealed {
      TornInSeal(c, s, f, n);
    } else if n - sealed <= body {
      TornInBody(c, s, f, n);
      assert c.encode(f)[..body] == c.encode(f);
    } else {
      TornAfterAll(c, s, f, n);
    }
  }

  // A crash inside an append adds nothing, or exactly the record being appended.
  lemma TornAddsAtMostOne(c: Codec, s: Store, f: Fact, n: nat)
    requires CodecOk(c) && StoreOk(c, s) && c.valid(f)
    ensures var s' := Torn(c, s, f, n);
            && Checkpoint(s.file) <= Checkpoint(s'.file) <= Checkpoint(s.file) + 1
            && (Records(c, s'.file) == Records(c, s.file)
                || (DecideByScan(Records(c, s.file), f).Append?
                    && Records(c, s'.file) == Records(c, s.file) + [Entry(Checkpoint(s.file) + 1, f)]))
  {
    AppendDecidesByScan(c, s, f);
    if Torn(c, s, f, n) != s {
      AppendMeansFresh(Records(c, s.file), f);
      BytesRecords(c, s);
      TornLines(c, s, f, n);
      var sealed := |Seal(Bytes(s))|;
      ScanSnoc(c, Lines(Bytes(s)), c.encode(f));
      if sealed < n && n - sealed < |c.encode(f)| {
        ScanSnoc(c, Lines(Bytes(s)), c.encode(f)[..n - sealed]);
      }
    }
  }

  lemma TornOk(c: Codec, s: Store, f: Fact, n: nat)
    requires CodecOk(c) && StoreOk(c, s)
    ensures StoreOk(c, Torn(c, s, f, n))
  {
  }

  lemma StepOk(c: Codec, s: Store, op: Op)
    requires CodecOk(c) && StoreOk(c, s)
    ensures StoreOk(c, Step(c, s, op))
  {
    match op
    case DoAppend(f) => if c.valid(f) { AppendedOk(c, s, f); }
    case DoTorn(f, n) => TornOk(c, s, f, n);
    case LoseIndex =>
    case Reopen =>
  }

  // Records and lines only ever grow.
  lemma StepGrows(c: Codec, s: Store, op: Op)
    requires CodecOk(c) && StoreOk(c, s)
    ensures Records(c, s.file) <= Records(c, Step(c, s, op).file)
    ensures Checkpoint(s.file) <= Checkpoint(Step(c, s, op).file)
  {
    match op
    case DoAppend(f) => if c.valid(f) { AppendAddsExactlyOne(c, s, f); }
    case DoTorn(f, n) => if c.valid(f) { TornAddsAtMostOne(c, s, f, n); }
    case LoseIndex =>
    case Reopen =>
  }

  // ---- Theorems over runs with crashes and lost indexes ----

  ghost predicate Grows(c: Codec, s: Store, s': Store) {
    Records(c, s.file) <= Records(c, s'.file) && Checkpoint(s.file) <= Checkpoint(s'.file)
  }

  predicate AnyTime(s: Store, op: Op) {
    true
  }

  lemma RunOk(c: Codec, s: Store, ops: seq<Op>)
    requires CodecOk(c) && StoreOk(c, s)
    ensures var s' := Run((x: Store, o: Op) => Step(c, x, o), s, ops);
            StoreOk(c, s') && Grows(c, s, s')
  {
    var step := (x: Store, o: Op) => Step(c, x, o);
    var inv := (x: Store) => StoreOk(c, x);
    var rel := (x: Store, y: Store) => Grows(c, x, y);
    forall x, o | inv(x) && AnyTime(x, o)
      ensures inv(step(x, o)) && rel(x, step(x, o))
    {
      StepOk(c, x, o);
      StepGrows(c, x, o);
    }
    AllAllowed(step, s, ops);
    Invariant(AnyTime, step, inv, s, ops);
    Relation(AnyTime, step, inv, rel, s, ops);
  }

  lemma {:induction false} AllAllowed(step: (Store, Op) -> Store, s: Store, ops: seq<Op>)
    ensures Allowed(AnyTime, step, s, ops)
    decreases |ops|
  {
    if ops != [] { AllAllowed(step, step(s, ops[0]), ops[1..]); }
  }

  // Whatever appends, torn writes and lost indexes came before, an append decides by the file,
  // adds exactly its own record when it returns True, and leaves the file alone otherwise.
  lemma AppendRefinesScan(c: Codec, ops: seq<Op>, f: Fact)
    requires CodecOk(c) && c.valid(f)
    ensures var s := Run((x: Store, o: Op) => Step(c, x, o), EMPTY, ops);
            var (s', d) := Appended(c, s, f);
            && d == DecideByScan(Records(c, s.file), f)
            && (if d.Append? then Records(c, s'.file) == Records(c, s.file) + [Entry(Checkpoint(s.file) + 1, f)]
                else s'.file == s.file)
  {
    RunOk(c, EMPTY, ops);
    var s := Run((x: Store, o: Op) => Step(c, x, o), EMPTY, ops);
    AppendDecidesByScan(c, s, f);
    AppendAddsExactlyOne(c, s, f);
  }

  // Repeating an append after a crash at any byte leaves the observation recorded exactly once,
  // whether or not the torn bytes already held it.
  lemma RetryRecordsOnce(c: Codec, s: Store, f: Fact, n: nat)
    requires CodecOk(c) && StoreOk(c, s) && c.valid(f) && DecideByScan(Records(c, s.file), f).Append?
    ensures var (s', d) := Appended(c, Torn(c, s, f, n), f);
            && !d.Conflict?
            && exists line :: Records(c, s'.file) == Records(c, s.file) + [Entry(line, f)]
  {
    var es, t := Records(c, s.file), Torn(c, s, f, n);
    TornOk(c, s, f, n);
    TornAddsAtMostOne(c, s, f, n);
    AppendAddsExactlyOne(c, t, f);
    AppendDecidesByScan(c, t, f);
    AppendMeansFresh(es, f);
    var es', s' := Records(c, t.file), Appended(c, t, f).0;
    if es' == es {
      assert Records(c, s'.file) == es + [Entry(Checkpoint(t.file) + 1, f)];
    } else {
      assert es'[|es|].fact == f && SameFacts(f, f);
      assert forall i :: 0 <= i < |es'| && KeyOf(es'[i].fact) == KeyOf(f) ==> SameFacts(es'[i].fact, f);
      assert forall i :: !ElsewhereAt(es', i, f);
      assert Records(c, s'.file) == es + [Entry(Checkpoint(s.file) + 1, f)];
    }
  }
}
