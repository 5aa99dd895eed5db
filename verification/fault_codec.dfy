// A concrete line encoding of failure facts, showing that the log's codec conditions can be met.
module FaultCodec {
  import opened Wrappers
  import opened FaultLog

  // ---- Numbers and lists of numbers as bytes, each followed by its own end ----

  const MARK: Byte := 1
  const STOP: Byte := 0

  type Cell = seq<nat>

  function WriteNat(n: nat): (b: seq<Byte>)
    ensures NEWLINE !in b && b != []
  {
    if n == 0 then [STOP] else [MARK] + WriteNat(n - 1)
  }

  function ReadNat(b: seq<Byte>): (r: Option<(nat, seq<Byte>)>)
    ensures r.Some? ==> |r.value.1| < |b|
  {
    if b == [] then None
    else if b[0] == STOP then Some((0, b[1..]))
    else if b[0] == MARK then
      var rest := ReadNat(b[1..]);
      if rest.Some? then Some((rest.value.0 + 1, rest.value.1)) else None
    else None
  }

  function WriteCell(s: Cell): (b: seq<Byte>)
    ensures NEWLINE !in b && b != []
  {
    if s == [] then [STOP] else [MARK] + WriteNat(s[0]) + WriteCell(s[1..])
  }

  function ReadCell(b: seq<Byte>): (r: Option<(Cell, seq<Byte>)>)
    ensures r.Some? ==> |r.value.1| < |b|
    decreases |b|
  {
    if b == [] then None
    else if b[0] == STOP then Some(([], b[1..]))
    else
      var head := ReadNat(b[1..]);
      if head.None? then None
      else
        var tail := ReadCell(head.value.1);
        if tail.Some? then Some(([head.value.0] + tail.value.0, tail.value.1)) else None
  }

  function WriteCells(s: seq<Cell>): (b: seq<Byte>)
    ensures NEWLINE !in b && b != []
  {
    if s == [] then [STOP] else [MARK] + WriteCell(s[0]) + WriteCells(s[1..])
  }

  function ReadCells(b: seq<Byte>): (r: Option<(seq<Cell>, seq<Byte>)>)
    ensures r.Some? ==> |r.value.1| < |b|
    decreases |b|
  {
    if b == [] then None
    else if b[0] == STOP then Some(([], b[1..]))
    else
      var head := ReadCell(b[1..]);
      if head.None? then None
      else
        var tail := ReadCells(head.value.1);
        if tail.Some? then Some(([head.value.0] + tail.value.0, tail.value.1)) else None
  }

  lemma {:induction false} NatRoundTrip(n: nat, rest: seq<Byte>)
    ensures ReadNat(WriteNat(n) + rest) == Some((n, rest))
  {
    var b := WriteNat(n) + rest;
    if n == 0 {
      assert b[1..] == rest;
    } else {
      NatRoundTrip(n - 1, rest);
      assert b[1..] == WriteNat(n - 1) + rest;
    }
  }

  lemma ReadsOneCell(x: seq<Byte>, n: nat, tail: seq<Byte>, s: Cell, rest: seq<Byte>)
    requires ReadNat(x) == Some((n, tail)) && ReadCell(tail) == Some((s, rest))
    ensures ReadCell([MARK] + x) == Some(([n] + s, rest))
  {
    assert ([MARK] + x)[1..] == x;
  }

  lemma {:induction false} CellRoundTrip(s: Cell, rest: seq<Byte>)
    ensures ReadCell(WriteCell(s) + rest) == Some((s, rest))
  {
    if s == [] {
      assert ([STOP] + rest)[1..] == rest;
    } else {
      var tail := WriteCell(s[1..]) + rest;
      CellRoundTrip(s[1..], rest);
      NatRoundTrip(s[0], tail);
      ReadsOneCell(WriteNat(s[0]) + tail, s[0], tail, s[1..], rest);
      Regrouped(WriteNat(s[0]), WriteCell(s[1..]), rest);
      assert [s[0]] + s[1..] == s;
    }
  }

  lemma ReadsOneMore(x: seq<Byte>, c: Cell, tail: seq<Byte>, s: seq<Cell>, rest: seq<Byte>)
    requires ReadCell(x) == Some((c, tail)) && ReadCells(tail) == Some((s, rest))
    ensures ReadCells([MARK] + x) == Some(([c] + s, rest))
  {
    assert ([MARK] + x)[1..] == x;
  }

  lemma Regrouped(a: seq<Byte>, b: seq<Byte>, c: seq<Byte>)
    ensures [MARK] + a + b + c == [MARK] + (a + (b + c))
  {
  }

  lemma {:induction false} CellsRoundTrip(s: seq<Cell>, rest: seq<Byte>)
    ensures ReadCells(WriteCells(s) + rest) == Some((s, rest))
  {
    if s == [] {
      assert ([STOP] + rest)[1..] == rest;
    } else {
      var tail := WriteCells(s[1..]) + rest;
      CellsRoundTrip(s[1..], rest);
      CellRoundTrip(s[0], tail);
      ReadsOneMore(WriteCell(s[0]) + tail, s[0], tail, s[1..], rest);
      Regrouped(WriteCell(s[0]), WriteCells(s[1..]), rest);
      assert [s[0]] + s[1..] == s;
    }
  }

  // ---- The fields of a fact as cells ----

  function Codes(s: string): (c: Cell)
    ensures |c| == |s| && forall i :: 0 <= i < |s| ==> c[i] == s[i] as int
  {
    seq(|s|, i requires 0 <= i < |s| => s[i] as int)
  }

  predicate IsText(c: Cell) {
    forall i :: 0 <= i < |c| ==> c[i] < 0xD800 || 0xE000 <= c[i] < 0x110000
  }

  function Text(c: Cell): string
    requires IsText(c)
  {
    seq(|c|, i requires 0 <= i < |c| => c[i] as char)
  }

  lemma TextOfCodes(s: string)
    ensures IsText(Codes(s)) && Text(Codes(s)) == s
  {
  }

  // Times are whole ticks of `1 / rate` seconds.
  function Ticks(rate: nat, t: real): nat {
    if t < 0.0 then 0 else (t * rate as real).Floor
  }

  function TimeOf(rate: nat, ticks: nat): real
    requires rate > 0
  {
    ticks as real / rate as real
  }

  predicate OnTick(rate: nat, t: real) {
    rate > 0 && t == TimeOf(rate, Ticks(rate, t))
  }

  function MaybeText(o: Option<string>): Cell {
    if o.Some? then [1] + Codes(o.value) else []
  }

  function ClassCode(c: FailureClass): nat {
    match c
    case ConfirmedRejection => 0
    case UnknownEffect => 1
    case BudgetExhausted => 2
    case CapabilityMismatch => 3
  }

  function CostCode(c: Option<CostState>): nat {
    match c
    case None => 0
    case Some(CostSettled) => 1
    case Some(CostUnknown) => 2
    case Some(CostReserved) => 3
  }

  function Cells(rate: nat, f: Fact): seq<Cell> {
    [Codes(f.observationId), Codes(f.runId), Codes(f.taskId), Codes(f.requestId), [f.attempt], Codes(f.provider),
     Codes(f.model), [ClassCode(f.failureClass)], Codes(f.reason),
     if f.retryAfter.Some? then [Ticks(rate, f.retryAfter.value)] else [], MaybeText(f.switchedTo),
     [CostCode(f.costState)], [Ticks(rate, f.occurredAt)], MaybeText(f.evidenceRef)]
  }

  function ToText(c: Cell): Option<string> {
    if IsText(c) then Some(Text(c)) else None
  }

  function ToMaybeText(c: Cell): Option<string> {
    if c == [] then None else ToText(c[1..])
  }

  function First(c: Cell): nat {
    if c == [] then 0 else c[0]
  }

  function OrBlank(o: Option<string>): string {
    if o.Some? then o.value else ""
  }

  function ClassOf(n: nat): FailureClass {
    if n == 0 then ConfirmedRejection else if n == 1 then UnknownEffect
    else if n == 2 then BudgetExhausted else CapabilityMismatch
  }

  function CostOf(n: nat): Option<CostState> {
    if n == 0 then None else if n == 1 then Some(CostSettled) else if n == 2 then Some(CostUnknown)
    else Some(CostReserved)
  }

  function FactOf(rate: nat, s: seq<Cell>): Fact
    requires |s| == 14 && rate > 0
  {
    Fact(OrBlank(ToText(s[0])), OrBlank(ToText(s[1])), OrBlank(ToText(s[2])), OrBlank(ToText(s[3])), First(s[4]),
         OrBlank(ToText(s[5])), OrBlank(ToText(s[6])), ClassOf(First(s[7])), OrBlank(ToText(s[8])),
         if s[9] == [] then None else Some(TimeOf(rate, First(s[9]))), ToMaybeText(s[10]), CostOf(First(s[11])),
         TimeOf(rate, First(s[12])), ToMaybeText(s[13]))
  }

  // ---- The codec ----

  predicate Representable(rate: nat, f: Fact) {
    OnTick(rate, f.occurredAt) && (f.retryAfter.Some? ==> OnTick(rate, f.retryAfter.value))
  }

  function Encode(rate: nat, f: Fact): seq<Byte> {
    WriteCells(Cells(rate, f))
  }

  // A line that is exactly the encoding of a representable fact.
  function Decode(rate: nat, b: seq<Byte>): Option<Fact> {
    var cells := ReadCells(b);
    if cells.None? || cells.value.1 != [] || |cells.value.0| != 14 || rate == 0 then None
    else
      var f := FactOf(rate, cells.value.0);
      if Encode(rate, f) == b then Some(f) else None
  }

  function Plain(rate: nat): Codec {
    Codec(f => Representable(rate, f), f => Encode(rate, f), b => Decode(rate, b))
  }

  lemma MaybeTextRoundTrip(o: Option<string>)
    ensures ToMaybeText(MaybeText(o)) == o
  {
    if o.Some? {
      TextOfCodes(o.value);
      assert MaybeText(o)[1..] == Codes(o.value);
    }
  }

  lemma FactRoundTrip(rate: nat, f: Fact)
    requires rate > 0 && Representable(rate, f)
    ensures FactOf(rate, Cells(rate, f)) == f
  {
    TextOfCodes(f.observationId);
    TextOfCodes(f.runId);
    TextOfCodes(f.taskId);
    TextOfCodes(f.requestId);
    TextOfCodes(f.provider);
    TextOfCodes(f.model);
    TextOfCodes(f.reason);
    MaybeTextRoundTrip(f.switchedTo);
    MaybeTextRoundTrip(f.evidenceRef);
  }

  lemma DecodesItself(rate: nat, f: Fact)
    requires rate > 0 && Representable(rate, f)
    ensures Decode(rate, Encode(rate, f)) == Some(f)
  {
    CellsRoundTrip(Cells(rate, f), []);
    assert Encode(rate, f) + [] == Encode(rate, f);
    FactRoundTrip(rate, f);
  }

  // No proper prefix of a line is a line.
  lemma PrefixIsNoLine(rate: nat, f: Fact, n: nat)
    requires rate > 0 && Representable(rate, f) && n < |Encode(rate, f)|
    ensures Decode(rate, Encode(rate, f)[..n]) == None
  {
    var line := Encode(rate, f);
    var front, back := line[..n], line[n..];
    assert front + back == line && line + [] == line;
    CellsRoundTrip(Cells(rate, f), []);
    if Decode(rate, front).Some? {
      CellsRoundTrip(Cells(rate, Decode(rate, front).value), back);
      assert false;
    }
  }

  // For every time resolution there is a codec that accepts all facts timed in it.
  lemma PlainIsOk(rate: nat)
    requires rate > 0
    ensures CodecOk(Plain(rate))
    ensures forall f :: Plain(rate).valid(f) <==> Representable(rate, f)
  {
    forall f | Plain(rate).valid(f)
      ensures NEWLINE !in Encode(rate, f) && Encode(rate, f) != [] && Decode(rate, Encode(rate, f)) == Some(f)
      ensures forall n :: 0 <= n < |Encode(rate, f)| ==> Plain(rate).decode(Plain(rate).encode(f)[..n]) == None
    {
      DecodesItself(rate, f);
      forall n | 0 <= n < |Encode(rate, f)|
        ensures Plain(rate).decode(Plain(rate).encode(f)[..n]) == None
      {
        PrefixIsNoLine(rate, f, n);
      }
    }
  }

  // Every whole number of ticks is a representable time.
  lemma TicksAreRepresentable(rate: nat, ticks: nat)
    requires rate > 0
    ensures OnTick(rate, TimeOf(rate, ticks))
  {
    assert TimeOf(rate, ticks) * rate as real == ticks as real;
  }
}
