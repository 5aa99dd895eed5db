// Windowed failure aggregates and the recovery boundary.
module FaultAggregates {
  import opened Wrappers
  import opened FaultLog

  datatype Sample = Sample(sequence: nat, occurredAt: real, confirmed: bool, retryUntil: Option<real>)

  datatype Aggregate = Aggregate(provider: string, reason: string, sampleCount: nat, confirmed: nat,
                                 first: real, last: real, retryUntil: Option<real>, samples: seq<Sample>)

  function SampleOf(e: Entry): Sample {
    Sample(e.line, e.fact.occurredAt, e.fact.failureClass.ConfirmedRejection?,
           if e.fact.retryAfter.Some? then Some(e.fact.occurredAt + e.fact.retryAfter.value) else None)
  }

  // One run's failures of one (provider, reason) in (now - window, now].
  predicate InWindow(e: Entry, runId: string, provider: string, reason: string, now: real, window: real) {
    && e.fact.runId == runId && e.fact.provider == provider && e.fact.reason == reason
    && now - window < e.fact.occurredAt <= now
  }

  function WindowSamples(es: seq<Entry>, runId: string, provider: string, reason: string, now: real, window: real)
    : seq<Sample>
  {
    if es == [] then []
    else
      var front := WindowSamples(es[..|es| - 1], runId, provider, reason, now, window);
      var last := es[|es| - 1];
      if InWindow(last, runId, provider, reason, now, window) then front + [SampleOf(last)] else front
  }

  function CountConfirmed(s: seq<Sample>): nat {
    if s == [] then 0 else CountConfirmed(s[..|s| - 1]) + (if s[|s| - 1].confirmed then 1 else 0)
  }

  function Earliest(s: seq<Sample>): real
    requires s != []
  {
    var last := s[|s| - 1].occurredAt;
    if |s| == 1 then last
    else
      var front := Earliest(s[..|s| - 1]);
      if last < front then last else front
  }

  function Latest(s: seq<Sample>): real
    requires s != []
  {
    var last := s[|s| - 1].occurredAt;
    if |s| == 1 then last
    else
      var front := Latest(s[..|s| - 1]);
      if last > front then last else front
  }

  // The maximum observed absolute deadline; none when no sample carries one.
  function Deadline(s: seq<Sample>): Option<real> {
    if s == [] then None
    else
      var front, last := Deadline(s[..|s| - 1]), s[|s| - 1].retryUntil;
      if last.None? then front
      else if front.None? || last.value > front.value then last
      else front
  }

  function FromSamples(provider: string, reason: string, s: seq<Sample>): Aggregate
    requires s != []
  {
    Aggregate(provider, reason, |s|, CountConfirmed(s), Earliest(s), Latest(s), Deadline(s), s)
  }

  // Evidence that postdates a recovery: after the file checkpoint and not before the recovery
  // time; without a checkpoint, strictly later.
  predicate Postdates(x: Sample, at: real, checkpoint: Option<nat>) {
    if checkpoint.None? then x.occurredAt > at else x.sequence > checkpoint.value && x.occurredAt >= at
  }

  function After(s: seq<Sample>, at: real, checkpoint: Option<nat>): seq<Sample> {
    if s == [] then []
    else
      var front, last := After(s[..|s| - 1], at, checkpoint), s[|s| - 1];
      if Postdates(last, at, checkpoint) then front + [last] else front
  }

  function AfterRecovery(a: Aggregate, at: real, checkpoint: Option<nat>): Option<Aggregate> {
    if a.samples == [] then if a.first > at then Some(a) else None
    else
      var kept := After(a.samples, at, checkpoint);
      if kept == [] then None else Some(FromSamples(a.provider, a.reason, kept))
  }

  // ---- Genuine aggregates: samples are distinct log lines of their own (provider, reason) ----

  predicate FromEntry(es: seq<Entry>, runId: string, provider: string, reason: string, x: Sample) {
    exists i :: 0 <= i < |es| && SampleOf(es[i]) == x && es[i].fact.runId == runId
                && es[i].fact.provider == provider && es[i].fact.reason == reason
  }

  predicate GenuineSamples(es: seq<Entry>, runId: string, provider: string, reason: string, s: seq<Sample>) {
    && (forall i :: 0 <= i < |s| ==> FromEntry(es, runId, provider, reason, s[i]))
    && (forall i, j :: 0 <= i < j < |s| ==> s[i].sequence < s[j].sequence)
  }

  predicate Genuine(es: seq<Entry>, runId: string, a: Aggregate) {
    && a.samples != [] && a == FromSamples(a.provider, a.reason, a.samples)
    && GenuineSamples(es, runId, a.provider, a.reason, a.samples)
  }

  lemma {:induction false} AfterIsSubsequence(s: seq<Sample>, at: real, checkpoint: Option<nat>)
    ensures var kept := After(s, at, checkpoint);
            && (forall x :: x in kept <==> x in s && Postdates(x, at, checkpoint))
            && ((forall i, j :: 0 <= i < j < |s| ==> s[i].sequence < s[j].sequence) ==>
                  forall i, j :: 0 <= i < j < |kept| ==> kept[i].sequence < kept[j].sequence)
  {
    if s != [] {
      var front := s[..|s| - 1];
      AfterIsSubsequence(front, at, checkpoint);
      assert s == front + [s[|s| - 1]];
      var kept := After(front, at, checkpoint);
      forall k | 0 <= k < |kept|
        ensures kept[k] in front
      {
        assert kept[k] in kept;
      }
    }
  }

  // Filtering a genuine aggregate keeps exactly its postdating samples, and it stays genuine.
  lemma RecoveryKeepsGenuine(es: seq<Entry>, runId: string, a: Aggregate, at: real, checkpoint: Option<nat>)
    requires Genuine(es, runId, a)
    ensures var r := AfterRecovery(a, at, checkpoint);
            && (r.Some? <==> exists x :: x in a.samples && Postdates(x, at, checkpoint))
            && (r.Some? ==> Genuine(es, runId, r.value)
                            && r.value.provider == a.provider && r.value.reason == a.reason
                            && forall x :: x in r.value.samples <==> x in a.samples && Postdates(x, at, checkpoint))
  {
    AfterIsSubsequence(a.samples, at, checkpoint);
    var kept := After(a.samples, at, checkpoint);
    forall i | 0 <= i < |kept|
      ensures FromEntry(es, runId, a.provider, a.reason, kept[i])
    {
      assert kept[i] in kept;
      var k :| 0 <= k < |a.samples| && a.samples[k] == kept[i];
      assert FromEntry(es, runId, a.provider, a.reason, a.samples[k]);
    }
    if kept != [] {
      assert kept[0] in kept;
    }
  }

  lemma {:induction false} WindowIsGenuine(es: seq<Entry>, runId: string, provider: string, reason: string, now: real,
                                           window: real, last: nat)
    requires Numbered(es, last)
    ensures GenuineSamples(es, runId, provider, reason, WindowSamples(es, runId, provider, reason, now, window))
  {
    if es != [] {
      var front := es[..|es| - 1];
      WindowIsGenuine(front, runId, provider, reason, now, window, last);
      var s := WindowSamples(front, runId, provider, reason, now, window);
      forall k | 0 <= k < |s|
        ensures FromEntry(es, runId, provider, reason, s[k]) && s[k].sequence < es[|es| - 1].line
      {
        assert FromEntry(front, runId, provider, reason, s[k]);
        var i :| 0 <= i < |front| && SampleOf(front[i]) == s[k] && front[i].fact.runId == runId
                 && front[i].fact.provider == provider && front[i].fact.reason == reason;
        assert es[i] == front[i];
      }
      if InWindow(es[|es| - 1], runId, provider, reason, now, window) {
        assert SampleOf(es[|es| - 1]) == SampleOf(es[|es| - 1]);
        assert FromEntry(es, runId, provider, reason, SampleOf(es[|es| - 1]));
      }
    }
  }

  // An entry seen as a sample: its line, its time, whether the provider confirmed the rejection, and
  // the absolute deadline its retry hint sets.
  predicate Shows(e: Entry, x: Sample) {
    && x.sequence == e.line && x.occurredAt == e.fact.occurredAt
    && (x.confirmed <==> e.fact.failureClass == ConfirmedRejection)
    && (x.retryUntil.Some? <==> e.fact.retryAfter.Some?)
    && (x.retryUntil.Some? ==> x.retryUntil.value - e.fact.occurredAt == e.fact.retryAfter.value)
  }

  predicate Shown(es: seq<Entry>, runId: string, provider: string, reason: string, now: real, window: real, x: Sample)
  {
    exists i :: 0 <= i < |es| && Shows(es[i], x) && es[i].fact.runId == runId && es[i].fact.provider == provider
                && es[i].fact.reason == reason && now - window < es[i].fact.occurredAt <= now
  }

  // The samples of a window are exactly the entries of this run, provider and reason that happened
  // after its start and not after now, each line once and in file order.
  lemma {:induction false} WindowIsExact(es: seq<Entry>, runId: string, provider: string, reason: string, now: real,
                                         window: real, last: nat)
    requires Numbered(es, last)
    ensures var s := WindowSamples(es, runId, provider, reason, now, window);
            && (forall x :: x in s <==> Shown(es, runId, provider, reason, now, window, x))
            && (forall i, j :: 0 <= i < j < |s| ==> s[i].sequence < s[j].sequence)
  {
    WindowIsGenuine(es, runId, provider, reason, now, window, last);
    if es != [] {
      var front, e := es[..|es| - 1], es[|es| - 1];
      WindowIsExact(front, runId, provider, reason, now, window, last);
      forall x
        ensures Shown(es, runId, provider, reason, now, window, x) <==>
                Shown(front, runId, provider, reason, now, window, x)
                || (x == SampleOf(e) && InWindow(e, runId, provider, reason, now, window))
      {
        ShownOneMore(front, e, runId, provider, reason, now, window, x);
        assert front + [e] == es;
      }
    }
  }

  lemma ShownOneMore(front: seq<Entry>, e: Entry, runId: string, provider: string, reason: string, now: real,
                     window: real, x: Sample)
    ensures Shown(front + [e], runId, provider, reason, now, window, x) <==>
            Shown(front, runId, provider, reason, now, window, x)
            || (x == SampleOf(e) && InWindow(e, runId, provider, reason, now, window))
  {
    var es := front + [e];
    assert forall i :: 0 <= i < |front| ==> es[i] == front[i];
    assert es[|front|] == e;
    assert Shows(e, x) <==> x == SampleOf(e);
  }

  lemma GenuineGrows(es: seq<Entry>, es': seq<Entry>, runId: string, a: Aggregate)
    requires Genuine(es, runId, a) && es <= es'
    ensures Genuine(es', runId, a)
  {
    forall i | 0 <= i < |a.samples|
      ensures FromEntry(es', runId, a.provider, a.reason, a.samples[i])
    {
      assert FromEntry(es, runId, a.provider, a.reason, a.samples[i]);
      var k :| 0 <= k < |es| && SampleOf(es[k]) == a.samples[i] && es[k].fact.runId == runId
               && es[k].fact.provider == a.provider && es[k].fact.reason == a.reason;
      assert es'[k] == es[k];
    }
  }

  lemma {:induction false} ConfirmedCounts(s: seq<Sample>)
    ensures CountConfirmed(s) > 0 <==> exists i :: 0 <= i < |s| && s[i].confirmed
  {
    if s != [] {
      ConfirmedCounts(s[..|s| - 1]);
      assert forall i :: 0 <= i < |s| - 1 ==> s[..|s| - 1][i] == s[i];
    }
  }

  // The summary of a window: its extreme times are attained, and its deadline is the latest one any
  // sample carries, absent exactly when none does.
  lemma {:induction false} SummaryIsTight(s: seq<Sample>)
    requires s != []
    ensures forall i :: 0 <= i < |s| ==> Earliest(s) <= s[i].occurredAt <= Latest(s)
    ensures exists i :: 0 <= i < |s| && s[i].occurredAt == Earliest(s)
    ensures exists i :: 0 <= i < |s| && s[i].occurredAt == Latest(s)
    ensures Deadline(s).None? <==> forall i :: 0 <= i < |s| ==> s[i].retryUntil.None?
    ensures Deadline(s).Some? ==>
              (exists i :: 0 <= i < |s| && s[i].retryUntil == Deadline(s))
              && forall i :: 0 <= i < |s| && s[i].retryUntil.Some? ==> s[i].retryUntil.value <= Deadline(s).value
  {
    var front := s[..|s| - 1];
    if front == [] {
      assert s[0].occurredAt == Earliest(s) == Latest(s);
      assert Deadline(front) == None && Deadline(s) == s[0].retryUntil;
    } else {
      SummaryIsTight(front);
      assert forall i :: 0 <= i < |front| ==> front[i] == s[i];
    }
  }

  function ConfirmedAt(s: seq<Sample>): set<nat> {
    set i: nat | i < |s| && s[i].confirmed
  }

  lemma {:induction false} ConfirmedTally(s: seq<Sample>)
    ensures CountConfirmed(s) == |ConfirmedAt(s)|
  {
    if s != [] {
      var n := |s| - 1;
      ConfirmedTally(s[..n]);
      assert ConfirmedAt(s) == ConfirmedAt(s[..n]) + (if s[n].confirmed then {n} else {});
    }
  }

  // A summary counts every sample and every confirmed one, spans exactly their times, and carries
  // their latest deadline.
  lemma SummaryMeans(provider: string, reason: string, s: seq<Sample>)
    requires s != []
    ensures var a := FromSamples(provider, reason, s);
            && a.provider == provider && a.reason == reason && a.samples == s
            && a.sampleCount == |s| && a.confirmed == |ConfirmedAt(s)|
            && (forall x :: x in s ==> a.first <= x.occurredAt <= a.last)
            && (exists x :: x in s && x.occurredAt == a.first) && (exists x :: x in s && x.occurredAt == a.last)
            && (a.retryUntil.None? <==> forall x :: x in s ==> x.retryUntil.None?)
            && (a.retryUntil.Some? ==>
                  (exists x :: x in s && x.retryUntil == a.retryUntil)
                  && forall x :: x in s && x.retryUntil.Some? ==> x.retryUntil.value <= a.retryUntil.value)
  {
    SummaryIsTight(s);
    ConfirmedTally(s);
  }
}
