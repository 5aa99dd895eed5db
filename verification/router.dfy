// The routing distribution: softmax over scores mixed with an age-weighted exploration floor.
module Router {
  import opened Sums

  // `exp` through positivity, monotonicity and its value at zero.
  ghost predicate ExpOk(e: real -> real) {
    && e(0.0) == 1.0
    && (forall x :: e(x) > 0.0)
    && (forall x, y :: x <= y ==> e(x) <= e(y))
  }

  const MAX_AGE: real := 11.0

  // `1 + min(10, max(0, now - created) / aging_seconds)`.
  function Age(now: real, created: real, aging: real): (age: real)
    requires aging > 0.0
    ensures 1.0 <= age <= MAX_AGE
    ensures now <= created ==> age == 1.0
    ensures age == MAX_AGE <==> now - created >= 10.0 * aging
    ensures 0.0 <= now - created <= 10.0 * aging ==> (age - 1.0) * aging == now - created
  {
    var waited := if now - created < 0.0 then 0.0 else now - created;
    var ratio := waited / aging;
    assert ratio * aging == waited;
    RatioBounds(ratio, aging);
    1.0 + (if ratio < 10.0 then ratio else 10.0)
  }

  lemma RatioBounds(ratio: real, aging: real)
    requires aging > 0.0 && ratio * aging >= 0.0
    ensures ratio >= 0.0 && (ratio >= 10.0 <==> ratio * aging >= 10.0 * aging)
  {
    if ratio < 10.0 { assert (10.0 - ratio) * aging > 0.0; } else { assert (ratio - 10.0) * aging >= 0.0; }
  }

  function Same(x: real): real {
    x
  }

  function Total(s: seq<real>): real {
    Sum(Same, s)
  }

  function Map(f: real -> real, s: seq<real>): (r: seq<real>)
    ensures |r| == |s| && forall i :: 0 <= i < |s| ==> r[i] == f(s[i])
  {
    seq(|s|, i requires 0 <= i < |s| => f(s[i]))
  }

  function Maximum(s: seq<real>): (m: real)
    requires s != []
    ensures m in s && forall i :: 0 <= i < |s| ==> s[i] <= m
  {
    if |s| == 1 then s[0]
    else
      var front := Maximum(s[..|s| - 1]);
      assert forall i :: 0 <= i < |s| - 1 ==> s[i] == s[..|s| - 1][i];
      if s[|s| - 1] > front then s[|s| - 1] else front
  }

  function Weights(e: real -> real, scores: seq<real>): seq<real>
    requires scores != []
  {
    var maximum := Maximum(scores);
    Map((s: real) => e(s - maximum), scores)
  }

  function Share(part: real, total: real): real
    requires total != 0.0
  {
    part / total
  }

  function Probability(exploration: real, soft: real, age: real): real {
    (1.0 - exploration) * soft + exploration * age
  }

  // ---- Sums ----

  lemma {:induction false} TotalAtLeast(s: seq<real>, low: real, i: nat)
    requires i < |s| && forall k :: 0 <= k < |s| ==> s[k] >= 0.0
    requires s[i] >= low
    ensures Total(s) >= low
    decreases |s|
  {
    var front := s[..|s| - 1];
    if i == |s| - 1 { TotalNonNegative(front); } else { TotalAtLeast(front, low, i); }
  }

  lemma {:induction false} TotalNonNegative(s: seq<real>)
    requires forall k :: 0 <= k < |s| ==> s[k] >= 0.0
    ensures Total(s) >= 0.0
  {
    if s != [] { TotalNonNegative(s[..|s| - 1]); }
  }

  lemma {:induction false} TotalAtMost(s: seq<real>, high: real)
    requires forall k :: 0 <= k < |s| ==> s[k] <= high
    ensures Total(s) <= high * |s| as real
  {
    if s != [] {
      TotalAtMost(s[..|s| - 1], high);
      assert high * (|s| - 1) as real + high == high * |s| as real;
    }
  }

  // Shares of a total add up to one.
  lemma {:induction false} SharesAddUp(s: seq<real>, total: real)
    requires total != 0.0
    ensures Total(Map(x => if total != 0.0 then Share(x, total) else 0.0, s)) == Share(Total(s), total)
  {
    var f := (x: real) => if total != 0.0 then Share(x, total) else 0.0;
    if s != [] {
      var front, last := s[..|s| - 1], s[|s| - 1];
      SharesAddUp(front, total);
      assert Map(f, s) == Map(f, front) + [f(last)];
      SumAppend(Same, Map(f, front), f(last));
      AddShares(Total(front), last, total);
    } else {
      assert Map(f, s) == [];
    }
  }

  lemma AddShares(a: real, b: real, total: real)
    requires total != 0.0
    ensures Share(a, total) + Share(b, total) == Share(a + b, total)
  {
  }

  // The softmax denominator: the best score alone contributes one.
  lemma DenominatorAtLeastOne(e: real -> real, scores: seq<real>)
    requires ExpOk(e) && scores != []
    ensures Total(Weights(e, scores)) >= 1.0
    ensures forall i :: 0 <= i < |scores| ==> 0.0 < Weights(e, scores)[i] <= 1.0
  {
    var maximum := Maximum(scores);
    var i :| 0 <= i < |scores| && scores[i] == maximum;
    assert Weights(e, scores)[i] == e(0.0);
    TotalAtLeast(Weights(e, scores), 1.0, i);
  }

  lemma AgesTotal(ages: seq<real>)
    requires ages != [] && forall k :: 0 <= k < |ages| ==> 1.0 <= ages[k] <= MAX_AGE
    ensures 1.0 <= Total(ages) <= MAX_AGE * |ages| as real
  {
    TotalAtLeast(ages, 1.0, 0);
    TotalAtMost(ages, MAX_AGE);
  }

  predicate AgesOk(ages: seq<real>) {
    ages != [] && forall k :: 0 <= k < |ages| ==> 1.0 <= ages[k] <= MAX_AGE
  }

  function Shares(s: seq<real>): (r: seq<real>)
    requires Total(s) != 0.0
    ensures |r| == |s| && forall i :: 0 <= i < |s| ==> r[i] == Share(s[i], Total(s))
  {
    seq(|s|, i requires 0 <= i < |s| => Share(s[i], Total(s)))
  }

  function Mixed(x: real, s: seq<real>, t: seq<real>): (r: seq<real>)
    requires |s| == |t|
    ensures |r| == |s| && forall i :: 0 <= i < |s| ==> r[i] == Probability(x, s[i], t[i])
  {
    seq(|s|, i requires 0 <= i < |s| => Probability(x, s[i], t[i]))
  }

  // The selection probabilities.
  function Distribution(e: real -> real, scores: seq<real>, ages: seq<real>, exploration: real): (r: seq<real>)
    requires ExpOk(e) && AgesOk(ages) && |scores| == |ages|
    ensures |r| == |scores|
  {
    DenominatorAtLeastOne(e, scores);
    AgesTotal(ages);
    Mixed(exploration, Shares(Weights(e, scores)), Shares(ages))
  }

  lemma {:induction false} MixedTotal(x: real, s: seq<real>, t: seq<real>)
    requires |s| == |t|
    ensures Total(Mixed(x, s, t)) == Probability(x, Total(s), Total(t))
  {
    if s == [] {
      assert Mixed(x, s, t) == [] && Total(s) == 0.0 && Total(t) == 0.0;
    } else {
      var n := |s| - 1;
      MixedTotal(x, s[..n], t[..n]);
      assert Mixed(x, s, t)[..n] == Mixed(x, s[..n], t[..n]);
      AddProbabilities(x, Total(s[..n]), Total(t[..n]), s[n], t[n]);
    }
  }

  lemma AddProbabilities(x: real, a: real, b: real, c: real, d: real)
    ensures Probability(x, a, b) + Probability(x, c, d) == Probability(x, a + c, b + d)
  {
  }

  lemma SharesTotal(s: seq<real>)
    requires Total(s) != 0.0
    ensures Total(Shares(s)) == 1.0
  {
    var f := (x: real) => if Total(s) != 0.0 then Share(x, Total(s)) else 0.0;
    SharesAddUp(s, Total(s));
    assert Map(f, s) == Shares(s);
    WholeShare(Total(s));
  }

  lemma WholeShare(total: real)
    requires total != 0.0
    ensures Share(total, total) == 1.0
  {
  }

  lemma ShareTimesTotal(part: real, total: real)
    requires total != 0.0
    ensures Share(part, total) * total == part
  {
  }

  lemma ShareAtLeast(part: real, low: real, total: real, high: real)
    requires 0.0 < low <= part && 0.0 < total <= high
    ensures Share(part, total) >= Share(low, high) > 0.0
  {
    var x := Share(low, high);
    ShareTimesTotal(low, high);
    Positive(x, high);
    assert x * total <= x * high by { assert x * (high - total) >= 0.0; }
    ShareMonotone(x * total, low, total);
    ShareMonotone(low, part, total);
    ShareOfProduct(x, total);
  }

  lemma Positive(x: real, y: real)
    requires y > 0.0 && x * y > 0.0
    ensures x > 0.0
  {
    assert x <= 0.0 ==> x * y <= 0.0;
  }

  lemma ShareOfProduct(x: real, total: real)
    requires total != 0.0
    ensures Share(x * total, total) == x
  {
  }

  function Scaled(low: real, x: real): real {
    x * low
  }

  lemma MixedAtLeast(x: real, soft: real, age: real, low: real)
    requires 0.0 <= x <= 1.0 && soft >= 0.0 && age >= low
    ensures Probability(x, soft, age) >= Scaled(low, x)
  {
    assert (1.0 - x) * soft >= 0.0;
    assert x * (age - low) >= 0.0;
  }

  // `1 / (11 * n)`: the least share of all the ages one of `n` candidates can have.
  function LeastShare(n: nat): real
    requires n > 0
  {
    Share(1.0, MAX_AGE * n as real)
  }

  lemma AgeShareAtLeast(ages: seq<real>, i: nat)
    requires AgesOk(ages) && i < |ages|
    ensures Total(ages) > 0.0 && Share(ages[i], Total(ages)) >= LeastShare(|ages|) > 0.0
  {
    AgesTotal(ages);
    ShareAtLeast(ages[i], 1.0, Total(ages), MAX_AGE * |ages| as real);
  }

  // The probabilities sum to one ...
  lemma ProbabilitiesSumToOne(e: real -> real, scores: seq<real>, ages: seq<real>, exploration: real)
    requires ExpOk(e) && AgesOk(ages) && |scores| == |ages|
    ensures Total(Distribution(e, scores, ages, exploration)) == 1.0
  {
    DenominatorAtLeastOne(e, scores);
    AgesTotal(ages);
    SharesTotal(Weights(e, scores));
    SharesTotal(ages);
    MixedTotal(exploration, Shares(Weights(e, scores)), Shares(ages));
    assert Probability(exploration, 1.0, 1.0) == 1.0;
  }

  lemma ProbabilityAt(e: real -> real, scores: seq<real>, ages: seq<real>, exploration: real, i: nat)
    requires ExpOk(e) && AgesOk(ages) && |scores| == |ages| && i < |scores|
    ensures Total(Weights(e, scores)) >= 1.0 && Total(ages) >= 1.0
    ensures Distribution(e, scores, ages, exploration)[i] ==
            Probability(exploration, Share(Weights(e, scores)[i], Total(Weights(e, scores))),
                        Share(ages[i], Total(ages)))
  {
    DenominatorAtLeastOne(e, scores);
    AgesTotal(ages);
  }

  lemma SoftNonNegative(e: real -> real, scores: seq<real>, i: nat)
    requires ExpOk(e) && i < |scores|
    ensures Total(Weights(e, scores)) >= 1.0 && Share(Weights(e, scores)[i], Total(Weights(e, scores))) >= 0.0
  {
    DenominatorAtLeastOne(e, scores);
    ShareNonNegative(Weights(e, scores)[i], Total(Weights(e, scores)));
  }

  // ... and every candidate keeps at least its share of exploration, whatever the scores.
  lemma ExplorationFloor(e: real -> real, scores: seq<real>, ages: seq<real>, exploration: real, i: nat)
    requires ExpOk(e) && AgesOk(ages) && |scores| == |ages| && 0.0 <= exploration <= 1.0 && i < |scores|
    ensures Distribution(e, scores, ages, exploration)[i] >= Scaled(LeastShare(|scores|), exploration)
  {
    ProbabilityAt(e, scores, ages, exploration, i);
    SoftNonNegative(e, scores, i);
    AgeShareAtLeast(ages, i);
    MixedAtLeast(exploration, Share(Weights(e, scores)[i], Total(Weights(e, scores))), Share(ages[i], Total(ages)),
                 LeastShare(|scores|));
  }

  // The floor is `exploration / (11 * n)`.
  lemma LeastShareIs(n: nat)
    requires n > 0
    ensures LeastShare(n) * (MAX_AGE * n as real) == 1.0
  {
    ShareTimesTotal(1.0, MAX_AGE * n as real);
  }

  lemma ShareNonNegative(part: real, total: real)
    requires part >= 0.0 && total > 0.0
    ensures Share(part, total) >= 0.0
  {
  }

  // Among candidates of equal age a higher score is never less likely.
  lemma HigherScoreNoLessLikely(e: real -> real, scores: seq<real>, ages: seq<real>, exploration: real, i: nat, j: nat)
    requires ExpOk(e) && AgesOk(ages) && |scores| == |ages| && 0.0 <= exploration <= 1.0
    requires i < |scores| && j < |scores| && scores[i] <= scores[j] && ages[i] == ages[j]
    ensures Distribution(e, scores, ages, exploration)[i] <= Distribution(e, scores, ages, exploration)[j]
  {
    DenominatorAtLeastOne(e, scores);
    AgesTotal(ages);
    var w := Weights(e, scores);
    assert w[i] <= w[j];
    ShareMonotone(w[i], w[j], Total(w));
    MixedMonotone(exploration, Share(w[i], Total(w)), Share(w[j], Total(w)), Share(ages[i], Total(ages)));
  }

  lemma ShareMonotone(a: real, b: real, total: real)
    requires a <= b && total > 0.0
    ensures Share(a, total) <= Share(b, total)
  {
    AddShares(a, b - a, total);
    ShareNonNegative(b - a, total);
  }

  lemma MixedMonotone(x: real, a: real, b: real, age: real)
    requires 0.0 <= x <= 1.0 && a <= b
    ensures Probability(x, a, age) <= Probability(x, b, age)
  {
    assert (1.0 - x) * (b - a) >= 0.0;
  }

  // ---- What the mixture is made of ----

  predicate InProportion(p: real, q: real, a: real, b: real) {
    p * b == q * a
  }

  function Between(low: real, high: real, x: real): real {
    low + x * (high - low)
  }

  lemma SharesInProportion(a: real, b: real, total: real)
    requires total != 0.0
    ensures InProportion(Share(a, total), Share(b, total), a, b)
  {
    var x, y :| x == Share(a, total) && y == Share(b, total);
    ShareTimesTotal(a, total);
    ShareTimesTotal(b, total);
    assert x * (y * total) == y * (x * total);
  }

  lemma WeightAt(e: real -> real, scores: seq<real>, i: nat)
    requires ExpOk(e) && i < |scores|
    ensures Total(Weights(e, scores)) >= 1.0
    ensures Weights(e, scores)[i] == e(scores[i] - Maximum(scores))
  {
    DenominatorAtLeastOne(e, scores);
  }

  lemma MixtureAt(e: real -> real, scores: seq<real>, ages: seq<real>, exploration: real, i: nat)
    requires ExpOk(e) && AgesOk(ages) && |scores| == |ages| && i < |scores|
    ensures Total(Weights(e, scores)) >= 1.0 && Total(ages) >= 1.0
    ensures var soft, age := Share(Weights(e, scores)[i], Total(Weights(e, scores))), Share(ages[i], Total(ages));
            && Distribution(e, scores, ages, exploration)[i] == Between(soft, age, exploration)
            && Distribution(e, scores, ages, 0.0)[i] == soft && Distribution(e, scores, ages, 1.0)[i] == age
  {
    ProbabilityAt(e, scores, ages, exploration, i);
    ProbabilityAt(e, scores, ages, 0.0, i);
    ProbabilityAt(e, scores, ages, 1.0, i);
    ProbabilityIs(Share(Weights(e, scores)[i], Total(Weights(e, scores))), Share(ages[i], Total(ages)), exploration);
  }

  lemma ProbabilityIs(soft: real, age: real, x: real)
    ensures Probability(x, soft, age) == Between(soft, age, x)
    ensures Probability(0.0, soft, age) == soft && Probability(1.0, soft, age) == age
  {
  }

  // In between no exploration and nothing else, the probabilities mix those two by their share ...
  lemma MixesByExploration(e: real -> real, scores: seq<real>, ages: seq<real>, exploration: real, i: nat)
    requires ExpOk(e) && AgesOk(ages) && |scores| == |ages| && i < |scores|
    ensures Distribution(e, scores, ages, exploration)[i] ==
            Between(Distribution(e, scores, ages, 0.0)[i], Distribution(e, scores, ages, 1.0)[i], exploration)
  {
    MixtureAt(e, scores, ages, exploration, i);
  }

  // ... of which the first stand in the proportion of the exponential scores, the others in that of
  // the ages.
  lemma EndsInProportion(e: real -> real, scores: seq<real>, ages: seq<real>, i: nat, j: nat)
    requires ExpOk(e) && AgesOk(ages) && |scores| == |ages| && i < |scores| && j < |scores|
    ensures var soft, best := Distribution(e, scores, ages, 0.0), Maximum(scores);
            InProportion(soft[i], soft[j], e(scores[i] - best), e(scores[j] - best))
    ensures var aged := Distribution(e, scores, ages, 1.0); InProportion(aged[i], aged[j], ages[i], ages[j])
  {
    WeightAt(e, scores, i);
    WeightAt(e, scores, j);
    MixtureAt(e, scores, ages, 0.0, i);
    MixtureAt(e, scores, ages, 0.0, j);
    SharesInProportion(Weights(e, scores)[i], Weights(e, scores)[j], Total(Weights(e, scores)));
    SharesInProportion(ages[i], ages[j], Total(ages));
  }
}
