// Request identities `task:token:index`, built by the worker for every outbound request.
module RequestIds {
  const COLON: char := ':'

  function Digit(d: nat): char
    requires d < 10
  {
    "0123456789"[d]
  }

  // `str(n)` of a nonnegative integer.
  function Decimal(n: nat): (s: string)
    ensures s != "" && COLON !in s
  {
    if n < 10 then [Digit(n)] else Decimal(n / 10) + [Digit(n % 10)]
  }

  function RequestId(taskId: string, token: nat, index: nat): string {
    taskId + [COLON] + Decimal(token) + [COLON] + Decimal(index)
  }

  lemma {:induction false} DecimalInjective(m: nat, n: nat)
    requires Decimal(m) == Decimal(n)
    ensures m == n
  {
    var s, t := Decimal(m), Decimal(n);
    assert s[|s| - 1] == Digit(m % 10) && t[|t| - 1] == Digit(n % 10);
    if m >= 10 && n >= 10 {
      assert s[..|s| - 1] == Decimal(m / 10) && t[..|t| - 1] == Decimal(n / 10);
      DecimalInjective(m / 10, n / 10);
    }
  }

  lemma NoLaterColon(a: string, x: string, i: int)
    requires COLON !in x && |a| < i < |a| + 1 + |x|
    ensures (a + [COLON] + x)[i] != COLON
  {
    assert (a + [COLON] + x)[i] == x[i - |a| - 1];
  }

  // The last separator splits a text in one way only.
  lemma LastSeparator(a: string, x: string, b: string, y: string)
    requires COLON !in x && COLON !in y
    requires a + [COLON] + x == b + [COLON] + y
    ensures a == b && x == y
  {
    var s := a + [COLON] + x;
    assert s[|a|] == COLON && s[|b|] == COLON;
    assert |a| == |b| by {
      if |a| < |b| { NoLaterColon(a, x, |b|); }
      if |b| < |a| { NoLaterColon(b, y, |a|); }
    }
    assert a == s[..|a|] && b == s[..|b|];
    assert x == s[|a| + 1..] && y == s[|b| + 1..];
  }

  // Distinct (task, token, index) triples never share a request id, whatever the task ids contain.
  lemma RequestIdInjective(t: string, k: nat, i: nat, t': string, k': nat, i': nat)
    requires RequestId(t, k, i) == RequestId(t', k', i')
    ensures t == t' && k == k' && i == i'
  {
    LastSeparator(t + [COLON] + Decimal(k), Decimal(i), t' + [COLON] + Decimal(k'), Decimal(i'));
    LastSeparator(t, Decimal(k), t', Decimal(k'));
    DecimalInjective(k, k');
    DecimalInjective(i, i');
  }
}
