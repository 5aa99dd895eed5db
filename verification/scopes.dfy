// Filesystem scopes: the ledger's textual collision test against the component-wise one.
module Scopes {
  const SEP: char := '/'
  const ROOT: string := "/"

  // ---- Paths as component lists ----

  predicate IsComponent(c: string) {
    c != "" && SEP !in c
  }

  predicate IsPath(p: seq<string>) {
    forall i :: 0 <= i < |p| ==> IsComponent(p[i])
  }

  function Joined(p: seq<string>): string {
    if p == [] then "" else [SEP] + p[0] + Joined(p[1..])
  }

  // The absolute text of a component list; the empty list is the root.
  function Render(p: seq<string>): string {
    if p == [] then ROOT else Joined(p)
  }

  // The longest prefix without a separator.
  function Head(s: string): (h: string)
    ensures h <= s && SEP !in h
    ensures |h| < |s| ==> s[|h|] == SEP
  {
    if s == "" || s[0] == SEP then "" else [s[0]] + Head(s[1..])
  }

  // `Path(s).parts` without the root.
  function Components(s: string): (p: seq<string>)
    ensures IsPath(p)
    decreases |s|
  {
    if s == "" then []
    else if s[0] == SEP then Components(s[1..])
    else [Head(s)] + Components(s[|Head(s)|..])
  }

  // What `canonical_scope` returns: an absolute text with no empty component.
  predicate Canonical(s: string) {
    s == Render(Components(s))
  }

  // `scopes_collide`: equal, or one below the other.
  predicate ScopesCollide(a: string, b: string) {
    var p, q := Components(a), Components(b);
    p <= q || q <= p
  }

  // The SQL test of the claim guard: equal text, or text plus separator is a prefix.
  predicate GuardBlocks(c: string, t: string) {
    c == t || t + [SEP] <= c || c + [SEP] <= t
  }

  function TrimRight(s: string): string {
    if s != "" && s[|s| - 1] == SEP then TrimRight(s[..|s| - 1]) else s
  }

  // One authorised scope of a locality: `scope = path` or prefix `path.rstrip(sep) + sep`.
  predicate Authorizes(path: string, scope: string) {
    scope == path || TrimRight(path) + [SEP] <= scope
  }

  // ---- Round trip ----

  lemma {:induction false} HeadOfComponent(c: string, rest: string)
    requires SEP !in c
    requires rest == "" || rest[0] == SEP
    ensures Head(c + rest) == c
  {
    if c == "" {
      assert c + rest == rest;
    } else {
      assert (c + rest)[1..] == c[1..] + rest;
      HeadOfComponent(c[1..], rest);
    }
  }

  lemma {:induction false} ComponentsOfJoined(p: seq<string>)
    requires IsPath(p)
    ensures Components(Joined(p)) == p
  {
    if p != [] {
      var rest := Joined(p[1..]);
      var body := p[0] + rest;
      assert Joined(p) == [SEP] + p[0] + rest == [SEP] + body;
      assert Joined(p)[1..] == body;
      HeadOfComponent(p[0], rest);
      assert IsComponent(p[0]);
      assert body[0] == p[0][0];
      assert body[|p[0]|..] == rest;
      ComponentsOfJoined(p[1..]);
    }
  }

  // Parsing the text of a path gives the path back, so every rendered path is canonical.
  lemma ComponentsOfRender(p: seq<string>)
    requires IsPath(p)
    ensures Components(Render(p)) == p
    ensures Canonical(Render(p))
  {
    if p == [] {
      assert ROOT[1..] == "";
    } else {
      ComponentsOfJoined(p);
    }
  }

  // ---- Prefix of text against prefix of components ----

  lemma PrefixCancels(front: string, x: string, y: string)
    ensures front + x <= front + y <==> x <= y
  {
    assert (front + x)[|front|..] == x && (front + y)[|front|..] == y;
    if x <= y {
      assert front + y == front + x + y[|x|..];
    }
  }

  lemma {:induction false} JoinedPrefix(p: seq<string>, q: seq<string>)
    requires IsPath(p) && IsPath(q)
    ensures Joined(p) + [SEP] <= Joined(q) <==> p < q
  {
    if p == [] {
      assert Joined(p) + [SEP] == [SEP];
    } else if q == [] {
    } else {
      var x, y := Joined(p[1..]) + [SEP], Joined(q[1..]);
      assert Joined(p) + [SEP] == [SEP] + p[0] + x;
      assert Joined(q) == [SEP] + q[0] + y;
      JoinedPrefix(p[1..], q[1..]);
      if p[0] == q[0] {
        PrefixCancels([SEP] + p[0], x, y);
        assert p < q <==> p[1..] < q[1..] by {
          assert p == [p[0]] + p[1..] && q == [q[0]] + q[1..];
        }
      } else {
        if Joined(p) + [SEP] <= Joined(q) {
          FirstComponent(p[0], x, q[0], y);
        }
      }
    }
  }

  // The first component of a text is the run up to the next separator.
  lemma FirstComponent(a: string, x: string, b: string, y: string)
    requires SEP !in a && SEP !in b
    requires x != "" && x[0] == SEP
    requires y == "" || y[0] == SEP
    requires [SEP] + a + x <= [SEP] + b + y
    ensures a == b
  {
    var s, t := [SEP] + a + x, [SEP] + b + y;
    var z := x + t[|s|..];
    assert t == s + t[|s|..] == [SEP] + (a + z);
    assert t == [SEP] + (b + y);
    assert a + z == t[1..] == b + y;
    HeadOfComponent(a, z);
    HeadOfComponent(b, y);
  }

  lemma JoinedStart(p: seq<string>)
    requires p != []
    ensures Joined(p) != "" && Joined(p)[0] == SEP
  {
  }

  // A canonical text other than the root never starts with two separators.
  lemma NoDoubleSeparator(p: seq<string>)
    requires IsPath(p) && p != []
    ensures !([SEP, SEP] <= Joined(p))
  {
    assert IsComponent(p[0]);
    assert Joined(p)[1] == p[0][0];
  }

  // The claim guard decides exactly what `scopes_collide` decides, except between the
  // filesystem root and a different scope, where the doubled separator never matches.
  lemma GuardAgreesExactly(a: string, b: string)
    requires Canonical(a) && Canonical(b)
    ensures (GuardBlocks(a, b) <==> ScopesCollide(a, b)) <==> (a == b || (a != ROOT && b != ROOT))
  {
    var p, q := Components(a), Components(b);
    if a == b {
    } else if p == [] {
      JoinedStart(q);
      NoDoubleSeparator(q);
      assert ROOT + [SEP] == [SEP, SEP];
      assert |b + [SEP]| > |ROOT|;
    } else if q == [] {
      JoinedStart(p);
      NoDoubleSeparator(p);
      assert ROOT + [SEP] == [SEP, SEP];
      assert |a + [SEP]| > |ROOT|;
    } else {
      NotRoot(p);
      NotRoot(q);
      JoinedPrefix(p, q);
      JoinedPrefix(q, p);
      assert p != q;
      assert p <= q <==> p < q;
      assert q <= p <==> q < p;
    }
  }

  lemma NotRoot(p: seq<string>)
    requires IsPath(p) && p != []
    ensures Render(p) != ROOT
  {
    assert IsComponent(p[0]);
    assert |Joined(p)| > 1;
  }

  // Between the root and any other scope the two tests differ: `scopes_collide` holds,
  // the guard does not.
  lemma RootEscapesTheGuard(b: string)
    requires Canonical(b) && b != ROOT
    ensures ScopesCollide(ROOT, b) && !GuardBlocks(ROOT, b) && !GuardBlocks(b, ROOT)
  {
    ComponentsOfRender([]);
    GuardAgreesExactly(ROOT, b);
    assert Components(ROOT) == [];
    assert ScopesCollide(ROOT, b);
  }

  // The locality filter strips the separator first, so it is right at the root as well.
  lemma AuthorizesExactlyBelow(path: string, scope: string)
    requires Canonical(path) && Canonical(scope)
    ensures Authorizes(path, scope) <==> Components(path) <= Components(scope)
  {
    var p, q := Components(path), Components(scope);
    if p == [] {
      assert TrimRight(ROOT[..0]) == "";
      assert TrimRight(ROOT) + [SEP] == [SEP];
      if q != [] { JoinedStart(q); }
    } else {
      JoinedEnd(p);
      assert TrimRight(path) == path;
      if q == [] {
        NotRoot(p);
        assert |path + [SEP]| > |scope|;
      } else {
        JoinedPrefix(p, q);
        assert p <= q <==> p == q || p < q;
      }
    }
  }

  lemma {:induction false} JoinedEnd(p: seq<string>)
    requires IsPath(p) && p != []
    ensures Joined(p) != "" && Joined(p)[|Joined(p)| - 1] != SEP
  {
    var s, rest := Joined(p), Joined(p[1..]);
    assert s == [SEP] + p[0] + rest;
    assert IsComponent(p[0]);
    if p[1..] == [] {
      assert s[|s| - 1] == p[0][|p[0]| - 1];
    } else {
      JoinedEnd(p[1..]);
      assert s[|s| - 1] == rest[|rest| - 1];
    }
  }
}
