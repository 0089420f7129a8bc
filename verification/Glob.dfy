/** The greedy wildcard matcher of the scanner's filters. */
module Glob {
  import opened Bytes

  const STAR: byte := 42
  const QUESTION: byte := 63

  // ---- the declarative relation ----

  function OneByte(c: byte, x: byte): bool {
    c == QUESTION || c == x
  }

  /** `*` matches any run, `?` any one byte, everything else itself. */
  predicate Match(p: seq<byte>, t: seq<byte>)
    decreases |p| + |t|
  {
    if p == [] then t == []
    else if p[0] == STAR then Match(p[1..], t) || (t != [] && Match(p, t[1..]))
    else t != [] && OneByte(p[0], t[0]) && Match(p[1..], t[1..])
  }

  // ---- the code ----

  predicate HasWildcards(p: seq<byte>) {
    exists i | 0 <= i < |p| :: p[i] == STAR || p[i] == QUESTION
  }

  /** The loop from a given state; `starP` is -1 while no star was seen. */
  function Run(p: seq<byte>, t: seq<byte>, i: nat, j: nat, starP: int, starT: nat): bool
    requires i <= |p| && starT <= j <= |t| && -1 <= starP < i
    decreases |t| - starT, |t| - j + |p| - i
  {
    if j < |t| then
      if i < |p| && OneByte(p[i], t[j]) then Run(p, t, i + 1, j + 1, starP, starT)
      else if i < |p| && p[i] == STAR then Run(p, t, i + 1, j, i, j)
      else if starP >= 0 then Run(p, t, starP + 1, starT + 1, starP, starT + 1)
      else false
    else OnlyStars(p, i)
  }

  predicate OnlyStars(p: seq<byte>, i: nat)
    requires i <= |p|
  {
    forall k | i <= k < |p| :: p[k] == STAR
  }

  function GlobResult(p: seq<byte>, t: seq<byte>): bool {
    if HasWildcards(p) then Run(p, t, 0, 0, -1, 0) else p == t
  }

  /** The linear matcher: it terminates, and its result is the run's. */
  method Glob(pattern: seq<byte>, text: seq<byte>) returns (b: bool)
    ensures b == GlobResult(pattern, text)
  {
    if !HasWildcards(pattern) {
      return pattern == text;
    }
    var p: nat, t: nat := 0, 0;
    var starP: int, starT: nat := -1, 0;
    while t < |text|
      invariant p <= |pattern| && starT <= t <= |text| && -1 <= starP < p
      invariant Run(pattern, text, 0, 0, -1, 0) == Run(pattern, text, p, t, starP, starT)
      decreases |text| - starT, |text| - t + |pattern| - p
    {
      if p < |pattern| && (pattern[p] == QUESTION || pattern[p] == text[t]) {
        p := p + 1;
        t := t + 1;
      } else if p < |pattern| && pattern[p] == STAR {
        starP := p;
        starT := t;
        p := p + 1;
      } else if starP != -1 {
        p := starP + 1;
        starT := starT + 1;
        t := starT;
      } else {
        return false;
      }
    }
    ghost var at := p;
    while p < |pattern| && pattern[p] == STAR
      invariant at <= p <= |pattern|
      invariant forall k | at <= k < p :: pattern[k] == STAR
    {
      p := p + 1;
    }
    return p == |pattern|;
  }

  // ---- facts about the relation ----

  lemma {:induction false} MatchConcat(p: seq<byte>, t: seq<byte>, q: seq<byte>, u: seq<byte>)
    requires Match(p, t) && Match(q, u)
    ensures Match(p + q, t + u)
    decreases |p| + |t|
  {
    if p == [] {
      assert p + q == q && t + u == u;
    } else if p[0] == STAR && Match(p[1..], t) {
      MatchConcat(p[1..], t, q, u);
      assert (p + q)[1..] == p[1..] + q;
    } else if p[0] == STAR {
      MatchConcat(p, t[1..], q, u);
      assert (t + u)[1..] == t[1..] + u;
    } else {
      MatchConcat(p[1..], t[1..], q, u);
      assert (p + q)[1..] == p[1..] + q;
      assert (t + u)[1..] == t[1..] + u;
    }
  }

  lemma {:induction false} StarMatchesAll(t: seq<byte>)
    ensures Match([STAR], t)
  {
    if t != [] {
      StarMatchesAll(t[1..]);
    }
  }

  lemma {:induction false} StarsMatchEmpty(p: seq<byte>)
    ensures Match(p, []) <==> OnlyStars(p, 0)
  {
    if p != [] {
      StarsMatchEmpty(p[1..]);
      if p[0] == STAR && OnlyStars(p[1..], 0) {
        forall k | 0 <= k < |p|
          ensures p[k] == STAR
        {
          if k > 0 {
            assert p[k] == p[1..][k - 1];
          }
        }
      }
    }
  }

  lemma MatchSingle(c: byte, x: byte)
    requires OneByte(c, x)
    ensures Match([c], [x])
  {
    assert [c][1..] == [] && [x][1..] == [];
    if c == STAR {
      StarMatchesAll([x]);
    }
  }

  lemma {:induction false} SelfMatch(a: seq<byte>)
    ensures Match(a, a)
  {
    if a != [] {
      SelfMatch(a[1..]);
      MatchSingle(a[0], a[0]);
      MatchConcat([a[0]], [a[0]], a[1..], a[1..]);
      assert [a[0]] + a[1..] == a;
    }
  }

  /** A star splits the text: everything after it matches some suffix. */
  lemma {:induction false} StarSplits(q: seq<byte>, t: seq<byte>)
    ensures Match([STAR] + q, t) <==> exists k :: 0 <= k <= |t| && Match(q, t[k..])
  {
    var p := [STAR] + q;
    assert p[1..] == q;
    if Match(q, t) {
      assert t[0..] == t;
    } else if t != [] {
      StarSplits(q, t[1..]);
      if k :| 0 <= k <= |t[1..]| && Match(q, t[1..][k..]) {
        assert t[1..][k..] == t[k + 1..];
      }
      if k :| 0 <= k <= |t| && Match(q, t[k..]) {
        assert t[0..] == t && k > 0;
        assert t[1..][k - 1..] == t[k..];
      }
    } else {
      assert t[0..] == t;
    }
  }

  /** Star-free text segment against star-free pattern segment. */
  predicate Segment(a: seq<byte>, s: seq<byte>) {
    |a| == |s| && forall k | 0 <= k < |a| :: a[k] != STAR && OneByte(a[k], s[k])
  }

  /** A star-free pattern head consumes exactly its length. */
  lemma {:induction false} HeadConsumes(a: seq<byte>, q: seq<byte>, t: seq<byte>)
    requires STAR !in a
    ensures Match(a + q, t) <==> |t| >= |a| && Segment(a, t[..|a|]) && Match(q, t[|a|..])
  {
    if a == [] {
      assert a + q == q && t[0..] == t;
    } else {
      assert (a + q)[1..] == a[1..] + q;
      if t != [] {
        HeadConsumes(a[1..], q, t[1..]);
        if |t| >= |a| {
          assert t[1..][|a| - 1..] == t[|a|..];
          SegmentTail(a, t[..|a|]);
          assert t[..|a|][1..] == t[1..][..|a| - 1];
        }
      }
    }
  }

  lemma SegmentTail(a: seq<byte>, s: seq<byte>)
    requires a != [] && |a| == |s| && STAR !in a
    ensures Segment(a, s) <==> OneByte(a[0], s[0]) && Segment(a[1..], s[1..])
  {
    if OneByte(a[0], s[0]) && Segment(a[1..], s[1..]) {
      forall k | 0 <= k < |a|
        ensures a[k] != STAR && OneByte(a[k], s[k])
      {
        if k > 0 {
          assert a[1..][k - 1] == a[k] && s[1..][k - 1] == s[k];
        }
      }
    }
  }

  // ---- soundness: for every pattern and every text ----

  /** The run only consumes what the relation allows. */
  ghost predicate Consumed(p: seq<byte>, t: seq<byte>, i: nat, j: nat, starP: int, starT: nat)
    requires i <= |p| && starT <= j <= |t| && -1 <= starP < i
  {
    && Match(p[..i], t[..j])
    && (starP >= 0 ==> p[starP] == STAR && Match(p[..starP + 1], t[..starT]))
  }

  lemma MatchSnoc(p: seq<byte>, t: seq<byte>, i: nat, j: nat)
    requires i < |p| && j <= |t| && Match(p[..i], t[..j])
    ensures p[i] == STAR ==> Match(p[..i + 1], t[..j])
    ensures j < |t| && OneByte(p[i], t[j]) ==> Match(p[..i + 1], t[..j + 1])
  {
    assert p[..i + 1] == p[..i] + [p[i]];
    if p[i] == STAR {
      StarMatchesAll([]);
      MatchConcat(p[..i], t[..j], [STAR], []);
      assert t[..j] + [] == t[..j];
    }
    if j < |t| && OneByte(p[i], t[j]) {
      MatchSingle(p[i], t[j]);
      MatchConcat(p[..i], t[..j], [p[i]], [t[j]]);
      assert t[..j] + [t[j]] == t[..j + 1];
    }
  }

  lemma {:induction false} StarExtends(p: seq<byte>, t: seq<byte>, i: nat, j: nat)
    requires i < |p| && j < |t| && p[i] == STAR && Match(p[..i + 1], t[..j])
    ensures Match(p[..i + 1], t[..j + 1])
  {
    // p[..i+1] ends in a star: split it off and give the star one more byte
    var q := p[..i + 1];
    StarGrows(q, t[..j], t[j]);
    assert t[..j] + [t[j]] == t[..j + 1];
  }

  lemma {:induction false} StarGrows(q: seq<byte>, t: seq<byte>, x: byte)
    requires q != [] && q[|q| - 1] == STAR && Match(q, t)
    ensures Match(q, t + [x])
    decreases |q| + |t|
  {
    if |q| == 1 {
      assert q == [STAR];
      StarMatchesAll(t + [x]);
    } else if q[0] == STAR && Match(q[1..], t) {
      StarGrows(q[1..], t, x);
    } else {
      assert (t + [x])[1..] == t[1..] + [x];
      if q[0] == STAR {
        StarGrows(q, t[1..], x);
      } else {
        StarGrows(q[1..], t[1..], x);
      }
    }
  }

  lemma {:induction false} RunSound(p: seq<byte>, t: seq<byte>, i: nat, j: nat, starP: int, starT: nat)
    requires i <= |p| && starT <= j <= |t| && -1 <= starP < i
    requires Consumed(p, t, i, j, starP, starT) && Run(p, t, i, j, starP, starT)
    ensures Match(p, t)
    decreases |t| - starT, |t| - j + |p| - i
  {
    if j < |t| {
      if i < |p| && OneByte(p[i], t[j]) {
        MatchSnoc(p, t, i, j);
        RunSound(p, t, i + 1, j + 1, starP, starT);
      } else if i < |p| && p[i] == STAR {
        MatchSnoc(p, t, i, j);
        RunSound(p, t, i + 1, j, i, j);
      } else {
        StarExtends(p, t, starP, starT);
        RunSound(p, t, starP + 1, starT + 1, starP, starT + 1);
      }
    } else {
      StarsMatchEmpty(p[i..]);
      MatchConcat(p[..i], t[..j], p[i..], []);
      assert p[..i] + p[i..] == p && t[..j] + [] == t;
    }
  }

  /** Whenever `glob` says yes, the declarative relation holds. */
  lemma GlobSound(p: seq<byte>, t: seq<byte>)
    requires GlobResult(p, t)
    ensures Match(p, t)
  {
    if HasWildcards(p) {
      assert p[..0] == [] && t[..0] == [];
      RunSound(p, t, 0, 0, -1, 0);
    } else {
      SelfMatch(p);
    }
  }

  // ---- completeness: for every text without a star byte ----

  /** The rest still matches: directly, or by stretching the last star further. */
  ghost predicate Alive(p: seq<byte>, t: seq<byte>, i: nat, j: nat, starP: int, starT: nat)
    requires i <= |p| && starT <= j <= |t| && -1 <= starP < i
  {
    if starP < 0 then Match(p[i..], t[j..])
    else
      && Segment(p[starP + 1..i], t[starT..j])
      && exists k :: starT <= k <= |t| && Match(p[starP + 1..], t[k..])
  }

  /** Matching from the last star's position is matching from here. */
  lemma FromStar(p: seq<byte>, t: seq<byte>, i: nat, j: nat, from: nat, k: nat)
    requires from <= i <= |p| && k <= |t| && i - from <= j <= |t|
    requires Segment(p[from..i], t[j - (i - from)..j])
    ensures Match(p[from..], t[k..]) ==> k + (i - from) <= |t| && Match(p[i..], t[k + (i - from)..])
    ensures Match(p[i..], t[j..]) ==> Match(p[from..], t[j - (i - from)..])
  {
    hide Match;
    var a, n := p[from..i], i - from;
    assert p[from..] == a + p[i..];
    NoStars(a, t[j - n..j]);
    HeadConsumes(a, p[i..], t[k..]);
    if k + n <= |t| {
      assert t[k..][n..] == t[k + n..];
    }
    HeadConsumes(a, p[i..], t[j - n..]);
    assert t[j - n..][..n] == t[j - n..j] && t[j - n..][n..] == t[j..];
  }

  lemma NoStars(a: seq<byte>, s: seq<byte>)
    requires Segment(a, s)
    ensures STAR !in a
  {
  }

  lemma {:induction false} RunComplete(p: seq<byte>, t: seq<byte>, i: nat, j: nat, starP: int, starT: nat)
    requires i <= |p| && starT <= j <= |t| && -1 <= starP < i && STAR !in t
    requires Alive(p, t, i, j, starP, starT)
    ensures Run(p, t, i, j, starP, starT)
    decreases |t| - starT, |t| - j + |p| - i
  {
    if j < |t| {
      if i < |p| && OneByte(p[i], t[j]) {
        AliveByte(p, t, i, j, starP, starT);
        RunComplete(p, t, i + 1, j + 1, starP, starT);
      } else if i < |p| && p[i] == STAR {
        AliveStar(p, t, i, j, starP, starT);
        RunComplete(p, t, i + 1, j, i, j);
      } else {
        AliveBack(p, t, i, j, starP, starT);
        RunComplete(p, t, starP + 1, starT + 1, starP, starT + 1);
      }
    } else {
      AliveEnd(p, t, i, starP, starT);
    }
  }

  lemma AliveByte(p: seq<byte>, t: seq<byte>, i: nat, j: nat, starP: int, starT: nat)
    requires i < |p| && starT <= j < |t| && -1 <= starP < i && STAR !in t
    requires Alive(p, t, i, j, starP, starT) && OneByte(p[i], t[j])
    ensures Alive(p, t, i + 1, j + 1, starP, starT)
  {
    assert t[j] != STAR;
    assert p[i] != STAR;
    if starP < 0 {
      assert p[i..][1..] == p[i + 1..] && t[j..][1..] == t[j + 1..];
    } else {
      assert p[starP + 1..i + 1] == p[starP + 1..i] + [p[i]];
      assert t[starT..j + 1] == t[starT..j] + [t[j]];
    }
  }

  lemma AliveStar(p: seq<byte>, t: seq<byte>, i: nat, j: nat, starP: int, starT: nat)
    requires i < |p| && starT <= j < |t| && -1 <= starP < i && p[i] == STAR
    requires Alive(p, t, i, j, starP, starT)
    ensures Alive(p, t, i + 1, j, i, j)
  {
    var from: nat := j;
    if starP >= 0 {
      var k :| starT <= k <= |t| && Match(p[starP + 1..], t[k..]);
      FromStar(p, t, i, j, starP + 1, k);
      from := k + (i - (starP + 1));
    }
    hide Match;
    assert p[i + 1..i + 1] == [] && t[j..j] == [];
    var k := StarReach(p, t, i, from);
    assert j <= k <= |t|;
  }

  lemma StarReach(p: seq<byte>, t: seq<byte>, i: nat, from: nat) returns (k: nat)
    requires i < |p| && p[i] == STAR && from <= |t| && Match(p[i..], t[from..])
    ensures from <= k <= |t| && Match(p[i + 1..], t[k..])
  {
    hide Match;
    assert p[i..] == [STAR] + p[i + 1..];
    StarSplits(p[i + 1..], t[from..]);
    var m :| 0 <= m <= |t[from..]| && Match(p[i + 1..], t[from..][m..]);
    assert t[from..][m..] == t[from + m..];
    k := from + m;
  }

  lemma AliveBack(p: seq<byte>, t: seq<byte>, i: nat, j: nat, starP: int, starT: nat)
    requires i <= |p| && starT <= j < |t| && -1 <= starP < i
    requires Alive(p, t, i, j, starP, starT)
    requires i < |p| ==> !OneByte(p[i], t[j]) && p[i] != STAR
    ensures starP >= 0 && Alive(p, t, starP + 1, starT + 1, starP, starT + 1)
  {
    assert !Match(p[i..], t[j..]);
    if starP >= 0 {
      var k :| starT <= k <= |t| && Match(p[starP + 1..], t[k..]);
      FromStar(p, t, i, j, starP + 1, k);
      assert k != starT;
      assert p[starP + 1..starP + 1] == [] && t[starT + 1..starT + 1] == [];
    }
  }

  lemma AliveEnd(p: seq<byte>, t: seq<byte>, i: nat, starP: int, starT: nat)
    requires i <= |p| && starT <= |t| && -1 <= starP < i
    requires Alive(p, t, i, |t|, starP, starT)
    ensures OnlyStars(p, i)
  {
    if starP >= 0 {
      var k :| starT <= k <= |t| && Match(p[starP + 1..], t[k..]);
      FromStar(p, t, i, |t|, starP + 1, k);
    }
    assert t[|t|..] == [];
    StarsMatchEmpty(p[i..]);
    forall m | i <= m < |p|
      ensures p[m] == STAR
    {
      assert p[m] == p[i..][m - i];
    }
  }

  lemma {:induction false} LiteralMatch(p: seq<byte>, t: seq<byte>)
    requires !HasWildcards(p)
    ensures Match(p, t) <==> p == t
  {
    if p != [] {
      assert !HasWildcards(p[1..]) by {
        assert forall k | 0 <= k < |p[1..]| :: p[1..][k] == p[k + 1];
      }
      assert p[0] != STAR && p[0] != QUESTION;
      if t != [] {
        LiteralMatch(p[1..], t[1..]);
        assert p == [p[0]] + p[1..] && t == [t[0]] + t[1..];
      }
    }
  }

  /** Backtracking only to the last star loses no match while the text has no star. */
  lemma GlobComplete(p: seq<byte>, t: seq<byte>)
    requires STAR !in t && Match(p, t)
    ensures GlobResult(p, t)
  {
    if HasWildcards(p) {
      assert p[0..] == p && t[0..] == t;
      RunComplete(p, t, 0, 0, -1, 0);
    } else {
      LiteralMatch(p, t);
    }
  }

  // ---- and exactly then ----

  lemma {:induction false} RunCopies(p: seq<byte>, t: seq<byte>, i: nat, n: nat)
    requires i <= n <= |p| && n <= |t| && p[..n] == t[..n]
    ensures Run(p, t, i, i, -1, 0) == Run(p, t, n, n, -1, 0)
    decreases n - i
  {
    if i < n {
      assert p[i] == p[..n][i] == t[..n][i] == t[i];
      RunCopies(p, t, i + 1, n);
    }
  }

  /** A text with a star byte has a pattern that matches it and is refused: the
      star byte is taken as a literal, so the pattern's star is never remembered. */
  lemma StarTextLosesMatch(t: seq<byte>) returns (p: seq<byte>)
    requires STAR in t
    ensures Match(p, t) && !GlobResult(p, t)
  {
    var i :| 0 <= i < |t| && t[i] == STAR;
    if i + 1 < |t| {
      p := t[..i + 1];
      assert p[i] == STAR;
      SelfMatch(t[..i]);
      StarMatchesAll(t[i..]);
      MatchConcat(t[..i], t[..i], [STAR], t[i..]);
      assert p == t[..i] + [STAR] && t == t[..i] + t[i..];
      RunCopies(p, t, 0, i + 1);
    } else {
      p := t + [QUESTION];
      assert p[i] == STAR;
      SelfMatch(t[..i]);
      assert [STAR, QUESTION][1..] == [QUESTION];
      MatchSingle(QUESTION, STAR);
      assert Match([STAR, QUESTION], [STAR]);
      MatchConcat(t[..i], t[..i], [STAR, QUESTION], [STAR]);
      assert p == t[..i] + [STAR, QUESTION] && t == t[..i] + [STAR];
      assert p[..|t|] == t[..|t|];
      RunCopies(p, t, 0, |t|);
      assert p[|t|] == QUESTION;
    }
  }

  /** `glob` decides the declarative relation for every pattern exactly on the
      texts without a `*` byte. */
  lemma GlobExact(t: seq<byte>)
    ensures (forall p :: GlobResult(p, t) == Match(p, t)) <==> STAR !in t
  {
    if STAR in t {
      var p := StarTextLosesMatch(t);
      assert GlobResult(p, t) != Match(p, t);
    } else {
      forall p
        ensures GlobResult(p, t) == Match(p, t)
      {
        if GlobResult(p, t) {
          GlobSound(p, t);
        } else if Match(p, t) {
          GlobComplete(p, t);
        }
      }
    }
  }
}
