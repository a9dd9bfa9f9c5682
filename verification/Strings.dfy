/** The string operations the converter relies on: containment, cutting at the first occurrence,
    replacing the first occurrence, counting, and stripping white space.  Each is defined by
    recursion on the suffixes of its argument, so proofs never talk about positions. */
module Strings {
  import opened Wrappers

  predicate Contains(s: string, p: string) {
    p <= s || (s != "" && Contains(s[1..], p))
  }

  /** What precedes and what follows the first occurrence of `p`. */
  function Cut(s: string, p: string): (r: Option<(string, string)>)
    ensures r.Some? <==> Contains(s, p)
    ensures r.Some? ==> s == r.value.0 + p + r.value.1
    ensures r.Some? && p != "" ==> !Contains(r.value.0, p)
  {
    if p <= s then Some(("", s[|p|..]))
    else if s == "" then None
    else match Cut(s[1..], p)
      case None => None
      case Some((b, a)) => Some(([s[0]] + b, a))
  }

  /** `s.split(p)[0]` */
  function Before(s: string, p: string): string {
    match Cut(s, p)
    case Some((b, _)) => b
    case None => s
  }

  /** `s.replace(p, '', 1)` */
  function RemoveFirst(s: string, p: string): string {
    match Cut(s, p)
    case Some((b, a)) => b + a
    case None => s
  }

  /** `s.count(p)`: occurrences that do not overlap, from the left. */
  function Count(s: string, p: string): (n: nat)
    requires p != ""
    ensures n == 0 <==> !Contains(s, p)
    decreases |s|
  {
    match Cut(s, p)
    case None => 0
    case Some((_, a)) => 1 + Count(a, p)
  }

  predicate EndsWith(s: string, p: string) {
    |p| <= |s| && s[|s| - |p|..] == p
  }

  /** The characters that Python's `str.strip` removes. */
  predicate IsSpace(c: char) {
    var n := c as int;
    || 0x09 <= n <= 0x0D || 0x1C <= n <= 0x20 || n == 0x85 || n == 0xA0
    || n == 0x1680 || 0x2000 <= n <= 0x200A || n == 0x2028 || n == 0x2029
    || n == 0x202F || n == 0x205F || n == 0x3000
  }

  function LStrip(s: string): (r: string)
    ensures r != "" ==> !IsSpace(r[0])
    ensures |r| <= |s| && r == s[|s| - |r|..]
  {
    if s != "" && IsSpace(s[0]) then LStrip(s[1..]) else s
  }

  function RStrip(s: string): (r: string)
    ensures r != "" ==> !IsSpace(r[|r| - 1])
    ensures r <= s
  {
    if s != "" && IsSpace(s[|s| - 1]) then RStrip(s[..|s| - 1]) else s
  }

  function Strip(s: string): string {
    RStrip(LStrip(s))
  }

  /** A pattern whose first character does not recur in it cannot overlap itself. */
  predicate HeadOnce(p: string) {
    p != "" && forall k | 0 < k < |p| :: p[k] != p[0]
  }

  lemma {:induction false} ContainsInRight(a: string, b: string, p: string)
    requires Contains(b, p)
    ensures Contains(a + b, p)
  {
    if a == "" {
      assert a + b == b;
    } else {
      assert (a + b)[1..] == a[1..] + b;
      ContainsInRight(a[1..], b, p);
    }
  }

  lemma {:induction false} ContainsInLeft(a: string, b: string, p: string)
    requires Contains(a, p)
    ensures Contains(a + b, p)
  {
    if p <= a {
      assert p <= a + b;
    } else {
      assert (a + b)[1..] == a[1..] + b;
      ContainsInLeft(a[1..], b, p);
    }
  }

  lemma {:induction false} NoHeadNoMatch(s: string, p: string)
    requires p != "" && p[0] !in s
    ensures !Contains(s, p)
  {
    if s != "" {
      NoHeadNoMatch(s[1..], p);
    }
  }

  /** Text in which the head of `p` does not occur can be skipped in a search for `p`. */
  lemma {:induction false} SkipNoHead(a: string, b: string, p: string)
    requires p != "" && p[0] !in a
    ensures Contains(a + b, p) <==> Contains(b, p)
  {
    if a == "" {
      assert a + b == b;
    } else {
      assert (a + b)[1..] == a[1..] + b;
      SkipNoHead(a[1..], b, p);
    }
  }

  /** No occurrence of `p` crosses into a text that begins with the head of `p`. */
  lemma PrefixStaysLeft(a: string, b: string, p: string)
    requires HeadOnce(p) && a != "" && (b == "" || b[0] == p[0])
    ensures p <= a + b <==> p <= a
  {
    assert b != "" ==> (a + b)[|a|] == p[0];
  }

  lemma {:induction false} ContainsSplit(a: string, b: string, p: string)
    requires HeadOnce(p) && (b == "" || b[0] == p[0])
    ensures Contains(a + b, p) <==> Contains(a, p) || Contains(b, p)
  {
    if a == "" {
      assert a + b == b;
    } else {
      assert (a + b)[1..] == a[1..] + b;
      PrefixStaysLeft(a, b, p);
      ContainsSplit(a[1..], b, p);
      if Contains(a, p) { ContainsInLeft(a, b, p); }
    }
  }

  /** The first occurrence of `p` in `b + p + a` is the one shown, if `b` has none of its own. */
  lemma {:induction false} CutAt(b: string, p: string, a: string)
    requires HeadOnce(p) && !Contains(b, p)
    ensures Cut(b + p + a, p) == Some((b, a))
  {
    var s := b + p + a;
    if b == "" {
      assert s == p + a && s[|p|..] == a;
    } else {
      assert s == b + (p + a);
      PrefixStaysLeft(b, p + a, p);
      assert s[1..] == b[1..] + p + a;
      CutAt(b[1..], p, a);
      assert [s[0]] + b[1..] == b;
    }
  }

  lemma CountOne(b: string, p: string, a: string)
    requires HeadOnce(p) && !Contains(b, p)
    ensures Contains(b + p + a, p)
    ensures Count(b + p + a, p) == 1 + Count(a, p)
  {
    CutAt(b, p, a);
  }

  lemma {:induction false} RStripSuffix(s: string, t: string)
    requires forall k | 0 <= k < |t| :: IsSpace(t[k])
    ensures RStrip(s + t) == RStrip(s)
  {
    if t == "" {
      assert s + t == s;
    } else {
      var t' := t[..|t| - 1];
      assert (s + t)[..|s + t| - 1] == s + t';
      assert (s + t)[|s + t| - 1] == t[|t| - 1];
      RStripSuffix(s, t');
    }
  }

  /** Stripping the left end first, then appending blank space, changes nothing under `Strip`. */
  lemma StripPadded(s: string, t: string)
    requires forall k | 0 <= k < |t| :: IsSpace(t[k])
    ensures LStrip(s) != "" ==> Strip(LStrip(s) + t) == Strip(s)
  {
    var l := LStrip(s);
    if l != "" {
      assert LStrip(l + t) == l + t;
      RStripSuffix(l, t);
    }
  }

  lemma {:induction false} LStripPadded(s: string, t: string, u: string)
    requires forall k | 0 <= k < |t| :: IsSpace(t[k])
    requires u != "" && !IsSpace(u[0])
    ensures LStrip(s + t + u) == if LStrip(s) == "" then u else LStrip(s) + t + u
  {
    if s == "" {
      assert s + t + u == t + u;
      LStripBlank(t, u);
    } else if IsSpace(s[0]) {
      assert (s + t + u)[1..] == s[1..] + t + u;
      LStripPadded(s[1..], t, u);
    } else {
      assert (s + t + u)[0] == s[0];
    }
  }

  lemma {:induction false} LStripBlank(t: string, u: string)
    requires forall k | 0 <= k < |t| :: IsSpace(t[k])
    requires u != "" && !IsSpace(u[0])
    ensures LStrip(t + u) == u
  {
    if t == "" {
      assert t + u == u;
    } else {
      assert (t + u)[1..] == t[1..] + u;
      LStripBlank(t[1..], u);
    }
  }

  lemma {:induction false} SuffixClean(s: string, k: nat, p: string)
    requires k <= |s| && !Contains(s, p)
    ensures !Contains(s[k..], p)
  {
    assert s == s[..k] + s[k..];
    if Contains(s[k..], p) { ContainsInRight(s[..k], s[k..], p); }
  }

  lemma {:induction false} LStripExactly(a: string, m: string)
    requires (forall k | 0 <= k < |a| :: IsSpace(a[k])) && (m == "" || !IsSpace(m[0]))
    ensures LStrip(a + m) == m
  {
    if a == "" {
      assert a + m == m;
    } else {
      assert (a + m)[1..] == a[1..] + m;
      LStripExactly(a[1..], m);
    }
  }

  lemma RStripNothing(m: string)
    requires m == "" || !IsSpace(m[|m| - 1])
    ensures RStrip(m) == m
  {
  }

  /** Stripping takes away the blanks at both ends and nothing else. */
  lemma StripExactly(a: string, m: string, b: string)
    requires forall k | 0 <= k < |a| :: IsSpace(a[k])
    requires forall k | 0 <= k < |b| :: IsSpace(b[k])
    requires m != "" ==> !IsSpace(m[0]) && !IsSpace(m[|m| - 1])
    ensures Strip(a + m + b) == m
  {
    if m == "" {
      assert a + m + b == (a + b) + "";
      LStripExactly(a + b, "");
    } else {
      assert a + m + b == a + (m + b);
      LStripExactly(a, m + b);
      RStripSuffix(m, b);
      RStripNothing(m);
    }
  }

  lemma BlankIsStripped(s: string)
    requires forall k | 0 <= k < |s| :: IsSpace(s[k])
    ensures Strip(s) == ""
  {
    StripExactly(s, "", "");
    assert s + "" + "" == s;
  }

  lemma {:induction false} LStripKeepsText(s: string)
    requires exists k | 0 <= k < |s| :: !IsSpace(s[k])
    ensures LStrip(s) != ""
  {
    var k :| 0 <= k < |s| && !IsSpace(s[k]);
    if IsSpace(s[0]) {
      assert s[1..][k - 1] == s[k];
      LStripKeepsText(s[1..]);
    }
  }

  lemma {:induction false} RStripKeepsText(s: string)
    requires exists k | 0 <= k < |s| :: !IsSpace(s[k])
    ensures RStrip(s) != ""
  {
    var k, n :| 0 <= k < |s| == n && !IsSpace(s[k]);
    if IsSpace(s[n - 1]) {
      assert s[..n - 1][k] == s[k];
      RStripKeepsText(s[..n - 1]);
    }
  }

  lemma StripKeepsText(s: string)
    requires exists k | 0 <= k < |s| :: !IsSpace(s[k])
    ensures Strip(s) != ""
  {
    LStripKeepsText(s);
    RStripKeepsText(LStrip(s));
  }

  lemma {:induction false} StandingIsContained(s: string, p: string, i: int)
    requires StandsAt(s, p, i)
    ensures Contains(s, p)
    decreases i
  {
    if i > 0 {
      assert s[1..][i - 1..i - 1 + |p|] == s[i..i + |p|];
      StandingIsContained(s[1..], p, i - 1);
    } else {
      assert p <= s;
    }
  }

  lemma {:induction false} ContainedStands(s: string, p: string) returns (i: int)
    requires Contains(s, p)
    ensures StandsAt(s, p, i)
  {
    if p <= s {
      i := 0;
    } else {
      i := ContainedStands(s[1..], p);
      assert s[1..][i..i + |p|] == s[i + 1..i + 1 + |p|];
      i := i + 1;
    }
  }

  /** Text contains a pattern exactly if the pattern stands somewhere in it. */
  lemma ContainsExactly(s: string, p: string)
    ensures Contains(s, p) <==> exists i :: StandsAt(s, p, i)
  {
    hide Contains, StandsAt;
    if Contains(s, p) { var i := ContainedStands(s, p); }
    if i :| StandsAt(s, p, i) { StandingIsContained(s, p, i); }
  }

  predicate StandsAt(s: string, p: string, i: int) {
    0 <= i <= |s| - |p| && s[i..i + |p|] == p
  }

  /** The first place where the pattern stands. */
  predicate StandsFirst(s: string, p: string, i: int) {
    StandsAt(s, p, i) && forall j | 0 <= j < i :: !StandsAt(s, p, j)
  }

  /** A text is cut at the first place where the pattern stands. */
  lemma {:induction false} CutExactly(s: string, p: string, i: int)
    requires StandsFirst(s, p, i)
    ensures Cut(s, p) == Some((s[..i], s[i + |p|..])) && Before(s, p) == s[..i] && RemoveFirst(s, p) == s[..i] + s[i + |p|..]
    decreases i
  {
    if i == 0 {
      assert p <= s;
    } else {
      assert !StandsAt(s, p, 0) && !(p <= s);
      assert s[1..][i - 1..i - 1 + |p|] == s[i..i + |p|];
      forall j | 0 <= j < i - 1 ensures !StandsAt(s[1..], p, j) {
        assert !StandsAt(s, p, j + 1) && s[1..][j..j + |p|] == s[j + 1..j + 1 + |p|];
      }
      CutExactly(s[1..], p, i - 1);
      assert [s[0]] + s[1..][..i - 1] == s[..i] && s[1..][i - 1 + |p|..] == s[i + |p|..];
    }
  }
}
