/** What the patterns mean on any text: where a call, a parameter and a malformed tag are found, and when
    the missing end of a call is added. */
module SyntaxMeaning {
  import opened Wrappers
  import opened Strings
  import opened CallSyntax

  // ---- Calls ----

  /** The text begins with a call: its end is the first one after the name. */
  predicate CallAt(s: string, name: string, body: string, rest: string) {
    && s == "<function=" + name + ">\n" + body + "</function>" + rest
    && name != "" && '>' !in name && !Contains(body, "</function>")
  }

  lemma CallParts(s: string, name: string, body: string, rest: string)
    ensures CallAt(s, name, body, rest) <==>
      && s == FN_OPEN + (name + (">" + ("\n" + (body + (FN_CLOSE + rest)))))
      && name != "" && '>' !in name && !Contains(body, FN_CLOSE)
  {
    hide Contains;
    assert "<function=" + name + ">\n" + body + "</function>" + rest
        == "<function=" + (name + (">" + ("\n" + (body + ("</function>" + rest)))));
  }

  /** The match after the opening: a name up to the next `>`, a line end, and a body up to the next closing. */
  lemma AfterOpening(t: string)
    ensures MatchCall(FN_OPEN + t) == match Cut(t, ">")
      case None => None
      case Some((name, r)) =>
        if name == "" || !("\n" <= r) then None
        else match Cut(r[1..], FN_CLOSE)
          case None => None
          case Some((body, _)) => Some((name, body))
  {
    hide Cut, FN_OPEN, FN_CLOSE;
    assert (FN_OPEN + t)[|FN_OPEN|..] == t;
  }

  lemma CutParts(t: string, p: string)
    requires p != "" && Cut(t, p).Some?
    ensures t == Cut(t, p).value.0 + (p + Cut(t, p).value.1) && !Contains(Cut(t, p).value.0, p)
  {
    var (b, a) := Cut(t, p).value;
    assert b + p + a == b + (p + a);
    hide Cut, Contains;
  }

  lemma CutFirst(b: string, p: string, a: string)
    requires HeadOnce(p) && !Contains(b, p)
    ensures Cut(b + (p + a), p) == Some((b, a))
  {
    hide Cut, Contains, HeadOnce;
    CutAt(b, p, a);
    assert b + p + a == b + (p + a);
  }

  lemma MatchIsCall(s: string) returns (rest: string)
    requires MatchCall(s).Some?
    ensures CallAt(s, MatchCall(s).value.0, MatchCall(s).value.1, rest)
  {
    assert FN_OPEN <= s;
    var t := s[|FN_OPEN|..];
    hide Cut, Contains, FN_OPEN, FN_CLOSE, CallAt, MatchCall;
    assert s == FN_OPEN + t;
    AfterOpening(t);
    CutParts(t, ">");
    var (name, r) := Cut(t, ">").value;
    assert r == "\n" + r[1..];
    Closing(r[1..]);
    var (body, a) := Cut(r[1..], FN_CLOSE).value;
    rest := a;
    NoCharacter(name, '>');
    CallParts(s, name, body, rest);
  }

  lemma Closing(r: string)
    requires Cut(r, FN_CLOSE).Some?
    ensures r == Cut(r, FN_CLOSE).value.0 + (FN_CLOSE + Cut(r, FN_CLOSE).value.1)
    ensures !Contains(Cut(r, FN_CLOSE).value.0, FN_CLOSE)
  {
    CutParts(r, FN_CLOSE);
    hide Cut, Contains;
  }

  lemma {:induction false} NoCharacter(s: string, c: char)
    requires !Contains(s, [c])
    ensures c !in s
  {
    if s != "" {
      assert [c] <= s <==> s[0] == c;
      NoCharacter(s[1..], c);
    }
  }

  lemma CallIsMatched(s: string, name: string, body: string, rest: string)
    requires CallAt(s, name, body, rest)
    ensures MatchCall(s) == Some((name, body))
  {
    CallParts(s, name, body, rest);
    Markers();
    hide Cut, Contains, FN_OPEN, FN_CLOSE, CallAt, MatchCall;
    var r := "\n" + (body + (FN_CLOSE + rest));
    NoHeadNoMatch(name, ">");
    CutFirst(name, ">", r);
    assert r[1..] == body + (FN_CLOSE + rest);
    CutFirst(body, FN_CLOSE, rest);
    AfterOpening(name + (">" + r));
  }

  predicate IsCallAt(s: string, i: nat, name: string, body: string) {
    i <= |s| && MatchCall(s[i..]) == Some((name, body))
  }

  /** A call is matched exactly where the text has one. */
  lemma MatchExactly(s: string, name: string, body: string)
    ensures MatchCall(s) == Some((name, body)) <==> exists rest :: CallAt(s, name, body, rest)
  {
    hide MatchCall, CallAt;
    if MatchCall(s) == Some((name, body)) { var rest := MatchIsCall(s); }
    if rest :| CallAt(s, name, body, rest) { CallIsMatched(s, name, body, rest); }
  }

  /** The call that is found is the leftmost one; none is found exactly if there is none anywhere. */
  lemma {:induction false} LeftmostCall(s: string)
    ensures SearchCall(s).None? ==> forall i: nat | i <= |s| :: MatchCall(s[i..]).None?
    ensures SearchCall(s).Some? ==>
      exists i: nat ::
        && IsCallAt(s, i, SearchCall(s).value.0, SearchCall(s).value.1)
        && forall j: nat | j < i :: MatchCall(s[j..]).None?
  {
    hide MatchCall;
    assert s[0..] == s;
    if MatchCall(s).Some? {
      assert IsCallAt(s, 0, MatchCall(s).value.0, MatchCall(s).value.1);
    } else if s != "" {
      LeftmostCall(s[1..]);
      assert forall i: nat | 0 < i <= |s| :: s[i..] == s[1..][i - 1..];
      if SearchCall(s).Some? {
        var i: nat :| IsCallAt(s[1..], i, SearchCall(s).value.0, SearchCall(s).value.1)
          && forall j: nat | j < i :: MatchCall(s[1..][j..]).None?;
        assert s[i + 1..] == s[1..][i..];
        assert IsCallAt(s, i + 1, SearchCall(s).value.0, SearchCall(s).value.1);
      }
    }
  }

  // ---- The missing end of a call ----

  /** The text opens a call exactly once. */
  predicate OpensOnceAt(s: string, a: string, b: string) {
    s == a + "<function=" + b && !Contains(a, "<function=") && !Contains(b, "<function=")
  }

  lemma OpensOnce(s: string)
    ensures Contains(s, FN_OPEN) && Count(s, FN_OPEN) == 1 <==> exists a, b :: OpensOnceAt(s, a, b)
  {
    Markers();
    if Contains(s, FN_OPEN) && Count(s, FN_OPEN) == 1 {
      var (a, b) := Cut(s, FN_OPEN).value;
      assert OpensOnceAt(s, a, b);
    }
    if a, b :| OpensOnceAt(s, a, b) { CountOne(a, FN_OPEN, b); }
  }

  lemma SlashNotStripped(s: string)
    requires EndsWith(s, "</")
    ensures RStrip(s) == s
  {
    assert s[|s| - 1] == s[|s| - 2..][1];
  }

  /** A text that opens exactly one call gets the end of it, or what is missing of it; no other is touched. */
  lemma FixExactly(s: string)
    ensures (exists a, b :: OpensOnceAt(s, a, b)) ==>
      FixStopword(s) == if EndsWith(s, "</") then s + "function>" else s + "\n</function>"
    ensures !(exists a, b :: OpensOnceAt(s, a, b)) ==> FixStopword(s) == s
  {
    OpensOnce(s);
    hide Contains, Count, OpensOnceAt, RStrip;
    if EndsWith(s, "</") { SlashNotStripped(s); }
    assert s + "\n" + FN_CLOSE == s + "\n</function>";
  }

  // ---- Parameters ----

  predicate ParamAt(s: string, k: string, v: string, rest: string) {
    && s == "<parameter=" + k + ">" + v + "</parameter>" + rest
    && k != "" && '>' !in k && !Contains(v, "</parameter>")
  }

  lemma MatchIsParam(s: string)
    requires MatchParam(s).Some?
    ensures ParamAt(s, MatchParam(s).value.0, MatchParam(s).value.1, MatchParam(s).value.2)
  {
    var (k, r) := Cut(s[|PARAM_OPEN|..], ">").value;
    NoCharacter(k, '>');
    hide Contains;
  }

  lemma ParamIsMatched(s: string, k: string, v: string, rest: string)
    requires ParamAt(s, k, v, rest)
    ensures MatchParam(s) == Some((k, v, rest))
  {
    var r := v + PARAM_CLOSE + rest;
    assert s == PARAM_OPEN + (k + ">" + r) && s[|PARAM_OPEN|..] == k + ">" + r;
    NoHeadNoMatch(k, ">");
    CutAt(k, ">", r);
    Markers();
    CutAt(v, PARAM_CLOSE, rest);
    hide Cut;
  }

  /** The parameters found are the matches from left to right, each search going on after the last match. */
  lemma {:induction false} ParamsLeftToRight(s: string, i: nat, k: string, v: string, rest: string)
    requires i <= |s| && ParamAt(s[i..], k, v, rest) && forall j: nat | j < i :: MatchParam(s[j..]).None?
    ensures FindParams(s) == [(k, v)] + FindParams(rest)
    decreases i
  {
    assert s[0..] == s;
    if i == 0 {
      ParamIsMatched(s, k, v, rest);
    } else {
      assert s[1..][i - 1..] == s[i..];
      assert forall j: nat | j < i - 1 :: s[1..][j..] == s[j + 1..];
      hide MatchParam, ParamAt;
      ParamsLeftToRight(s[1..], i - 1, k, v, rest);
    }
  }

  lemma {:induction false} NoParams(s: string)
    requires forall j: nat | j <= |s| :: MatchParam(s[j..]).None?
    ensures FindParams(s) == []
  {
    hide MatchParam;
    assert s[0..] == s;
    if s != "" {
      assert forall j: nat | j <= |s| - 1 :: s[1..][j..] == s[j + 1..];
      NoParams(s[1..]);
    }
  }

  // ---- Malformed tags ----

  predicate WordCharacter(c: char) {
    'a' <= c <= 'z' || 'A' <= c <= 'Z' || '0' <= c <= '9' || c == '_'
  }

  /** The text begins with a tag that has an equals sign after the name, up to its end. */
  predicate MalformedAt(s: string, n: string, v: string, rest: string) {
    && s == "<parameter=" + n + "=" + v + "</parameter>" + rest
    && n != "" && (forall i | 0 <= i < |n| :: WordCharacter(n[i])) && '<' !in v
  }

  lemma MalformedParts(s: string, n: string, v: string, rest: string)
    ensures MalformedAt(s, n, v, rest) <==>
      && s == PARAM_OPEN + (n + ("=" + (v + (PARAM_CLOSE + rest))))
      && n != "" && (forall i | 0 <= i < |n| :: IsWord(n[i])) && '<' !in v
  {
    hide Contains;
    assert "<parameter=" + n + "=" + v + "</parameter>" + rest == "<parameter=" + (n + ("=" + (v + ("</parameter>" + rest))));
  }

  lemma NameMatched(n: string, u: string)
    requires n != "" && forall i | 0 <= i < |n| :: IsWord(n[i])
    ensures NameAndEquals(n + ("=" + u)) == Some(n) && (n + ("=" + u))[|n| + 1..] == u
  {
    WordRunExact(n, "=" + u);
    hide WordRun;
  }

  lemma ValueMatched(v: string, rest: string)
    requires '<' !in v
    ensures PlainThenClose(v + (PARAM_CLOSE + rest)) == Some((v, rest))
  {
    PlainThenCloseLocal(v, PARAM_CLOSE + rest);
    hide PARAM_CLOSE, PlainThenClose;
    assert (PARAM_CLOSE + rest)[|PARAM_CLOSE|..] == rest;
  }

  lemma OpeningThen(t: string)
    ensures MatchMalformed(PARAM_OPEN + t) == match NameAndEquals(t)
      case None => None
      case Some(n) =>
        match PlainThenClose(t[|n| + 1..])
        case None => None
        case Some((v, rest)) => Some((n, v, rest))
  {
    hide NameAndEquals, PlainThenClose, PARAM_OPEN;
    assert (PARAM_OPEN + t)[|PARAM_OPEN|..] == t;
  }

  lemma MalformedIsMatched(s: string, n: string, v: string, rest: string)
    requires MalformedAt(s, n, v, rest)
    ensures MatchMalformed(s) == Some((n, v, rest))
  {
    MalformedParts(s, n, v, rest);
    hide PARAM_OPEN, PARAM_CLOSE, MatchMalformed, NameAndEquals, PlainThenClose, MalformedAt, IsWord;
    NameMatched(n, v + (PARAM_CLOSE + rest));
    ValueMatched(v, rest);
    OpeningThen(n + ("=" + (v + (PARAM_CLOSE + rest))));
  }

  lemma NameIs(t: string, n: string)
    requires NameAndEquals(t) == Some(n)
    ensures n != "" && (forall i | 0 <= i < |n| :: IsWord(n[i])) && |n| < |t| && t == n + ("=" + t[|n| + 1..])
  {
    hide WordRun;
  }

  lemma ValueIs(u: string, v: string, rest: string)
    requires PlainThenClose(u) == Some((v, rest))
    ensures '<' !in v && u == v + (PARAM_CLOSE + rest)
  {
    var w := u[|v|..];
    assert v == PlainRun(u) && PARAM_CLOSE <= w && rest == w[|PARAM_CLOSE|..];
    hide PlainRun, PARAM_CLOSE;
    assert w == PARAM_CLOSE + rest && u == v + w;
  }

  lemma MatchIsMalformed(s: string)
    requires MatchMalformed(s).Some?
    ensures MalformedAt(s, MatchMalformed(s).value.0, MatchMalformed(s).value.1, MatchMalformed(s).value.2)
  {
    var (n, v, rest) := MatchMalformed(s).value;
    var t := s[|PARAM_OPEN|..];
    assert s == PARAM_OPEN + t by { hide NameAndEquals, PlainThenClose; }
    OpeningThen(t);
    MalformedParts(s, n, v, rest);
    hide PARAM_OPEN, PARAM_CLOSE, MatchMalformed, NameAndEquals, PlainThenClose, MalformedAt, IsWord;
    NameIs(t, n);
    ValueIs(t[|n| + 1..], v, rest);
  }

  /** The tag with its sign put right. */
  function PutRight(n: string, v: string): string {
    "<parameter=" + n + ">" + v + "</parameter>"
  }

  lemma NormalizeHead(s: string, n: string, v: string, rest: string)
    requires MalformedAt(s, n, v, rest)
    ensures Normalize(s) == PutRight(n, v) + Normalize(rest)
  {
    MalformedIsMatched(s, n, v, rest);
    hide MatchMalformed, MalformedAt;
  }

  lemma NormalizeOne(s: string)
    requires s != "" && MatchMalformed(s).None?
    ensures Normalize(s) == [s[0]] + Normalize(s[1..])
  {
    hide MatchMalformed;
  }

  /** The first malformed tag gets its sign put right, and the rest is gone through after it. */
  lemma {:induction false} FirstTagPutRight(s: string, i: nat, n: string, v: string, rest: string)
    requires i <= |s| && MalformedAt(s[i..], n, v, rest) && forall j: nat | j < i :: MatchMalformed(s[j..]).None?
    ensures Normalize(s) == s[..i] + PutRight(n, v) + Normalize(rest)
    decreases i
  {
    hide MatchMalformed, MalformedAt, Normalize, PutRight;
    assert s[0..] == s;
    if i == 0 {
      NormalizeHead(s, n, v, rest);
      assert s[..0] + PutRight(n, v) == PutRight(n, v);
    } else {
      assert s[1..][i - 1..] == s[i..];
      assert forall j: nat | j < i - 1 :: s[1..][j..] == s[j + 1..];
      NormalizeOne(s);
      FirstTagPutRight(s[1..], i - 1, n, v, rest);
      assert [s[0]] + s[1..][..i - 1] == s[..i];
      assert [s[0]] + (s[1..][..i - 1] + PutRight(n, v) + Normalize(rest)) == s[..i] + PutRight(n, v) + Normalize(rest);
    }
  }

  lemma {:induction false} NoTagNothingChanged(s: string)
    requires forall j: nat | j <= |s| :: MatchMalformed(s[j..]).None?
    ensures Normalize(s) == s
  {
    hide MatchMalformed;
    assert s[0..] == s;
    if s != "" {
      assert forall j: nat | j <= |s| - 1 :: s[1..][j..] == s[j + 1..];
      NoTagNothingChanged(s[1..]);
    }
  }
}
