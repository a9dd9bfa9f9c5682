/** Exactly which calls survive being printed and parsed, whole or cut at the stop word. */
module CallRoundTrip {
  import opened Wrappers
  import opened Strings
  import opened CallSyntax

  predicate GoodFunctionName(name: string) {
    name != "" && '<' !in name && '>' !in name
  }

  predicate GoodParamName(k: string) {
    k != "" && '<' !in k && '=' !in k && '>' !in k
  }

  predicate GoodNames(ps: RawParams) {
    forall i | 0 <= i < |ps| :: GoodParamName(ps[i].0)
  }

  /** `v` itself, standing before a closing tag, is a malformed parameter tag. */
  predicate IsMalformed(v: string) {
    v != "" && v[0] == '<' && '<' !in v[1..] && MalformedOpening(v)
  }

  predicate EndsMalformed(v: string) {
    v != "" && (IsMalformed(v) || EndsMalformed(v[1..]))
  }

  /** What normalisation makes of a value that stands before its closing tag. */
  function Rewrite(v: string): string {
    if v == "" then ""
    else if IsMalformed(v) then
      var n := NameAndEquals(v[|PARAM_OPEN|..]).value;
      PARAM_OPEN + n + ">" + v[|PARAM_OPEN| + |n| + 1..]
    else [v[0]] + Rewrite(v[1..])
  }

  function RewriteAll(ps: RawParams): (r: RawParams)
    ensures |r| == |ps|
    ensures forall i | 0 <= i < |ps| :: r[i] == (ps[i].0, Rewrite(ps[i].1))
  {
    if ps == [] then [] else [(ps[0].0, Rewrite(ps[0].1))] + RewriteAll(ps[1..])
  }

  /** The guard for a value: it holds neither closing tag and does not end in a malformed tag. */
  predicate Survives(v: string) {
    !Contains(v, PARAM_CLOSE) && !Contains(v, FN_CLOSE) && !EndsMalformed(v)
  }

  predicate NoClosing(ps: RawParams) {
    forall i | 0 <= i < |ps| :: !Contains(ps[i].1, PARAM_CLOSE) && !Contains(ps[i].1, FN_CLOSE)
  }

  // ---- Values ----

  lemma {:induction false} RewriteFixed(v: string)
    ensures Rewrite(v) == v <==> !EndsMalformed(v)
  {
    if v != "" {
      RewriteFixed(v[1..]);
      if IsMalformed(v) {
        RewriteDiffers(v);
      } else {
        hide PARAM_OPEN, IsMalformed;
        assert v == [v[0]] + v[1..];
        assert Rewrite(v)[1..] == Rewrite(v[1..]);
      }
    }
  }

  lemma RewriteDiffers(v: string)
    requires IsMalformed(v)
    ensures Rewrite(v) != v
  {
    hide PARAM_OPEN;
    var n := NameAndEquals(v[|PARAM_OPEN|..]).value;
    assert Rewrite(v)[|PARAM_OPEN| + |n|] == '>';
    assert v[|PARAM_OPEN| + |n|] == v[|PARAM_OPEN|..][|n|] == '=';
  }

  lemma {:induction false} RewriteNoClose(v: string)
    requires !Contains(v, PARAM_CLOSE)
    ensures !Contains(Rewrite(v), PARAM_CLOSE)
  {
    hide FN_OPEN, FN_CLOSE, PARAM_OPEN, PARAM_CLOSE;
    Markers();
    if v == "" {
    } else if IsMalformed(v) {
      MalformedNoClose(v);
    } else {
      hide IsMalformed;
      RewriteNoClose(v[1..]);
      RewriteHead(v, PARAM_CLOSE);
      assert Rewrite(v)[1..] == Rewrite(v[1..]);
    }
  }

  lemma MalformedNoClose(v: string)
    requires IsMalformed(v)
    ensures !Contains(Rewrite(v), PARAM_CLOSE)
  {
    hide FN_OPEN, FN_CLOSE, PARAM_OPEN, PARAM_CLOSE;
    Markers();
    var n := NameAndEquals(v[|PARAM_OPEN|..]).value;
    WordsArePlain(n);
    var z := v[|PARAM_OPEN| + |n| + 1..];
    var a := PARAM_OPEN[1..] + n + ">" + z;
    assert z == v[1..][|PARAM_OPEN| + |n|..] && '<' !in z;
    assert Rewrite(v)[1..] == a && Rewrite(v)[1] == 'p';
    NoHeadNoMatch(a, PARAM_CLOSE);
  }

  /** Rewriting does not put a closing tag at the start of a value. */
  lemma {:induction false} RewriteHead(v: string, q: string)
    requires |q| > 1 && q[0] == '<' && q[1] == '/' && '<' !in q[1..]
    ensures q <= Rewrite(v) ==> q <= v
  {
    hide PARAM_OPEN, PARAM_CLOSE, FN_OPEN, FN_CLOSE;
    Markers();
    if v != "" && !IsMalformed(v) {
      if q <= Rewrite(v) {
        assert Rewrite(v)[1..] == Rewrite(v[1..]);
        assert q[1..] <= Rewrite(v[1..]);
        RewritePlainPrefix(v[1..], q[1..]);
        assert v == [v[0]] + v[1..];
      }
    } else if IsMalformed(v) {
      assert Rewrite(v)[1] == 'p';
    }
  }

  lemma {:induction false} RewritePlainPrefix(v: string, p: string)
    requires '<' !in p && p <= Rewrite(v)
    ensures p <= v
  {
    hide PARAM_OPEN, PARAM_CLOSE, FN_OPEN, FN_CLOSE;
    Markers();
    if p != "" && v != "" {
      assert Rewrite(v)[0] == v[0];
      if !IsMalformed(v) {
        assert Rewrite(v)[1..] == Rewrite(v[1..]);
        assert p[0] == v[0] && p[1..] <= Rewrite(v[1..]);
        RewritePlainPrefix(v[1..], p[1..]);
        assert p == [p[0]] + p[1..] && v == [v[0]] + v[1..];
      }
    }
  }

  /** Normalising a value together with its closing tag. */
  lemma {:induction false} NormalizeValue(v: string, t: string)
    requires !Contains(v, PARAM_CLOSE)
    ensures Normalize(v + PARAM_CLOSE + t) == Rewrite(v) + PARAM_CLOSE + Normalize(t)
    decreases |v|
  {
    hide FN_OPEN, FN_CLOSE, PARAM_OPEN, PARAM_CLOSE, MatchMalformed, MalformedOpening, IsMalformed;
    Markers();
    var c := PARAM_CLOSE + t;
    assert v + PARAM_CLOSE + t == v + c;
    if v == "" {
      assert v + c == c;
      NormalizeClose(t);
      assert Rewrite(v) + PARAM_CLOSE + Normalize(t) == PARAM_CLOSE + Normalize(t);
    } else {
      ValueTag(v, t);
      if IsMalformed(v) {
        MalformedValue(v, t);
      } else {
        NormalizeValue(v[1..], t);
        assert (v + c)[1..] == v[1..] + PARAM_CLOSE + t;
        assert [v[0]] + (Rewrite(v[1..]) + PARAM_CLOSE + Normalize(t)) == Rewrite(v) + PARAM_CLOSE + Normalize(t);
      }
    }
  }

  lemma MalformedValue(v: string, t: string)
    requires IsMalformed(v)
    ensures Normalize(v + (PARAM_CLOSE + t)) == Rewrite(v) + PARAM_CLOSE + Normalize(t)
  {
    hide FN_OPEN, FN_CLOSE, PARAM_OPEN, PARAM_CLOSE, MatchMalformed;
    Markers();
    var c := PARAM_CLOSE + t;
    MalformedShape(v, c);
    assert c[|PARAM_CLOSE|..] == t;
  }

  lemma ValueTag(v: string, t: string)
    requires v != "" && !Contains(v, PARAM_CLOSE)
    ensures MatchMalformed(v + (PARAM_CLOSE + t)).Some? <==> IsMalformed(v)
  {
    hide FN_OPEN, FN_CLOSE, PARAM_OPEN, PARAM_CLOSE, MatchMalformed, MalformedOpening;
    Markers();
    var c := PARAM_CLOSE + t;
    if v[0] != '<' {
      NoTag(v + c);
    } else {
      var a := PlainRun(v[1..]);
      var l, w := [v[0]] + a, v[1 + |a|..];
      assert v == l + w && l[1..] == a;
      assert v + c == l + (w + c);
      MalformedShape(l, w + c);
      if w == "" {
        assert w + c == c && v[1..] == a && l == v;
      } else {
        SuffixClean(v, 1 + |a|, PARAM_CLOSE);
        PrefixStaysLeft(w, c, PARAM_CLOSE);
        assert w[0] == '<' && w[0] == v[1..][|a|];
      }
    }
  }

  // ---- Bodies ----

  lemma PrintFirst(ps: RawParams, tail: string)
    requires ps != []
    ensures PrintParams(ps) + tail
         == PARAM_OPEN + ps[0].0 + ">" + (ps[0].1 + PARAM_CLOSE + ("\n" + (PrintParams(ps[1..]) + tail)))
  {
    hide PARAM_OPEN, PARAM_CLOSE;
    var x := PrintParams(ps[1..]);
    assert PrintParams(ps) == PrintParam(ps[0].0, ps[0].1) + x;
  }

  lemma {:induction false} NormalizeBody(ps: RawParams, tail: string)
    requires GoodNames(ps) && NoClosing(ps) && '<' !in tail
    ensures Normalize(PrintParams(ps) + tail) == PrintParams(RewriteAll(ps)) + tail
  {
    hide FN_OPEN, FN_CLOSE, PARAM_OPEN, PARAM_CLOSE, Normalize, Rewrite;
    if ps == [] {
      assert PrintParams(ps) + tail == tail + "";
      NormalizePlain(tail, "");
      NormalizeEmpty();
      assert tail + "" == tail && PrintParams(RewriteAll(ps)) + tail == tail;
    } else {
      var (k, v) := ps[0];
      assert GoodParamName(k);
      var rest := PrintParams(ps[1..]) + tail;
      var t := "\n" + rest;
      PrintFirst(ps, tail);
      NormalizeOpening(k, v + PARAM_CLOSE + t);
      NormalizeValue(v, t);
      NormalizePlain("\n", rest);
      NormalizeBody(ps[1..], tail);
      PrintFirst(RewriteAll(ps), tail);
      assert RewriteAll(ps)[1..] == RewriteAll(ps[1..]);
    }
  }

  lemma NormalizeEmpty()
    ensures Normalize("") == ""
  {
  }

  lemma {:induction false} FindPlain(a: string, t: string)
    requires '<' !in a
    ensures FindParams(a + t) == FindParams(t)
  {
    hide FN_OPEN, FN_CLOSE, PARAM_OPEN, PARAM_CLOSE;
    Markers();
    if a == "" {
      assert a + t == t;
    } else {
      assert (a + t)[1..] == a[1..] + t && (a + t)[0] == a[0];
      FindPlain(a[1..], t);
    }
  }

  lemma MatchPrintedParam(k: string, v: string, t: string)
    requires GoodParamName(k) && !Contains(v, PARAM_CLOSE)
    ensures MatchParam(PARAM_OPEN + k + ">" + v + PARAM_CLOSE + t) == Some((k, v, t))
  {
    hide FN_OPEN, FN_CLOSE, PARAM_OPEN, PARAM_CLOSE;
    Markers();
    var r := v + PARAM_CLOSE + t;
    var s := PARAM_OPEN + k + ">" + v + PARAM_CLOSE + t;
    assert s[|PARAM_OPEN|..] == k + ">" + r;
    NoHeadNoMatch(k, ">");
    CutAt(k, ">", r);
    CutAt(v, PARAM_CLOSE, t);
  }

  lemma {:induction false} FindBody(ps: RawParams, tail: string)
    requires GoodNames(ps) && '<' !in tail
    requires forall i | 0 <= i < |ps| :: !Contains(ps[i].1, PARAM_CLOSE)
    ensures FindParams(PrintParams(ps) + tail) == ps
  {
    hide FN_OPEN, FN_CLOSE, PARAM_OPEN, PARAM_CLOSE, MatchParam;
    if ps == [] {
      assert PrintParams(ps) + tail == tail + "";
      FindPlain(tail, "");
      FindEmpty();
    } else {
      var (k, v) := ps[0];
      assert GoodParamName(k);
      var rest := PrintParams(ps[1..]) + tail;
      var s := PrintParams(ps) + tail;
      assert s == PARAM_OPEN + k + ">" + v + PARAM_CLOSE + ("\n" + rest);
      MatchPrintedParam(k, v, "\n" + rest);
      FindPlain("\n", rest);
      FindBody(ps[1..], tail);
    }
  }

  lemma FindEmpty()
    ensures FindParams("") == []
  {
  }

  /** A marker other than the parameter tags occurs in a printed body only inside a value. */
  lemma {:induction false} BodyContains(ps: RawParams, tail: string, q: string)
    requires GoodNames(ps) && '<' !in tail && HeadOnce(q) && |q| > 2 && q[0] == '<' && q[1] != 'p' && q[2] != 'p'
    ensures Contains(PrintParams(ps) + tail, q) <==> exists i | 0 <= i < |ps| :: Contains(ps[i].1, q)
  {
    hide FN_OPEN, FN_CLOSE, PARAM_OPEN, PARAM_CLOSE, Contains, PrintParam, GoodParamName;
    if ps == [] {
      assert PrintParams(ps) + tail == tail;
      NoHeadNoMatch(tail, q);
    } else {
      var (k, v) := ps[0];
      assert GoodParamName(k);
      var x := PrintParams(ps[1..]) + tail;
      BodyContains(ps[1..], tail, q);
      assert PrintParams(ps) + tail == PrintParam(k, v) + x;
      hide PrintParams;
      ParamContains(k, v, x, q);
      if Contains(x, q) {
        var i :| 0 <= i < |ps| - 1 && Contains(ps[1..][i].1, q);
        assert Contains(ps[i + 1].1, q);
      }
      if i :| 0 < i < |ps| && Contains(ps[i].1, q) {
        assert Contains(ps[1..][i - 1].1, q);
      }
    }
  }

  lemma ParamContains(k: string, v: string, x: string, q: string)
    requires GoodParamName(k) && HeadOnce(q) && |q| > 2 && q[0] == '<' && q[1] != 'p' && q[2] != 'p'
    ensures Contains(PrintParam(k, v) + x, q) <==> Contains(v, q) || Contains(x, q)
  {
    hide FN_OPEN, FN_CLOSE, PARAM_OPEN, PARAM_CLOSE;
    Markers();
    var c := PARAM_CLOSE + "\n" + x;
    var d := PARAM_CLOSE[1..] + "\n";
    assert c[1..] == d + x && c[2] == 'p';
    SkipNoHead(d, x, q);
    ContainsSplit(v, c, q);
    var s := PrintParam(k, v) + x;
    var a := PARAM_OPEN[1..] + k + ">";
    assert s[1..] == a + (v + c) && s[1] == 'p';
    SkipNoHead(a, v + c, q);
  }

  // ---- Searching for the call ----

  lemma {:induction false} SearchSkip(pre: string, t: string)
    requires !Contains(pre, FN_OPEN) && (t == "" || t[0] == '<')
    ensures SearchCall(pre + t) == SearchCall(t)
  {
    hide FN_OPEN, FN_CLOSE, PARAM_OPEN, PARAM_CLOSE;
    Markers();
    if pre == "" {
      assert pre + t == t;
    } else {
      PrefixStaysLeft(pre, t, FN_OPEN);
      assert (pre + t)[1..] == pre[1..] + t;
      SearchSkip(pre[1..], t);
    }
  }

  lemma MatchPrintedCall(name: string, body: string, rest: string)
    requires GoodFunctionName(name) && !Contains(body, FN_CLOSE)
    ensures SearchCall(FN_OPEN + name + ">\n" + body + FN_CLOSE + rest) == Some((name, body))
  {
    hide FN_OPEN, FN_CLOSE;
    Markers();
    var r := body + FN_CLOSE + rest;
    var s := FN_OPEN + name + ">\n" + body + FN_CLOSE + rest;
    assert s[|FN_OPEN|..] == name + ">" + ("\n" + r);
    NoHeadNoMatch(name, ">");
    CutAt(name, ">", "\n" + r);
    assert ("\n" + r)[1..] == r;
    CutAt(body, FN_CLOSE, rest);
  }

  lemma {:induction false} SearchNone(t: string)
    requires !Contains(t, FN_CLOSE)
    ensures SearchCall(t).None?
  {
    hide FN_OPEN, FN_CLOSE, Contains, MatchCall;
    MatchNone(t);
    if t != "" {
      SuffixClean(t, 1, FN_CLOSE);
      SearchNone(t[1..]);
    }
  }

  lemma MatchNone(t: string)
    requires !Contains(t, FN_CLOSE)
    ensures MatchCall(t).None?
  {
    hide FN_OPEN, FN_CLOSE, Contains, Cut;
    if FN_OPEN <= t && Cut(t[|FN_OPEN|..], ">").Some? {
      var (name, r) := Cut(t[|FN_OPEN|..], ">").value;
      if "\n" <= r {
        assert r[1..] == t[|t| - |r| + 1..];
        SuffixClean(t, |t| - |r| + 1, FN_CLOSE);
      }
    }
  }

  lemma {:induction false} SearchBodyClean(s: string)
    ensures SearchCall(s).Some? ==> !Contains(SearchCall(s).value.1, FN_CLOSE)
  {
    hide FN_OPEN, FN_CLOSE;
    Markers();
    if MatchCall(s).None? && s != "" {
      SearchBodyClean(s[1..]);
    }
  }

  lemma {:induction false} FoundValuesClean(s: string)
    requires !Contains(s, FN_CLOSE)
    ensures NoClosing(FindParams(s))
    decreases |s|
  {
    hide FN_OPEN, FN_CLOSE, PARAM_OPEN, PARAM_CLOSE, Contains;
    match MatchParam(s)
    case Some((k, v, rest)) =>
      MatchedValueClean(s);
      FoundValuesClean(rest);
    case None =>
      if s != "" {
        SuffixClean(s, 1, FN_CLOSE);
        FoundValuesClean(s[1..]);
      }
  }

  lemma MatchedValueClean(s: string)
    requires MatchParam(s).Some? && !Contains(s, FN_CLOSE)
    ensures var (_, v, rest) := MatchParam(s).value;
      !Contains(v, PARAM_CLOSE) && !Contains(v, FN_CLOSE) && !Contains(rest, FN_CLOSE)
  {
    hide FN_OPEN, FN_CLOSE, PARAM_OPEN, PARAM_CLOSE, Contains;
    Markers();
    var (k, v, rest) := MatchParam(s).value;
    hide MatchParam;
    PartsClean(PARAM_OPEN + k + ">", v, PARAM_CLOSE, rest, FN_CLOSE);
  }

  lemma PartsClean(a: string, b: string, c: string, d: string, q: string)
    requires !Contains(a + b + c + d, q)
    ensures !Contains(b, q) && !Contains(d, q)
  {
    hide Contains;
    assert a + b + c + d == a + (b + (c + d)) == (a + b + c) + d;
    if Contains(b, q) {
      ContainsInLeft(b, c + d, q);
      ContainsInRight(a, b + (c + d), q);
    }
    if Contains(d, q) { ContainsInRight(a + b + c, d, q); }
  }

  /** Whatever the text, no parsed value holds a closing tag. */
  lemma ParsedValuesClean(content: string)
    ensures ParseCall(content).Some? ==> NoClosing(ParseCall(content).value.1)
  {
    hide FN_OPEN, FN_CLOSE, PARAM_OPEN, PARAM_CLOSE, Contains;
    var s := FixStopword(content);
    SearchBodyClean(s);
    if SearchCall(s).Some? {
      var body := SearchCall(s).value.1;
      NormalizeNoClose(body);
      FoundValuesClean(Normalize(body));
    }
  }

  // ---- The exact conditions ----

  predicate AllSurvive(ps: RawParams) {
    forall i | 0 <= i < |ps| :: Survives(ps[i].1)
  }

  predicate NoOpening(ps: RawParams) {
    forall i | 0 <= i < |ps| :: !Contains(ps[i].1, FN_OPEN)
  }

  lemma {:induction false} RewriteAllFixed(ps: RawParams)
    requires NoClosing(ps)
    ensures RewriteAll(ps) == ps <==> AllSurvive(ps)
  {
    hide Contains, FN_CLOSE, PARAM_CLOSE, EndsMalformed, Rewrite;
    forall i | 0 <= i < |ps| ensures Rewrite(ps[i].1) == ps[i].1 <==> Survives(ps[i].1) {
      RewriteFixed(ps[i].1);
    }
    if AllSurvive(ps) {
      forall i | 0 <= i < |ps| ensures RewriteAll(ps)[i] == ps[i] {
        assert Survives(ps[i].1);
      }
    }
  }

  /** A body without closing tags in its values comes back with every value rewritten. */
  lemma ParseBody(ps: RawParams, tail: string)
    requires GoodNames(ps) && NoClosing(ps) && '<' !in tail
    ensures !Contains(PrintParams(ps) + tail, FN_CLOSE)
    ensures FindParams(Normalize(PrintParams(ps) + tail)) == RewriteAll(ps)
  {
    hide PARAM_OPEN, PARAM_CLOSE, FN_OPEN, FN_CLOSE, Contains, Normalize, FindParams, PrintParams, Rewrite;
    Markers();
    BodyContains(ps, tail, FN_CLOSE);
    NormalizeBody(ps, tail);
    forall i | 0 <= i < |ps| ensures !Contains(RewriteAll(ps)[i].1, PARAM_CLOSE) {
      RewriteNoClose(ps[i].1);
    }
    forall i | 0 <= i < |ps| ensures GoodParamName(RewriteAll(ps)[i].0) {
      assert GoodParamName(ps[i].0);
    }
    FindBody(RewriteAll(ps), tail);
  }

  /** The printed call behind its prose. */
  function FullText(pre: string, name: string, ps: RawParams): string {
    pre + PrintCall(name, ps)
  }

  /** The same text as a model returns it that stops before writing the stop word. */
  function CutBeforeStop(pre: string, name: string, ps: RawParams): string {
    pre + FN_OPEN + name + ">\n" + PrintParams(ps)
  }

  /** Reading back prose, an opening, a body and a closing tag, whatever follows. */
  lemma ParseShape(content: string, pre: string, name: string, ps: RawParams, tail: string, rest: string)
    requires !Contains(pre, FN_OPEN) && GoodFunctionName(name) && GoodNames(ps) && NoClosing(ps) && '<' !in tail
    requires FixStopword(content) == pre + (FN_OPEN + name + ">\n" + (PrintParams(ps) + tail) + FN_CLOSE + rest)
    ensures ParseCall(content) == Some((name, RewriteAll(ps)))
  {
    hide FN_OPEN, FN_CLOSE, PARAM_OPEN, PARAM_CLOSE, Contains, FixStopword, SearchCall, FindParams, Normalize,
         PrintParams;
    Markers();
    var body := PrintParams(ps) + tail;
    var t := FN_OPEN + name + ">\n" + body + FN_CLOSE + rest;
    assert t[0] == FN_OPEN[0];
    SearchSkip(pre, t);
    ParseBody(ps, tail);
    MatchPrintedCall(name, body, rest);
  }

  /** A printed call is read back as it was exactly when every value survives. */
  lemma FullTextExact(pre: string, name: string, ps: RawParams)
    requires !Contains(pre, FN_OPEN) && GoodFunctionName(name) && GoodNames(ps)
    ensures ParseCall(FullText(pre, name, ps)) == Some((name, ps)) <==> AllSurvive(ps)
  {
    hide FN_OPEN, FN_CLOSE, PARAM_OPEN, PARAM_CLOSE, Contains, ParseCall, PrintParams, EndsMalformed, RewriteAll;
    var content := FullText(pre, name, ps);
    ParsedValuesClean(content);
    if NoClosing(ps) {
      var rest := FullTextFixed(pre, name, ps);
      ParseShape(content, pre, name, ps, "", rest);
      RewriteAllFixed(ps);
    }
  }

  const LOST_VALUE := "<parameter=b=c"

  lemma LostValueShape()
    ensures IsMalformed(LOST_VALUE)
    ensures '<' !in LOST_VALUE[1..] && !(FN_OPEN <= LOST_VALUE) && !(FN_CLOSE <= LOST_VALUE)
      && !(PARAM_CLOSE <= LOST_VALUE)
  {
    assert LOST_VALUE[|PARAM_OPEN|..] == "b=c" && "b=c"[1..] == "=c" && PARAM_OPEN <= LOST_VALUE;
    assert WordRun("b=c") == "b";
    assert LOST_VALUE[1] == 'p' && FN_OPEN[1] == 'f' && FN_CLOSE[1] == '/' && PARAM_CLOSE[1] == '/';
  }

  /** A value that is itself a malformed parameter tag is changed on the way, although it holds none
      of the markers that end or begin a call. */
  lemma MalformedValueIsLost()
    ensures !Contains(LOST_VALUE, FN_OPEN) && !Contains(LOST_VALUE, FN_CLOSE) && !Contains(LOST_VALUE, PARAM_CLOSE)
    ensures ParseCall(FullText("", "f", [("a", LOST_VALUE)])) != Some(("f", [("a", LOST_VALUE)]))
  {
    LostValueShape();
    Markers();
    assert !Contains("", FN_OPEN);
    assert GoodFunctionName("f") && GoodParamName("a");
    assert EndsMalformed(LOST_VALUE);
    hide FN_OPEN, FN_CLOSE, PARAM_OPEN, PARAM_CLOSE, LOST_VALUE, ParseCall, FullText, IsMalformed, EndsMalformed,
         Contains;
    OneHead(LOST_VALUE, FN_OPEN);
    OneHead(LOST_VALUE, FN_CLOSE);
    OneHead(LOST_VALUE, PARAM_CLOSE);
    assert [("a", LOST_VALUE)][0] == ("a", LOST_VALUE);
    FullTextExact("", "f", [("a", LOST_VALUE)]);
  }

  /** A text whose only `<` comes first holds a marker only at its start. */
  lemma OneHead(v: string, q: string)
    requires v != "" && '<' !in v[1..] && HeadOnce(q) && q[0] == '<'
    ensures Contains(v, q) <==> q <= v
  {
    NoHeadNoMatch(v[1..], q);
  }

  lemma FullTextFixed(pre: string, name: string, ps: RawParams) returns (rest: string)
    ensures FixStopword(FullText(pre, name, ps))
         == pre + (FN_OPEN + name + ">\n" + (PrintParams(ps) + "") + FN_CLOSE + rest)
  {
    var content := FullText(pre, name, ps);
    FullTextEnds(pre, name, ps);
    hide FN_OPEN, FN_CLOSE, PrintParams, FullText;
    rest := FixedOrExtended(content);
    var call := FN_OPEN + name + ">\n" + PrintParams(ps) + FN_CLOSE;
    assert PrintParams(ps) + "" == PrintParams(ps);
    Regroup(pre, call, rest);
  }

  lemma Regroup(a: string, b: string, c: string)
    ensures (a + b) + c == a + (b + c)
  {
  }

  lemma FullTextEnds(pre: string, name: string, ps: RawParams)
    ensures var content := FullText(pre, name, ps);
      && content == pre + (FN_OPEN + name + ">\n" + PrintParams(ps) + FN_CLOSE)
      && content != "" && content[|content| - 1] == '>'
  {
    assert FN_CLOSE[|FN_CLOSE| - 1] == '>';
    hide FN_OPEN, FN_CLOSE, PrintParams;
  }

  /** A text that ends like a tag is repaired by adding a closing tag, or not at all. */
  lemma FixedOrExtended(content: string) returns (rest: string)
    requires content != "" && content[|content| - 1] == '>'
    ensures FixStopword(content) == content + rest
  {
    hide FN_OPEN, FN_CLOSE, Contains, Count, EndsWith;
    EndsInSlash(content);
    rest := if FixStopword(content) == content then "" else "\n" + FN_CLOSE;
    assert content + "\n" + FN_CLOSE == content + ("\n" + FN_CLOSE) && content + "" == content;
  }

  /** How often the opening of a call occurs in a truncated text. */
  lemma OpeningCount(pre: string, name: string, ps: RawParams, end: string)
    requires !Contains(pre, FN_OPEN) && GoodFunctionName(name) && GoodNames(ps)
    requires end == "" || end == "</"
    ensures var t := CutBeforeStop(pre, name, ps) + end;
      Contains(t, FN_OPEN) && (Count(t, FN_OPEN) == 1 <==> NoOpening(ps))
  {
    hide FN_OPEN, FN_CLOSE, PARAM_OPEN, PARAM_CLOSE, Contains, Count, PrintParams;
    Markers();
    var b := PrintParams(ps) + "";
    assert b == PrintParams(ps);
    var r := name + ">\n" + b + end;
    assert CutBeforeStop(pre, name, ps) + end == pre + FN_OPEN + r;
    CountOne(pre, FN_OPEN, r);
    BodyContains(ps, "", FN_OPEN);
    assert r == name + ">\n" + (b + end);
    SkipNoHead(name + ">\n", b + end, FN_OPEN);
    ContainsSplit(b, end, FN_OPEN);
    TooShort(end, FN_OPEN);
  }

  lemma {:induction false} TooShort(s: string, p: string)
    requires |s| < |p|
    ensures !Contains(s, p)
  {
    if s != "" { TooShort(s[1..], p); }
  }

  lemma TruncatedNoCall(pre: string, name: string, ps: RawParams, end: string)
    requires !Contains(pre, FN_OPEN) && GoodFunctionName(name) && GoodNames(ps) && NoClosing(ps)
    requires end == "" || end == "</"
    ensures SearchCall(CutBeforeStop(pre, name, ps) + end).None?
  {
    hide FN_OPEN, FN_CLOSE, PARAM_OPEN, PARAM_CLOSE, Contains, PrintParams, SearchCall;
    Markers();
    var b := PrintParams(ps) + "";
    assert b == PrintParams(ps);
    BodyContains(ps, "", FN_CLOSE);
    ContainsSplit(b, end, FN_CLOSE);
    TooShort(end, FN_CLOSE);
    var t := FN_OPEN + (name + ">\n" + (b + end));
    CallHeadNoClose(name, b + end);
    assert CutBeforeStop(pre, name, ps) + end == pre + t;
    SearchSkip(pre, t);
    SearchNone(t);
  }

  lemma CallHeadNoClose(name: string, x: string)
    requires GoodFunctionName(name) && !Contains(x, FN_CLOSE)
    ensures !Contains(FN_OPEN + (name + ">\n" + x), FN_CLOSE)
  {
    hide FN_OPEN, FN_CLOSE;
    Markers();
    var t := FN_OPEN + (name + ">\n" + x);
    var a := FN_OPEN[1..] + name + ">\n";
    assert t[1..] == a + x;
    SkipNoHead(a, x, FN_CLOSE);
  }

  lemma FixAppends(c: string)
    requires Contains(c, FN_OPEN) && Count(c, FN_OPEN) == 1 && c[|c| - 1] != '/'
    ensures FixStopword(c) == c + "\n" + FN_CLOSE
  {
    hide FN_OPEN, FN_CLOSE, Contains, Count, EndsWith;
    EndsInSlash(c);
  }

  lemma FixCompletes(c: string)
    requires Contains(c + "</", FN_OPEN) && Count(c + "</", FN_OPEN) == 1
    ensures FixStopword(c + "</") == c + FN_CLOSE
  {
    var d := c + "</";
    assert "</" + CLOSE_REST == FN_CLOSE;
    hide FN_OPEN, FN_CLOSE, Contains, Count, CLOSE_REST;
    assert d[|d| - 1] == '/' && d[|d| - 2..] == "</";
    assert RStrip(d) == d;
    assert d + CLOSE_REST == c + ("</" + CLOSE_REST);
  }

  lemma EndsInSlash(c: string)
    ensures EndsWith(c, "</") ==> c[|c| - 1] == '/'
  {
    if EndsWith(c, "</") {
      assert c[|c| - 1] == c[|c| - 2..][1];
    }
  }

  lemma CutEndsInNewline(pre: string, name: string, ps: RawParams)
    ensures var c := CutBeforeStop(pre, name, ps); c != "" && c[|c| - 1] == '\n'
  {
    hide FN_OPEN, PrintParams;
    LastIsNewline(ps);
    if ps == [] { EmptyBody(); }
  }

  lemma EmptyBody()
    ensures PrintParams([]) == ""
  {
  }

  /** The repair of a text cut before the stop word. */
  lemma FixedBeforeStop(pre: string, name: string, ps: RawParams)
    requires !Contains(pre, FN_OPEN) && GoodFunctionName(name) && GoodNames(ps) && NoOpening(ps)
    ensures FixStopword(CutBeforeStop(pre, name, ps))
         == pre + (FN_OPEN + name + ">\n" + (PrintParams(ps) + "\n") + FN_CLOSE + "")
  {
    hide FN_OPEN, FN_CLOSE, Contains, Count, FixStopword, PrintParams, NoOpening;
    var c := CutBeforeStop(pre, name, ps);
    OpeningCount(pre, name, ps, "");
    assert c + "" == c;
    CutEndsInNewline(pre, name, ps);
    FixAppends(c);
  }

  /** The repair of a text cut inside the stop word. */
  lemma FixedInStop(pre: string, name: string, ps: RawParams)
    requires !Contains(pre, FN_OPEN) && GoodFunctionName(name) && GoodNames(ps) && NoOpening(ps)
    ensures FixStopword(CutBeforeStop(pre, name, ps) + "</")
         == pre + (FN_OPEN + name + ">\n" + (PrintParams(ps) + "") + FN_CLOSE + "")
  {
    hide FN_OPEN, FN_CLOSE, Contains, Count, FixStopword, PrintParams, NoOpening;
    OpeningCount(pre, name, ps, "</");
    FixCompletes(CutBeforeStop(pre, name, ps));
  }

  lemma {:induction false} LastIsNewline(ps: RawParams)
    ensures ps != [] ==> PrintParams(ps) != "" && PrintParams(ps)[|PrintParams(ps)| - 1] == '\n'
  {
    hide PARAM_OPEN, PARAM_CLOSE;
    if |ps| > 1 { LastIsNewline(ps[1..]); }
  }

  /** Cut at the stop word, before it or inside it, a printed call is read back as it was exactly
      when every value survives and none opens a call of its own. */
  lemma TruncatedExact(pre: string, name: string, ps: RawParams, end: string)
    requires !Contains(pre, FN_OPEN) && GoodFunctionName(name) && GoodNames(ps)
    requires end == "" || end == "</"
    ensures ParseCall(CutBeforeStop(pre, name, ps) + end) == Some((name, ps)) <==> AllSurvive(ps) && NoOpening(ps)
  {
    hide FN_OPEN, FN_CLOSE, PARAM_OPEN, PARAM_CLOSE, Contains, SearchCall, PrintParams, EndsMalformed, RewriteAll,
         FindParams, Normalize, CutBeforeStop;
    var content := CutBeforeStop(pre, name, ps) + end;
    ParsedValuesClean(content);
    if NoClosing(ps) {
      if NoOpening(ps) {
        if end == "" {
          assert content == CutBeforeStop(pre, name, ps);
          FixedBeforeStop(pre, name, ps);
          ParseShape(content, pre, name, ps, "\n", "");
        } else {
          FixedInStop(pre, name, ps);
          ParseShape(content, pre, name, ps, "", "");
        }
        RewriteAllFixed(ps);
      } else {
        OpeningCount(pre, name, ps, end);
        TruncatedNoCall(pre, name, ps, end);
        assert FixStopword(content) == content;
      }
    }
  }
}
