/** The textual form of one function call: its printer, its regex-driven parser, the repair of a
    missing stop word and the normalisation of malformed parameter tags. */
module CallSyntax {
  import opened Wrappers
  import opened Strings

  const FN_OPEN := "<function="
  const FN_CLOSE := "</function>"
  const PARAM_OPEN := "<parameter="
  const PARAM_CLOSE := "</parameter>"
  const CLOSE_REST := "function>"

  /** Parameters as they stand in the text: names and unconverted values, in order. */
  type RawParams = seq<(string, string)>

  function PrintParam(k: string, v: string): string {
    PARAM_OPEN + k + ">" + v + PARAM_CLOSE + "\n"
  }

  function PrintParams(ps: RawParams): string {
    if ps == [] then "" else PrintParam(ps[0].0, ps[0].1) + PrintParams(ps[1..])
  }

  function PrintCall(name: string, ps: RawParams): string {
    FN_OPEN + name + ">\n" + PrintParams(ps) + FN_CLOSE
  }

  /** `<function=([^>]+)>\n(.*?)</function>` anchored at the start of `s`. */
  function MatchCall(s: string): Option<(string, string)> {
    if !(FN_OPEN <= s) then None
    else match Cut(s[|FN_OPEN|..], ">")
      case None => None
      case Some((name, r)) =>
        if name == "" || !("\n" <= r) then None
        else match Cut(r[1..], FN_CLOSE)
          case None => None
          case Some((body, _)) => Some((name, body))
  }

  function SearchCall(s: string): Option<(string, string)> {
    if MatchCall(s).Some? then MatchCall(s)
    else if s == "" then None
    else SearchCall(s[1..])
  }

  /** `<parameter=([^>]+)>(.*?)</parameter>` anchored at the start of `s`: name, value and rest. */
  function MatchParam(s: string): (r: Option<(string, string, string)>)
    ensures r.Some? ==> s == PARAM_OPEN + r.value.0 + ">" + r.value.1 + PARAM_CLOSE + r.value.2
  {
    if !(PARAM_OPEN <= s) then None
    else match Cut(s[|PARAM_OPEN|..], ">")
      case None => None
      case Some((k, r)) =>
        if k == "" then None
        else match Cut(r, PARAM_CLOSE)
          case None => None
          case Some((v, rest)) => Some((k, v, rest))
  }

  /** All parameters `re.finditer` finds. */
  function FindParams(s: string): RawParams
    decreases |s|
  {
    match MatchParam(s)
    case Some((k, v, rest)) => [(k, v)] + FindParams(rest)
    case None => if s == "" then [] else FindParams(s[1..])
  }

  predicate IsWord(c: char) {
    'a' <= c <= 'z' || 'A' <= c <= 'Z' || '0' <= c <= '9' || c == '_'
  }

  function WordRun(s: string): (r: string)
    ensures r <= s && (forall k | 0 <= k < |r| :: IsWord(r[k]))
    ensures |r| < |s| ==> !IsWord(s[|r|])
  {
    if s != "" && IsWord(s[0]) then [s[0]] + WordRun(s[1..]) else ""
  }

  function PlainRun(s: string): (r: string)
    ensures r <= s && '<' !in r
    ensures |r| < |s| ==> s[|r|] == '<'
  {
    if s != "" && s[0] != '<' then [s[0]] + PlainRun(s[1..]) else ""
  }

  /** `([a-zA-Z0-9_]+)=` at the start of `t`: the name, if there is a match. */
  function NameAndEquals(t: string): (r: Option<string>)
    ensures r.Some? ==> |r.value| < |t| && forall k | 0 <= k < |r.value| :: IsWord(r.value[k])
    ensures r.Some? ==> r.value <= t && t[|r.value|] == '='
  {
    var n := WordRun(t);
    if n != "" && |n| < |t| && t[|n|] == '=' then Some(n) else None
  }

  /** `([^<]*)</parameter>` at the start of `u`: the value and the rest. */
  function PlainThenClose(u: string): (r: Option<(string, string)>)
    ensures r.Some? ==> '<' !in r.value.0
    ensures r.Some? ==> |r.value.1| <= |u| && r.value.1 == u[|u| - |r.value.1|..]
  {
    var v := PlainRun(u);
    var w := u[|v|..];
    if PARAM_CLOSE <= w then Some((v, w[|PARAM_CLOSE|..])) else None
  }

  /** `<parameter=([a-zA-Z0-9_]+)=([^<]*)</parameter>` anchored at the start of `s`. */
  function MatchMalformed(s: string): (r: Option<(string, string, string)>)
    ensures r.Some? ==> '<' !in r.value.1 && forall k | 0 <= k < |r.value.0| :: IsWord(r.value.0[k])
    ensures r.Some? ==> |r.value.2| < |s| && r.value.2 == s[|s| - |r.value.2|..]
  {
    if !(PARAM_OPEN <= s) then None
    else
      var t := s[|PARAM_OPEN|..];
      match NameAndEquals(t)
      case None => None
      case Some(n) =>
        match PlainThenClose(t[|n| + 1..])
        case None => None
        case Some((v, rest)) => Some((n, v, rest))
  }

  /** `_normalize_parameter_tags` */
  function Normalize(s: string): string
    decreases |s|
  {
    match MatchMalformed(s)
    case Some((n, v, rest)) => PARAM_OPEN + n + ">" + v + PARAM_CLOSE + Normalize(rest)
    case None => if s == "" then "" else [s[0]] + Normalize(s[1..])
  }

  /** `_fix_stopword` */
  function FixStopword(content: string): string {
    if Contains(content, FN_OPEN) && Count(content, FN_OPEN) == 1 then
      if EndsWith(content, "</") then RStrip(content) + CLOSE_REST
      else content + "\n" + FN_CLOSE
    else content
  }

  /** The call an assistant text is read as, before its parameters are validated. */
  function ParseCall(content: string): Option<(string, RawParams)> {
    match SearchCall(FixStopword(content))
    case None => None
    case Some((name, body)) => Some((name, FindParams(Normalize(body))))
  }

  /** Facts about the four markers that every later proof uses. */
  lemma Markers()
    ensures HeadOnce(FN_OPEN) && HeadOnce(FN_CLOSE) && HeadOnce(PARAM_OPEN) && HeadOnce(PARAM_CLOSE)
    ensures FN_OPEN[0] == FN_CLOSE[0] == PARAM_OPEN[0] == PARAM_CLOSE[0] == '<'
    ensures FN_OPEN[1] == 'f' && PARAM_OPEN[1] == 'p' && FN_CLOSE[1] == '/' && PARAM_CLOSE[1] == '/'
    ensures FN_OPEN[2] == 'u' && FN_CLOSE[2] == 'f' && PARAM_CLOSE[2] == 'p'
    ensures |FN_OPEN| == 10 && |FN_CLOSE| == 11 && |PARAM_OPEN| == 11 && |PARAM_CLOSE| == 12
    ensures '<' !in PARAM_OPEN[1..] && '<' !in PARAM_CLOSE[1..] && '<' !in FN_OPEN[1..] && '<' !in FN_CLOSE[1..]
  {
  }

  // ---- Normalisation ----

  /** Text without `<` is copied. */
  lemma {:induction false} NormalizePlain(a: string, t: string)
    requires '<' !in a
    ensures Normalize(a + t) == a + Normalize(t)
  {
    hide FN_OPEN, FN_CLOSE, PARAM_OPEN, PARAM_CLOSE;
    Markers();
    if a == "" {
      assert a + t == t;
    } else {
      assert (a + t)[0] == a[0] != '<';
      assert (a + t)[1..] == a[1..] + t;
      NormalizePlain(a[1..], t);
      assert [a[0]] + (a[1..] + Normalize(t)) == a + Normalize(t);
    }
  }

  lemma {:induction false} PlainRunExact(a: string, b: string)
    requires '<' !in a && (b == "" || b[0] == '<')
    ensures PlainRun(a + b) == a
  {
    if a == "" {
      assert a + b == b;
    } else {
      assert (a + b)[1..] == a[1..] + b;
      PlainRunExact(a[1..], b);
    }
  }

  lemma {:induction false} WordRunExact(n: string, b: string)
    requires (forall k | 0 <= k < |n| :: IsWord(n[k])) && (b == "" || !IsWord(b[0]))
    ensures WordRun(n + b) == n
  {
    if n == "" {
      assert n + b == b;
    } else {
      assert (n + b)[1..] == n[1..] + b;
      WordRunExact(n[1..], b);
    }
  }

  lemma NameAndEqualsLocal(t: string, b: string)
    requires b == "" || b[0] == '<'
    ensures NameAndEquals(t + b) == NameAndEquals(t)
  {
    var n := WordRun(t);
    assert t == n + t[|n|..];
    assert n + (t[|n|..] + b) == t + b;
    WordRunExact(n, t[|n|..] + b);
    assert |n| < |t + b| ==> (t + b)[|n|] == if |n| < |t| then t[|n|] else b[0];
  }

  lemma PlainThenCloseLocal(u: string, b: string)
    requires '<' !in u && (b == "" || b[0] == '<')
    ensures PlainThenClose(u + b) == if PARAM_CLOSE <= b then Some((u, b[|PARAM_CLOSE|..])) else None
  {
    hide PARAM_CLOSE;
    PlainRunExact(u, b);
    assert (u + b)[|u|..] == b;
  }

  /** What of a malformed tag stands before its closing tag. */
  predicate MalformedOpening(a: string) {
    PARAM_OPEN <= a && NameAndEquals(a[|PARAM_OPEN|..]).Some?
  }

  /** Whether a tag is malformed depends only on the text up to the next `<` and on whether a
      closing tag stands there. */
  lemma MalformedShape(a: string, b: string)
    requires a != "" && a[0] == '<' && '<' !in a[1..] && (b == "" || b[0] == '<')
    ensures MatchMalformed(a + b).Some? <==> MalformedOpening(a) && PARAM_CLOSE <= b
    ensures MatchMalformed(a + b).Some? ==>
      var n := NameAndEquals(a[|PARAM_OPEN|..]).value;
      MatchMalformed(a + b) == Some((n, a[|PARAM_OPEN| + |n| + 1..], b[|PARAM_CLOSE|..]))
  {
    hide FN_OPEN, FN_CLOSE, PARAM_OPEN, PARAM_CLOSE, NameAndEquals, PlainThenClose;
    Markers();
    PrefixStaysLeft(a, b, PARAM_OPEN);
    if PARAM_OPEN <= a {
      var t := a[|PARAM_OPEN|..];
      assert (a + b)[|PARAM_OPEN|..] == t + b;
      NameAndEqualsLocal(t, b);
      if NameAndEquals(t).Some? {
        var n := NameAndEquals(t).value;
        var u := t[|n| + 1..];
        assert (t + b)[|n| + 1..] == u + b;
        assert u == a[|PARAM_OPEN| + |n| + 1..];
        PlainThenCloseLocal(u, b);
      }
    }
  }

  /** The head of a text survives normalisation. */
  lemma NormalizeFirst(t: string)
    ensures t == "" <==> Normalize(t) == ""
    ensures t != "" ==> Normalize(t)[0] == t[0]
  {
    hide FN_OPEN, FN_CLOSE, PARAM_OPEN, PARAM_CLOSE;
    Markers();
  }

  lemma NormalizeStep(s: string)
    requires s != "" && MatchMalformed(s).None?
    ensures Normalize(s) == [s[0]] + Normalize(s[1..])
  {
    hide MatchMalformed;
  }

  /** Splitting a text at the first `<` after its head, before and after normalisation. */
  lemma SplitAtTag(s: string) returns (l: string, b: string)
    requires s != "" && MatchMalformed(s).None?
    ensures s == l + b && l != "" && l[0] == s[0] && '<' !in l[1..] && (b == "" || b[0] == '<')
    ensures Normalize(s) == l + Normalize(b)
  {
    hide Normalize, MatchMalformed;
    NormalizeStep(s);
    var a := PlainRun(s[1..]);
    b := s[1..][|a|..];
    l := [s[0]] + a;
    assert s[1..] == a + b;
    NormalizePlain(a, b);
    assert [s[0]] + (a + b) == l + b;
    assert [s[0]] + (a + Normalize(b)) == l + Normalize(b);
  }

  /** A malformed tag keeps its opening. */
  lemma TagKeepsOpening(t: string)
    requires MatchMalformed(t).Some?
    ensures |t| > 1 && t[1] == 'p' && |Normalize(t)| > 1 && Normalize(t)[1] == 'p'
  {
    hide PARAM_OPEN, PARAM_CLOSE, NameAndEquals, PlainThenClose;
    Markers();
    assert PARAM_OPEN <= t;
  }

  /** A closing tag at the start neither appears nor disappears. */
  lemma CloseKept(t: string, q: string)
    requires |q| > 1 && q[0] == '<' && q[1] == '/' && '<' !in q[1..]
    ensures q <= Normalize(t) <==> q <= t
  {
    hide Normalize, MatchMalformed;
    NormalizeFirst(t);
    if MatchMalformed(t).Some? {
      TagKeepsOpening(t);
    } else if t != "" {
      var l, b := SplitAtTag(t);
      NormalizeFirst(b);
      PrefixStaysLeft(l, b, q);
      PrefixStaysLeft(l, Normalize(b), q);
    }
  }

  /** Normalising the closing tag of a parameter copies it. */
  lemma NormalizeClose(t: string)
    ensures Normalize(PARAM_CLOSE + t) == PARAM_CLOSE + Normalize(t)
  {
    hide FN_OPEN, FN_CLOSE, PARAM_OPEN, PARAM_CLOSE;
    Markers();
    var s := PARAM_CLOSE + t;
    assert s[1] == '/';
    assert s[1..] == PARAM_CLOSE[1..] + t;
    NormalizePlain(PARAM_CLOSE[1..], t);
    assert [s[0]] + (PARAM_CLOSE[1..] + Normalize(t)) == PARAM_CLOSE + Normalize(t);
  }

  lemma WordsArePlain(n: string)
    requires forall k | 0 <= k < |n| :: IsWord(n[k])
    ensures '<' !in n && '>' !in n && '=' !in n
  {
  }

  lemma NoTagWithoutEquals(k: string, t: string)
    requires '=' !in k && '>' !in k
    ensures NameAndEquals(k + ">" + t).None?
  {
    var u := k + ">" + t;
    var n := WordRun(u);
    assert u[|k|] == '>';
    forall j | 0 <= j < |n| ensures u[j] != '>' { assert n[j] == u[j]; }
    assert |n| <= |k|;
    assert u[|n|] == if |n| < |k| then k[|n|] else '>';
  }

  lemma CanonicalNotMalformed(k: string, t: string)
    requires '=' !in k && '>' !in k
    ensures MatchMalformed(PARAM_OPEN + k + ">" + t).None?
  {
    hide PARAM_OPEN, NameAndEquals;
    assert (PARAM_OPEN + k + ">" + t)[|PARAM_OPEN|..] == k + ">" + t;
    NoTagWithoutEquals(k, t);
  }

  /** An opening tag in canonical form is copied. */
  lemma NormalizeOpening(k: string, t: string)
    requires '<' !in k && '=' !in k && '>' !in k
    ensures Normalize(PARAM_OPEN + k + ">" + t) == PARAM_OPEN + k + ">" + Normalize(t)
  {
    hide FN_OPEN, FN_CLOSE, PARAM_OPEN, PARAM_CLOSE, Normalize, MatchMalformed;
    Markers();
    var s := PARAM_OPEN + k + ">" + t;
    CanonicalNotMalformed(k, t);
    NormalizeStep(s);
    var a := PARAM_OPEN[1..] + k + ">";
    assert s[1..] == a + t && s[0] == PARAM_OPEN[0];
    NormalizePlain(a, t);
    assert [PARAM_OPEN[0]] + (a + Normalize(t)) == PARAM_OPEN + k + ">" + Normalize(t);
  }

  /** A tag in canonical form with a plain value is copied. */
  lemma NormalizeTag(k: string, v: string, t: string)
    requires '<' !in k && '=' !in k && '>' !in k && '<' !in v
    ensures Normalize(PARAM_OPEN + k + ">" + v + PARAM_CLOSE + t) == PARAM_OPEN + k + ">" + v + PARAM_CLOSE + Normalize(t)
  {
    hide PARAM_OPEN, PARAM_CLOSE, Normalize;
    var w := v + (PARAM_CLOSE + t);
    assert PARAM_OPEN + k + ">" + v + PARAM_CLOSE + t == PARAM_OPEN + k + ">" + w;
    NormalizeOpening(k, w);
    NormalizePlain(v, PARAM_CLOSE + t);
    NormalizeClose(t);
    assert PARAM_OPEN + k + ">" + (v + (PARAM_CLOSE + Normalize(t))) == PARAM_OPEN + k + ">" + v + PARAM_CLOSE + Normalize(t);
  }

  /** `_normalize_parameter_tags` is idempotent, on every text. */
  lemma {:induction false} NormalizeIdempotent(s: string)
    ensures Normalize(Normalize(s)) == Normalize(s)
    decreases |s|
  {
    hide PARAM_OPEN, PARAM_CLOSE, MatchMalformed;
    match MatchMalformed(s)
    case Some((n, v, rest)) =>
      NormalizeIdempotent(rest);
      WordsArePlain(n);
      NormalizeTag(n, v, Normalize(rest));
    case None =>
      if s != "" {
        NormalizeIdempotent(s[1..]);
        MalformedStable(s);
        assert Normalize(s)[1..] == Normalize(s[1..]);
      }
  }

  /** Normalising a text that does not begin with a malformed tag leaves it so. */
  lemma MalformedStable(s: string)
    requires s != "" && MatchMalformed(s).None?
    ensures MatchMalformed(Normalize(s)).None?
  {
    hide PARAM_OPEN, PARAM_CLOSE, Normalize, MatchMalformed, MalformedOpening;
    Markers();
    NormalizeFirst(s);
    if s[0] == '<' {
      var l, b := SplitAtTag(s);
      NormalizeFirst(b);
      CloseKept(b, PARAM_CLOSE);
      MalformedShape(l, b);
      MalformedShape(l, Normalize(b));
    } else {
      NoTag(Normalize(s));
    }
  }

  lemma NoTag(s: string)
    requires s == "" || s[0] != '<'
    ensures MatchMalformed(s).None?
  {
    Markers();
  }

  /** Normalisation never creates the end of a call. */
  lemma {:induction false} NormalizeNoClose(s: string)
    requires !Contains(s, FN_CLOSE)
    ensures !Contains(Normalize(s), FN_CLOSE)
    decreases |s|
  {
    hide PARAM_OPEN, PARAM_CLOSE, FN_CLOSE, FN_OPEN, MatchMalformed;
    Markers();
    match MatchMalformed(s)
    case Some((n, v, rest)) =>
      SuffixClean(s, |s| - |rest|, FN_CLOSE);
      NormalizeNoClose(rest);
      WordsArePlain(n);
      TagNoClose(n, v, Normalize(rest));
    case None =>
      if s != "" {
        CloseKept(s, FN_CLOSE);
        NormalizeNoClose(s[1..]);
        assert Normalize(s)[1..] == Normalize(s[1..]);
      }
  }

  lemma TagNoClose(k: string, v: string, t: string)
    requires '<' !in k && '<' !in v && !Contains(t, FN_CLOSE)
    ensures !Contains(PARAM_OPEN + k + ">" + v + PARAM_CLOSE + t, FN_CLOSE)
  {
    hide PARAM_OPEN, PARAM_CLOSE, FN_CLOSE, FN_OPEN;
    Markers();
    var c := PARAM_CLOSE + t;
    assert c[1..] == PARAM_CLOSE[1..] + t && c[2] == 'p';
    SkipNoHead(PARAM_CLOSE[1..], t, FN_CLOSE);
    var s := PARAM_OPEN + k + ">" + v + PARAM_CLOSE + t;
    var a := PARAM_OPEN[1..] + k + ">" + v;
    assert s[1..] == a + c && s[1] == 'p';
    SkipNoHead(a, c, FN_CLOSE);
  }
}
