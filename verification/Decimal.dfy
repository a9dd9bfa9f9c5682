/** Decimal integers as Python prints them and as `int` reads them. */
module Decimal {
  import opened Wrappers
  import opened Strings

  predicate IsDigit(c: char) {
    '0' <= c <= '9'
  }

  function DigitChar(d: nat): (c: char)
    requires d < 10
    ensures IsDigit(c) && DigitValue(c) == d
  {
    ('0' as int + d) as char
  }

  function DigitValue(c: char): (d: nat)
    requires IsDigit(c)
    ensures d < 10
  {
    c as int - '0' as int
  }

  function PrintNat(n: nat): (s: string)
    ensures s != "" && forall i | 0 <= i < |s| :: IsDigit(s[i])
  {
    if n < 10 then [DigitChar(n)] else PrintNat(n / 10) + [DigitChar(n % 10)]
  }

  function PrintInt(n: int): string {
    if n < 0 then "-" + PrintNat(-n) else PrintNat(n)
  }

  /** Digits, with single underscores allowed between them. */
  function ParseDigits(s: string): Option<nat>
    decreases |s|
  {
    if s == "" || !IsDigit(s[|s| - 1]) then None
    else if |s| == 1 then Some(DigitValue(s[0]))
    else
      var init := if s[|s| - 2] == '_' then s[..|s| - 2] else s[..|s| - 1];
      match ParseDigits(init)
      case None => None
      case Some(n) => Some(10 * n + DigitValue(s[|s| - 1]))
  }

  function ParseSigned(t: string): Option<int> {
    var negative := t != "" && t[0] == '-';
    var digits := if negative || (t != "" && t[0] == '+') then t[1..] else t;
    match ParseDigits(digits)
    case None => None
    case Some(n) => Some((if negative then -1 else 1) * n)
  }

  /** Python's `int(s)` on ASCII text; `None` stands for `ValueError`. */
  function ParseInt(s: string): Option<int> {
    ParseSigned(Strip(s))
  }

  /** `f'{n:02d}'` */
  function Pad2(n: nat): string {
    if n < 10 then ['0', DigitChar(n)] else PrintNat(n)
  }

  lemma {:induction false} ParsePrintedNat(n: nat)
    ensures ParseDigits(PrintNat(n)) == Some(n)
  {
    if n >= 10 {
      ParsePrintedNat(n / 10);
      var s := PrintNat(n);
      assert s[..|s| - 1] == PrintNat(n / 10);
      assert IsDigit(s[|s| - 2]);
    }
  }

  lemma NothingToStrip(s: string)
    requires s != "" && !IsSpace(s[0]) && !IsSpace(s[|s| - 1])
    ensures Strip(s) == s
  {
  }

  lemma SignedPrinted(n: int)
    ensures ParseSigned(PrintInt(n)) == Some(n)
  {
    hide PrintNat, ParseDigits;
    var d := PrintNat(if n < 0 then -n else n);
    assert IsDigit(d[0]);
    ParsePrintedNat(if n < 0 then -n else n);
    assert ("-" + d)[1..] == d;
  }

  /** Every integer is read back from its decimal form. */
  lemma ParsePrintedInt(n: int)
    ensures ParseInt(PrintInt(n)) == Some(n)
  {
    hide PrintNat, ParseSigned;
    var d := PrintNat(if n < 0 then -n else n);
    assert IsDigit(d[0]) && IsDigit(d[|d| - 1]);
    NothingToStrip(PrintInt(n));
    SignedPrinted(n);
  }

  /** The counter is readable from its two-digit form, so distinct counters give distinct texts. */
  lemma ParsePadded(n: nat)
    ensures ParseDigits(Pad2(n)) == Some(n)
  {
    if n < 10 {
      assert Pad2(n)[..1] == ['0'];
    } else {
      ParsePrintedNat(n);
    }
  }

  /** What is read as a number: it begins and ends with a digit, and consists of digits with single
      underscores between them. */
  lemma {:induction false} DigitsExactly(s: string)
    ensures ParseDigits(s).Some? <==>
      && s != "" && IsDigit(s[0]) && IsDigit(s[|s| - 1])
      && forall i | 0 <= i < |s| :: IsDigit(s[i]) || (s[i] == '_' && 0 < i < |s| - 1 && IsDigit(s[i - 1]) && IsDigit(s[i + 1]))
    decreases |s|
  {
    if s != "" && IsDigit(s[|s| - 1]) && |s| > 1 {
      var init := if s[|s| - 2] == '_' then s[..|s| - 2] else s[..|s| - 1];
      DigitsExactly(init);
      assert forall i | 0 <= i < |init| :: init[i] == s[i];
    }
  }

  /** Its value: the last digit counts once, what stands before it ten times, underscores not at all. */
  lemma DigitsValue(s: string, c: char)
    requires IsDigit(c)
    ensures ParseDigits([c]) == Some(c as int - '0' as int)
    ensures ParseDigits(s).Some? ==>
      && ParseDigits(s + [c]) == Some(10 * ParseDigits(s).value + (c as int - '0' as int))
      && ParseDigits(s + "_" + [c]) == Some(10 * ParseDigits(s).value + (c as int - '0' as int))
  {
    if ParseDigits(s).Some? {
      var t, u := s + [c], s + "_" + [c];
      assert t[..|t| - 1] == s && t[|t| - 2] == s[|s| - 1];
      assert u[..|u| - 2] == s && u[|u| - 2] == '_';
    }
  }

  /** A sign in front says which side of zero it is. */
  lemma SignedExactly(t: string)
    requires t != ""
    ensures var digits := ParseDigits(if t[0] == '-' || t[0] == '+' then t[1..] else t);
      && (ParseSigned(t).Some? <==> digits.Some?)
      && (digits.Some? && t[0] == '-' ==> ParseSigned(t).value + digits.value == 0)
      && (digits.Some? && t[0] != '-' ==> ParseSigned(t).value == digits.value)
  {
    hide ParseDigits;
  }

  /** Blanks around a number do not matter. */
  lemma BlanksAround(a: string, t: string, b: string)
    requires forall k | 0 <= k < |a| :: IsSpace(a[k])
    requires forall k | 0 <= k < |b| :: IsSpace(b[k])
    requires t != "" ==> !IsSpace(t[0]) && !IsSpace(t[|t| - 1])
    ensures ParseInt(a + t + b) == ParseSigned(t)
    ensures t == "" ==> ParseInt(a + t + b) == None
  {
    StripExactly(a, t, b);
    EmptyIsNoNumber();
    hide Strip, ParseDigits, IsSpace;
  }

  lemma EmptyIsNoNumber()
    ensures ParseDigits("") == None
  {
  }

  /** A counter has at least two digits, a zero in front if need be. */
  lemma PaddedExactly(n: nat)
    ensures n < 10 ==> Pad2(n) == "0" + PrintNat(n)
    ensures n >= 10 ==> Pad2(n) == PrintNat(n) && |Pad2(n)| >= 2
  {
  }
}
