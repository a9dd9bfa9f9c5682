/** Detecting that the agent is stuck in a loop, and cutting the history back to where the loop began. */
module Stuck {
  import opened Wrappers
  import Strings

  /** What Python compares when it compares two events; ids and sources are no part of it.
      `Cell` is an action running a cell, `Shell` the observation of a command. */
  datatype Content =
    | Message(body: string)
    | Cell(code: string, rest: string)
    | OtherAction(body: string)
    | NullAction
    | Shell(command: string, exitCode: int, pidAndRest: string)
    | CellResult(text: string, rest: string)
    | ErrorResult(body: string)
    | Condensed(body: string)
    | OtherResult(body: string)
    | NullResult

  datatype Event = Event(id: int, fromUser: bool, content: Content)

  predicate IsAction(e: Event) {
    e.content.Message? || e.content.Cell? || e.content.OtherAction? || e.content.NullAction?
  }

  predicate IsUserMessage(e: Event) {
    e.content.Message? && e.fromUser
  }

  // ---- Comparing events ----

  const EDIT_MARK := "edit_file_by_replace("

  /** `s.split('\n')` */
  function Lines(s: string): (r: seq<string>)
    ensures r != []
    decreases |s|
  {
    match Strings.Cut(s, "\n")
    case None => [s]
    case Some((b, a)) => [b] + Lines(a)
  }

  predicate IsEdit(c: Content) {
    c.Cell? && Strings.Contains(c.code, EDIT_MARK)
  }

  function FirstThree(s: string): seq<string> {
    var l := Lines(s);
    if |l| > 3 then l[..3] else l
  }

  /** `_eq_no_pid` */
  predicate SameButPid(a: Event, b: Event) {
    if a.content.Cell? && b.content.Cell? then
      if IsEdit(a.content) && IsEdit(b.content) then
        |Lines(a.content.code)| > 2 && FirstThree(a.content.code) == FirstThree(b.content.code)
      else a.content == b.content
    else if a.content.Shell? && b.content.Shell? then
      a.content.command == b.content.command && a.content.exitCode == b.content.exitCode
    else a.content == b.content
  }

  lemma SameIsSymmetric(a: Event, b: Event)
    ensures SameButPid(a, b) <==> SameButPid(b, a)
  {
    if a.content.Cell? && b.content.Cell? && FirstThree(a.content.code) == FirstThree(b.content.code) {
      assert |FirstThree(a.content.code)| > 2 <==> |Lines(a.content.code)| > 2;
      assert |FirstThree(b.content.code)| > 2 <==> |Lines(b.content.code)| > 2;
    }
  }

  lemma SameIsTransitive(a: Event, b: Event, c: Event)
    requires SameButPid(a, b) && SameButPid(b, c)
    ensures SameButPid(a, c)
  {
    hide Lines, FirstThree;
  }

  /** An event counts as the same as itself unless it is an edit of fewer than three lines. */
  lemma SameAsItselfExactly(a: Event)
    ensures SameButPid(a, a) <==> !(IsEdit(a.content) && |Lines(a.content.code)| <= 2)
  {
  }

  lemma ShortEditIsNotItself()
    ensures !SameButPid(Event(0, false, Cell(EDIT_MARK, "")), Event(1, false, Cell(EDIT_MARK, "")))
  {
    OneLine();
    hide Lines, FirstThree, EDIT_MARK;
    assert Strings.Contains(EDIT_MARK, EDIT_MARK);
  }

  lemma OneLine()
    ensures |Lines(EDIT_MARK)| == 1
  {
    NoNewline();
    hide EDIT_MARK;
  }

  lemma NoNewline()
    ensures !Strings.Contains(EDIT_MARK, "\n")
  {
    HasCharacter(EDIT_MARK, '\n');
  }

  lemma {:induction false} HasCharacter(s: string, c: char)
    ensures Strings.Contains(s, [c]) ==> c in s
  {
    if [c] <= s { assert s[0] == c; } else if s != "" { HasCharacter(s[1..], c); }
  }

  /** Events all compared with one of them are pairwise the same, whichever are looked at. */
  lemma ComparedWithOne(x: Event, ys: seq<Event>)
    requires forall i | 0 <= i < |ys| :: SameButPid(x, ys[i])
    ensures forall i, j | 0 <= i < |ys| && 0 <= j < |ys| :: SameButPid(ys[i], ys[j])
  {
    hide SameButPid;
    forall i, j | 0 <= i < |ys| && 0 <= j < |ys| ensures SameButPid(ys[i], ys[j]) {
      SameIsSymmetric(x, ys[i]);
      SameIsTransitive(ys[i], x, ys[j]);
    }
  }

  // ---- The last events of a kind ----

  type Test = Event -> bool

  /** The positions of the last `n` events that pass, latest first. */
  function LastOnes(h: seq<Event>, test: Test, n: nat): (r: seq<nat>)
    ensures |r| <= n
    ensures forall i | 0 <= i < |r| :: r[i] < |h| && test(h[r[i]])
  {
    if h == [] || n == 0 then []
    else
      var k := |h| - 1;
      if test(h[k]) then [k] + LastOnes(h[..k], test, n - 1) else LastOnes(h[..k], test, n)
  }

  function Events(h: seq<Event>, at: seq<nat>): (r: seq<Event>)
    requires forall i | 0 <= i < |at| :: at[i] < |h|
    ensures |r| == |at| && forall i | 0 <= i < |r| :: r[i] == h[at[i]]
  {
    seq(|at|, i requires 0 <= i < |at| => h[at[i]])
  }

  /** `h.index(e)`, by content. */
  function IndexOf(h: seq<Event>, k: nat): (r: nat)
    requires k < |h|
    ensures r <= k && h[r].content == h[k].content && forall i | 0 <= i < r :: h[i].content != h[k].content
  {
    IndexFrom(h, k, 0)
  }

  function IndexFrom(h: seq<Event>, k: nat, i: nat): (r: nat)
    requires i <= k < |h| && forall j | 0 <= j < i :: h[j].content != h[k].content
    ensures r <= k && h[r].content == h[k].content && forall j | 0 <= j < r :: h[j].content != h[k].content
    decreases k - i
  {
    if h[i].content == h[k].content then i else IndexFrom(h, k, i + 1)
  }

  // ---- The five patterns ----

  datatype LoopType = RepeatedPair | RepeatedError | Monologue | AlternatingPairs | ContextWindow

  datatype Analysis = Analysis(loopType: LoopType, repeatTimes: nat, loopStartIdx: int)

  function Actions(h: seq<Event>, n: nat): (r: seq<nat>)
    ensures |r| <= n && forall i | 0 <= i < |r| :: r[i] < |h|
  {
    LastOnes(h, IsAction, n)
  }

  function Results(h: seq<Event>, n: nat): (r: seq<nat>)
    ensures |r| <= n && forall i | 0 <= i < |r| :: r[i] < |h|
  {
    LastOnes(h, (e: Event) => !IsAction(e), n)
  }

  predicate AllSame(h: seq<Event>, at: seq<nat>, n: nat)
    requires 0 < n <= |at| && forall i | 0 <= i < |at| :: at[i] < |h|
  {
    forall i | 0 <= i < n :: SameButPid(h[at[0]], h[at[i]])
  }

  predicate RepeatsPair(h: seq<Event>) {
    var a, o := Actions(h, 4), Results(h, 4);
    |a| == 4 && |o| == 4 && AllSame(h, a, 4) && AllSame(h, o, 4)
  }

  const UNTERMINATED := "SyntaxError: unterminated string literal (detected at line"
  const FORGOT_COMMA := "SyntaxError: invalid syntax. Perhaps you forgot a comma?"
  const INCOMPLETE := "SyntaxError: incomplete input"
  const CELL_LINE := "Cell In[1], line"
  const DIRECTORY := "[Jupyter current working directory:"
  const INTERPRETER := "[Jupyter Python interpreter:"

  function StrippedLines(e: Event): seq<string>
    requires e.content.CellResult?
  {
    Lines(Strings.Strip(e.content.text))
  }

  /** The last three lines end with the two that the system adds. */
  predicate EndsWithOurLines(l: seq<string>)
    requires |l| >= 3
  {
    DIRECTORY <= l[|l| - 2] && INTERPRETER <= l[|l| - 1]
  }

  /** `_check_for_consistent_line_error` on three observations. */
  predicate SameLineError(es: seq<Event>, message: string)
    requires |es| == 3 && forall i | 0 <= i < 3 :: es[i].content.CellResult?
  {
    && (forall i | 0 <= i < 3 ::
          var l := StrippedLines(es[i]); |l| >= 3 && EndsWithOurLines(l) && Strings.Contains(l[|l| - 3], message))
    && (forall i | 0 <= i < 3 ::
          var l, l0 := StrippedLines(es[i]), StrippedLines(es[0]); l[|l| - 3] == l0[|l0| - 3])
  }

  /** `_check_for_consistent_invalid_syntax` on three observations. */
  predicate SameInvalidSyntax(es: seq<Event>, message: string)
    requires |es| == 3 && forall i | 0 <= i < 3 :: es[i].content.CellResult?
  {
    && (forall i | 0 <= i < 3 ::
          var l := StrippedLines(es[i]);
          |l| >= 6 && CELL_LINE <= Strings.Strip(l[0]) && EndsWithOurLines(l) && Strings.Contains(l[|l| - 3], message))
    && (forall i | 0 <= i < 3 ::
          var l, l0 := StrippedLines(es[i]), StrippedLines(es[0]);
          Strings.Strip(l[0]) == Strings.Strip(l0[0]) && l[|l| - 3] == l0[|l0| - 3])
  }

  predicate SyntaxErrorLoop(es: seq<Event>)
    requires |es| == 3 && forall i | 0 <= i < 3 :: es[i].content.CellResult?
  {
    SameLineError(es, UNTERMINATED) || SameInvalidSyntax(es, FORGOT_COMMA) || SameInvalidSyntax(es, INCOMPLETE)
  }

  predicate RepeatsError(h: seq<Event>) {
    var a, o := Actions(h, 4), Results(h, 4);
    |a| >= 3 && |o| >= 3 && AllSame(h, a, 3) &&
    ((forall i | 0 <= i < 3 :: h[o[i]].content.ErrorResult?)
     || ((forall i | 0 <= i < 3 :: h[o[i]].content.CellResult?) && SyntaxErrorLoop(Events(h, o)[..3])))
  }

  function Monologues(h: seq<Event>): (r: seq<nat>)
    ensures |r| <= 3 && forall i | 0 <= i < |r| :: r[i] < |h|
  {
    LastOnes(h, (e: Event) => e.content.Message? && !e.fromUser, 3)
  }

  predicate TalksToItself(h: seq<Event>) {
    var m := Monologues(h);
    |m| == 3 && h[m[1]].content == h[m[2]].content && h[m[0]].content == h[m[2]].content
    && forall i | m[2] < i < m[0] :: i < |h| ==> IsAction(h[i])
  }

  predicate Alternates(h: seq<Event>, at: seq<nat>)
    requires |at| == 6 && forall i | 0 <= i < |at| :: at[i] < |h|
  {
    && SameButPid(h[at[0]], h[at[2]]) && SameButPid(h[at[0]], h[at[4]])
    && SameButPid(h[at[1]], h[at[3]]) && SameButPid(h[at[1]], h[at[5]])
  }

  predicate AlternatesPairs(h: seq<Event>) {
    var a, o := Actions(h, 6), Results(h, 6);
    |a| == 6 && |o| == 6 && Alternates(h, a) && Alternates(h, o)
  }

  function Condensations(h: seq<Event>): (r: seq<nat>)
    ensures |r| <= 10 && forall i | 0 <= i < |r| :: r[i] < |h|
  {
    LastOnes(h, (e: Event) => e.content.Condensed?, 10)
  }

  /** Two neighbouring condensations among the last ten with nothing else in between; the latest-first
      position of the earlier one of the first such two. */
  function ContextLoop(h: seq<Event>, c: seq<nat>, i: nat): (r: Option<nat>)
    requires i < |c| && forall j | 0 <= j < |c| :: c[j] < |h|
    ensures r.Some? ==> 0 < r.value <= i
  {
    if i == 0 then None
    else if forall j | c[i] < j < c[i - 1] :: j < |h| ==> h[j].content.Condensed? then Some(i)
    else ContextLoop(h, c, i - 1)
  }

  /** What is found in a filtered history; the index is into that. */
  function Find(h: seq<Event>): Option<Analysis> {
    if |h| < 3 then None
    else if RepeatsPair(h) then Some(Analysis(RepeatedPair, 4, IndexOf(h, Actions(h, 4)[3])))
    else if RepeatsError(h) then Some(Analysis(RepeatedError, 3, IndexOf(h, Actions(h, 4)[|Actions(h, 4)| - 1])))
    else if TalksToItself(h) then Some(Analysis(Monologue, 3, Monologues(h)[2]))
    else if |h| >= 6 && AlternatesPairs(h) then Some(Analysis(AlternatingPairs, 3, IndexOf(h, Actions(h, 6)[5])))
    else if |h| >= 10 && |Condensations(h)| == 10 && ContextLoop(h, Condensations(h), 9).Some? then
      Some(Analysis(ContextWindow, 2, Condensations(h)[ContextLoop(h, Condensations(h), 9).value]))
    else None
  }

  // ---- From the filtered history to the whole one ----

  predicate Looked(e: Event) {
    !IsUserMessage(e) && !e.content.NullAction? && !e.content.NullResult?
  }

  /** The positions of the events that are looked at. */
  function Positions(h: seq<Event>): (r: seq<nat>)
    ensures |r| <= |h|
    ensures forall i | 0 <= i < |r| :: i <= r[i] < |h| && Looked(h[r[i]])
    ensures forall i, j | 0 <= i < j < |r| :: r[i] < r[j]
  {
    if h == [] then []
    else
      var n := |h| - 1;
      assert forall i | 0 <= i < n :: h[..n][i] == h[i];
      Positions(h[..n]) + if Looked(h[n]) then [n] else []
  }

  /** One past the last user message. */
  function AfterLastUserMessage(h: seq<Event>): (k: nat)
    ensures k <= |h|
  {
    if h == [] then 0
    else if IsUserMessage(h[|h| - 1]) then |h|
    else AfterLastUserMessage(h[..|h| - 1])
  }

  /** Where the part of the history that is looked at begins. */
  function LookFrom(history: seq<Event>, headless: bool): (k: nat)
    ensures k <= |history|
  {
    if headless then 0 else AfterLastUserMessage(history)
  }

  function Filtered(h: seq<Event>): seq<Event> {
    Events(h, Positions(h))
  }

  function Analyse(history: seq<Event>, headless: bool): Option<Analysis> {
    var from := LookFrom(history, headless);
    match Find(Filtered(history[from..]))
    case None => None
    case Some(a) => Some(a.(loopStartIdx := a.loopStartIdx + from))
  }

  // ---- The detector ----

  class StuckDetector {
    var stuckAnalysis: Option<Analysis>

    constructor ()
      ensures stuckAnalysis == None
    {
      stuckAnalysis := None;
    }

    /** `is_stuck`; the analysis of a history too short to look at leaves the last one in place. */
    method IsStuck(history: seq<Event>, headless: bool) returns (stuck: bool)
      modifies this
      ensures stuck <==> Analyse(history, headless).Some?
      ensures stuckAnalysis == if stuck then Analyse(history, headless)
        else if |Filtered(history[LookFrom(history, headless)..])| < 3 then old(stuckAnalysis) else None
    {
      hide Filtered, RepeatsPair, RepeatsError, TalksToItself, AlternatesPairs, Actions, Results, Condensations,
           ContextLoop, IndexOf, Monologues;
      var from := 0;
      if !headless {
        from := FindLastUserMessage(history);
      }
      var h := Filtered(history[from..]);
      if |h| < 3 {
        return false;
      }
      Enough(h);
      var a, o := LastActionsAndResults(h, 4);
      if RepeatsPair(h) {
        stuckAnalysis := Some(Analysis(RepeatedPair, 4, IndexOf(h, a[3]) + from));
        return true;
      }
      if RepeatsError(h) {
        stuckAnalysis := Some(Analysis(RepeatedError, 3, IndexOf(h, a[|a| - 1]) + from));
        return true;
      }
      var monologue := IsMonologue(h);
      if monologue {
        stuckAnalysis := Some(Analysis(Monologue, 3, Monologues(h)[2] + from));
        return true;
      }
      if |h| >= 6 && AlternatesPairs(h) {
        var a6, _ := LastActionsAndResults(h, 6);
        stuckAnalysis := Some(Analysis(AlternatingPairs, 3, IndexOf(h, a6[5]) + from));
        return true;
      }
      if |h| >= 10 && |Condensations(h)| == 10 {
        var at := FindContextLoop(h, Condensations(h));
        if at.Some? {
          stuckAnalysis := Some(Analysis(ContextWindow, 2, Condensations(h)[at.value] + from));
          return true;
        }
      }
      stuckAnalysis := None;
      stuck := false;
    }

    method FindLastUserMessage(history: seq<Event>) returns (from: nat)
      ensures from == AfterLastUserMessage(history)
    {
      var i := |history|;
      assert history[..i] == history;
      while i > 0
        invariant 0 <= i <= |history| && AfterLastUserMessage(history) == AfterLastUserMessage(history[..i])
      {
        assert history[..i][..i - 1] == history[..i - 1];
        if IsUserMessage(history[i - 1]) {
          return i;
        }
        i := i - 1;
      }
      from := 0;
    }

    /** The loop that collects the last actions and observations from the end. */
    method LastActionsAndResults(h: seq<Event>, n: nat) returns (a: seq<nat>, o: seq<nat>)
      requires n > 0
      ensures a == Actions(h, n) && o == Results(h, n)
    {
      hide Collected, IsAction;
      a, o := [], [];
      var i := |h|;
      NothingCollected(h, n);
      while i > 0
        invariant 0 <= i <= |h| && |a| <= n && |o| <= n
        invariant Collected(h, i, n, a, o)
      {
        CollectStep(h, i, n, a, o);
        if IsAction(h[i - 1]) {
          if |a| < n {
            a := a + [i - 1];
          }
        } else if |o| < n {
          o := o + [i - 1];
        }
        i := i - 1;
        if |a| == n && |o| == n {
          break;
        }
      }
      AllCollected(h, i, n, a, o);
    }

    method IsMonologue(h: seq<Event>) returns (r: bool)
      ensures r == TalksToItself(h)
    {
      var m := Monologues(h);
      if |m| < 3 {
        return false;
      }
      if h[m[1]].content != h[m[2]].content || h[m[0]].content != h[m[2]].content {
        return false;
      }
      var i := m[2] + 1;
      while i < m[0]
        invariant m[2] < i
        invariant forall j | m[2] < j < i :: j < |h| ==> IsAction(h[j])
      {
        if !IsAction(h[i]) {
          return false;
        }
        i := i + 1;
      }
      r := true;
    }

    method FindContextLoop(h: seq<Event>, c: seq<nat>) returns (at: Option<nat>)
      requires |c| == 10 && forall j | 0 <= j < |c| :: c[j] < |h|
      ensures at == ContextLoop(h, c, 9)
      ensures at.Some? ==> at.value < 10
    {
      var i := 9;
      while i > 0
        invariant 0 <= i <= 9 && ContextLoop(h, c, 9) == ContextLoop(h, c, i)
      {
        var others := false;
        var j := c[i] + 1;
        while j < c[i - 1] && !others
          invariant c[i] < j && (others ==> exists k | c[i] < k < c[i - 1] :: !h[k].content.Condensed?)
          invariant !others ==> forall k | c[i] < k < j :: k < |h| ==> h[k].content.Condensed?
          decreases c[i - 1] - j, !others
        {
          if !h[j].content.Condensed? {
            others := true;
          } else {
            j := j + 1;
          }
        }
        if !others {
          return Some(i);
        }
        i := i - 1;
      }
      at := None;
    }
  }

  /** From the events at `i` and later `a` and `o` have been collected; the rest is still to be looked at. */
  predicate Collected(h: seq<Event>, i: nat, n: nat, a: seq<nat>, o: seq<nat>)
    requires i <= |h| && |a| <= n && |o| <= n
  {
    && Actions(h, n) == a + Actions(h[..i], n - |a|)
    && Results(h, n) == o + Results(h[..i], n - |o|)
  }

  lemma NothingCollected(h: seq<Event>, n: nat)
    ensures Collected(h, |h|, n, [], [])
  {
    hide Actions, Results;
    assert h[..|h|] == h;
    assert [] + Actions(h, n) == Actions(h, n) && [] + Results(h, n) == Results(h, n);
  }

  lemma CollectStep(h: seq<Event>, i: nat, n: nat, a: seq<nat>, o: seq<nat>)
    requires 0 < i <= |h| && |a| <= n && |o| <= n && Collected(h, i, n, a, o)
    ensures Collected(h, i - 1, n, if IsAction(h[i - 1]) && |a| < n then a + [i - 1] else a,
                      if !IsAction(h[i - 1]) && |o| < n then o + [i - 1] else o)
  {
    hide Actions, Results, IsAction;
    ActionsStep(h[..i], n - |a|, a);
    ResultsStep(h[..i], n - |o|, o);
    assert h[..i][..i - 1] == h[..i - 1];
  }

  lemma ActionsStep(h: seq<Event>, n: nat, found: seq<nat>)
    requires h != []
    ensures var k := |h| - 1;
      found + Actions(h, n) ==
        if IsAction(h[k]) && n > 0 then (found + [k]) + Actions(h[..k], n - 1) else found + Actions(h[..k], n)
  {
    LastOnesStep(h, IsAction, n, found);
  }

  lemma ResultsStep(h: seq<Event>, n: nat, found: seq<nat>)
    requires h != []
    ensures var k := |h| - 1;
      found + Results(h, n) ==
        if !IsAction(h[k]) && n > 0 then (found + [k]) + Results(h[..k], n - 1) else found + Results(h[..k], n)
  {
    LastOnesStep(h, (e: Event) => !IsAction(e), n, found);
  }

  lemma LastOnesStep(h: seq<Event>, test: Test, n: nat, found: seq<nat>)
    requires h != []
    ensures var k := |h| - 1;
      found + LastOnes(h, test, n) ==
        if test(h[k]) && n > 0 then (found + [k]) + LastOnes(h[..k], test, n - 1) else found + LastOnes(h[..k], test, n)
  {
    var k := |h| - 1;
    if n > 0 && test(h[k]) {
      assert found + ([k] + LastOnes(h[..k], test, n - 1)) == (found + [k]) + LastOnes(h[..k], test, n - 1);
    }
  }

  lemma AllCollected(h: seq<Event>, i: nat, n: nat, a: seq<nat>, o: seq<nat>)
    requires i <= |h| && |a| <= n && |o| <= n && Collected(h, i, n, a, o)
    requires i == 0 || (|a| == n && |o| == n)
    ensures a == Actions(h, n) && o == Results(h, n)
  {
    assert Actions(h[..i], n - |a|) == [] && Results(h[..i], n - |o|) == [];
  }

  /** Every pattern names enough events. */
  lemma Enough(h: seq<Event>)
    ensures RepeatsPair(h) ==> |Actions(h, 4)| == 4
    ensures RepeatsError(h) ==> 3 <= |Actions(h, 4)| <= 4
    ensures TalksToItself(h) ==> |Monologues(h)| == 3
    ensures AlternatesPairs(h) ==> |Actions(h, 6)| == 6
  {
  }

  // ---- What the patterns say ----

  /** The positions found are the last ones: an event that passes and is not among them comes before
      them all, and there are as many of them as were asked for. */
  lemma {:induction false} LastOnesAreLast(h: seq<Event>, test: Test, n: nat, k: nat)
    requires k < |h| && test(h[k]) && k !in LastOnes(h, test, n)
    ensures var r := LastOnes(h, test, n); |r| == n && forall i | 0 <= i < |r| :: k < r[i]
  {
    if n > 0 && k < |h| - 1 {
      LastOnesAreLast(h[..|h| - 1], test, if test(h[|h| - 1]) then n - 1 else n, k);
    }
  }

  predicate PairwiseSame(h: seq<Event>, at: seq<nat>)
    requires forall i | 0 <= i < |at| :: at[i] < |h|
  {
    forall i, j | 0 <= i < |at| && 0 <= j < |at| :: SameButPid(h[at[i]], h[at[j]])
  }

  /** Comparing with the latest one finds out whether all are pairwise the same. */
  lemma AllSameExactly(h: seq<Event>, at: seq<nat>)
    requires at != [] && forall i | 0 <= i < |at| :: at[i] < |h|
    ensures AllSame(h, at, |at|) <==> PairwiseSame(h, at)
  {
    hide SameButPid;
    if AllSame(h, at, |at|) { ComparedWithOne(h[at[0]], Events(h, at)); }
  }

  /** A repeated pair: the last four actions are pairwise the same, and so are the last four observations. */
  lemma RepeatedPairExactly(h: seq<Event>)
    ensures RepeatsPair(h) <==>
      var a, o := Actions(h, 4), Results(h, 4);
      |a| == 4 && |o| == 4 && PairwiseSame(h, a) && PairwiseSame(h, o)
  {
    hide PairwiseSame, AllSame, Actions, Results;
    var a, o := Actions(h, 4), Results(h, 4);
    if |a| == 4 && |o| == 4 {
      AllSameExactly(h, a);
      AllSameExactly(h, o);
    }
  }

  predicate SameByParity(h: seq<Event>, at: seq<nat>)
    requires forall i | 0 <= i < |at| :: at[i] < |h|
  {
    forall i, j | 0 <= i < |at| && 0 <= j < |at| && i % 2 == j % 2 :: SameButPid(h[at[i]], h[at[j]])
  }

  /** The four comparisons of an alternation find out whether all events of the same parity are pairwise the same. */
  lemma AlternatesExactly(h: seq<Event>, at: seq<nat>)
    requires |at| == 6 && forall i | 0 <= i < |at| :: at[i] < |h|
    ensures Alternates(h, at) <==> SameByParity(h, at)
  {
    hide SameButPid;
    if Alternates(h, at) {
      forall i, j | 0 <= i < 6 && 0 <= j < 6 && i % 2 == j % 2 ensures SameButPid(h[at[i]], h[at[j]]) {
        SameAsFirst(h, at, i);
        SameAsFirst(h, at, j);
        SameIsSymmetric(h[at[i % 2]], h[at[i]]);
        SameIsTransitive(h[at[i]], h[at[i % 2]], h[at[j]]);
      }
    }
  }

  lemma SameAsFirst(h: seq<Event>, at: seq<nat>, i: nat)
    requires |at| == 6 && (forall k | 0 <= k < |at| :: at[k] < |h|) && Alternates(h, at) && i < 6
    ensures SameButPid(h[at[i % 2]], h[at[i]])
  {
    hide SameButPid;
    if i < 2 {
      SameIsSymmetric(h[at[i]], h[at[i + 2]]);
      SameIsTransitive(h[at[i]], h[at[i + 2]], h[at[i]]);
    }
  }

  // ---- Where the loop begins ----

  /** The position of the earliest event of the loop that was found, in the filtered history. */
  function LoopBegins(h: seq<Event>): (k: nat)
    requires Find(h).Some?
    ensures k < |h|
  {
    Enough(h);
    match Find(h).value.loopType
    case RepeatedPair => Actions(h, 4)[3]
    case RepeatedError => Actions(h, 4)[2]
    case Monologue => Monologues(h)[2]
    case AlternatingPairs => Actions(h, 6)[5]
    case ContextWindow => Condensations(h)[ContextLoop(h, Condensations(h), 9).value]
  }

  lemma {:induction false} LatestFirst(h: seq<Event>, test: Test, n: nat)
    ensures forall i, j | 0 <= i < j < |LastOnes(h, test, n)| :: LastOnes(h, test, n)[j] < LastOnes(h, test, n)[i]
  {
    if h != [] && n > 0 {
      var k := |h| - 1;
      LatestFirst(h[..k], test, n - 1);
      LatestFirst(h[..k], test, n);
    }
  }

  lemma ActionsLatestFirst(h: seq<Event>)
    ensures |Actions(h, 4)| == 4 ==> Actions(h, 4)[3] < Actions(h, 4)[2]
  {
    LatestFirst(h, IsAction, 4);
  }

  lemma FoundNotPastLoop(h: seq<Event>)
    requires Find(h).Some?
    ensures 0 <= Find(h).value.loopStartIdx <= LoopBegins(h)
    ensures h[Find(h).value.loopStartIdx].content == h[LoopBegins(h)].content
         || (Find(h).value.loopType.RepeatedError? && |Actions(h, 4)| == 4)
  {
    Enough(h);
    ActionsLatestFirst(h);
    hide Actions, Results, Monologues, Condensations, IndexOf, ContextLoop, RepeatsPair, RepeatsError,
         TalksToItself, AlternatesPairs;
  }

  /** In the whole history, the position of the earliest event of the loop. */
  function LoopBeginsAt(history: seq<Event>, headless: bool): (k: nat)
    requires Analyse(history, headless).Some?
    ensures k < |history|
    ensures var h := Filtered(history[LookFrom(history, headless)..]); history[k] == h[LoopBegins(h)]
  {
    var from := LookFrom(history, headless);
    from + Positions(history[from..])[LoopBegins(Filtered(history[from..]))]
  }

  /** The reported index lies in the history and never after the first event of the loop. */
  lemma StartNotPastLoop(history: seq<Event>, headless: bool)
    requires Analyse(history, headless).Some?
    ensures 0 <= Analyse(history, headless).value.loopStartIdx <= LoopBeginsAt(history, headless) < |history|
  {
    var from := LookFrom(history, headless);
    FoundNotPastLoop(Filtered(history[from..]));
    hide Find, LoopBegins;
  }

  /** `_truncate_memory_to_point`, for any kind of event. */
  function TruncatedTo<T>(history: seq<T>, point: nat): seq<T> {
    if point >= |history| then history else history[..point]
  }

  /** Cutting the analysed history, or one that has grown since, at the reported index makes it
      shorter than the analysed one, and the first event of the loop and all after it are gone. */
  lemma RecoveryDropsTheLoop(history: seq<Event>, more: seq<Event>, headless: bool)
    requires Analyse(history, headless).Some?
    ensures var start := Analyse(history, headless).value.loopStartIdx;
      && 0 <= start
      && |TruncatedTo(history + more, start)| == start < |history|
      && TruncatedTo(history + more, start) <= history[..LoopBeginsAt(history, headless)]
  {
    StartNotPastLoop(history, headless);
    hide Analyse, LoopBeginsAt;
  }

  /** The index of the first event equal to the one at `k` is `k` exactly if no equal one comes earlier. */
  predicate NoEqualBefore(h: seq<Event>, k: nat)
    requires k < |h|
  {
    forall i | 0 <= i < k :: h[i].content != h[k].content
  }

  /** The patterns that report a position found by comparison report the first equal one; the error
      loop, moreover, the fourth action from the end where there is one, which is no part of the loop. */
  predicate LoopFoundByIndex(h: seq<Event>)
    requires Find(h).Some?
  {
    match Find(h).value.loopType
    case Monologue => true
    case ContextWindow => true
    case RepeatedError => |Actions(h, 4)| == 3 && NoEqualBefore(h, LoopBegins(h))
    case RepeatedPair => NoEqualBefore(h, LoopBegins(h))
    case AlternatingPairs => NoEqualBefore(h, LoopBegins(h))
  }

  lemma FoundExactly(h: seq<Event>)
    requires Find(h).Some?
    ensures Find(h).value.loopStartIdx == LoopBegins(h) <==> LoopFoundByIndex(h)
  {
    Enough(h);
    ActionsLatestFirst(h);
    hide Actions, Results, Monologues, Condensations, IndexOf, ContextLoop, RepeatsPair, RepeatsError,
         TalksToItself, AlternatesPairs;
  }

  /** The reported index is the position of the first event of the loop exactly when the events before
      it were all looked at, none of them is equal to it where the pattern searches by comparison, and
      an error loop has no fourth action before it. */
  lemma StartIsLoopExactly(history: seq<Event>, headless: bool)
    requires Analyse(history, headless).Some?
    ensures var from := LookFrom(history, headless);
      var looked := history[from..];
      var h := Filtered(looked);
      Analyse(history, headless).value.loopStartIdx == LoopBeginsAt(history, headless)
      <==> LoopFoundByIndex(h) && forall i | 0 <= i <= LoopBegins(h) :: i < |looked| ==> Looked(looked[i])
  {
    var from := LookFrom(history, headless);
    var looked := history[from..];
    var h := Filtered(looked);
    FoundNotPastLoop(h);
    FoundExactly(h);
    hide Find, LoopBegins, LoopFoundByIndex;
    PositionsDense(looked, LoopBegins(h));
  }

  // ---- Two histories on which the index is early ----

  const SPEECH := Event(1, false, Message("again"))
  const SPOKEN := [Event(0, false, NullAction), SPEECH, SPEECH, SPEECH]

  lemma Takes(h: seq<Event>, e: Event, test: Test, n: nat, rest: seq<nat>)
    requires n > 0 && test(e) && LastOnes(h, test, n - 1) == rest
    ensures LastOnes(h + [e], test, n) == [|h|] + rest
  {
    assert (h + [e])[..|h|] == h;
  }

  lemma Skips(h: seq<Event>, e: Event, test: Test, n: nat, rest: seq<nat>)
    requires !test(e) && LastOnes(h, test, n) == rest
    ensures LastOnes(h + [e], test, n) == rest
  {
    assert (h + [e])[..|h|] == h;
  }

  lemma NoneInNothing(test: Test, n: nat)
    ensures LastOnes([], test, n) == []
  {
  }

  /** An event that was filtered out makes the index of a monologue early. */
  lemma FilteredEventMakesItEarly()
    ensures Analyse(SPOKEN, true) == Some(Analysis(Monologue, 3, 0)) && LoopBeginsAt(SPOKEN, true) == 1
  {
    assert SPOKEN[0..] == SPOKEN;
    assert Positions(SPOKEN) == [1, 2, 3] by { SpokenPositions(); }
    assert Filtered(SPOKEN) == SPEECHES;
    hide SPOKEN, SPEECHES, Find, LoopBegins;
    ThreeSpeeches();
  }

  lemma SpokenPositions()
    ensures Positions(SPOKEN) == [1, 2, 3]
  {
    var a, b, c := SPOKEN[..1], SPOKEN[..2], SPOKEN[..3];
    assert a[..0] == [] && b[..1] == a && c[..2] == b && SPOKEN[..3] == c;
    assert Positions(a) == [];
    assert Positions(b) == [1];
    assert Positions(c) == [1, 2];
  }

  const SPEECHES := [SPEECH, SPEECH, SPEECH]

  lemma ThreeSpeeches()
    ensures Find(SPEECHES) == Some(Analysis(Monologue, 3, 0)) && LoopBegins(SPEECHES) == 0
  {
    SpeechesFound();
    SpeechesMonologue();
    hide SPEECHES, Actions, Results, Monologues, TalksToItself, LastOnes;
  }

  lemma SpeechesFound()
    ensures Actions(SPEECHES, 4) == [2, 1, 0] && Results(SPEECHES, 4) == [] && Monologues(SPEECHES) == [2, 1, 0]
    ensures |SPEECHES| == 3
  {
    SpeechPositions(IsAction, 4);
    SpeechPositions((e: Event) => !IsAction(e), 4);
    SpeechPositions((e: Event) => e.content.Message? && !e.fromUser, 3);
  }

  lemma SpeechesMonologue()
    ensures TalksToItself(SPEECHES)
  {
    SpeechesFound();
    hide Monologues;
  }

  lemma SpeechPositions(test: Test, n: nat)
    requires n >= 3
    ensures LastOnes(SPEECHES, test, n) == if test(SPEECH) then [2, 1, 0] else []
  {
    hide SPEECH;
    if test(SPEECH) { AllTaken(SPEECH, test, n); } else { AllSkipped(SPEECH, test, n); }
  }

  lemma AllTaken(e: Event, test: Test, n: nat)
    requires n >= 3 && test(e)
    ensures LastOnes([e, e, e], test, n) == [2, 1, 0]
  {
    assert [] + [e] == [e] && [e] + [e] + [e] == [e, e, e];
    assert [0] + [] == [0] && [1] + [0] == [1, 0] && [2] + [1, 0] == [2, 1, 0];
    hide LastOnes;
    NoneInNothing(test, n - 3);
    Takes([], e, test, n - 2, []);
    Takes([e], e, test, n - 1, [0]);
    Takes([e] + [e], e, test, n, [1, 0]);
  }

  lemma AllSkipped(e: Event, test: Test, n: nat)
    requires !test(e)
    ensures LastOnes([e, e, e], test, n) == []
  {
    assert [] + [e] == [e] && [e] + [e] + [e] == [e, e, e];
    hide LastOnes;
    NoneInNothing(test, n);
    Skips([], e, test, n, []);
    Skips([e], e, test, n, []);
    Skips([e] + [e], e, test, n, []);
  }

  const FIRST := Event(0, false, OtherAction("look"))
  const TRIED := Event(1, false, OtherAction("try"))
  const FAILED := Event(2, false, ErrorResult("no"))
  const FAILURES := [FIRST, TRIED, FAILED, TRIED, FAILED, TRIED, FAILED]

  /** So does a fourth action before an error loop, though nothing is filtered out and nothing before
      the loop is equal to its first event. */
  lemma FourthActionMakesItEarly()
    ensures Analyse(FAILURES, true) == Some(Analysis(RepeatedError, 3, 0)) && LoopBeginsAt(FAILURES, true) == 1
    ensures (forall i | 0 <= i < |FAILURES| :: Looked(FAILURES[i])) && NoEqualBefore(FAILURES, 1)
  {
    assert FAILURES[0..] == FAILURES;
    AllPositions(FAILURES);
    hide FAILURES, Find, LoopBegins;
    assert Filtered(FAILURES) == FAILURES;
    FailureFound();
  }

  lemma FailureFound()
    ensures Find(FAILURES) == Some(Analysis(RepeatedError, 3, 0)) && LoopBegins(FAILURES) == 1
  {
    FailurePositions();
    FailureIsError();
    hide FAILURES, RepeatsError, Actions, Results, IndexFrom;
  }

  lemma FailureIsError()
    ensures RepeatsError(FAILURES) && |FAILURES| == 7
  {
    FailurePositions();
    hide Actions, Results;
    assert SameButPid(TRIED, TRIED);
  }

  lemma {:induction false} AllPositions(h: seq<Event>)
    requires forall i | 0 <= i < |h| :: Looked(h[i])
    ensures |Positions(h)| == |h| && forall i | 0 <= i < |h| :: Positions(h)[i] == i
  {
    if h != [] { AllPositions(h[..|h| - 1]); }
  }

  lemma FailurePositions()
    ensures Actions(FAILURES, 4) == [5, 3, 1, 0] && Results(FAILURES, 4) == [6, 4, 2]
  {
    FailureParts();
    FailedActions();
    FailedResults();
  }

  const TRIED_ONCE := [FIRST, TRIED, FAILED]
  const TRIED_TWICE := [FIRST, TRIED, FAILED, TRIED, FAILED]

  lemma FailureParts()
    ensures [] + [FIRST] == [FIRST] && [FIRST] + [TRIED] + [FAILED] == TRIED_ONCE
    ensures TRIED_ONCE + [TRIED] + [FAILED] == TRIED_TWICE && TRIED_TWICE + [TRIED] + [FAILED] == FAILURES
    ensures |[FIRST]| == 1 && |TRIED_ONCE| == 3 && |TRIED_TWICE| == 5
    ensures IsAction(FIRST) && IsAction(TRIED) && !IsAction(FAILED)
  {
  }

  lemma FailedActions()
    ensures LastOnes(FAILURES, IsAction, 4) == [5, 3, 1, 0]
  {
    FailureParts();
    hide LastOnes, FIRST, TRIED, FAILED, TRIED_ONCE, TRIED_TWICE, FAILURES, IsAction;
    NoneInNothing(IsAction, 0);
    Takes([], FIRST, IsAction, 1, []);
    assert [0] + [] == [0];
    Takes([FIRST], TRIED, IsAction, 2, [0]);
    Skips([FIRST] + [TRIED], FAILED, IsAction, 2, [1, 0]);
    Takes(TRIED_ONCE, TRIED, IsAction, 3, [1, 0]);
    Skips(TRIED_ONCE + [TRIED], FAILED, IsAction, 3, [3, 1, 0]);
    Takes(TRIED_TWICE, TRIED, IsAction, 4, [3, 1, 0]);
    Skips(TRIED_TWICE + [TRIED], FAILED, IsAction, 4, [5, 3, 1, 0]);
  }

  lemma FailedResults()
    ensures Results(FAILURES, 4) == [6, 4, 2]
  {
    var test: Test := (e: Event) => !IsAction(e);
    FailureParts();
    hide LastOnes, FIRST, TRIED, FAILED, TRIED_ONCE, TRIED_TWICE, FAILURES, IsAction;
    FailedBefore(test);
    assert [6] + [4, 2] == [6, 4, 2];
    Skips(TRIED_TWICE, TRIED, test, 3, [4, 2]);
    Takes(TRIED_TWICE + [TRIED], FAILED, test, 4, [4, 2]);
  }

  lemma FailedBefore(test: Test)
    requires !test(FIRST) && !test(TRIED) && test(FAILED)
    ensures LastOnes(TRIED_ONCE, test, 2) == [2] && LastOnes(TRIED_TWICE, test, 3) == [4, 2]
  {
    FailureParts();
    hide LastOnes, FIRST, TRIED, FAILED, TRIED_ONCE, TRIED_TWICE, FAILURES, IsAction;
    NoneInNothing(test, 1);
    Skips([], FIRST, test, 1, []);
    Skips([FIRST], TRIED, test, 1, []);
    Takes([FIRST] + [TRIED], FAILED, test, 2, []);
    assert [2] + [] == [2] && [4] + [2] == [4, 2];
    Skips(TRIED_ONCE, TRIED, test, 2, [2]);
    Takes(TRIED_ONCE + [TRIED], FAILED, test, 3, [2]);
  }

  lemma {:induction false} PositionsDense(h: seq<Event>, k: nat)
    requires k < |Positions(h)|
    ensures Positions(h)[k] == k <==> forall i | 0 <= i <= k :: i < |h| ==> Looked(h[i])
  {
    var p := Positions(h);
    if forall i | 0 <= i <= k :: i < |h| ==> Looked(h[i]) {
      AllLooked(h, k);
    } else {
      var i :| 0 <= i <= k && i < |h| && !Looked(h[i]);
      if p[k] == k { DenseBelow(p, k, i); }
    }
  }

  /** Increasing positions at or above their index that meet it once have met it before. */
  lemma {:induction false} DenseBelow(p: seq<nat>, k: nat, i: nat)
    requires i <= k < |p| && p[k] == k && (forall j | 0 <= j < |p| :: j <= p[j])
    requires forall j, l | 0 <= j < l < |p| :: p[j] < p[l]
    ensures p[i] == i
    decreases k
  {
    if i < k {
      assert p[k - 1] < p[k];
      DenseBelow(p, k - 1, i);
    }
  }

  lemma {:induction false} AllLooked(h: seq<Event>, k: nat)
    requires k < |Positions(h)| && forall i | 0 <= i <= k :: i < |h| ==> Looked(h[i])
    ensures Positions(h)[k] == k
  {
    var n := |h| - 1;
    if k < |Positions(h[..n])| {
      AllLooked(h[..n], k);
    } else {
      assert Positions(h)[k] == n;
      if k < n {
        CountLooked(h[..n], k);
      }
    }
  }

  lemma {:induction false} CountLooked(h: seq<Event>, k: nat)
    requires k < |h| && forall i | 0 <= i <= k :: Looked(h[i])
    ensures |Positions(h)| > k
  {
    var n := |h| - 1;
    if k < n {
      CountLooked(h[..n], k);
    } else if n > 0 {
      CountLooked(h[..n], n - 1);
    }
  }
}
