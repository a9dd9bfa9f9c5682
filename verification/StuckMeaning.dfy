/** What loop detection finds, said on positions of the history: which events are looked at, when two
    count as the same, and for each of the five patterns exactly when it is found and what is reported. */
module StuckMeaning {
  import opened Wrappers
  import opened Stuck
  import Strings

  // ---- Which events are looked at ----

  /** The event is neither a message of the user nor empty and, unless the session is headless, no
      message of the user comes after it. */
  predicate Counts(history: seq<Event>, headless: bool, k: nat)
    requires k < |history|
  {
    && !(history[k].content.Message? && history[k].fromUser)
    && !history[k].content.NullAction? && !history[k].content.NullResult?
    && (headless || forall j | k < j < |history| :: !(history[j].content.Message? && history[j].fromUser))
  }

  /** The positions are increasing, and an event is looked at exactly if it counts. */
  lemma LookedAtExactly(history: seq<Event>, headless: bool) returns (at: seq<nat>)
    ensures var h := Filtered(history[LookFrom(history, headless)..]);
      |at| == |h| && forall i | 0 <= i < |at| :: at[i] < |history| && h[i] == history[at[i]]
    ensures forall i, j | 0 <= i < j < |at| :: at[i] < at[j]
    ensures forall k: nat | k < |history| :: k in at <==> Counts(history, headless, k)
  {
    var from := LookFrom(history, headless);
    var rest := history[from..];
    var p := Positions(rest);
    at := seq(|p|, i requires 0 <= i < |p| => from + p[i]);
    hide Positions, LookFrom, Counts;
    forall k: nat | k < |history| ensures k in at <==> Counts(history, headless, k) {
      CountsExactly(history, headless, k);
      ShiftedIn(p, from, at, k);
    }
  }

  lemma CountsExactly(history: seq<Event>, headless: bool, k: nat)
    requires k < |history|
    ensures var from := LookFrom(history, headless);
      Counts(history, headless, k) <==> k >= from && k - from in Positions(history[from..])
  {
    var from := LookFrom(history, headless);
    LastUserMessage(history);
    if k >= from { PositionsComplete(history[from..], k - from); }
    hide Positions, AfterLastUserMessage;
  }

  lemma ShiftedIn(p: seq<nat>, from: nat, at: seq<nat>, k: nat)
    requires |at| == |p| && forall i | 0 <= i < |p| :: at[i] == from + p[i]
    ensures k in at <==> k >= from && k - from in p
  {
    if k >= from && k - from in p { var i :| 0 <= i < |p| && p[i] == k - from; assert at[i] == k; }
  }

  lemma {:induction false} LastUserMessage(history: seq<Event>)
    ensures var k := AfterLastUserMessage(history);
      && (forall j | k <= j < |history| :: !(history[j].content.Message? && history[j].fromUser))
      && (k > 0 ==> history[k - 1].content.Message? && history[k - 1].fromUser)
  {
    if history != [] && !IsUserMessage(history[|history| - 1]) { LastUserMessage(history[..|history| - 1]); }
  }

  lemma {:induction false} PositionsComplete(h: seq<Event>, k: nat)
    requires k < |h|
    ensures k in Positions(h) <==> Looked(h[k])
  {
    if k < |h| - 1 { PositionsComplete(h[..|h| - 1], k); }
  }

  // ---- When two events count as the same ----

  function Joined(lines: seq<string>): string
    requires lines != []
  {
    if |lines| == 1 then lines[0] else lines[0] + "\n" + Joined(lines[1..])
  }

  /** The lines are the text cut at its line ends, and only there. */
  lemma {:induction false} LinesExactly(s: string)
    ensures Joined(Lines(s)) == s
    ensures forall i | 0 <= i < |Lines(s)| :: '\n' !in Lines(s)[i]
    decreases |s|
  {
    match Strings.Cut(s, "\n")
    case None => NotIn(s);
    case Some((b, a)) =>
      NotIn(b);
      LinesExactly(a);
      assert Lines(s)[1..] == Lines(a);
  }

  lemma {:induction false} NotIn(s: string)
    requires !Strings.Contains(s, "\n")
    ensures '\n' !in s
  {
    if s != "" {
      assert s[0] != '\n' by { assert s == [s[0]] + s[1..]; }
      NotIn(s[1..]);
    }
  }

  /** Two edits of a file by a cell are the same if both have three lines and the first three agree; two
      results of commands if command and exit code agree; any others if everything Python compares does. */
  lemma SameExactly(a: Event, b: Event)
    ensures a.content.Shell? && b.content.Shell? ==>
      (SameButPid(a, b) <==> a.content.command == b.content.command && a.content.exitCode == b.content.exitCode)
    ensures !(a.content.Shell? && b.content.Shell?) && !(EditsFile(a) && EditsFile(b)) ==>
      (SameButPid(a, b) <==> a.content == b.content)
    ensures EditsFile(a) && EditsFile(b) ==>
      (SameButPid(a, b) <==>
         var l, m := Lines(a.content.code), Lines(b.content.code);
         |l| >= 3 && |m| >= 3 && l[0] == m[0] && l[1] == m[1] && l[2] == m[2])
  {
    if EditsFile(a) && EditsFile(b) {
      var l, m := Lines(a.content.code), Lines(b.content.code);
      assert |l| >= 3 ==> FirstThree(a.content.code) == [l[0], l[1], l[2]];
      assert |m| >= 3 ==> FirstThree(b.content.code) == [m[0], m[1], m[2]];
      assert |m| < 3 ==> |FirstThree(b.content.code)| < 3;
    }
  }

  predicate EditsFile(e: Event) {
    e.content.Cell? && Strings.Contains(e.content.code, "edit_file_by_replace(")
  }

  // ---- The last events of a kind ----

  predicate Acts(e: Event) {
    e.content.Message? || e.content.Cell? || e.content.OtherAction? || e.content.NullAction?
  }

  predicate Observes(e: Event) {
    || e.content.Shell? || e.content.CellResult? || e.content.ErrorResult? || e.content.Condensed?
    || e.content.OtherResult? || e.content.NullResult?
  }

  predicate Speaks(e: Event) {
    e.content.Message? && !e.fromUser
  }

  predicate Condenses(e: Event) {
    e.content.Condensed?
  }

  /** `at` are the positions of the last events that pass, latest first. */
  predicate AreLast(h: seq<Event>, at: seq<nat>, test: Test) {
    && (forall i | 0 <= i < |at| :: at[i] < |h| && test(h[at[i]]))
    && (forall i, j | 0 <= i < j < |at| :: at[j] < at[i])
    && forall k | 0 <= k < |h| && test(h[k]) :: k in at || forall i | 0 <= i < |at| :: k < at[i]
  }

  lemma FoundAreLast(h: seq<Event>, test: Test, same: Test, n: nat)
    requires forall e :: test(e) == same(e)
    ensures AreLast(h, LastOnes(h, test, n), same)
  {
    LatestFirst(h, test, n);
    forall k | 0 <= k < |h| && test(h[k]) && k !in LastOnes(h, test, n)
      ensures forall i | 0 <= i < |LastOnes(h, test, n)| :: k < LastOnes(h, test, n)[i]
    {
      LastOnesAreLast(h, test, n, k);
    }
  }

  /** So many last ones are found if there are so many. */
  lemma {:induction false} LastAreFound(h: seq<Event>, test: Test, same: Test, at: seq<nat>)
    requires (forall e :: test(e) == same(e)) && AreLast(h, at, same)
    ensures LastOnes(h, test, |at|) == at
    decreases |h|
  {
    if at != [] {
      var n := |h| - 1;
      assert at[0] <= n;
      hide AreLast;
      if test(h[n]) {
        LatestIsFirst(h, at, same);
        assert at == [n] + at[1..];
        LastAreFound(h[..n], test, same, at[1..]);
      } else {
        LatestIsNot(h, at, same);
        LastAreFound(h[..n], test, same, at);
      }
    }
  }

  lemma LatestIsNot(h: seq<Event>, at: seq<nat>, test: Test)
    requires h != [] && AreLast(h, at, test) && !test(h[|h| - 1])
    ensures AreLast(h[..|h| - 1], at, test)
  {
    var n := |h| - 1;
    forall i | 0 <= i < |at| ensures at[i] < n { assert at[i] != n; }
    assert forall k | 0 <= k < n :: h[..n][k] == h[k];
  }

  lemma LatestIsFirst(h: seq<Event>, at: seq<nat>, test: Test)
    requires h != [] && at != [] && AreLast(h, at, test) && test(h[|h| - 1])
    ensures at[0] == |h| - 1 && AreLast(h[..|h| - 1], at[1..], test)
  {
    var n := |h| - 1;
    assert n in at by { assert at[0] <= n; }
    assert forall i | 0 < i < |at| :: at[i] < at[0];
    forall j | 0 < j < |at| ensures at[j] in at[1..] { assert at[1..][j - 1] == at[j]; }
    forall k | 0 <= k < n && test(h[..n][k]) && k !in at[1..] ensures forall j | 0 <= j < |at| - 1 :: k < at[1..][j] {
      assert test(h[k]) && k !in at;
    }
  }

  lemma {:induction false} FewerOnes(h: seq<Event>, test: Test, n: nat, m: nat)
    requires n <= m
    ensures LastOnes(h, test, n) <= LastOnes(h, test, m)
    ensures |LastOnes(h, test, n)| == if |LastOnes(h, test, m)| < n then |LastOnes(h, test, m)| else n
  {
    if h != [] && n > 0 {
      var k := |h| - 1;
      FewerOnes(h[..k], test, n - 1, m - 1);
      FewerOnes(h[..k], test, n, m);
    }
  }

  // ---- The five patterns ----

  predicate AllTheSame(h: seq<Event>, at: seq<nat>)
    requires forall i | 0 <= i < |at| :: at[i] < |h|
  {
    forall i, j | 0 <= i < |at| && 0 <= j < |at| :: SameButPid(h[at[i]], h[at[j]])
  }

  predicate Within(h: seq<Event>, at: seq<nat>) {
    forall i | 0 <= i < |at| :: at[i] < |h|
  }

  /** The last four actions are all the same, and so are the last four observations. */
  predicate PairLoop(h: seq<Event>, a: seq<nat>, o: seq<nat>) {
    && |a| == 4 && |o| == 4 && Within(h, a) && Within(h, o)
    && AreLast(h, a, Acts) && AreLast(h, o, Observes) && AllTheSame(h, a) && AllTheSame(h, o)
  }

  function LinesOf(e: Event): seq<string>
    requires e.content.CellResult?
  {
    Lines(Strings.Strip(e.content.text))
  }

  /** The text ends with the line of the error and the two lines that the system adds. */
  predicate EndsInError(l: seq<string>, message: string) {
    && |l| >= 3 && Strings.Contains(l[|l| - 3], message)
    && "[Jupyter current working directory:" <= l[|l| - 2] && "[Jupyter Python interpreter:" <= l[|l| - 1]
  }

  /** All three show the same line with an unterminated string. */
  predicate SameUnterminated(x: Event, y: Event, z: Event)
    requires x.content.CellResult? && y.content.CellResult? && z.content.CellResult?
  {
    var message := "SyntaxError: unterminated string literal (detected at line";
    var l, m, n := LinesOf(x), LinesOf(y), LinesOf(z);
    && EndsInError(l, message) && EndsInError(m, message) && EndsInError(n, message)
    && l[|l| - 3] == m[|m| - 3] == n[|n| - 3]
  }

  predicate ShowsSyntaxError(l: seq<string>, message: string) {
    |l| >= 6 && "Cell In[1], line" <= Strings.Strip(l[0]) && EndsInError(l, message)
  }

  /** All three have at least six lines, the same first one and the same line with the error. */
  predicate SameSyntaxError(x: Event, y: Event, z: Event, message: string)
    requires x.content.CellResult? && y.content.CellResult? && z.content.CellResult?
  {
    var l, m, n := LinesOf(x), LinesOf(y), LinesOf(z);
    && ShowsSyntaxError(l, message) && ShowsSyntaxError(m, message) && ShowsSyntaxError(n, message)
    && Strings.Strip(l[0]) == Strings.Strip(m[0]) == Strings.Strip(n[0]) && l[|l| - 3] == m[|m| - 3] == n[|n| - 3]
  }

  predicate SameErrors(x: Event, y: Event, z: Event) {
    || (x.content.ErrorResult? && y.content.ErrorResult? && z.content.ErrorResult?)
    || (x.content.CellResult? && y.content.CellResult? && z.content.CellResult?
        && (|| SameUnterminated(x, y, z)
            || SameSyntaxError(x, y, z, "SyntaxError: invalid syntax. Perhaps you forgot a comma?")
            || SameSyntaxError(x, y, z, "SyntaxError: incomplete input")))
  }

  /** The last three actions are all the same, and the last three observations are all errors, or all
      show the same syntax error of a cell. */
  predicate ErrorLoop(h: seq<Event>, a: seq<nat>, o: seq<nat>) {
    && |a| == 3 && |o| == 3 && Within(h, a) && Within(h, o)
    && AreLast(h, a, Acts) && AreLast(h, o, Observes) && AllTheSame(h, a)
    && SameErrors(h[o[0]], h[o[1]], h[o[2]])
  }

  /** The last three messages of the agent are equal, with only actions from the first to the last. */
  predicate MonologueLoop(h: seq<Event>, m: seq<nat>) {
    && |m| == 3 && Within(h, m) && AreLast(h, m, Speaks)
    && h[m[0]].content == h[m[1]].content == h[m[2]].content
    && forall i | m[2] <= i <= m[0] :: Acts(h[i])
  }

  /** Of the last six actions every other one is the same, and of the last six observations too. */
  predicate AlternatingLoop(h: seq<Event>, a: seq<nat>, o: seq<nat>) {
    && |a| == 6 && |o| == 6 && Within(h, a) && Within(h, o)
    && AreLast(h, a, Acts) && AreLast(h, o, Observes)
    && AllTheSame(h, [a[0], a[2], a[4]]) && AllTheSame(h, [a[1], a[3], a[5]])
    && AllTheSame(h, [o[0], o[2], o[4]]) && AllTheSame(h, [o[1], o[3], o[5]])
  }

  /** Of the last ten condensations, the one at `c[i]` is directly followed by another; `i` is the earliest such. */
  predicate CondensationLoop(h: seq<Event>, c: seq<nat>, i: nat) {
    && |c| == 10 && 0 < i < 10 && Within(h, c) && AreLast(h, c, Condenses)
    && c[i - 1] == c[i] + 1 && forall j | i < j < 10 :: c[j - 1] != c[j] + 1
  }

  // ---- Each is found exactly when it is there ----

  lemma LastActions(h: seq<Event>, n: nat, a: seq<nat>)
    ensures Within(h, Actions(h, n)) && AreLast(h, Actions(h, n), Acts)
    ensures |a| == n && AreLast(h, a, Acts) ==> a == Actions(h, n)
  {
    hide AreLast;
    FoundAreLast(h, IsAction, Acts, n);
    if |a| == n && AreLast(h, a, Acts) { LastAreFound(h, IsAction, Acts, a); }
  }

  lemma LastResults(h: seq<Event>, n: nat, o: seq<nat>)
    ensures Within(h, Results(h, n)) && AreLast(h, Results(h, n), Observes)
    ensures |o| == n && AreLast(h, o, Observes) ==> o == Results(h, n)
  {
    var test: Test := (e: Event) => !IsAction(e);
    assert Results(h, n) == LastOnes(h, test, n);
    hide AreLast;
    FoundAreLast(h, test, Observes, n);
    if |o| == n && AreLast(h, o, Observes) { LastAreFound(h, test, Observes, o); }
  }

  lemma PairExactly(h: seq<Event>, a: seq<nat>, o: seq<nat>)
    ensures PairLoop(h, a, o) <==> RepeatsPair(h) && a == Actions(h, 4) && o == Results(h, 4)
  {
    hide AreLast, Actions, Results, SameButPid, RepeatsPair;
    LastActions(h, 4, a);
    LastResults(h, 4, o);
    RepeatedPairExactly(h);
  }

  lemma FirstThreeOf(h: seq<Event>)
    ensures |Actions(h, 4)| >= 3 ==> Actions(h, 3) == Actions(h, 4)[..3]
    ensures |Results(h, 4)| >= 3 ==> Results(h, 3) == Results(h, 4)[..3]
    ensures |Actions(h, 4)| < 3 ==> |Actions(h, 3)| < 3
    ensures |Results(h, 4)| < 3 ==> |Results(h, 3)| < 3
  {
    FewerOnes(h, IsAction, 3, 4);
    FewerOnes(h, (e: Event) => !IsAction(e), 3, 4);
  }

  /** The comparisons of three results are those of the text. */
  lemma SyntaxErrorsExactly(es: seq<Event>)
    requires |es| == 3 && forall i | 0 <= i < 3 :: es[i].content.CellResult?
    ensures SyntaxErrorLoop(es) <==>
      || SameUnterminated(es[0], es[1], es[2])
      || SameSyntaxError(es[0], es[1], es[2], "SyntaxError: invalid syntax. Perhaps you forgot a comma?")
      || SameSyntaxError(es[0], es[1], es[2], "SyntaxError: incomplete input")
  {
    hide SameLineError, SameInvalidSyntax, SameUnterminated, SameSyntaxError;
    LineErrorExactly(es);
    InvalidSyntaxExactly(es, FORGOT_COMMA);
    InvalidSyntaxExactly(es, INCOMPLETE);
  }

  lemma LineErrorExactly(es: seq<Event>)
    requires |es| == 3 && forall i | 0 <= i < 3 :: es[i].content.CellResult?
    ensures SameLineError(es, UNTERMINATED) <==> SameUnterminated(es[0], es[1], es[2])
  {
    hide Lines, Strings.Strip, Strings.Contains;
  }

  lemma InvalidSyntaxExactly(es: seq<Event>, message: string)
    requires |es| == 3 && forall i | 0 <= i < 3 :: es[i].content.CellResult?
    ensures SameInvalidSyntax(es, message) <==> SameSyntaxError(es[0], es[1], es[2], message)
  {
    hide Lines, Strings.Strip, Strings.Contains;
  }

  lemma ErrorExactly(h: seq<Event>, a: seq<nat>, o: seq<nat>)
    ensures ErrorLoop(h, a, o) <==> RepeatsError(h) && a == Actions(h, 3) && o == Results(h, 3)
  {
    hide AreLast, Actions, Results, SameButPid, SyntaxErrorLoop, SameUnterminated, SameSyntaxError;
    LastActions(h, 3, a);
    LastResults(h, 3, o);
    FirstThreeOf(h);
    var a4, o4 := Actions(h, 4), Results(h, 4);
    if |a4| >= 3 && |o4| >= 3 {
      AllSameExactly(h, a4[..3]);
      SameThree(h, a4);
      if forall i | 0 <= i < 3 :: h[o4[i]].content.CellResult? { SyntaxErrorsExactly(Events(h, o4)[..3]); }
    }
  }

  lemma SameThree(h: seq<Event>, a: seq<nat>)
    requires |a| >= 3 && Within(h, a)
    ensures AllSame(h, a, 3) <==> AllSame(h, a[..3], 3)
  {
    hide SameButPid;
  }

  /** A repeated error is found exactly if the last three actions are all the same, and the last three
      observations are all errors or all show the same one of the three syntax errors. */
  lemma RepeatedErrorExactly(h: seq<Event>)
    ensures RepeatsError(h) <==> exists a, o :: ErrorLoop(h, a, o)
  {
    hide ErrorLoop, RepeatsError;
    ErrorExactly(h, Actions(h, 3), Results(h, 3));
    if a, o :| ErrorLoop(h, a, o) { ErrorExactly(h, a, o); }
  }

  lemma LastSpeeches(h: seq<Event>, m: seq<nat>)
    ensures Within(h, Monologues(h)) && AreLast(h, Monologues(h), Speaks)
    ensures |m| == 3 && AreLast(h, m, Speaks) ==> m == Monologues(h)
  {
    var test: Test := (e: Event) => e.content.Message? && !e.fromUser;
    assert Monologues(h) == LastOnes(h, test, 3);
    hide AreLast;
    FoundAreLast(h, test, Speaks, 3);
    if |m| == 3 && AreLast(h, m, Speaks) { LastAreFound(h, test, Speaks, m); }
  }

  lemma MonologueExactly(h: seq<Event>, m: seq<nat>)
    ensures MonologueLoop(h, m) <==> TalksToItself(h) && m == Monologues(h)
  {
    hide Monologues;
    LastSpeeches(h, m);
    LastSpeeches(h, Monologues(h));
  }

  lemma ByParity(h: seq<Event>, at: seq<nat>)
    requires |at| == 6 && Within(h, at)
    ensures Alternates(h, at) <==> AllTheSame(h, [at[0], at[2], at[4]]) && AllTheSame(h, [at[1], at[3], at[5]])
  {
    hide SameButPid;
    AlternatesExactly(h, at);
    var even, odd := [at[0], at[2], at[4]], [at[1], at[3], at[5]];
    if AllTheSame(h, even) && AllTheSame(h, odd) {
      assert SameButPid(h[even[0]], h[even[1]]) && SameButPid(h[even[0]], h[even[2]]);
      assert SameButPid(h[odd[0]], h[odd[1]]) && SameButPid(h[odd[0]], h[odd[2]]);
    }
    if SameByParity(h, at) {
      forall i, j | 0 <= i < 3 && 0 <= j < 3
        ensures SameButPid(h[even[i]], h[even[j]]) && SameButPid(h[odd[i]], h[odd[j]])
      {
        assert even[i] == at[2 * i] && even[j] == at[2 * j] && odd[i] == at[2 * i + 1] && odd[j] == at[2 * j + 1];
      }
    }
  }

  lemma AlternatingExactly(h: seq<Event>, a: seq<nat>, o: seq<nat>)
    ensures AlternatingLoop(h, a, o) <==> AlternatesPairs(h) && a == Actions(h, 6) && o == Results(h, 6)
  {
    hide AreLast, Actions, Results, SameButPid, AllTheSame, Alternates;
    LastActions(h, 6, a);
    LastResults(h, 6, o);
    if |a| == 6 && Within(h, a) { ByParity(h, a); }
    if |o| == 6 && Within(h, o) { ByParity(h, o); }
  }

  lemma LastCondensations(h: seq<Event>, c: seq<nat>)
    ensures Within(h, Condensations(h)) && AreLast(h, Condensations(h), Condenses)
    ensures |c| == 10 && AreLast(h, c, Condenses) ==> c == Condensations(h)
  {
    var test: Test := (e: Event) => e.content.Condensed?;
    assert Condensations(h) == LastOnes(h, test, 10);
    hide AreLast;
    FoundAreLast(h, test, Condenses, 10);
    if |c| == 10 && AreLast(h, c, Condenses) { LastAreFound(h, test, Condenses, c); }
  }

  /** Between two neighbouring condensations there is never another: nothing else is in between exactly
      if they stand side by side. */
  lemma NeighboursExactly(h: seq<Event>, c: seq<nat>, i: nat)
    requires 0 < i < |c| && Within(h, c) && AreLast(h, c, Condenses)
    ensures (forall j | c[i] < j < c[i - 1] :: j < |h| ==> h[j].content.Condensed?) <==> c[i - 1] == c[i] + 1
  {
    assert c[i] < c[i - 1];
    var j := c[i] + 1;
    if j < c[i - 1] && h[j].content.Condensed? {
      assert Condenses(h[j]);
      var k :| 0 <= k < |c| && c[k] == j;
      assert false;
    }
  }

  lemma {:induction false} EarliestPair(h: seq<Event>, c: seq<nat>, n: nat)
    requires n < |c| && Within(h, c) && AreLast(h, c, Condenses)
    ensures var r := ContextLoop(h, c, n);
      && (r.Some? ==>
            && 0 < r.value <= n && c[r.value - 1] == c[r.value] + 1
            && forall j | r.value < j <= n :: c[j - 1] != c[j] + 1)
      && (r.None? ==> forall j | 0 < j <= n :: c[j - 1] != c[j] + 1)
  {
    hide AreLast;
    if n > 0 {
      NeighboursExactly(h, c, n);
      EarliestPair(h, c, n - 1);
    }
  }

  lemma CondensationsExactly(h: seq<Event>, c: seq<nat>, i: nat)
    ensures CondensationLoop(h, c, i) <==>
      |Condensations(h)| == 10 && c == Condensations(h) && ContextLoop(h, c, 9) == Some(i)
  {
    hide AreLast, ContextLoop, Condensations;
    LastCondensations(h, c);
    if |c| == 10 && Within(h, c) && AreLast(h, c, Condenses) { EarliestPair(h, c, 9); }
  }

  // ---- What is found, and what is reported ----

  ghost predicate HasPairLoop(h: seq<Event>) {
    exists a, o :: PairLoop(h, a, o)
  }

  ghost predicate HasErrorLoop(h: seq<Event>) {
    exists a, o :: ErrorLoop(h, a, o)
  }

  ghost predicate HasMonologue(h: seq<Event>) {
    exists m :: MonologueLoop(h, m)
  }

  ghost predicate HasAlternatingLoop(h: seq<Event>) {
    exists a, o :: AlternatingLoop(h, a, o)
  }

  ghost predicate HasCondensationLoop(h: seq<Event>) {
    exists c, i :: CondensationLoop(h, c, i)
  }

  lemma HavesExactly(h: seq<Event>)
    ensures HasPairLoop(h) <==> RepeatsPair(h)
    ensures HasErrorLoop(h) <==> RepeatsError(h)
    ensures HasMonologue(h) <==> TalksToItself(h)
    ensures HasAlternatingLoop(h) <==> AlternatesPairs(h)
    ensures HasCondensationLoop(h) <==> |Condensations(h)| == 10 && ContextLoop(h, Condensations(h), 9).Some?
  {
    hide PairLoop, ErrorLoop, MonologueLoop, AlternatingLoop, CondensationLoop, RepeatsPair, RepeatsError,
         TalksToItself, AlternatesPairs, Actions, Results, Monologues, Condensations, ContextLoop;
    PairExactly(h, Actions(h, 4), Results(h, 4));
    if a, o :| PairLoop(h, a, o) { PairExactly(h, a, o); }
    RepeatedErrorExactly(h);
    MonologueExactly(h, Monologues(h));
    if m :| MonologueLoop(h, m) { MonologueExactly(h, m); }
    AlternatingExactly(h, Actions(h, 6), Results(h, 6));
    if a, o :| AlternatingLoop(h, a, o) { AlternatingExactly(h, a, o); }
    if |Condensations(h)| == 10 && ContextLoop(h, Condensations(h), 9).Some? {
      CondensationsExactly(h, Condensations(h), ContextLoop(h, Condensations(h), 9).value);
    }
    if c, i: nat :| CondensationLoop(h, c, i) { CondensationsExactly(h, c, i); }
  }

  lemma LongEnough(h: seq<Event>)
    ensures RepeatsPair(h) || RepeatsError(h) || TalksToItself(h) ==> |h| >= 3
    ensures AlternatesPairs(h) ==> |h| >= 6
    ensures |Condensations(h)| == 10 ==> |h| >= 10
  {
    hide SameButPid;
    OnesFit(h, IsAction, 4);
    OnesFit(h, IsAction, 6);
    OnesFit(h, (e: Event) => e.content.Message? && !e.fromUser, 3);
    OnesFit(h, (e: Event) => e.content.Condensed?, 10);
  }

  lemma {:induction false} OnesFit(h: seq<Event>, test: Test, n: nat)
    ensures |LastOnes(h, test, n)| <= |h|
  {
    if h != [] && n > 0 {
      OnesFit(h[..|h| - 1], test, n - 1);
      OnesFit(h[..|h| - 1], test, n);
    }
  }

  /** The agent is found stuck exactly if one of the five patterns is there among the events looked at;
      the first of them, in this order, is the one reported. */
  lemma StuckExactly(history: seq<Event>, headless: bool)
    ensures var h := Filtered(history[LookFrom(history, headless)..]);
      var found := Analyse(history, headless);
      && (found.Some? <==>
            HasPairLoop(h) || HasErrorLoop(h) || HasMonologue(h) || HasAlternatingLoop(h) || HasCondensationLoop(h))
      && (found.Some? ==>
            && found.value.loopType ==
                (if HasPairLoop(h) then RepeatedPair else if HasErrorLoop(h) then RepeatedError
                 else if HasMonologue(h) then Monologue else if HasAlternatingLoop(h) then AlternatingPairs
                 else ContextWindow)
            && found.value.repeatTimes ==
                (if HasPairLoop(h) then 4 else if !HasErrorLoop(h) && !HasMonologue(h) && !HasAlternatingLoop(h) then 2 else 3))
  {
    var h := Filtered(history[LookFrom(history, headless)..]);
    HavesExactly(h);
    LongEnough(h);
    hide HasPairLoop, HasErrorLoop, HasMonologue, HasAlternatingLoop, HasCondensationLoop, Filtered, LookFrom,
         RepeatsPair, RepeatsError, TalksToItself, AlternatesPairs, Actions, Results, Monologues, Condensations,
         ContextLoop, IndexOf;
  }

  /** The position of the first event with the contents of the one at `k`. */
  predicate FirstEqual(h: seq<Event>, k: nat, i: int) {
    k < |h| && 0 <= i <= k && h[i].content == h[k].content && forall j | 0 <= j < i :: h[j].content != h[k].content
  }

  lemma ReportsPair(h: seq<Event>, a: seq<nat>, o: seq<nat>)
    requires PairLoop(h, a, o)
    ensures Find(h).Some? && FirstEqual(h, a[3], Find(h).value.loopStartIdx)
  {
    PairExactly(h, a, o);
    LongEnough(h);
    hide RepeatsPair, RepeatsError, TalksToItself, AlternatesPairs, Actions, Results, Monologues, Condensations,
         ContextLoop, IndexFrom, AreLast, AllTheSame;
  }

  /** The action at `k` is the one before position `end`, or the one there if there is none before. */
  predicate IsBefore(h: seq<Event>, k: nat, end: nat)
    requires end < |h|
  {
    && k <= end
    && (k == end ==> forall j | 0 <= j < end :: !Acts(h[j]))
    && (k < end ==> Acts(h[k]) && forall j | k < j < end :: !Acts(h[j]))
  }

  /** For an error loop it is the action before the last three that is reported, if there is one. */
  lemma ReportsError(h: seq<Event>, a: seq<nat>, o: seq<nat>, k: nat)
    requires ErrorLoop(h, a, o) && !HasPairLoop(h) && IsBefore(h, k, a[2])
    ensures Find(h).Some? && FirstEqual(h, k, Find(h).value.loopStartIdx)
  {
    ErrorExactly(h, a, o);
    hide ErrorLoop, Find, FirstEqual, RepeatsPair, RepeatsError, AreLast, SameErrors, AllTheSame, IsBefore, Actions, Results,
         HasPairLoop, HasErrorLoop, HasMonologue, HasAlternatingLoop, HasCondensationLoop, TalksToItself, AlternatesPairs;
    FirstThreeOf(h);
    Enough(h);
    FourthAction(h, a, k);
    HavesExactly(h);
    ErrorIndex(h);
  }

  lemma ErrorIndex(h: seq<Event>)
    requires RepeatsError(h) && !RepeatsPair(h)
    ensures Find(h).Some? && |Actions(h, 4)| > 0
    ensures FirstEqual(h, Actions(h, 4)[|Actions(h, 4)| - 1], Find(h).value.loopStartIdx)
  {
    LongEnough(h);
    Enough(h);
    hide RepeatsPair, RepeatsError, TalksToItself, AlternatesPairs, Actions, Results, Monologues, Condensations,
         ContextLoop, IndexFrom;
  }

  lemma FourthAction(h: seq<Event>, a: seq<nat>, k: nat)
    requires |a| == 3 && a == Actions(h, 3) && |Actions(h, 4)| >= 3 && Actions(h, 4)[..3] == a && IsBefore(h, k, a[2])
    ensures Actions(h, 4)[|Actions(h, 4)| - 1] == k
  {
    hide Actions;
    var b := Actions(h, 4);
    LastActions(h, 4, b);
    assert forall i | 0 <= i < 3 :: b[i] == a[i];
    assert |b| == 4 ==> b[3] < b[2] && Acts(h[b[3]]);
    if k < a[2] { FourthFound(h, a, b, k); }
  }

  lemma FourthFound(h: seq<Event>, a: seq<nat>, b: seq<nat>, k: nat)
    requires |a| == 3 && Actions(h, 4) == b && 3 <= |b| && AreLast(h, b, Acts) && (forall i | 0 <= i < 3 :: b[i] == a[i])
    requires k < a[2] && a[2] < |h| && Acts(h[k]) && forall j | k < j < a[2] :: !Acts(h[j])
    ensures |b| == 4 && b[3] == k
  {
    assert |b| == 4 ==> b[3] < b[2] && Acts(h[b[3]]);
    if k !in b {
      LastOnesAreLast(h, IsAction, 4, k);
      assert false;
    } else {
      var i :| 0 <= i < |b| && b[i] == k;
      assert i == 3;
    }
  }

  lemma ReportsMonologue(h: seq<Event>, m: seq<nat>)
    requires MonologueLoop(h, m) && !HasPairLoop(h) && !HasErrorLoop(h)
    ensures Find(h).Some? && Find(h).value.loopStartIdx == m[2]
  {
    MonologueExactly(h, m);
    HavesExactly(h);
    LongEnough(h);
    hide RepeatsPair, RepeatsError, TalksToItself, AlternatesPairs, Actions, Results, Monologues, Condensations,
         ContextLoop, IndexOf, AreLast, HasPairLoop, HasErrorLoop;
  }

  lemma ReportsAlternating(h: seq<Event>, a: seq<nat>, o: seq<nat>)
    requires AlternatingLoop(h, a, o) && !HasPairLoop(h) && !HasErrorLoop(h) && !HasMonologue(h)
    ensures Find(h).Some? && FirstEqual(h, a[5], Find(h).value.loopStartIdx)
  {
    AlternatingExactly(h, a, o);
    HavesExactly(h);
    LongEnough(h);
    hide RepeatsPair, RepeatsError, TalksToItself, AlternatesPairs, Actions, Results, Monologues, Condensations,
         ContextLoop, IndexFrom, AreLast, AllTheSame, HasPairLoop, HasErrorLoop, HasMonologue;
  }

  lemma ReportsCondensation(h: seq<Event>, c: seq<nat>, i: nat)
    requires CondensationLoop(h, c, i)
    requires !HasPairLoop(h) && !HasErrorLoop(h) && !HasMonologue(h) && !HasAlternatingLoop(h)
    ensures Find(h).Some? && Find(h).value.loopStartIdx == c[i]
  {
    CondensationsExactly(h, c, i);
    HavesExactly(h);
    LongEnough(h);
    hide RepeatsPair, RepeatsError, TalksToItself, AlternatesPairs, Actions, Results, Monologues, Condensations,
         ContextLoop, IndexOf, AreLast, HasPairLoop, HasErrorLoop, HasMonologue, HasAlternatingLoop;
  }
}
