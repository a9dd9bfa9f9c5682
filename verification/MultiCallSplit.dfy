/** Breaking assistant messages with several tool calls into one message per call, each placed
    directly before its result. */
module MultiCallSplit {
  import opened Wrappers
  import opened FnConverter

  datatype SplitError = AssertionError | FinalResultMissing | MissingKey

  /** A call that waits for its result, under the call's id. */
  type Entry = (string, Message)

  /** One stretch of output: a message passed on, or a split-off call with its result. */
  datatype Piece = Kept(m: Message) | Answered(call: Entry, result: Message)

  type Outcome = Result<(seq<Piece>, seq<Entry>), SplitError>

  predicate IsMulti(m: Message) {
    m.role == Assistant && m.toolCalls.Some? && |m.toolCalls.value| > 1
  }

  /** The messages a multi-call message is split into; the first one keeps the text. */
  function Entries(calls: seq<ToolCall>, content: string): Option<seq<Entry>> {
    if calls == [] then Some([])
    else if calls[0].id.None? then None
    else match Entries(calls[1..], "")
      case None => None
      case Some(rest) => Some([(calls[0].id.value, Message(Assistant, content, Some([calls[0]]), None, None))] + rest)
  }

  predicate Has(pending: seq<Entry>, id: string) {
    exists i | 0 <= i < |pending| :: pending[i].0 == id
  }

  /** Dictionary assignment: a present key keeps its place and loses its value. */
  function Put(pending: seq<Entry>, e: Entry): seq<Entry> {
    if pending == [] then [e]
    else if pending[0].0 == e.0 then [e] + pending[1..]
    else [pending[0]] + Put(pending[1..], e)
  }

  function PutAll(pending: seq<Entry>, es: seq<Entry>): seq<Entry>
    decreases |es|
  {
    if es == [] then pending else PutAll(Put(pending, es[0]), es[1..])
  }

  function Get(pending: seq<Entry>, id: string): (e: Entry)
    requires Has(pending, id)
    ensures e.0 == id && e in pending
  {
    if pending[0].0 == id then pending[0] else Get(pending[1..], id)
  }

  function Pop(pending: seq<Entry>, id: string): seq<Entry> {
    if pending == [] then []
    else if pending[0].0 == id then pending[1..]
    else [pending[0]] + Pop(pending[1..], id)
  }

  /** One message: what is put out, and what waits afterwards. */
  function Step(m: Message, pending: seq<Entry>): Outcome {
    if IsMulti(m) then
      match Entries(m.toolCalls.value, m.content)
      case None => Err(MissingKey)
      case Some(es) => Ok(([], PutAll(pending, es)))
    else if m.role == Assistant then Ok(([Kept(m)], pending))
    else if m.role == Tool then
      if m.toolCallId.None? then Err(MissingKey)
      else if Has(pending, m.toolCallId.value) then
        Ok(([Answered(Get(pending, m.toolCallId.value), m)], Pop(pending, m.toolCallId.value)))
      else if pending != [] then Err(AssertionError)
      else Ok(([Kept(m)], pending))
    else if pending != [] then Err(AssertionError)
    else Ok(([Kept(m)], pending))
  }

  function Run(msgs: seq<Message>, pending: seq<Entry>): Outcome {
    if msgs == [] then Ok(([], pending))
    else match Step(msgs[0], pending)
      case Err(e) => Err(e)
      case Ok((out, next)) => After(out, Run(msgs[1..], next))
  }

  function After(out: seq<Piece>, r: Outcome): Outcome {
    match r
    case Err(e) => Err(e)
    case Ok((more, left)) => Ok((out + more, left))
  }

  function Flatten(pieces: seq<Piece>): seq<Message> {
    if pieces == [] then []
    else (match pieces[0] case Kept(m) => [m] case Answered(c, r) => [c.1, r]) + Flatten(pieces[1..])
  }

  function Finish(ignoreFinal: bool, r: Outcome): Result<seq<Message>, SplitError> {
    match r
    case Err(e) => Err(e)
    case Ok((pieces, left)) =>
      if !ignoreFinal && left != [] then Err(FinalResultMissing) else Ok(Flatten(pieces))
  }

  lemma {:induction false} FlattenAppend(a: seq<Piece>, b: seq<Piece>)
    ensures Flatten(a + b) == Flatten(a) + Flatten(b)
  {
    if a == [] {
      assert a + b == b;
    } else {
      assert (a + b)[1..] == a[1..] + b;
      FlattenAppend(a[1..], b);
    }
  }

  /** `convert_from_multiple_tool_calls_to_single_tool_call_messages` */
  method SplitCalls(msgs: seq<Message>, ignoreFinal: bool) returns (r: Result<seq<Message>, SplitError>)
    ensures r == Finish(ignoreFinal, Run(msgs, []))
  {
    var converted: seq<Message> := [];
    var pending: seq<Entry> := [];
    ghost var pieces: seq<Piece> := [];
    var i := 0;
    AfterNothing(Run(msgs, []));
    assert msgs[0..] == msgs;
    while i < |msgs|
      invariant 0 <= i <= |msgs| && converted == Flatten(pieces)
      invariant Run(msgs, []) == After(pieces, Run(msgs[i..], pending))
    {
      var m := msgs[i];
      assert msgs[i..][0] == m && msgs[i..][1..] == msgs[i + 1..];
      var step := Step(m, pending);
      if step.Err? {
        return Err(step.error);
      }
      var (out, next) := step.value;
      AfterAfter(pieces, out, Run(msgs[i + 1..], next));
      FlattenAppend(pieces, out);
      pieces := pieces + out;
      converted := converted + Flatten(out);
      pending := next;
      i := i + 1;
    }
    assert pieces + [] == pieces;
    if !ignoreFinal && pending != [] {
      return Err(FinalResultMissing);
    }
    return Ok(converted);
  }

  lemma AfterNothing(r: Outcome)
    ensures After([], r) == r
  {
    assert r.Ok? ==> [] + r.value.0 == r.value.0;
  }

  lemma AfterAfter(a: seq<Piece>, b: seq<Piece>, r: Outcome)
    ensures After(a, After(b, r)) == After(a + b, r)
  {
    assert r.Ok? ==> a + (b + r.value.0) == a + b + r.value.0;
  }

  // ---- What a message is split into, and what is refused ----

  /** Each call becomes a message of its own, waiting under its id; the first one keeps the text. */
  lemma {:induction false} EntriesSay(calls: seq<ToolCall>, content: string)
    ensures Entries(calls, content).Some? <==> forall i | 0 <= i < |calls| :: calls[i].id.Some?
    ensures Entries(calls, content).Some? ==>
      var es := Entries(calls, content).value;
      |es| == |calls| && forall i | 0 <= i < |calls| ::
        && calls[i].id == Some(es[i].0)
        && es[i].1 == Message(Assistant, if i == 0 then content else "", Some([calls[i]]), None, None)
  {
    if calls != [] {
      EntriesSay(calls[1..], "");
      if calls[0].id.Some? && forall i | 0 <= i < |calls[1..]| :: calls[1..][i].id.Some? {
        forall i | 0 <= i < |calls| ensures calls[i].id.Some? {
          if i > 0 { assert calls[i] == calls[1..][i - 1]; }
        }
      }
    }
  }

  /** A message is refused exactly if an id is missing, or if, while calls wait for their results, it is
      neither an assistant message nor the result of one of them. */
  lemma RefusedExactly(m: Message, pending: seq<Entry>)
    ensures Step(m, pending).Err? <==>
      || (m.role == Assistant && m.toolCalls.Some? && |m.toolCalls.value| > 1
          && exists i | 0 <= i < |m.toolCalls.value| :: m.toolCalls.value[i].id.None?)
      || (m.role == Tool && m.toolCallId.None?)
      || (pending != [] && m.role != Assistant && !(m.role == Tool && Has(pending, m.toolCallId.value)))
    ensures Step(m, pending).Err? ==>
      Step(m, pending).error == if m.role == Assistant || (m.role == Tool && m.toolCallId.None?) then MissingKey else AssertionError
  {
    if IsMulti(m) {
      EntriesSay(m.toolCalls.value, m.content);
      hide Entries;
    }
  }

  /** A split that gets through all messages fails only for calls still waiting, unless that is to be ignored. */
  lemma FinishExactly(msgs: seq<Message>, ignoreFinal: bool)
    ensures Finish(ignoreFinal, Run(msgs, [])).Ok? <==> Run(msgs, []).Ok? && (ignoreFinal || Run(msgs, []).value.1 == [])
    ensures Run(msgs, []).Ok? && Run(msgs, []).value.1 != [] && !ignoreFinal ==>
      Finish(ignoreFinal, Run(msgs, [])) == Err(FinalResultMissing)
  {
    hide Run;
  }

  // ---- Each split-off call stands before its own result ----

  predicate WellPlaced(p: Piece) {
    match p
    case Kept(m) => !IsMulti(m)
    case Answered((id, c), r) =>
      && c.role == Assistant && c.toolCalls.Some? && |c.toolCalls.value| == 1 && c.toolCalls.value[0].id == Some(id)
      && r.role == Tool && r.toolCallId == Some(id)
  }

  predicate GoodEntry(e: Entry) {
    e.1.role == Assistant && e.1.toolCalls.Some? && |e.1.toolCalls.value| == 1 && e.1.toolCalls.value[0].id == Some(e.0)
  }

  predicate GoodEntries(es: seq<Entry>) {
    forall i | 0 <= i < |es| :: GoodEntry(es[i])
  }

  lemma {:induction false} EntriesGood(calls: seq<ToolCall>, content: string)
    ensures Entries(calls, content).Some? ==> GoodEntries(Entries(calls, content).value)
  {
    if calls != [] { EntriesGood(calls[1..], ""); }
  }

  lemma {:induction false} PutAllGood(pending: seq<Entry>, es: seq<Entry>)
    requires GoodEntries(pending) && GoodEntries(es)
    ensures GoodEntries(PutAll(pending, es))
    decreases |es|
  {
    if es != [] {
      PutGood(pending, es[0]);
      PutAllGood(Put(pending, es[0]), es[1..]);
    }
  }

  lemma {:induction false} PutGood(pending: seq<Entry>, e: Entry)
    requires GoodEntries(pending) && GoodEntry(e)
    ensures GoodEntries(Put(pending, e))
  {
    if pending != [] { PutGood(pending[1..], e); }
  }

  lemma {:induction false} PopGood(pending: seq<Entry>, id: string)
    requires GoodEntries(pending)
    ensures GoodEntries(Pop(pending, id))
  {
    if pending != [] { PopGood(pending[1..], id); }
  }

  /** In the output every assistant message has at most one call, and every split-off call is
      followed at once by the result that carries its id. */
  lemma {:induction false} CallsBesideResults(msgs: seq<Message>, pending: seq<Entry>)
    requires GoodEntries(pending)
    ensures var r := Run(msgs, pending);
      r.Ok? ==> GoodEntries(r.value.1) && forall i | 0 <= i < |r.value.0| :: WellPlaced(r.value.0[i])
  {
    if msgs != [] && Step(msgs[0], pending).Ok? {
      var m := msgs[0];
      var (out, next) := Step(m, pending).value;
      if IsMulti(m) {
        EntriesGood(m.toolCalls.value, m.content);
        PutAllGood(pending, Entries(m.toolCalls.value, m.content).value);
      } else if m.role == Tool && m.toolCallId.Some? {
        PopGood(pending, m.toolCallId.value);
      }
      CallsBesideResults(msgs[1..], next);
    }
  }

  // ---- Everything else keeps its order ----

  function WithoutMulti(msgs: seq<Message>): seq<Message> {
    if msgs == [] then []
    else (if IsMulti(msgs[0]) then [] else [msgs[0]]) + WithoutMulti(msgs[1..])
  }

  function WithoutSplit(pieces: seq<Piece>): seq<Message> {
    if pieces == [] then []
    else [if pieces[0].Kept? then pieces[0].m else pieces[0].result] + WithoutSplit(pieces[1..])
  }

  lemma {:induction false} OthersKeepOrder(msgs: seq<Message>, pending: seq<Entry>)
    ensures var r := Run(msgs, pending);
      r.Ok? ==> WithoutSplit(r.value.0) == WithoutMulti(msgs)
  {
    if msgs != [] && Step(msgs[0], pending).Ok? {
      var (out, next) := Step(msgs[0], pending).value;
      OthersKeepOrder(msgs[1..], next);
      var r := Run(msgs[1..], next);
      if r.Ok? {
        if out == [] {
          assert out + r.value.0 == r.value.0;
        } else {
          assert |out| == 1 && (out + r.value.0)[1..] == r.value.0;
        }
      }
    }
  }

  // ---- Conservation ----

  function SplitOff(pieces: seq<Piece>): seq<Entry> {
    if pieces == [] then []
    else (if pieces[0].Answered? then [pieces[0].call] else []) + SplitOff(pieces[1..])
  }

  /** The entries all multi-call messages are split into. */
  function AllEntries(msgs: seq<Message>): seq<Entry> {
    if msgs == [] then []
    else (if IsMulti(msgs[0]) then EntriesOf(msgs[0]) else []) + AllEntries(msgs[1..])
  }

  function EntriesOf(m: Message): seq<Entry>
    requires IsMulti(m)
  {
    match Entries(m.toolCalls.value, m.content)
    case None => []
    case Some(es) => es
  }

  /** How often an entry is put under the id of one that still waits. */
  function Clashes(pending: seq<Entry>, es: seq<Entry>): nat
    decreases |es|
  {
    if es == [] then 0
    else (if Has(pending, es[0].0) then 1 else 0) + Clashes(Put(pending, es[0]), es[1..])
  }

  function RunClashes(msgs: seq<Message>, pending: seq<Entry>): nat {
    if msgs == [] then 0
    else match Step(msgs[0], pending)
      case Err(_) => 0
      case Ok((_, next)) =>
        (if IsMulti(msgs[0]) then Clashes(pending, EntriesOf(msgs[0])) else 0) + RunClashes(msgs[1..], next)
  }

  lemma {:induction false} PutCounts(pending: seq<Entry>, e: Entry)
    ensures |Put(pending, e)| == |pending| + (if Has(pending, e.0) then 0 else 1)
    ensures !Has(pending, e.0) ==> Put(pending, e) == pending + [e]
  {
    if pending == [] {
      assert pending + [e] == [e];
    } else if pending[0].0 != e.0 {
      PutCounts(pending[1..], e);
      HasTail(pending, e.0);
      assert [pending[0]] + (pending[1..] + [e]) == pending + [e];
    }
  }

  lemma HasTail(pending: seq<Entry>, id: string)
    requires pending != [] && pending[0].0 != id
    ensures Has(pending, id) <==> Has(pending[1..], id)
  {
    if Has(pending, id) {
      var i :| 0 <= i < |pending| && pending[i].0 == id;
      assert pending[1..][i - 1].0 == id;
    }
    if Has(pending[1..], id) {
      var i :| 0 <= i < |pending[1..]| && pending[1..][i].0 == id;
      assert pending[i + 1].0 == id;
    }
  }

  lemma {:induction false} PutAllCounts(pending: seq<Entry>, es: seq<Entry>)
    ensures |PutAll(pending, es)| + Clashes(pending, es) == |pending| + |es|
    ensures Clashes(pending, es) == 0 ==> PutAll(pending, es) == pending + es
    decreases |es|
  {
    if es == [] {
      assert pending + es == pending;
    } else {
      PutCounts(pending, es[0]);
      PutAllCounts(Put(pending, es[0]), es[1..]);
      assert pending + [es[0]] + es[1..] == pending + es;
    }
  }

  lemma {:induction false} PopOne(pending: seq<Entry>, id: string)
    requires Has(pending, id)
    ensures multiset(pending) == multiset(Pop(pending, id)) + multiset{Get(pending, id)}
    ensures |pending| == |Pop(pending, id)| + 1
  {
    if pending[0].0 == id {
      assert pending == [pending[0]] + pending[1..];
    } else {
      HasTail(pending, id);
      PopOne(pending[1..], id);
      assert pending == [pending[0]] + pending[1..];
      assert multiset(Pop(pending, id)) == multiset{pending[0]} + multiset(Pop(pending[1..], id));
    }
  }

  function Added(m: Message): seq<Entry> {
    if IsMulti(m) then EntriesOf(m) else []
  }

  function Lost(m: Message, pending: seq<Entry>): nat {
    if IsMulti(m) then Clashes(pending, EntriesOf(m)) else 0
  }

  /** What one message puts out, leaves waiting, and adds. */
  lemma StepBalance(m: Message, pending: seq<Entry>)
    requires Step(m, pending).Ok?
    ensures var (out, next) := Step(m, pending).value;
      && |SplitOff(out)| + |next| + Lost(m, pending) == |pending| + |Added(m)|
      && (Lost(m, pending) == 0 ==> multiset(SplitOff(out)) + multiset(next) == multiset(pending) + multiset(Added(m)))
  {
    hide Clashes, Get, Pop, PutAll;
    if IsMulti(m) {
      hide EntriesOf;
      EntriesOfStep(m);
      PutAllCounts(pending, EntriesOf(m));
      assert Lost(m, pending) == 0 ==> multiset(pending + EntriesOf(m)) == multiset(pending) + multiset(EntriesOf(m));
    } else if m.role == Tool && Has(pending, m.toolCallId.value) {
      PopOne(pending, m.toolCallId.value);
      assert SplitOff([Answered(Get(pending, m.toolCallId.value), m)]) == [Get(pending, m.toolCallId.value)];
    }
  }

  lemma EntriesOfStep(m: Message)
    requires IsMulti(m) && Entries(m.toolCalls.value, m.content).Some?
    ensures EntriesOf(m) == Entries(m.toolCalls.value, m.content).value
  {
  }

  lemma {:induction false} SplitOffAppend(a: seq<Piece>, b: seq<Piece>)
    ensures SplitOff(a + b) == SplitOff(a) + SplitOff(b)
  {
    if a == [] {
      assert a + b == b;
    } else {
      var s := a + b;
      assert s[1..] == a[1..] + b && s[0] == a[0];
      SplitOffAppend(a[1..], b);
      var first: seq<Entry> := if a[0].Answered? then [a[0].call] else [];
      assert first + (SplitOff(a[1..]) + SplitOff(b)) == first + SplitOff(a[1..]) + SplitOff(b);
    }
  }

  lemma Chain(s1: multiset<Entry>, n: multiset<Entry>, p: multiset<Entry>, a1: multiset<Entry>,
              s2: multiset<Entry>, l: multiset<Entry>, a2: multiset<Entry>)
    requires s1 + n == p + a1 && s2 + l == n + a2
    ensures s1 + s2 + l == p + (a1 + a2)
  {
    assert s1 + s2 + l == s1 + (n + a2);
    assert s1 + (n + a2) == p + a1 + a2;
  }

  lemma {:induction false} Balance(msgs: seq<Message>, pending: seq<Entry>)
    requires Run(msgs, pending).Ok?
    ensures var (pieces, left) := Run(msgs, pending).value;
      && |SplitOff(pieces)| + |left| + RunClashes(msgs, pending) == |pending| + |AllEntries(msgs)|
      && (RunClashes(msgs, pending) == 0 ==>
            multiset(SplitOff(pieces)) + multiset(left) == multiset(pending) + multiset(AllEntries(msgs)))
  {
    if msgs != [] {
      var m := msgs[0];
      var (out, next) := Step(m, pending).value;
      assert RunClashes(msgs, pending) == Lost(m, pending) + RunClashes(msgs[1..], next);
      assert AllEntries(msgs) == Added(m) + AllEntries(msgs[1..]);
      StepBalance(m, pending);
      hide Step, IsMulti, Lost, Added, EntriesOf;
      Balance(msgs[1..], next);
      var (more, left) := Run(msgs[1..], next).value;
      assert Run(msgs, pending).value == (out + more, left);
      SplitOffAppend(out, more);
      if RunClashes(msgs, pending) == 0 {
        Chain(multiset(SplitOff(out)), multiset(next), multiset(pending), multiset(Added(m)),
              multiset(SplitOff(more)), multiset(left), multiset(AllEntries(msgs[1..])));
      }
    }
  }

  /** A successful split keeps exactly the calls it was given if and only if no call was put under
      the id of one that was still waiting. */
  lemma CallsConserved(msgs: seq<Message>)
    requires Run(msgs, []).Ok? && Run(msgs, []).value.1 == []
    ensures multiset(SplitOff(Run(msgs, []).value.0)) == multiset(AllEntries(msgs)) <==> RunClashes(msgs, []) == 0
  {
    hide Run, RunClashes, SplitOff, AllEntries;
    Balance(msgs, []);
    var none: seq<Entry> := [];
    SameCount(SplitOff(Run(msgs, []).value.0), none, AllEntries(msgs), RunClashes(msgs, none));
  }

  lemma SameCount(split: seq<Entry>, none: seq<Entry>, all: seq<Entry>, lost: nat)
    requires none == [] && |split| + |none| + lost == |none| + |all|
    requires lost == 0 ==> multiset(split) + multiset(none) == multiset(none) + multiset(all)
    ensures multiset(split) == multiset(all) <==> lost == 0
  {
    assert |multiset(split)| == |split| && |multiset(all)| == |all|;
    assert multiset(split) + multiset(none) == multiset(split);
    assert multiset(none) + multiset(all) == multiset(all);
  }

  predicate DistinctIds(es: seq<Entry>) {
    forall i, j | 0 <= i < j < |es| :: es[i].0 != es[j].0
  }

  lemma {:induction false} NoClashAmongDistinct(pending: seq<Entry>, es: seq<Entry>)
    requires DistinctIds(pending + es)
    ensures Clashes(pending, es) == 0 && PutAll(pending, es) == pending + es
    decreases |es|
  {
    if es == [] {
      assert pending + es == pending;
    } else {
      forall i | 0 <= i < |pending| ensures pending[i].0 != es[0].0 {
        assert (pending + es)[i] == pending[i] && (pending + es)[|pending|] == es[0];
      }
      PutCounts(pending, es[0]);
      assert pending + [es[0]] + es[1..] == pending + es;
      NoClashAmongDistinct(pending + [es[0]], es[1..]);
    }
  }

  lemma {:induction false} PopKeepsOrder(pending: seq<Entry>, id: string, rest: seq<Entry>)
    requires DistinctIds(pending + rest)
    ensures DistinctIds(Pop(pending, id) + rest)
    ensures forall e :: e in Pop(pending, id) ==> e in pending
  {
    if pending != [] {
      var s := pending + rest;
      assert s[1..] == pending[1..] + rest;
      assert DistinctIds(s[1..]) by {
        forall i, j | 0 <= i < j < |s[1..]| ensures s[1..][i].0 != s[1..][j].0 {
          assert s[i + 1].0 != s[j + 1].0;
        }
      }
      if pending[0].0 != id {
        PopKeepsOrder(pending[1..], id, rest);
        var t := Pop(pending[1..], id) + rest;
        forall j | 0 <= j < |t| ensures t[j].0 != pending[0].0 {
          assert t[j] in s[1..];
          var k :| 0 <= k < |s[1..]| && s[1..][k] == t[j];
          assert s[0].0 != s[k + 1].0;
        }
        assert Pop(pending, id) + rest == [pending[0]] + t;
      }
    }
  }

  /** Distinct ids suffice: then nothing is ever put under a waiting id. */
  lemma {:induction false} DistinctIdsNeverClash(msgs: seq<Message>, pending: seq<Entry>)
    requires DistinctIds(pending + AllEntries(msgs))
    ensures RunClashes(msgs, pending) == 0
  {
    if msgs != [] && Step(msgs[0], pending).Ok? {
      var m := msgs[0];
      var rest := AllEntries(msgs[1..]);
      if IsMulti(m) {
        var es := EntriesOf(m);
        assert pending + AllEntries(msgs) == pending + es + rest;
        assert DistinctIds(pending + es) by {
          forall i, j | 0 <= i < j < |pending + es| ensures (pending + es)[i].0 != (pending + es)[j].0 {
            assert (pending + es + rest)[i] == (pending + es)[i] && (pending + es + rest)[j] == (pending + es)[j];
          }
        }
        NoClashAmongDistinct(pending, es);
        DistinctIdsNeverClash(msgs[1..], pending + es);
      } else {
        assert AllEntries(msgs) == rest;
        if m.role == Tool && Has(pending, m.toolCallId.value) {
          PopKeepsOrder(pending, m.toolCallId.value, rest);
        }
        DistinctIdsNeverClash(msgs[1..], Step(m, pending).value.1);
      }
    }
  }

  // ---- What is put out ----

  /** `out` is `rest` in order, with calls before some of the results: a call stands directly before the
      result that carries its id. */
  predicate Interleaved(out: seq<Message>, rest: seq<Message>)
    decreases |rest|
  {
    if rest == [] then out == []
    else
      || (out != [] && out[0] == rest[0] && Interleaved(out[1..], rest[1..]))
      || (|out| > 1 && IsCallOf(out[0], out[1]) && out[1] == rest[0] && Interleaved(out[2..], rest[1..]))
  }

  predicate IsCallOf(call: Message, result: Message) {
    && call.role == Assistant && call.toolCalls.Some? && |call.toolCalls.value| == 1
    && result.role == Tool && result.toolCallId.Some? && call.toolCalls.value[0].id == result.toolCallId
  }

  predicate OneCallAtMost(m: Message) {
    m.role == Assistant && m.toolCalls.Some? ==> |m.toolCalls.value| <= 1
  }

  lemma {:induction false} FlattenInterleaves(pieces: seq<Piece>)
    requires forall i | 0 <= i < |pieces| :: WellPlaced(pieces[i])
    ensures Interleaved(Flatten(pieces), WithoutSplit(pieces))
    ensures forall i | 0 <= i < |Flatten(pieces)| :: OneCallAtMost(Flatten(pieces)[i])
  {
    if pieces != [] {
      var more := Flatten(pieces[1..]);
      assert WellPlaced(pieces[0]);
      FlattenInterleaves(pieces[1..]);
      assert WithoutSplit(pieces)[1..] == WithoutSplit(pieces[1..]);
      match pieces[0]
      case Kept(m) => assert Flatten(pieces) == [m] + more && Flatten(pieces)[1..] == more;
      case Answered(c, r) => assert Flatten(pieces) == [c.1, r] + more && Flatten(pieces)[2..] == more;
    }
  }

  /** What is put out: no message has more than one call, and the messages that were not split up stand in
      their order, each result of a split-off call with that call directly before it. */
  lemma OutputExactly(msgs: seq<Message>, ignoreFinal: bool)
    ensures Finish(ignoreFinal, Run(msgs, [])).Ok? ==>
      var out := Finish(ignoreFinal, Run(msgs, [])).value;
      Interleaved(out, WithoutMulti(msgs)) && forall i | 0 <= i < |out| :: OneCallAtMost(out[i])
  {
    CallsBesideResults(msgs, []);
    OthersKeepOrder(msgs, []);
    hide Run, WellPlaced, Interleaved, OneCallAtMost, Flatten, WithoutMulti, WithoutSplit;
    if Run(msgs, []).Ok? { FlattenInterleaves(Run(msgs, []).value.0); }
  }

  function Texts(es: seq<Entry>): seq<Message> {
    if es == [] then [] else [es[0].1] + Texts(es[1..])
  }

  lemma {:induction false} TextsAppend(a: seq<Entry>, b: seq<Entry>)
    ensures Texts(a + b) == Texts(a) + Texts(b)
  {
    if a == [] {
      assert a + b == b;
    } else {
      assert (a + b)[1..] == a[1..] + b && (a + b)[0] == a[0];
      TextsAppend(a[1..], b);
    }
  }

  lemma CountParts<T>(x: seq<T>, e: T, y: seq<T>)
    ensures multiset(x + ([e] + y)) == multiset{e} + multiset(x + y)
  {
    assert multiset(x + ([e] + y)) == multiset(x) + (multiset{e} + multiset(y));
    assert multiset(x + y) == multiset(x) + multiset(y);
  }

  lemma Cancel<T>(e: T, a: multiset<T>, b: multiset<T>)
    requires multiset{e} + a == multiset{e} + b
    ensures a == b
  {
    assert (multiset{e} + a) - multiset{e} == a && (multiset{e} + b) - multiset{e} == b;
  }

  lemma OneText(e: Entry)
    ensures Texts([e]) == [e.1]
  {
  }

  lemma TextsParts(x: seq<Entry>, e: Entry, y: seq<Entry>)
    ensures Texts(x + ([e] + y)) == Texts(x) + ([e.1] + Texts(y))
  {
    var z := [e] + y;
    assert z[0] == e && z[1..] == y;
    TextsAppend(x, z);
  }

  lemma TakenOut(x: seq<Entry>, e: Entry, y: seq<Entry>)
    ensures multiset(Texts(x + ([e] + y))) == multiset{e.1} + multiset(Texts(x + y))
  {
    hide Texts;
    TextsParts(x, e, y);
    TextsAppend(x, y);
    CountParts(Texts(x), e.1, Texts(y));
  }

  lemma {:induction false} SameTexts(a: seq<Entry>, b: seq<Entry>)
    requires multiset(a) == multiset(b)
    ensures multiset(Texts(a)) == multiset(Texts(b))
    decreases |a|
  {
    hide Texts;
    if a == [] {
      assert |multiset(b)| == |b| == 0;
    } else {
      var e := a[0];
      assert e in multiset(a);
      var i :| 0 <= i < |b| && b[i] == e;
      Moved(a[1..], b[..i], e, b[i + 1..]);
      assert a == [e] + a[1..] && b == b[..i] + ([e] + b[i + 1..]);
      SameTexts(a[1..], b[..i] + b[i + 1..]);
      TextsOfFirst(e, a[1..]);
      TakenOut(b[..i], e, b[i + 1..]);
    }
  }

  lemma TextsOfFirst(e: Entry, rest: seq<Entry>)
    ensures multiset(Texts([e] + rest)) == multiset{e.1} + multiset(Texts(rest))
  {
    assert ([e] + rest)[1..] == rest;
  }

  lemma Moved(rest: seq<Entry>, x: seq<Entry>, e: Entry, y: seq<Entry>)
    ensures multiset([e] + rest) == multiset(x + ([e] + y)) ==> multiset(rest) == multiset(x + y)
  {
    CountParts(x, e, y);
    assert multiset([e] + rest) == multiset{e} + multiset(rest);
    if multiset([e] + rest) == multiset(x + ([e] + y)) { Cancel(e, multiset(rest), multiset(x + y)); }
  }

  lemma FirstPiece(pieces: seq<Piece>)
    requires pieces != []
    ensures pieces[0].Kept? ==>
      && Flatten(pieces) == [pieces[0].m] + Flatten(pieces[1..]) && SplitOff(pieces) == SplitOff(pieces[1..])
      && WithoutSplit(pieces) == [pieces[0].m] + WithoutSplit(pieces[1..])
    ensures pieces[0].Answered? ==>
      && Flatten(pieces) == [pieces[0].call.1] + ([pieces[0].result] + Flatten(pieces[1..]))
      && SplitOff(pieces) == [pieces[0].call] + SplitOff(pieces[1..])
      && WithoutSplit(pieces) == [pieces[0].result] + WithoutSplit(pieces[1..])
  {
  }

  lemma {:induction false} FlattenCounts(pieces: seq<Piece>)
    ensures multiset(Flatten(pieces)) == multiset(WithoutSplit(pieces)) + multiset(Texts(SplitOff(pieces)))
    ensures |Texts(SplitOff(pieces))| == |SplitOff(pieces)|
  {
    TextsLength(SplitOff(pieces));
    if pieces != [] {
      FirstPiece(pieces);
      FlattenCounts(pieces[1..]);
      hide Flatten, WithoutSplit, SplitOff, Texts;
      if pieces[0].Answered? {
        TextsAppend([pieces[0].call], SplitOff(pieces[1..]));
        OneText(pieces[0].call);
      }
    }
  }

  lemma {:induction false} TextsLength(es: seq<Entry>)
    ensures |Texts(es)| == |es|
  {
    if es != [] { TextsLength(es[1..]); }
  }

  /** When all results were there, what is put out are the messages not split up and the messages the others
      are split into, each exactly once, if and only if no call was put under the id of a waiting one. */
  lemma OutputConserved(msgs: seq<Message>)
    requires Run(msgs, []).Ok? && Run(msgs, []).value.1 == []
    ensures var out := Finish(false, Run(msgs, [])).value;
      multiset(out) == multiset(WithoutMulti(msgs)) + multiset(Texts(AllEntries(msgs))) <==> RunClashes(msgs, []) == 0
  {
    var pieces, all := Run(msgs, []).value.0, AllEntries(msgs);
    OthersKeepOrder(msgs, []);
    CallsConserved(msgs);
    Balance(msgs, []);
    hide Run, RunClashes, SplitOff, AllEntries, Flatten, WithoutMulti, WithoutSplit;
    FlattenCounts(pieces);
    TextsLength(all);
    if RunClashes(msgs, []) == 0 {
      SameTexts(SplitOff(pieces), all);
    } else {
      assert |multiset(Texts(SplitOff(pieces)))| < |multiset(Texts(all))|;
      assert |multiset(Flatten(pieces))| < |multiset(WithoutMulti(msgs)) + multiset(Texts(all))|;
    }
  }
}
