/** In the messages built from any history, calls stand beside their results and nothing else changes place. */
module ToolCallPairs {
  import opened Wrappers
  import opened ConversationMemory

  predicate IsPlain(m: Message) {
    m.role != "tool" && m.toolCalls.None?
  }

  /** One result for each call, in the order of the calls. */
  predicate ResultsFor(calls: seq<ToolCall>, ms: seq<Message>) {
    |ms| == |calls| && forall i | 0 <= i < |ms| :: IsResult(ms[i], calls[i].id)
  }

  predicate IsResult(m: Message, callId: string) {
    m.role == "tool" && m.toolCalls.None? && m.toolCallId == Some(callId)
  }

  /** Plain messages, and messages with calls each followed at once by exactly its results. */
  predicate Blocks(ms: seq<Message>)
    decreases |ms|
  {
    || ms == []
    || (IsPlain(ms[0]) && Blocks(ms[1..]))
    || (HeadsBlock(ms) && Blocks(ms[1 + |ms[0].toolCalls.value|..]))
  }

  predicate HeadsBlock(ms: seq<Message>) {
    && ms != [] && ms[0].role == "assistant" && ms[0].toolCalls.Some?
    && var n := |ms[0].toolCalls.value|;
       n < |ms| && ResultsFor(ms[0].toolCalls.value, ms[1..1 + n])
  }

  lemma {:induction false} BlocksAppend(a: seq<Message>, b: seq<Message>)
    requires Blocks(a) && Blocks(b)
    ensures Blocks(a + b)
    decreases |a|
  {
    hide ResultsFor;
    if a == [] {
      assert a + b == b;
    } else if IsPlain(a[0]) {
      BlocksAppend(a[1..], b);
      assert (a + b)[1..] == a[1..] + b;
    } else {
      var n := |a[0].toolCalls.value|;
      BlocksAppend(a[1 + n..], b);
      assert (a + b)[1 + n..] == a[1 + n..] + b && (a + b)[1..1 + n] == a[1..1 + n];
    }
  }

  lemma OneBlock(m: Message, ms: seq<Message>)
    requires m.role == "assistant" && m.toolCalls.Some? && ResultsFor(m.toolCalls.value, ms)
    ensures Blocks([m] + ms)
  {
    var all := [m] + ms;
    assert all[1..1 + |ms|] == ms && all[1 + |ms|..] == [];
  }

  lemma {:induction false} PlainBlocks(ms: seq<Message>)
    requires forall i | 0 <= i < |ms| :: IsPlain(ms[i])
    ensures Blocks(ms)
  {
    if ms != [] { PlainBlocks(ms[1..]); }
  }

  // ---- What waits ----

  predicate ResultsOk(results: Results) {
    forall k | k in results :: IsResult(results[k], k)
  }

  predicate PendingOk(d: Pending) {
    forall i | 0 <= i < |d| :: d[i].1.role == "assistant"
  }

  lemma {:induction false} TakenInOrder(calls: seq<ToolCall>, results: Results)
    requires ResultsOk(results) && TakeResults(calls, results).Some?
    ensures var (ms, left) := TakeResults(calls, results).value;
      ResultsFor(calls, ms) && ResultsOk(left)
  {
    if calls != [] {
      TakenInOrder(calls[1..], results - {calls[0].id});
    }
  }

  lemma {:induction false} DrainedBlocks(d: Pending, results: Results)
    requires ResultsOk(results) && PendingOk(d) && Drain(d, results).Ok?
    ensures var Drained(ms, kept, left) := Drain(d, results).value;
      Blocks(ms) && PendingOk(kept) && ResultsOk(left)
  {
    hide ResultsOk, Complete, TakeResults, Blocks, ResultsFor;
    if d == [] {
      PlainBlocks([]);
    } else {
      var m := d[0].1;
      if Complete(m.toolCalls.value, results) {
        TakenInOrder(m.toolCalls.value, results);
        var (ms, left) := TakeResults(m.toolCalls.value, results).value;
        DrainedBlocks(d[1..], left);
        OneBlock(m, ms);
        BlocksAppend([m] + ms, Drain(d[1..], left).value.messages);
      } else {
        DrainedBlocks(d[1..], results);
        assert [] + Drain(d[1..], results).value.messages == Drain(d[1..], results).value.messages;
      }
    }
  }

  lemma {:induction false} UpsertOk(d: Pending, key: string, m: Message)
    requires PendingOk(d) && m.role == "assistant"
    ensures PendingOk(Upsert(d, key, m))
  {
    if d != [] && d[0].0 != key { UpsertOk(d[1..], key, m); }
  }

  lemma OwnArePlain(e: Event)
    ensures forall i | 0 <= i < |OwnMessages(e)| :: IsPlain(OwnMessages(e)[i])
  {
  }

  lemma {:induction false} CallsBesideResults(events: seq<Event>)
    requires After(events).Ok?
    ensures var st := After(events).value;
      Blocks(st.messages) && PendingOk(st.pending) && ResultsOk(st.results)
  {
    if events == [] {
      PlainBlocks([]);
    } else {
      var n := |events| - 1;
      var st, e := After(events[..n]).value, events[n];
      CallsBesideResults(events[..n]);
      assert ResultsOk(ResultsWith(st.results, e));
      if e.ToolAction? && e.response.Some? { UpsertOk(st.pending, e.response.value.id, AssistantOf(e.response.value)); }
      hide Blocks, ResultsOk, PendingOk, Drain, OwnMessages, PendingWith, ResultsWith;
      DrainedBlocks(PendingWith(st.pending, e), ResultsWith(st.results, e));
      OwnArePlain(e);
      PlainBlocks(OwnMessages(e));
      BlocksAppend(st.messages, OwnMessages(e));
      BlocksAppend(st.messages + OwnMessages(e), Drain(PendingWith(st.pending, e), ResultsWith(st.results, e)).value.messages);
    }
  }

  // ---- The filter ----

  predicate Named(ms: seq<Message>) {
    forall i, j | 0 <= i < |ms| && ms[i].toolCalls.Some? && 0 <= j < |ms[i].toolCalls.value| ::
      ms[i].toolCalls.value[j].id != ""
  }

  /** Every call has its result and every result its call. */
  predicate Paired(ms: seq<Message>) {
    && (forall i | 0 <= i < |ms| && ms[i].role == "tool" :: ms[i].toolCallId.Some? && HasCall(ms, ms[i].toolCallId.value))
    && (forall i, j | 0 <= i < |ms| && ms[i].toolCalls.Some? && 0 <= j < |ms[i].toolCalls.value| ::
          ms[i].role == "assistant" && HasResult(ms, ms[i].toolCalls.value[j].id))
  }

  predicate HasCall(ms: seq<Message>, id: string) {
    exists i, j | 0 <= i < |ms| && ms[i].toolCalls.Some? && 0 <= j < |ms[i].toolCalls.value| ::
      ms[i].role == "assistant" && ms[i].toolCalls.value[j].id == id
  }

  predicate HasResult(ms: seq<Message>, id: string) {
    exists i | 0 <= i < |ms| :: IsResult(ms[i], id)
  }

  lemma PairedAppend(a: seq<Message>, b: seq<Message>)
    requires Paired(a) && Paired(b)
    ensures Paired(a + b)
  {
    hide IsResult;
    var c := a + b;
    forall id: string
      ensures HasCall(a, id) || HasCall(b, id) ==> HasCall(c, id)
      ensures HasResult(a, id) || HasResult(b, id) ==> HasResult(c, id)
    {
      HasInAppend(a, b, id);
    }
    hide HasCall, HasResult;
  }

  lemma HasInAppend(a: seq<Message>, b: seq<Message>, id: string)
    ensures HasCall(a, id) || HasCall(b, id) ==> HasCall(a + b, id)
    ensures HasResult(a, id) || HasResult(b, id) ==> HasResult(a + b, id)
  {
    hide IsResult;
    var c := a + b;
    assert forall i | 0 <= i < |a| :: c[i] == a[i];
    assert forall i | 0 <= i < |b| :: c[|a| + i] == b[i];
    if HasCall(a, id) {
      var i, j :| 0 <= i < |a| && a[i].toolCalls.Some? && 0 <= j < |a[i].toolCalls.value|
        && a[i].role == "assistant" && a[i].toolCalls.value[j].id == id;
      assert c[i].toolCalls.value[j].id == id;
    }
    if HasCall(b, id) {
      var i, j :| 0 <= i < |b| && b[i].toolCalls.Some? && 0 <= j < |b[i].toolCalls.value|
        && b[i].role == "assistant" && b[i].toolCalls.value[j].id == id;
      assert c[|a| + i].toolCalls.value[j].id == id;
    }
  }

  lemma BlockPaired(ms: seq<Message>)
    requires HeadsBlock(ms) && |ms| == 1 + |ms[0].toolCalls.value|
    ensures Paired(ms)
  {
    var calls := ms[0].toolCalls.value;
    forall k | 1 <= k < |ms| ensures IsResult(ms[k], calls[k - 1].id) {
      assert ms[1..1 + |calls|][k - 1] == ms[k];
    }
    forall k | 1 <= k < |ms| ensures HasCall(ms, ms[k].toolCallId.value) {
      assert ms[0].toolCalls.value[k - 1].id == ms[k].toolCallId.value;
    }
    forall j | 0 <= j < |calls| ensures HasResult(ms, calls[j].id) {
      assert IsResult(ms[j + 1], calls[j].id);
    }
  }

  lemma {:induction false} BlocksPaired(ms: seq<Message>)
    requires Blocks(ms)
    ensures Paired(ms)
    decreases |ms|
  {
    if ms != [] {
      hide Paired, ResultsFor;
      if IsPlain(ms[0]) {
        BlocksPaired(ms[1..]);
        OnePlainPaired(ms[0]);
        PairedAppend([ms[0]], ms[1..]);
        assert [ms[0]] + ms[1..] == ms;
      } else {
        var n := 1 + |ms[0].toolCalls.value|;
        BlocksPaired(ms[n..]);
        assert ms[..n][1..n] == ms[1..n];
        BlockPaired(ms[..n]);
        PairedAppend(ms[..n], ms[n..]);
        assert ms[..n] + ms[n..] == ms;
      }
    }
  }

  lemma OnePlainPaired(m: Message)
    requires IsPlain(m)
    ensures Paired([m])
  {
  }

  lemma {:induction false} KeptExactly(ms: seq<Message>, callIds: set<string>, responseIds: set<string>)
    ensures |FilterAll(ms, callIds, responseIds)| <= |ms|
    ensures FilterAll(ms, callIds, responseIds) == ms
       <==> forall i | 0 <= i < |ms| :: FilterOne(ms[i], callIds, responseIds) == [ms[i]]
  {
    if ms != [] {
      KeptExactly(ms[1..], callIds, responseIds);
      hide FilterOne;
      FilterOneAtMost(ms[0], callIds, responseIds);
      var f, rest := FilterOne(ms[0], callIds, responseIds), FilterAll(ms[1..], callIds, responseIds);
      assert ms == [ms[0]] + ms[1..];
      if f + rest == ms {
        assert |f| == 1 && f[0] == ms[0] && rest == ms[1..];
        forall i | 0 <= i < |ms| ensures FilterOne(ms[i], callIds, responseIds) == [ms[i]] {
          if i > 0 { assert ms[i] == ms[1..][i - 1]; }
        }
      }
    }
  }

  lemma FilterOneAtMost(m: Message, callIds: set<string>, responseIds: set<string>)
    ensures |FilterOne(m, callIds, responseIds)| <= 1
  {
  }

  lemma CallIdIn(ms: seq<Message>, id: string)
    requires HasCall(ms, id) && id != ""
    ensures id in CallIds(ms)
  {
  }

  lemma ResponseIdIn(ms: seq<Message>, id: string)
    ensures HasResult(ms, id) && id != "" ==> id in ResponseIds(ms)
    ensures "" !in ResponseIds(ms)
  {
  }

  lemma FilterKeeps(ms: seq<Message>, i: nat)
    requires Paired(ms) && i < |ms|
    ensures FilterOne(ms[i], CallIds(ms), ResponseIds(ms)) == [ms[i]]
       <==> (ms[i].toolCalls.Some? ==> forall j | 0 <= j < |ms[i].toolCalls.value| :: ms[i].toolCalls.value[j].id != "")
    requires ms[i].role == "tool" ==> ms[i].toolCalls.None?
  {
    hide HasCall, HasResult, CallIds, ResponseIds;
    var m := ms[i];
    if m.role == "tool" {
      if m.toolCallId.value != "" { CallIdIn(ms, m.toolCallId.value); }
    } else if m.toolCalls.Some? && m.toolCalls.value != [] {
      var calls := m.toolCalls.value;
      forall j | 0 <= j < |calls| ensures calls[j].id in ResponseIds(ms) <==> calls[j].id != "" {
        ResponseIdIn(ms, calls[j].id);
      }
      assert m.role == "assistant" by { assert HasResult(ms, calls[0].id); }
    }
  }

  lemma {:induction false} ToolsHaveNoCalls(ms: seq<Message>)
    requires Blocks(ms)
    ensures forall i | 0 <= i < |ms| && ms[i].role == "tool" :: ms[i].toolCalls.None?
    decreases |ms|
  {
    if ms != [] {
      if IsPlain(ms[0]) {
        ToolsHaveNoCalls(ms[1..]);
      } else {
        var n := 1 + |ms[0].toolCalls.value|;
        ToolsHaveNoCalls(ms[n..]);
        forall i | 0 <= i < |ms| && ms[i].role == "tool" ensures ms[i].toolCalls.None? {
          if i < n { assert ms[1..n][i - 1] == ms[i]; } else { assert ms[n..][i - n] == ms[i]; }
        }
      }
    }
  }

  /** On messages built from a history, the final filter changes nothing exactly when all call ids are non-empty. */
  lemma FilterChangesNothing(ms: seq<Message>)
    requires Blocks(ms)
    ensures Filtered(ms) == ms <==> Named(ms)
  {
    BlocksPaired(ms);
    ToolsHaveNoCalls(ms);
    hide Blocks, Paired, FilterAll, FilterOne, CallIds, ResponseIds;
    KeptExactly(ms, CallIds(ms), ResponseIds(ms));
    forall i | 0 <= i < |ms|
      ensures FilterOne(ms[i], CallIds(ms), ResponseIds(ms)) == [ms[i]]
         <==> (ms[i].toolCalls.Some? ==> forall j | 0 <= j < |ms[i].toolCalls.value| :: ms[i].toolCalls.value[j].id != "")
    {
      FilterKeeps(ms, i);
    }
  }

  // ---- The messages that are sent ----

  lemma {:induction false} FormatKeepsBlocks(ms: seq<Message>, prevRole: string)
    ensures Blocks(Formatted(ms, prevRole)) <==> Blocks(ms)
    ensures forall i | 0 <= i < |ms| :: Formatted(ms, prevRole)[i].(content := None) == ms[i].(content := None)
    ensures forall i | 0 <= i < |ms| && ms[i].role != "user" :: Formatted(ms, prevRole)[i] == ms[i]
  {
    FormattedAt(ms, prevRole);
    hide Formatted;
    SameShape(ms, Formatted(ms, prevRole));
  }

  lemma {:induction false} FormattedAt(ms: seq<Message>, prevRole: string)
    ensures forall i | 0 <= i < |ms| :: Formatted(ms, prevRole)[i].(content := None) == ms[i].(content := None)
    ensures forall i | 0 <= i < |ms| && ms[i].role != "user" :: Formatted(ms, prevRole)[i] == ms[i]
  {
    if ms != [] { FormattedAt(ms[1..], ms[0].role); }
  }

  lemma {:induction false} SameShape(a: seq<Message>, b: seq<Message>)
    requires |a| == |b| && forall i | 0 <= i < |a| :: a[i].(content := None) == b[i].(content := None)
    ensures Blocks(a) <==> Blocks(b)
    decreases |a|
  {
    if a != [] {
      SameHead(a, b);
      assert forall i | 0 <= i < |a| - 1 :: a[1..][i].(content := None) == b[1..][i].(content := None);
      SameShape(a[1..], b[1..]);
      if HeadsBlock(a) {
        var n := 1 + |a[0].toolCalls.value|;
        assert forall i | 0 <= i < |a| - n :: a[n..][i].(content := None) == b[n..][i].(content := None);
        SameShape(a[n..], b[n..]);
      }
    }
  }

  lemma SameHead(a: seq<Message>, b: seq<Message>)
    requires |a| == |b| != 0 && forall i | 0 <= i < |a| :: a[i].(content := None) == b[i].(content := None)
    ensures IsPlain(a[0]) <==> IsPlain(b[0])
    ensures HeadsBlock(a) <==> HeadsBlock(b)
    ensures a[0].toolCalls == b[0].toolCalls
  {
    assert a[0].(content := None).role == b[0].(content := None).role;
    assert a[0].(content := None).toolCalls == b[0].(content := None).toolCalls;
    if a[0].toolCalls.Some? && |a[0].toolCalls.value| < |a| {
      var n := 1 + |a[0].toolCalls.value|;
      forall i | 0 <= i < n - 1
        ensures IsResult(a[1..n][i], a[0].toolCalls.value[i].id) <==> IsResult(b[1..n][i], a[0].toolCalls.value[i].id)
      {
        assert a[1..n][i] == a[i + 1] && b[1..n][i] == b[i + 1];
        assert a[i + 1].(content := None).role == b[i + 1].(content := None).role;
        assert a[i + 1].(content := None).toolCalls == b[i + 1].(content := None).toolCalls;
        assert a[i + 1].(content := None).toolCallId == b[i + 1].(content := None).toolCallId;
      }
      hide IsResult;
    }
  }

  /** What `process_events` returns on success when no call it places has an empty id. */
  lemma SentMessages(history: seq<Event>, systemPrompt: string, initial: string)
    requires After(Prepared(history, systemPrompt, initial)).Ok?
    requires Named(After(Prepared(history, systemPrompt, initial)).value.messages)
    ensures var st := After(Prepared(history, systemPrompt, initial)).value;
      Filtered(st.messages) == st.messages && Blocks(Formatted(Filtered(st.messages), ""))
  {
    var events := Prepared(history, systemPrompt, initial);
    CallsBesideResults(events);
    var st := After(events).value;
    hide After, Prepared, Blocks, Filtered, Named, Formatted;
    FilterChangesNothing(st.messages);
    FormatKeepsBlocks(st.messages, "");
  }

  // ---- Plain messages keep their order, and nothing is invented ----

  function PlainOnly(ms: seq<Message>): seq<Message> {
    if ms == [] then [] else (if IsPlain(ms[0]) then [ms[0]] else []) + PlainOnly(ms[1..])
  }

  function OwnOf(events: seq<Event>): seq<Message> {
    if events == [] then [] else OwnOf(events[..|events| - 1]) + OwnMessages(events[|events| - 1])
  }

  lemma {:induction false} PlainOnlyAppend(a: seq<Message>, b: seq<Message>)
    ensures PlainOnly(a + b) == PlainOnly(a) + PlainOnly(b)
  {
    if a == [] {
      assert a + b == b;
    } else {
      assert (a + b)[1..] == a[1..] + b && (a + b)[0] == a[0];
      PlainOnlyAppend(a[1..], b);
      var f := if IsPlain(a[0]) then [a[0]] else [];
      assert f + (PlainOnly(a[1..]) + PlainOnly(b)) == (f + PlainOnly(a[1..])) + PlainOnly(b);
    }
  }

  lemma {:induction false} NonePlain(ms: seq<Message>)
    requires forall i | 0 <= i < |ms| :: !IsPlain(ms[i])
    ensures PlainOnly(ms) == []
  {
    if ms != [] { NonePlain(ms[1..]); }
  }

  lemma {:induction false} AllPlain(ms: seq<Message>)
    requires forall i | 0 <= i < |ms| :: IsPlain(ms[i])
    ensures PlainOnly(ms) == ms
  {
    if ms != [] { AllPlain(ms[1..]); }
  }

  lemma {:induction false} DrainedNotPlain(d: Pending, results: Results)
    requires ResultsOk(results) && Drain(d, results).Ok?
    ensures forall i | 0 <= i < |Drain(d, results).value.messages| :: !IsPlain(Drain(d, results).value.messages[i])
  {
    hide Complete, TakeResults, ResultsOk;
    if d != [] {
      var m := d[0].1;
      if Complete(m.toolCalls.value, results) {
        TakenInOrder(m.toolCalls.value, results);
        DrainedNotPlain(d[1..], TakeResults(m.toolCalls.value, results).value.1);
      } else {
        DrainedNotPlain(d[1..], results);
      }
    }
  }

  /** Leaving out calls and results, the messages are those of the events, one event after the other. */
  lemma {:induction false} PlainKeepOrder(events: seq<Event>)
    requires After(events).Ok?
    ensures PlainOnly(After(events).value.messages) == OwnOf(events)
  {
    if events != [] {
      var n := |events| - 1;
      var st, e := After(events[..n]).value, events[n];
      PlainKeepOrder(events[..n]);
      CallsBesideResults(events[..n]);
      assert ResultsOk(ResultsWith(st.results, e));
      hide ResultsOk, PendingOk, Drain, OwnMessages, PendingWith, ResultsWith, PlainOnly, Blocks;
      var ms := Drain(PendingWith(st.pending, e), ResultsWith(st.results, e)).value.messages;
      DrainedNotPlain(PendingWith(st.pending, e), ResultsWith(st.results, e));
      NonePlain(ms);
      OwnArePlain(e);
      AllPlain(OwnMessages(e));
      PlainOnlyAppend(st.messages, OwnMessages(e));
      PlainOnlyAppend(st.messages + OwnMessages(e), ms);
    }
  }

  // ---- Processing a history again ----

  function FoldAll(events: seq<Event>): (r: seq<Event>)
    ensures |r| == |events| && forall i | 0 <= i < |r| :: r[i] == Folded(events[i])
  {
    seq(|events|, i requires 0 <= i < |events| => Folded(events[i]))
  }

  lemma FoldedSame(e: Event)
    ensures OwnMessages(Folded(e)) == OwnMessages(e) && Failure(Folded(e)) == Failure(e)
    ensures forall d: Pending :: PendingWith(d, Folded(e)) == PendingWith(d, e)
    ensures forall results: Results :: ResultsWith(results, Folded(e)) == ResultsWith(results, e)
  {
  }

  lemma {:induction false} FoldedAfter(events: seq<Event>)
    ensures After(FoldAll(events)) == After(events)
  {
    if events != [] {
      var n := |events| - 1;
      assert FoldAll(events)[..n] == FoldAll(events[..n]);
      FoldedAfter(events[..n]);
      FoldedSame(events[n]);
      hide Folded, Drain, OwnMessages, PendingWith, ResultsWith, Failure;
    }
  }

  /** The history a call leaves behind, with its insertions and rewritten thoughts, gives the same messages again. */
  lemma ProcessingIsRepeatable(history: seq<Event>, systemPrompt: string, initial: string)
    ensures var once := FoldAll(Prepared(history, systemPrompt, initial));
      Prepared(once, systemPrompt, initial) == once
      && After(Prepared(once, systemPrompt, initial)) == After(Prepared(history, systemPrompt, initial))
  {
    var p := Prepared(history, systemPrompt, initial);
    FoldedAfter(p);
    InitialAgain(WithSystem(history, systemPrompt), initial);
    hide After, WithInitial;
    if systemPrompt != "" {
      HasSystem(history, systemPrompt, initial);
      var i :| 0 <= i < |p| && p[i].SystemAction?;
      assert FoldAll(p)[i].SystemAction?;
    }
  }

  lemma InitialAgain(events: seq<Event>, initial: string)
    ensures var once := FoldAll(WithInitial(events, initial)); WithInitial(once, initial) == once
  {
  }

  lemma HasSystem(history: seq<Event>, systemPrompt: string, initial: string)
    requires systemPrompt != ""
    ensures var p := Prepared(history, systemPrompt, initial); exists i | 0 <= i < |p| :: p[i].SystemAction?
  {
    var w, p := WithSystem(history, systemPrompt), Prepared(history, systemPrompt, initial);
    assert exists i | 0 <= i < |w| :: w[i].SystemAction? by { if w != history { assert w[0].SystemAction?; } }
    var i :| 0 <= i < |w| && w[i].SystemAction?;
    if p != w {
      assert p[if i == 0 then 0 else i + 1] == w[i];
    }
  }
}
