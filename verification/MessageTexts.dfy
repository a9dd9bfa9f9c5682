/** What the messages built from a history say: the text and the id of every tool result, the text and
    the calls of every message of the model, what each other event says for itself, and what makes the
    processing fail. */
module MessageTexts {
  import opened Wrappers
  import opened ConversationMemory
  import CompleteCalls
  import Strings

  // ---- Results and calls are the latest of the history ----

  predicate Observes(e: Event, id: string) {
    e.Observation? && e.callId == Some(id)
  }

  /** The observation at `k` is the latest of the events with this call id. */
  predicate LatestObservation(events: seq<Event>, id: string, k: nat) {
    && k < |events| && Observes(events[k], id)
    && forall j | k < j < |events| :: !Observes(events[j], id)
  }

  predicate Carries(e: Event, id: string) {
    e.ToolAction? && e.response.Some? && e.response.value.id == id
  }

  predicate LatestResponse(events: seq<Event>, id: string, k: nat) {
    && k < |events| && Carries(events[k], id)
    && forall j | k < j < |events| :: !Carries(events[j], id)
  }

  predicate NotBlank(s: string) {
    exists i | 0 <= i < |s| :: !Strings.IsSpace(s[i])
  }

  /** The message says what the model answered: its calls, and its text unless that is blank. */
  predicate SaysResponse(m: Message, r: Response) {
    && m.role == "assistant" && m.toolCallId == None && m.toolCalls == r.toolCalls
    && (m.content.Some? <==> r.content.Some? && NotBlank(r.content.value))
    && (m.content.Some? ==> m.content == r.content)
  }

  /** The tool message says what the latest observation of its call says. */
  ghost predicate SaysLatest(events: seq<Event>, m: Message) {
    && m.role == "tool" && m.toolCalls == None && m.toolCallId.Some?
    && exists k: nat :: LatestObservation(events, m.toolCallId.value, k) && m.content == Some(events[k].text)
  }

  ghost predicate SaysAnswer(events: seq<Event>, id: string, m: Message) {
    exists k: nat :: LatestResponse(events, id, k) && SaysResponse(m, events[k].response.value)
  }

  ghost predicate SaysSomeAnswer(events: seq<Event>, m: Message) {
    exists k: nat :: k < |events| && LatestAt(events, k) && SaysResponse(m, events[k].response.value)
  }

  predicate LatestAt(events: seq<Event>, k: nat) {
    k < |events| && events[k].ToolAction? && events[k].response.Some? && LatestResponse(events, events[k].response.value.id, k)
  }

  ghost predicate ResultsSay(events: seq<Event>, results: Results) {
    forall id | id in results :: results[id].toolCallId == Some(id) && SaysLatest(events, results[id])
  }

  predicate DistinctKeys(d: Pending) {
    forall i, j | 0 <= i < j < |d| :: d[i].0 != d[j].0
  }

  ghost predicate PendingSays(events: seq<Event>, d: Pending) {
    DistinctKeys(d) && forall i | 0 <= i < |d| :: SaysAnswer(events, d[i].0, d[i].1)
  }

  /** The messages one event adds: results, answers, and what it says for itself. */
  ghost predicate SaysOf(events: seq<Event>, m: Message) {
    SaysLatest(events, m) || SaysSomeAnswer(events, m)
  }

  lemma StillLatest(events: seq<Event>, e: Event, m: Message)
    requires SaysLatest(events, m) && !Observes(e, m.toolCallId.value)
    ensures SaysLatest(events + [e], m)
  {
    var k: nat :| LatestObservation(events, m.toolCallId.value, k) && m.content == Some(events[k].text);
    assert LatestObservation(events + [e], m.toolCallId.value, k);
  }

  lemma StillAnswer(events: seq<Event>, e: Event, id: string, m: Message)
    requires SaysAnswer(events, id, m) && !Carries(e, id)
    ensures SaysAnswer(events + [e], id, m)
  {
    var k: nat :| LatestResponse(events, id, k) && SaysResponse(m, events[k].response.value);
    assert LatestResponse(events + [e], id, k) && (events + [e])[k] == events[k];
  }

  lemma ResultsStep(events: seq<Event>, e: Event, results: Results)
    requires ResultsSay(events, results)
    ensures ResultsSay(events + [e], ResultsWith(results, e))
  {
    var n := ResultsWith(results, e);
    forall id | id in n ensures n[id].toolCallId == Some(id) && SaysLatest(events + [e], n[id]) {
      if Observes(e, id) {
        assert LatestObservation(events + [e], id, |events|);
      } else {
        StillLatest(events, e, results[id]);
      }
    }
  }

  lemma AssistantSays(r: Response)
    ensures SaysResponse(AssistantOf(r), r)
  {
    if r.content.Some? {
      if NotBlank(r.content.value) {
        Strings.StripKeepsText(r.content.value);
      } else {
        Strings.BlankIsStripped(r.content.value);
      }
    }
  }

  lemma {:induction false} UpsertSays(events: seq<Event>, d: Pending, key: string, m: Message)
    requires DistinctKeys(d) && SaysAnswer(events, key, m)
    requires forall i | 0 <= i < |d| && d[i].0 != key :: SaysAnswer(events, d[i].0, d[i].1)
    ensures PendingSays(events, Upsert(d, key, m))
    ensures forall i | 0 <= i < |Upsert(d, key, m)| ::
      Upsert(d, key, m)[i].0 == key || exists j | 0 <= j < |d| :: d[j].0 == Upsert(d, key, m)[i].0
    ensures (key, m) in Upsert(d, key, m)
  {
    hide SaysAnswer;
    if d != [] && d[0].0 != key {
      UpsertSays(events, d[1..], key, m);
      var u := Upsert(d[1..], key, m);
      assert Upsert(d, key, m) == [d[0]] + u;
      forall i | 0 <= i < |u| ensures u[i].0 != d[0].0 && (u[i].0 == key || exists j | 0 <= j < |d| :: d[j].0 == u[i].0) {
        if u[i].0 != key {
          var j :| 0 <= j < |d| - 1 && d[1..][j].0 == u[i].0;
          assert d[j + 1].0 == u[i].0;
        }
      }
    }
  }

  lemma PendingStep(events: seq<Event>, e: Event, d: Pending)
    requires PendingSays(events, d)
    ensures PendingSays(events + [e], PendingWith(d, e))
  {
    hide SaysResponse, LatestResponse;
    if e.ToolAction? && e.response.Some? {
      var r := e.response.value;
      AssistantSays(r);
      assert LatestResponse(events + [e], r.id, |events|) by { LastCarries(events, e); }
      assert SaysAnswer(events + [e], r.id, AssistantOf(r)) by { assert (events + [e])[|events|] == e; }
      forall i | 0 <= i < |d| && d[i].0 != r.id ensures SaysAnswer(events + [e], d[i].0, d[i].1) {
        StillAnswer(events, e, d[i].0, d[i].1);
      }
      hide SaysAnswer;
      UpsertSays(events + [e], d, r.id, AssistantOf(r));
    } else {
      forall i | 0 <= i < |d| ensures SaysAnswer(events + [e], d[i].0, d[i].1) {
        StillAnswer(events, e, d[i].0, d[i].1);
      }
    }
  }

  lemma LastCarries(events: seq<Event>, e: Event)
    requires e.ToolAction? && e.response.Some?
    ensures LatestResponse(events + [e], e.response.value.id, |events|)
  {
  }

  lemma {:induction false} TakenSay(events: seq<Event>, calls: seq<ToolCall>, results: Results)
    requires ResultsSay(events, results) && TakeResults(calls, results).Some?
    ensures var (ms, left) := TakeResults(calls, results).value;
      ResultsSay(events, left) && forall i | 0 <= i < |ms| :: SaysLatest(events, ms[i])
  {
    hide SaysLatest;
    if calls != [] { TakenSay(events, calls[1..], results - {calls[0].id}); }
  }

  lemma AnswerIsSome(events: seq<Event>, id: string, m: Message)
    requires SaysAnswer(events, id, m)
    ensures SaysSomeAnswer(events, m)
  {
    hide SaysResponse;
    var k: nat :| LatestResponse(events, id, k) && SaysResponse(m, events[k].response.value);
    assert LatestAt(events, k);
  }

  lemma {:induction false} DrainedSay(events: seq<Event>, d: Pending, results: Results)
    requires ResultsSay(events, results) && PendingSays(events, d) && Drain(d, results).Ok?
    ensures var Drained(ms, kept, left) := Drain(d, results).value;
      && ResultsSay(events, left) && PendingSays(events, kept)
      && (forall i | 0 <= i < |ms| :: SaysOf(events, ms[i]))
      && (forall i | 0 <= i < |kept| :: kept[i] in d)
  {
    hide ResultsSay, SaysAnswer, SaysLatest, SaysSomeAnswer, Complete, TakeResults;
    if d != [] {
      var m, rest := d[0].1, d[1..];
      assert PendingSays(events, rest);
      if Complete(m.toolCalls.value, results) {
        var calls := m.toolCalls.value;
        TakenSay(events, calls, results);
        AnswerIsSome(events, d[0].0, m);
        DrainedSay(events, rest, TakeResults(calls, results).value.1);
      } else {
        DrainedSay(events, rest, results);
        KeptFirst(events, d, Drain(rest, results).value.kept);
      }
    }
  }

  lemma KeptFirst(events: seq<Event>, d: Pending, kept: Pending)
    requires d != [] && PendingSays(events, d) && PendingSays(events, kept)
    requires forall i | 0 <= i < |kept| :: kept[i] in d[1..]
    ensures PendingSays(events, [d[0]] + kept)
  {
    hide SaysAnswer;
    forall i | 0 <= i < |kept| ensures kept[i].0 != d[0].0 {
      var j :| 0 <= j < |d| - 1 && d[1..][j] == kept[i];
      assert d[j + 1] == kept[i];
    }
  }

  lemma StepSays(events: seq<Event>, st: State, e: Event)
    requires PendingSays(events, st.pending) && ResultsSay(events, st.results) && StepEvent(st, e).Ok?
    ensures var n := StepEvent(st, e).value;
      && PendingSays(events + [e], n.pending) && ResultsSay(events + [e], n.results)
      && st.messages + OwnMessages(e) <= n.messages
      && forall i | |st.messages| + |OwnMessages(e)| <= i < |n.messages| :: SaysOf(events + [e], n.messages[i])
  {
    hide PendingSays, ResultsSay, Drain, OwnMessages, PendingWith, ResultsWith, SaysOf;
    PendingStep(events, e, st.pending);
    ResultsStep(events, e, st.results);
    DrainedSay(events + [e], PendingWith(st.pending, e), ResultsWith(st.results, e));
  }

  /** What the last event adds: its own message, then answers of the model as the latest event with their
      response id gives them, and results with the text and the id of the latest observation of their call. */
  lemma {:induction false} EveryMessageIsOfAnEvent(events: seq<Event>)
    requires After(events).Ok?
    ensures PendingSays(events, After(events).value.pending) && ResultsSay(events, After(events).value.results)
    ensures events != [] ==>
      var n := |events| - 1;
      && After(events[..n]).Ok?
      && var had, now := After(events[..n]).value.messages + OwnMessages(events[n]), After(events).value.messages;
         had <= now && forall i | |had| <= i < |now| :: SaysOf(events, now[i])
  {
    hide StepEvent, SaysAnswer, SaysLatest, OwnMessages, SaysOf;
    if events != [] {
      var n := |events| - 1;
      EveryMessageIsOfAnEvent(events[..n]);
      assert events == events[..n] + [events[n]];
      hide PendingSays, ResultsSay;
      StepSays(events[..n], After(events[..n]).value, events[n]);
    }
  }

  /** The message was added by one of the events, with what was the latest at that time. */
  ghost predicate SaidAt(events: seq<Event>, n: nat, m: Message) {
    n <= |events| && SaysLatest(events[..n], m)
  }

  ghost predicate AnsweredAt(events: seq<Event>, n: nat, m: Message) {
    n <= |events| && SaysSomeAnswer(events[..n], m)
  }

  /** A tool message says an observation, and a message with calls an answer, of some earlier moment. */
  ghost predicate HasSource(events: seq<Event>, m: Message) {
    && (m.role == "tool" ==> exists n: nat :: SaidAt(events, n, m))
    && (m.toolCalls.Some? ==> exists n: nat :: AnsweredAt(events, n, m))
  }

  lemma SourceStays(events: seq<Event>, n: nat, m: Message)
    requires n <= |events| && HasSource(events[..n], m)
    ensures HasSource(events, m)
  {
    hide SaysLatest, SaysSomeAnswer;
    if k: nat :| SaidAt(events[..n], k, m) {
      assert events[..n][..k] == events[..k];
      assert SaidAt(events, k, m);
    }
    if k: nat :| AnsweredAt(events[..n], k, m) {
      assert events[..n][..k] == events[..k];
      assert AnsweredAt(events, k, m);
    }
  }

  lemma SourceNow(events: seq<Event>, m: Message)
    requires SaysOf(events, m)
    ensures HasSource(events, m)
  {
    ToolOrAnswer(events, m);
    hide SaysLatest, SaysSomeAnswer;
    assert events[..|events|] == events;
    assert SaysLatest(events, m) ==> SaidAt(events, |events|, m);
    assert SaysSomeAnswer(events, m) ==> AnsweredAt(events, |events|, m);
  }

  lemma OwnNeedNoSource(events: seq<Event>, e: Event, i: nat)
    requires i < |OwnMessages(e)|
    ensures HasSource(events, OwnMessages(e)[i])
  {
  }

  /** Every tool message carries the text and the call id of an observation, the latest of that call when
      it was placed; every message with calls carries the calls and the text of an answer of the model. */
  lemma {:induction false} ToolTextsAreObserved(events: seq<Event>, i: nat)
    requires After(events).Ok? && i < |After(events).value.messages|
    ensures HasSource(events, After(events).value.messages[i])
  {
    hide StepEvent, HasSource, SaysOf, OwnMessages, PendingSays, ResultsSay;
    if events != [] {
      EveryMessageIsOfAnEvent(events);
      var n := |events| - 1;
      var st, m := After(events[..n]).value, After(events).value.messages[i];
      if i < |st.messages| {
        assert m == (st.messages + OwnMessages(events[n]))[i];
        ToolTextsAreObserved(events[..n], i);
        SourceStays(events, n, m);
      } else if i < |st.messages| + |OwnMessages(events[n])| {
        assert m == (st.messages + OwnMessages(events[n]))[i];
        OwnNeedNoSource(events, events[n], i - |st.messages|);
      } else {
        SourceNow(events, m);
      }
    }
  }

  lemma ToolOrAnswer(events: seq<Event>, m: Message)
    requires SaysOf(events, m)
    ensures m.role == "tool" ==> SaysLatest(events, m)
    ensures m.toolCalls.Some? ==> SaysSomeAnswer(events, m)
  {
  }

  // ---- What an event says for itself ----

  /** Each kind of event gives at most one message of its own; whose it is and what it says. */
  lemma OwnSay(e: Event, text: string, fromUser: bool)
    ensures OwnMessages(SystemAction(text)) == [Message("system", Some(text), None, None)]
    ensures OwnMessages(MessageAction(true, text)) == [Message("user", Some(text), None, None)]
    ensures OwnMessages(MessageAction(false, text)) == [Message("assistant", Some(text), None, None)]
    ensures OwnMessages(UserCommand(text)) == [Message("user", Some("User executed the command:\n" + text), None, None)]
    ensures OwnMessages(ToolAction(true, text, None))
         == [Message("user", Some("User requested to read file: " + text), None, None)]
    ensures OwnMessages(Observation(text, None)) == [Message("user", Some(text), None, None)]
    ensures OwnMessages(DirectObservation(text)) == [Message("user", Some(text), None, None)]
    ensures OwnMessages(e) == [] <==>
      || e.SilentAction? || e.SilentObservation? || e.UnknownObservation? || e.Unknown?
      || (e.ToolAction? && !(e.fromUser && e.response.None?)) || (e.Observation? && e.callId.Some?)
    ensures |OwnMessages(e)| <= 1
  {
  }

  /** A finishing action says its thought and then what its response says, but nothing twice; the
      history is left with that text and without the response. */
  lemma FinishSays(fromUser: bool, thought: string, response: Option<Response>)
    ensures var e := FinishAction(fromUser, thought, response);
      var said := if response.Some? && response.value.content.Some? then response.value.content.value else "";
      && |OwnMessages(e)| == 1
      && var m := OwnMessages(e)[0];
         && m.role == (if fromUser then "user" else "assistant") && m.toolCalls == None && m.toolCallId == None
         && (response.None? ==> m.content == Some(thought))
         && (response.Some? && (thought == "" || thought == said) ==> m.content == Some(said))
         && (response.Some? && thought != "" && thought != said ==> m.content == Some(thought + "\n" + said))
         && Folded(e) == FinishAction(fromUser, m.content.value, None)
  {
  }

  lemma OthersNotFolded(e: Event)
    requires !e.FinishAction?
    ensures Folded(e) == e
  {
  }

  // ---- Why processing fails ----

  predicate LacksMetadata(e: Event) {
    e.ToolAction? && !e.fromUser && e.response.None?
  }

  predicate IsUnknown(e: Event) {
    e.Unknown? || e.UnknownObservation?
  }

  predicate AnswersWithoutCalls(e: Event) {
    e.ToolAction? && e.response.Some? && e.response.value.toolCalls.None?
  }

  predicate RepeatsCallId(e: Event) {
    && e.ToolAction? && e.response.Some? && e.response.value.toolCalls.Some?
    && exists i, j :: 0 <= i < j < |e.response.value.toolCalls.value|
         && e.response.value.toolCalls.value[i].id == e.response.value.toolCalls.value[j].id
  }

  lemma {:induction false} DrainFails(d: Pending, results: Results)
    ensures Drain(d, results) == Err(NoToolCalls) ==> exists i | 0 <= i < |d| :: d[i].1.toolCalls.None?
    ensures Drain(d, results) == Err(RepeatedCallId) ==>
      exists i | 0 <= i < |d| :: d[i].1.toolCalls.Some? && !CompleteCalls.DistinctIds(d[i].1.toolCalls.value)
    ensures Drain(d, results).Err? ==> Drain(d, results).error.NoToolCalls? || Drain(d, results).error.RepeatedCallId?
    ensures Drain(d, results).Ok? ==> forall i | 0 <= i < |d| :: d[i].1.toolCalls.Some?
  {
    hide CompleteCalls.DistinctIds, TakeResults, Complete;
    if d != [] && d[0].1.toolCalls.Some? {
      var calls := d[0].1.toolCalls.value;
      if Complete(calls, results) {
        CompleteCalls.RepeatedIdFails(calls, results);
        if TakeResults(calls, results).Some? { DrainFails(d[1..], TakeResults(calls, results).value.1); }
      } else {
        DrainFails(d[1..], results);
      }
      assert forall i | 0 < i < |d| :: d[i] == d[1..][i - 1];
    }
  }

  lemma PendingCause(events: seq<Event>, id: string, m: Message)
    requires SaysAnswer(events, id, m)
    ensures m.toolCalls.None? ==> HasCause(events, NoToolCalls)
    ensures m.toolCalls.Some? && !CompleteCalls.DistinctIds(m.toolCalls.value) ==> HasCause(events, RepeatedCallId)
  {
    var k: nat :| LatestResponse(events, id, k) && SaysResponse(m, events[k].response.value);
    assert m.toolCalls.None? ==> AnswersWithoutCalls(events[k]);
    if m.toolCalls.Some? && !CompleteCalls.DistinctIds(m.toolCalls.value) { assert RepeatsCallId(events[k]); }
  }

  predicate HasCause(events: seq<Event>, error: Error) {
    match error
    case MissingMetadata => exists k | 0 <= k < |events| :: LacksMetadata(events[k])
    case UnknownEvent => exists k | 0 <= k < |events| :: IsUnknown(events[k])
    case NoToolCalls => exists k | 0 <= k < |events| :: AnswersWithoutCalls(events[k])
    case RepeatedCallId => exists k | 0 <= k < |events| :: RepeatsCallId(events[k])
  }

  lemma CauseStays(events: seq<Event>, n: nat, error: Error)
    requires n <= |events| && HasCause(events[..n], error)
    ensures HasCause(events, error)
  {
    hide LacksMetadata, IsUnknown, AnswersWithoutCalls, RepeatsCallId;
    assert forall k | 0 <= k < n :: events[..n][k] == events[k];
  }

  /** Each error has its cause in the history. */
  lemma {:induction false} FailsOnlyFor(events: seq<Event>)
    ensures After(events).Err? ==> HasCause(events, After(events).error)
  {
    if events != [] && After(events).Err? {
      var n := |events| - 1;
      if After(events[..n]).Err? {
        FailsOnlyFor(events[..n]);
        CauseStays(events, n, After(events).error);
      } else {
        var st, e := After(events[..n]).value, events[n];
        EveryMessageIsOfAnEvent(events[..n]);
        hide After;
        LastFails(events, st, e);
      }
    }
  }

  lemma LastFails(events: seq<Event>, st: State, e: Event)
    requires events != [] && events[|events| - 1] == e && PendingSays(events[..|events| - 1], st.pending)
    requires StepEvent(st, e).Err?
    ensures HasCause(events, StepEvent(st, e).error)
  {
    if Failure(e).Some? {
      assert LacksMetadata(e) || IsUnknown(e);
    } else {
      var d, results := PendingWith(st.pending, e), ResultsWith(st.results, e);
      assert events == events[..|events| - 1] + [e];
      hide Drain, PendingWith, ResultsWith, PendingSays, HasCause;
      PendingStep(events[..|events| - 1], e, st.pending);
      DrainCause(events, d, results);
    }
  }

  lemma DrainCause(events: seq<Event>, d: Pending, results: Results)
    requires PendingSays(events, d) && Drain(d, results).Err?
    ensures HasCause(events, Drain(d, results).error)
  {
    DrainFails(d, results);
    hide SaysAnswer, CompleteCalls.DistinctIds, Drain, HasCause;
    forall i | 0 <= i < |d|
      ensures d[i].1.toolCalls.None? ==> HasCause(events, NoToolCalls)
      ensures d[i].1.toolCalls.Some? && !CompleteCalls.DistinctIds(d[i].1.toolCalls.value) ==> HasCause(events, RepeatedCallId)
    {
      PendingCause(events, d[i].0, d[i].1);
    }
  }

  /** And it does fail for an action without metadata, an unknown event, and an answer without calls. */
  lemma FailsFor(events: seq<Event>, k: nat)
    requires k < |events| && (LacksMetadata(events[k]) || IsUnknown(events[k]) || AnswersWithoutCalls(events[k]))
    ensures After(events).Err?
  {
    hide StepEvent;
    assert events[..k + 1][..k] == events[..k];
    if After(events[..k]).Err? {
      Stays(events, k);
    } else {
      StepFails(After(events[..k]).value, events[k]);
      Stays(events, k + 1);
    }
  }

  lemma StepFails(st: State, e: Event)
    requires LacksMetadata(e) || IsUnknown(e) || AnswersWithoutCalls(e)
    ensures StepEvent(st, e).Err?
  {
    if AnswersWithoutCalls(e) {
      var r := e.response.value;
      EnteredUnder(st.pending, r.id, AssistantOf(r));
      DrainFails(PendingWith(st.pending, e), ResultsWith(st.results, e));
      hide Drain, Upsert;
    }
  }

  lemma {:induction false} EnteredUnder(d: Pending, key: string, m: Message)
    ensures (key, m) in Upsert(d, key, m)
  {
    if d != [] && d[0].0 != key { EnteredUnder(d[1..], key, m); }
  }

  /** An answer under an id that waits already takes the place of the one there, any other comes last. */
  lemma {:induction false} UpsertExactly(d: Pending, key: string, m: Message, i: nat)
    requires DistinctKeys(d)
    ensures (forall j | 0 <= j < |d| :: d[j].0 != key) ==> Upsert(d, key, m) == d + [(key, m)]
    ensures i < |d| && d[i].0 == key ==> Upsert(d, key, m) == d[i := (key, m)]
  {
    if d != [] {
      assert d == [d[0]] + d[1..];
      if d[0].0 == key {
        assert [(key, m)] + d[1..] == d[0 := (key, m)];
      } else {
        UpsertExactly(d[1..], key, m, if i == 0 then 0 else i - 1);
        if 0 < i < |d| && d[i].0 == key {
          assert [d[0]] + d[1..][i - 1 := (key, m)] == d[i := (key, m)];
        }
      }
    }
  }

  // ---- The passes before and after ----

  /** The empty line goes before a user message that directly follows another user message, and nowhere else. */
  lemma FormattedExactly(ms: seq<Message>, i: nat)
    requires i < |ms|
    ensures var m := Formatted(ms, "")[i];
      && m.role == ms[i].role && m.toolCalls == ms[i].toolCalls && m.toolCallId == ms[i].toolCallId
      && m.content == if i > 0 && ms[i].role == "user" && ms[i - 1].role == "user" && ms[i].content.Some?
                      then Some("\n\n" + ms[i].content.value) else ms[i].content
  {
    FormattedAfter(ms, "", i);
  }

  lemma {:induction false} FormattedAfter(ms: seq<Message>, prevRole: string, i: nat)
    requires i < |ms|
    ensures Formatted(ms, prevRole)[i] ==
      if (if i == 0 then prevRole else ms[i - 1].role) == "user" && ms[i].role == "user" && ms[i].content.Some?
      then ms[i].(content := Some("\n\n" + ms[i].content.value)) else ms[i]
  {
    if i > 0 { FormattedAfter(ms[1..], ms[0].role, i - 1); }
  }

  predicate IsUserMessage(e: Event) {
    e.MessageAction? && e.fromUser
  }

  predicate HasSystem(events: seq<Event>) {
    exists i | 0 <= i < |events| :: events[i].SystemAction?
  }

  /** A system message is put first if there is a prompt and the history has none, and then the initial
      instruction second unless a message of the user is there. */
  lemma PreparedExactly(events: seq<Event>, prompt: string, initial: string)
    ensures var p := Prepared(events, prompt, initial);
      if HasSystem(events) || prompt == "" then
        p == if events == [] || (|events| > 1 && IsUserMessage(events[1])) then events
             else [events[0], MessageAction(true, initial)] + events[1..]
      else
        p == [SystemAction(prompt)] + if events != [] && IsUserMessage(events[0]) then events
                                      else [MessageAction(true, initial)] + events
  {
    if !HasSystem(events) && prompt != "" {
      assert ([SystemAction(prompt)] + events)[1..] == events;
      assert [SystemAction(prompt), MessageAction(true, initial)] + events
          == [SystemAction(prompt)] + ([MessageAction(true, initial)] + events);
    }
  }

  // ---- The filter on any messages ----

  predicate Called(ms: seq<Message>, id: string) {
    id != "" && exists i, j | 0 <= i < |ms| && ms[i].toolCalls.Some? && 0 <= j < |ms[i].toolCalls.value| ::
      ms[i].role == "assistant" && ms[i].toolCalls.value[j].id == id
  }

  predicate Answered(ms: seq<Message>, id: string) {
    id != "" && exists i | 0 <= i < |ms| :: ms[i].role == "tool" && ms[i].toolCallId == Some(id)
  }

  lemma IdsExactly(ms: seq<Message>, id: string)
    ensures id in CallIds(ms) <==> Called(ms, id)
    ensures id in ResponseIds(ms) <==> Answered(ms, id)
  {
    if Called(ms, id) {
      var i, j :| 0 <= i < |ms| && ms[i].toolCalls.Some? && 0 <= j < |ms[i].toolCalls.value|
        && ms[i].role == "assistant" && ms[i].toolCalls.value[j].id == id;
      assert ms[i].toolCalls.value[j].id in CallIds(ms);
    }
  }

  predicate IsNamedResult(m: Message) {
    m.role == "tool" && m.toolCallId.Some? && m.toolCallId.value != ""
  }

  predicate IsCalling(m: Message) {
    m.role == "assistant" && m.toolCalls.Some? && m.toolCalls.value != []
  }

  /** The message stays: a result if its call is there, a message with calls if one of them has its result. */
  predicate Survives(ms: seq<Message>, m: Message) {
    if IsNamedResult(m) then Called(ms, m.toolCallId.value)
    else if IsCalling(m) then exists j | 0 <= j < |m.toolCalls.value| :: Answered(ms, m.toolCalls.value[j].id)
    else true
  }

  /** What stays of it: all, except that calls without a result are taken out. */
  ghost predicate StaysAs(ms: seq<Message>, m: Message, n: Message) {
    && n.role == m.role && n.content == m.content && n.toolCallId == m.toolCallId
    && if IsCalling(m) then
         && n.toolCalls.Some?
         && (forall c :: c in n.toolCalls.value <==> c in m.toolCalls.value && Answered(ms, c.id))
         && (forall c: ToolCall | Answered(ms, c.id) :: multiset(n.toolCalls.value)[c] == multiset(m.toolCalls.value)[c])
         && InOrder(n.toolCalls.value, m.toolCalls.value)
       else n.toolCalls == m.toolCalls
  }

  predicate InOrder(a: seq<ToolCall>, b: seq<ToolCall>) {
    a == [] || (b != [] && InOrder(if a[0] == b[0] then a[1..] else a, b[1..]))
  }

  lemma {:induction false} InOrderLonger(a: seq<ToolCall>, x: ToolCall, b: seq<ToolCall>)
    requires InOrder(a, b)
    ensures InOrder(a, [x] + b)
    decreases |b|, 2
  {
    assert ([x] + b)[1..] == b;
    if a != [] && a[0] == x && b != [] {
      assert b == [b[0]] + b[1..];
      if a[0] == b[0] {
        InOrderLonger(a[1..], b[0], b[1..]);
      } else {
        InOrderShorter(a, b);
      }
    }
  }

  lemma {:induction false} InOrderShorter(a: seq<ToolCall>, b: seq<ToolCall>)
    requires InOrder(a, b) && a != []
    ensures InOrder(a[1..], b)
    decreases |b|, 1
  {
    assert b == [b[0]] + b[1..];
    if a[0] != b[0] { InOrderShorter(a, b[1..]); }
    InOrderLonger(a[1..], b[0], b[1..]);
  }

  lemma {:induction false} MatchedExactly(calls: seq<ToolCall>, ids: set<string>)
    ensures var r := Matched(calls, ids);
      && (forall c :: c in r <==> c in calls && c.id in ids)
      && (forall c: ToolCall | c.id in ids :: multiset(r)[c] == multiset(calls)[c])
      && InOrder(r, calls)
  {
    if calls != [] {
      MatchedExactly(calls[1..], ids);
      assert calls == [calls[0]] + calls[1..];
      var rest := Matched(calls[1..], ids);
      if calls[0].id in ids {
        assert ([calls[0]] + rest)[1..] == rest;
      } else {
        InOrderLonger(rest, calls[0], calls[1..]);
      }
    }
  }

  lemma FilterOneExactly(ms: seq<Message>, m: Message)
    ensures var f := FilterOne(m, CallIds(ms), ResponseIds(ms));
      |f| == (if Survives(ms, m) then 1 else 0) && (Survives(ms, m) ==> StaysAs(ms, m, f[0]))
  {
    hide CallIds, ResponseIds, Matched, Called, Answered, InOrder;
    if IsNamedResult(m) {
      IdsExactly(ms, m.toolCallId.value);
    } else if IsCalling(m) {
      var calls, ids := m.toolCalls.value, ResponseIds(ms);
      MatchedExactly(calls, ids);
      forall id ensures id in ids <==> Answered(ms, id) { IdsExactly(ms, id); }
      var r := Matched(calls, ids);
      if r != [] {
        assert r[0] in r;
        var j :| 0 <= j < |calls| && calls[j] == r[0];
        assert Answered(ms, calls[j].id);
      } else if j :| 0 <= j < |calls| && Answered(ms, calls[j].id) {
        assert false;
      }
    }
  }

  /** How many of the first `i` messages survive. */
  function Surviving(ms: seq<Message>, i: nat): nat
    requires i <= |ms|
  {
    if i == 0 then 0 else Surviving(ms, i - 1) + if Survives(ms, ms[i - 1]) then 1 else 0
  }

  /** For any messages, the filter keeps exactly the surviving ones, in order, with the calls that have a result. */
  lemma FilterExactly(ms: seq<Message>)
    ensures |Filtered(ms)| == Surviving(ms, |ms|)
    ensures forall i | 0 <= i < |ms| && Survives(ms, ms[i]) ::
      Surviving(ms, i) < |Filtered(ms)| && StaysAs(ms, ms[i], Filtered(ms)[Surviving(ms, i)])
  {
    hide Survives, StaysAs, FilterOne, CallIds, ResponseIds;
    assert ms[..|ms|] == ms;
    FilterPrefix(ms, |ms|);
  }

  lemma {:induction false} FilterPrefix(ms: seq<Message>, n: nat)
    requires n <= |ms|
    ensures var f := FilterAll(ms[..n], CallIds(ms), ResponseIds(ms));
      && |f| == Surviving(ms, n)
      && forall i | 0 <= i < n && Survives(ms, ms[i]) ::
           Surviving(ms, i) < |f| && StaysAs(ms, ms[i], f[Surviving(ms, i)])
  {
    hide Survives, StaysAs, FilterOne, CallIds, ResponseIds;
    if n > 0 {
      FilterPrefix(ms, n - 1);
      FilterOneExactly(ms, ms[n - 1]);
      assert ms[..n] == ms[..n - 1] + [ms[n - 1]];
      FilterAppend(ms[..n - 1], ms[n - 1], CallIds(ms), ResponseIds(ms));
    }
  }

  lemma {:induction false} FilterAppend(ms: seq<Message>, m: Message, callIds: set<string>, responseIds: set<string>)
    ensures FilterAll(ms + [m], callIds, responseIds)
         == FilterAll(ms, callIds, responseIds) + FilterOne(m, callIds, responseIds)
  {
    hide FilterOne;
    var one := FilterOne(m, callIds, responseIds);
    if ms == [] {
      assert ms + [m] == [m] && [m][1..] == [];
      assert FilterAll([m], callIds, responseIds) == one + [];
    } else {
      assert (ms + [m])[1..] == ms[1..] + [m];
      FilterAppend(ms[1..], m, callIds, responseIds);
      var f := FilterOne(ms[0], callIds, responseIds);
      assert f + (FilterAll(ms[1..], callIds, responseIds) + one) == (f + FilterAll(ms[1..], callIds, responseIds)) + one;
    }
  }

  lemma {:induction false} OriginOf(ms: seq<Message>, n: nat, o: nat) returns (i: nat)
    requires n <= |ms| && o < Surviving(ms, n)
    ensures i < n && Survives(ms, ms[i]) && Surviving(ms, i) == o
  {
    hide Survives;
    if o < Surviving(ms, n - 1) {
      i := OriginOf(ms, n - 1, o);
    } else {
      i := n - 1;
    }
  }

  /** Every tool message that is sent carries the text and the call id of an observation of the history. */
  lemma SentTextsAreObserved(events: seq<Event>, o: nat)
    requires After(events).Ok? && o < |Formatted(Filtered(After(events).value.messages), "")|
    requires Formatted(Filtered(After(events).value.messages), "")[o].role == "tool"
    ensures HasSource(events, Formatted(Filtered(After(events).value.messages), "")[o])
  {
    var ms := After(events).value.messages;
    hide After, Filtered, Formatted, HasSource, Survives, Called, Answered;
    FilterExactly(ms);
    FormattedExactly(Filtered(ms), o);
    var i := OriginOf(ms, |ms|, o);
    ToolTextsAreObserved(events, i);
    assert Formatted(Filtered(ms), "")[o] == ms[i];
  }
}
