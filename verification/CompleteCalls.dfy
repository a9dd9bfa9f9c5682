/** Which calls are placed: in a well-formed history a response is placed once it has been acted on
    and all its calls have been observed, and then exactly once. */
module CompleteCalls {
  import opened Wrappers
  import opened ConversationMemory

  function Ids(calls: seq<ToolCall>): set<string> {
    set i | 0 <= i < |calls| :: calls[i].id
  }

  predicate DistinctIds(calls: seq<ToolCall>) {
    forall i, j | 0 <= i < j < |calls| :: calls[i].id != calls[j].id
  }

  predicate CompleteIn(m: Message, results: Results) {
    m.toolCalls.Some? && Complete(m.toolCalls.value, results)
  }

  lemma CompleteByIds(calls: seq<ToolCall>, results: Results)
    ensures Complete(calls, results) <==> Ids(calls) <= results.Keys
  {
    forall i | 0 <= i < |calls| ensures calls[i].id in Ids(calls) {}
  }

  /** Once all results are there, taking them fails exactly when an id is repeated. */
  lemma {:induction false} RepeatedIdFails(calls: seq<ToolCall>, results: Results)
    requires Complete(calls, results)
    ensures TakeResults(calls, results).Some? <==> DistinctIds(calls)
    ensures TakeResults(calls, results).Some? ==>
      var (ms, left) := TakeResults(calls, results).value; left == results - Ids(calls) && |ms| == |calls|
  {
    if calls != [] {
      hide Complete, DistinctIds, Ids;
      if forall i | 0 < i < |calls| :: calls[i].id != calls[0].id {
        var rest, left := calls[1..], results - {calls[0].id};
        RestComplete(calls, results);
        RepeatedIdFails(rest, left);
        DistinctSplit(calls);
        IdsSplit(calls);
        assert left - Ids(rest) == results - Ids(calls);
      } else {
        FirstRepeated(calls, results);
      }
    }
  }

  lemma RestComplete(calls: seq<ToolCall>, results: Results)
    requires calls != [] && Complete(calls, results) && forall i | 0 < i < |calls| :: calls[i].id != calls[0].id
    ensures Complete(calls[1..], results - {calls[0].id}) && calls[0].id in results
  {
  }

  lemma FirstRepeated(calls: seq<ToolCall>, results: Results)
    requires exists i | 0 < i < |calls| :: calls[i].id == calls[0].id
    ensures TakeResults(calls, results).None? && !DistinctIds(calls)
  {
    var i :| 0 < i < |calls| && calls[i].id == calls[0].id;
    var left := results - {calls[0].id};
    assert calls[1..][i - 1].id !in left;
    MissingFails(calls[1..], left, i - 1);
  }

  lemma IdsSplit(calls: seq<ToolCall>)
    requires calls != []
    ensures Ids(calls) == {calls[0].id} + Ids(calls[1..])
  {
    forall id | id in Ids(calls) ensures id in {calls[0].id} + Ids(calls[1..]) {
      var i :| 0 <= i < |calls| && calls[i].id == id;
      if i > 0 { assert calls[1..][i - 1].id == id; }
    }
  }

  lemma DistinctSplit(calls: seq<ToolCall>)
    requires calls != [] && forall i | 0 < i < |calls| :: calls[i].id != calls[0].id
    ensures DistinctIds(calls[1..]) <==> DistinctIds(calls)
  {
    var rest := calls[1..];
    if DistinctIds(rest) {
      forall i, j | 0 <= i < j < |calls| ensures calls[i].id != calls[j].id {
        if i > 0 { assert rest[i - 1].id != rest[j - 1].id; }
      }
    }
  }

  lemma {:induction false} MissingFails(calls: seq<ToolCall>, results: Results, i: nat)
    requires i < |calls| && calls[i].id !in results
    ensures TakeResults(calls, results).None?
  {
    if i > 0 && calls[0].id in results { MissingFails(calls[1..], results - {calls[0].id}, i - 1); }
  }

  // ---- Draining entries that share no ids ----

  predicate Proper(m: Message) {
    m.role == "assistant" && m.toolCalls.Some? && m.toolCalls.value != [] && DistinctIds(m.toolCalls.value)
  }

  predicate Separate(d: Pending) {
    && (forall i | 0 <= i < |d| :: Proper(d[i].1))
    && (forall i, j | 0 <= i < j < |d| :: d[i].0 != d[j].0 && Ids(d[i].1.toolCalls.value) !! Ids(d[j].1.toolCalls.value))
  }

  predicate EntriesApart(x: (string, Message), y: (string, Message)) {
    Proper(x.1) && Proper(y.1) && x.0 != y.0 && Ids(x.1.toolCalls.value) !! Ids(y.1.toolCalls.value)
  }

  /** The ids of the entries that are complete. */
  function DoneIds(d: Pending, results: Results): set<string> {
    if d == [] then {}
    else (if CompleteIn(d[0].1, results) then Ids(d[0].1.toolCalls.value) else {}) + DoneIds(d[1..], results)
  }

  function Waiting(d: Pending, results: Results): Pending {
    if d == [] then [] else (if CompleteIn(d[0].1, results) then [] else [d[0]]) + Waiting(d[1..], results)
  }

  /** How often a message is among the complete entries. */
  function Placed(d: Pending, results: Results, m: Message): nat {
    if d == [] then 0 else (if CompleteIn(d[0].1, results) && d[0].1 == m then 1 else 0) + Placed(d[1..], results, m)
  }

  /** Taking the results of one entry makes no difference to the entries that share no id with it. */
  lemma {:induction false} OthersUnaffected(d: Pending, results: Results, taken: set<string>)
    requires forall i | 0 <= i < |d| :: Proper(d[i].1) && Ids(d[i].1.toolCalls.value) !! taken
    ensures DoneIds(d, results - taken) == DoneIds(d, results)
    ensures Waiting(d, results - taken) == Waiting(d, results)
    ensures forall m :: Placed(d, results - taken, m) == Placed(d, results, m)
  {
    hide DistinctIds, Complete;
    if d != [] {
      OthersUnaffected(d[1..], results, taken);
      CompleteByIds(d[0].1.toolCalls.value, results);
      CompleteByIds(d[0].1.toolCalls.value, results - taken);
    }
  }

  lemma ResultsAreNot(calls: seq<ToolCall>, results: Results, m: Message)
    requires Complete(calls, results) && DistinctIds(calls) && ToolResultsOnly(results) && m.role == "assistant"
    ensures TakeResults(calls, results).Some? && m !in TakeResults(calls, results).value.0
    decreases |calls|
  {
    RepeatedIdFails(calls, results);
    TakenAreResults(calls, results);
  }

  predicate ToolResultsOnly(results: Results) {
    forall k | k in results :: results[k].role == "tool"
  }

  lemma {:induction false} TakenAreResults(calls: seq<ToolCall>, results: Results)
    requires TakeResults(calls, results).Some? && ToolResultsOnly(results)
    ensures forall m | m in TakeResults(calls, results).value.0 :: m.role == "tool"
  {
    if calls != [] { TakenAreResults(calls[1..], results - {calls[0].id}); }
  }

  lemma CountParts(m: Message, ms: seq<Message>, more: seq<Message>, x: Message)
    requires x !in ms
    ensures multiset([m] + ms + more)[x] == (if m == x then 1 else 0) + multiset(more)[x]
  {
    assert multiset([m] + ms + more) == multiset{m} + multiset(ms) + multiset(more);
  }

  /** Draining places each complete entry once and keeps the others. */
  lemma {:induction false} DrainSeparate(d: Pending, results: Results)
    requires Separate(d) && ToolResultsOnly(results)
    ensures Drain(d, results).Ok?
    ensures var Drained(ms, kept, left) := Drain(d, results).value;
      && kept == Waiting(d, results) && left == results - DoneIds(d, results)
      && forall m: Message | m.role == "assistant" :: multiset(ms)[m] == Placed(d, results, m)
  {
    hide DistinctIds, Complete, TakeResults, Ids;
    if d != [] {
      var m, rest := d[0].1, d[1..];
      var calls := m.toolCalls.value;
      assert Separate(rest);
      if CompleteIn(m, results) {
        RepeatedIdFails(calls, results);
        DrainSeparate(rest, TakeResults(calls, results).value.1);
        OthersUnaffected(rest, results, Ids(calls));
        PlacesHead(d, results);
      } else {
        DrainSeparate(rest, results);
        assert [] + Drain(rest, results).value.messages == Drain(rest, results).value.messages;
        assert DoneIds(d, results) == DoneIds(rest, results);
      }
    }
  }

  /** Draining when the first entry is complete, given what draining the others does. */
  lemma PlacesHead(d: Pending, results: Results)
    requires d != [] && Separate(d) && ToolResultsOnly(results) && CompleteIn(d[0].1, results)
    requires TakeResults(d[0].1.toolCalls.value, results).Some?
    requires var left := TakeResults(d[0].1.toolCalls.value, results).value.1;
      && left == results - Ids(d[0].1.toolCalls.value)
      && Drain(d[1..], left).Ok?
      && var Drained(more, kept, last) := Drain(d[1..], left).value;
         kept == Waiting(d[1..], results) && last == left - DoneIds(d[1..], results)
         && forall x: Message | x.role == "assistant" :: multiset(more)[x] == Placed(d[1..], results, x)
    ensures Drain(d, results).Ok?
    ensures var Drained(ms, kept, left) := Drain(d, results).value;
      && kept == Waiting(d, results) && left == results - DoneIds(d, results)
      && forall x: Message | x.role == "assistant" :: multiset(ms)[x] == Placed(d, results, x)
  {
    hide DistinctIds, Complete, TakeResults, Ids, ToolResultsOnly, Placed, Drain;
    var m, calls := d[0].1, d[0].1.toolCalls.value;
    var (ms, left) := TakeResults(calls, results).value;
    var Drained(more, kept, last) := Drain(d[1..], left).value;
    assert left - DoneIds(d[1..], results) == results - DoneIds(d, results);
    DrainHead(d, results);
    assert [] + kept == kept;
    forall x: Message | x.role == "assistant" ensures multiset([m] + ms + more)[x] == Placed(d, results, x) {
      PlacedHead(d, results, x, ms, more);
    }
  }

  lemma DrainHead(d: Pending, results: Results)
    requires d != [] && CompleteIn(d[0].1, results) && TakeResults(d[0].1.toolCalls.value, results).Some?
    ensures var (ms, left) := TakeResults(d[0].1.toolCalls.value, results).value;
      Drain(d, results) == Glue([d[0].1] + ms, [], Drain(d[1..], left))
  {
  }

  lemma PlacedHead(d: Pending, results: Results, x: Message, ms: seq<Message>, more: seq<Message>)
    requires d != [] && Separate(d) && ToolResultsOnly(results) && CompleteIn(d[0].1, results) && x.role == "assistant"
    requires TakeResults(d[0].1.toolCalls.value, results).Some?
      && ms == TakeResults(d[0].1.toolCalls.value, results).value.0
    requires multiset(more)[x] == Placed(d[1..], results, x)
    ensures multiset([d[0].1] + ms + more)[x] == Placed(d, results, x)
  {
    hide TakeResults, Complete;
    ResultsAreNot(d[0].1.toolCalls.value, results, x);
    CountParts(d[0].1, ms, more, x);
  }

  // ---- Well-formed histories ----

  predicate Acts(e: Event, r: Response) {
    e.ToolAction? && e.response == Some(r)
  }

  predicate Observes(e: Event, id: string) {
    e.Observation? && e.callId == Some(id)
  }

  predicate Acted(events: seq<Event>, r: Response) {
    exists i | 0 <= i < |events| :: Acts(events[i], r)
  }

  predicate Observed(events: seq<Event>, id: string) {
    exists i | 0 <= i < |events| :: Observes(events[i], id)
  }

  predicate AllObserved(events: seq<Event>, r: Response) {
    r.toolCalls.Some? && forall i | 0 <= i < |r.toolCalls.value| :: Observed(events, r.toolCalls.value[i].id)
  }

  predicate Done(events: seq<Event>, r: Response) {
    Acted(events, r) && AllObserved(events, r)
  }

  predicate Apart(r: Response, s: Response)
    requires r.toolCalls.Some? && s.toolCalls.Some?
  {
    r.id != s.id && Ids(r.toolCalls.value) !! Ids(s.toolCalls.value)
  }

  /** Every response has calls with distinct ids, different responses share neither id nor call ids,
      and a call is observed at most once. */
  ghost predicate WellFormed(events: seq<Event>) {
    && (forall i | 0 <= i < |events| :: Failure(events[i]).None?)
    && (forall r | Acted(events, r) :: Proper(AssistantOf(r)))
    && (forall r, s | Acted(events, r) && Acted(events, s) && r != s :: Apart(r, s))
    && (forall i, j, id | 0 <= i < j < |events| && Observes(events[i], id) :: !Observes(events[j], id))
  }

  // ---- What holds while a well-formed history is processed ----

  function Entry(r: Response): (string, Message) {
    (r.id, AssistantOf(r))
  }

  ghost predicate OwnedByDone(events: seq<Event>, id: string) {
    exists r :: Done(events, r) && id in Ids(r.toolCalls.value)
  }

  ghost predicate IsEntry(events: seq<Event>, x: (string, Message)) {
    exists r :: Acted(events, r) && x == Entry(r)
  }

  ghost predicate ResultsRight(p: seq<Event>, results: Results) {
    ToolResultsOnly(results) && forall id: string :: id in results <==> Observed(p, id) && !OwnedByDone(p, id)
  }

  /** `pending` holds entries of `p` only, and an entry for each response that is not done by `before`. */
  ghost predicate PendingRight(before: seq<Event>, p: seq<Event>, d: Pending) {
    && Separate(d)
    && (forall i | 0 <= i < |d| :: IsEntry(p, d[i]))
    && (forall r | Acted(p, r) && !Done(before, r) :: Entry(r) in d)
  }

  ghost predicate PlacedOnce(all: seq<Event>, p: seq<Event>, messages: seq<Message>) {
    forall r | Acted(all, r) :: multiset(messages)[AssistantOf(r)] == if Done(p, r) then 1 else 0
  }

  lemma Grows(p: seq<Event>, e: Event)
    ensures forall r :: Acted(p + [e], r) <==> Acted(p, r) || Acts(e, r)
    ensures forall id :: Observed(p + [e], id) <==> Observed(p, id) || Observes(e, id)
    ensures forall r :: Done(p, r) ==> Done(p + [e], r)
  {
    var q := p + [e];
    forall r ensures Acted(q, r) <==> Acted(p, r) || Acts(e, r) {
      if Acted(p, r) { var i :| 0 <= i < |p| && Acts(p[i], r); assert Acts(q[i], r); }
      if Acts(e, r) { assert Acts(q[|p|], r); }
    }
    forall id ensures Observed(q, id) <==> Observed(p, id) || Observes(e, id) {
      if Observed(p, id) { var i :| 0 <= i < |p| && Observes(p[i], id); assert Observes(q[i], id); }
      if Observes(e, id) { assert Observes(q[|p|], id); }
    }
    hide Acted, Observed;
    forall r | Done(p, r) ensures Done(q, r) {}
  }

  lemma PrefixActed(all: seq<Event>, n: nat, r: Response)
    requires n <= |all| && Acted(all[..n], r)
    ensures Acted(all, r)
  {
  }

  lemma SameAssistant(all: seq<Event>, r: Response, s: Response)
    requires WellFormed(all) && Acted(all, r) && Acted(all, s) && AssistantOf(r) == AssistantOf(s)
    ensures r == s
  {
    assert Proper(AssistantOf(r));
    assert r.toolCalls.value[0].id in Ids(r.toolCalls.value);
    assert r != s ==> Apart(r, s);
  }

  lemma {:induction false} UpsertIs(d: Pending, key: string, m: Message)
    requires forall i | 0 <= i < |d| && d[i].0 == key :: d[i].1 == m
    requires forall i, j | 0 <= i < j < |d| :: d[i].0 != d[j].0
    ensures Upsert(d, key, m) == if (key, m) in d then d else d + [(key, m)]
  {
    if d != [] {
      assert d == [d[0]] + d[1..];
      if d[0].0 != key {
        UpsertIs(d[1..], key, m);
      }
    }
  }

  lemma PendingStep(all: seq<Event>, n: nat, d: Pending)
    requires WellFormed(all) && n < |all| && PendingRight(all[..n], all[..n], d)
    ensures PendingRight(all[..n], all[..n + 1], PendingWith(d, all[n]))
  {
    var p, e := all[..n], all[n];
    assert all[..n + 1] == p + [e];
    Grows(p, e);
    if e.ToolAction? && e.response.Some? {
      var r := e.response.value;
      assert Acts(all[n], r) && Acted(all, r) && Acts(e, r);
      NewEntry(all, n, d, r);
    } else {
      hide Separate, Acted, Done;
      assert forall r :: !Acts(e, r);
      assert forall i | 0 <= i < |d| :: IsEntry(p + [e], d[i]);
    }
  }

  lemma NewEntry(all: seq<Event>, n: nat, d: Pending, r: Response)
    requires WellFormed(all) && n < |all| && PendingRight(all[..n], all[..n], d) && Acted(all, r)
    requires Acts(all[n], r) && forall s :: Acted(all[..n + 1], s) <==> Acted(all[..n], s) || Acts(all[n], s)
    ensures PendingRight(all[..n], all[..n + 1], Upsert(d, r.id, AssistantOf(r)))
  {
    hide Acted, Done, Separate, Upsert;
    EntryApart(all, n, d, r);
    assert Acted(all[..n + 1], r) && IsEntry(all[..n + 1], Entry(r));
    forall i | 0 <= i < |d| ensures IsEntry(all[..n + 1], d[i]) {
      assert IsEntry(all[..n], d[i]);
      var s :| Acted(all[..n], s) && d[i] == Entry(s);
      assert Acted(all[..n + 1], s);
    }
    forall s | Acted(all[..n + 1], s) && !Done(all[..n], s) ensures Entry(s) in Upsert(d, r.id, AssistantOf(r)) {
      if s != r { assert Acted(all[..n], s); }
    }
  }

  lemma EntryApart(all: seq<Event>, n: nat, d: Pending, r: Response)
    requires WellFormed(all) && n <= |all| && PendingRight(all[..n], all[..n], d) && Acted(all, r)
    ensures Upsert(d, r.id, AssistantOf(r)) == if Entry(r) in d then d else d + [Entry(r)]
    ensures Separate(Upsert(d, r.id, AssistantOf(r)))
  {
    hide Acted, Done, DistinctIds, Ids, Upsert;
    assert Proper(AssistantOf(r));
    forall i | 0 <= i < |d| ensures d[i] == Entry(r) || EntriesApart(d[i], Entry(r)) {
      assert IsEntry(all[..n], d[i]);
      var s :| Acted(all[..n], s) && d[i] == Entry(s);
      PrefixActed(all, n, s);
      if s != r { assert Apart(s, r); }
    }
    UpsertIs(d, r.id, AssistantOf(r));
  }

  /** The responses completed by an event are those it brings to be done. */
  lemma CompletedNow(all: seq<Event>, n: nat, results: Results, r: Response)
    requires WellFormed(all) && n < |all| && ResultsRight(all[..n], results) && Acted(all[..n + 1], r)
    ensures CompleteIn(AssistantOf(r), ResultsWith(results, all[n])) <==> Done(all[..n + 1], r) && !Done(all[..n], r)
  {
    var p, e := all[..n], all[n];
    var q, after, calls := all[..n + 1], ResultsWith(results, e), AssistantOf(r).toolCalls.value;
    assert q == p + [e];
    Grows(p, e);
    PrefixActed(all, n + 1, r);
    assert Proper(AssistantOf(r));
    hide Acted, Observed;
    if Complete(calls, after) {
      forall i | 0 <= i < |calls| ensures Observed(q, calls[i].id) {
        assert calls[i].id in after;
      }
      if Done(p, r) { StillTaken(all, n, results, r); }
    }
    if Done(q, r) && !Done(p, r) {
      forall i | 0 <= i < |calls| ensures calls[i].id in after {
        assert Observed(q, calls[i].id);
        if !Observes(e, calls[i].id) { NotOwned(all, n, r, calls[i].id); }
      }
    }
  }

  lemma StillTaken(all: seq<Event>, n: nat, results: Results, r: Response)
    requires WellFormed(all) && n < |all| && ResultsRight(all[..n], results) && Done(all[..n], r)
    requires Proper(AssistantOf(r))
    ensures !Complete(r.toolCalls.value, ResultsWith(results, all[n]))
  {
    var id := r.toolCalls.value[0].id;
    assert Observed(all[..n], id);
    var i :| 0 <= i < n && Observes(all[..n][i], id);
    assert Observes(all[i], id) && !Observes(all[n], id);
    assert OwnedByDone(all[..n], id) by { assert id in Ids(r.toolCalls.value); }
    assert id !in ResultsWith(results, all[n]);
  }

  lemma NotOwned(all: seq<Event>, n: nat, r: Response, id: string)
    requires WellFormed(all) && n <= |all| && Acted(all, r) && r.toolCalls.Some?
      && id in Ids(r.toolCalls.value) && !Done(all[..n], r)
    ensures !OwnedByDone(all[..n], id)
  {
    forall s | Done(all[..n], s) ensures id !in Ids(s.toolCalls.value) {
      PrefixActed(all, n, s);
      assert s != r ==> Apart(r, s);
    }
  }

  lemma {:induction false} WaitingAre(d: Pending, results: Results)
    ensures forall x :: x in Waiting(d, results) <==> x in d && !CompleteIn(x.1, results)
  {
    hide CompleteIn;
    if d != [] {
      WaitingAre(d[1..], results);
      assert d == [d[0]] + d[1..];
    }
  }

  lemma {:induction false} WaitingSeparate(d: Pending, results: Results)
    requires Separate(d)
    ensures Separate(Waiting(d, results))
  {
    hide CompleteIn, DistinctIds, Ids;
    if d != [] {
      var w := Waiting(d[1..], results);
      assert Separate(d[1..]);
      WaitingSeparate(d[1..], results);
      if !CompleteIn(d[0].1, results) {
        WaitingAre(d[1..], results);
        forall i | 0 <= i < |w| ensures EntriesApart(d[0], w[i]) {
          assert w[i] in w;
          var k :| 0 <= k < |d| - 1 && d[1..][k] == w[i];
          assert d[k + 1] == w[i];
        }
        FrontSeparate(d[0], w);
      }
    }
  }

  lemma FrontSeparate(x: (string, Message), w: Pending)
    requires Separate(w) && Proper(x.1) && forall i | 0 <= i < |w| :: EntriesApart(x, w[i])
    ensures Separate([x] + w)
  {
    hide DistinctIds, Ids;
    var all := [x] + w;
    forall i, j | 0 <= i < j < |all| ensures EntriesApart(all[i], all[j]) {
      assert all[j] == w[j - 1];
      if i > 0 { assert all[i] == w[i - 1]; }
    }
  }

  lemma {:induction false} DoneIdsAre(d: Pending, results: Results, id: string)
    ensures id in DoneIds(d, results)
       <==> exists i | 0 <= i < |d| :: CompleteIn(d[i].1, results) && id in Ids(d[i].1.toolCalls.value)
  {
    hide Complete, Ids;
    if d != [] {
      DoneIdsAre(d[1..], results, id);
      if id in DoneIds(d[1..], results) {
        var i :| 0 <= i < |d| - 1 && CompleteIn(d[1..][i].1, results) && id in Ids(d[1..][i].1.toolCalls.value);
        assert d[i + 1] == d[1..][i];
      }
      if i :| 0 <= i < |d| && CompleteIn(d[i].1, results) && id in Ids(d[i].1.toolCalls.value) {
        if i > 0 { assert d[1..][i - 1] == d[i]; }
      }
    }
  }

  lemma {:induction false} PlacedIs(d: Pending, results: Results, m: Message)
    requires Separate(d)
    ensures Placed(d, results, m) == if CompleteIn(m, results) && exists i | 0 <= i < |d| :: d[i].1 == m then 1 else 0
  {
    hide CompleteIn, DistinctIds;
    if d != [] {
      assert Separate(d[1..]);
      PlacedIs(d[1..], results, m);
      if d[0].1 == m {
        forall i | 0 <= i < |d| - 1 ensures d[1..][i].1 != m {
          assert d[1..][i] == d[i + 1] && d[0].1.toolCalls.value[0].id in Ids(d[0].1.toolCalls.value);
        }
      } else {
        if i :| 0 <= i < |d| && d[i].1 == m { assert d[1..][i - 1].1 == m; }
        if i :| 0 <= i < |d| - 1 && d[1..][i].1 == m { assert d[i + 1].1 == m; }
      }
    }
  }

  lemma ResultsStep(all: seq<Event>, n: nat, d: Pending, results: Results)
    requires WellFormed(all) && n < |all| && ResultsRight(all[..n], results) && PendingRight(all[..n], all[..n + 1], d)
    ensures var after := ResultsWith(results, all[n]); ResultsRight(all[..n + 1], after - DoneIds(d, after))
  {
    var after := ResultsWith(results, all[n]);
    forall id: string
      ensures id in after - DoneIds(d, after) <==> Observed(all[..n + 1], id) && !OwnedByDone(all[..n + 1], id)
    {
      ResultsStepAt(all, n, d, results, id);
    }
    hide WellFormed, PendingRight, Observed, OwnedByDone, DoneIds;
  }

  lemma ResultsStepAt(all: seq<Event>, n: nat, d: Pending, results: Results, id: string)
    requires WellFormed(all) && n < |all| && ResultsRight(all[..n], results) && PendingRight(all[..n], all[..n + 1], d)
    ensures var after := ResultsWith(results, all[n]);
      id in after - DoneIds(d, after) <==> Observed(all[..n + 1], id) && !OwnedByDone(all[..n + 1], id)
  {
    var p, e, q, after := all[..n], all[n], all[..n + 1], ResultsWith(results, all[n]);
    assert q == p + [e];
    Grows(p, e);
    DoneIdsAre(d, after, id);
    hide WellFormed, Acted, Observed, Ids, DoneIds, Done, CompleteIn, Separate;
    if r :| Done(q, r) && id in Ids(r.toolCalls.value) {
      OwnedNow(all, n, d, results, r, id);
    } else if i :| 0 <= i < |d| && CompleteIn(d[i].1, after) && id in Ids(d[i].1.toolCalls.value) {
      var r :| Acted(q, r) && d[i] == Entry(r);
      CompletedNow(all, n, results, r);
      assert false;
    } else {
      assert !OwnedByDone(p, id) by { assert forall r :: Done(p, r) ==> Done(q, r); }
    }
  }

  lemma OwnedNow(all: seq<Event>, n: nat, d: Pending, results: Results, r: Response, id: string)
    requires WellFormed(all) && n < |all| && ResultsRight(all[..n], results) && PendingRight(all[..n], all[..n + 1], d)
    requires Done(all[..n + 1], r) && id in Ids(r.toolCalls.value)
    ensures var after := ResultsWith(results, all[n]); id !in after || id in DoneIds(d, after)
  {
    var p, e, after := all[..n], all[n], ResultsWith(results, all[n]);
    if Done(p, r) {
      var k :| 0 <= k < |r.toolCalls.value| && r.toolCalls.value[k].id == id;
      assert Observed(p, id) && OwnedByDone(p, id);
      var i :| 0 <= i < n && Observes(p[i], id);
      assert Observes(all[i], id) && !Observes(all[n], id);
    } else {
      CompletedNow(all, n, results, r);
      var i :| 0 <= i < |d| && d[i] == Entry(r);
      DoneIdsAre(d, after, id);
      assert CompleteIn(d[i].1, after) && id in Ids(d[i].1.toolCalls.value);
    }
  }

  lemma PlacedStep(all: seq<Event>, n: nat, d: Pending, results: Results, r: Response)
    requires WellFormed(all) && n < |all| && ResultsRight(all[..n], results) && PendingRight(all[..n], all[..n + 1], d)
    requires Acted(all, r)
    ensures Placed(d, ResultsWith(results, all[n]), AssistantOf(r))
         == if Done(all[..n + 1], r) && !Done(all[..n], r) then 1 else 0
  {
    var after := ResultsWith(results, all[n]);
    PlacedIs(d, after, AssistantOf(r));
    hide Separate, Ids, CompleteIn, Observed, Placed;
    if Done(all[..n + 1], r) && !Done(all[..n], r) {
      assert Entry(r) in d;
    }
    if i :| 0 <= i < |d| && d[i].1 == AssistantOf(r) {
      var s :| Acted(all[..n + 1], s) && d[i] == Entry(s);
      PrefixActed(all, n + 1, s);
      SameAssistant(all, r, s);
      CompletedNow(all, n, results, r);
    }
  }

  lemma OwnHaveNoCalls(e: Event, r: Response)
    requires r.toolCalls.Some?
    ensures multiset(OwnMessages(e))[AssistantOf(r)] == 0
  {
    assert forall m | m in OwnMessages(e) :: m.toolCalls.None?;
  }

  lemma ResultsStayTools(results: Results, e: Event)
    requires ToolResultsOnly(results)
    ensures ToolResultsOnly(ResultsWith(results, e))
  {
  }

  lemma PendingAfter(all: seq<Event>, n: nat, d: Pending, results: Results)
    requires WellFormed(all) && n < |all| && ResultsRight(all[..n], results) && PendingRight(all[..n], all[..n + 1], d)
    ensures PendingRight(all[..n + 1], all[..n + 1], Waiting(d, ResultsWith(results, all[n])))
  {
    var after, q := ResultsWith(results, all[n]), all[..n + 1];
    WaitingAre(d, after);
    WaitingSeparate(d, after);
    var w := Waiting(d, after);
    hide Separate, CompleteIn, Acted, Waiting;
    forall i | 0 <= i < |w| ensures IsEntry(q, w[i]) {
      assert w[i] in w && w[i] in d;
    }
    assert q == all[..n] + [all[n]];
    Grows(all[..n], all[n]);
    forall r | Acted(q, r) && !Done(q, r) ensures Entry(r) in w {
      CompletedNow(all, n, results, r);
      assert Entry(r) in d;
    }
  }

  lemma AfterOneMore(all: seq<Event>, k: nat)
    requires k < |all| && After(all[..k]).Ok?
    ensures After(all[..k + 1]) == StepEvent(After(all[..k]).value, all[k])
  {
    hide StepEvent;
    assert all[..k + 1][..k] == all[..k];
  }

  lemma {:induction false} Progress(all: seq<Event>, n: nat)
    requires WellFormed(all) && n <= |all|
    ensures After(all[..n]).Ok?
    ensures var st := After(all[..n]).value;
      && PendingRight(all[..n], all[..n], st.pending) && ResultsRight(all[..n], st.results)
      && PlacedOnce(all, all[..n], st.messages)
  {
    hide PendingRight, ResultsRight, PlacedOnce, StepEvent, WellFormed;
    if n == 0 {
      NothingYet(all);
    } else {
      Progress(all, n - 1);
      hide After;
      AfterOneMore(all, n - 1);
      ProgressStep(all, n - 1, After(all[..n - 1]).value);
    }
  }

  lemma ProgressStep(all: seq<Event>, k: nat, st: State)
    requires WellFormed(all) && k < |all|
    requires PendingRight(all[..k], all[..k], st.pending) && ResultsRight(all[..k], st.results)
      && PlacedOnce(all, all[..k], st.messages)
    ensures StepEvent(st, all[k]).Ok?
    ensures var n := StepEvent(st, all[k]).value;
      && PendingRight(all[..k + 1], all[..k + 1], n.pending) && ResultsRight(all[..k + 1], n.results)
      && PlacedOnce(all, all[..k + 1], n.messages)
  {
    var e := all[k];
    var d, after := PendingWith(st.pending, e), ResultsWith(st.results, e);
    PendingStep(all, k, st.pending);
    assert Failure(e).None?;
    ResultsStayTools(st.results, e);
    assert Separate(d);
    hide PendingRight, Drain, PendingWith, ResultsWith, ResultsRight, Separate, OwnMessages, Placed, Waiting,
         DoneIds, WellFormed, PlacedOnce, Failure;
    DrainSeparate(d, after);
    PendingAfter(all, k, d, st.results);
    ResultsStep(all, k, d, st.results);
    MessagesStep(all, k, st, d, Drain(d, after).value.messages);
  }

  lemma MessagesStep(all: seq<Event>, k: nat, st: State, d: Pending, ms: seq<Message>)
    requires WellFormed(all) && k < |all| && PlacedOnce(all, all[..k], st.messages)
    requires ResultsRight(all[..k], st.results) && PendingRight(all[..k], all[..k + 1], d)
    requires forall m: Message | m.role == "assistant" :: multiset(ms)[m] == Placed(d, ResultsWith(st.results, all[k]), m)
    ensures PlacedOnce(all, all[..k + 1], st.messages + OwnMessages(all[k]) + ms)
  {
    assert all[..k + 1] == all[..k] + [all[k]];
    Grows(all[..k], all[k]);
    forall r | Acted(all, r)
      ensures multiset(st.messages + OwnMessages(all[k]) + ms)[AssistantOf(r)] == if Done(all[..k + 1], r) then 1 else 0
    {
      PlacedStep(all, k, d, st.results, r);
      assert Proper(AssistantOf(r));
      OwnHaveNoCalls(all[k], r);
    }
  }

  lemma NothingYet(all: seq<Event>)
    ensures PendingRight([], [], []) && ResultsRight([], map[]) && PlacedOnce(all, [], [])
  {
    assert forall r :: !Done([], r);
  }

  /** A well-formed history is processed without error; a response some action came from is placed
      exactly once if all its calls have been observed, and not at all otherwise. */
  lemma PlacedExactlyOnce(events: seq<Event>, r: Response)
    requires WellFormed(events) && Acted(events, r)
    ensures After(events).Ok?
    ensures multiset(After(events).value.messages)[AssistantOf(r)] == if AllObserved(events, r) then 1 else 0
  {
    assert events[..|events|] == events;
    Progress(events, |events|);
    hide PendingRight, ResultsRight, WellFormed;
  }
}
