/** Turning an event history into the messages for the model: the messages that call tools wait until
    all their results are there, and are then placed together. */
module ConversationMemory {
  import opened Wrappers
  import Strings

  datatype ToolCall = ToolCall(id: string, name: string)

  /** What the model answered; the events its calls led to all carry it. */
  datatype Response = Response(id: string, content: Option<string>, toolCalls: Option<seq<ToolCall>>)

  /** An event, as far as the messages go.  `ToolAction` are the actions made through tool calls,
      `SilentAction` and `SilentObservation` those that give no message, `DirectObservation` the recalled
      knowledge, which is a message of its own whatever its metadata. */
  datatype Event =
    | SystemAction(text: string)
    | MessageAction(fromUser: bool, text: string)
    | UserCommand(text: string)
    | ToolAction(fromUser: bool, text: string, response: Option<Response>)
    | FinishAction(fromUser: bool, thought: string, response: Option<Response>)
    | SilentAction
    | Observation(text: string, callId: Option<string>)
    | DirectObservation(text: string)
    | SilentObservation
    | UnknownObservation
    | Unknown

  datatype Message = Message(role: string, content: Option<string>, toolCalls: Option<seq<ToolCall>>,
                             toolCallId: Option<string>)

  datatype Error = MissingMetadata | UnknownEvent | NoToolCalls | RepeatedCallId

  type Pending = seq<(string, Message)>
  type Results = map<string, Message>

  datatype State = State(pending: Pending, results: Results, messages: seq<Message>)

  // ---- Single events ----

  function Plain(role: string, text: string): Message {
    Message(role, Some(text), None, None)
  }

  function AssistantOf(r: Response): Message {
    Message("assistant", if r.content.Some? && Strings.Strip(r.content.value) != "" then r.content else None, r.toolCalls, None)
  }

  function ToolResult(text: string, callId: string): Message {
    Message("tool", Some(text), None, Some(callId))
  }

  function Role(fromUser: bool): string {
    if fromUser then "user" else "assistant"
  }

  /** The thought of a finishing action once the content of its response has been folded in. */
  function FinishText(thought: string, response: Option<Response>): string {
    if response.None? then thought
    else
      var content := if response.value.content.Some? then response.value.content.value else "";
      if thought == "" then content
      else if thought != content then thought + "\n" + content
      else thought
  }

  /** The messages an event gives by itself. */
  function OwnMessages(e: Event): seq<Message> {
    match e
    case SystemAction(text) => [Plain("system", text)]
    case MessageAction(fromUser, text) => [Plain(Role(fromUser), text)]
    case UserCommand(text) => [Plain("user", "User executed the command:\n" + text)]
    case ToolAction(true, text, None) => [Plain("user", "User requested to read file: " + text)]
    case FinishAction(fromUser, thought, response) => [Plain(Role(fromUser), FinishText(thought, response))]
    case Observation(text, None) => [Plain("user", text)]
    case DirectObservation(text) => [Plain("user", text)]
    case _ => []
  }

  /** `d[key] = m` for an ordered dictionary. */
  function Upsert(d: Pending, key: string, m: Message): Pending {
    if d == [] then [(key, m)]
    else if d[0].0 == key then [(key, m)] + d[1..]
    else [d[0]] + Upsert(d[1..], key, m)
  }

  function Failure(e: Event): Option<Error> {
    match e
    case ToolAction(false, _, None) => Some(MissingMetadata)
    case UnknownObservation => Some(UnknownEvent)
    case Unknown => Some(UnknownEvent)
    case _ => None
  }

  function PendingWith(d: Pending, e: Event): Pending {
    if e.ToolAction? && e.response.Some? then Upsert(d, e.response.value.id, AssistantOf(e.response.value)) else d
  }

  function ResultsWith(results: Results, e: Event): Results {
    if e.Observation? && e.callId.Some? then results[e.callId.value := ToolResult(e.text, e.callId.value)] else results
  }

  // ---- Completed calls ----

  predicate Complete(calls: seq<ToolCall>, results: Results) {
    forall i | 0 <= i < |calls| :: calls[i].id in results
  }

  /** The results of the calls, each taken out as it is used; `None` is the failed second look-up of an id. */
  function TakeResults(calls: seq<ToolCall>, results: Results): Option<(seq<Message>, Results)> {
    if calls == [] then Some(([], results))
    else if calls[0].id !in results then None
    else
      Before([results[calls[0].id]], TakeResults(calls[1..], results - {calls[0].id}))
  }

  function Before(ms: seq<Message>, r: Option<(seq<Message>, Results)>): Option<(seq<Message>, Results)> {
    match r
    case None => None
    case Some((rest, left)) => Some((ms + rest, left))
  }

  datatype Drained = Drained(messages: seq<Message>, kept: Pending, results: Results)

  /** Every waiting message whose calls all have results is moved out, followed by those results. */
  function Drain(d: Pending, results: Results): Result<Drained, Error> {
    if d == [] then Ok(Drained([], [], results))
    else
      var m := d[0].1;
      if m.toolCalls.None? then Err(NoToolCalls)
      else if Complete(m.toolCalls.value, results) then
        match TakeResults(m.toolCalls.value, results)
        case None => Err(RepeatedCallId)
        case Some((ms, left)) => Glue([m] + ms, [], Drain(d[1..], left))
      else Glue([], [d[0]], Drain(d[1..], results))
  }

  function Glue(messages: seq<Message>, kept: Pending, rest: Result<Drained, Error>): Result<Drained, Error> {
    match rest
    case Ok(Drained(ms, k, left)) => Ok(Drained(messages + ms, kept + k, left))
    case Err(e) => Err(e)
  }

  function StepEvent(st: State, e: Event): Result<State, Error> {
    if Failure(e).Some? then Err(Failure(e).value)
    else
      match Drain(PendingWith(st.pending, e), ResultsWith(st.results, e))
      case Err(err) => Err(err)
      case Ok(Drained(ms, kept, left)) => Ok(State(kept, left, st.messages + OwnMessages(e) + ms))
  }

  const START := State([], map[], [])

  function After(events: seq<Event>): Result<State, Error> {
    if events == [] then Ok(START)
    else
      match After(events[..|events| - 1])
      case Err(err) => Err(err)
      case Ok(st) => StepEvent(st, events[|events| - 1])
  }

  // ---- The final passes ----

  function CallIds(messages: seq<Message>): set<string> {
    set i, j | 0 <= i < |messages| && messages[i].role == "assistant" && messages[i].toolCalls.Some?
      && 0 <= j < |messages[i].toolCalls.value| && messages[i].toolCalls.value[j].id != "" :: messages[i].toolCalls.value[j].id
  }

  function ResponseIds(messages: seq<Message>): set<string> {
    set i | 0 <= i < |messages| && messages[i].role == "tool" && messages[i].toolCallId.Some?
      && messages[i].toolCallId.value != "" :: messages[i].toolCallId.value
  }

  function Matched(calls: seq<ToolCall>, ids: set<string>): (r: seq<ToolCall>)
    ensures r == calls <==> forall i | 0 <= i < |calls| :: calls[i].id in ids
    ensures |r| <= |calls|
  {
    if calls == [] then []
    else
      var rest := Matched(calls[1..], ids);
      assert calls == [calls[0]] + calls[1..];
      assert (forall i | 0 <= i < |calls| :: calls[i].id in ids) ==> forall i | 0 <= i < |calls| - 1 :: calls[1..][i].id in ids;
      if calls[0].id in ids then [calls[0]] + rest else rest
  }

  function FilterOne(m: Message, callIds: set<string>, responseIds: set<string>): seq<Message> {
    if m.role == "tool" && m.toolCallId.Some? && m.toolCallId.value != "" then
      if m.toolCallId.value in callIds then [m] else []
    else if m.role == "assistant" && m.toolCalls.Some? && m.toolCalls.value != [] then
      var matched := Matched(m.toolCalls.value, responseIds);
      if matched == m.toolCalls.value then [m]
      else if matched != [] then [m.(toolCalls := Some(matched))]
      else []
    else [m]
  }

  function FilterAll(messages: seq<Message>, callIds: set<string>, responseIds: set<string>): seq<Message> {
    if messages == [] then []
    else FilterOne(messages[0], callIds, responseIds) + FilterAll(messages[1..], callIds, responseIds)
  }

  /** `_filter_unmatched_tool_calls` */
  function Filtered(messages: seq<Message>): seq<Message> {
    FilterAll(messages, CallIds(messages), ResponseIds(messages))
  }

  /** `_apply_user_message_formatting`: an empty line before a user message that follows another. */
  function Formatted(messages: seq<Message>, prevRole: string): (r: seq<Message>)
    ensures |r| == |messages|
  {
    if messages == [] then []
    else
      var m := messages[0];
      [if m.role == "user" && prevRole == "user" && m.content.Some? then m.(content := Some("\n\n" + m.content.value)) else m]
      + Formatted(messages[1..], m.role)
  }

  // ---- The history is completed first ----

  function WithSystem(events: seq<Event>, systemPrompt: string): seq<Event> {
    if (exists i | 0 <= i < |events| :: events[i].SystemAction?) || systemPrompt == "" then events
    else [SystemAction(systemPrompt)] + events
  }

  function WithInitial(events: seq<Event>, initial: string): seq<Event> {
    if events == [] || (|events| > 1 && events[1].MessageAction? && events[1].fromUser) then events
    else [events[0], MessageAction(true, initial)] + events[1..]
  }

  function Prepared(events: seq<Event>, systemPrompt: string, initial: string): seq<Event> {
    WithInitial(WithSystem(events, systemPrompt), initial)
  }

  /** Processing folds a finishing action's response into its thought, in the event itself. */
  function Folded(e: Event): Event {
    if e.FinishAction? then e.(thought := FinishText(e.thought, e.response), response := None) else e
  }

  // ---- The loops ----

  method CollectResults(calls: seq<ToolCall>, results: Results) returns (r: Option<(seq<Message>, Results)>)
    ensures r == TakeResults(calls, results)
  {
    var ms, left := [], results;
    assert calls[0..] == calls;
    BeforeNothing(TakeResults(calls, results));
    for k := 0 to |calls|
      invariant TakeResults(calls, results) == Before(ms, TakeResults(calls[k..], left))
    {
      assert calls[k..][1..] == calls[k + 1..] && calls[k..][0] == calls[k];
      if calls[k].id !in left {
        return None;
      }
      BeforeTwice(ms, [left[calls[k].id]], TakeResults(calls[k + 1..], left - {calls[k].id}));
      ms := ms + [left[calls[k].id]];
      left := left - {calls[k].id};
    }
    assert ms + [] == ms;
    r := Some((ms, left));
  }

  lemma BeforeNothing(r: Option<(seq<Message>, Results)>)
    ensures Before([], r) == r
  {
    if r.Some? { assert [] + r.value.0 == r.value.0; }
  }

  lemma BeforeTwice(a: seq<Message>, b: seq<Message>, r: Option<(seq<Message>, Results)>)
    ensures Before(a, Before(b, r)) == Before(a + b, r)
  {
    if r.Some? { assert a + (b + r.value.0) == (a + b) + r.value.0; }
  }

  /** The check of the waiting messages after each event. */
  method CheckPending(d: Pending, results: Results) returns (r: Result<Drained, Error>)
    ensures r == Drain(d, results)
  {
    hide TakeResults, Complete;
    var ms, kept, left := [], [], results;
    assert d[0..] == d;
    GlueNothing(Drain(d, results));
    for k := 0 to |d|
      invariant Drain(d, results) == Glue(ms, kept, Drain(d[k..], left))
    {
      assert d[k..][1..] == d[k + 1..] && d[k..][0] == d[k];
      var m := d[k].1;
      if m.toolCalls.None? {
        return Err(NoToolCalls);
      }
      if Complete(m.toolCalls.value, left) {
        var taken := CollectResults(m.toolCalls.value, left);
        if taken.None? {
          return Err(RepeatedCallId);
        }
        GlueTwice(ms, kept, [m] + taken.value.0, [], Drain(d[k + 1..], taken.value.1));
        assert kept + [] == kept;
        ms := ms + ([m] + taken.value.0);
        left := taken.value.1;
      } else {
        GlueTwice(ms, kept, [], [d[k]], Drain(d[k + 1..], left));
        assert ms + [] == ms;
        kept := kept + [d[k]];
      }
    }
    r := Ok(Drained(ms, kept, left));
  }

  lemma GlueNothing(rest: Result<Drained, Error>)
    ensures Glue([], [], rest) == rest
  {
    if rest.Ok? { assert [] + rest.value.messages == rest.value.messages && [] + rest.value.kept == rest.value.kept; }
  }

  lemma GlueTwice(a: seq<Message>, k: Pending, b: seq<Message>, l: Pending, rest: Result<Drained, Error>)
    ensures Glue(a, k, Glue(b, l, rest)) == Glue(a + b, k + l, rest)
  {
    if rest.Ok? {
      assert a + (b + rest.value.messages) == (a + b) + rest.value.messages;
      assert k + (l + rest.value.kept) == (k + l) + rest.value.kept;
    }
  }

  method ProcessEvents(history: seq<Event>, systemPrompt: string, initial: string)
    returns (r: Result<seq<Message>, Error>, events: seq<Event>)
    ensures r == match After(Prepared(history, systemPrompt, initial))
      case Err(err) => Err(err)
      case Ok(st) => Ok(Formatted(Filtered(st.messages), ""))
    ensures |events| == |Prepared(history, systemPrompt, initial)|
    ensures r.Ok? ==> forall i | 0 <= i < |events| :: events[i] == Folded(Prepared(history, systemPrompt, initial)[i])
  {
    hide Drain, Prepared, Formatted, Filtered, OwnMessages, PendingWith, ResultsWith, Folded, Failure;
    events := Prepared(history, systemPrompt, initial);
    ghost var all := events;
    var pending, results, messages := [], map[], [];
    for i := 0 to |events|
      invariant |events| == |all|
      invariant forall j | 0 <= j < |all| :: events[j] == if j < i then Folded(all[j]) else all[j]
      invariant After(all[..i]) == Ok(State(pending, results, messages))
    {
      var e := events[i];
      assert all[..i + 1][..i] == all[..i] && all[..i + 1][i] == e;
      if Failure(e).Some? {
        Stays(all, i + 1);
        return Err(Failure(e).value), events;
      }
      var toAdd := OwnMessages(e);
      events := events[i := Folded(e)];
      pending := PendingWith(pending, e);
      results := ResultsWith(results, e);
      var drained := CheckPending(pending, results);
      if drained.Err? {
        Stays(all, i + 1);
        return Err(drained.error), events;
      }
      pending, results := drained.value.kept, drained.value.results;
      messages := messages + toAdd + drained.value.messages;
    }
    assert all[..|all|] == all;
    r := Ok(Formatted(Filtered(messages), ""));
  }

  /** Once an event has made the processing fail, the rest of the history does not matter. */
  lemma {:induction false} Stays(events: seq<Event>, n: nat)
    requires n <= |events| && After(events[..n]).Err?
    ensures After(events) == After(events[..n])
  {
    hide StepEvent;
    if n < |events| {
      assert events[..|events| - 1][..n] == events[..n];
      Stays(events[..|events| - 1], n);
    } else {
      assert events[..n] == events;
    }
  }
}
