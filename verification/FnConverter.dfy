/** Conversion between function-calling conversations and plain text, both ways. */
module FnConverter {
  import opened Wrappers
  import opened Strings
  import opened Decimal
  import opened CallSyntax

  const RESULT_OPEN := "EXECUTION RESULT of ["
  const RESULT_CLOSE := "]:\n"

  datatype Value = Str(text: string) | Int(number: int)

  /** Arguments in dictionary order; `None` stands for text that is not JSON. */
  type Arguments = seq<(string, Value)>
  datatype Fn = Fn(name: string, arguments: Option<Arguments>)

  datatype ToolCall = ToolCall(fn: Option<Fn>, id: Option<string>, kind: Option<string>)

  datatype Role = System | User | Assistant | Tool | OtherRole

  datatype Message = Message(role: Role, content: string, toolCalls: Option<seq<ToolCall>>,
                             toolCallId: Option<string>, name: Option<string>)

  datatype ParamType = IntegerType | OtherType
  datatype Property = Property(kind: ParamType, choices: Option<seq<Value>>)

  /** A tool without parameters is one with an empty property map. */
  datatype ToolSpec = ToolSpec(name: string, properties: map<string, Property>, required: set<string>)

  datatype Error = ConversionError | ValidationError | KeyError

  /** The texts the converter computes from the tools, and the tools themselves. */
  datatype Setup = Setup(systemSuffix: string, example: string, exampleSuffix: string, tools: seq<ToolSpec>)

  function Plain(role: Role, content: string): Message {
    Message(role, content, None, None, None)
  }

  // ---- To text ----

  function PrintValue(v: Value): string {
    match v
    case Str(s) => s
    case Int(n) => PrintInt(n)
  }

  function Raw(args: Arguments): (r: RawParams)
    ensures |r| == |args|
    ensures forall i | 0 <= i < |args| :: r[i] == (args[i].0, PrintValue(args[i].1))
  {
    if args == [] then [] else [(args[0].0, PrintValue(args[0].1))] + Raw(args[1..])
  }

  function ToolCallText(call: ToolCall): Result<string, Error> {
    if call.fn.None? || call.id.None? || call.kind != Some("function") then Err(ConversionError)
    else match call.fn.value.arguments
      case None => Err(ConversionError)
      case Some(args) => Ok(PrintCall(call.fn.value.name, Raw(args)))
  }

  /** One message as text; `seen` says whether the example has been placed. */
  function TextOf(setup: Setup, addExample: bool, m: Message, seen: bool): Result<Message, Error> {
    match m.role
    case System => Ok(Plain(System, m.content + setup.systemSuffix))
    case User =>
      if !seen && addExample && setup.example != "" then
        Ok(Plain(User, setup.example + m.content + setup.exampleSuffix))
      else Ok(Plain(User, m.content))
    case Assistant =>
      (match m.toolCalls
       case None => Ok(Plain(Assistant, m.content))
       case Some(calls) =>
         if |calls| != 1 then Err(ConversionError)
         else match ToolCallText(calls[0])
           case Err(e) => Err(e)
           case Ok(text) => Ok(Plain(Assistant, LStrip(m.content + "\n\n" + text))))
    case Tool =>
      Ok(Plain(User, RESULT_OPEN + ToolName(m) + RESULT_CLOSE + m.content))
    case OtherRole => Err(ConversionError)
  }

  function ToolName(m: Message): string {
    match m.name
    case Some(n) => n
    case None => "function"
  }

  function SeenAfter(addExample: bool, m: Message, seen: bool): bool {
    seen || (m.role == User && addExample)
  }

  function Prepend(xs: seq<Message>, r: Result<seq<Message>, Error>): Result<seq<Message>, Error> {
    match r
    case Ok(ys) => Ok(xs + ys)
    case Err(e) => Err(e)
  }

  lemma PrependEmpty(r: Result<seq<Message>, Error>)
    ensures Prepend([], r) == r
  {
    assert r.Ok? ==> [] + r.value == r.value;
  }

  lemma PrependMore(xs: seq<Message>, x: Message, r: Result<seq<Message>, Error>)
    ensures Prepend(xs, Prepend([x], r)) == Prepend(xs + [x], r)
  {
    assert r.Ok? ==> xs + ([x] + r.value) == xs + [x] + r.value;
  }

  function ToText(setup: Setup, addExample: bool, msgs: seq<Message>, seen: bool): Result<seq<Message>, Error> {
    if msgs == [] then Ok([])
    else match TextOf(setup, addExample, msgs[0], seen)
      case Err(e) => Err(e)
      case Ok(t) => Prepend([t], ToText(setup, addExample, msgs[1..], SeenAfter(addExample, msgs[0], seen)))
  }

  /** `convert_fncall_messages_to_non_fncall_messages` */
  method ConvertToText(setup: Setup, addExample: bool, msgs: seq<Message>) returns (r: Result<seq<Message>, Error>)
    ensures r == ToText(setup, addExample, msgs, false)
  {
    var converted: seq<Message> := [];
    var seen := false;
    var i := 0;
    hide TextOf;
    PrependEmpty(ToText(setup, addExample, msgs, false));
    assert msgs[0..] == msgs;
    while i < |msgs|
      invariant 0 <= i <= |msgs|
      invariant ToText(setup, addExample, msgs, false) == Prepend(converted, ToText(setup, addExample, msgs[i..], seen))
    {
      assert msgs[i..][0] == msgs[i] && msgs[i..][1..] == msgs[i + 1..];
      var t := TextOf(setup, addExample, msgs[i], seen);
      if t.Err? {
        return Err(t.error);
      }
      PrependMore(converted, t.value, ToText(setup, addExample, msgs[i + 1..], SeenAfter(addExample, msgs[i], seen)));
      seen := SeenAfter(addExample, msgs[i], seen);
      converted := converted + [t.value];
      i := i + 1;
    }
    assert converted + [] == converted;
    return Ok(converted);
  }

  // ---- And back ----

  /** `EXECUTION RESULT of \[(.*?)\]:\n(.*)`: the tool and its result. */
  function SearchResult(s: string): Option<(string, string)> {
    if RESULT_OPEN <= s && Cut(s[|RESULT_OPEN|..], RESULT_CLOSE).Some? then Cut(s[|RESULT_OPEN|..], RESULT_CLOSE)
    else if s == "" then None
    else SearchResult(s[1..])
  }

  function FindTool(tools: seq<ToolSpec>, name: string): Option<ToolSpec> {
    if tools == [] then None
    else if tools[0].name == name then Some(tools[0])
    else FindTool(tools[1..], name)
  }

  /** One parameter of `_extract_and_validate_params`. */
  function ConvertParam(tool: ToolSpec, k: string, text: string): Result<Value, Error> {
    if k !in tool.properties then Err(if tool.properties == map[] then KeyError else ValidationError)
    else
      var p := tool.properties[k];
      var value := if p.kind == IntegerType
        then (match ParseInt(text) case Some(n) => Ok(Int(n)) case None => Err(ValidationError))
        else Ok(Str(text));
      match value
      case Err(e) => Err(e)
      case Ok(v) => if p.choices.Some? && v !in p.choices.value then Err(ValidationError) else Ok(v)
  }

  /** Assignment to a dictionary key: a present key keeps its place. */
  function Assign(args: Arguments, k: string, v: Value): Arguments {
    if args == [] then [(k, v)]
    else if args[0].0 == k then [(k, v)] + args[1..]
    else [args[0]] + Assign(args[1..], k, v)
  }

  function Collect(tool: ToolSpec, raw: RawParams, args: Arguments): Result<Arguments, Error> {
    if raw == [] then
      if tool.required <= Keys(args) then Ok(args) else Err(ValidationError)
    else match ConvertParam(tool, raw[0].0, raw[0].1)
      case Err(e) => Err(e)
      case Ok(v) => Collect(tool, raw[1..], Assign(args, raw[0].0, v))
  }

  function Keys(args: Arguments): set<string> {
    set i | 0 <= i < |args| :: args[i].0
  }

  function CallId(counter: nat): string {
    "toolu_" + Pad2(counter)
  }

  /** The content of the first user message without the example around it. */
  function WithoutExample(setup: Setup, content: string): string {
    var c := if setup.example <= content then RemoveFirst(content, setup.example) else content;
    if EndsWith(c, setup.exampleSuffix) then RemoveFirst(c, setup.exampleSuffix) else c
  }

  /** One message read back, given the counter and whether a user message has been read. */
  function CallOf(setup: Setup, m: Message, counter: nat, seen: bool): Result<Message, Error>
    requires counter > 0
  {
    match m.role
    case System => Ok(Plain(System, Before(m.content, setup.systemSuffix)))
    case User =>
      var c := if seen then m.content else WithoutExample(setup, m.content);
      (match SearchResult(c)
       case Some((name, result)) => Ok(Message(Tool, Strip(result), None, Some(CallId(counter - 1)), Some(name)))
       case None => Ok(Plain(User, c)))
    case Assistant =>
      (match ParseCall(m.content)
       case None => Ok(m)
       case Some((name, raw)) =>
         match FindTool(setup.tools, name)
         case None => Err(ValidationError)
         case Some(tool) =>
           match Collect(tool, raw, [])
           case Err(e) => Err(e)
           case Ok(args) =>
             var call := ToolCall(Some(Fn(name, Some(args))), Some(CallId(counter)), Some("function"));
             Ok(Message(Assistant, Strip(Before(FixStopword(m.content), FN_OPEN)), Some([call]), None, None)))
    case _ => Err(ConversionError)
  }

  function NextCounter(m: Message, counter: nat): nat {
    if m.role == Assistant && ParseCall(m.content).Some? then counter + 1 else counter
  }

  function ToCalls(setup: Setup, msgs: seq<Message>, counter: nat, seen: bool): Result<seq<Message>, Error>
    requires counter > 0
  {
    if msgs == [] then Ok([])
    else match CallOf(setup, msgs[0], counter, seen)
      case Err(e) => Err(e)
      case Ok(t) => Prepend([t], ToCalls(setup, msgs[1..], NextCounter(msgs[0], counter), seen || msgs[0].role == User))
  }

  /** `convert_non_fncall_messages_to_fncall_messages` */
  method ConvertToCalls(setup: Setup, msgs: seq<Message>) returns (r: Result<seq<Message>, Error>)
    ensures r == ToCalls(setup, msgs, 1, false)
  {
    var converted: seq<Message> := [];
    var toolCallCounter := 1;
    var firstUserMessageEncountered := false;
    var i := 0;
    hide CallOf, ParseCall;
    PrependEmpty(ToCalls(setup, msgs, 1, false));
    assert msgs[0..] == msgs;
    while i < |msgs|
      invariant 0 <= i <= |msgs| && toolCallCounter > 0
      invariant ToCalls(setup, msgs, 1, false)
             == Prepend(converted, ToCalls(setup, msgs[i..], toolCallCounter, firstUserMessageEncountered))
    {
      var m := msgs[i];
      assert msgs[i..][0] == m && msgs[i..][1..] == msgs[i + 1..];
      var t := CallOf(setup, m, toolCallCounter, firstUserMessageEncountered);
      if t.Err? {
        return Err(t.error);
      }
      PrependMore(converted, t.value,
        ToCalls(setup, msgs[i + 1..], NextCounter(m, toolCallCounter), firstUserMessageEncountered || m.role == User));
      converted := converted + [t.value];
      toolCallCounter := NextCounter(m, toolCallCounter);
      firstUserMessageEncountered := firstUserMessageEncountered || m.role == User;
      i := i + 1;
    }
    assert converted + [] == converted;
    return Ok(converted);
  }
}
