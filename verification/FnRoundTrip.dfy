/** Function-calling conversations survive the way to text and back. */
module FnRoundTrip {
  import opened Wrappers
  import opened Strings
  import opened Decimal
  import opened CallSyntax
  import opened CallRoundTrip
  import opened FnConverter

  // ---- What may be sent through text ----

  predicate ValueSurvives(v: Value) {
    v.Str? ==> Survives(v.text)
  }

  /** The tool accepts the argument as it is: its type and, if restricted, its value. */
  predicate Accepts(tool: ToolSpec, k: string, v: Value) {
    && k in tool.properties
    && (v.Int? <==> tool.properties[k].kind == IntegerType)
    && (tool.properties[k].choices.Some? ==> v in tool.properties[k].choices.value)
  }

  predicate DistinctKeys(args: Arguments) {
    forall i, j | 0 <= i < j < |args| :: args[i].0 != args[j].0
  }

  predicate GoodCall(setup: Setup, call: ToolCall) {
    && call.fn.Some? && call.id.Some? && call.kind == Some("function")
    && call.fn.value.arguments.Some?
    && GoodFunctionName(call.fn.value.name)
    && FindTool(setup.tools, call.fn.value.name).Some?
    && var args := call.fn.value.arguments.value;
       var tool := FindTool(setup.tools, call.fn.value.name).value;
       && DistinctKeys(args)
       && tool.required <= Keys(args)
       && (forall i | 0 <= i < |args| ::
             GoodParamName(args[i].0) && ValueSurvives(args[i].1) && Accepts(tool, args[i].0, args[i].1))
  }

  /** The first user message: the added suffix is the first one in the text; or, where no example
      is added, there is none that reading back would remove. */
  predicate GoodFirstUser(setup: Setup, addExample: bool, content: string) {
    if addExample && setup.example != "" then
      Cut(content + setup.exampleSuffix, setup.exampleSuffix) == Some((content, ""))
    else
      (setup.example == "" || !(setup.example <= content)) && !EndsWith(content, setup.exampleSuffix)
  }

  predicate Good(setup: Setup, addExample: bool, m: Message, seen: bool) {
    match m.role
    case System => Cut(m.content + setup.systemSuffix, setup.systemSuffix) == Some((m.content, ""))
    case User =>
      && (!seen ==> GoodFirstUser(setup, addExample, m.content))
      && SearchResult(m.content).None?
    case Assistant =>
      (match m.toolCalls
       case None => ParseCall(m.content).None?
       case Some(calls) => |calls| == 1 && GoodCall(setup, calls[0]) && !Contains(m.content, FN_OPEN))
    case Tool => seen && !Contains(ToolName(m), RESULT_CLOSE)
    case OtherRole => false
  }

  predicate GoodConversation(setup: Setup, addExample: bool, msgs: seq<Message>, seen: bool) {
    msgs == []
    || (Good(setup, addExample, msgs[0], seen)
        && GoodConversation(setup, addExample, msgs[1..], seen || msgs[0].role == User))
  }

  // ---- What comes back ----

  predicate IsCall(m: Message) {
    m.role == Assistant && m.toolCalls.Some?
  }

  /** The message as it comes back: same role and texts (the text beside a call or in a tool result
      stripped), same function and arguments, new ids. */
  function Returned(m: Message, counter: nat): Message
    requires counter > 0
  {
    if IsCall(m) && |m.toolCalls.value| == 1 then
      var call := m.toolCalls.value[0];
      Message(Assistant, Strip(m.content), Some([ToolCall(call.fn, Some(CallId(counter)), Some("function"))]), None, None)
    else if m.role == Tool then Message(Tool, Strip(m.content), None, Some(CallId(counter - 1)), Some(ToolName(m)))
    else Plain(m.role, m.content)
  }

  function ReturnedAll(msgs: seq<Message>, counter: nat): (r: seq<Message>)
    requires counter > 0
    ensures |r| == |msgs|
  {
    if msgs == [] then []
    else [Returned(msgs[0], counter)] + ReturnedAll(msgs[1..], if IsCall(msgs[0]) then counter + 1 else counter)
  }

  // ---- Arguments ----

  lemma {:induction false} PlainNotMalformed(v: string)
    requires '<' !in v
    ensures !EndsMalformed(v)
  {
    hide PARAM_OPEN;
    if v != "" { PlainNotMalformed(v[1..]); }
  }

  lemma IntSurvives(n: int)
    ensures Survives(PrintInt(n))
  {
    hide PARAM_OPEN, PARAM_CLOSE, FN_OPEN, FN_CLOSE, PrintNat, EndsMalformed, Contains;
    Markers();
    var s := PrintInt(n);
    var d := PrintNat(if n < 0 then -n else n);
    forall i | 0 <= i < |s| ensures s[i] != '<' {
      assert i > 0 || n >= 0 ==> IsDigit(d[if n < 0 then i - 1 else i]);
    }
    PlainNotMalformed(s);
    NoHeadNoMatch(s, PARAM_CLOSE);
    NoHeadNoMatch(s, FN_CLOSE);
  }

  lemma ArgumentsSurvive(args: Arguments)
    requires forall i | 0 <= i < |args| :: GoodParamName(args[i].0) && ValueSurvives(args[i].1)
    ensures GoodNames(Raw(args)) && AllSurvive(Raw(args))
  {
    hide Survives, PrintInt, GoodParamName;
    forall i | 0 <= i < |args| ensures Survives(Raw(args)[i].1) {
      assert ValueSurvives(args[i].1);
      if args[i].1.Int? { IntSurvives(args[i].1.number); }
    }
    forall i | 0 <= i < |args| ensures GoodParamName(Raw(args)[i].0) {
      assert GoodParamName(args[i].0);
    }
  }

  lemma {:induction false} AssignNew(args: Arguments, k: string, v: Value)
    requires k !in Keys(args)
    ensures Assign(args, k, v) == args + [(k, v)]
  {
    if args != [] {
      forall i | 0 <= i < |args[1..]| ensures args[1..][i].0 != k {
        assert args[1..][i] == args[i + 1];
        assert args[i + 1].0 in Keys(args);
      }
      assert args[0].0 in Keys(args);
      AssignNew(args[1..], k, v);
      assert [args[0]] + (args[1..] + [(k, v)]) == args + [(k, v)];
    }
  }

  lemma ConvertPrinted(tool: ToolSpec, k: string, v: Value)
    requires Accepts(tool, k, v)
    ensures ConvertParam(tool, k, PrintValue(v)) == Ok(v)
  {
    hide ParseInt, PrintInt;
    if v.Int? { ParsePrintedInt(v.number); }
  }

  lemma {:induction false} CollectPrinted(tool: ToolSpec, done: Arguments, args: Arguments)
    requires DistinctKeys(done + args) && tool.required <= Keys(done + args)
    requires forall i | 0 <= i < |args| :: Accepts(tool, args[i].0, args[i].1)
    ensures Collect(tool, Raw(args), done) == Ok(done + args)
    decreases |args|
  {
    hide Accepts, ConvertParam, Assign, PrintValue;
    if args == [] {
      assert done + args == done;
    } else {
      var (k, v) := args[0];
      assert Accepts(tool, args[0].0, args[0].1);
      ConvertPrinted(tool, k, v);
      forall i | 0 <= i < |done| ensures done[i].0 != k {
        assert (done + args)[i] == done[i] && (done + args)[|done|] == args[0];
      }
      AssignNew(done, k, v);
      var next := done + [(k, v)];
      assert next + args[1..] == done + args;
      forall i | 0 <= i < |args[1..]| ensures Accepts(tool, args[1..][i].0, args[1..][i].1) {
        assert Accepts(tool, args[i + 1].0, args[i + 1].1);
      }
      CollectPrinted(tool, next, args[1..]);
      assert Raw(args)[1..] == Raw(args[1..]);
    }
  }

  // ---- Messages ----

  /** Reading an assistant text that shows one accepted call behind its prose. */
  lemma ReadCall(setup: Setup, content: string, pre: string, call: ToolCall, rest: string, counter: nat, seen: bool)
    requires counter > 0 && GoodCall(setup, call) && !Contains(pre, FN_OPEN)
    requires ParseCall(content) == Some((call.fn.value.name, Raw(call.fn.value.arguments.value)))
    requires FixStopword(content) == pre + FN_OPEN + rest
    ensures CallOf(setup, Plain(Assistant, content), counter, seen) == Ok(Message(Assistant, Strip(pre),
              Some([ToolCall(call.fn, Some(CallId(counter)), Some("function"))]), None, None))
  {
    hide FN_OPEN, ParseCall, FixStopword, Contains, Collect, Strip, Accepts, CallId, GoodParamName, ValueSurvives,
         DistinctKeys, Keys;
    Markers();
    var args := call.fn.value.arguments.value;
    var tool := FindTool(setup.tools, call.fn.value.name).value;
    assert [] + args == args;
    forall i | 0 <= i < |args| ensures Accepts(tool, args[i].0, args[i].1) {
      assert GoodParamName(args[i].0) && ValueSurvives(args[i].1) && Accepts(tool, args[i].0, args[i].1);
    }
    CollectPrinted(tool, [], args);
    CutAt(pre, FN_OPEN, rest);
    assert Before(FixStopword(content), FN_OPEN) == pre;
    assert call.fn == Some(Fn(call.fn.value.name, Some(args)));
  }

  /** What stands before the call in the text of an assistant message. */
  function Prose(content: string): string {
    if LStrip(content) == "" then "" else LStrip(content) + "\n\n"
  }

  lemma {:induction false} ForeignTail(a: string, t: string, q: string)
    requires q != "" && (forall k | 0 <= k < |t| :: t[k] !in q) && !Contains(a, q)
    ensures !Contains(a + t, q)
  {
    if a == "" {
      assert a + t == t;
      if t != "" {
        assert ("" + t[1..]) == t[1..];
        ForeignTailOnly(t, q);
      }
    } else {
      assert t != "" ==> (a + t)[|a|] == t[0];
      assert |a| < |q| ==> q[|a|] in q;
      assert (a + t)[1..] == a[1..] + t;
      ForeignTail(a[1..], t, q);
    }
  }

  lemma {:induction false} ForeignTailOnly(t: string, q: string)
    requires q != "" && forall k | 0 <= k < |t| :: t[k] !in q
    ensures !Contains(t, q)
  {
    if t != "" {
      assert q[0] in q;
      ForeignTailOnly(t[1..], q);
    }
  }

  lemma ProseClean(content: string)
    requires !Contains(content, FN_OPEN)
    ensures !Contains(Prose(content), FN_OPEN) && Strip(Prose(content)) == Strip(content)
  {
    Markers();
    assert '\n' !in FN_OPEN;
    hide FN_OPEN, Contains;
    var l := LStrip(content);
    SuffixClean(content, |content| - |l|, FN_OPEN);
    if l == "" {
      TooShort("", FN_OPEN);
    } else {
      ForeignTail(l, "\n\n", FN_OPEN);
      StripPadded(content, "\n\n");
    }
  }

  /** The text of an assistant message with a call is its prose and the printed call. */
  lemma CallText(setup: Setup, addExample: bool, m: Message, seen: bool)
    requires Good(setup, addExample, m, seen) && IsCall(m)
    ensures var fn := m.toolCalls.value[0].fn.value;
      TextOf(setup, addExample, m, seen)
        == Ok(Plain(Assistant, FullText(Prose(m.content), fn.name, Raw(fn.arguments.value))))
  {
    hide FN_OPEN, FN_CLOSE, PrintParams, Contains, LStrip, Accepts, GoodParamName, ValueSurvives, DistinctKeys,
         Keys, FindTool, Prose, Raw;
    var fn := m.toolCalls.value[0].fn.value;
    PrintedAfterProse(m.content, fn.name, Raw(fn.arguments.value));
  }

  lemma PrintedAfterProse(content: string, name: string, ps: RawParams)
    ensures LStrip(content + "\n\n" + PrintCall(name, ps)) == FullText(Prose(content), name, ps)
  {
    hide FN_OPEN, FN_CLOSE, PrintParams, LStrip;
    Markers();
    var text := PrintCall(name, ps);
    assert text[0] == FN_OPEN[0];
    LStripPadded(content, "\n\n", text);
    assert "" + text == text;
  }

  lemma CallComesBack(setup: Setup, addExample: bool, m: Message, counter: nat, seen: bool)
    requires counter > 0 && Good(setup, addExample, m, seen) && IsCall(m)
    ensures var t := TextOf(setup, addExample, m, seen);
      t.Ok? && CallOf(setup, t.value, counter, seen) == Ok(Returned(m, counter))
            && NextCounter(t.value, counter) == counter + 1 && t.value.role == Assistant
  {
    hide FN_OPEN, FN_CLOSE, ParseCall, FixStopword, Contains, Strip, CallOf, TextOf, Prose, FullText, Raw, Accepts,
         GoodParamName, ValueSurvives, DistinctKeys, Keys, PrintParams, CallId;
    var call := m.toolCalls.value[0];
    var name, args := call.fn.value.name, call.fn.value.arguments.value;
    var pre := Prose(m.content);
    var content := FullText(pre, name, Raw(args));
    CallText(setup, addExample, m, seen);
    ProseClean(m.content);
    ArgumentsSurvive(args);
    FullTextExact(pre, name, Raw(args));
    var rest := FullTextFixed(pre, name, Raw(args));
    var tail := name + ">\n" + (PrintParams(Raw(args)) + "") + FN_CLOSE + rest;
    assert FixStopword(content) == pre + FN_OPEN + tail;
    ReadCall(setup, content, pre, call, tail, counter, seen);
  }

  /** A reply cut at the stop word is read as the whole one. */
  lemma TruncatedReply(setup: Setup, addExample: bool, m: Message, end: string, counter: nat, seen: bool)
    requires counter > 0 && Good(setup, addExample, m, seen) && IsCall(m)
    requires end == "" || end == "</"
    requires NoOpening(Raw(m.toolCalls.value[0].fn.value.arguments.value))
    ensures var fn := m.toolCalls.value[0].fn.value;
      var reply := CutBeforeStop(Prose(m.content), fn.name, Raw(fn.arguments.value)) + end;
      CallOf(setup, Plain(Assistant, reply), counter, seen) == Ok(Returned(m, counter))
  {
    hide FN_OPEN, FN_CLOSE, ParseCall, FixStopword, Contains, Strip, CallOf, TextOf, Prose, Raw, Accepts, CutBeforeStop,
         GoodParamName, ValueSurvives, DistinctKeys, Keys, PrintParams, CallId, NoOpening;
    var call := m.toolCalls.value[0];
    var name, ps := call.fn.value.name, Raw(call.fn.value.arguments.value);
    var pre := Prose(m.content);
    ProseClean(m.content);
    ArgumentsSurvive(call.fn.value.arguments.value);
    TruncatedExact(pre, name, ps, end);
    var content := CutBeforeStop(pre, name, ps) + end;
    var body: string;
    if end == "" {
      assert content == CutBeforeStop(pre, name, ps);
      FixedBeforeStop(pre, name, ps);
      body := PrintParams(ps) + "\n";
    } else {
      FixedInStop(pre, name, ps);
      body := PrintParams(ps) + "";
    }
    var tail := name + ">\n" + body + FN_CLOSE + "";
    assert FixStopword(content) == pre + FN_OPEN + tail;
    ReadCall(setup, content, pre, call, tail, counter, seen);
  }

  lemma ToolComesBack(setup: Setup, m: Message, counter: nat)
    requires counter > 0 && m.role == Tool && !Contains(ToolName(m), RESULT_CLOSE)
    ensures CallOf(setup, Plain(User, RESULT_OPEN + ToolName(m) + RESULT_CLOSE + m.content), counter, true)
         == Ok(Returned(m, counter))
  {
    assert HeadOnce(RESULT_CLOSE);
    hide RESULT_OPEN, RESULT_CLOSE, Contains, Strip, CallId;
    var r := ToolName(m) + RESULT_CLOSE + m.content;
    var s := RESULT_OPEN + ToolName(m) + RESULT_CLOSE + m.content;
    assert s == RESULT_OPEN + r && s[|RESULT_OPEN|..] == r;
    CutAt(ToolName(m), RESULT_CLOSE, m.content);
    assert SearchResult(s) == Some((ToolName(m), m.content));
  }

  lemma FirstUserComesBack(setup: Setup, addExample: bool, content: string)
    requires GoodFirstUser(setup, addExample, content)
    ensures var text := if addExample && setup.example != "" then setup.example + content + setup.exampleSuffix else content;
      WithoutExample(setup, text) == content
  {
    if addExample && setup.example != "" {
      var c := content + setup.exampleSuffix;
      var text := setup.example + content + setup.exampleSuffix;
      assert text == setup.example + c;
      assert text[|setup.example|..] == c && setup.example <= text;
      assert Cut(text, setup.example) == Some(("", c));
      assert "" + c == c && content + "" == content;
      assert c[|c| - |setup.exampleSuffix|..] == setup.exampleSuffix;
    } else if setup.example == "" {
      assert content[0..] == content && "" + content == content;
    }
  }

  lemma MessageComesBack(setup: Setup, addExample: bool, m: Message, counter: nat, seen: bool)
    requires counter > 0 && Good(setup, addExample, m, seen)
    ensures var t := TextOf(setup, addExample, m, seen && addExample);
      t.Ok? && CallOf(setup, t.value, counter, seen) == Ok(Returned(m, counter))
            && NextCounter(t.value, counter) == (if IsCall(m) then counter + 1 else counter)
            && (t.value.role == User <==> m.role == User || m.role == Tool)
  {
    if IsCall(m) {
      hide CallOf, NextCounter, Returned, Good;
      SameText(setup, addExample, m, seen);
      CallComesBack(setup, addExample, m, counter, seen);
    } else {
      hide FN_OPEN, ParseCall, FixStopword, Contains, Strip, SearchResult, RESULT_OPEN, RESULT_CLOSE, CallId, Cut;
      match m.role
      case User =>
        if !seen { hide WithoutExample; FirstUserComesBack(setup, addExample, m.content); }
      case Tool =>
        hide CallOf;
        ToolComesBack(setup, m, counter);
      case _ =>
    }
  }

  lemma SameText(setup: Setup, addExample: bool, m: Message, seen: bool)
    requires m.role == Assistant
    ensures TextOf(setup, addExample, m, seen && addExample) == TextOf(setup, addExample, m, seen)
  {
    hide ToolCallText, LStrip;
  }

  /** A good conversation is converted, and comes back with the same roles, texts, functions and
      arguments. */
  lemma {:induction false} ConversationComesBack(setup: Setup, addExample: bool, msgs: seq<Message>,
                                                 counter: nat, seen: bool)
    requires counter > 0 && GoodConversation(setup, addExample, msgs, seen)
    ensures var t := ToText(setup, addExample, msgs, seen && addExample);
      t.Ok? && ToCalls(setup, t.value, counter, seen) == Ok(ReturnedAll(msgs, counter))
  {
    hide CallOf, TextOf, Good, Returned, NextCounter, IsCall;
    if msgs != [] {
      var m := msgs[0];
      MessageComesBack(setup, addExample, m, counter, seen);
      var next := if IsCall(m) then counter + 1 else counter;
      ToolNeedsUser(setup, addExample, m, seen);
      ConversationComesBack(setup, addExample, msgs[1..], next, seen || m.role == User);
      var t := TextOf(setup, addExample, m, seen && addExample).value;
      var ts := ToText(setup, addExample, msgs[1..], (seen || m.role == User) && addExample).value;
      assert ToText(setup, addExample, msgs, seen && addExample) == Ok([t] + ts);
      assert ([t] + ts)[0] == t && ([t] + ts)[1..] == ts;
    }
  }

  lemma ToolNeedsUser(setup: Setup, addExample: bool, m: Message, seen: bool)
    requires Good(setup, addExample, m, seen)
    ensures m.role == Tool ==> seen
  {
  }

  /** The law of the converter: convert to text and back, from the start. */
  lemma RoundTrip(setup: Setup, addExample: bool, msgs: seq<Message>)
    requires GoodConversation(setup, addExample, msgs, false)
    ensures var t := ToText(setup, addExample, msgs, false);
      t.Ok? && ToCalls(setup, t.value, 1, false) == Ok(ReturnedAll(msgs, 1))
  {
    ConversationComesBack(setup, addExample, msgs, 1, false);
  }

  // ---- Ids ----

  function CallsBefore(msgs: seq<Message>, i: nat): nat
    requires i <= |msgs|
  {
    if i == 0 then 0 else CallsBefore(msgs, i - 1) + (if IsCall(msgs[i - 1]) then 1 else 0)
  }

  lemma {:induction false} CallsBeforeTail(msgs: seq<Message>, i: nat)
    requires 0 < i <= |msgs|
    ensures CallsBefore(msgs, i) == (if IsCall(msgs[0]) then 1 else 0) + CallsBefore(msgs[1..], i - 1)
  {
    if i > 1 { CallsBeforeTail(msgs, i - 1); }
  }

  lemma {:induction false} ReturnedAt(msgs: seq<Message>, counter: nat, i: nat)
    requires counter > 0 && i < |msgs|
    ensures ReturnedAll(msgs, counter)[i] == Returned(msgs[i], counter + CallsBefore(msgs, i))
  {
    hide Returned;
    if i > 0 {
      ReturnedAt(msgs[1..], if IsCall(msgs[0]) then counter + 1 else counter, i - 1);
      CallsBeforeTail(msgs, i);
    }
  }

  lemma {:induction false} CallsBeforeGrows(msgs: seq<Message>, i: nat, j: nat)
    requires i < j <= |msgs|
    ensures CallsBefore(msgs, i) + (if IsCall(msgs[i]) then 1 else 0) <= CallsBefore(msgs, j)
  {
    if j > i + 1 { CallsBeforeGrows(msgs, i, j - 1); }
  }

  lemma CallIdInjective(a: nat, b: nat)
    requires CallId(a) == CallId(b)
    ensures a == b
  {
    var p := "toolu_";
    assert CallId(a)[|p|..] == Pad2(a) && CallId(b)[|p|..] == Pad2(b);
    ParsePadded(a);
    ParsePadded(b);
  }

  predicate OneCall(m: Message) {
    IsCall(m) && |m.toolCalls.value| == 1
  }

  /** The calls that come back carry distinct ids. */
  lemma FreshIds(msgs: seq<Message>, i: nat, j: nat)
    requires i < j < |msgs| && OneCall(msgs[i]) && OneCall(msgs[j])
    ensures var r := ReturnedAll(msgs, 1);
      OneCall(r[i]) && OneCall(r[j]) && r[i].toolCalls.value[0].id != r[j].toolCalls.value[0].id
  {
    hide CallId, Strip, CallsBefore, ReturnedAll;
    ReturnedAt(msgs, 1, i);
    ReturnedAt(msgs, 1, j);
    CallsBeforeGrows(msgs, i, j);
    if CallId(1 + CallsBefore(msgs, i)) == CallId(1 + CallsBefore(msgs, j)) {
      CallIdInjective(1 + CallsBefore(msgs, i), 1 + CallsBefore(msgs, j));
    }
  }

  /** A tool message that follows a call with no call in between carries the id of that call. */
  lemma ResultCarriesCallId(msgs: seq<Message>, i: nat, j: nat)
    requires i < j < |msgs| && OneCall(msgs[i]) && msgs[j].role == Tool
    requires forall k | i < k < j :: !IsCall(msgs[k])
    ensures var r := ReturnedAll(msgs, 1);
      OneCall(r[i]) && r[j].toolCallId == r[i].toolCalls.value[0].id
  {
    hide CallId, Strip, ReturnedAll;
    ReturnedAt(msgs, 1, i);
    ReturnedAt(msgs, 1, j);
    NoCallsBetween(msgs, i + 1, j);
  }

  lemma {:induction false} NoCallsBetween(msgs: seq<Message>, i: nat, j: nat)
    requires i <= j <= |msgs| && forall k | i <= k < j :: !IsCall(msgs[k])
    ensures CallsBefore(msgs, i) == CallsBefore(msgs, j)
  {
    if i < j { NoCallsBetween(msgs, i, j - 1); }
  }
}
