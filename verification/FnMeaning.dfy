/** What the two conversions accept, refuse and write, message by message. */
module FnMeaning {
  import opened Wrappers
  import opened Strings
  import opened Decimal
  import opened CallSyntax
  import opened FnConverter

  // ---- Parameters of a call ----

  predicate Named(raw: RawParams, k: string) {
    exists i | 0 <= i < |raw| :: raw[i].0 == k
  }

  /** The value a tool makes of a parameter's text, if it knows the parameter and the text is an integer
      where it has to be. */
  function ReadAs(tool: ToolSpec, k: string, text: string): Option<Value> {
    if k !in tool.properties then None
    else if tool.properties[k].kind.OtherType? then Some(Str(text))
    else if ParseInt(text).Some? then Some(Int(ParseInt(text).value))
    else None
  }

  /** The parameter can be read, and its value is one of the choices if there are any. */
  predicate Accepted(tool: ToolSpec, k: string, text: string) {
    && ReadAs(tool, k, text).Some?
    && (tool.properties[k].choices.Some? ==> ReadAs(tool, k, text).value in tool.properties[k].choices.value)
  }

  lemma ConvertExactly(tool: ToolSpec, k: string, text: string)
    ensures ConvertParam(tool, k, text).Ok? <==> Accepted(tool, k, text)
    ensures Accepted(tool, k, text) ==> ConvertParam(tool, k, text) == Ok(ReadAs(tool, k, text).value)
    ensures ConvertParam(tool, k, text).Err? ==>
      ConvertParam(tool, k, text).error == if tool.properties == map[] then KeyError else ValidationError
  {
    hide ParseInt;
  }

  /** The text that counts for a parameter: the last one given. */
  function LastText(raw: RawParams, k: string): string
    requires Named(raw, k)
  {
    var n := |raw| - 1;
    if raw[n].0 == k then raw[n].1 else LastText(raw[..n], k)
  }

  function ArgumentOf(args: Arguments, k: string): Option<Value> {
    if args == [] then None else if args[0].0 == k then Some(args[0].1) else ArgumentOf(args[1..], k)
  }

  lemma {:induction false} ArgumentNamed(args: Arguments, k: string)
    ensures ArgumentOf(args, k).Some? <==> k in Keys(args)
  {
    if args != [] {
      ArgumentNamed(args[1..], k);
      KeysSplit(args);
    }
  }

  lemma KeysSplit(args: Arguments)
    requires args != []
    ensures Keys(args) == {args[0].0} + Keys(args[1..])
  {
    forall k | k in Keys(args) ensures k in {args[0].0} + Keys(args[1..]) {
      var i :| 0 <= i < |args| && args[i].0 == k;
      if i > 0 { assert args[1..][i - 1].0 == k; }
    }
  }

  lemma {:induction false} AssignGives(args: Arguments, k: string, v: Value, x: string)
    ensures ArgumentOf(Assign(args, k, v), x) == if x == k then Some(v) else ArgumentOf(args, x)
    ensures Keys(Assign(args, k, v)) == Keys(args) + {k}
  {
    hide Keys;
    if args == [] {
      assert Keys(args) == {} && Keys([(k, v)]) == {k} by { OneKey(k, v); }
      assert ArgumentOf([(k, v)], x) == if x == k then Some(v) else None by { assert [(k, v)][1..] == []; }
    } else {
      KeysSplit(args);
      KeysSplit(Assign(args, k, v));
      if args[0].0 != k { AssignGives(args[1..], k, v, x); }
    }
  }

  lemma OneKey(k: string, v: Value)
    ensures Keys([(k, v)]) == {k} && Keys([]) == {}
  {
    var one: Arguments := [(k, v)];
    assert one[0].0 == k;
  }

  /** A call is collected exactly if every parameter given is accepted and every required one is given. */
  predicate Complete(tool: ToolSpec, raw: RawParams, args: Arguments) {
    && (forall i | 0 <= i < |raw| :: Accepted(tool, raw[i].0, raw[i].1))
    && (forall n | n in tool.required :: n in Keys(args) || Named(raw, n))
  }

  lemma NamedSplit(raw: RawParams, k: string)
    requires raw != []
    ensures Named(raw, k) <==> raw[0].0 == k || Named(raw[1..], k)
  {
    if i :| 0 <= i < |raw| && raw[i].0 == k {
      if i > 0 { assert raw[1..][i - 1].0 == k; }
    }
  }

  lemma {:induction false} CollectExactly(tool: ToolSpec, raw: RawParams, args: Arguments)
    ensures Collect(tool, raw, args).Ok? <==> Complete(tool, raw, args)
    ensures Collect(tool, raw, args).Err? ==> Collect(tool, raw, args).error in {ValidationError, KeyError}
  {
    if raw != [] {
      var (k, text) := raw[0];
      ConvertExactly(tool, k, text);
      hide Accepted, ConvertParam, Keys;
      if Accepted(tool, k, text) {
        var v := ReadAs(tool, k, text).value;
        CollectExactly(tool, raw[1..], Assign(args, k, v));
        AssignGives(args, k, v, k);
        hide Named;
        forall n ensures Named(raw, n) <==> k == n || Named(raw[1..], n) { NamedSplit(raw, n); }
        AcceptedSplit(tool, raw);
      }
    }
  }

  lemma AcceptedSplit(tool: ToolSpec, raw: RawParams)
    requires raw != []
    ensures (forall i | 0 <= i < |raw| :: Accepted(tool, raw[i].0, raw[i].1))
       <==> Accepted(tool, raw[0].0, raw[0].1)
            && forall i | 0 <= i < |raw[1..]| :: Accepted(tool, raw[1..][i].0, raw[1..][i].1)
  {
    hide Accepted;
    var rest := raw[1..];
    if Accepted(tool, raw[0].0, raw[0].1) && forall i | 0 <= i < |rest| :: Accepted(tool, rest[i].0, rest[i].1) {
      forall i | 0 <= i < |raw| ensures Accepted(tool, raw[i].0, raw[i].1) {
        if i > 0 { assert raw[i] == rest[i - 1]; }
      }
    }
  }

  /** The arguments collected: for each parameter the value of the last text given for it. */
  lemma {:induction false} CollectGives(tool: ToolSpec, raw: RawParams, args: Arguments, x: string)
    requires Complete(tool, raw, args)
    ensures Collect(tool, raw, args).Ok?
    ensures ArgumentOf(Collect(tool, raw, args).value, x)
         == if Named(raw, x) then ReadAs(tool, x, LastText(raw, x)) else ArgumentOf(args, x)
    decreases |raw|
  {
    CollectExactly(tool, raw, args);
    if raw != [] {
      var (k, text) := raw[0];
      ConvertExactly(tool, k, text);
      assert Accepted(tool, k, text);
      var v := ReadAs(tool, k, text).value;
      CompleteRest(tool, raw, args);
      hide Complete, ConvertParam, Keys, ReadAs, Accepted, LastText;
      AssignGives(args, k, v, x);
      CollectGives(tool, raw[1..], Assign(args, k, v), x);
      NamedSplit(raw, x);
      if Named(raw, x) { LastSplit(raw, x); }
    }
  }

  lemma CompleteRest(tool: ToolSpec, raw: RawParams, args: Arguments)
    requires Complete(tool, raw, args) && raw != [] && Accepted(tool, raw[0].0, raw[0].1)
    ensures Complete(tool, raw[1..], Assign(args, raw[0].0, ReadAs(tool, raw[0].0, raw[0].1).value))
  {
    hide ReadAs, Keys, Assign;
    var (k, v) := (raw[0].0, ReadAs(tool, raw[0].0, raw[0].1).value);
    AssignGives(args, k, v, k);
    AcceptedSplit(tool, raw);
    forall n | n in tool.required ensures n in Keys(Assign(args, k, v)) || Named(raw[1..], n) { NamedSplit(raw, n); }
  }

  lemma {:induction false} LastSplit(raw: RawParams, x: string)
    requires raw != [] && Named(raw, x)
    ensures LastText(raw, x) == if Named(raw[1..], x) then LastText(raw[1..], x) else raw[0].1
  {
    var n := |raw| - 1;
    NamedSplit(raw, x);
    if n > 0 {
      assert raw[1..][n - 1] == raw[n];
      if raw[n].0 != x {
        var i :| 0 <= i < |raw| && raw[i].0 == x;
        assert raw[..n][i].0 == x;
        LastSplit(raw[..n], x);
        assert raw[..n][1..] == raw[1..][..n - 1];
        assert Named(raw[1..], x) <==> Named(raw[..n][1..], x) by { FrontNamed(raw[1..], x); }
      } else {
        assert Named(raw[1..], x);
      }
    }
  }

  lemma FrontNamed(raw: RawParams, x: string)
    requires raw != [] && raw[|raw| - 1].0 != x
    ensures Named(raw, x) <==> Named(raw[..|raw| - 1], x)
  {
    if i :| 0 <= i < |raw| && raw[i].0 == x { assert raw[..|raw| - 1][i].0 == x; }
  }

  /** The tool of a name is the first one that has it. */
  lemma {:induction false} FindToolIs(tools: seq<ToolSpec>, name: string)
    ensures match FindTool(tools, name)
      case None => forall i | 0 <= i < |tools| :: tools[i].name != name
      case Some(t) => exists i | 0 <= i < |tools| ::
        t == tools[i] && t.name == name && forall j | 0 <= j < i :: tools[j].name != name
  {
    if tools != [] && tools[0].name != name {
      FindToolIs(tools[1..], name);
      assert forall i | 0 < i < |tools| :: tools[i] == tools[1..][i - 1];
      if FindTool(tools, name).Some? {
        var i :| 0 <= i < |tools| - 1 && tools[1..][i] == FindTool(tools, name).value && tools[1..][i].name == name
                 && forall j | 0 <= j < i :: tools[1..][j].name != name;
        assert tools[i + 1] == tools[1..][i];
        forall j | 0 <= j < i + 1 ensures tools[j].name != name {
          if j > 0 { assert tools[j] == tools[1..][j - 1]; }
        }
      }
    } else if tools != [] {
      assert tools[0] == FindTool(tools, name).value;
    }
  }

  /** A text that contains a call is read as one exactly if the tool is known, accepts every parameter,
      and is given every one it requires; otherwise it is refused, never read as something else. */
  lemma CallReadExactly(setup: Setup, m: Message, counter: nat, seen: bool)
    requires counter > 0 && m.role == Assistant && ParseCall(m.content).Some?
    ensures var (name, raw) := ParseCall(m.content).value;
      var tool := FindTool(setup.tools, name);
      && (CallOf(setup, m, counter, seen).Ok? <==> tool.Some? && Complete(tool.value, raw, []))
      && (CallOf(setup, m, counter, seen).Err? ==> CallOf(setup, m, counter, seen).error in {ValidationError, KeyError})
  {
    hide ParseCall, Strip, Before, FixStopword, Collect, Complete, CallId;
    var (name, raw) := ParseCall(m.content).value;
    if FindTool(setup.tools, name).Some? { CollectExactly(FindTool(setup.tools, name).value, raw, []); }
  }

  /** What it is read as: one call of that function, with the value of each parameter given and no other. */
  lemma CallReadAs(setup: Setup, m: Message, counter: nat, seen: bool, x: string)
    requires counter > 0 && m.role == Assistant && ParseCall(m.content).Some? && CallOf(setup, m, counter, seen).Ok?
    ensures var (name, raw) := ParseCall(m.content).value;
      var r := CallOf(setup, m, counter, seen).value;
      && r.role == Assistant && r.toolCalls.Some? && |r.toolCalls.value| == 1
      && var call := r.toolCalls.value[0];
         && call.fn.Some? && call.fn.value.name == name && call.fn.value.arguments.Some?
         && call.id == Some(CallId(counter)) && call.kind == Some("function")
         && FindTool(setup.tools, name).Some?
         && var tool := FindTool(setup.tools, name).value;
            && (Named(raw, x) ==> Accepted(tool, x, LastText(raw, x)))
            && ArgumentOf(call.fn.value.arguments.value, x)
               == if Named(raw, x) then ReadAs(tool, x, LastText(raw, x)) else None
  {
    CallReadExactly(setup, m, counter, seen);
    hide ParseCall, Strip, Before, FixStopword, Collect, CallId, Accepted, ReadAs, LastText;
    var (name, raw) := ParseCall(m.content).value;
    var tool := FindTool(setup.tools, name).value;
    CollectGives(tool, raw, [], x);
    if Named(raw, x) { LastIsGiven(raw, x); }
  }

  lemma {:induction false} LastIsGiven(raw: RawParams, x: string)
    requires Named(raw, x)
    ensures exists i | 0 <= i < |raw| :: raw[i] == (x, LastText(raw, x))
  {
    var n := |raw| - 1;
    if raw[n].0 == x {
      assert raw[n] == (x, LastText(raw, x));
    } else {
      FrontNamed(raw, x);
      LastIsGiven(raw[..n], x);
      var i :| 0 <= i < n && raw[..n][i] == (x, LastText(raw[..n], x));
      assert raw[i] == raw[..n][i];
    }
  }

  // ---- A conversation as text ----

  predicate WholeCall(call: ToolCall) {
    call.fn.Some? && call.id.Some? && call.kind == Some("function") && call.fn.value.arguments.Some?
  }

  /** A message that has a text form. */
  predicate HasText(m: Message) {
    && m.role != OtherRole
    && (m.role == Assistant && m.toolCalls.Some? ==> |m.toolCalls.value| == 1 && WholeCall(m.toolCalls.value[0]))
  }

  /** The text of a message: the tools are described after a system text, the first user message (and
      no other) stands inside the example, a call is printed after the text beside it, and a result
      becomes a user message that names its tool. */
  function TextAt(setup: Setup, addExample: bool, m: Message, first: bool): string
    requires HasText(m)
  {
    match m.role
    case System => m.content + setup.systemSuffix
    case User =>
      if addExample && first && setup.example != "" then setup.example + m.content + setup.exampleSuffix else m.content
    case Tool =>
      "EXECUTION RESULT of [" + (if m.name.Some? then m.name.value else "function") + "]:\n" + m.content
    case Assistant =>
      if m.toolCalls.None? then m.content
      else
        var fn := m.toolCalls.value[0].fn.value;
        LStrip(m.content + "\n\n" + "<function=" + fn.name + ">\n" + PrintParams(Raw(fn.arguments.value)) + "</function>")
  }

  predicate Written(setup: Setup, addExample: bool, m: Message, first: bool, t: Message)
    requires HasText(m)
  {
    && t.toolCalls == None && t.toolCallId == None && t.name == None
    && t.role == (if m.role == Tool then User else m.role)
    && t.content == TextAt(setup, addExample, m, first)
  }

  lemma TextOfExactly(setup: Setup, addExample: bool, m: Message, seen: bool)
    ensures !HasText(m) ==> TextOf(setup, addExample, m, seen) == Err(ConversionError)
    ensures HasText(m) ==>
      && TextOf(setup, addExample, m, seen).Ok?
      && Written(setup, addExample, m, !seen, TextOf(setup, addExample, m, seen).value)
  {
    hide LStrip, PrintParams, Raw;
    if HasText(m) && m.role == Assistant && m.toolCalls.Some? {
      var fn := m.toolCalls.value[0].fn.value;
      Flatten(m.content + "\n\n", "<function=" + fn.name + ">\n", PrintParams(Raw(fn.arguments.value)), "</function>");
      assert m.content + "\n\n" + ("<function=" + fn.name + ">\n") == m.content + "\n\n" + "<function=" + fn.name + ">\n";
    }
  }

  lemma Flatten(a: string, b: string, c: string, d: string)
    ensures a + (b + c + d) == a + b + c + d
  {
  }

  /** Every message is written as said, the example going to the first user message. */
  predicate AllWritten(setup: Setup, addExample: bool, msgs: seq<Message>, seen: bool, texts: seq<Message>) {
    if msgs == [] then texts == []
    else
      && texts != [] && HasText(msgs[0]) && Written(setup, addExample, msgs[0], !seen, texts[0])
      && AllWritten(setup, addExample, msgs[1..], seen || msgs[0].role == User, texts[1..])
  }

  /** A conversation has a text form exactly if each of its messages has, and then it is that form. */
  lemma {:induction false} ToTextExactly(setup: Setup, addExample: bool, msgs: seq<Message>, seen: bool)
    ensures var r := ToText(setup, addExample, msgs, seen && addExample);
      && (r.Ok? <==> forall i | 0 <= i < |msgs| :: HasText(msgs[i]))
      && (r.Err? ==> r.error == ConversionError)
      && (r.Ok? ==> AllWritten(setup, addExample, msgs, seen, r.value))
  {
    if msgs != [] {
      var m, rest := msgs[0], msgs[1..];
      TextOfExactly(setup, addExample, m, seen && addExample);
      ToTextExactly(setup, addExample, rest, seen || m.role == User);
      assert SeenAfter(addExample, m, seen && addExample) == ((seen || m.role == User) && addExample);
      ToTextStep(setup, addExample, msgs, seen && addExample);
      hide TextOf, ToText, TextAt, Written, HasText;
      if HasText(m) { FirstOnlyMatters(setup, addExample, m, seen, TextOf(setup, addExample, m, seen && addExample).value); }
      AllSplit(msgs);
      var r := ToText(setup, addExample, msgs, seen && addExample);
      if r.Ok? { assert r.value[1..] == ToText(setup, addExample, rest, (seen || m.role == User) && addExample).value; }
    }
  }

  lemma AllSplit(msgs: seq<Message>)
    requires msgs != []
    ensures (forall i | 0 <= i < |msgs| :: HasText(msgs[i]))
       <==> HasText(msgs[0]) && forall i | 0 <= i < |msgs[1..]| :: HasText(msgs[1..][i])
  {
    hide HasText;
    if HasText(msgs[0]) && forall i | 0 <= i < |msgs[1..]| :: HasText(msgs[1..][i]) {
      forall i | 0 <= i < |msgs| ensures HasText(msgs[i]) {
        if i > 0 { assert msgs[i] == msgs[1..][i - 1]; }
      }
    }
  }

  lemma ToTextStep(setup: Setup, addExample: bool, msgs: seq<Message>, seen: bool)
    requires msgs != []
    ensures var t, ts := TextOf(setup, addExample, msgs[0], seen),
                         ToText(setup, addExample, msgs[1..], SeenAfter(addExample, msgs[0], seen));
      ToText(setup, addExample, msgs, seen) ==
        if t.Err? then Err(t.error) else if ts.Err? then Err(ts.error) else Ok([t.value] + ts.value)
  {
    hide TextOf;
  }

  /** Without the example it makes no difference which user message is the first. */
  lemma FirstOnlyMatters(setup: Setup, addExample: bool, m: Message, seen: bool, t: Message)
    requires HasText(m)
    ensures Written(setup, addExample, m, !(seen && addExample), t) <==> Written(setup, addExample, m, !seen, t)
  {
    hide LStrip, PrintParams, Raw;
  }

  predicate UserBefore(msgs: seq<Message>, i: nat)
    requires i <= |msgs|
  {
    exists j | 0 <= j < i :: msgs[j].role == User
  }

  /** Position by position: the first user message is the one with none before it. */
  lemma {:induction false} WrittenAt(setup: Setup, addExample: bool, msgs: seq<Message>, seen: bool, texts: seq<Message>, i: nat)
    requires AllWritten(setup, addExample, msgs, seen, texts) && i < |msgs|
    ensures i < |texts| && HasText(msgs[i])
    ensures Written(setup, addExample, msgs[i], !seen && !UserBefore(msgs, i), texts[i])
  {
    hide Written, HasText;
    if i > 0 {
      var later := seen || msgs[0].role == User;
      WrittenAt(setup, addExample, msgs[1..], later, texts[1..], i - 1);
      assert UserBefore(msgs, i) <==> msgs[0].role == User || UserBefore(msgs[1..], i - 1) by { UserBeforeSplit(msgs, i); }
    }
  }

  lemma UserBeforeSplit(msgs: seq<Message>, i: nat)
    requires 0 < i <= |msgs|
    ensures UserBefore(msgs, i) <==> msgs[0].role == User || UserBefore(msgs[1..], i - 1)
  {
    if j :| 0 <= j < i && msgs[j].role == User {
      if j > 0 { assert msgs[1..][j - 1].role == User; }
    }
    if j :| 0 <= j < i - 1 && msgs[1..][j].role == User { assert msgs[j + 1].role == User; }
  }

  // ---- And back ----

  /** A text message that can be read back. */
  predicate Readable(setup: Setup, m: Message) {
    && m.role in {System, User, Assistant}
    && (m.role == Assistant && ParseCall(m.content).Some? ==>
          var (name, raw) := ParseCall(m.content).value;
          var tool := FindTool(setup.tools, name);
          tool.Some? && Complete(tool.value, raw, []))
  }

  lemma CallOfExactly(setup: Setup, m: Message, counter: nat, seen: bool)
    requires counter > 0
    ensures CallOf(setup, m, counter, seen).Ok? <==> Readable(setup, m)
    ensures m.role in {Tool, OtherRole} ==> CallOf(setup, m, counter, seen) == Err(ConversionError)
    ensures m.role == Assistant && ParseCall(m.content).None? ==> CallOf(setup, m, counter, seen) == Ok(m)
  {
    hide ParseCall, Complete, Collect, Strip, Before, FixStopword, WithoutExample, SearchResult, CallId;
    if m.role == Assistant && ParseCall(m.content).Some? { CallReadExactly(setup, m, counter, seen); }
  }

  /** A system message is cut before the tool description, wherever that begins. */
  lemma SystemReadExactly(setup: Setup, m: Message, counter: nat, seen: bool, i: int)
    requires counter > 0 && m.role == System
    ensures StandsFirst(m.content, setup.systemSuffix, i) ==>
      CallOf(setup, m, counter, seen) == Ok(Message(System, m.content[..i], None, None, None))
    ensures !Contains(m.content, setup.systemSuffix) ==>
      CallOf(setup, m, counter, seen) == Ok(Message(System, m.content, None, None, None))
  {
    if StandsFirst(m.content, setup.systemSuffix, i) { CutExactly(m.content, setup.systemSuffix, i); }
    hide Before, Contains, StandsFirst, WithoutExample, SearchResult, ParseCall;
    if !Contains(m.content, setup.systemSuffix) { NothingBefore(m.content, setup.systemSuffix); }
  }

  lemma NothingBefore(s: string, p: string)
    requires !Contains(s, p)
    ensures Before(s, p) == s
  {
  }

  /** The example is taken from the front, and what closes it, if the text ends with that, where it first stands. */
  lemma WithoutExampleExactly(setup: Setup, content: string, t: string, i: int)
    requires if setup.example <= content then content == setup.example + t else t == content
    ensures !EndsWith(t, setup.exampleSuffix) ==> WithoutExample(setup, content) == t
    ensures EndsWith(t, setup.exampleSuffix) && StandsFirst(t, setup.exampleSuffix, i) ==>
      WithoutExample(setup, content) == t[..i] + t[i + |setup.exampleSuffix|..]
  {
    if setup.example <= content {
      assert StandsFirst(content, setup.example, 0);
      CutExactly(content, setup.example, 0);
      assert content[..0] + content[|setup.example|..] == t;
    }
    if StandsFirst(t, setup.exampleSuffix, i) { CutExactly(t, setup.exampleSuffix, i); }
    hide RemoveFirst, StandsFirst, EndsWith;
  }

  /** The text holds the result of a tool at `i`, and none before it. */
  predicate ResultAt(s: string, i: nat, name: string, result: string) {
    && i <= |s| && s[i..] == "EXECUTION RESULT of [" + name + "]:\n" + result && !Contains(name, "]:\n")
    && forall j: nat | j < i :: NoResult(s[j..])
  }

  predicate NoResult(s: string) {
    !("EXECUTION RESULT of [" <= s) || !Contains(s[|"EXECUTION RESULT of ["|..], "]:\n")
  }

  lemma {:induction false} ResultFound(s: string, i: nat, name: string, result: string)
    requires ResultAt(s, i, name, result)
    ensures SearchResult(s) == Some((name, result))
    decreases i
  {
    assert s[0..] == s;
    if i == 0 {
      var t := s[|RESULT_OPEN|..];
      assert s == RESULT_OPEN + (name + RESULT_CLOSE + result) && t == name + RESULT_CLOSE + result;
      CutAt(name, RESULT_CLOSE, result);
      hide Cut, Contains;
    } else {
      assert NoResult(s[0..]);
      assert s[1..][i - 1..] == s[i..];
      assert forall j: nat | j < i - 1 :: s[1..][j..] == s[j + 1..];
      hide NoResult, Contains;
      ResultFound(s[1..], i - 1, name, result);
    }
  }

  lemma {:induction false} NoResultFound(s: string)
    requires forall j: nat | j <= |s| :: NoResult(s[j..])
    ensures SearchResult(s) == None
  {
    assert s[0..] == s && NoResult(s[0..]);
    if s != "" {
      assert forall j: nat | j <= |s| - 1 :: s[1..][j..] == s[j + 1..];
      NoResultFound(s[1..]);
    }
  }

  /** A user message that holds a tool result comes back as a tool message with the id of the latest call, any
      other as it is; only the first user message is freed from the example. */
  lemma UserReadExactly(setup: Setup, m: Message, counter: nat, seen: bool, i: nat, name: string, result: string)
    requires counter > 0 && m.role == User
    ensures var c := if seen then m.content else WithoutExample(setup, m.content);
      && (ResultAt(c, i, name, result) ==>
            CallOf(setup, m, counter, seen) == Ok(Message(Tool, Strip(result), None, Some(CallId(counter - 1)), Some(name))))
      && ((forall j: nat | j <= |c| :: NoResult(c[j..])) ==>
            CallOf(setup, m, counter, seen) == Ok(Message(User, c, None, None, None)))
  {
    var c := if seen then m.content else WithoutExample(setup, m.content);
    if ResultAt(c, i, name, result) { ResultFound(c, i, name, result); }
    if forall j: nat | j <= |c| :: NoResult(c[j..]) { NoResultFound(c); }
    hide ResultAt, NoResult, WithoutExample, SearchResult, Strip, CallId, ParseCall;
  }

  /** A text conversation is read back exactly if each of its messages can be. */
  lemma {:induction false} ToCallsExactly(setup: Setup, msgs: seq<Message>, counter: nat, seen: bool)
    requires counter > 0
    ensures ToCalls(setup, msgs, counter, seen).Ok? <==> forall i | 0 <= i < |msgs| :: Readable(setup, msgs[i])
  {
    if msgs != [] {
      hide Readable, CallOf;
      CallOfExactly(setup, msgs[0], counter, seen);
      ToCallsExactly(setup, msgs[1..], NextCounter(msgs[0], counter), seen || msgs[0].role == User);
      if Readable(setup, msgs[0]) && forall i | 0 <= i < |msgs[1..]| :: Readable(setup, msgs[1..][i]) {
        forall i | 0 <= i < |msgs| ensures Readable(setup, msgs[i]) {
          if i > 0 { assert msgs[i] == msgs[1..][i - 1]; }
        }
      }
    }
  }

  const BASH := ToolSpec("execute_bash", map["command" := Property(OtherType, None)], {"command"})

  /** A call of a tool without the parameter it requires is refused. */
  lemma MissingParameterIsRefused(setup: Setup, m: Message, counter: nat, seen: bool)
    requires counter > 0 && m.role == Assistant && ParseCall(m.content) == Some(("execute_bash", []))
    requires FindTool(setup.tools, "execute_bash") == Some(BASH)
    ensures CallOf(setup, m, counter, seen).Err?
  {
    hide ParseCall;
    CallReadExactly(setup, m, counter, seen);
    assert "command" in BASH.required && "command" !in Keys([]) && !Named([], "command");
  }

  /** The ids given out are numbered, with at least two digits. */
  lemma CallIdExactly(counter: nat)
    ensures CallId(counter) == "toolu_" + (if counter < 10 then "0" else "") + PrintNat(counter)
  {
    PaddedExactly(counter);
    hide Pad2, PrintNat;
    assert "toolu_" + "" + PrintNat(counter) == "toolu_" + PrintNat(counter);
    assert "toolu_" + ("0" + PrintNat(counter)) == "toolu_" + "0" + PrintNat(counter);
  }

  /** The arguments are in the order in which their names are first given. */
  lemma {:induction false} AssignExactly(args: Arguments, k: string, v: Value, i: nat)
    requires forall a, b | 0 <= a < b < |args| :: args[a].0 != args[b].0
    ensures (forall j | 0 <= j < |args| :: args[j].0 != k) ==> Assign(args, k, v) == args + [(k, v)]
    ensures i < |args| && args[i].0 == k ==> Assign(args, k, v) == args[i := (k, v)]
  {
    if args != [] {
      assert args == [args[0]] + args[1..];
      if args[0].0 == k {
        assert [(k, v)] + args[1..] == args[0 := (k, v)];
      } else {
        AssignExactly(args[1..], k, v, if i == 0 then 0 else i - 1);
        if 0 < i < |args| && args[i].0 == k {
          assert [args[0]] + args[1..][i - 1 := (k, v)] == args[i := (k, v)];
        }
      }
    }
  }
}
