/**
  The far end of /chat/stream: a client that reads the bytes as an event stream and the data of each
  event as JSON is told what was pushed into the queue, in that order.
*/
module ChatClient {
  import opened Wrappers
  import opened Json
  import opened JsonReader
  import opened Sse
  import opened ToolEvents
  import opened ChatStream

  // ---------------------------------------------------------------- frames keep to their lines

  lemma NamesAreClean()
    ensures OneLine(Ascii("token")) && OneLine(Ascii("done")) && OneLine(Ascii("error"))
    ensures OneLine(Ascii("{}"))
  {
  }

  lemma DumpsIsClean(event: Option<Text>, v: Value)
    requires event.Some? ==> OneLine(event.value) && event.value != []
    ensures Clean(Frame(event, Dumps(v, true)))
  {
    DumpsNoControls(v, true);
  }

  lemma RenderIsClean(agent: Text, item: Item)
    ensures forall f :: f in Render(agent, item) ==> Clean(f)
  {
    NamesAreClean();
    match item
    case TextDelta(text) =>
      DumpsIsClean(Some(Ascii("token")), TokenValue(agent, text));
    case Tool(event) =>
      var message := SerializeEvent(event);
      if message.Success? {
        DumpsIsClean(None, ToolValue(event.name, message.value));
      }
    case _ =>
  }

  lemma {:induction false} ImageIsClean(agent: Text, items: seq<Item>)
    ensures forall f :: f in Image(agent, items) ==> Clean(f)
  {
    if items != [] {
      ImageIsClean(agent, items[..|items| - 1]);
      RenderIsClean(agent, items[|items| - 1]);
    }
  }

  lemma TerminalsAreClean(message: Text)
    ensures Clean(DoneFrame()) && Clean(ErrorFrame(message))
  {
    NamesAreClean();
    DumpsIsClean(Some(Ascii("error")), ErrorValue(message));
  }

  lemma LastIsClean(item: Item, last: Frame, turns: seq<Text>)
    requires EndsWith(item, last, turns)
    ensures Clean(last)
  {
    TerminalsAreClean([]);
    if last != DoneFrame() {
      assert exists message :: last == ErrorFrame(message);
      var message :| last == ErrorFrame(message);
      TerminalsAreClean(message);
    }
  }

  lemma FramesAreClean(agent: Text, items: seq<Item>, last: Frame)
    requires Clean(last)
    ensures forall f :: f in Image(agent, items) + [last] ==> Clean(f)
  {
    ImageIsClean(agent, items);
  }

  lemma SentIsClean(s: Stream)
    requires s.Valid()
    ensures forall f :: f in s.sent ==> Clean(f)
  {
    var items := UpToStop(s.Pushed());
    StreamIsOrdered(s);
    if s.phase == Closed {
      var last := s.sent[|s.sent| - 1];
      LastIsClean(s.Pushed()[|items|], last, s.turns);
      FramesAreClean(s.agent, items, last);
      assert s.sent == Image(s.agent, items) + [last];
    } else {
      ImageIsClean(s.agent, items);
    }
  }

  /** The bytes on the wire, parsed as an event stream, give back exactly the events sent, at every moment. */
  lemma ClientReadsWhatWasSent(s: Stream)
    requires s.Valid()
    ensures ReadStream(PrintAll(s.sent)) == AllSent(s.sent)
  {
    SentIsClean(s);
    StreamRoundTrip(s.sent);
  }

  // ---------------------------------------------------------------- what the client is told

  // An event as the client's code sees it; data that is no JSON reads as None.
  datatype Notice = Notice(kind: Text, value: Option<Value>)

  function Decoded(messages: seq<Message>): seq<Notice>
  {
    seq(|messages|, i requires 0 <= i < |messages| => Notice(messages[i].kind, Parse(messages[i].data)))
  }

  /** A value after the journey: itself, if it is finite and holds no split pair. */
  function Seen(v: Value): (r: Option<Value>)
    ensures r == Some(v) <==> Finite(v) && Unsplit(v)
  {
    PairedValueIs(v);
    if Finite(v) then Some(PairedValue(v)) else None
  }

  function Told(agent: Text, item: Item): seq<Notice>
  {
    match item
    case TextDelta(text) => [Notice(Ascii("token"), Seen(TokenValue(agent, text)))]
    case Tool(event) =>
      (match SerializeEvent(event)
       case Success(message) => [Notice(Ascii("message"), Seen(ToolValue(event.name, message)))]
       case Failure(_) => [])
    case _ => []
  }

  function ToldAll(agent: Text, items: seq<Item>): seq<Notice>
  {
    if items == [] then [] else ToldAll(agent, items[..|items| - 1]) + Told(agent, items[|items| - 1])
  }

  lemma ValueIsSeen(kind: Option<Text>, v: Value)
    ensures Decoded(AllSent([Frame(kind, Dumps(v, true))])) ==
      [Notice(if kind.Some? then kind.value else Ascii("message"), Seen(v))]
  {
    ParseDumps(v, true);
  }

  lemma RenderIsTold(agent: Text, item: Item)
    ensures Decoded(AllSent(Render(agent, item))) == Told(agent, item)
  {
    match item
    case TextDelta(text) => ValueIsSeen(Some(Ascii("token")), TokenValue(agent, text));
    case Tool(event) =>
      var message := SerializeEvent(event);
      if message.Success? {
        ValueIsSeen(None, ToolValue(event.name, message.value));
      }
    case _ =>
  }

  lemma DecodedAppend(a: seq<Frame>, b: seq<Frame>)
    ensures Decoded(AllSent(a + b)) == Decoded(AllSent(a)) + Decoded(AllSent(b))
  {
  }

  lemma {:induction false} ImageIsTold(agent: Text, items: seq<Item>)
    ensures Decoded(AllSent(Image(agent, items))) == ToldAll(agent, items)
  {
    if items != [] {
      var front, last := items[..|items| - 1], items[|items| - 1];
      ImageIsTold(agent, front);
      RenderIsTold(agent, last);
      DecodedAppend(Image(agent, front), Render(agent, last));
    }
  }

  // ---------------------------------------------------------------- what the notices say

  /** The member with this name is this text. A split pair in it has become one character. */
  ghost predicate Says(v: Value, name: string, text: Text)
  {
    Lookup(v, name) == Some(Str(Paired(text)))
  }

  /** For text without split pairs, the very text. */
  lemma SaysExactly(v: Value, name: string, text: Text)
    requires Says(v, name, text)
    ensures Lookup(v, name) == Some(Str(text)) <==> !HasSplitPair(text)
  {
    PairedIs(text);
  }

  ghost predicate TellsToken(n: Notice, agent: Text, text: Text)
  {
    && n.kind == Ascii("token") && n.value.Some?
    && Says(n.value.value, "node", agent)
    && Lookup(n.value.value, "path") == Some(Arr([]))
    && Says(n.value.value, "delta", text)
  }

  /** An event of the tool `name`, whose message is `m`. */
  ghost predicate TellsMessage(n: Notice, name: Text, m: Value)
  {
    && n.kind == Ascii("message") && n.value.Some?
    && Says(n.value.value, "node", name)
    && Lookup(n.value.value, "path") == Some(Arr([]))
    && Lookup(n.value.value, "message") == Some(m)
  }

  ghost predicate IsCall(m: Value, name: Text, args: Value)
  {
    && Lookup(m, "kind") == Some(Str(Ascii("AIMessage"))) && Lookup(m, "content") == Some(Str([]))
    && Lookup(m, "tool_calls").Some? && Lookup(m, "tool_calls").value.Arr?
    && var calls := Lookup(m, "tool_calls").value.items;
       && |calls| == 1 && Says(calls[0], "name", name)
       && Lookup(calls[0], "args") == Some(PairedValue(args)) && Lookup(calls[0], "id") == Some(Null)
  }

  ghost predicate IsReply(m: Value, name: Text, content: Text)
  {
    && Lookup(m, "kind") == Some(Str(Ascii("ToolMessage"))) && Says(m, "name", name)
    && Says(m, "content", content) && Lookup(m, "tool_call_id") == Some(Null)
  }

  /** The text of a result reads back as the result, where JSON has numbers for its floats. */
  ghost predicate IsResult(m: Value, name: Text, result: Value)
  {
    && Lookup(m, "content").Some? && Lookup(m, "content").value.Str?
    && IsReply(m, name, Lookup(m, "content").value.text)
    && Parse(Lookup(m, "content").value.text) == Seen(result)
  }

  /** A call, result or error of a tool under its name; a call whose arguments hold a float without JSON is no JSON. */
  ghost predicate TellsTool(n: Notice, event: ToolEvent)
  {
    match event
    case ToolCall(name, args) =>
      && args.Dumpable?
      && if Finite(args.value) then exists m :: TellsMessage(n, name, m) && IsCall(m, name, args.value)
         else n == Notice(Ascii("message"), None)
    case ToolResult(name, result) =>
      result.Dumpable? && exists m :: TellsMessage(n, name, m) && IsResult(m, name, result.value)
    case ToolError(name, error) => exists m :: TellsMessage(n, name, m) && IsReply(m, name, error)
  }

  ghost predicate Tells(n: Notice, agent: Text, item: Item)
  {
    match item
    case TextDelta(text) => TellsToken(n, agent, text)
    case Tool(event) => TellsTool(n, event)
    case _ => false
  }

  /** The members of an object of three, after the journey. */
  lemma ThreeMembers(a: string, x: Value, b: string, y: Value, c: string, z: Value)
    requires a != b && a != c && b != c
    ensures var v := PairedValue(Obj([Member(Ascii(a), x), Member(Ascii(b), y), Member(Ascii(c), z)]));
      && Lookup(v, a) == Some(PairedValue(x))
      && Lookup(v, b) == Some(PairedValue(y))
      && Lookup(v, c) == Some(PairedValue(z))
  {
    var members := [Member(Ascii(a), x), Member(Ascii(b), y), Member(Ascii(c), z)];
    var names := [a, b, c];
    MemberComesBack(members, names, 0);
    MemberComesBack(members, names, 1);
    MemberComesBack(members, names, 2);
  }

  lemma FourMembers(a: string, x: Value, b: string, y: Value, c: string, z: Value, d: string, u: Value)
    requires a != b && a != c && b != c && a != d && b != d && c != d
    ensures var members := [Member(Ascii(a), x), Member(Ascii(b), y), Member(Ascii(c), z), Member(Ascii(d), u)];
      var v := PairedValue(Obj(members));
      && Lookup(v, a) == Some(PairedValue(x))
      && Lookup(v, b) == Some(PairedValue(y))
      && Lookup(v, c) == Some(PairedValue(z))
      && Lookup(v, d) == Some(PairedValue(u))
  {
    var first := Member(Ascii(a), x);
    var behind := [Member(Ascii(b), y), Member(Ascii(c), z), Member(Ascii(d), u)];
    assert [first, behind[0], behind[1], behind[2]] == [first] + behind;
    ThreeMembers(b, y, c, z, d, u);
    OneMoreMember(a, x, behind, a);
    OneMoreMember(a, x, behind, b);
    OneMoreMember(a, x, behind, c);
    OneMoreMember(a, x, behind, d);
  }

  lemma ConstantComesBack(s: string)
    ensures PairedValue(Str(Ascii(s))) == Str(Ascii(s))
  {
    AsciiIsUnsplit(s);
    PairedIs(Ascii(s));
  }

  lemma TokenFields(agent: Text, text: Text)
    ensures var v := PairedValue(TokenValue(agent, text));
      Says(v, "node", agent) && Lookup(v, "path") == Some(Arr([])) && Says(v, "delta", text)
  {
    assert "node"[0] != "path"[0];
    ThreeMembers("node", Str(agent), "path", Arr([]), "delta", Str(text));
  }

  lemma ToolFields(name: Text, message: Value)
    ensures var v := PairedValue(ToolValue(name, message));
      Says(v, "node", name) && Lookup(v, "path") == Some(Arr([])) && Lookup(v, "message") == Some(PairedValue(message))
  {
    assert "node"[0] != "path"[0];
    ThreeMembers("node", Str(name), "path", Arr([]), "message", message);
  }

  lemma ReplyFields(name: Text, content: Text)
    ensures IsReply(PairedValue(ToolMessage(name, content)), name, content)
  {
    assert "kind"[0] != "name"[0];
    ConstantComesBack("ToolMessage");
    FourMembers("kind", Str(Ascii("ToolMessage")), "content", Str(content), "name", Str(name), "tool_call_id", Null);
  }

  function CallValue(name: Text, args: Value): Value
  {
    Obj([Member(Ascii("name"), Str(name)), Member(Ascii("args"), args), Member(Ascii("id"), Null)])
  }

  lemma CallFields(name: Text, args: Value)
    ensures var call := PairedValue(CallValue(name, args));
      Says(call, "name", name) && Lookup(call, "args") == Some(PairedValue(args)) && Lookup(call, "id") == Some(Null)
  {
    assert "name"[0] != "args"[0];
    ThreeMembers("name", Str(name), "args", args, "id", Null);
  }

  lemma CallMessageFields(name: Text, args: Value)
    ensures IsCall(PairedValue(SerializeEvent(ToolCall(name, Dumpable(args))).value), name, args)
  {
    var call := CallValue(name, args);
    ConstantComesBack("AIMessage");
    ThreeMembers("kind", Str(Ascii("AIMessage")), "content", Str([]), "tool_calls", Arr([call]));
    OneItem(call);
    CallFields(name, args);
  }

  lemma OneItem(v: Value)
    ensures PairedValue(Arr([v])) == Arr([PairedValue(v)]) && (Finite(Arr([v])) <==> Finite(v))
  {
    assert [v][1..] == [];
    assert PairedItems([v]) == [PairedValue(v)] + PairedItems([]);
    assert FiniteItems([]);
    assert FiniteItems([v]) <==> Finite(v);
  }

  lemma ErrorFields(message: Text)
    ensures Says(PairedValue(ErrorValue(message)), "error", message) && Finite(ErrorValue(message))
  {
    var members, names := ErrorValue(message).members, ["error"];
    MemberComesBack(members, names, 0);
    MembersAre(members);
  }

  // Which values have floats without JSON.

  lemma TokenIsFinite(agent: Text, text: Text)
    ensures Finite(TokenValue(agent, text))
  {
    MembersAre(TokenValue(agent, text).members);
  }

  lemma ToolIsFinite(name: Text, message: Value)
    ensures Finite(ToolValue(name, message)) <==> Finite(message)
  {
    var members := ToolValue(name, message).members;
    MembersAre(members);
    assert members[2].value == message;
  }

  lemma ReplyIsFinite(name: Text, content: Text)
    ensures Finite(ToolMessage(name, content))
  {
    MembersAre(ToolMessage(name, content).members);
  }

  lemma CallIsFinite(name: Text, args: Value)
    ensures Finite(SerializeEvent(ToolCall(name, Dumpable(args))).value) <==> Finite(args)
  {
    var call := CallValue(name, args);
    var members := SerializeEvent(ToolCall(name, Dumpable(args))).value.members;
    MembersAre(members);
    MembersAre(call.members);
    OneItem(call);
    assert members[2].value == Arr([call]);
    assert call.members[1].value == args;
  }

  // ---------------------------------------------------------------- every notice tells its item

  lemma MessageIsTold(name: Text, message: Value)
    requires Finite(message)
    ensures TellsMessage(Notice(Ascii("message"), Seen(ToolValue(name, message))), name, PairedValue(message))
  {
    ToolIsFinite(name, message);
    ToolFields(name, message);
  }

  lemma ResultIsTold(name: Text, result: Value)
    ensures var m := PairedValue(ToolMessage(name, Dumps(result, true)));
      IsResult(m, name, result)
  {
    var content := Dumps(result, true);
    DumpsIsPrinted(result, true);
    PairedIs(content);
    ReplyFields(name, content);
    ParseDumps(result, true);
  }

  lemma CallIsTold(name: Text, args: Value)
    ensures var event := ToolCall(name, Dumpable(args));
      TellsTool(Notice(Ascii("message"), Seen(ToolValue(name, SerializeEvent(event).value))), event)
  {
    var message := SerializeEvent(ToolCall(name, Dumpable(args))).value;
    CallIsFinite(name, args);
    ToolIsFinite(name, message);
    if Finite(args) {
      MessageIsTold(name, message);
      CallMessageFields(name, args);
    }
  }

  lemma OutcomeIsTold(name: Text, result: Value)
    ensures var event := ToolResult(name, Dumpable(result));
      TellsTool(Notice(Ascii("message"), Seen(ToolValue(name, ToolMessage(name, Dumps(result, true))))), event)
  {
    var message := ToolMessage(name, Dumps(result, true));
    ReplyIsFinite(name, Dumps(result, true));
    MessageIsTold(name, message);
    ResultIsTold(name, result);
  }

  lemma ToolErrorIsTold(name: Text, error: Text)
    ensures TellsTool(Notice(Ascii("message"), Seen(ToolValue(name, ToolMessage(name, error)))), ToolError(name, error))
  {
    var message := ToolMessage(name, error);
    ReplyIsFinite(name, error);
    MessageIsTold(name, message);
    ReplyFields(name, error);
  }

  lemma ToolIsTold(agent: Text, event: ToolEvent)
    requires SerializeEvent(event).Success?
    ensures |Told(agent, Tool(event))| == 1 && TellsTool(Told(agent, Tool(event))[0], event)
  {
    match event
    case ToolCall(name, args) => CallIsTold(name, args.value);
    case ToolResult(name, result) => OutcomeIsTold(name, result.value);
    case ToolError(name, error) => ToolErrorIsTold(name, error);
  }

  lemma ItemIsTold(agent: Text, item: Item)
    requires !Stops(item) && !item.Unknown?
    ensures |Told(agent, item)| == 1 && Tells(Told(agent, item)[0], agent, item)
  {
    match item
    case TextDelta(text) =>
      TokenIsFinite(agent, text);
      TokenFields(agent, text);
    case Tool(event) => ToolIsTold(agent, event);
  }

  /** The items that a client hears of: an event of unknown type is passed over. */
  function Known(items: seq<Item>): seq<Item>
  {
    if items == [] then []
    else Known(items[..|items| - 1]) + (if items[|items| - 1].Unknown? then [] else [items[|items| - 1]])
  }

  ghost predicate TellAll(notices: seq<Notice>, agent: Text, items: seq<Item>)
  {
    |notices| == |items| && forall i :: 0 <= i < |items| ==> Tells(notices[i], agent, items[i])
  }

  lemma {:induction false} AllAreTold(agent: Text, items: seq<Item>)
    requires NoStop(items)
    ensures TellAll(ToldAll(agent, items), agent, Known(items))
  {
    if items != [] {
      var front, last := items[..|items| - 1], items[|items| - 1];
      AllAreTold(agent, front);
      assert !Stops(last);
      if !last.Unknown? {
        ItemIsTold(agent, last);
      }
    }
  }

  /** The texts of the answer, as pushed, and as the client puts them together. */
  function Texts(items: seq<Item>): seq<Text>
  {
    if items == [] then []
    else
      var last := items[|items| - 1];
      Texts(items[..|items| - 1]) + (if last.TextDelta? then [last.text] else [])
  }

  function Deltas(notices: seq<Notice>): seq<Text>
  {
    if notices == [] then []
    else
      var last := notices[|notices| - 1];
      var delta := if last.value.Some? then Lookup(last.value.value, "delta") else None;
      Deltas(notices[..|notices| - 1]) +
      (if last.kind == Ascii("token") && delta.Some? && delta.value.Str? then [delta.value.text] else [])
  }

  /** The client's answer is the agent's: the same texts in the same order, where they hold no split pair. */
  lemma {:induction false} DeltasAreTexts(notices: seq<Notice>, agent: Text, items: seq<Item>)
    requires TellAll(notices, agent, items)
    requires forall i :: 0 <= i < |items| && items[i].TextDelta? ==> !HasSplitPair(items[i].text)
    ensures Deltas(notices) == Texts(items)
  {
    if items != [] {
      var n := |items| - 1;
      DeltasAreTexts(notices[..n], agent, items[..n]);
      assert Tells(notices[n], agent, items[n]);
      if items[n].TextDelta? {
        SaysExactly(notices[n].value.value, "delta", items[n].text);
      } else {
        AsciiInjective("token", "message");
      }
    }
  }

  lemma {:induction false} TextsOfKnown(items: seq<Item>)
    ensures Texts(Known(items)) == Texts(items)
  {
    if items != [] {
      var front, last := items[..|items| - 1], items[|items| - 1];
      TextsOfKnown(front);
      if last.Unknown? {
        assert Known(items) == Known(front);
      } else {
        assert Known(items)[..|Known(front)|] == Known(front);
      }
    }
  }

  // ---------------------------------------------------------------- how it ended

  lemma DoneIsEmpty()
    ensures DoneFrame().data == Dumps(Obj([]), true)
  {
  }

  ghost predicate TellsError(n: Notice, message: Text)
  {
    n.kind == Ascii("error") && n.value.Some? && Says(n.value.value, "error", message)
  }

  /**
    What ends a stream that stopped at `item`: `done` after a Finished event, unless recording its answer
    failed, else `error` with the message of what went wrong.
  */
  ghost predicate EndNotice(item: Item, last: Notice)
  {
    match item
    case Fault(message) => TellsError(last, message)
    case Tool(ToolCall(_, Undumpable(error))) => TellsError(last, error)
    case Tool(ToolResult(_, Undumpable(error))) => TellsError(last, error)
    case Finished(answered, _) =>
      last == Notice(Ascii("done"), Some(Obj([]))) || (answered && exists message :: TellsError(last, message))
    case _ => false
  }

  lemma ErrorIsTold(message: Text)
    ensures var notices := Decoded(AllSent([ErrorFrame(message)]));
      |notices| == 1 && TellsError(notices[0], message)
  {
    ValueIsSeen(Some(Ascii("error")), ErrorValue(message));
    ErrorFields(message);
  }

  lemma EndIsTold(item: Item, last: Frame, turns: seq<Text>)
    requires EndsWith(item, last, turns)
    ensures |Decoded(AllSent([last]))| == 1 && EndNotice(item, Decoded(AllSent([last]))[0])
  {
    if item.Finished? && last == DoneFrame() {
      DoneIsEmpty();
      ValueIsSeen(Some(Ascii("done")), Obj([]));
    } else if item.Finished? {
      var message :| last == ErrorFrame(message);
      ErrorIsTold(message);
    } else {
      ErrorIsTold(if item.Fault? then item.message else SerializeEvent(item.event).error);
    }
  }

  /** One notice that tells each item up to the stop, and one on how it ended. */
  ghost predicate ToldInFull(agent: Text, pushed: seq<Item>, notices: seq<Notice>)
  {
    var items := UpToStop(pushed);
    && |items| < |pushed|
    && notices != []
    && TellAll(notices[..|notices| - 1], agent, Known(items))
    && EndNotice(pushed[|items|], notices[|notices| - 1])
  }

  lemma EndedIsTold(agent: Text, pushed: seq<Item>, last: Frame, turns: seq<Text>)
    requires |UpToStop(pushed)| < |pushed| && EndsWith(pushed[|UpToStop(pushed)|], last, turns)
    ensures ToldInFull(agent, pushed, Decoded(AllSent(Image(agent, UpToStop(pushed)) + [last])))
  {
    var items := UpToStop(pushed);
    DecodedAppend(Image(agent, items), [last]);
    ImageIsTold(agent, items);
    UpToStopHasNone(pushed);
    AllAreTold(agent, items);
    EndIsTold(pushed[|items|], last, turns);
  }

  lemma {:induction false} UpToStopHasNone(items: seq<Item>)
    ensures NoStop(UpToStop(items))
  {
    if items != [] && !Stops(items[0]) { UpToStopHasNone(items[1..]); }
  }

  lemma LastSent(s: Stream) returns (last: Frame)
    requires s.Valid() && s.phase == Closed
    ensures s.sent == Image(s.agent, UpToStop(s.Pushed())) + [last]
    ensures |UpToStop(s.Pushed())| < |s.Pushed()| && EndsWith(s.Pushed()[|UpToStop(s.Pushed())|], last, s.turns)
  {
    StreamIsOrdered(s);
    last := s.sent[|s.sent| - 1];
    assert s.sent == s.sent[..|s.sent| - 1] + [last];
  }

  /** From queue to client: once the generator has ended, parsing the bytes on the wire tells everything. */
  lemma ClientIsToldEverything(s: Stream)
    requires s.Valid() && s.phase == Closed
    ensures ToldInFull(s.agent, s.Pushed(), Decoded(ReadStream(PrintAll(s.sent))))
  {
    var last := LastSent(s);
    EndedIsTold(s.agent, s.Pushed(), last, s.turns);
    ClientReadsWhatWasSent(s);
  }

  /** The texts the client puts together are those the agent sent before the stop, in order. */
  lemma ClientReadsTheAnswer(s: Stream)
    requires s.Valid() && s.phase == Closed
    requires forall i :: 0 <= i < |s.Pushed()| && s.Pushed()[i].TextDelta? ==> !HasSplitPair(s.Pushed()[i].text)
    ensures var notices := Decoded(ReadStream(PrintAll(s.sent)));
      notices != [] && Deltas(notices[..|notices| - 1]) == Texts(UpToStop(s.Pushed()))
  {
    ClientIsToldEverything(s);
    ToldTheTexts(s.agent, s.Pushed(), Decoded(ReadStream(PrintAll(s.sent))));
  }

  lemma ToldTheTexts(agent: Text, pushed: seq<Item>, notices: seq<Notice>)
    requires ToldInFull(agent, pushed, notices)
    requires forall i :: 0 <= i < |pushed| && pushed[i].TextDelta? ==> !HasSplitPair(pushed[i].text)
    ensures Deltas(notices[..|notices| - 1]) == Texts(UpToStop(pushed))
  {
    var items := UpToStop(pushed);
    UpToStopIsPrefix(pushed);
    KnownAreItems(items);
    forall i | 0 <= i < |Known(items)| && Known(items)[i].TextDelta?
      ensures !HasSplitPair(Known(items)[i].text)
    {
      assert Known(items)[i] in items;
    }
    DeltasAreTexts(notices[..|notices| - 1], agent, Known(items));
    TextsOfKnown(items);
  }

  lemma {:induction false} KnownAreItems(items: seq<Item>)
    ensures forall item :: item in Known(items) ==> item in items
  {
    if items != [] { KnownAreItems(items[..|items| - 1]); }
  }

  // ---------------------------------------------------------------- what the client is told about tools

  function ToolEventsOf(items: seq<Item>): seq<ToolEvent>
  {
    if items == [] then [] else (if items[0].Tool? then [items[0].event] else []) + ToolEventsOf(items[1..])
  }

  lemma {:induction false} ToolEventsConcat(a: seq<Item>, b: seq<Item>)
    ensures ToolEventsOf(a + b) == ToolEventsOf(a) + ToolEventsOf(b)
  {
    if a == [] {
      assert a + b == b;
    } else {
      var first := if a[0].Tool? then [a[0].event] else [];
      var rest := a[1..];
      assert (a + b)[0] == a[0] && (a + b)[1..] == rest + b;
      ToolEventsConcat(rest, b);
      assert ToolEventsOf(a + b) == first + ToolEventsOf(rest + b);
      assert ToolEventsOf(a) == first + ToolEventsOf(rest);
    }
  }

  lemma {:induction false} UpToStopIsPrefix(items: seq<Item>)
    ensures UpToStop(items) <= items
  {
    if items != [] && !Stops(items[0]) {
      UpToStopIsPrefix(items[1..]);
    }
  }

  /**
    If the tool events of the stream are those of a toolbox, the client is told about a beginning of
    its log: each call has its start before its one outcome, and no name more outcomes than starts.
  */
  lemma ToldToolsAreBalanced(s: Stream, t: Toolbox, name: Text) returns (n: nat)
    requires t.Valid() && ToolEventsOf(s.Pushed()) == t.queue
    ensures n <= |t.log| && ToolEventsOf(UpToStop(s.Pushed())) == Events(t.log[..n])
    ensures WellFormed(t.log[..n]) && Outcomes(t.log[..n], name) <= Starts(t.log[..n], name)
  {
    n := |ToolEventsOf(UpToStop(s.Pushed()))|;
    ToldToolsAreFirst(s.Pushed());
    EventsPrefix(t.log, n);
    QueueIsBalanced(t, n, name);
  }

  lemma ToldToolsAreFirst(items: seq<Item>)
    ensures ToolEventsOf(UpToStop(items)) <= ToolEventsOf(items)
  {
    var told := UpToStop(items);
    UpToStopIsPrefix(items);
    assert items == told + items[|told|..];
    ToolEventsConcat(told, items[|told|..]);
  }

  lemma EventsPrefix(log: seq<Logged>, n: nat)
    requires n <= |log|
    ensures Events(log[..n]) == Events(log)[..n]
  {
  }
}
