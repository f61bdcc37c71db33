/**
  /chat/stream (src/api/v1/agent/router.py): a driver task and the tool calls push items into one
  queue, a generator takes them out, sends Server-Sent Events and records the turn.

  The methods of `Stream` are the atomic pieces between two awaits of the generator, and the puts of
  everyone else; any sequence of them is an interleaving. The client may disconnect wherever the
  generator is suspended.
*/
module ChatStream {
  import opened Wrappers
  import opened Json
  import opened Sse
  import opened ToolEvents

  // What the queue carries. An event of another type is taken and passed over.
  datatype Item =
    | TextDelta(text: Text)
    | Tool(event: ToolEvent)
    | Fault(message: Text)
    | Finished(answered: bool, output: Text)
    | Unknown

  datatype Phase = Reading | Recording(output: Text) | Completing | Closed | Disconnected

  // ---------------------------------------------------------------- what an item becomes

  /** `serialize_event`, or the text of what json.dumps raises on a tool's result. */
  function SerializeEvent(e: ToolEvent): Result<Value, Text>
  {
    match e
    case ToolCall(name, args) =>
      if args.Undumpable? then Failure(args.error)
      else Success(Obj([
        Member(Ascii("kind"), Str(Ascii("AIMessage"))),
        Member(Ascii("content"), Str([])),
        Member(Ascii("tool_calls"), Arr([Obj([
          Member(Ascii("name"), Str(name)), Member(Ascii("args"), args.value), Member(Ascii("id"), Null)])]))]))
    case ToolResult(name, result) =>
      if result.Undumpable? then Failure(result.error) else Success(ToolMessage(name, Dumps(result.value, true)))
    case ToolError(name, error) => Success(ToolMessage(name, error))
  }

  function ToolMessage(name: Text, content: Text): Value
  {
    Obj([
      Member(Ascii("kind"), Str(Ascii("ToolMessage"))),
      Member(Ascii("content"), Str(content)),
      Member(Ascii("name"), Str(name)),
      Member(Ascii("tool_call_id"), Null)])
  }

  function TokenValue(agent: Text, text: Text): Value
  {
    Obj([Member(Ascii("node"), Str(agent)), Member(Ascii("path"), Arr([])), Member(Ascii("delta"), Str(text))])
  }

  function ToolValue(name: Text, message: Value): Value
  {
    Obj([Member(Ascii("node"), Str(name)), Member(Ascii("path"), Arr([])), Member(Ascii("message"), message)])
  }

  function ErrorValue(message: Text): Value { Obj([Member(Ascii("error"), Str(message))]) }

  function TokenFrame(agent: Text, text: Text): Frame
  {
    Frame(Some(Ascii("token")), Dumps(TokenValue(agent, text), true))
  }

  function ToolFrame(name: Text, message: Value): Frame { Frame(None, Dumps(ToolValue(name, message), true)) }

  function DoneFrame(): Frame { Frame(Some(Ascii("done")), Ascii("{}")) }

  function ErrorFrame(message: Text): Frame { Frame(Some(Ascii("error")), Dumps(ErrorValue(message), true)) }

  /** The items at which the generator stops reading. */
  predicate Stops(item: Item)
  {
    item.Fault? || item.Finished? || (item.Tool? && SerializeEvent(item.event).Failure?)
  }

  /** The frames of one item that does not stop the reading. */
  function Render(agent: Text, item: Item): seq<Frame>
  {
    match item
    case TextDelta(text) => [TokenFrame(agent, text)]
    case Tool(event) =>
      (match SerializeEvent(event) case Success(message) => [ToolFrame(event.name, message)] case Failure(_) => [])
    case _ => []
  }

  /** The frames of a list of items, in their order. */
  function Image(agent: Text, items: seq<Item>): seq<Frame>
  {
    if items == [] then [] else Image(agent, items[..|items| - 1]) + Render(agent, items[|items| - 1])
  }

  /** The items before the first one that stops the reading. */
  function UpToStop(items: seq<Item>): seq<Item>
  {
    if items == [] || Stops(items[0]) then [] else [items[0]] + UpToStop(items[1..])
  }

  ghost predicate NoStop(items: seq<Item>)
  {
    forall i :: 0 <= i < |items| ==> !Stops(items[i])
  }

  /** Reading stops at the first item that stops it, whatever comes behind. */
  lemma {:induction false} UpToStopIs(passed: seq<Item>, stop: Item, rest: seq<Item>)
    requires NoStop(passed) && Stops(stop)
    ensures UpToStop(passed + [stop] + rest) == passed
  {
    var items := passed + [stop] + rest;
    if passed != [] {
      assert items[1..] == passed[1..] + [stop] + rest;
      UpToStopIs(passed[1..], stop, rest);
    }
  }

  lemma {:induction false} UpToStopBegins(passed: seq<Item>, rest: seq<Item>)
    requires NoStop(passed)
    ensures passed <= UpToStop(passed + rest)
  {
    if passed != [] {
      assert (passed + rest)[1..] == passed[1..] + rest;
      UpToStopBegins(passed[1..], rest);
      assert passed == [passed[0]] + passed[1..];
    }
  }

  lemma ImageSnoc(agent: Text, items: seq<Item>, item: Item)
    ensures Image(agent, items + [item]) == Image(agent, items) + Render(agent, item)
  {
    assert (items + [item])[..|items|] == items;
  }

  /** All items there were: those passed, the one that stopped the reading, and those behind. */
  function Items(passed: seq<Item>, stop: Option<Item>, rest: seq<Item>): seq<Item>
  {
    passed + (if stop.Some? then [stop.value] else []) + rest
  }

  lemma TakingKeepsItems(passed: seq<Item>, rest: seq<Item>)
    requires rest != []
    ensures Items(passed, None, rest) == Items(passed + [rest[0]], None, rest[1..])
    ensures Items(passed, None, rest) == Items(passed, Some(rest[0]), rest[1..])
  {
    assert rest == [rest[0]] + rest[1..];
  }

  lemma StopRemains(items: seq<Item>)
    requires items != []
    ensures !NoStop(items) && !Stops(items[0]) ==> !NoStop(items[1..])
  {
    assert NoStop(items[1..]) && !Stops(items[0]) ==> NoStop(items) by {
      assert items == [items[0]] + items[1..];
    }
  }

  /** How a stream ends that stopped at `item`, and the turns recorded by then. */
  ghost predicate EndsWith(item: Item, last: Frame, turns: seq<Text>)
  {
    match item
    case Fault(message) => last == ErrorFrame(message) && turns == []
    case Finished(answered, output) =>
      if answered then
        || (last == DoneFrame() && turns == [output])
        || (turns == [] && exists message :: last == ErrorFrame(message))
      else last == DoneFrame() && turns == []
    case Tool(event) =>
      SerializeEvent(event).Failure? && last == ErrorFrame(SerializeEvent(event).error) && turns == []
    case _ => false
  }

  // ---------------------------------------------------------------- the stream

  class Stream {
    const agent: Text
    var queue: seq<Item>
    var phase: Phase
    var sent: seq<Frame>
    // The replies committed by _record_turn.
    var turns: seq<Text>
    // The items taken before any that stops the reading, and the one that stopped it.
    ghost var passed: seq<Item>
    ghost var stop: Option<Item>

    constructor (agent: Text)
      ensures Valid() && phase == Reading && queue == [] && sent == [] && turns == [] && Pushed() == []
    {
      this.agent := agent;
      queue, phase, sent, turns, passed, stop := [], Reading, [], [], [], None;
    }

    /** Everything ever put into the queue, in order. */
    ghost function Pushed(): seq<Item>
      reads this
    {
      Items(passed, stop, queue)
    }

    ghost predicate Valid()
      reads this
    {
      && NoStop(passed) && (stop.Some? ==> Stops(stop.value))
      && match phase
         case Reading => stop.None? && sent == Image(agent, passed) && turns == []
         case Recording(output) =>
           stop == Some(Finished(true, output)) && sent == Image(agent, passed) && turns == []
         case Completing => Answered() && sent == Image(agent, passed) && turns == [stop.value.output]
         case Closed =>
           && stop.Some? && sent != [] && sent[..|sent| - 1] == Image(agent, passed)
           && EndsWith(stop.value, sent[|sent| - 1], turns)
         case Disconnected =>
           sent == Image(agent, passed) && (turns == [] || (Answered() && turns == [stop.value.output]))
    }

    ghost predicate Answered()
      reads this
    {
      stop.Some? && stop.value.Finished? && stop.value.answered
    }

    /** `queue.put`, by the driver or a tool call. */
    method Put(item: Item)
      requires Valid()
      modifies this`queue
      ensures Valid() && Pushed() == old(Pushed()) + [item]
    {
      queue := queue + [item];
    }

    /** Sends the last frame: the generator is done. */
    method Close(last: Frame)
      requires NoStop(passed) && stop.Some? && Stops(stop.value)
      requires sent == Image(agent, passed) && EndsWith(stop.value, last, turns)
      modifies this`sent, this`phase
      ensures Valid() && phase == Closed && sent == old(sent) + [last]
    {
      sent := sent + [last];
      phase := Closed;
      assert sent[..|sent| - 1] == Image(agent, passed);
    }

    /** Takes an item, sends what it becomes and reads on. */
    method Pass(frames: seq<Frame>)
      requires Valid() && phase == Reading && queue != []
      requires !Stops(queue[0]) && frames == Render(agent, queue[0])
      modifies this`queue, this`sent, this`passed
      ensures Valid() && sent == old(sent) + frames
      ensures Pushed() == old(Pushed()) && queue == old(queue)[1..]
    {
      TakingKeepsItems(passed, queue);
      ImageSnoc(agent, passed, queue[0]);
      sent := sent + frames;
      passed := passed + [queue[0]];
      queue := queue[1..];
    }

    /** Takes an item that stops the reading, and then sends the last frame unless a turn is to be recorded. */
    method Stop(last: Option<Frame>)
      requires Valid() && phase == Reading && queue != [] && Stops(queue[0])
      requires match last
               case Some(frame) => EndsWith(queue[0], frame, [])
               case None => queue[0].Finished? && queue[0].answered
      modifies this`queue, this`sent, this`phase, this`stop
      ensures Valid() && old(sent) <= sent
      ensures if last.Some? then phase == Closed else phase == Recording(old(queue)[0].output)
      ensures Pushed() == old(Pushed()) && queue == old(queue)[1..]
    {
      TakingKeepsItems(passed, queue);
      var item := queue[0];
      stop := Some(item);
      queue := queue[1..];
      if last.Some? {
        Close(last.value);
      } else {
        phase := Recording(item.output);
      }
    }

    /** One turn of the generator's loop on an item of the queue. */
    method Get()
      requires Valid() && phase == Reading && queue != []
      modifies this`queue, this`sent, this`phase, this`passed, this`stop
      ensures Valid() && Pushed() == old(Pushed()) && queue == old(queue)[1..]
      ensures old(sent) <= sent
      ensures phase == Reading <==> !Stops(old(queue)[0])
      ensures phase.Recording? <==> old(queue)[0].Finished? && old(queue)[0].answered
      ensures phase == Reading || phase.Recording? || phase == Closed
    {
      match queue[0] {
        case TextDelta(text) =>
          Pass([TokenFrame(agent, text)]);
        case Tool(event) =>
          var message := SerializeEvent(event);
          if message.Failure? {
            Stop(Some(ErrorFrame(message.error)));
          } else {
            Pass([ToolFrame(event.name, message.value)]);
          }
        case Fault(message) =>
          Stop(Some(ErrorFrame(message)));
        case Finished(answered, _) =>
          Stop(if answered then None else Some(DoneFrame()));
        case Unknown =>
          Pass([]);
      }
    }

    /** `_record_turn`, which may raise; its commit is all or nothing. */
    method RecordTurn(failure: Option<Text>)
      requires Valid() && phase.Recording?
      modifies this`sent, this`phase, this`turns
      ensures Valid()
      ensures failure.None? ==> phase == Completing && turns == [old(phase).output] && sent == old(sent)
      ensures failure.Some? ==> phase == Closed && turns == [] && sent == old(sent) + [ErrorFrame(failure.value)]
    {
      if failure.Some? {
        Close(ErrorFrame(failure.value));
      } else {
        turns := turns + [phase.output];
        phase := Completing;
      }
    }

    method Complete()
      requires Valid() && phase == Completing
      modifies this`sent, this`phase
      ensures Valid() && phase == Closed && sent == old(sent) + [DoneFrame()]
    {
      Close(DoneFrame());
    }

    /** The client goes away: the generator is cancelled where it stands. */
    method Disconnect()
      requires Valid() && phase != Closed
      modifies this`phase
      ensures Valid() && phase == Disconnected && sent == old(sent) && turns == old(turns)
    {
      phase := Disconnected;
    }

    /** The generator's loop: reads until an item stops it. */
    method ReadToStop()
      requires Valid() && phase == Reading && !NoStop(queue)
      modifies this
      ensures Valid() && Pushed() == old(Pushed())
      ensures phase.Recording? || phase == Closed
    {
      while phase == Reading
        invariant Valid() && Pushed() == old(Pushed())
        invariant phase == Reading || phase.Recording? || phase == Closed
        invariant phase == Reading ==> !NoStop(queue)
        decreases |queue|, phase == Reading
      {
        StopRemains(queue);
        Get();
      }
    }

    /**
      The generator in one piece, for a client that stays: given that a Finished event or an
      exception is or will be in the queue, it ends with exactly one terminal frame.
    */
    method EventGenerator(recordFailure: Option<Text>)
      requires Valid() && phase == Reading && !NoStop(queue)
      modifies this
      ensures Valid() && phase == Closed && Pushed() == old(Pushed())
      ensures sent != [] && sent[..|sent| - 1] == Image(agent, UpToStop(Pushed()))
    {
      ReadToStop();
      if phase.Recording? {
        RecordTurn(recordFailure);
        if phase == Completing {
          Complete();
        }
      }
      StreamIsOrdered(this);
    }
  }

  // One step of an interleaving: a put, a piece of the generator, or the client leaving.
  datatype Step = Push(item: Item) | Take | Record(failure: Option<Text>) | Finish | Leave

  /** One step, or nothing if it cannot happen where the stream stands. */
  method Perform(s: Stream, step: Step)
    requires s.Valid()
    modifies s
    ensures s.Valid()
    ensures old(s.sent) <= s.sent && old(s.Pushed()) <= s.Pushed()
    ensures old(s.phase) == Closed || old(s.phase) == Disconnected ==>
      s.phase == old(s.phase) && s.sent == old(s.sent) && s.turns == old(s.turns)
  {
    match step {
      case Push(item) => s.Put(item);
      case Take => if s.phase == Reading && s.queue != [] { s.Get(); }
      case Record(failure) => if s.phase.Recording? { s.RecordTurn(failure); }
      case Finish => if s.phase == Completing { s.Complete(); }
      case Leave => if s.phase != Closed && s.phase != Disconnected { s.Disconnect(); }
    }
  }

  /**
    Any interleaving. What was sent is never taken back, and nothing is sent or recorded once the
    generator has ended.
  */
  method Interleave(s: Stream, steps: seq<Step>)
    requires s.Valid()
    modifies s
    ensures s.Valid()
    ensures old(s.sent) <= s.sent && old(s.Pushed()) <= s.Pushed()
    ensures old(s.phase) == Closed || old(s.phase) == Disconnected ==>
      s.phase == old(s.phase) && s.sent == old(s.sent) && s.turns == old(s.turns)
  {
    for i := 0 to |steps|
      invariant s.Valid()
      invariant old(s.sent) <= s.sent && old(s.Pushed()) <= s.Pushed()
      invariant old(s.phase) == Closed || old(s.phase) == Disconnected ==>
        s.phase == old(s.phase) && s.sent == old(s.sent) && s.turns == old(s.turns)
    {
      Perform(s, steps[i]);
    }
  }

  predicate Terminal(f: Frame)
  {
    f.event == Some(Ascii("done")) || f.event == Some(Ascii("error"))
  }

  lemma {:induction false} ImageHasNoTerminal(agent: Text, items: seq<Item>)
    ensures forall f :: f in Image(agent, items) ==> !Terminal(f)
  {
    assert |Ascii("token")| == |Ascii("error")| == 5 && |Ascii("done")| == 4;
    assert Ascii("token")[0] == 't' as int && Ascii("error")[0] == 'e' as int;
    if items != [] {
      ImageHasNoTerminal(agent, items[..|items| - 1]);
    }
  }

  lemma ImageOfPassed(agent: Text, passed: seq<Item>, rest: seq<Item>)
    requires NoStop(passed)
    ensures Image(agent, passed) <= Image(agent, UpToStop(Items(passed, None, rest)))
  {
    assert Items(passed, None, rest) == passed + rest;
    UpToStopBegins(passed, rest);
    var items := UpToStop(passed + rest);
    ImageMonotonic(agent, items, |passed|);
    assert items[..|passed|] == passed;
  }

  /**
    Whatever was interleaved: a stream that ended by itself has sent the image of the queue up to the
    first item that stops it and then one terminal frame; a turn is recorded at most once, and `done`
    after an answer means it was. A stream not ended, or cut short, has sent a part of that image.
  */
  lemma StreamIsOrdered(s: Stream)
    requires s.Valid()
    ensures |s.turns| <= 1
    ensures s.phase == Closed ==>
      && s.sent != []
      && s.sent[..|s.sent| - 1] == Image(s.agent, UpToStop(s.Pushed()))
      && |UpToStop(s.Pushed())| < |s.Pushed()|
      && EndsWith(s.Pushed()[|UpToStop(s.Pushed())|], s.sent[|s.sent| - 1], s.turns)
    ensures s.phase != Closed ==> s.sent <= Image(s.agent, UpToStop(s.Pushed()))
  {
    if s.stop.Some? {
      UpToStopIs(s.passed, s.stop.value, s.queue);
    } else {
      ImageOfPassed(s.agent, s.passed, s.queue);
    }
  }

  /** At every moment, also after a disconnect: a turn recorded is the answer that first stopped the reading. */
  lemma TurnIsTheAnswer(s: Stream)
    requires s.Valid()
    ensures s.turns != [] ==>
      && |UpToStop(s.Pushed())| < |s.Pushed()|
      && var stop := s.Pushed()[|UpToStop(s.Pushed())|];
         stop.Finished? && stop.answered && s.turns == [stop.output]
  {
    if s.turns != [] {
      UpToStopIs(s.passed, s.stop.value, s.queue);
    }
  }

  /** Exactly one terminal frame if the generator ended by itself, as the last one; none otherwise. */
  lemma OneTerminalFrame(s: Stream)
    requires s.Valid()
    ensures forall i :: 0 <= i < |s.sent| ==> (Terminal(s.sent[i]) <==> s.phase == Closed && i == |s.sent| - 1)
  {
    StreamIsOrdered(s);
    var image := Image(s.agent, UpToStop(s.Pushed()));
    ImageHasNoTerminal(s.agent, UpToStop(s.Pushed()));
    forall i | 0 <= i < |s.sent|
      ensures Terminal(s.sent[i]) <==> s.phase == Closed && i == |s.sent| - 1
    {
      if s.phase != Closed || i < |s.sent| - 1 {
        assert s.sent[i] == image[i];
      }
    }
  }

  lemma {:induction false} ImageMonotonic(agent: Text, items: seq<Item>, n: nat)
    requires n <= |items|
    ensures Image(agent, items[..n]) <= Image(agent, items)
  {
    if n < |items| {
      var front := items[..|items| - 1];
      assert front[..n] == items[..n];
      ImageMonotonic(agent, front, n);
    } else {
      assert items[..n] == items;
    }
  }
}
