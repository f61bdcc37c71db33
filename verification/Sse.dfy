/**
  Server-Sent Events: the frames /chat/stream prints, and a client that reads an event stream as the
  HTML Standard says (section 9.2.6, "Interpreting an event stream").
*/
module Sse {
  import opened Wrappers
  import opened Json

  // One frame: an optional event name and one data line.
  datatype Frame = Frame(event: Option<Text>, data: Text)

  // What a client dispatches.
  datatype Message = Message(kind: Text, data: Text)

  const LF: CodePoint := 10
  const CR: CodePoint := 13
  const COLON: CodePoint := 58
  const SPACE: CodePoint := 32
  const BOM: CodePoint := 0xFEFF

  // ---------------------------------------------------------------- printing

  function Field(name: string, value: Text): Text
  {
    Ascii(name) + [COLON, SPACE] + value + [LF]
  }

  function PrintFrame(f: Frame): Text
  {
    (if f.event.Some? then Field("event", f.event.value) else []) + Field("data", f.data) + [LF]
  }

  function PrintAll(frames: seq<Frame>): Text
  {
    if frames == [] then [] else PrintFrame(frames[0]) + PrintAll(frames[1..])
  }

  // ---------------------------------------------------------------- reading

  /** The position of the first CR or LF, or the length. */
  function BreakAt(t: Text): (k: nat)
    ensures k <= |t|
    ensures k < |t| ==> t[k] == LF || t[k] == CR
    ensures forall i :: 0 <= i < k ==> t[i] != LF && t[i] != CR
  {
    if t == [] || t[0] == LF || t[0] == CR then 0 else 1 + BreakAt(t[1..])
  }

  function ColonAt(t: Text): (k: nat)
    ensures k <= |t|
    ensures k < |t| ==> t[k] == COLON
    ensures forall i :: 0 <= i < k ==> t[i] != COLON
  {
    if t == [] || t[0] == COLON then 0 else 1 + ColonAt(t[1..])
  }

  // The client's buffers. The id and retry fields have no bearing on what is dispatched.
  datatype Buffers = Buffers(kind: Text, data: Text)

  const CLEAR := Buffers([], [])

  /** "Process the field". */
  function ProcessField(b: Buffers, name: Text, value: Text): Buffers
  {
    if name == Ascii("event") then b.(kind := value)
    else if name == Ascii("data") then b.(data := b.data + value + [LF])
    else b
  }

  /** A line that is not empty. */
  function ProcessLine(b: Buffers, line: Text): Buffers
    requires line != []
  {
    var k := ColonAt(line);
    if k == 0 then b
    else if k == |line| then ProcessField(b, line, [])
    else
      var value := line[k + 1..];
      ProcessField(b, line[..k], if value != [] && value[0] == SPACE then value[1..] else value)
  }

  /** "Dispatch the event". */
  function Dispatch(b: Buffers): seq<Message>
  {
    if b.data == [] then []
    else
      var data := if b.data[|b.data| - 1] == LF then b.data[..|b.data| - 1] else b.data;
      [Message(if b.kind == [] then Ascii("message") else b.kind, data)]
  }

  /** Reads line after line; an event that the stream ends in the middle of is discarded. */
  function Read(t: Text, b: Buffers): seq<Message>
    decreases |t|
  {
    var k := BreakAt(t);
    if k == |t| then []
    else
      var rest := if t[k] == CR && k + 1 < |t| && t[k + 1] == LF then t[k + 2..] else t[k + 1..];
      if k == 0 then Dispatch(b) + Read(rest, CLEAR)
      else Read(rest, ProcessLine(b, t[..k]))
  }

  /** A leading byte order mark is dropped. */
  function ReadStream(t: Text): seq<Message>
  {
    Read(if t != [] && t[0] == BOM then t[1..] else t, CLEAR)
  }

  // ---------------------------------------------------------------- round trip

  ghost predicate OneLine(t: Text)
  {
    forall i :: 0 <= i < |t| ==> t[i] != LF && t[i] != CR
  }

  /** A frame whose parts stay on their lines, with a name that is not empty if it has one. */
  ghost predicate Clean(f: Frame)
  {
    OneLine(f.data) && (f.event.Some? ==> OneLine(f.event.value) && f.event.value != [])
  }

  function Sent(f: Frame): Message
  {
    Message(if f.event.Some? then f.event.value else Ascii("message"), f.data)
  }

  function AllSent(frames: seq<Frame>): seq<Message>
  {
    seq(|frames|, i requires 0 <= i < |frames| => Sent(frames[i]))
  }

  lemma FirstBreak(line: Text, rest: Text)
    requires OneLine(line)
    ensures BreakAt(line + [LF] + rest) == |line|
  {
    var t := line + [LF] + rest;
    assert t[|line|] == LF;
    assert forall i :: 0 <= i < |line| ==> t[i] == line[i];
  }

  lemma FirstColon(name: Text, rest: Text)
    requires forall i :: 0 <= i < |name| ==> name[i] != COLON
    ensures ColonAt(name + [COLON] + rest) == |name|
  {
    var t := name + [COLON] + rest;
    assert t[|name|] == COLON;
    assert forall i :: 0 <= i < |name| ==> t[i] == name[i];
  }

  /** Reading a line processes it. */
  lemma ReadLine(line: Text, rest: Text, b: Buffers)
    requires OneLine(line) && line != []
    ensures Read(line + [LF] + rest, b) == Read(rest, ProcessLine(b, line))
  {
    var t := line + [LF] + rest;
    FirstBreak(line, rest);
    assert t[..|line|] == line && t[|line| + 1..] == rest;
  }

  lemma ProcessNamed(name: Text, value: Text, b: Buffers)
    requires name != [] && forall i :: 0 <= i < |name| ==> name[i] != COLON
    ensures ProcessLine(b, name + [COLON, SPACE] + value) == ProcessField(b, name, value)
  {
    var line := name + [COLON, SPACE] + value;
    assert line == name + [COLON] + ([SPACE] + value);
    FirstColon(name, [SPACE] + value);
    assert line[..|name|] == name && line[|name| + 1..] == [SPACE] + value;
    assert ([SPACE] + value)[1..] == value;
  }

  /** Reading a printed field puts its value into the buffer of its name. */
  lemma ReadField(name: string, value: Text, rest: Text, b: Buffers)
    requires name == "event" || name == "data"
    requires OneLine(value)
    ensures Read(Field(name, value) + rest, b) == Read(rest, ProcessField(b, Ascii(name), value))
  {
    var line := Ascii(name) + [COLON, SPACE] + value;
    FieldNames(name);
    assert OneLine(line);
    assert Field(name, value) + rest == line + [LF] + rest;
    ReadLine(line, rest, b);
    ProcessNamed(Ascii(name), value, b);
  }

  lemma FieldNames(name: string)
    requires name == "event" || name == "data"
    ensures OneLine(Ascii(name)) && Ascii(name) != [] && forall i :: 0 <= i < |name| ==> Ascii(name)[i] != COLON
  {
  }

  lemma NamesDiffer()
    ensures Ascii("event") != Ascii("data")
  {
    assert |Ascii("event")| == 5 && |Ascii("data")| == 4;
  }

  /** The blank line after a frame dispatches what its fields left in the buffers. */
  lemma ReadBlank(rest: Text, b: Buffers)
    ensures Read([LF] + rest, b) == Dispatch(b) + Read(rest, CLEAR)
  {
    var t := [LF] + rest;
    assert t[0] == LF && t[1..] == rest;
  }

  lemma ReadFrame(f: Frame, rest: Text)
    requires Clean(f)
    ensures Read(PrintFrame(f) + rest, CLEAR) == [Sent(f)] + Read(rest, CLEAR)
  {
    NamesDiffer();
    var tail := [LF] + rest;
    var data := Field("data", f.data);
    var kind := if f.event.Some? then f.event.value else [];
    if f.event.Some? {
      assert PrintFrame(f) + rest == Field("event", kind) + (data + tail);
      ReadField("event", kind, data + tail, CLEAR);
    } else {
      assert PrintFrame(f) + rest == data + tail;
    }
    var b := Buffers(kind, []);
    ReadField("data", f.data, tail, b);
    var full := Buffers(kind, [] + f.data + [LF]);
    ReadBlank(rest, full);
    assert full.data[..|full.data| - 1] == f.data;
  }

  lemma {:induction false} ReadAll(frames: seq<Frame>)
    requires forall f :: f in frames ==> Clean(f)
    ensures Read(PrintAll(frames), CLEAR) == AllSent(frames)
    decreases frames
  {
    if frames != [] {
      var rest := PrintAll(frames[1..]);
      ReadFrame(frames[0], rest);
      ReadAll(frames[1..]);
      AllSentCons(frames);
      assert PrintAll(frames) == PrintFrame(frames[0]) + rest;
    }
  }

  lemma AllSentCons(frames: seq<Frame>)
    requires frames != []
    ensures AllSent(frames) == [Sent(frames[0])] + AllSent(frames[1..])
  {
  }

  /** A client of the concatenated frames sees exactly the events that were sent, in order. */
  lemma StreamRoundTrip(frames: seq<Frame>)
    requires forall f :: f in frames ==> Clean(f)
    ensures ReadStream(PrintAll(frames)) == AllSent(frames)
  {
    ReadAll(frames);
    if frames != [] {
      var t := PrintAll(frames);
      assert t[0] == PrintFrame(frames[0])[0];
      assert Ascii("event")[0] == 'e' as int && Ascii("data")[0] == 'd' as int;
    }
  }
}
