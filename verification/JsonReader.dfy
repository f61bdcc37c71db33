/**
  A reader of JSON texts after the grammar of RFC 8259, and what it makes of the texts `json.dumps`
  prints: the same value, exactly if the value holds no split surrogate pair and no float that JSON
  has no number for.
*/
module JsonReader {
  import opened Wrappers
  import opened Json

  const COMMA: CodePoint := 44
  const COLON: CodePoint := 58
  const BRACKET: CodePoint := 91
  const BRACKET_END: CodePoint := 93
  const BRACE: CodePoint := 123
  const BRACE_END: CodePoint := 125
  const SPACE: CodePoint := 32

  // ---------------------------------------------------------------- the reader

  predicate White(c: CodePoint) { c == SPACE || c == 9 || c == 10 || c == 13 }

  function Skip(t: Text): (r: Text)
    ensures |r| <= |t|
  {
    if t != [] && White(t[0]) then Skip(t[1..]) else t
  }

  /** The length of a string body up to its closing quote. */
  function BodyLength(t: Text): (k: Option<nat>)
    ensures k.Some? ==> k.value < |t| && t[k.value] == QUOTE
  {
    if t == [] || t[0] < 0x20 then None
    else if t[0] == QUOTE then Some(0)
    else
      var n := if t[0] == BACKSLASH then 2 else 1;
      if n > |t| then None else
        var k := BodyLength(t[n..]);
        if k.Some? then Some(n + k.value) else None
  }

  function ParseString(t: Text): (r: Option<(Text, Text)>)
    ensures r.Some? ==> |r.value.1| < |t|
  {
    if t == [] || t[0] != QUOTE then None
    else
      var k := BodyLength(t[1..]);
      if k.None? then None
      else
        var text := Unescape(t[1..k.value + 1]);
        if text.Some? then Some((text.value, t[k.value + 2..])) else None
  }

  /** How many characters at the start can be in a number. */
  function NumberLength(t: Text): (k: nat)
    ensures k <= |t|
  {
    if t != [] && InNumber(t[0]) then 1 + NumberLength(t[1..]) else 0
  }

  function ParseNumber(t: Text): (r: Option<(Value, Text)>)
    ensures r.Some? ==> |r.value.1| < |t|
  {
    var k := NumberLength(t);
    if k > 0 && IsNumber(t[..k]) then Some((Number(t[..k]), t[k..])) else None
  }

  function ParseWord(t: Text, word: string, v: Value): (r: Option<(Value, Text)>)
    requires word != ""
    ensures r.Some? ==> |r.value.1| < |t|
  {
    if |word| <= |t| && t[..|word|] == Ascii(word) then Some((v, t[|word|..])) else None
  }

  /** A value at the start of a text, and what follows it. */
  function ParseValue(t: Text): (r: Option<(Value, Text)>)
    ensures r.Some? ==> |r.value.1| < |t|
    decreases |t|, 0
  {
    if t == [] then None
    else if t[0] == QUOTE then
      var s := ParseString(t);
      if s.Some? then Some((Str(s.value.0), s.value.1)) else None
    else if t[0] == BRACKET then
      var s := Skip(t[1..]);
      if s != [] && s[0] == BRACKET_END then Some((Arr([]), s[1..]))
      else
        var items := ParseItems(s);
        if items.Some? then Some((Arr(items.value.0), items.value.1)) else None
    else if t[0] == BRACE then
      var s := Skip(t[1..]);
      if s != [] && s[0] == BRACE_END then Some((Obj([]), s[1..]))
      else
        var members := ParseMembers(s);
        if members.Some? then Some((Obj(members.value.0), members.value.1)) else None
    else if t[0] == 'n' as int then ParseWord(t, "null", Null)
    else if t[0] == 't' as int then ParseWord(t, "true", Bool(true))
    else if t[0] == 'f' as int then ParseWord(t, "false", Bool(false))
    else ParseNumber(t)
  }

  /** One value or more, up to the closing bracket. */
  function ParseItems(t: Text): (r: Option<(seq<Value>, Text)>)
    ensures r.Some? ==> |r.value.1| < |t|
    decreases |t|, 1
  {
    var first := ParseValue(t);
    if first.None? then None
    else
      var s := Skip(first.value.1);
      if s == [] then None
      else if s[0] == BRACKET_END then Some(([first.value.0], s[1..]))
      else if s[0] != COMMA then None
      else
        var others := ParseItems(Skip(s[1..]));
        if others.Some? then Some(([first.value.0] + others.value.0, others.value.1)) else None
  }

  /** A name, a colon and a value. */
  function ParseMember(t: Text): (r: Option<(Member, Text)>)
    ensures r.Some? ==> |r.value.1| < |t|
    decreases |t|, 1
  {
    var name := ParseString(t);
    if name.None? then None
    else
      var s := Skip(name.value.1);
      if s == [] || s[0] != COLON then None
      else
        var v := ParseValue(Skip(s[1..]));
        if v.Some? then Some((Member(name.value.0, v.value.0), v.value.1)) else None
  }

  /** One member or more, up to the closing brace. */
  function ParseMembers(t: Text): (r: Option<(seq<Member>, Text)>)
    ensures r.Some? ==> |r.value.1| < |t|
    decreases |t|, 2
  {
    var first := ParseMember(t);
    if first.None? then None
    else
      var s := Skip(first.value.1);
      if s == [] then None
      else if s[0] == BRACE_END then Some(([first.value.0], s[1..]))
      else if s[0] != COMMA then None
      else
        var others := ParseMembers(Skip(s[1..]));
        if others.Some? then Some(([first.value.0] + others.value.0, others.value.1)) else None
  }

  /** A whole text. */
  function Parse(t: Text): Option<Value>
  {
    var r := ParseValue(Skip(t));
    if r.Some? && Skip(r.value.1) == [] then Some(r.value.0) else None
  }

  // ---------------------------------------------------------------- what comes back

  /** No float without a JSON number. */
  predicate Finite(v: Value)
  {
    match v
    case Float(_) => false
    case Arr(items) => FiniteItems(items)
    case Obj(members) => FiniteMembers(members)
    case _ => true
  }

  predicate FiniteItems(items: seq<Value>)
  {
    items == [] || (Finite(items[0]) && FiniteItems(items[1..]))
  }

  predicate FiniteMembers(members: seq<Member>)
  {
    members == [] || (Finite(members[0].value) && FiniteMembers(members[1..]))
  }

  /** The value with the split pairs of its strings taken together. */
  function PairedValue(v: Value): Value
  {
    match v
    case Str(text) => Str(Paired(text))
    case Arr(items) => Arr(PairedItems(items))
    case Obj(members) => Obj(PairedMembers(members))
    case _ => v
  }

  function PairedItems(items: seq<Value>): seq<Value>
  {
    if items == [] then [] else [PairedValue(items[0])] + PairedItems(items[1..])
  }

  function PairedMembers(members: seq<Member>): seq<Member>
  {
    if members == [] then []
    else [Member(Paired(members[0].name), PairedValue(members[0].value))] + PairedMembers(members[1..])
  }

  /** No string in the value, names included, holds a split pair. */
  ghost predicate Unsplit(v: Value)
  {
    match v
    case Str(text) => !HasSplitPair(text)
    case Arr(items) => UnsplitItems(items)
    case Obj(members) => UnsplitMembers(members)
    case _ => true
  }

  ghost predicate UnsplitItems(items: seq<Value>)
  {
    items == [] || (Unsplit(items[0]) && UnsplitItems(items[1..]))
  }

  ghost predicate UnsplitMembers(members: seq<Member>)
  {
    members == [] || (!HasSplitPair(members[0].name) && Unsplit(members[0].value) && UnsplitMembers(members[1..]))
  }

  lemma {:induction false} MembersAre(members: seq<Member>)
    ensures FiniteMembers(members) <==> forall i :: 0 <= i < |members| ==> Finite(members[i].value)
    ensures UnsplitMembers(members) <==>
      forall i :: 0 <= i < |members| ==> !HasSplitPair(members[i].name) && Unsplit(members[i].value)
  {
    if members != [] {
      MembersAre(members[1..]);
      assert members == [members[0]] + members[1..];
    }
  }

  lemma {:induction false} PairedValueIs(v: Value)
    ensures PairedValue(v) == v <==> Unsplit(v)
    decreases v, 1
  {
    match v
    case Str(text) => PairedIs(text);
    case Arr(items) => PairedItemsAre(items);
    case Obj(members) => PairedMembersAre(members);
    case _ =>
  }

  lemma {:induction false} PairedItemsAre(items: seq<Value>)
    ensures PairedItems(items) == items <==> UnsplitItems(items)
    decreases items, 0
  {
    if items != [] {
      PairedValueIs(items[0]);
      PairedItemsAre(items[1..]);
      ConsEqual(PairedValue(items[0]), PairedItems(items[1..]), items);
    }
  }

  lemma {:induction false} PairedMembersAre(members: seq<Member>)
    ensures PairedMembers(members) == members <==> UnsplitMembers(members)
    decreases members, 0
  {
    if members != [] {
      PairedIs(members[0].name);
      PairedValueIs(members[0].value);
      PairedMembersAre(members[1..]);
      ConsEqual(Member(Paired(members[0].name), PairedValue(members[0].value)), PairedMembers(members[1..]), members);
    }
  }

  lemma ConsEqual<T>(x: T, rest: seq<T>, s: seq<T>)
    requires s != []
    ensures [x] + rest == s <==> x == s[0] && rest == s[1..]
  {
    if [x] + rest == s {
      assert ([x] + rest)[1..] == rest;
    }
  }

  // ---------------------------------------------------------------- reading strings and numbers

  /** An escape of a string body that a reader of the body takes in one piece. */
  ghost predicate IsEscape(e: Text)
  {
    && (forall i :: 0 <= i < |e| ==> e[i] >= 0x20)
    && (|e| == 1 ==> e[0] != QUOTE && e[0] != BACKSLASH)
    && (|e| == 2 || |e| == 6 ==> e[0] == BACKSLASH)
    && (|e| == 6 ==> forall i :: 1 <= i < 6 ==> e[i] != QUOTE && e[i] != BACKSLASH)
    && (|e| == 1 || |e| == 2 || |e| == 6)
  }

  lemma Hex4IsEscape(u: Unit)
    ensures IsEscape(Hex4(u))
  {
    HexDigits(u);
  }

  lemma BodyAfterEscape(e: Text, t: Text)
    requires IsEscape(e)
    ensures BodyLength(e + t) == match BodyLength(t) case None => None case Some(k) => Some(|e| + k)
  {
    if |e| == 6 {
      BodyAfterPlain(e[2..], t);
      assert (e + t)[2..] == e[2..] + t;
    } else {
      assert (e + t)[|e|..] == t;
    }
  }

  lemma {:induction false} BodyAfterPlain(e: Text, t: Text)
    requires forall i :: 0 <= i < |e| ==> e[i] >= 0x20 && e[i] != QUOTE && e[i] != BACKSLASH
    ensures BodyLength(e + t) == match BodyLength(t) case None => None case Some(k) => Some(|e| + k)
  {
    if e == [] {
      assert e + t == t;
    } else {
      assert (e + t)[1..] == e[1..] + t;
      BodyAfterPlain(e[1..], t);
    }
  }

  lemma EscapesOfUnit(u: Unit)
    ensures IsEscape(EscapeUnit(u))
  {
    if ShortEscape(u).None? && !(32 <= u <= 126) { Hex4IsEscape(u); }
  }

  lemma EscapesOfCodePoint(c: CodePoint)
    ensures IsEscape(EscapeRaw(c))
  {
    if ShortEscape(c).None? && c < 32 { Hex4IsEscape(c); }
  }

  /** One more escape before a body. */
  lemma BodyGrows(e: Text, body: Text, rest: Text)
    requires IsEscape(e) && BodyLength(body + [QUOTE] + rest) == Some(|body|)
    ensures BodyLength(e + body + [QUOTE] + rest) == Some(|e + body|)
  {
    BodyAfterEscape(e, body + [QUOTE] + rest);
    Concat4(e, body, [QUOTE], rest);
  }

  lemma Concat4(a: Text, b: Text, c: Text, d: Text)
    ensures a + b + c + d == a + (b + c + d)
  {
  }

  lemma {:induction false} BodyOfUnits(us: seq<Unit>, rest: Text)
    ensures BodyLength(EscapeUnits(us) + [QUOTE] + rest) == Some(|EscapeUnits(us)|)
  {
    if us == [] {
      assert [] + [QUOTE] + rest == [QUOTE] + rest;
    } else {
      BodyOfUnits(us[1..], rest);
      EscapesOfUnit(us[0]);
      BodyGrows(EscapeUnit(us[0]), EscapeUnits(us[1..]), rest);
    }
  }

  lemma {:induction false} BodyOfRaws(t: Text, rest: Text)
    ensures BodyLength(EscapeRaws(t) + [QUOTE] + rest) == Some(|EscapeRaws(t)|)
  {
    if t == [] {
      assert [] + [QUOTE] + rest == [QUOTE] + rest;
    } else {
      BodyOfRaws(t[1..], rest);
      EscapesOfCodePoint(t[0]);
      BodyGrows(EscapeRaw(t[0]), EscapeRaws(t[1..]), rest);
    }
  }

  lemma ReadsBody(body: Text, rest: Text)
    requires BodyLength(body + [QUOTE] + rest) == Some(|body|)
    ensures ParseString([QUOTE] + body + [QUOTE] + rest) ==
      match Unescape(body) case None => None case Some(text) => Some((text, rest))
  {
    var s := [QUOTE] + body + [QUOTE] + rest;
    assert s[1..] == body + [QUOTE] + rest;
    assert s[1..|body| + 1] == body && s[|body| + 2..] == rest;
  }

  lemma ReadsString(t: Text, ascii: bool, rest: Text)
    ensures ParseString(Quoted(t, ascii) + rest) == Some((Paired(t), rest))
  {
    if ascii { BodyOfUnits(ToUtf16(t), rest); } else { BodyOfRaws(t, rest); }
    UnescapeEscape(t, ascii);
    ReadsBody(Escape(t, ascii), rest);
  }

  /** What follows a value in a printed text: no part of a number. */
  predicate Delimited(rest: Text)
  {
    rest != [] ==> !InNumber(rest[0])
  }

  lemma {:induction false} NumberEnds(t: Text, rest: Text)
    requires Delimited(rest) && forall i :: 0 <= i < |t| ==> InNumber(t[i])
    ensures NumberLength(t + rest) == |t|
  {
    if t == [] {
      assert t + rest == rest;
    } else {
      assert (t + rest)[1..] == t[1..] + rest;
      NumberEnds(t[1..], rest);
    }
  }

  lemma ReadsNumber(lexeme: Lexeme, rest: Text)
    requires Delimited(rest)
    ensures ParseNumber(lexeme + rest) == Some((Number(lexeme), rest))
    ensures lexeme != [] && InNumber(lexeme[0])
  {
    NumbersAreMadeOf(lexeme);
    NumberEnds(lexeme, rest);
    assert (lexeme + rest)[..|lexeme|] == lexeme && (lexeme + rest)[|lexeme|..] == rest;
  }

  lemma WordHead(word: string, rest: Text)
    requires word != ""
    ensures var t := Ascii(word) + rest; t[0] == word[0] as int && t[..|word|] == Ascii(word) && t[|word|..] == rest
  {
  }

  lemma ReadsWord(word: string, v: Value, rest: Text)
    requires word != ""
    ensures ParseWord(Ascii(word) + rest, word, v) == Some((v, rest))
  {
    WordHead(word, rest);
  }

  /** The names of the other floats are no JSON. */
  lemma FloatsAreRefused(float: NonFinite, rest: Text)
    ensures ParseValue(Ascii(FloatName(float)) + rest).None?
  {
    var t := Ascii(FloatName(float)) + rest;
    WordHead(FloatName(float), rest);
    if float == NegativeInfinity {
      assert t[1] == 'I' as int;
      assert t[1..][0] == t[1];
      assert NumberLength(t[1..]) == 0;
      assert t[..1] == [MINUS];
      MinusIsNoNumber();
    } else {
      assert NumberLength(t) == 0;
    }
  }

  lemma MinusIsNoNumber()
    ensures !IsNumber([MINUS])
  {
    var t: Text := [MINUS];
    assert t[..|t| - 1] == [];
    assert ScanAll(t) == Next(Start, MINUS);
  }

  // ---------------------------------------------------------------- reading what was printed

  /** A printed value starts with no white space and closes nothing. */
  lemma DumpsHead(v: Value, ascii: bool)
    ensures var t := Dumps(v, ascii);
      t != [] && !White(t[0]) && t[0] != BRACKET_END && t[0] != BRACE_END
  {
    if v.Number? { ReadsNumber(v.lexeme, []); }
    if v.Float? { WordHead(FloatName(v.float), []); }
  }

  lemma SkipsNothing(t: Text, rest: Text)
    requires t != [] && !White(t[0])
    ensures Skip(t + rest) == t + rest
    ensures Skip([SPACE] + (t + rest)) == t + rest
  {
    assert ([SPACE] + (t + rest))[1..] == t + rest;
  }

  lemma Separator(c: char)
    ensures Ascii([c]) == [c as int] && Ascii([c, ' ']) == [c as int, SPACE]
  {
  }

  /** The text that follows the first of several items or members. */
  function Following(others: Text, more: bool, end: CodePoint, rest: Text): Text
  {
    (if more then [COMMA, SPACE] + others else []) + [end] + rest
  }

  lemma FollowingIs(others: Text, more: bool, end: CodePoint, rest: Text)
    requires end == BRACKET_END || end == BRACE_END
    requires more ==> others != [] && !White(others[0])
    ensures var t := Following(others, more, end, rest);
      && Delimited(t) && t != [] && Skip(t) == t
      && (if more then t[0] == COMMA && Skip(t[1..]) == others + [end] + rest else t[0] == end && t[1..] == rest)
  {
    var t := Following(others, more, end, rest);
    if more {
      assert t[1..] == [SPACE] + (others + ([end] + rest));
      SkipsNothing(others, [end] + rest);
      assert others + ([end] + rest) == others + [end] + rest;
    } else {
      assert t == [end] + rest;
    }
  }

  lemma ItemsHead(items: seq<Value>, ascii: bool)
    requires items != []
    ensures var t := DumpItems(items, ascii); t != [] && !White(t[0]) && t[0] != BRACKET_END
  {
    DumpsHead(items[0], ascii);
  }

  lemma MembersHead(members: seq<Member>, ascii: bool)
    requires members != []
    ensures var t := DumpMembers(members, ascii); t != [] && t[0] == QUOTE
  {
  }

  lemma ItemsStep(t: Text, v: Value, others: Text, more: bool, rest: Text)
    requires ParseValue(t) == Some((v, Following(others, more, BRACKET_END, rest)))
    requires more ==> others != [] && !White(others[0])
    ensures ParseItems(t) ==
      if !more then Some(([v], rest))
      else match ParseItems(others + [BRACKET_END] + rest)
           case None => None
           case Some(p) => Some(([v] + p.0, p.1))
  {
    FollowingIs(others, more, BRACKET_END, rest);
  }

  lemma {:induction false} ReadsItems(items: seq<Value>, ascii: bool, rest: Text)
    requires items != []
    ensures ParseItems(DumpItems(items, ascii) + [BRACKET_END] + rest) ==
      if FiniteItems(items) then Some((PairedItems(items), rest)) else None
    decreases items, 0
  {
    var more := |items| > 1;
    var others := DumpItems(items[1..], ascii);
    var tail := Following(others, more, BRACKET_END, rest);
    var t := Dumps(items[0], ascii) + tail;
    ItemsSplit(items, ascii, rest);
    if more {
      ItemsHead(items[1..], ascii);
      ReadsItems(items[1..], ascii, rest);
    }
    FollowingIs(others, more, BRACKET_END, rest);
    ReadsValue(items[0], ascii, tail);
    if Finite(items[0]) {
      ItemsStep(t, PairedValue(items[0]), others, more, rest);
      assert !more ==> items[1..] == [] && PairedItems(items) == [PairedValue(items[0])];
    }
  }

  lemma ItemsSplit(items: seq<Value>, ascii: bool, rest: Text)
    requires items != []
    ensures DumpItems(items, ascii) + [BRACKET_END] + rest ==
      Dumps(items[0], ascii) + Following(DumpItems(items[1..], ascii), |items| > 1, BRACKET_END, rest)
  {
    Separator(',');
    SplitTail(Dumps(items[0], ascii), DumpItems(items[1..], ascii), |items| > 1, BRACKET_END, rest);
  }

  lemma MemberStep(body: Text, text: Text, value: Text, tail: Text)
    requires ParseString(body + ([COLON, SPACE] + (value + tail))) == Some((text, [COLON, SPACE] + (value + tail)))
    requires value != [] && !White(value[0])
    ensures ParseMember(body + ([COLON, SPACE] + (value + tail))) ==
      match ParseValue(value + tail)
      case None => None
      case Some(p) => Some((Member(text, p.0), p.1))
  {
    var s := [COLON, SPACE] + (value + tail);
    assert Skip(s) == s && s[1..] == [SPACE] + (value + tail);
    SkipsNothing(value, tail);
  }

  lemma {:induction false} ReadsMember(m: Member, ascii: bool, tail: Text)
    requires Delimited(tail)
    ensures ParseMember(Quoted(m.name, ascii) + [COLON, SPACE] + Dumps(m.value, ascii) + tail) ==
      if Finite(m.value) then Some((Member(Paired(m.name), PairedValue(m.value)), tail)) else None
    decreases m, 2
  {
    var name, value := Quoted(m.name, ascii), Dumps(m.value, ascii);
    MemberParts(name, value, tail);
    ReadsString(m.name, ascii, [COLON, SPACE] + (value + tail));
    DumpsHead(m.value, ascii);
    MemberStep(name, Paired(m.name), value, tail);
    ReadsValue(m.value, ascii, tail);
  }

  lemma MemberParts(name: Text, value: Text, tail: Text)
    ensures name + [COLON, SPACE] + value + tail == name + ([COLON, SPACE] + (value + tail))
  {
  }

  lemma MembersStep(t: Text, m: Member, others: Text, more: bool, rest: Text)
    requires ParseMember(t) == Some((m, Following(others, more, BRACE_END, rest)))
    requires more ==> others != [] && !White(others[0])
    ensures ParseMembers(t) ==
      if !more then Some(([m], rest))
      else match ParseMembers(others + [BRACE_END] + rest)
           case None => None
           case Some(p) => Some(([m] + p.0, p.1))
  {
    FollowingIs(others, more, BRACE_END, rest);
  }

  lemma {:induction false} ReadsMembers(members: seq<Member>, ascii: bool, rest: Text)
    requires members != []
    ensures ParseMembers(DumpMembers(members, ascii) + [BRACE_END] + rest) ==
      if FiniteMembers(members) then Some((PairedMembers(members), rest)) else None
    decreases members, 0
  {
    var more := |members| > 1;
    var m := members[0];
    var others := DumpMembers(members[1..], ascii);
    var tail := Following(others, more, BRACE_END, rest);
    var t := Quoted(m.name, ascii) + [COLON, SPACE] + Dumps(m.value, ascii) + tail;
    MembersSplit(members, ascii, rest);
    if more {
      MembersHead(members[1..], ascii);
      ReadsMembers(members[1..], ascii, rest);
    }
    FollowingIs(others, more, BRACE_END, rest);
    ReadsMember(m, ascii, tail);
    if Finite(m.value) {
      MembersStep(t, Member(Paired(m.name), PairedValue(m.value)), others, more, rest);
      assert !more ==> members[1..] == [] && PairedMembers(members) == [Member(Paired(m.name), PairedValue(m.value))];
    }
  }

  lemma MembersSplit(members: seq<Member>, ascii: bool, rest: Text)
    requires members != []
    ensures DumpMembers(members, ascii) + [BRACE_END] + rest ==
      Quoted(members[0].name, ascii) + [COLON, SPACE] + Dumps(members[0].value, ascii) +
      Following(DumpMembers(members[1..], ascii), |members| > 1, BRACE_END, rest)
  {
    Separator(',');
    Separator(':');
    SplitTail(Quoted(members[0].name, ascii) + [COLON, SPACE] + Dumps(members[0].value, ascii),
              DumpMembers(members[1..], ascii), |members| > 1, BRACE_END, rest);
  }

  lemma SplitTail(first: Text, others: Text, more: bool, end: CodePoint, rest: Text)
    requires !more ==> others == []
    ensures first + (if more then [COMMA, SPACE] else []) + others + [end] + rest ==
      first + Following(others, more, end, rest)
  {
  }

  /** Reading a printed value at the start of a text. */
  lemma {:induction false} ReadsValue(v: Value, ascii: bool, rest: Text)
    requires Delimited(rest)
    ensures ParseValue(Dumps(v, ascii) + rest) == if Finite(v) then Some((PairedValue(v), rest)) else None
    decreases v, 1
  {
    var t := Dumps(v, ascii) + rest;
    match v
    case Null => ReadsWord("null", v, rest); WordHead("null", rest);
    case Bool(b) =>
      ReadsWord(if b then "true" else "false", v, rest);
      WordHead(if b then "true" else "false", rest);
    case Number(lexeme) => ReadsNumber(lexeme, rest);
    case Float(float) => FloatsAreRefused(float, rest);
    case Str(text) => ReadsString(text, ascii, rest);
    case Arr(items) => ReadsArray(items, ascii, rest);
    case Obj(members) => ReadsObject(members, ascii, rest);
  }

  /** Reading a printed array that is not empty reads its items. */
  lemma ArrayStep(body: Text, rest: Text)
    requires body != [] && !White(body[0]) && body[0] != BRACKET_END
    ensures ParseValue([BRACKET] + body + [BRACKET_END] + rest) ==
      match ParseItems(body + [BRACKET_END] + rest)
      case None => None
      case Some(p) => Some((Arr(p.0), p.1))
  {
    var t := [BRACKET] + body + [BRACKET_END] + rest;
    assert t[1..] == body + ([BRACKET_END] + rest) == body + [BRACKET_END] + rest;
    SkipsNothing(body, [BRACKET_END] + rest);
  }

  lemma ObjectStep(body: Text, rest: Text)
    requires body != [] && body[0] == QUOTE
    ensures ParseValue([BRACE] + body + [BRACE_END] + rest) ==
      match ParseMembers(body + [BRACE_END] + rest)
      case None => None
      case Some(p) => Some((Obj(p.0), p.1))
  {
    var t := [BRACE] + body + [BRACE_END] + rest;
    assert t[1..] == body + ([BRACE_END] + rest) == body + [BRACE_END] + rest;
    SkipsNothing(body, [BRACE_END] + rest);
  }

  lemma ReadsEmpty(rest: Text)
    ensures ParseValue([BRACKET, BRACKET_END] + rest) == Some((Arr([]), rest))
    ensures ParseValue([BRACE, BRACE_END] + rest) == Some((Obj([]), rest))
  {
    var t, u := [BRACKET, BRACKET_END] + rest, [BRACE, BRACE_END] + rest;
    assert t[1..] == [BRACKET_END] + rest && t[1..][1..] == rest;
    assert u[1..] == [BRACE_END] + rest && u[1..][1..] == rest;
  }

  lemma {:induction false} ReadsArray(items: seq<Value>, ascii: bool, rest: Text)
    ensures ParseValue(Dumps(Arr(items), ascii) + rest) ==
      if FiniteItems(items) then Some((Arr(PairedItems(items)), rest)) else None
    decreases items, 1
  {
    Separator('[');
    Separator(']');
    if items == [] {
      ReadsEmpty(rest);
      assert Dumps(Arr(items), ascii) == [BRACKET, BRACKET_END];
    } else {
      ItemsHead(items, ascii);
      ArrayStep(DumpItems(items, ascii), rest);
      ReadsItems(items, ascii, rest);
    }
  }

  lemma {:induction false} ReadsObject(members: seq<Member>, ascii: bool, rest: Text)
    ensures ParseValue(Dumps(Obj(members), ascii) + rest) ==
      if FiniteMembers(members) then Some((Obj(PairedMembers(members)), rest)) else None
    decreases members, 1
  {
    Separator('{');
    Separator('}');
    if members == [] {
      ReadsEmpty(rest);
      assert Dumps(Obj(members), ascii) == [BRACE, BRACE_END];
    } else {
      MembersHead(members, ascii);
      ObjectStep(DumpMembers(members, ascii), rest);
      ReadsMembers(members, ascii, rest);
    }
  }

  /** What a reader makes of a printed value. */
  lemma ParseDumps(v: Value, ascii: bool)
    ensures Parse(Dumps(v, ascii)) == if Finite(v) then Some(PairedValue(v)) else None
  {
    DumpsHead(v, ascii);
    SkipsNothing(Dumps(v, ascii), []);
    assert Dumps(v, ascii) + [] == Dumps(v, ascii);
    ReadsValue(v, ascii, []);
  }

  /** The round trip: the value comes back exactly if it is finite and unsplit. */
  lemma ParseInvertsDumps(v: Value, ascii: bool)
    ensures Parse(Dumps(v, ascii)) == Some(v) <==> Finite(v) && Unsplit(v)
  {
    ParseDumps(v, ascii);
    PairedValueIs(v);
  }

  // ---------------------------------------------------------------- looking members up

  /** The value of the first member with this name. */
  function FieldIn(members: seq<Member>, name: string): Option<Value>
  {
    if members == [] then None
    else if members[0].name == Ascii(name) then Some(members[0].value)
    else FieldIn(members[1..], name)
  }

  function Lookup(v: Value, name: string): Option<Value>
  {
    if v.Obj? then FieldIn(v.members, name) else None
  }

  /** The names of an object's members. */
  ghost predicate Named(members: seq<Member>, names: seq<string>)
  {
    |members| == |names| && forall i :: 0 <= i < |names| ==> members[i].name == Ascii(names[i])
  }

  lemma {:induction false} FieldIs(members: seq<Member>, names: seq<string>, i: nat)
    requires Named(members, names) && i < |names|
    requires forall j :: 0 <= j < i ==> names[j] != names[i]
    ensures FieldIn(members, names[i]) == Some(members[i].value)
  {
    AsciiInjective(names[0], names[i]);
    if i > 0 {
      FieldIs(members[1..], names[1..], i - 1);
    }
  }

  /** Reading a member of a value after the journey gives what the member was, after the journey. */
  lemma {:induction false} FieldAfterJourney(members: seq<Member>, names: seq<string>, name: string)
    requires Named(members, names)
    ensures FieldIn(PairedMembers(members), name) ==
      match FieldIn(members, name) case None => None case Some(v) => Some(PairedValue(v))
  {
    if members != [] {
      AsciiIsUnsplit(names[0]);
      PairedIs(members[0].name);
      FieldAfterJourney(members[1..], names[1..], name);
      assert PairedMembers(members)[1..] == PairedMembers(members[1..]);
    }
  }

  /** A member of an object after the journey. */
  lemma MemberComesBack(members: seq<Member>, names: seq<string>, i: nat)
    requires Named(members, names) && i < |names|
    requires forall j :: 0 <= j < i ==> names[j] != names[i]
    ensures Lookup(PairedValue(Obj(members)), names[i]) == Some(PairedValue(members[i].value))
  {
    FieldIs(members, names, i);
    FieldAfterJourney(members, names, names[i]);
  }

  lemma OneMoreMember(first: string, v: Value, behind: seq<Member>, name: string)
    ensures Lookup(PairedValue(Obj([Member(Ascii(first), v)] + behind)), name) ==
      if name == first then Some(PairedValue(v)) else Lookup(PairedValue(Obj(behind)), name)
  {
    var members := [Member(Ascii(first), v)] + behind;
    AsciiIsUnsplit(first);
    PairedIs(Ascii(first));
    AsciiInjective(first, name);
    assert members[1..] == behind;
    assert PairedMembers(members) == [Member(Ascii(first), PairedValue(v))] + PairedMembers(behind);
    assert PairedMembers(members)[1..] == PairedMembers(behind);
  }
}
