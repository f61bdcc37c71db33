/**
  `json.dumps` with default separators, with and without `ensure_ascii`, over strings of Unicode code
  points; and how a reader undoes the escaping (RFC 8259, section 7).
*/
module Json {
  import opened Wrappers

  // A Python string is a sequence of code points, surrogates included.
  type CodePoint = n: int | 0 <= n < 0x11_0000

  type Unit = n: int | 0 <= n < 0x1_0000

  type Text = seq<CodePoint>

  function Ascii(s: string): (t: Text)
    ensures |t| == |s|
    ensures forall i :: 0 <= i < |s| ==> t[i] == s[i] as int
  {
    seq(|s|, i requires 0 <= i < |s| => s[i] as int)
  }

  lemma AsciiInjective(a: string, b: string)
    ensures Ascii(a) == Ascii(b) <==> a == b
  {
    if Ascii(a) == Ascii(b) {
      forall i | 0 <= i < |a|
        ensures a[i] == b[i]
      {
        assert Ascii(a)[i] == Ascii(b)[i];
      }
    }
  }

  predicate Surrogate(n: int) { 0xD800 <= n < 0xE000 }

  /** The string of a text that holds no surrogates. */
  function StringOf(t: Text): Option<string>
  {
    if forall i :: 0 <= i < |t| ==> !Surrogate(t[i]) then
      Some(seq(|t|, i requires 0 <= i < |t| && !Surrogate(t[i]) => t[i] as char))
    else None
  }

  lemma StringOfAscii(s: string)
    ensures StringOf(Ascii(s)) == Some(s)
  {
    assert forall i :: 0 <= i < |s| ==> Ascii(s)[i] == s[i] as int && !Surrogate(Ascii(s)[i]);
    assert StringOf(Ascii(s)).value == s;
  }

  /** No control characters, and so neither CR nor LF. */
  ghost predicate NoControls(t: Text)
  {
    forall i :: 0 <= i < |t| ==> t[i] >= 0x20
  }

  // ---------------------------------------------------------------- UTF-16

  predicate High(n: int) { 0xD800 <= n < 0xDC00 }

  predicate Low(n: int) { 0xDC00 <= n < 0xE000 }

  function UnitsOf(c: CodePoint): seq<Unit>
  {
    if c < 0x1_0000 then [c]
    else [0xD800 + (c - 0x1_0000) / 0x400, 0xDC00 + (c - 0x1_0000) % 0x400]
  }

  function Combined(high: int, low: int): CodePoint
    requires High(high) && Low(low)
  {
    0x1_0000 + (high - 0xD800) * 0x400 + (low - 0xDC00)
  }

  function ToUtf16(t: Text): seq<Unit>
  {
    if t == [] then [] else UnitsOf(t[0]) + ToUtf16(t[1..])
  }

  /** Takes a high surrogate and a low one right after it as one code point. */
  function Paired(t: Text): Text
  {
    if t == [] then []
    else if |t| >= 2 && High(t[0]) && Low(t[1]) then
      [Combined(t[0], t[1])] + Paired(t[2..])
    else [t[0]] + Paired(t[1..])
  }

  /** A high surrogate stands right before a low one. */
  ghost predicate HasSplitPair(t: Text)
  {
    exists i :: 0 <= i < |t| - 1 && High(t[i]) && Low(t[i + 1])
  }

  /** Strings without surrogates hold none. */
  lemma AsciiIsUnsplit(s: string)
    ensures !HasSplitPair(Ascii(s))
  {
  }

  lemma SplitPairAhead(t: Text)
    requires t != []
    ensures HasSplitPair(t) <==> (|t| >= 2 && High(t[0]) && Low(t[1])) || HasSplitPair(t[1..])
  {
    if HasSplitPair(t) && !(High(t[0]) && Low(t[1])) {
      var i :| 0 <= i < |t| - 1 && High(t[i]) && Low(t[i + 1]);
      assert High(t[1..][i - 1]) && Low(t[1..][i]);
    }
    if HasSplitPair(t[1..]) {
      var i :| 0 <= i < |t[1..]| - 1 && High(t[1..][i]) && Low(t[1..][i + 1]);
      assert High(t[i + 1]) && Low(t[i + 1 + 1]);
    }
  }

  /** Pairing changes a text exactly if it holds a split pair, and then it gets shorter. */
  lemma {:induction false} PairedIs(t: Text)
    ensures if HasSplitPair(t) then |Paired(t)| < |t| else Paired(t) == t
    decreases |t|
  {
    if t != [] {
      SplitPairAhead(t);
      PairedIs(t[1..]);
      if |t| >= 2 && High(t[0]) && Low(t[1]) {
        PairedIs(t[2..]);
      } else {
        assert [t[0]] + t[1..] == t;
      }
    }
  }

  lemma PairRecombines(c: CodePoint)
    requires c >= 0x1_0000
    ensures var high: int, low: int := UnitsOf(c)[0], UnitsOf(c)[1];
      High(high) && Low(low) && Combined(high, low) == c
  {
  }

  /** The first unit of a text is a low surrogate only if the text starts with one. */
  lemma FirstUnit(t: Text)
    requires t != []
    ensures ToUtf16(t) != [] && (Low(ToUtf16(t)[0]) <==> Low(t[0]))
  {
    if t[0] >= 0x1_0000 { PairRecombines(t[0]); }
  }

  /** Pairing the units of a text undoes the encoding, up to the split pairs it already had. */
  lemma {:induction false} Utf16RoundTrip(t: Text)
    ensures Paired(ToUtf16(t)) == Paired(t)
    decreases |t|
  {
    if t != [] {
      var us := ToUtf16(t);
      var rest := ToUtf16(t[1..]);
      Utf16RoundTrip(t[1..]);
      if t[0] >= 0x1_0000 {
        PairRecombines(t[0]);
        assert us[2..] == rest;
      } else {
        assert us == [t[0]] + rest && us[1..] == rest;
        if |t| >= 2 {
          FirstUnit(t[1..]);
          if High(t[0]) && Low(t[1]) {
            var rest2 := ToUtf16(t[2..]);
            assert t[1..][1..] == t[2..];
            assert rest == [t[1]] + rest2;
            assert us[2..] == rest2;
            Utf16RoundTrip(t[2..]);
          }
        }
      }
    }
  }

  // ---------------------------------------------------------------- escaping

  function HexDigit(n: int): CodePoint
    requires 0 <= n < 16
  {
    if n < 10 then 48 + n else 87 + n
  }

  function HexValue(c: CodePoint): Option<int>
  {
    if 48 <= c <= 57 then Some(c - 48)
    else if 97 <= c <= 102 then Some(c - 87)
    else if 65 <= c <= 70 then Some(c - 55)
    else None
  }

  const BACKSLASH: CodePoint := 92
  const QUOTE: CodePoint := 34

  function Hex4(u: Unit): Text
  {
    [BACKSLASH, 117, HexDigit(u / 4096), HexDigit(u / 256 % 16), HexDigit(u / 16 % 16), HexDigit(u % 16)]
  }

  /** The two-character escapes. */
  function ShortEscape(u: int): Option<CodePoint>
  {
    if u == 34 then Some(34) else if u == 92 then Some(92)
    else if u == 8 then Some(98) else if u == 12 then Some(102)
    else if u == 10 then Some(110) else if u == 13 then Some(114) else if u == 9 then Some(116)
    else None
  }

  /** One UTF-16 unit with `ensure_ascii`. */
  function EscapeUnit(u: Unit): Text
  {
    var short := ShortEscape(u);
    if short.Some? then [BACKSLASH, short.value]
    else if 32 <= u <= 126 then [u]
    else Hex4(u)
  }

  function EscapeUnits(us: seq<Unit>): Text
  {
    if us == [] then [] else EscapeUnit(us[0]) + EscapeUnits(us[1..])
  }

  /** One code point without `ensure_ascii`. */
  function EscapeRaw(c: CodePoint): Text
  {
    var short := ShortEscape(c);
    if short.Some? then [BACKSLASH, short.value]
    else if c >= 32 then [c]
    else Hex4(c)
  }

  function EscapeRaws(t: Text): Text
  {
    if t == [] then [] else EscapeRaw(t[0]) + EscapeRaws(t[1..])
  }

  function Escape(t: Text, ascii: bool): Text
  {
    if ascii then EscapeUnits(ToUtf16(t)) else EscapeRaws(t)
  }

  lemma {:induction false} EscapeUnitsNoControls(us: seq<Unit>)
    ensures forall i :: 0 <= i < |EscapeUnits(us)| ==> 32 <= EscapeUnits(us)[i] <= 126
  {
    if us != [] { EscapeUnitsNoControls(us[1..]); }
  }

  lemma {:induction false} EscapeRawsNoControls(t: Text)
    ensures NoControls(EscapeRaws(t))
  {
    if t != [] { EscapeRawsNoControls(t[1..]); }
  }

  /** No control characters, and with `ensure_ascii` nothing but printable ASCII. */
  ghost predicate Printed(t: Text, ascii: bool)
  {
    forall i :: 0 <= i < |t| ==> t[i] >= 0x20 && (ascii ==> t[i] <= 126)
  }

  lemma EscapeIsPrinted(t: Text, ascii: bool)
    ensures Printed(Escape(t, ascii), ascii)
  {
    if ascii { EscapeUnitsNoControls(ToUtf16(t)); } else { EscapeRawsNoControls(t); }
  }

  /** Without `ensure_ascii`, text without quotes, backslashes and control characters stays as it is. */
  lemma {:induction false} PlainTextIsKept(t: Text)
    requires forall i :: 0 <= i < |t| ==> t[i] >= 0x20 && t[i] != QUOTE && t[i] != BACKSLASH
    ensures Escape(t, false) == t
  {
    if t != [] {
      PlainTextIsKept(t[1..]);
      assert EscapeRaw(t[0]) == [t[0]];
      assert t == [t[0]] + t[1..];
    }
  }

  // ---------------------------------------------------------------- reading escapes back

  function LongValue(s: Text): Option<int>
    requires |s| == 4
  {
    var a, b, c, d := HexValue(s[0]), HexValue(s[1]), HexValue(s[2]), HexValue(s[3]);
    if a.Some? && b.Some? && c.Some? && d.Some? then
      Some(a.value * 4096 + b.value * 256 + c.value * 16 + d.value)
    else None
  }

  function ShortValue(c: CodePoint): Option<Unit>
  {
    if c == 34 then Some(34) else if c == 92 then Some(92) else if c == 47 then Some(47)
    else if c == 98 then Some(8) else if c == 102 then Some(12)
    else if c == 110 then Some(10) else if c == 114 then Some(13) else if c == 116 then Some(9)
    else None
  }

  /** Reads one unit of an ASCII string body: the unit and how many characters it took. */
  function ReadUnit(s: Text): (r: Option<(int, nat)>)
    requires s != []
    ensures r.Some? ==> 1 <= r.value.1 <= |s|
  {
    if s[0] != BACKSLASH then Some((s[0], 1))
    else if |s| < 2 then None
    else if s[1] == 117 then
      if |s| < 6 then None
      else
        var v := LongValue(s[2..6]);
        if v.Some? then Some((v.value, 6)) else None
    else
      var v := ShortValue(s[1]);
      if v.Some? then Some((v.value, 2)) else None
  }

  function ReadUnits(s: Text): Option<Text>
    decreases |s|
  {
    if s == [] then Some([]) else
      var r := ReadUnit(s);
      if r.None? || !(0 <= r.value.0 < 0x11_0000) then None else
        var rest := ReadUnits(s[r.value.1..]);
        if rest.None? then None else Some([r.value.0] + rest.value)
  }

  /** What a reader makes of the body of a JSON string. */
  function Unescape(s: Text): Option<Text>
  {
    var us := ReadUnits(s);
    if us.Some? then Some(Paired(us.value)) else None
  }

  lemma HexDigitValue(n: int)
    requires 0 <= n < 16
    ensures HexValue(HexDigit(n)) == Some(n)
  {
  }

  lemma HexDigits(u: int)
    requires 0 <= u < 0x1_0000
    ensures u / 4096 * 4096 + u / 256 % 16 * 256 + u / 16 % 16 * 16 + u % 16 == u
    ensures 0 <= u / 4096 < 16
  {
    var a := u / 16;
    var b := u / 256;
    assert a / 16 == b && b / 16 == u / 4096;
    assert u == 16 * a + u % 16 && a == 16 * b + a % 16 && b == 16 * (u / 4096) + b % 16;
  }

  lemma LongValueOf(a: int, b: int, c: int, d: int)
    requires 0 <= a < 16 && 0 <= b < 16 && 0 <= c < 16 && 0 <= d < 16
    ensures LongValue([HexDigit(a), HexDigit(b), HexDigit(c), HexDigit(d)]) == Some(a * 4096 + b * 256 + c * 16 + d)
  {
    HexDigitValue(a);
    HexDigitValue(b);
    HexDigitValue(c);
    HexDigitValue(d);
  }

  lemma Hex4Value(u: Unit)
    ensures LongValue(Hex4(u)[2..6]) == Some(u)
  {
    HexDigits(u);
    LongValueOf(u / 4096, u / 256 % 16, u / 16 % 16, u % 16);
    assert Hex4(u)[2..6] ==
           [HexDigit(u / 4096), HexDigit(u / 256 % 16), HexDigit(u / 16 % 16), HexDigit(u % 16)];
  }

  lemma ReadEscaped(u: Unit, rest: Text)
    ensures EscapeUnit(u) != [] && ReadUnit(EscapeUnit(u) + rest) == Some((u, |EscapeUnit(u)|))
  {
    var s := EscapeUnit(u) + rest;
    if ShortEscape(u).None? && !(32 <= u <= 126) {
      Hex4Value(u);
      assert s[2..6] == Hex4(u)[2..6];
    }
  }

  /** Reading one escape and then the rest. */
  lemma ReadUnitsStep(e: Text, c: CodePoint, rest: Text)
    requires e != [] && ReadUnit(e + rest) == Some((c, |e|))
    ensures ReadUnits(e + rest) ==
      match ReadUnits(rest) case None => None case Some(others) => Some([c] + others)
  {
    assert (e + rest)[|e|..] == rest;
  }

  lemma {:induction false} ReadEscapedUnits(us: seq<Unit>)
    ensures ReadUnits(EscapeUnits(us)) == Some(us)
  {
    if us != [] {
      var rest := EscapeUnits(us[1..]);
      ReadEscaped(us[0], rest);
      ReadEscapedUnits(us[1..]);
      ReadUnitsStep(EscapeUnit(us[0]), us[0], rest);
      assert us == [us[0]] + us[1..];
    }
  }

  lemma ReadRaw(c: CodePoint, rest: Text)
    ensures EscapeRaw(c) != [] && ReadUnit(EscapeRaw(c) + rest) == Some((c, |EscapeRaw(c)|))
  {
    var s := EscapeRaw(c) + rest;
    if ShortEscape(c).None? && c < 32 {
      Hex4Value(c);
      assert s[2..6] == Hex4(c)[2..6];
    }
  }

  lemma {:induction false} ReadEscapedRaws(t: Text)
    ensures ReadUnits(EscapeRaws(t)) == Some(t)
  {
    if t != [] {
      var rest := EscapeRaws(t[1..]);
      ReadRaw(t[0], rest);
      ReadEscapedRaws(t[1..]);
      ReadUnitsStep(EscapeRaw(t[0]), t[0], rest);
      assert t == [t[0]] + t[1..];
    }
  }

  /** What comes back of an escaped string, in either style. */
  lemma UnescapeEscape(t: Text, ascii: bool)
    ensures Unescape(Escape(t, ascii)) == Some(Paired(t))
  {
    if ascii {
      ReadEscapedUnits(ToUtf16(t));
      Utf16RoundTrip(t);
    } else {
      ReadEscapedRaws(t);
    }
  }

  /**
    Escaping and reading back gives the string again, unless it holds a high surrogate right before
    a low one: those come back as one code point.
  */
  lemma EscapingIsFaithful(t: Text, ascii: bool)
    ensures Unescape(Escape(t, ascii)) == Some(t) <==> !HasSplitPair(t)
  {
    UnescapeEscape(t, ascii);
    PairedIs(t);
  }

  /** Two surrogates in a row are read back as one character. */
  lemma SplitPairIsLost(high: Unit, low: Unit, ascii: bool)
    requires High(high) && Low(low)
    ensures Unescape(Escape([high, low], ascii)) == Some([Combined(high, low)])
  {
    var t: Text := [high, low];
    UnescapeEscape(t, ascii);
    assert t[2..] == [];
    assert Paired(t) == [Combined(high, low)] + Paired(t[2..]) == [Combined(high, low)];
  }

  // ---------------------------------------------------------------- values

  // How far a number has been read (RFC 8259, section 6).
  datatype Scan =
    | Start | Minus | Zero | Whole | Point | Fraction | Exponent | ExponentSign | ExponentDigits | Dead

  predicate IsDigit(c: CodePoint) { 48 <= c <= 57 }

  predicate IsExponent(c: CodePoint) { c == 101 || c == 69 }

  const PLUS: CodePoint := 43
  const MINUS: CodePoint := 45
  const POINT: CodePoint := 46
  const ZERO: CodePoint := 48

  function Leading(c: CodePoint): Scan
  {
    if c == ZERO then Zero else if IsDigit(c) then Whole else Dead
  }

  function AfterWhole(c: CodePoint): Scan
  {
    if c == POINT then Point else if IsExponent(c) then Exponent else Dead
  }

  function Next(s: Scan, c: CodePoint): Scan
  {
    match s
    case Start => if c == MINUS then Minus else Leading(c)
    case Minus => Leading(c)
    case Zero => AfterWhole(c)
    case Whole => if IsDigit(c) then Whole else AfterWhole(c)
    case Point => if IsDigit(c) then Fraction else Dead
    case Fraction => if IsDigit(c) then Fraction else if IsExponent(c) then Exponent else Dead
    case Exponent => if c == PLUS || c == MINUS then ExponentSign else if IsDigit(c) then ExponentDigits else Dead
    case ExponentSign => if IsDigit(c) then ExponentDigits else Dead
    case ExponentDigits => if IsDigit(c) then ExponentDigits else Dead
    case Dead => Dead
  }

  function ScanAll(t: Text): Scan
  {
    if t == [] then Start else Next(ScanAll(t[..|t| - 1]), t[|t| - 1])
  }

  predicate IsNumber(t: Text)
  {
    var s := ScanAll(t);
    s.Zero? || s.Whole? || s.Fraction? || s.ExponentDigits?
  }

  /** What a number is made of. */
  predicate InNumber(c: CodePoint)
  {
    IsDigit(c) || IsExponent(c) || c == PLUS || c == MINUS || c == POINT
  }

  lemma {:induction false} NumbersAreMadeOf(t: Text)
    requires !ScanAll(t).Dead?
    ensures forall i :: 0 <= i < |t| ==> InNumber(t[i])
  {
    if t != [] {
      var front := t[..|t| - 1];
      NumbersAreMadeOf(front);
      assert forall i :: 0 <= i < |front| ==> t[i] == front[i];
    }
  }

  // The text of a number.
  type Lexeme = t: Text | IsNumber(t) witness [ZERO]

  datatype NonFinite = NaN | Infinity | NegativeInfinity

  // What json.dumps accepts. The floats that JSON has no number for are printed by name.
  datatype Value =
    | Null
    | Bool(b: bool)
    | Number(lexeme: Lexeme)
    | Float(float: NonFinite)
    | Str(text: Text)
    | Arr(items: seq<Value>)
    | Obj(members: seq<Member>)

  datatype Member = Member(name: Text, value: Value)

  function FloatName(float: NonFinite): string
  {
    match float
    case NaN => "NaN"
    case Infinity => "Infinity"
    case NegativeInfinity => "-Infinity"
  }

  function Quoted(t: Text, ascii: bool): Text
  {
    [QUOTE] + Escape(t, ascii) + [QUOTE]
  }

  /** `json.dumps`. */
  function Dumps(v: Value, ascii: bool): Text
    decreases v, 1
  {
    match v
    case Null => Ascii("null")
    case Bool(b) => if b then Ascii("true") else Ascii("false")
    case Number(lexeme) => lexeme
    case Float(float) => Ascii(FloatName(float))
    case Str(text) => Quoted(text, ascii)
    case Arr(items) => Ascii("[") + DumpItems(items, ascii) + Ascii("]")
    case Obj(members) => Ascii("{") + DumpMembers(members, ascii) + Ascii("}")
  }

  function DumpItems(items: seq<Value>, ascii: bool): Text
    decreases items, 0
  {
    if items == [] then []
    else Dumps(items[0], ascii) + (if |items| > 1 then Ascii(", ") else []) + DumpItems(items[1..], ascii)
  }

  function DumpMembers(members: seq<Member>, ascii: bool): Text
    decreases members, 0
  {
    if members == [] then []
    else
      Quoted(members[0].name, ascii) + Ascii(": ") + Dumps(members[0].value, ascii)
      + (if |members| > 1 then Ascii(", ") else []) + DumpMembers(members[1..], ascii)
  }

  lemma StringIsPrinted(s: string, ascii: bool)
    requires forall i :: 0 <= i < |s| ==> ' ' <= s[i] <= '~'
    ensures Printed(Ascii(s), ascii)
  {
  }

  lemma ConcatIsPrinted(a: Text, b: Text, ascii: bool)
    requires Printed(a, ascii) && Printed(b, ascii)
    ensures Printed(a + b, ascii)
  {
  }

  /** What separates and encloses values. */
  lemma PunctuationIsPrinted(ascii: bool)
    ensures Printed(Ascii("["), ascii) && Printed(Ascii("]"), ascii)
    ensures Printed(Ascii("{"), ascii) && Printed(Ascii("}"), ascii)
    ensures Printed(Ascii(", "), ascii) && Printed(Ascii(": "), ascii)
  {
  }

  lemma EnclosedIsPrinted(open: Text, t: Text, close: Text, ascii: bool)
    requires Printed(open, ascii) && Printed(t, ascii) && Printed(close, ascii)
    ensures Printed(open + t + close, ascii)
  {
    ConcatIsPrinted(open, t, ascii);
    ConcatIsPrinted(open + t, close, ascii);
  }

  lemma QuotedIsPrinted(t: Text, ascii: bool)
    ensures Printed(Quoted(t, ascii), ascii)
  {
    EscapeIsPrinted(t, ascii);
    EnclosedIsPrinted([QUOTE], Escape(t, ascii), [QUOTE], ascii);
  }

  /** A dumped value holds no control character, and with `ensure_ascii` only ASCII, whatever strings are in it. */
  lemma {:induction false} DumpsIsPrinted(v: Value, ascii: bool)
    ensures Printed(Dumps(v, ascii), ascii)
    decreases v, 1
  {
    match v
    case Null => StringIsPrinted("null", ascii);
    case Bool(b) => StringIsPrinted(if b then "true" else "false", ascii);
    case Number(lexeme) => NumbersAreMadeOf(lexeme);
    case Float(float) => StringIsPrinted(FloatName(float), ascii);
    case Str(text) => QuotedIsPrinted(text, ascii);
    case Arr(items) =>
      PunctuationIsPrinted(ascii);
      DumpItemsIsPrinted(items, ascii);
      EnclosedIsPrinted(Ascii("["), DumpItems(items, ascii), Ascii("]"), ascii);
    case Obj(members) =>
      PunctuationIsPrinted(ascii);
      DumpMembersIsPrinted(members, ascii);
      EnclosedIsPrinted(Ascii("{"), DumpMembers(members, ascii), Ascii("}"), ascii);
  }

  lemma {:induction false} DumpItemsIsPrinted(items: seq<Value>, ascii: bool)
    ensures Printed(DumpItems(items, ascii), ascii)
    decreases items, 0
  {
    if items != [] {
      var separator := if |items| > 1 then Ascii(", ") else [];
      DumpsIsPrinted(items[0], ascii);
      DumpItemsIsPrinted(items[1..], ascii);
      PunctuationIsPrinted(ascii);
      EnclosedIsPrinted(Dumps(items[0], ascii), separator, DumpItems(items[1..], ascii), ascii);
    }
  }

  lemma {:induction false} DumpMembersIsPrinted(members: seq<Member>, ascii: bool)
    ensures Printed(DumpMembers(members, ascii), ascii)
    decreases members, 0
  {
    if members != [] {
      var name, value := Quoted(members[0].name, ascii), Dumps(members[0].value, ascii);
      var separator := if |members| > 1 then Ascii(", ") else [];
      QuotedIsPrinted(members[0].name, ascii);
      DumpsIsPrinted(members[0].value, ascii);
      DumpMembersIsPrinted(members[1..], ascii);
      PunctuationIsPrinted(ascii);
      EnclosedIsPrinted(name, Ascii(": "), value, ascii);
      EnclosedIsPrinted(name + Ascii(": ") + value, separator, DumpMembers(members[1..], ascii), ascii);
    }
  }

  lemma DumpsNoControls(v: Value, ascii: bool)
    ensures NoControls(Dumps(v, ascii))
  {
    DumpsIsPrinted(v, ascii);
  }
}
