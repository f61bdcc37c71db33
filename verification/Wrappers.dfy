/** Optional values and results, the shape in which the model carries None and exceptions. */
module Wrappers {

  datatype Option<+T> = None | Some(value: T)

  datatype Result<+T, +E> = Success(value: T) | Failure(error: E)

  /** A value that Python takes for true. */
  predicate Truthy(s: Option<string>) { s.Some? && s.value != "" }

  /** Python's `a or b`. */
  function Or(a: Option<string>, b: Option<string>): Option<string> { if Truthy(a) then a else b }
}

/** Decimal numerals, and the numbers they denote. */
module Numerals {
  import opened Wrappers

  predicate IsNumeral(c: char) { '0' <= c <= '9' }

  predicate AllNumerals(s: string) { forall i :: 0 <= i < |s| ==> IsNumeral(s[i]) }

  function ValueOf(s: string): nat
    requires AllNumerals(s)
  {
    if s == "" then 0 else 10 * ValueOf(s[..|s| - 1]) + (s[|s| - 1] as int - '0' as int)
  }

  function Numeral(n: nat): (s: string)
    ensures s != "" && (if n == 0 then s == "0" else s[0] != '0')
    ensures AllNumerals(s) && ValueOf(s) == n
  {
    var digit := ('0' as int + n % 10) as char;
    if n < 10 then ValueSnoc("", digit); assert "" + [digit] == [digit]; [digit]
    else
      var front := Numeral(n / 10);
      ValueSnoc(front, digit);
      front + [digit]
  }

  lemma ValueSnoc(s: string, c: char)
    requires AllNumerals(s) && IsNumeral(c)
    ensures AllNumerals(s + [c]) && ValueOf(s + [c]) == 10 * ValueOf(s) + (c as int - '0' as int)
  {
    assert (s + [c])[..|s|] == s;
  }

  /** `str` of an integer. */
  function Decimal(n: int): (s: string)
    ensures s != "" && s != "-"
    ensures IntegerOf(s) == Some(n)
  {
    if n < 0 then "-" + Numeral(-n) else Numeral(n)
  }

  /** The integer a text denotes, if it is one in decimal. */
  function IntegerOf(s: string): Option<int>
  {
    if s != "" && s[0] == '-' then
      if s[1..] != "" && AllNumerals(s[1..]) then var n: int := 0 - ValueOf(s[1..]); Some(n) else None
    else if s != "" && AllNumerals(s) then Some(ValueOf(s)) else None
  }
}
