/** The slice of JavaScript value semantics that the server and the client
    rely on: JSON request values, truthiness, `Number(...)`, `String(...)`,
    the `\s` character class and ASCII `toLowerCase`.

    A JSON object is a `map<string, Json>`; a key that is absent reads as
    `undefined`, which is `None` in an `Option<Json>`. Numbers are integers
    (see README, "Left out"). */
module Js {

  datatype Option<+T> = None | Some(value: T) {
    function GetOr(default: T): T {
      match this
      case Some(v) => v
      case None => default
    }
  }

  /** A JSON value as it arrives in a parsed request or response body. */
  datatype Json = JNull | JBool(b: bool) | JNum(n: int) | JStr(s: string)

  /** The result of JavaScript's `Number(...)`: NaN or an integer value. */
  datatype JsNumber = NaN | Num(v: int)

  /** Looks a key up in a JSON object; an absent key is `undefined`. */
  function Get(m: map<string, Json>, key: string): (r: Option<Json>)
    ensures r.Some? <==> key in m
    ensures r.Some? ==> r.value == m[key]
  {
    if key in m then Some(m[key]) else None
  }

  /** `undefined`, `null`, `false`, `0` and `""` are falsy; everything else is truthy. */
  predicate Truthy(v: Option<Json>) {
    match v
    case None => false
    case Some(JNull) => false
    case Some(JBool(b)) => b
    case Some(JNum(n)) => n != 0
    case Some(JStr(s)) => s != ""
  }

  /** `null` or `undefined`: the values that `??` skips. */
  predicate Nullish(v: Option<Json>) {
    v == None || v == Some(JNull)
  }

  /** The characters matched by the regular-expression class `\s`; the same
      set is the white space that `Number(string)` trims. */
  predicate IsSpace(c: char) {
    || c == '\t' || c == '\n' || c == '\U{000B}' || c == '\U{000C}' || c == '\r'
    || c == ' ' || c == '\U{00A0}' || c == '\U{1680}'
    || ('\U{2000}' <= c <= '\U{200A}')
    || c == '\U{2028}' || c == '\U{2029}' || c == '\U{202F}' || c == '\U{205F}'
    || c == '\U{3000}' || c == '\U{FEFF}'
  }

  predicate IsDigit(c: char) {
    '0' <= c <= '9'
  }

  predicate AllDigits(s: string) {
    forall i :: 0 <= i < |s| ==> IsDigit(s[i])
  }

  function TrimStart(s: string): (r: string)
    ensures |r| <= |s| && r == s[|s| - |r|..]
    ensures r == [] || !IsSpace(r[0])
    ensures forall i :: 0 <= i < |s| - |r| ==> IsSpace(s[i])
  {
    if s != [] && IsSpace(s[0]) then TrimStart(s[1..]) else s
  }

  function TrimEnd(s: string): (r: string)
    ensures |r| <= |s| && r == s[..|r|]
    ensures r == [] || !IsSpace(r[|r| - 1])
    ensures forall i :: |r| <= i < |s| ==> IsSpace(s[i])
  {
    if s != [] && IsSpace(s[|s| - 1]) then TrimEnd(s[..|s| - 1]) else s
  }

  /** `String.prototype.trim`. */
  function Trim(s: string): string {
    TrimEnd(TrimStart(s))
  }

  function DigitValue(c: char): (d: nat)
    requires IsDigit(c)
    ensures d < 10
  {
    (c as int - '0' as int) as nat
  }

  function DigitChar(d: nat): (c: char)
    requires d < 10
    ensures IsDigit(c) && DigitValue(c) == d
  {
    (d + '0' as int) as char
  }

  /** The value of a string of decimal digits, most significant first. */
  function DigitsValue(s: string): nat
    requires AllDigits(s)
  {
    if s == [] then 0 else DigitsValue(s[..|s| - 1]) * 10 + DigitValue(s[|s| - 1])
  }

  /** A trimmed numeric literal: empty (0), or an optional sign followed by
      decimal digits; anything else is NaN. */
  function ParseTrimmed(t: string): JsNumber {
    if t == [] then Num(0)
    else if AllDigits(t) then Num(DigitsValue(t))
    else if |t| > 1 && (t[0] == '+' || t[0] == '-') && AllDigits(t[1..]) then
      (if t[0] == '-' then Num(0 - DigitsValue(t[1..]) as int) else Num(DigitsValue(t[1..])))
    else NaN
  }

  /** `Number(s)` for a string. */
  function StringToNumber(s: string): JsNumber {
    ParseTrimmed(Trim(s))
  }

  /** `Number(v)`, with `None` standing for `undefined`. */
  function ToNumber(v: Option<Json>): (r: JsNumber)
    ensures v == None ==> r == NaN
    ensures v == Some(JNull) ==> r == Num(0)
    ensures forall n :: v == Some(JNum(n)) ==> r == Num(n)
  {
    match v
    case None => NaN
    case Some(JNull) => Num(0)
    case Some(JBool(b)) => if b then Num(1) else Num(0)
    case Some(JNum(n)) => Num(n)
    case Some(JStr(s)) => StringToNumber(s)
  }

  /** The decimal digits of a natural number, without leading zeros. */
  function NatToDecimal(n: nat): (r: string)
    ensures |r| > 0 && AllDigits(r)
    ensures DigitsValue(r) == n
    ensures |r| > 1 ==> r[0] != '0'
  {
    if n < 10 then [DigitChar(n)]
    else
      var r := NatToDecimal(n / 10) + [DigitChar(n % 10)];
      assert r[..|r| - 1] == NatToDecimal(n / 10);
      r
  }

  /** `String(n)` for an integer. */
  function IntToDecimal(i: int): string {
    if i < 0 then "-" + NatToDecimal(-i) else NatToDecimal(i)
  }

  /** `String(v)`, with `None` standing for `undefined`. */
  function ToJsString(v: Option<Json>): (r: string)
    ensures v == None ==> r == "undefined"
    ensures forall s :: v == Some(JStr(s)) ==> r == s
  {
    match v
    case None => "undefined"
    case Some(JNull) => "null"
    case Some(JBool(b)) => if b then "true" else "false"
    case Some(JNum(n)) => IntToDecimal(n)
    case Some(JStr(s)) => s
  }

  function LowerChar(c: char): (r: char)
    ensures 'A' <= c <= 'Z' ==> 'a' <= r <= 'z'
    ensures !('A' <= c <= 'Z') ==> r == c
  {
    if 'A' <= c <= 'Z' then (c as int + 32) as char else c
  }

  /** `String.prototype.toLowerCase`, on the ASCII letters. */
  function ToLowerAscii(s: string): (r: string)
    ensures |r| == |s|
    ensures forall i :: 0 <= i < |s| ==> r[i] == LowerChar(s[i])
  {
    if s == [] then [] else [LowerChar(s[0])] + ToLowerAscii(s[1..])
  }

  /** A string with no white space at either end is its own trim. */
  lemma TrimUnchanged(s: string)
    requires s == [] || (!IsSpace(s[0]) && !IsSpace(s[|s| - 1]))
    ensures Trim(s) == s
  {
  }

  /** `Number(String(n)) == n` for every integer `n`. */
  lemma {:induction false} NumberOfStringRoundTrip(n: int)
    ensures StringToNumber(IntToDecimal(n)) == Num(n)
  {
    var t := IntToDecimal(n);
    TrimUnchanged(t);
    if n < 0 {
      var d := NatToDecimal(-n);
      assert t[1..] == d;
      assert !AllDigits(t) by { assert !IsDigit(t[0]); }
    }
  }
}
