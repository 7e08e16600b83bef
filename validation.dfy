/**
 * The Laravel validation rules the controllers use: `required`, `string` and
 * `integer`, over request values as decoded JSON (an absent field reads as null).
 */
module Validation {
  import opened Wrappers
  import opened PhpJson
  import opened Decimal

  /** A request's input: field name to value. */
  type Input = map<string, Json>

  /** `$request->field`: null when the field is absent. */
  function Field(req: Input, k: string): Json {
    if k in req then req[k] else JNull
  }

  /** The characters PHP's `trim` removes by default: " \t\n\r\0\x0B". */
  predicate TrimChar(c: char) {
    c == ' ' || c == '\t' || c == '\n' || c == '\r' || c == '\0' || c as int == 11
  }

  /** `trim($s) === ''`. */
  predicate Blank(s: string) {
    forall i :: 0 <= i < |s| ==> TrimChar(s[i])
  }

  /** `required`: not null, not a blank string, not an empty array. */
  predicate Required(v: Json) {
    match v
    case JNull => false
    case JStr(s) => !Blank(s)
    case JArr(items) => |items| > 0
    case JObj(fields) => |fields| > 0
    case _ => true
  }

  /** `required|string`. */
  predicate RequiredString(v: Json) {
    Required(v) && v.JStr?
  }

  const Int64Min: int := -0x8000_0000_0000_0000
  const Int64Max: int := 0x7FFF_FFFF_FFFF_FFFF

  predicate InInt64(n: int) {
    Int64Min <= n <= Int64Max
  }

  /** The characters `filter_var` strips around a number: space, \t, \r, \v, \n. */
  predicate FilterTrimChar(c: char) {
    c == ' ' || c == '\t' || c == '\r' || c == '\n' || c as int == 11
  }

  function TrimLeft(s: string): (r: string)
    ensures |r| <= |s| && r == s[|s| - |r|..]
    ensures |r| > 0 ==> !FilterTrimChar(r[0])
    ensures forall i :: 0 <= i < |s| - |r| ==> FilterTrimChar(s[i])
  {
    if |s| > 0 && FilterTrimChar(s[0]) then TrimLeft(s[1..]) else s
  }

  function TrimRight(s: string): (r: string)
    ensures |r| <= |s| && r == s[..|r|]
    ensures |r| > 0 ==> !FilterTrimChar(r[|r| - 1])
    ensures forall i :: |r| <= i < |s| ==> FilterTrimChar(s[i])
  {
    if |s| > 0 && FilterTrimChar(s[|s| - 1]) then TrimRight(s[..|s| - 1]) else s
  }

  /** `s` is the text of `n`: its decimal text, that text after a plus sign, or "-0" for zero. */
  predicate IsIntText(s: string, n: int) {
    s == IntToDecimal(n) || (n >= 0 && s == "+" + IntToDecimal(n)) || (n == 0 && s == "-0")
  }

  /** An optional sign followed by "0" or by digits without a leading zero, within
      the 64-bit range: the text `FILTER_VALIDATE_INT` accepts once trimmed. */
  function IntLiteral(s: string): (r: Option<int>)
    ensures r.Some? ==> InInt64(r.value)
    ensures r.Some? ==> IsIntText(s, r.value)
  {
    var negative := |s| > 0 && s[0] == '-';
    var digits := if |s| > 0 && (s[0] == '-' || s[0] == '+') then s[1..] else s;
    if |digits| > 0 && AllDigits(digits) && (digits == "0" || digits[0] != '0') then
      NatToDecimalOfDigitsValue(digits);
      var m: int := DigitsValue(digits);
      var v := if negative then -m else m;
      if InInt64(v) then Some(v) else None
    else None
  }

  /** `filter_var($v, FILTER_VALIDATE_INT)`, the test behind the `integer` rule:
      the integer it yields, or None where it returns false. A JSON integer outside
      the 64-bit range decodes to a float and fails; `true` reads as "1". */
  function FilterInt(v: Json): (r: Option<int>)
    ensures r.Some? ==> InInt64(r.value)
    ensures v.JStr? && r.Some? ==> IsIntText(TrimRight(TrimLeft(v.s)), r.value)
    ensures v == JBool(true) ==> r == Some(1)
    ensures v.JNum? && !InInt64(v.n) ==> r.None?
  {
    match v
    case JNum(n) => if InInt64(n) then Some(n) else None
    case JBool(b) => if b then Some(1) else None
    case JStr(s) => IntLiteral(TrimRight(TrimLeft(s)))
    case _ => None
  }

  /** `required|integer`. */
  predicate RequiredInteger(v: Json) {
    Required(v) && FilterInt(v).Some?
  }

  /** Text that starts and ends with a non-space character is left as it is. */
  lemma TrimUntouched(s: string)
    requires |s| == 0 || (!FilterTrimChar(s[0]) && !FilterTrimChar(s[|s| - 1]))
    ensures TrimRight(TrimLeft(s)) == s
  {
  }

  /** The decimal text of a 64-bit integer is an accepted literal for it. */
  lemma IntLiteralOfDecimal(n: int)
    requires InInt64(n)
    ensures IntLiteral(IntToDecimal(n)) == Some(n)
  {
    var a: nat := if n < 0 then -n else n;
    var d := NatToDecimal(a);
    DigitsValueOfNatToDecimal(a);
    var s := IntToDecimal(n);
    if n < 0 {
      assert s[0] == '-' && s[1..] == d;
    } else {
      assert s == d && IsDigit(s[0]);
    }
  }

  /** Every 64-bit integer, sent as a JSON number or as its decimal text, passes
      `integer` and reads back as itself. */
  lemma FilterIntAcceptsDecimalText(n: int)
    requires InInt64(n)
    ensures FilterInt(JNum(n)) == Some(n)
    ensures FilterInt(JStr(IntToDecimal(n))) == Some(n)
  {
    var s := IntToDecimal(n);
    assert IsDigit(s[|s| - 1]);
    TrimUntouched(s);
    IntLiteralOfDecimal(n);
  }

  /** Text with a leading zero, a fraction, or nothing at all is refused, and so is `false`. */
  lemma FilterIntRefusals()
    ensures FilterInt(JStr("007")) == None
    ensures FilterInt(JStr("1.5")) == None
    ensures FilterInt(JStr("")) == None
    ensures FilterInt(JBool(false)) == None
  {
    TrimUntouched("007");
    TrimUntouched("1.5");
    TrimUntouched("");
    assert !AllDigits("1.5") by { assert !IsDigit("1.5"[1]); }
  }
}
