/** Decoded JSON values as the Python adapter sees them, and the small
    coercions it applies to them: truthiness (`bool(x)`), integer conversion
    (`int(x)`), `str.strip()`, `str.lower()`, `str.rstrip('/')` and the
    decimal rendering of integers. */
module PyJson {

  datatype Option<+T> = None | Some(value: T) {
    /** The wrapped value, or `default` when there is none. */
    function GetOr(default: T): T {
      match this
      case Some(v) => v
      case None => default
    }
  }

  datatype Result<+T, +E> = Ok(value: T) | Err(error: E)

  /** A value produced by Python's `json` decoder. A JSON number with a
      fraction or an exponent is kept as the decimal `digits / 10^scale`. */
  datatype Json =
    | JNull
    | JBool(b: bool)
    | JInt(i: int)
    | JFloat(digits: int, scale: nat)
    | JStr(s: string)
    | JArr(items: seq<Json>)
    | JObj(fields: map<string, Json>)

  /** Python's `bool(x)` on a decoded value. */
  predicate Truthy(j: Json) {
    match j
    case JNull => false
    case JBool(b) => b
    case JInt(i) => i != 0
    case JFloat(d, _) => d != 0
    case JStr(s) => |s| > 0
    case JArr(items) => |items| > 0
    case JObj(fields) => |fields| > 0
  }

  /** `dict.get(key, default)` on the fields of an object. */
  function DictGet(fields: map<string, Json>, key: string, default: Json): Json {
    if key in fields then fields[key] else default
  }

  const EmptyObject: Json := JObj(map[])

  // ---------------------------------------------------------------------
  // Characters and strings
  // ---------------------------------------------------------------------

  predicate IsDigit(c: char) { '0' <= c <= '9' }

  predicate IsDigits(s: string) {
    |s| > 0 && forall i :: 0 <= i < |s| ==> IsDigit(s[i])
  }

  /** The blanks `int()` skips among ASCII characters: space, tab, line
      feed, vertical tab, form feed, carriage return. `str.strip()` also
      removes U+001C to U+001F, and both skip non-ASCII whitespace such as
      U+0085 and U+00A0; `Strip` below uses this predicate and omits those. */
  predicate IsSpace(c: char) { c == ' ' || 9 <= c as int <= 13 }

  function DigitValue(c: char): nat
    requires IsDigit(c)
  {
    (c as int) - ('0' as int)
  }

  function DigitChar(d: nat): char
    requires d < 10
  {
    (('0' as int) + d) as char
  }

  /** The number a run of decimal digits denotes, most significant first. */
  function DigitsValue(s: string): nat
    requires forall i :: 0 <= i < |s| ==> IsDigit(s[i])
  {
    if |s| == 0 then 0 else DigitsValue(s[..|s| - 1]) * 10 + DigitValue(s[|s| - 1])
  }

  /** Decimal rendering of a natural number; reading it back gives `n`. */
  function NatToString(n: nat): (s: string)
    ensures IsDigits(s)
    ensures DigitsValue(s) == n
  {
    if n < 10 then [DigitChar(n)]
    else
      var prefix := NatToString(n / 10);
      var s := prefix + [DigitChar(n % 10)];
      assert s[..|s| - 1] == prefix;
      s
  }

  /** Decimal rendering of an integer, as Python's `str(n)` and
      JavaScript's template literals write it. */
  function IntToString(n: int): (s: string)
    ensures |s| > 0 && (IsDigit(s[0]) || s[0] == '-') && IsDigit(s[|s| - 1])
    ensures forall i :: 0 <= i < |s| ==> s[i] != ' '
  {
    if n < 0 then "-" + NatToString(-n) else NatToString(n)
  }

  /** `s.lstrip()` restricted to ASCII whitespace. */
  function StripLeft(s: string): string {
    if |s| > 0 && IsSpace(s[0]) then StripLeft(s[1..]) else s
  }

  /** `lstrip` cuts off a run of whitespace and leaves a suffix that does
      not start with whitespace. */
  lemma {:induction false} StripLeftCuts(s: string)
    ensures var r := StripLeft(s);
            && |r| <= |s| && r == s[|s| - |r|..]
            && (forall i :: 0 <= i < |s| - |r| ==> IsSpace(s[i]))
            && (|r| == 0 || !IsSpace(r[0]))
  {
    if |s| > 0 && IsSpace(s[0]) {
      StripLeftCuts(s[1..]);
    }
  }

  /** `s.rstrip()` restricted to ASCII whitespace. */
  function StripRight(s: string): string {
    if |s| > 0 && IsSpace(s[|s| - 1]) then StripRight(s[..|s| - 1]) else s
  }

  /** `rstrip` cuts off a run of whitespace and leaves a prefix that does
      not end with whitespace. */
  lemma {:induction false} StripRightCuts(s: string)
    ensures var r := StripRight(s);
            && |r| <= |s| && r == s[..|r|]
            && (forall i :: |r| <= i < |s| ==> IsSpace(s[i]))
            && (|r| == 0 || !IsSpace(r[|r| - 1]))
  {
    if |s| > 0 && IsSpace(s[|s| - 1]) {
      StripRightCuts(s[..|s| - 1]);
    }
  }

  /** `s.strip()` restricted to ASCII whitespace. */
  function Strip(s: string): string {
    StripRight(StripLeft(s))
  }

  /** `s.rstrip('/')`: the longest prefix of `s` not ending in a slash, where
      everything cut off is slashes. */
  function RStripSlash(s: string): (r: string)
    ensures |r| <= |s| && r == s[..|r|]
    ensures forall i :: |r| <= i < |s| ==> s[i] == '/'
    ensures |r| == 0 || r[|r| - 1] != '/'
  {
    if |s| > 0 && s[|s| - 1] == '/' then RStripSlash(s[..|s| - 1]) else s
  }

  function LowerChar(c: char): char {
    if 'A' <= c <= 'Z' then ((c as int) + 32) as char else c
  }

  /** `s.lower()` restricted to ASCII letters. */
  function Lower(s: string): (r: string)
    ensures |r| == |s|
    ensures forall i :: 0 <= i < |s| ==> r[i] == LowerChar(s[i])
  {
    if |s| == 0 then [] else [LowerChar(s[0])] + Lower(s[1..])
  }

  // ---------------------------------------------------------------------
  // int(x)
  // ---------------------------------------------------------------------

  /** `int(s)` on a string, simplified: surrounding ASCII whitespace, one
      optional sign and at least one decimal digit; anything else is the
      ValueError branch (`None`). */
  function ParseInt(s: string): Option<int> {
    var t := Strip(s);
    if |t| > 0 && (t[0] == '-' || t[0] == '+') then
      if IsDigits(t[1..]) then
        Some(if t[0] == '-' then 0 - DigitsValue(t[1..]) as int else DigitsValue(t[1..]))
      else None
    else if IsDigits(t) then Some(DigitsValue(t))
    else None
  }

  function Pow10(n: nat): (r: nat)
    ensures r >= 1
  {
    if n == 0 then 1 else 10 * Pow10(n - 1)
  }

  /** Division truncating toward zero, as `int()` does to a float. */
  function TruncDiv(a: int, b: nat): int
    requires b > 0
  {
    if a >= 0 then a / b else -((-a) / b)
  }

  /** Python's `int(x)` on a decoded value: `None` stands for the
      TypeError (null, list, dict) and ValueError (unparseable string)
      branches the adapter catches. */
  function PyInt(j: Json): Option<int> {
    match j
    case JNull => None
    case JBool(b) => Some(if b then 1 else 0)
    case JInt(i) => Some(i)
    case JFloat(d, sc) => Some(TruncDiv(d, Pow10(sc)))
    case JStr(s) => ParseInt(s)
    case JArr(_) => None
    case JObj(_) => None
  }

  /** `str(x)` for the scalar values a token can be. */
  function PyStr(j: Json): string {
    match j
    case JStr(s) => s
    case JInt(i) => IntToString(i)
    case JBool(b) => if b then "True" else "False"
    case JNull => "None"
    case _ => ""
  }

  // ---------------------------------------------------------------------
  // Properties
  // ---------------------------------------------------------------------

  /** A rendered integer has no surrounding whitespace, so `strip()` keeps it. */
  lemma StripKeepsIntString(n: int)
    ensures Strip(IntToString(n)) == IntToString(n)
  {
    var s := IntToString(n);
    assert StripLeft(s) == s by {
      assert !IsSpace(s[0]);
    }
    assert !IsSpace(s[|s| - 1]);
  }

  /** `int(str(n)) == n`: parsing inverts the decimal rendering. */
  lemma ParseIntRoundTrip(n: int)
    ensures ParseInt(IntToString(n)) == Some(n)
  {
    StripKeepsIntString(n);
    var s := IntToString(n);
    if n < 0 {
      assert s[1..] == NatToString(-n);
    } else {
      assert s[0] != '-' && s[0] != '+';
    }
  }

  /** The rendering is injective: different integers print differently. */
  lemma IntToStringInjective(a: int, b: int)
    requires IntToString(a) == IntToString(b)
    ensures a == b
  {
    ParseIntRoundTrip(a);
    ParseIntRoundTrip(b);
  }

  /** `int()` converts a JSON string holding a rendered integer back to it,
      and refuses containers and null. */
  lemma PyIntCoercion(n: int, items: seq<Json>, fields: map<string, Json>)
    ensures PyInt(JStr(IntToString(n))) == Some(n)
    ensures PyInt(JArr(items)) == None && PyInt(JObj(fields)) == None && PyInt(JNull) == None
    ensures PyInt(JBool(true)) == Some(1) && PyInt(JInt(n)) == Some(n)
  {
    ParseIntRoundTrip(n);
  }
}
