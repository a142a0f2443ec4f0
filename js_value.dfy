// The JavaScript values the browser scripts pass around, with the parts of the
// language their rules depend on: truthiness and `||`, strict equality,
// property lookup on plain objects, String(v) in template literals, trim(),
// the length of a string and parseInt(). Numbers are integers here; NaN is its own value.

module JsValue {
  import opened Common

  datatype JsVal =
    | Undefined
    | Null
    | Bool(b: bool)
    | Num(n: int)
    | NaN
    | Str(s: string)
    | Obj(fields: map<string, JsVal>)

  /** Falsy are undefined, null, false, 0, NaN and the empty string. */
  predicate Truthy(v: JsVal)
  {
    match v
    case Undefined => false
    case Null => false
    case Bool(b) => b
    case Num(n) => n != 0
    case NaN => false
    case Str(s) => s != ""
    case Obj(_) => true
  }

  /** `a || b`: the first operand when it is truthy, else the second. */
  function Or(a: JsVal, b: JsVal): (r: JsVal)
    ensures Truthy(a) ==> r == a
    ensures !Truthy(a) ==> r == b
  {
    if Truthy(a) then a else b
  }

  /**
   * `a === b` on primitives: same type and same value, and NaN equals nothing.
   * Objects compare by identity, which values do not carry: two object
   * values are never taken to be the same object.
   */
  predicate StrictEq(a: JsVal, b: JsVal)
  {
    a == b && !a.NaN? && !a.Obj?
  }

  /** A property of a plain object; a missing one reads as undefined. */
  function Prop(o: map<string, JsVal>, key: string): JsVal
  {
    if key in o then o[key] else Undefined
  }

  /** String(v), as a template literal `${v}` renders it. */
  function ToStr(v: JsVal): string
  {
    match v
    case Undefined => "undefined"
    case Null => "null"
    case Bool(b) => if b then "true" else "false"
    case Num(n) => IntToString(n)
    case NaN => "NaN"
    case Str(s) => s
    case Obj(_) => "[object Object]"
  }

  /** The white space and line terminators that trim() removes and the regular-expression class \s matches. */
  predicate IsSpace(c: char)
  {
    c == '\t' || c == '\n' || c == '\U{000B}' || c == '\U{000C}' || c == '\r' || c == ' ' ||
    c == '\U{00A0}' || c == '\U{1680}' || ('\U{2000}' <= c <= '\U{200A}') ||
    c == '\U{2028}' || c == '\U{2029}' || c == '\U{202F}' || c == '\U{205F}' || c == '\U{3000}' || c == '\U{FEFF}'
  }

  function TrimStart(s: string): (r: string)
    ensures |r| <= |s| && r == s[|s| - |r|..]
    ensures r != [] ==> !IsSpace(r[0])
    ensures forall i :: 0 <= i < |s| - |r| ==> IsSpace(s[i])
    decreases |s|
  {
    if s != [] && IsSpace(s[0]) then TrimStart(s[1..]) else s
  }

  function TrimEnd(s: string): (r: string)
    ensures |r| <= |s| && r == s[..|r|]
    ensures r != [] ==> !IsSpace(r[|r| - 1])
    ensures forall i :: |r| <= i < |s| ==> IsSpace(s[i])
    decreases |s|
  {
    if s != [] && IsSpace(s[|s| - 1]) then TrimEnd(s[..|s| - 1]) else s
  }

  /** String.prototype.trim */
  function Trim(s: string): (r: string)
  {
    TrimEnd(TrimStart(s))
  }

  /** What trim() leaves is a slice of the input, starting where the leading white space ends. */
  lemma TrimSlice(s: string)
    ensures var i := |s| - |TrimStart(s)|; i + |Trim(s)| <= |s| && Trim(s) == s[i..i + |Trim(s)|]
  {
    var t := TrimStart(s);
    PrefixOfSuffix(s, t, TrimEnd(t), |s| - |t|);
  }

  /** A prefix of a suffix is a slice. */
  lemma PrefixOfSuffix(s: string, t: string, r: string, i: nat)
    requires i <= |s| && t == s[i..] && |r| <= |t| && r == t[..|r|]
    ensures i + |r| <= |s| && r == s[i..i + |r|]
  {
  }

  /** What trim() leaves has no white space at either end. */
  lemma TrimEnds(s: string)
    ensures Trim(s) != [] ==> !IsSpace(Trim(s)[0]) && !IsSpace(Trim(s)[|Trim(s)| - 1])
  {
    var t := TrimStart(s);
    var r := TrimEnd(t);
    if r != [] {
      assert r[0] == t[0];
    }
  }

  /** trim() leaves nothing exactly when the input is all white space. */
  lemma TrimEmpty(s: string)
    ensures Trim(s) == [] <==> forall i :: 0 <= i < |s| ==> IsSpace(s[i])
  {
    TrimStartEmpty(s);
    TrimEndEmpty(TrimStart(s));
  }

  /** trimStart() leaves nothing exactly when the input is all white space. */
  lemma {:induction false} TrimStartEmpty(s: string)
    ensures TrimStart(s) == [] <==> forall i :: 0 <= i < |s| ==> IsSpace(s[i])
    decreases |s|
  {
    if s != [] && IsSpace(s[0]) {
      TrimStartEmpty(s[1..]);
      assert forall i :: 0 < i < |s| ==> s[i] == s[1..][i - 1];
    }
  }

  /** trimEnd() leaves nothing exactly when the input is all white space. */
  lemma {:induction false} TrimEndEmpty(s: string)
    ensures TrimEnd(s) == [] <==> forall i :: 0 <= i < |s| ==> IsSpace(s[i])
    decreases |s|
  {
    if s != [] && IsSpace(s[|s| - 1]) {
      TrimEndEmpty(s[..|s| - 1]);
      assert forall i :: 0 <= i < |s| - 1 ==> s[i] == s[..|s| - 1][i];
    }
  }

  /** The value of a digit in base 10 or 16, if `c` is one. */
  function DigitIn(c: char, radix: nat): Option<nat>
  {
    if '0' <= c <= '9' && (c as int - '0' as int) < radix then Some(c as int - '0' as int)
    else if radix == 16 && 'a' <= c <= 'f' then Some(c as int - 'a' as int + 10)
    else if radix == 16 && 'A' <= c <= 'F' then Some(c as int - 'A' as int + 10)
    else None
  }

  /** The longest prefix of `s` made of digits of the radix. */
  function LeadingDigits(s: string, radix: nat): (r: string)
    ensures |r| <= |s| && r == s[..|r|]
    ensures forall i :: 0 <= i < |r| ==> DigitIn(r[i], radix).Some?
    ensures |r| < |s| ==> DigitIn(s[|r|], radix).None?
    decreases |s|
  {
    if s != [] && DigitIn(s[0], radix).Some? then [s[0]] + LeadingDigits(s[1..], radix) else []
  }

  function DigitsIn(s: string, radix: nat): nat
    requires forall i :: 0 <= i < |s| ==> DigitIn(s[i], radix).Some?
    decreases |s|
  {
    if s == [] then 0 else DigitsIn(s[..|s| - 1], radix) * radix + DigitIn(s[|s| - 1], radix).value
  }

  /**
   * parseInt(s) without a radix: leading white space is skipped, then an
   * optional sign, then a 0x or 0X prefix selects base 16; the longest run of
   * digits that follows is the value, and no digits at all is NaN.
   */
  function ParseInt(s: string): (r: JsVal)
    ensures r.Num? || r.NaN?
    decreases |s|
  {
    if s != [] && IsSpace(s[0]) then ParseInt(s[1..])
    else if s != [] && s[0] == '-' then
      match Unsigned(s[1..]) case None => NaN case Some(v) => Num(-(v as int))
    else if s != [] && s[0] == '+' then
      match Unsigned(s[1..]) case None => NaN case Some(v) => Num(v)
    else
      match Unsigned(s) case None => NaN case Some(v) => Num(v)
  }

  /** Leading white space does not change what parseInt reads. */
  lemma {:induction false} ParseIntSkipsSpace(s: string)
    ensures ParseInt(s) == ParseInt(TrimStart(s))
    decreases |s|
  {
    if s != [] && IsSpace(s[0]) {
      ParseIntSkipsSpace(s[1..]);
    }
  }

  /** The digits after the sign: a 0x or 0X prefix selects base 16; no digits at all is NaN. */
  function Unsigned(u: string): Option<nat>
  {
    var hex := |u| >= 2 && u[0] == '0' && (u[1] == 'x' || u[1] == 'X');
    var radix := if hex then 16 else 10;
    var digits := LeadingDigits(if hex then u[2..] else u, radix);
    if digits == [] then None else Some(DigitsIn(digits, radix))
  }

  /** parseInt reads back the number String(n) renders, which is how numeric ids travel through DOM attributes and object keys. */
  lemma ParseIntOfRendered(n: int)
    ensures ParseInt(ToStr(Num(n))) == Num(n)
  {
    var m: nat := if n < 0 then -n else n;
    var d := NatToString(m);
    NatToStringValue(m);
    ParseDigits(d);
    if n < 0 {
      assert IntToString(n) == "-" + d;
    }
  }

  /** A run of decimal digits, with or without a minus sign in front, parses to its value. */
  lemma ParseDigits(d: string)
    requires d != [] && AllDigits(d)
    ensures ParseInt(d) == Num(DigitsValue(d))
    ensures ParseInt("-" + d) == Num(-(DigitsValue(d) as int))
  {
    UnsignedDigits(d);
    assert !IsSpace(d[0]);
    assert ("-" + d)[0] == '-' && ("-" + d)[1..] == d;
  }

  lemma UnsignedDigits(d: string)
    requires d != [] && AllDigits(d)
    ensures Unsigned(d) == Some(DigitsValue(d))
  {
    DecimalDigits(d);
    assert LeadingDigits(d, 10) == d;
  }

  lemma {:induction false} DecimalDigits(d: string)
    requires AllDigits(d)
    ensures forall i :: 0 <= i < |d| ==> DigitIn(d[i], 10).Some?
    ensures DigitsIn(d, 10) == DigitsValue(d)
    ensures |d| >= 2 ==> !(d[0] == '0' && (d[1] == 'x' || d[1] == 'X'))
    decreases |d|
  {
    if d != [] {
      DecimalDigits(d[..|d| - 1]);
    }
  }

  /** Text that does not start with a digit, a sign or white space is NaN to parseInt. */
  lemma ParseIntOfNonNumeric(s: string)
    requires s != [] && !IsSpace(s[0]) && !('0' <= s[0] <= '9') && s[0] != '-' && s[0] != '+'
    ensures ParseInt(s) == NaN
  {
  }

  /** A string's `length`: its UTF-16 code units, two for a character above U+FFFF. */
  function JsLength(s: string): (r: nat)
    ensures |s| <= r <= 2 * |s|
    decreases |s|
  {
    if s == [] then 0 else (if s[0] <= '\U{FFFF}' then 1 else 2) + JsLength(s[1..])
  }

  /** Text of characters up to U+FFFF is as long in UTF-16 units as in characters. */
  lemma {:induction false} JsLengthBasic(s: string)
    requires forall i :: 0 <= i < |s| ==> s[i] <= '\U{FFFF}'
    ensures JsLength(s) == |s|
    decreases |s|
  {
    if s != [] {
      JsLengthBasic(s[1..]);
    }
  }

  /** Each character above U+FFFF counts twice. */
  lemma {:induction false} JsLengthAstral(s: string)
    requires forall i :: 0 <= i < |s| ==> s[i] > '\U{FFFF}'
    ensures JsLength(s) == 2 * |s|
    decreases |s|
  {
    if s != [] {
      JsLengthAstral(s[1..]);
    }
  }
}
