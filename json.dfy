// Decoded JSON as the Python views see it (json.loads / request.data), with the
// pieces of Python semantics the views rely on: truthiness, `== 0`, int(),
// str() and repr() of a value, dict.get with a default, and hashability of
// dict keys. Numbers are integers; JSON fractions are not part of this model.

module Json {
  import opened Common

  datatype Value =
    | JNull
    | JBool(b: bool)
    | JInt(i: int)
    | JStr(s: string)
    | JList(items: seq<Value>)
    | JObj(fields: map<string, Value>)

  /** Python's bool(v). */
  predicate Truthy(v: Value)
  {
    match v
    case JNull => false
    case JBool(b) => b
    case JInt(i) => i != 0
    case JStr(s) => s != ""
    case JList(items) => items != []
    case JObj(fields) => fields != map[]
  }

  /** Python's `v == 0`: true for 0 and for False (bool is a subclass of int). */
  predicate EqualsZero(v: Value)
  {
    v == JInt(0) || v == JBool(false)
  }

  /** Values Python can use as dict keys: lists and dicts are unhashable. */
  predicate Hashable(v: Value)
  {
    !v.JList? && !v.JObj?
  }

  /** The name Python gives the type of a decoded value. */
  function TypeName(v: Value): string
  {
    match v
    case JNull => "NoneType"
    case JBool(_) => "bool"
    case JInt(_) => "int"
    case JStr(_) => "str"
    case JList(_) => "list"
    case JObj(_) => "dict"
  }

  /**
   * dict.get(key, default) on a value that must be a dict; on anything else the
   * attribute lookup raises AttributeError, whose text is the error.
   */
  function Get(v: Value, key: string, default: Value): (r: Result<Value, string>)
    ensures r.Ok? <==> v.JObj?
    ensures v.JObj? && key in v.fields ==> r == Ok(v.fields[key])
    ensures v.JObj? && key !in v.fields ==> r == Ok(default)
  {
    if !v.JObj? then Err("'" + TypeName(v) + "' object has no attribute 'get'")
    else if key in v.fields then Ok(v.fields[key])
    else Ok(default)
  }

  /** `key in d` on a dict value. */
  predicate Has(v: Value, key: string)
  {
    v.JObj? && key in v.fields
  }

  /** str() of None, a bool or an int. */
  function ScalarStr(v: Value): string
  {
    match v
    case JBool(b) => if b then "True" else "False"
    case JInt(i) => IntToString(i)
    case _ => "None"
  }

  /** A lower-case hexadecimal digit. */
  function HexDigit(d: nat): char
    requires d < 16
  {
    if d < 10 then ('0' as int + d) as char else ('a' as int + d - 10) as char
  }

  /**
   * One character of a string as repr() writes it between quotes `q`: the
   * quote and the backslash escaped, tab, newline and carriage return by name,
   * the other control characters of Latin-1 and the soft hyphen as \xhh.
   */
  function EscapeChar(c: char, q: char): string
  {
    if c == q || c == '\\' then ['\\', c]
    else if c == '\t' then "\\t"
    else if c == '\n' then "\\n"
    else if c == '\r' then "\\r"
    else if c < ' ' || ('\U{007F}' <= c <= '\U{00A0}') || c == '\U{00AD}' then
      ['\\', 'x', HexDigit(c as int / 16), HexDigit(c as int % 16)]
    else [c]
  }

  function Escaped(s: string, q: char): string
    decreases |s|
  {
    if s == [] then [] else EscapeChar(s[0], q) + Escaped(s[1..], q)
  }

  /** repr() of a string: in single quotes, or in double quotes when it holds a single quote and no double one. */
  function StrRepr(s: string): (r: string)
    ensures |r| >= 2 && r[0] == r[|r| - 1] && (r[0] == '\'' || r[0] == '"')
  {
    var q := if '\'' in s && '"' !in s then '"' else '\'';
    [q] + Escaped(s, q) + [q]
  }

  /** The items joined by ", ". */
  function CommaJoin(xs: seq<string>): string
    decreases |xs|
  {
    if xs == [] then "" else if |xs| == 1 then xs[0] else xs[0] + ", " + CommaJoin(xs[1..])
  }

  /**
   * Python's repr(): a list as its items' reprs in brackets, a dict as
   * `key: value` pairs in braces. A map keeps no order of its own, so the
   * pairs are taken in ascending key order where Python keeps the order in
   * which the JSON text listed them.
   */
  function PyRepr(v: Value): (r: string)
    ensures v.JList? ==> |r| >= 2 && r[0] == '[' && r[|r| - 1] == ']'
    ensures v.JObj? ==> |r| >= 2 && r[0] == '{' && r[|r| - 1] == '}'
    ensures v.JStr? ==> r == StrRepr(v.s)
    ensures !v.JStr? && !v.JList? && !v.JObj? ==> r == ScalarStr(v)
    decreases v
  {
    match v
    case JStr(s) => StrRepr(s)
    case JList(items) => "[" + CommaJoin(seq(|items|, i requires 0 <= i < |items| => PyRepr(items[i]))) + "]"
    case JObj(fields) =>
      var ks := SortedKeys(fields.Keys);
      "{" + CommaJoin(seq(|ks|, i requires 0 <= i < |ks| => StrRepr(ks[i]) + ": " + PyRepr(fields[ks[i]]))) + "}"
    case _ => ScalarStr(v)
  }

  /** Python's str(): a string is itself, anything else its repr(). */
  function PyStr(v: Value): (r: string)
    ensures v.JStr? ==> r == v.s
    ensures !v.JStr? ==> r == PyRepr(v)
  {
    if v.JStr? then v.s else PyRepr(v)
  }

  /** A string without quotes, backslashes or control characters is shown in single quotes as it is. */
  lemma {:induction false} PlainStrRepr(s: string)
    requires forall i :: 0 <= i < |s| ==> ' ' <= s[i] <= '~' && s[i] != '\'' && s[i] != '\\'
    ensures StrRepr(s) == "'" + s + "'"
  {
    PlainEscaped(s);
    assert '\'' !in s by {
      forall i | 0 <= i < |s| ensures s[i] != '\'' { }
    }
  }

  lemma {:induction false} PlainEscaped(s: string)
    requires forall i :: 0 <= i < |s| ==> ' ' <= s[i] <= '~' && s[i] != '\'' && s[i] != '\\'
    ensures Escaped(s, '\'') == s
    decreases |s|
  {
    if s != [] {
      PlainEscaped(s[1..]);
      assert s == [s[0]] + s[1..];
    }
  }

  /** Printable ASCII other than the quote and the backslash is written between quotes `q` as it is. */
  lemma {:induction false} PlainEscapedIn(s: string, q: char)
    requires forall i :: 0 <= i < |s| ==> ' ' <= s[i] <= '~' && s[i] != q && s[i] != '\\'
    ensures Escaped(s, q) == s
    decreases |s|
  {
    if s != [] {
      PlainEscapedIn(s[1..], q);
      assert s == [s[0]] + s[1..];
    }
  }

  /** str() of a list of one plain string is that string quoted in brackets, never the empty string. */
  lemma ListOfOneStr(x: string)
    requires forall i :: 0 <= i < |x| ==> ' ' <= x[i] <= '~' && x[i] != '\'' && x[i] != '\\'
    ensures PyStr(JList([JStr(x)])) == "['" + x + "']"
  {
    var items := [JStr(x)];
    PlainStrRepr(x);
    assert seq(|items|, i requires 0 <= i < |items| => PyRepr(items[i])) == [StrRepr(x)];
    assert CommaJoin([StrRepr(x)]) == StrRepr(x);
    assert PyStr(JList(items)) == "[" + StrRepr(x) + "]";
    BracketQuoted(x);
  }

  lemma BracketQuoted(x: string)
    ensures "[" + ("'" + x + "'") + "]" == "['" + x + "']"
  {
  }

  /** Python's str.isspace() on one character: the characters strip() and int() drop around a number. */
  predicate IsPySpace(c: char)
  {
    ('\t' <= c <= '\r') || ('\U{001C}' <= c <= ' ') || c == '\U{0085}' || c == '\U{00A0}' || c == '\U{1680}' ||
    ('\U{2000}' <= c <= '\U{200A}') || c == '\U{2028}' || c == '\U{2029}' || c == '\U{202F}' || c == '\U{205F}' || c == '\U{3000}'
  }

  function StripStart(s: string): (r: string)
    ensures |r| <= |s| && r == s[|s| - |r|..]
    ensures r != [] ==> !IsPySpace(r[0])
    ensures forall i :: 0 <= i < |s| - |r| ==> IsPySpace(s[i])
    decreases |s|
  {
    if s != [] && IsPySpace(s[0]) then StripStart(s[1..]) else s
  }

  function StripEnd(s: string): (r: string)
    ensures |r| <= |s| && r == s[..|r|]
    ensures r != [] ==> !IsPySpace(r[|r| - 1])
    ensures forall i :: |r| <= i < |s| ==> IsPySpace(s[i])
    decreases |s|
  {
    if s != [] && IsPySpace(s[|s| - 1]) then StripEnd(s[..|s| - 1]) else s
  }

  /** Python's str.strip(). */
  function Strip(s: string): (r: string)
    ensures r != [] ==> !IsPySpace(r[0]) && !IsPySpace(r[|r| - 1])
  {
    var t := StripStart(s);
    var r := StripEnd(t);
    assert r != [] ==> r[0] == t[0];
    r
  }

  /** Text with no white space at either end is left as it is. */
  lemma StripUnspaced(s: string)
    requires s != [] ==> !IsPySpace(s[0]) && !IsPySpace(s[|s| - 1])
    ensures Strip(s) == s
  {
  }

  /** `s` with every `c` removed. */
  function DropChar(s: string, c: char): (r: string)
    ensures |r| <= |s|
    decreases |s|
  {
    if s == [] then [] else (if s[0] == c then [] else [s[0]]) + DropChar(s[1..], c)
  }

  lemma {:induction false} DropCharAbsent(s: string, c: char)
    requires forall i :: 0 <= i < |s| ==> s[i] != c
    ensures DropChar(s, c) == s
    decreases |s|
  {
    if s != [] {
      DropCharAbsent(s[1..], c);
    }
  }

  lemma {:induction false} DropCharConcat(x: string, y: string, c: char)
    ensures DropChar(x + y, c) == DropChar(x, c) + DropChar(y, c)
    decreases |x|
  {
    if x != [] {
      assert (x + y)[0] == x[0];
      assert (x + y)[1..] == x[1..] + y;
      DropCharConcat(x[1..], y, c);
    } else {
      assert x + y == y;
    }
  }

  /** Dropping the underscores of digits and underscores leaves digits, and at least one when there was one. */
  lemma {:induction false} DropUnderscoresDigits(s: string)
    requires forall i :: 0 <= i < |s| ==> IsDigit(s[i]) || s[i] == '_'
    ensures AllDigits(DropChar(s, '_'))
    ensures s != [] && IsDigit(s[0]) ==> DropChar(s, '_') != []
    decreases |s|
  {
    if s != [] {
      DropUnderscoresDigits(s[1..]);
    }
  }

  /** Digits, each underscore single and between two digits, as int() and the literals of PEP 515 group them. */
  predicate IsGroupedDigits(s: string)
  {
    |s| > 0 && IsDigit(s[0]) && IsDigit(s[|s| - 1]) &&
    (forall i :: 0 <= i < |s| ==> IsDigit(s[i]) || s[i] == '_') &&
    (forall i :: 0 <= i < |s| - 1 && s[i] == '_' ==> s[i + 1] != '_')
  }

  /** The digits of a grouped run. */
  function Ungrouped(s: string): (r: string)
    requires IsGroupedDigits(s)
    ensures |r| > 0 && AllDigits(r)
  {
    DropUnderscoresDigits(s);
    DropChar(s, '_')
  }

  /**
   * What int() accepts of a string: white space around an optional sign and
   * grouped decimal digits.
   */
  predicate IsIntLiteral(s: string)
  {
    var t := Strip(s);
    if |t| > 0 && (t[0] == '-' || t[0] == '+') then IsGroupedDigits(t[1..]) else IsGroupedDigits(t)
  }

  function IntLiteralValue(s: string): int
    requires IsIntLiteral(s)
  {
    var t := Strip(s);
    if t[0] == '-' then -(DigitsValue(Ungrouped(t[1..])) as int)
    else if t[0] == '+' then DigitsValue(Ungrouped(t[1..]))
    else DigitsValue(Ungrouped(t))
  }

  /** Python's int(v): integers and booleans convert, strings must be integer literals; anything else raises. */
  function PyInt(v: Value): (r: Option<int>)
    ensures v.JInt? ==> r == Some(v.i)
    ensures v.JStr? ==> (r.Some? <==> IsIntLiteral(v.s))
    ensures v.JNull? || v.JList? || v.JObj? ==> r == None
  {
    match v
    case JInt(i) => Some(i)
    case JBool(b) => Some(if b then 1 else 0)
    case JStr(s) => if IsIntLiteral(s) then Some(IntLiteralValue(s)) else None
    case _ => None
  }

  /** int() reads what is left once the blanks are stripped. */
  lemma LiteralAfterStrip(s: string, t: string)
    requires Strip(s) == t
    ensures IsIntLiteral(s) <==> IsIntLiteral(t)
    ensures IsIntLiteral(s) ==> IntLiteralValue(s) == IntLiteralValue(t)
  {
    StripUnspaced(t);
  }

  /** int() of unspaced text without a sign: the grouped digits' value, or an error. */
  lemma UnsignedLiteral(t: string)
    requires Strip(t) == t && t != [] && t[0] != '-' && t[0] != '+'
    ensures PyInt(JStr(t)) == if IsGroupedDigits(t) then Some(DigitsValue(Ungrouped(t)) as int) else None
  {
  }

  lemma {:induction false} StripStartSpaces(pre: string, x: string)
    requires forall i :: 0 <= i < |pre| ==> IsPySpace(pre[i])
    ensures StripStart(pre + x) == StripStart(x)
    decreases |pre|
  {
    if pre != [] {
      assert (pre + x)[0] == pre[0];
      assert (pre + x)[1..] == pre[1..] + x;
      StripStartSpaces(pre[1..], x);
    } else {
      assert pre + x == x;
    }
  }

  lemma {:induction false} StripEndSpaces(x: string, post: string)
    requires forall i :: 0 <= i < |post| ==> IsPySpace(post[i])
    ensures StripEnd(x + post) == StripEnd(x)
    decreases |post|
  {
    if post != [] {
      var xp := x + post;
      assert xp[|xp| - 1] == post[|post| - 1];
      assert xp[..|xp| - 1] == x + post[..|post| - 1];
      StripEndSpaces(x, post[..|post| - 1]);
    } else {
      assert x + post == x;
    }
  }

  lemma StripAround(pre: string, s: string, post: string)
    requires forall i :: 0 <= i < |pre| ==> IsPySpace(pre[i])
    requires forall i :: 0 <= i < |post| ==> IsPySpace(post[i])
    requires s != [] && !IsPySpace(s[0]) && !IsPySpace(s[|s| - 1])
    ensures Strip(pre + s + post) == s
  {
    assert pre + s + post == pre + (s + post);
    StripStartSpaces(pre, s + post);
    assert (s + post)[0] == s[0];
    assert StripStart(s + post) == s + post;
    StripEndSpaces(s, post);
    assert StripEnd(s) == s;
  }

  /** int() reads a number the same with or without blanks around it. */
  lemma PyIntIgnoresBlanks(pre: string, s: string, post: string)
    requires forall i :: 0 <= i < |pre| ==> IsPySpace(pre[i])
    requires forall i :: 0 <= i < |post| ==> IsPySpace(post[i])
    requires s != [] && !IsPySpace(s[0]) && !IsPySpace(s[|s| - 1])
    ensures PyInt(JStr(pre + s + post)) == PyInt(JStr(s))
  {
    StripAround(pre, s, post);
    LiteralAfterStrip(pre + s + post, s);
  }

  /** Text that starts with a digit or an underscore and ends with a digit or an underscore has no blank to strip and no sign. */
  lemma UnspacedUnsigned(s: string)
    requires s != [] && (IsDigit(s[0]) || s[0] == '_') && (IsDigit(s[|s| - 1]) || s[|s| - 1] == '_')
    ensures Strip(s) == s && s[0] != '-' && s[0] != '+'
  {
    StripUnspaced(s);
  }

  lemma GroupedJoin(a: string, b: string)
    requires |a| > 0 && AllDigits(a) && |b| > 0 && AllDigits(b)
    ensures IsGroupedDigits(a + "_" + b) && Ungrouped(a + "_" + b) == a + b
  {
    JoinedGrouped(a, b, '_');
    JoinedUngrouped(a, b, '_');
  }

  /** Two digit runs joined by one underscore `u` are grouped digits. */
  lemma JoinedGrouped(a: string, b: string, u: char)
    requires |a| > 0 && AllDigits(a) && |b| > 0 && AllDigits(b) && u == '_'
    ensures IsGroupedDigits(a + [u] + b)
  {
    var s := a + [u] + b;
    forall i | 0 <= i < |s| && i != |a| ensures IsDigit(s[i]) {
      if i < |a| { assert s[i] == a[i]; } else { assert s[i] == b[i - |a| - 1]; }
    }
    assert s[|a| + 1] == b[0];
  }

  /** Dropping the underscore `u` that joins two digit runs runs them together. */
  lemma JoinedUngrouped(a: string, b: string, u: char)
    requires AllDigits(a) && AllDigits(b) && u == '_'
    ensures DropChar(a + [u] + b, '_') == a + b
  {
    var au := a + [u];
    DropCharConcat(au, b, '_');
    DropCharConcat(a, [u], '_');
    DropCharAbsent(a, '_');
    DropCharAbsent(b, '_');
    assert [u][1..] == [];
    assert DropChar([u], '_') == [] + DropChar([], '_');
    assert DropChar(au, '_') == a;
  }

  /** int() reads two runs of digits joined by one underscore as the digits run together. */
  lemma PyIntGrouped(a: string, b: string)
    requires |a| > 0 && AllDigits(a) && |b| > 0 && AllDigits(b)
    ensures PyInt(JStr(a + "_" + b)) == Some(DigitsValue(a + b))
  {
    var s := a + "_" + b;
    assert s[0] == a[0] && s[|s| - 1] == b[|b| - 1];
    UnspacedUnsigned(s);
    GroupedJoin(a, b);
    UnsignedLiteral(s);
  }

  /** A doubled underscore inside the digits is refused. */
  lemma PyIntRefusesDoubleUnderscore(a: string, b: string)
    requires |a| > 0 && AllDigits(a) && |b| > 0 && AllDigits(b)
    ensures PyInt(JStr(a + "__" + b)) == None
  {
    var s := a + "__" + b;
    assert s[0] == a[0] && s[|s| - 1] == b[|b| - 1];
    UnspacedUnsigned(s);
    assert s[|a|] == '_' && s[|a| + 1] == '_';
    UnsignedLiteral(s);
  }

  /** A blank inside the digits is refused. */
  lemma PyIntRefusesInnerBlank(a: string, b: string)
    requires |a| > 0 && AllDigits(a) && |b| > 0 && AllDigits(b)
    ensures PyInt(JStr(a + " " + b)) == None
  {
    var t := a + " " + b;
    assert t[0] == a[0] && t[|t| - 1] == b[|b| - 1];
    UnspacedUnsigned(t);
    assert t[|a|] == ' ';
    UnsignedLiteral(t);
  }

  /** A leading underscore is refused. */
  lemma PyIntRefusesLeadingUnderscore(a: string)
    requires |a| > 0 && AllDigits(a)
    ensures PyInt(JStr("_" + a)) == None
  {
    var s := "_" + a;
    assert s[0] == '_' && s[|s| - 1] == a[|a| - 1];
    UnspacedUnsigned(s);
    UnsignedLiteral(s);
  }

  /** A trailing underscore is refused. */
  lemma PyIntRefusesTrailingUnderscore(a: string)
    requires |a| > 0 && AllDigits(a)
    ensures PyInt(JStr(a + "_")) == None
  {
    var t := a + "_";
    assert t[0] == a[0] && t[|t| - 1] == '_';
    UnspacedUnsigned(t);
    UnsignedLiteral(t);
  }

  lemma DigitOrSignNotSpace(c: char)
    requires IsDigit(c) || c == '-' || c == '+'
    ensures !IsPySpace(c)
  {
  }

  /** A run of plain digits is grouped, and has no underscore to drop. */
  lemma PlainDigitsGrouped(s: string)
    requires |s| > 0 && AllDigits(s)
    ensures IsGroupedDigits(s) && Ungrouped(s) == s
  {
    DropCharAbsent(s, '_');
  }

  /** str(n) has no white space to strip. */
  lemma RenderedUnspaced(n: int)
    ensures Strip(IntToString(n)) == IntToString(n)
  {
    var t := IntToString(n);
    var s := NatToString(if n < 0 then -n else n);
    assert t[|t| - 1] == s[|s| - 1];
    DigitOrSignNotSpace(t[0]);
    DigitOrSignNotSpace(t[|t| - 1]);
    StripUnspaced(t);
  }

  /** An unspaced, optionally negated run of digits reads as its value. */
  lemma SignedDigitsLiteral(t: string, s: string, neg: bool)
    requires |s| > 0 && AllDigits(s) && t == (if neg then "-" + s else s) && Strip(t) == t
    ensures IsIntLiteral(t) && IntLiteralValue(t) == (if neg then -(DigitsValue(s) as int) else DigitsValue(s))
  {
    PlainDigitsGrouped(s);
    if neg {
      assert t[1..] == s;
    } else {
      DigitOrSignNotSpace(s[0]);
      assert s[0] != '-' && s[0] != '+';
    }
  }

  lemma {:induction false} PyIntOfRenderedInt(n: int)
    ensures PyInt(JStr(IntToString(n))) == Some(n)
  {
    var s := NatToString(if n < 0 then -n else n);
    NatToStringValue(if n < 0 then -n else n);
    RenderedUnspaced(n);
    SignedDigitsLiteral(IntToString(n), s, n < 0);
  }

  // ---------------------------------------------------------------------------
  // Decimal(text)

  /** A number as Decimal holds it: a coefficient times a power of ten, or one of the special values. */
  datatype DecimalNumber = Finite(coefficient: int, exponent: int) | Infinite(negative: bool) | NaN

  /** An optional sign and at least one digit, as the exponent of a decimal string is written. */
  function SignedDigits(s: string): (r: Option<int>)
    ensures |s| > 0 && AllDigits(s) ==> r == Some(DigitsValue(s) as int)
  {
    if |s| > 0 && (s[0] == '-' || s[0] == '+') then
      if |s| > 1 && AllDigits(s[1..]) then Some(if s[0] == '-' then -(DigitsValue(s[1..]) as int) else DigitsValue(s[1..]))
      else None
    else if |s| > 0 && AllDigits(s) then Some(DigitsValue(s))
    else None
  }

  /** Where the exponent marker, 'e' or 'E', sits in `s`, or |s| when there is none. */
  function ExponentAt(s: string): (r: nat)
    ensures r <= |s|
  {
    match IndexOf(Lower(s), 'e')
    case Some(i) => i
    case None => |s|
  }

  /**
   * `digits [. [digits]] [e [sign] digits]` or `. digits [e [sign] digits]`:
   * the digits on both sides of the point make the coefficient, and the
   * exponent is lowered by the number of digits after the point.
   */
  function FiniteDecimal(s: string): Option<(nat, int)>
  {
    var e := ExponentAt(s);
    var exponent := if e < |s| then SignedDigits(s[e + 1..]) else Some(0);
    match exponent
    case None => None
    case Some(x) => PointDecimal(s[..e], x)
  }

  /** The mantissa `digits [. [digits]]` or `. digits` under exponent `x`. */
  function PointDecimal(mantissa: string, x: int): Option<(nat, int)>
  {
    var dot := match IndexOf(mantissa, '.') case Some(i) => i case None => |mantissa|;
    PointParts(mantissa[..dot], if dot < |mantissa| then mantissa[dot + 1..] else "", x)
  }

  /** Two runs of digits read together. */
  lemma DigitsJoin(w: string, f: string, x: int)
    requires AllDigits(w) && AllDigits(f) && |w| + |f| > 0
    ensures AllDigits(w + f)
    ensures PointParts(w, f, x) == Some((DigitsValue(w + f), x - |f|))
  {
    forall i | 0 <= i < |w + f| ensures IsDigit((w + f)[i]) {
      if i >= |w| { assert (w + f)[i] == f[i - |w|]; }
    }
  }

  /** The digits before and after the point, read together as the coefficient. */
  function PointParts(whole: string, fraction: string, x: int): Option<(nat, int)>
  {
    if AllDigits(whole) && AllDigits(fraction) && |whole| + |fraction| > 0 then
      assert AllDigits(whole + fraction) by {
        forall i | 0 <= i < |whole + fraction| ensures IsDigit((whole + fraction)[i]) {
          if i >= |whole| { assert (whole + fraction)[i] == fraction[i - |whole|]; }
        }
      }
      Some((DigitsValue(whole + fraction), x - |fraction|))
    else None
  }

  predicate InfinityWord(word: string)
  {
    word == "inf" || word == "infinity"
  }

  predicate NaNWord(word: string)
  {
    (StartsWith(word, "nan") && AllDigits(word[3..])) || (StartsWith(word, "snan") && AllDigits(word[4..]))
  }

  /** A word that starts with a digit names no special value. */
  lemma DigitStartsNoWord(word: string)
    requires word != [] && IsDigit(word[0])
    ensures !InfinityWord(word) && !NaNWord(word)
  {
    assert "nan"[0] == 'n' && "snan"[0] == 's' && "inf"[0] == 'i' && "infinity"[0] == 'i';
  }

  /**
   * Decimal(text): the surrounding white space is stripped and then every
   * underscore removed, then an optional sign precedes a finite number, Inf or Infinity,
   * or a NaN or sNaN with optional digits, the words in any case.
   */
  function ParseDecimal(text: string): Option<DecimalNumber>
  {
    ParseStripped(DropChar(Strip(text), '_'))
  }

  /** The numeric-string grammar on text already stripped of blanks and underscores. */
  function ParseStripped(t: string): Option<DecimalNumber>
  {
    if t != [] && (t[0] == '-' || t[0] == '+') then SignedRest(t[0] == '-', t[1..])
    else SignedRest(false, t)
  }

  /** The grammar after the optional sign, which `negative` records. */
  function SignedRest(negative: bool, body: string): Option<DecimalNumber>
  {
    if body != [] && (IsDigit(body[0]) || body[0] == '.') then SignedFiniteRest(negative, body)
    else SpecialWord(negative, body)
  }

  /** A finite number after the sign. */
  function SignedFiniteRest(negative: bool, body: string): Option<DecimalNumber>
  {
    match FiniteDecimal(body)
    case Some((c, e)) => Some(Finite(if negative then -(c as int) else c, e))
    case None => None
  }

  /** Infinity or NaN after the sign, in any case. */
  function SpecialWord(negative: bool, body: string): Option<DecimalNumber>
  {
    if InfinityWord(Lower(body)) then Some(Infinite(negative))
    else if NaNWord(Lower(body)) then Some(NaN)
    else None
  }

  /** The number in cents (hundredths), when it is a whole number of them. */
  function CentsOf(d: DecimalNumber): (r: Option<int>)
    ensures d.Finite? && d.exponent >= -2 ==> r == Some(d.coefficient * Pow10(d.exponent + 2))
    ensures d.Finite? && d.exponent < -2 ==>
      (r.Some? <==> d.coefficient % Pow10(-2 - d.exponent) == 0) &&
      (r.Some? ==> r.value * Pow10(-2 - d.exponent) == d.coefficient)
    ensures !d.Finite? ==> r.None?
  {
    match d
    case Finite(c, e) =>
      if e >= -2 then Some(c * Pow10(e + 2))
      else if c % Pow10(-2 - e) == 0 then Some(c / Pow10(-2 - e))
      else None
    case _ => None
  }

  lemma LowerUnchanged(s: string)
    requires forall i :: 0 <= i < |s| ==> !('A' <= s[i] <= 'Z')
    ensures Lower(s) == s
  {
  }

  lemma {:induction false} IndexOfAbsent(s: string, c: char)
    requires forall i :: 0 <= i < |s| ==> s[i] != c
    ensures IndexOf(s, c).None?
  {
    IndexOfFacts(s, c);
  }

  /** Plain digits read as themselves, with exponent 0. */
  lemma FiniteDigits(d: string)
    requires |d| > 0 && AllDigits(d)
    ensures FiniteDecimal(d) == Some((DigitsValue(d), 0))
  {
    LowerUnchanged(d);
    IndexOfAbsent(d, 'e');
    assert d[..|d|] == d;
    PointWhole(d, 0);
  }

  /** Digits, a point and more digits: the coefficient is all the digits, the exponent minus the count after the point. */
  lemma FinitePoint(w: string, f: string)
    requires |w| > 0 && AllDigits(w) && AllDigits(f)
    ensures FiniteDecimal(w + "." + f) == Some((DigitsValue(w + f), -|f|))
  {
    var s := w + "." + f;
    forall i | 0 <= i < |s| ensures s[i] == '.' || IsDigit(s[i]) {
      if i < |w| { assert s[i] == w[i]; } else if i > |w| { assert s[i] == f[i - |w| - 1]; }
    }
    LowerUnchanged(s);
    IndexOfAbsent(s, 'e');
    assert ExponentAt(s) == |s|;
    assert s[..|s|] == s;
    assert s[..|w|] == w;
    IndexOfFirst(s, '.', |w|);
    assert s[|w| + 1..] == f;
    WithoutExponent(s);
    PointAt(s, |w|, 0);
    DigitsJoin(w, f, 0);
  }

  /** Text without an exponent marker is all mantissa, with exponent 0. */
  lemma WithoutExponent(s: string)
    requires ExponentAt(s) == |s|
    ensures FiniteDecimal(s) == PointDecimal(s, 0)
  {
    assert s[..|s|] == s;
  }

  /** A point at `dot` splits the mantissa into the digits before and after it. */
  lemma PointAt(m: string, dot: nat, x: int)
    requires IndexOf(m, '.') == Some(dot)
    ensures PointDecimal(m, x) == PointParts(m[..dot], m[dot + 1..], x)
  {
  }

  /** Digits, an exponent marker and digits: the coefficient and the exponent as written. */
  lemma FiniteExponent(a: string, k: string)
    requires |a| > 0 && AllDigits(a) && |k| > 0 && AllDigits(k)
    ensures FiniteDecimal(a + "e" + k) == Some((DigitsValue(a), DigitsValue(k) as int))
  {
    var s := a + "e" + k;
    ExponentMarker(a, k);
    assert s[..|a|] == a && s[|a| + 1..] == k;
    PointWhole(a, DigitsValue(k));
  }

  /** The exponent marker after the digits of `a` is the first one. */
  lemma ExponentMarker(a: string, k: string)
    requires AllDigits(a)
    ensures ExponentAt(a + "e" + k) == |a|
  {
    var s := a + "e" + k;
    var l := Lower(s);
    forall i | 0 <= i < |a| ensures l[i] == a[i] {
      assert s[i] == a[i];
    }
    assert l[..|a|] == a;
    IndexOfFirst(l, 'e', |a|);
  }

  /** A mantissa of digits alone is its own coefficient. */
  lemma PointWhole(a: string, x: int)
    requires |a| > 0 && AllDigits(a)
    ensures PointDecimal(a, x) == Some((DigitsValue(a), x))
  {
    IndexOfAbsent(a, '.');
    assert a[..|a|] == a && a + "" == a;
  }

  /** Text with no underscore that starts with a digit or a sign and ends with a digit is left as it is by the clean-up. */
  lemma CleanText(t: string)
    requires |t| > 0 && (IsDigit(t[0]) || t[0] == '-') && IsDigit(t[|t| - 1])
    requires '_' !in t
    ensures DropChar(t, '_') == t && Strip(t) == t
  {
    forall i | 0 <= i < |t| ensures t[i] != '_' { assert t[i] in t; }
    DropCharAbsent(t, '_');
    DigitOrSignNotSpace(t[0]);
    DigitOrSignNotSpace(t[|t| - 1]);
    StripUnspaced(t);
  }

  /** On text the clean-up leaves alone, Decimal applies the grammar directly. */
  lemma CleanParse(t: string)
    requires |t| > 0 && (IsDigit(t[0]) || t[0] == '-') && IsDigit(t[|t| - 1])
    requires '_' !in t
    ensures ParseDecimal(t) == ParseStripped(t)
  {
    assert DropChar(t, '_') == t && Strip(t) == t by { CleanText(t); }
  }

  /** Text starting with a digit is read by the finite grammar alone. */
  lemma StrippedUnsigned(body: string, c: nat, e: int)
    requires |body| > 0 && IsDigit(body[0])
    requires FiniteDecimal(body) == Some((c, e))
    ensures ParseStripped(body) == Some(Finite(c, e))
  {
    assert ParseStripped(body) == SignedRest(false, body);
    SignedFinite(false, body, c, e);
  }

  /** The same after a minus sign, which negates the coefficient. */
  lemma StrippedNegative(t: string, body: string, c: nat, e: int)
    requires |t| > 0 && t[0] == '-' && t[1..] == body && |body| > 0 && IsDigit(body[0])
    requires FiniteDecimal(body) == Some((c, e))
    ensures ParseStripped(t) == Some(Finite(-(c as int), e))
  {
    assert ParseStripped(t) == SignedRest(true, body);
    SignedFinite(true, body, c, e);
  }

  /** After the sign, text starting with a digit is read by the finite grammar. */
  lemma SignedFinite(negative: bool, body: string, c: nat, e: int)
    requires |body| > 0 && IsDigit(body[0])
    requires FiniteDecimal(body) == Some((c, e))
    ensures SignedRest(negative, body) == Some(Finite(if negative then -(c as int) else c, e))
  {
  }

  /** Unsigned finite-number text with a digit at both ends and no underscore. */
  predicate PlainFinite(body: string, c: nat, e: int)
  {
    |body| > 0 && IsDigit(body[0]) && IsDigit(body[|body| - 1]) && '_' !in body && FiniteDecimal(body) == Some((c, e))
  }

  /** Text with no underscore, no sign and a digit at both ends is read by the finite grammar alone. */
  lemma ParseUnsigned(body: string, c: nat, e: int)
    requires PlainFinite(body, c, e)
    ensures ParseDecimal(body) == Some(Finite(c, e))
  {
    CleanParse(body);
    StrippedUnsigned(body, c, e);
  }

  /** The same text after a minus sign reads as the negated number. */
  lemma ParseNegative(body: string, c: nat, e: int)
    requires PlainFinite(body, c, e)
    ensures ParseDecimal("-" + body) == Some(Finite(-(c as int), e))
  {
    var t := "-" + body;
    assert t[|t| - 1] == body[|body| - 1];
    assert '_' !in t by {
      forall i | 0 <= i < |t| ensures t[i] != '_' {
        if i > 0 { assert t[i] == body[i - 1]; assert body[i - 1] in body; }
      }
    }
    CleanParse(t);
    assert t[0] == '-' && t[1..] == body;
    StrippedNegative(t, body, c, e);
  }

  /** Decimal(str(n)) is n. */
  lemma ParseRenderedInt(n: int)
    ensures ParseDecimal(IntToString(n)) == Some(Finite(n, 0))
  {
    var d := NatToString(if n < 0 then -n else n);
    NatToStringValue(if n < 0 then -n else n);
    FiniteDigits(d);
    assert '_' !in d by {
      forall i | 0 <= i < |d| ensures d[i] != '_' { assert IsDigit(d[i]); }
    }
    assert PlainFinite(d, DigitsValue(d), 0);
    if n < 0 {
      ParseNegative(d, DigitsValue(d), 0);
    } else {
      ParseUnsigned(d, DigitsValue(d), 0);
    }
  }

  /** Decimal reads a number the same with or without blanks around it. */
  lemma ParseDecimalIgnoresBlanks(pre: string, s: string, post: string)
    requires forall i :: 0 <= i < |pre| ==> IsPySpace(pre[i])
    requires forall i :: 0 <= i < |post| ==> IsPySpace(post[i])
    requires s != [] && !IsPySpace(s[0]) && !IsPySpace(s[|s| - 1])
    requires forall i :: 0 <= i < |s| ==> s[i] != '_'
    ensures ParseDecimal(pre + s + post) == ParseDecimal(s)
  {
    var whole := pre + s + post;
    forall i | 0 <= i < |whole| ensures whole[i] != '_' {
      if i < |pre| { assert whole[i] == pre[i]; }
      else if i < |pre| + |s| { assert whole[i] == s[i - |pre|]; }
      else { assert whole[i] == post[i - |pre| - |s|]; }
    }
    DropCharAbsent(whole, '_');
    DropCharAbsent(s, '_');
    StripAround(pre, s, post);
    StripUnspaced(s);
  }

  /** The number a bool or an int stands for. */
  function NumberOf(v: Value): int
  {
    match v
    case JInt(i) => i
    case JBool(b) => if b then 1 else 0
    case _ => 0
  }

  /** Python's `a > b` on decoded values: numbers (bool among them) and strings compare, any other pair raises TypeError. */
  function PyGreater(a: Value, b: Value): (r: Result<bool, string>)
    ensures (a.JInt? || a.JBool?) && (b.JInt? || b.JBool?) ==> r.Ok?
    ensures a.JStr? && b.JStr? ==> r == Ok(StrLess(b.s, a.s))
    ensures a.JNull? || b.JNull? ==> r.Err?
  {
    if a.JStr? && b.JStr? then Ok(StrLess(b.s, a.s))
    else if (a.JInt? || a.JBool?) && (b.JInt? || b.JBool?) then Ok(NumberOf(a) > NumberOf(b))
    else Err("'>' not supported between instances of '" + TypeName(a) + "' and '" + TypeName(b) + "'")
  }

  /** The text str() gives the InvalidOperation that Decimal raises on text outside its grammar. */
  const ConversionSyntax: string := "[<class 'decimal.ConversionSyntax'>]"

  /** Stands for an amount Decimal reads but that is no whole number of cents, which this model, keeping money in cents, cannot hold. */
  const NotWholeCents: string := "amount is not a whole number of cents"

  /** Decimal(s) in cents: a syntax error, a value that is no whole number of cents, or the cents. */
  function TextCents(s: string): (r: Result<int, string>)
    ensures ParseDecimal(s).None? <==> r == Err(ConversionSyntax)
    ensures r.Ok? <==> ParseDecimal(s).Some? && CentsOf(ParseDecimal(s).value).Some?
    ensures r.Ok? ==> CentsOf(ParseDecimal(s).value) == Some(r.value)
  {
    match ParseDecimal(s)
    case None => Err(ConversionSyntax)
    case Some(d) =>
      match CentsOf(d)
      case Some(c) => Ok(c)
      case None => Err(NotWholeCents)
  }

  function DigitChar(d: nat): char
    requires d < 10
  {
    ('0' as int + d) as char
  }

  /** An amount of shillings written with two decimal places, as in "100.50". */
  function AmountText(cents: int): string
  {
    (if cents < 0 then "-" else "") + PointText(if cents < 0 then -cents else cents)
  }

  /** `m` hundredths written as whole shillings, a point and two digits. */
  function PointText(m: nat): string
  {
    NatToString(m / 100) + "." + [DigitChar(m % 100 / 10), DigitChar(m % 10)]
  }

  lemma DigitsValueSnoc(w: string, x: char)
    requires AllDigits(w) && IsDigit(x)
    ensures AllDigits(w + [x]) && DigitsValue(w + [x]) == DigitsValue(w) * 10 + DigitValue(x)
  {
    assert (w + [x])[..|w|] == w;
  }

  /** The digits of a two-place amount make up its value. */
  lemma AmountDigits(m: nat)
    ensures var w := NatToString(m / 100);
      var f := [DigitChar(m % 100 / 10), DigitChar(m % 10)];
      AllDigits(f) && |w| > 0 && AllDigits(w) && DigitsValue(w + f) == m
  {
    var w := NatToString(m / 100);
    var x, y := DigitChar(m % 100 / 10), DigitChar(m % 10);
    NatToStringValue(m / 100);
    DigitsValueSnoc(w, x);
    DigitsValueSnoc(w + [x], y);
    assert w + [x, y] == w + [x] + [y];
    assert DigitValue(x) == m % 100 / 10 && DigitValue(y) == m % 10;
    HundredsTensUnits(m);
  }

  /** A number is its hundreds, tens and units put back together. */
  lemma HundredsTensUnits(m: nat)
    ensures (m / 100 * 10 + m % 100 / 10) * 10 + m % 10 == m
  {
    var h, r := m / 100, m % 100;
    assert m == h * 100 + r;
    assert r == r / 10 * 10 + r % 10;
    assert m % 10 == r % 10;
  }

  /** Digits, a point and digits: no underscore, and a digit at both ends. */
  lemma PointShape(w: string, f: string)
    requires |w| > 0 && AllDigits(w) && |f| > 0 && AllDigits(f)
    ensures var body := w + "." + f;
      IsDigit(body[0]) && IsDigit(body[|body| - 1]) && '_' !in body
  {
    var body := w + "." + f;
    forall i | 0 <= i < |body| ensures body[i] != '_' {
      if i < |w| { assert body[i] == w[i]; } else if i > |w| { assert body[i] == f[i - |w| - 1]; }
    }
    assert '_' !in body;
    assert body[0] == w[0];
    assert body[|body| - 1] == f[|f| - 1];
  }

  /** Digits, a point and digits are plain finite-number text. */
  lemma PointPlain(w: string, f: string)
    requires |w| > 0 && AllDigits(w) && |f| > 0 && AllDigits(f)
    ensures AllDigits(w + f) && PlainFinite(w + "." + f, DigitsValue(w + f), -|f|)
  {
    FinitePoint(w, f);
    PointShape(w, f);
  }

  /** Text that Decimal reads as a finite number: what TextCents makes of it. */
  lemma FiniteCents(s: string, c: int, e: int)
    requires ParseDecimal(s) == Some(Finite(c, e))
    ensures TextCents(s) == match CentsOf(Finite(c, e)) case Some(v) => Ok(v) case None => Err(NotWholeCents)
  {
  }

  /** The text of `m` hundredths is plain finite-number text worth `m` times ten to the minus two. */
  lemma PointTextPlain(m: nat)
    ensures PlainFinite(PointText(m), m, -2)
  {
    AmountDigits(m);
    PointPlain(NatToString(m / 100), [DigitChar(m % 100 / 10), DigitChar(m % 10)]);
  }

  /** The same with a third, non-zero decimal place: a number of thousandths that is no whole number of hundredths. */
  lemma SubCentPlain(m: nat, d: nat)
    requires 0 < d < 10
    ensures PlainFinite(PointText(m) + [DigitChar(d)], m * 10 + d, -3)
  {
    var w := NatToString(m / 100);
    var f2 := [DigitChar(m % 100 / 10), DigitChar(m % 10)];
    var x := DigitChar(d);
    var f := f2 + [x];
    AmountDigits(m);
    DigitsValueSnoc(w + f2, x);
    assert w + f == w + f2 + [x];
    assert DigitsValue(w + f) == m * 10 + d;
    PointPlain(w, f);
    PointSnoc(m, x);
  }

  /** A digit written after a two-place amount becomes its third decimal place. */
  lemma PointSnoc(m: nat, x: char)
    ensures PointText(m) + [x] == NatToString(m / 100) + "." + ([DigitChar(m % 100 / 10), DigitChar(m % 10)] + [x])
  {
  }

  /** Plain text and its negation, read by Decimal. */
  lemma ParseSigned(s: string, body: string, c: nat, e: int, negative: bool, v: int)
    requires PlainFinite(body, c, e)
    requires s == if negative then "-" + body else body
    requires v == if negative then -(c as int) else c
    ensures ParseDecimal(s) == Some(Finite(v, e))
  {
    if negative {
      ParseNegative(body, c, e);
    } else {
      ParseUnsigned(body, c, e);
    }
  }

  /** An amount written with two decimal places reads back as exactly its cents. */
  lemma AmountTextRoundTrip(cents: int)
    ensures TextCents(AmountText(cents)) == Ok(cents)
  {
    var m := if cents < 0 then -cents else cents;
    PointTextPlain(m);
    assert AmountText(cents) == if cents < 0 then "-" + PointText(m) else PointText(m);
    ParseSigned(AmountText(cents), PointText(m), m, -2, cents < 0, cents);
    assert Pow10(0) == 1;
    FiniteCents(AmountText(cents), cents, -2);
  }

  /** A third decimal place other than zero makes a fraction of a cent, which the model does not carry. */
  lemma SubCentAmountRefused(cents: int, d: nat)
    requires 0 < d < 10
    ensures TextCents(AmountText(cents) + [DigitChar(d)]) == Err(NotWholeCents)
  {
    var m := if cents < 0 then -cents else cents;
    var c := m * 10 + d;
    var v := if cents < 0 then -c else c;
    SubCentParse(cents, d, m, v);
    SubCentRemainder(m, d, v);
    SubCentCents(AmountText(cents) + [DigitChar(d)], v);
  }

  lemma SubCentCents(s: string, v: int)
    requires ParseDecimal(s) == Some(Finite(v, -3)) && CentsOf(Finite(v, -3)).None?
    ensures TextCents(s) == Err(NotWholeCents)
  {
  }

  lemma SubCentParse(cents: int, d: nat, m: nat, v: int)
    requires 0 < d < 10
    requires m == (if cents < 0 then -cents else cents)
    requires v == if cents < 0 then -(m * 10 + d) else m * 10 + d
    ensures ParseDecimal(AmountText(cents) + [DigitChar(d)]) == Some(Finite(v, -3))
  {
    var t := PointText(m) + [DigitChar(d)];
    SubCentPlain(m, d);
    SubCentText(cents, d);
    ParseSigned(AmountText(cents) + [DigitChar(d)], t, m * 10 + d, -3, cents < 0, v);
  }

  lemma SubCentText(cents: int, d: nat)
    requires 0 < d < 10
    ensures var t := PointText(if cents < 0 then -cents else cents) + [DigitChar(d)];
      AmountText(cents) + [DigitChar(d)] == if cents < 0 then "-" + t else t
  {
  }

  lemma SubCentRemainder(m: nat, d: nat, v: int)
    requires 0 < d < 10
    requires v == m * 10 + d || v == -(m * 10 + d)
    ensures CentsOf(Finite(v, -3)).None?
  {
    assert Pow10(1) == 10;
    assert v % 10 != 0;
  }

  /** A whole number with an exponent, as in "1e3", counts that many more zeros. */
  lemma ExponentAmount(a: string, k: string, c: nat, e: nat)
    requires |a| > 0 && AllDigits(a) && |k| > 0 && AllDigits(k)
    requires c == DigitsValue(a) && e == DigitsValue(k)
    ensures TextCents(a + "e" + k) == Ok(c * Pow10(e + 2))
  {
    ParseExponent(a, k);
    ExponentCents(a + "e" + k, c, e);
  }

  lemma ExponentCents(s: string, c: nat, e: nat)
    requires ParseDecimal(s) == Some(Finite(c, e))
    ensures TextCents(s) == Ok(c * Pow10(e + 2))
  {
    WholeCents(s, c, e);
  }

  /** Text that Decimal reads as a number with an exponent of -2 or more is that many cents. */
  lemma WholeCents(s: string, c: int, e: int)
    requires ParseDecimal(s) == Some(Finite(c, e)) && e >= -2
    ensures TextCents(s) == Ok(c * Pow10(e + 2))
  {
    FiniteCents(s, c, e);
    WholeCentsOf(c, e);
  }

  lemma WholeCentsOf(c: int, e: int)
    requires e >= -2
    ensures CentsOf(Finite(c, e)) == Some(c * Pow10(e + 2))
  {
  }

  lemma ParseExponent(a: string, k: string)
    requires |a| > 0 && AllDigits(a) && |k| > 0 && AllDigits(k)
    ensures ParseDecimal(a + "e" + k) == Some(Finite(DigitsValue(a), DigitsValue(k)))
  {
    ExponentPlain(a, k);
    ParseUnsigned(a + "e" + k, DigitsValue(a), DigitsValue(k));
  }

  lemma ExponentPlain(a: string, k: string)
    requires |a| > 0 && AllDigits(a) && |k| > 0 && AllDigits(k)
    ensures PlainFinite(a + "e" + k, DigitsValue(a), DigitsValue(k))
  {
    FiniteExponent(a, k);
    ExponentShape(a, k);
  }

  lemma ExponentShape(a: string, k: string)
    requires |a| > 0 && AllDigits(a) && |k| > 0 && AllDigits(k)
    ensures var s := a + "e" + k;
      IsDigit(s[0]) && IsDigit(s[|s| - 1]) && '_' !in s
  {
    var s := a + "e" + k;
    assert s[0] == a[0] && s[|s| - 1] == k[|k| - 1];
    forall i | 0 <= i < |s| ensures s[i] != '_' {
      if i < |a| { assert s[i] == a[i]; } else if i > |a| { assert s[i] == k[i - |a| - 1]; }
    }
    assert '_' !in s;
  }

  /** Blanks around the amount make no difference. */
  lemma AmountIgnoresBlanks(pre: string, s: string, post: string)
    requires forall i :: 0 <= i < |pre| ==> IsPySpace(pre[i])
    requires forall i :: 0 <= i < |post| ==> IsPySpace(post[i])
    requires s != [] && !IsPySpace(s[0]) && !IsPySpace(s[|s| - 1])
    requires forall i :: 0 <= i < |s| ==> s[i] != '_'
    ensures TextCents(pre + s + post) == TextCents(s)
  {
    ParseDecimalIgnoresBlanks(pre, s, post);
  }

  /** What str() gives for an int reads back as that many shillings. */
  lemma IntCents(n: int)
    ensures TextCents(IntToString(n)) == Ok(n * 100)
  {
    ParseRenderedInt(n);
    assert Pow10(2) == 100;
    assert CentsOf(Finite(n, 0)) == Some(n * 100);
  }

  /** A capitalised word that names no special value is refused as a syntax error. */
  lemma WordRefused(t: string)
    requires |t| > 1 && 'A' <= t[0] <= 'Z' && 'a' <= t[|t| - 1] <= 'z' && '_' !in t
    requires !InfinityWord(Lower(t)) && !NaNWord(Lower(t))
    ensures TextCents(t) == Err(ConversionSyntax)
  {
    CleanWord(t);
    StrippedWord(t);
    CleanRefused(t);
  }

  lemma CleanWord(t: string)
    requires |t| > 1 && 'A' <= t[0] <= 'Z' && 'a' <= t[|t| - 1] <= 'z' && '_' !in t
    ensures DropChar(t, '_') == t && Strip(t) == t
  {
    forall i | 0 <= i < |t| ensures t[i] != '_' { assert t[i] in t; }
    DropCharAbsent(t, '_');
    StripUnspaced(t);
  }

  lemma StrippedWord(t: string)
    requires |t| > 0 && 'A' <= t[0] <= 'Z'
    requires !InfinityWord(Lower(t)) && !NaNWord(Lower(t))
    ensures ParseStripped(t).None?
  {
    assert !IsDigit(t[0]) && t[0] != '.' && t[0] != '-' && t[0] != '+';
    assert ParseStripped(t) == SignedRest(false, t);
  }

  lemma CleanRefused(t: string)
    requires DropChar(t, '_') == t && Strip(t) == t && ParseStripped(t).None?
    ensures TextCents(t) == Err(ConversionSyntax)
  {
  }

  /** str() of None, a bool, a list or a dict is no number: Decimal refuses it. */
  lemma NonNumberRefused(v: Value)
    requires !v.JInt? && !v.JStr?
    ensures TextCents(PyStr(v)) == Err(ConversionSyntax)
  {
    match v
    case JNull => NoneRefused();
    case JBool(b) => if b { TrueRefused(); } else { FalseRefused(); }
    case JList(_) => BracketRefused(PyStr(v));
    case JObj(_) => BracketRefused(PyStr(v));
  }

  /**
   * The blanks are stripped before the underscores go, so an underscore
   * before a blank keeps the blank inside the number and Decimal refuses it.
   */
  lemma UnderscoreBeforeBlankRefused(d: char)
    requires IsDigit(d)
    ensures TextCents(['_', ' ', d]) == Err(ConversionSyntax)
  {
    StripUnspaced(['_', ' ', d]);
    UnderscoreBlankDropped(d);
    OddStartNone([' ', d]);
    CleanedRefused(['_', ' ', d], [' ', d]);
  }

  lemma UnderscoreBlankDropped(d: char)
    requires IsDigit(d)
    ensures DropChar(['_', ' ', d], '_') == [' ', d]
  {
    var t := ['_', ' ', d];
    assert DropChar([d], '_') == [d] by { DropCharAbsent([d], '_'); }
    assert DropChar([' ', d], '_') == [' ', d] by { assert [' ', d][1..] == [d]; }
    assert t[1..] == [' ', d];
  }

  lemma CleanedRefused(t: string, u: string)
    requires DropChar(Strip(t), '_') == u && ParseStripped(u).None?
    ensures TextCents(t) == Err(ConversionSyntax)
  {
  }

  /** Text that starts with no digit, point, sign or letter of a special value is outside the grammar. */
  lemma OddStartNone(u: string)
    requires u != [] && !IsDigit(u[0]) && u[0] != '.' && u[0] != '-' && u[0] != '+'
    requires LowerChar(u[0]) != 'i' && LowerChar(u[0]) != 'n' && LowerChar(u[0]) != 's'
    ensures ParseStripped(u).None?
  {
    assert ParseStripped(u) == SignedRest(false, u);
    var w := Lower(u);
    assert w[0] == LowerChar(u[0]);
    assert !StartsWith(w, "nan") && !StartsWith(w, "snan") by {
      assert |w| >= 4 ==> w[..4][0] == w[0];
      assert |w| >= 3 ==> w[..3][0] == w[0];
    }
    assert !InfinityWord(w);
  }

  /** Text in brackets or braces, as str() shows a list or a dict, is no number. */
  lemma BracketRefused(t: string)
    requires |t| >= 2 && (t[0] == '[' || t[0] == '{') && (t[|t| - 1] == ']' || t[|t| - 1] == '}')
    ensures TextCents(t) == Err(ConversionSyntax)
  {
    StripUnspaced(t);
    var u := DropChar(t, '_');
    assert u == [t[0]] + DropChar(t[1..], '_');
    OddStartNone(u);
  }


  lemma NoneRefused()
    ensures TextCents("None") == Err(ConversionSyntax)
  {
    assert Lower("None") == "none";
    WordRefused("None");
  }

  lemma TrueRefused()
    ensures TextCents("True") == Err(ConversionSyntax)
  {
    assert Lower("True") == "true";
    WordRefused("True");
  }

  lemma FalseRefused()
    ensures TextCents("False") == Err(ConversionSyntax)
  {
    assert Lower("False") == "false";
    WordRefused("False");
  }

  lemma EmptyRefused()
    ensures TextCents("") == Err(ConversionSyntax)
  {
    StripUnspaced("");
    assert DropChar(Strip(""), '_') == "";
    assert !InfinityWord(Lower("")) && !NaNWord(Lower(""));
    assert ParseDecimal("") == None;
  }
}
