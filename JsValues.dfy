/** The parts of JavaScript's value semantics the form logic relies on:
    truthiness, `String.prototype.trim`, `Number()` and `String()`. */
module JsValues {
  import opened Types

  /** JavaScript truthiness: `undefined`, `''`, `0`, NaN and `false` are falsy. */
  function Truthy(v: Value): (b: bool)
    ensures b <==> v !in {Undefined, Str(""), Num(0.0), NaN, Bool(false)}
  {
    match v
    case Undefined => false
    case Str(s) => s != ""
    case Num(x) => x != 0.0
    case NaN => false
    case Bool(b) => b
  }

  /** The white-space and line-terminator characters that `trim`, the regular
      expression class `\s` and `Number()` skip. */
  predicate IsWhitespace(c: char) {
    if c <= ' ' then c == ' ' || '\t' <= c <= '\r'
    else if c < '\U{00A0}' then false
    else
      || c == '\U{00A0}' || c == '\U{1680}' || ('\U{2000}' <= c <= '\U{200A}')
      || c == '\U{2028}' || c == '\U{2029}' || c == '\U{202F}' || c == '\U{205F}'
      || c == '\U{3000}' || c == '\U{FEFF}'
  }

  /** The characters a regular-expression `.` does not match. */
  predicate IsLineTerminator(c: char) {
    c == '\n' || c == '\r' || c == '\U{2028}' || c == '\U{2029}'
  }

  predicate IsDigit(c: char) {
    '0' <= c <= '9'
  }

  /** `trimStart`: what is left after the leading white space. */
  function TrimStart(s: string): (r: string)
    ensures |r| <= |s| && r == s[|s| - |r|..]
    ensures r == [] || !IsWhitespace(r[0])
  {
    if s != [] && IsWhitespace(s[0]) then TrimStart(s[1..]) else s
  }

  /** `trimEnd`: what is left before the trailing white space. */
  function TrimEnd(s: string): (r: string)
    ensures |r| <= |s| && r == s[..|r|]
    ensures r == [] || !IsWhitespace(r[|r| - 1])
  {
    if s != [] && IsWhitespace(s[|s| - 1]) then TrimEnd(s[..|s| - 1]) else s
  }

  /** Only white space is dropped at the start. */
  lemma {:induction false} TrimStartDropsWhitespace(s: string)
    ensures forall k :: 0 <= k < |s| - |TrimStart(s)| ==> IsWhitespace(s[k])
  {
    if s != [] && IsWhitespace(s[0]) {
      TrimStartDropsWhitespace(s[1..]);
    }
  }

  /** Only white space is dropped at the end. */
  lemma {:induction false} TrimEndDropsWhitespace(s: string)
    ensures forall k :: |TrimEnd(s)| <= k < |s| ==> IsWhitespace(s[k])
  {
    if s != [] && IsWhitespace(s[|s| - 1]) {
      TrimEndDropsWhitespace(s[..|s| - 1]);
    }
  }

  /** `s.trim()`: drops leading and trailing white space, leaving a text
      that neither starts nor ends with white space. */
  function Trim(s: string): (r: string)
    ensures |r| <= |s| && Trimmed(r)
  {
    var t := TrimStart(s);
    var r := TrimEnd(t);
    assert r != [] ==> r[0] == t[0];
    r
  }

  /** Text with no white space at either end. */
  predicate Trimmed(t: string) {
    t == [] || (!IsWhitespace(t[0]) && !IsWhitespace(t[|t| - 1]))
  }

  /** Trimming a text without outer white space changes nothing. */
  lemma TrimTrimmed(t: string)
    requires Trimmed(t)
    ensures Trim(t) == t
  {
    assert TrimStart(t) == t;
  }

  /** Trimming only removes characters. */
  lemma TrimKeepsOut(s: string, c: char)
    requires c !in s
    ensures c !in Trim(s)
  {
    var t := TrimStart(s);
    assert t == s[|s| - |t|..];
    var r := TrimEnd(t);
    assert r == t[..|r|];
  }

  /** A string trims to empty exactly when every character is white space. */
  lemma TrimEmptyIff(s: string)
    ensures Trim(s) == "" <==> forall k :: 0 <= k < |s| ==> IsWhitespace(s[k])
  {
    TrimStartDropsWhitespace(s);
    TrimEndDropsWhitespace(TrimStart(s));
  }

  // ----- Number() on strings -----------------------------------------------

  predicate AllDigits(s: string) {
    forall k :: 0 <= k < |s| ==> IsDigit(s[k])
  }

  /** The number of leading decimal digits of `s`. */
  function DigitPrefixLength(s: string): (n: nat)
    ensures n <= |s| && AllDigits(s[..n])
    ensures n < |s| ==> !IsDigit(s[n])
  {
    if s != [] && IsDigit(s[0]) then
      var n := 1 + DigitPrefixLength(s[1..]);
      assert s[..n] == [s[0]] + s[1..][..n - 1];
      n
    else 0
  }

  function DigitsValue(ds: string): nat
    requires AllDigits(ds)
  {
    if ds == [] then 0
    else DigitsValue(ds[..|ds| - 1]) * 10 + (ds[|ds| - 1] as int - '0' as int)
  }

  function Pow10(n: nat): (p: nat)
    ensures p >= 1
  {
    if n == 0 then 1 else 10 * Pow10(n - 1)
  }

  /** An unsigned decimal literal: digits, optionally a '.' and more digits,
      with at least one digit in all. */
  function UnsignedDecimal(t: string): Option<real> {
    var i := DigitPrefixLength(t);
    var whole := DigitsValue(t[..i]) as real;
    if i == |t| then
      if i > 0 then Some(whole) else None
    else if t[i] != '.' then None
    else
      var frac := t[i + 1..];
      if AllDigits(frac) && (i > 0 || frac != []) then
        Some(whole + DigitsValue(frac) as real / Pow10(|frac|) as real)
      else None
  }

  /** `Number(s)` for a string: surrounding white space is ignored, an empty
      or blank string is 0, a signed decimal literal is its value, anything
      else is NaN (None). */
  function StringToNumber(s: string): (r: Option<real>)
    ensures (forall k :: 0 <= k < |s| ==> IsWhitespace(s[k])) ==> r == Some(0.0)
  {
    TrimEmptyIff(s);
    var t := Trim(s);
    if t == "" then Some(0.0)
    else if t[0] == '-' then
      match UnsignedDecimal(t[1..])
      case Some(x) => Some(-x)
      case None => None
    else if t[0] == '+' then UnsignedDecimal(t[1..])
    else UnsignedDecimal(t)
  }

  /** `Number(v)` for a form value; None stands for NaN. */
  function ToNumber(v: Value): (r: Option<real>)
    ensures r.None? ==> v == Undefined || v == NaN || v.Str?
  {
    match v
    case Undefined => None
    case Str(s) => StringToNumber(s)
    case Num(x) => Some(x)
    case NaN => None
    case Bool(b) => Some(if b then 1.0 else 0.0)
  }

  /** The form value `Number(...)` produces: a number, or NaN. */
  function NumberValue(n: Option<real>): (v: Value)
    ensures ToNumber(v) == n
  {
    match n
    case Some(x) => Num(x)
    case None => NaN
  }

  // ----- String() of numbers -------------------------------------------------

  function DecimalText(n: nat): (t: string)
    ensures |t| > 0 && AllDigits(t)
  {
    if n < 10 then [('0' as int + n) as char]
    else DecimalText(n / 10) + [('0' as int + n % 10) as char]
  }

  /** Decimal text and digit value are inverse to each other. */
  lemma {:induction false} DecimalTextValue(n: nat)
    ensures DigitsValue(DecimalText(n)) == n
  {
    var t := DecimalText(n);
    if n >= 10 {
      DecimalTextValue(n / 10);
      assert t[..|t| - 1] == DecimalText(n / 10);
    }
  }

  /** `String(x)` for a number: a minus sign exactly for a negative number,
      then decimal digits; exact for integers below 10^21 in magnitude; a
      fractional part is represented by its first decimal digit only. */
  function NumberText(x: real): (t: string)
    ensures t != [] && (t[0] == '-' <==> x < 0.0)
    ensures '@' !in t
  {
    var a := if x < 0.0 then -x else x;
    var whole := a.Floor;
    var sign := if x < 0.0 then "-" else "";
    if whole as real == a then sign + DecimalText(whole)
    else
      var tenth := ((a - whole as real) * 10.0).Floor;
      sign + DecimalText(whole) + "." + DecimalText(tenth)
  }

  /** `String(v)`, the text a regular expression is matched against. */
  function RegexText(v: Value): (t: string)
    ensures v.Str? ==> t == v.s
    ensures !v.Str? ==> t != [] && '@' !in t
  {
    match v
    case Undefined => "undefined"
    case Str(s) => s
    case Num(x) => NumberText(x)
    case NaN => "NaN"
    case Bool(b) => if b then "true" else "false"
  }

  /** The decimal text of a natural number reads as that number. */
  lemma DecimalTextReads(n: nat)
    ensures UnsignedDecimal(DecimalText(n)) == Some(n as real)
  {
    var d := DecimalText(n);
    DecimalTextValue(n);
    DigitPrefixAll(d);
    assert d[..|d|] == d;
  }

  lemma {:induction false} DigitPrefixAll(d: string)
    requires AllDigits(d)
    ensures DigitPrefixLength(d) == |d|
  {
    if d != [] {
      DigitPrefixAll(d[1..]);
    }
  }
}
