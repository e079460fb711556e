/** The checks both validators build their rules from: the length bounds and
    the regular expressions, written as explicit predicates over characters. */
module Patterns {
  import opened Types
  import opened JsValues

  /** The rule's `value` as the number a relational comparison converts it to;
      None stands for `undefined` or NaN, against which every comparison is false. */
  function BoundNumber(b: Option<Bound>): Option<real> {
    match b
    case None => None
    case Some(NumberBound(x)) => Some(x)
    case Some(TextBound(t)) => StringToNumber(t)
  }

  /** `s.length < bound`. */
  function ShorterThan(s: string, b: Option<Bound>): (shorter: bool)
    ensures shorter ==> b.Some? && !LongerThan(s, b)
    ensures b == Some(NumberBound(0.0)) ==> !shorter
    ensures b.Some? && b.value.NumberBound? ==> (shorter <==> (|s| as real) < b.value.x)
  {
    BoundNumber(b).Some? && (|s| as real) < BoundNumber(b).value
  }

  /** `s.length > bound`. */
  function LongerThan(s: string, b: Option<Bound>): (longer: bool)
    ensures longer ==> b.Some?
    ensures b == Some(NumberBound(0.0)) ==> (longer <==> s != [])
    ensures b.Some? && b.value.NumberBound? ==> (longer <==> (|s| as real) > b.value.x)
  {
    BoundNumber(b).Some? && (|s| as real) > BoundNumber(b).value
  }

  // ----- /^[^\s@]+@[^\s@]+\.[^\s@]+$/ -----------------------------------------

  /** A character of the class `[^\s@]`. */
  predicate PlainChar(c: char) {
    !IsWhitespace(c) && c != '@'
  }

  /** Every character of `s` from index `a` up to `b` is in `[^\s@]`. */
  predicate PlainBetween(s: string, a: int, b: int) {
    forall k :: a <= k < b && 0 <= k < |s| ==> PlainChar(s[k])
  }

  /** The position of the first '@', or |s| when there is none. */
  function AtIndex(s: string): (i: nat)
    ensures i <= |s| && '@' !in s[..i]
    ensures i < |s| ==> s[i] == '@'
  {
    if s == [] || s[0] == '@' then 0
    else
      var i := 1 + AtIndex(s[1..]);
      assert s[..i] == [s[0]] + s[1..][..i - 1];
      i
  }

  /** The email check, read left to right: a non-empty local part up to the
      first '@', no other '@' and no white space anywhere, and a '.' in the
      domain that is neither its first nor its last character. */
  function IsEmailAddress(s: string): (ok: bool)
    ensures ok ==> |s| >= 5 && '@' in s && forall k :: 0 <= k < |s| ==> !IsWhitespace(s[k])
  {
    var i := AtIndex(s);
    && 0 < i && i + 3 < |s|
    && PlainBetween(s, 0, i)
    && PlainBetween(s, i + 1, |s|)
    && '.' in s[i + 2..|s| - 1]
  }

  /** The words of the regular expression: `a@b.c` with `a`, `b`, `c`
      non-empty runs of `[^\s@]`, the '@' at index `i`, the '.' at index `j`. */
  predicate EmailSplit(s: string, i: int, j: int) {
    && 0 < i && i + 1 < j && j + 1 < |s|
    && s[i] == '@' && s[j] == '.'
    && PlainBetween(s, 0, i) && PlainBetween(s, i + 1, j) && PlainBetween(s, j + 1, |s|)
  }

  /** Without an '@' there is no address. */
  lemma NoAtNoEmail(s: string)
    requires '@' !in s
    ensures !IsEmailAddress(s)
  {
    assert AtIndex(s) == |s|;
  }

  /** The email check accepts exactly the words of the regular expression. */
  lemma EmailAddressIff(s: string)
    ensures IsEmailAddress(s) <==> exists i, j :: EmailSplit(s, i, j)
  {
    var i := AtIndex(s);
    if IsEmailAddress(s) {
      var d := s[i + 2..|s| - 1];
      var m :| 0 <= m < |d| && d[m] == '.';
      var j := i + 2 + m;
      assert s[j] == '.';
      assert EmailSplit(s, i, j);
    }
    if exists i', j' :: EmailSplit(s, i', j') {
      var i', j' :| EmailSplit(s, i', j');
      assert '@' !in s[..i'] by {
        forall k | 0 <= k < i' ensures s[..i'][k] != '@' {
          assert PlainChar(s[k]);
        }
      }
      assert i' == i;
      assert s[i + 2..|s| - 1][j' - i - 2] == '.';
    }
  }

  // ----- password patterns ------------------------------------------------------

  predicate NoLineTerminator(s: string) {
    forall k :: 0 <= k < |s| ==> !IsLineTerminator(s[k])
  }

  predicate HasDigit(s: string) {
    exists k :: 0 <= k < |s| && IsDigit(s[k])
  }

  predicate HasLower(s: string) {
    exists k :: 0 <= k < |s| && 'a' <= s[k] <= 'z'
  }

  predicate HasUpper(s: string) {
    exists k :: 0 <= k < |s| && 'A' <= s[k] <= 'Z'
  }

  /** `/^(?=.*\d).{8,}$/`: at least eight characters on one line, one of them
      a digit. */
  function IsDigitPassword(s: string): (ok: bool)
    ensures ok ==> |s| >= 8 && exists k :: 0 <= k < |s| && IsDigit(s[k])
  {
    |s| >= 8 && NoLineTerminator(s) && HasDigit(s)
  }

  /** `/^(?=.*[a-z])(?=.*[A-Z])(?=.*\d).{8,}$/`: as above, and also a
      lower-case and an upper-case ASCII letter. */
  function IsStrongPassword(s: string): (ok: bool)
    ensures ok ==> IsDigitPassword(s)
    ensures ok ==> (exists k :: 0 <= k < |s| && 'a' <= s[k] <= 'z') && (exists k :: 0 <= k < |s| && 'A' <= s[k] <= 'Z')
    ensures ok <== && |s| >= 8
                   && (forall k :: 0 <= k < |s| ==> !IsLineTerminator(s[k]))
                   && (exists k :: 0 <= k < |s| && IsDigit(s[k]))
                   && (exists k :: 0 <= k < |s| && 'a' <= s[k] <= 'z')
                   && (exists k :: 0 <= k < |s| && 'A' <= s[k] <= 'Z')
  {
    IsDigitPassword(s) && HasLower(s) && HasUpper(s)
  }
}
