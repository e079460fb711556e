/** What `Number()` makes of short texts and of the text `String()` gives
    an integer. */
module NumberFacts {
  import opened Types
  import opened JsValues

  /** A one-character text that is neither a digit nor '.' is no unsigned
      number. */
  lemma NonDigitIsNoDecimal(c: char)
    requires !IsDigit(c) && c != '.'
    ensures UnsignedDecimal([c]) == None
  {
    assert DigitPrefixLength([c]) == 0;
  }

  /** A one-digit text is that digit as an unsigned number. */
  lemma DigitIsDecimal(c: char)
    requires IsDigit(c)
    ensures UnsignedDecimal([c]) == Some((c as int - '0' as int) as real)
  {
    assert DigitPrefixLength([c]) == 1 by {
      assert [c][1..] == [];
    }
    assert [c][..1] == [c];
    assert DigitsValue([c]) == c as int - '0' as int by {
      assert [c][..0] == [];
    }
  }

  /** Without outer white space and without a sign, `Number()` reads the
      text as an unsigned decimal literal. */
  lemma UnsignedText(s: string)
    requires Trimmed(s) && s != [] && s[0] != '-' && s[0] != '+'
    ensures StringToNumber(s) == UnsignedDecimal(s)
  {
    TrimTrimmed(s);
  }

  /** Without outer white space, a minus sign negates the literal after
      it. */
  lemma NegativeText(s: string, x: real)
    requires Trimmed(s) && s != [] && s[0] == '-' && UnsignedDecimal(s[1..]) == Some(x)
    ensures StringToNumber(s) == Some(-x)
  {
    TrimTrimmed(s);
  }

  /** A one-character text that is not a digit, a sign, a '.' or white
      space is NaN. */
  lemma LetterIsNaN(c: char)
    requires !IsDigit(c) && !IsWhitespace(c) && c != '-' && c != '+' && c != '.'
    ensures StringToNumber([c]) == None
  {
    UnsignedText([c]);
    NonDigitIsNoDecimal(c);
  }

  /** A one-digit text is that digit's number. */
  lemma DigitIsNumber(c: char)
    requires IsDigit(c)
    ensures StringToNumber([c]) == Some((c as int - '0' as int) as real)
  {
    UnsignedText([c]);
    DigitIsDecimal(c);
  }

  /** Digits read as the unsigned literal they spell. */
  lemma DigitsNumber(d: string, x: real)
    requires d != [] && AllDigits(d) && UnsignedDecimal(d) == Some(x)
    ensures StringToNumber(d) == Some(x)
  {
    UnsignedText(d);
  }

  /** A minus sign before digits negates the literal they spell. */
  lemma NegatedDigitsNumber(d: string, x: real)
    requires d != [] && AllDigits(d) && UnsignedDecimal(d) == Some(x)
    ensures StringToNumber("-" + d) == Some(-x)
  {
    var t := "-" + d;
    assert t[1..] == d && t[|t| - 1] == d[|d| - 1];
    NegativeText(t, x);
  }

  /** The text of a natural number reads as that number. */
  lemma DecimalTextNumber(n: nat)
    ensures StringToNumber(DecimalText(n)) == Some(n as real)
  {
    DecimalTextReads(n);
    DigitsNumber(DecimalText(n), n as real);
  }

  /** The text of a natural number after a minus sign reads as its
      negation. */
  lemma NegatedTextNumber(n: nat)
    ensures StringToNumber("-" + DecimalText(n)) == Some(-(n as real))
  {
    DecimalTextReads(n);
    NegatedDigitsNumber(DecimalText(n), n as real);
  }

  /** `String()` of a whole number that is not negative is its decimal
      text. */
  lemma WholeText(n: nat)
    ensures NumberText(n as real) == DecimalText(n)
  {
    assert (n as real).Floor == n;
  }

  /** `String()` of a negative whole number is a minus sign and the decimal
      text of its magnitude. */
  lemma NegativeWholeText(n: nat)
    requires n > 0
    ensures NumberText(-(n as real)) == "-" + DecimalText(n)
  {
    assert -(-(n as real)) == n as real;
    assert (n as real).Floor == n;
  }

  lemma WholeRoundTrip(n: nat)
    ensures StringToNumber(NumberText(n as real)) == Some(n as real)
  {
    WholeText(n);
    DecimalTextNumber(n);
  }

  lemma NegativeRoundTrip(i: int)
    requires i < 0
    ensures StringToNumber(NumberText(i as real)) == Some(i as real)
  {
    var n: nat := -i;
    assert i as real == -(n as real);
    NegativeWholeText(n);
    NegatedTextNumber(n);
  }

  /** `Number()` reads back the text of every integer. */
  lemma NumberTextRoundTrip(i: int)
    ensures StringToNumber(NumberText(i as real)) == Some(i as real)
  {
    if i < 0 {
      NegativeRoundTrip(i);
    } else {
      WholeRoundTrip(i);
    }
  }
}
