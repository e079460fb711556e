/** The standalone field validator: rules in declaration order, the message of
    the first failing rule, or the empty string. It has no required check,
    `notEmpty` does not trim, and its password rule asks only for a digit. */
module Validation {
  import opened Types
  import opened JsValues
  import opened Patterns
  import Seqs
  import NumberFacts

  /** Whether one rule rejects `v`. The email and password expressions are
      tested against `String(v)`, so they also reject a truthy number or
      `true` whose text does not fit. */
  function RuleFails(rule: ValidationRule, v: Value): (fails: bool)
    ensures rule.kind == NotEmpty ==> (fails <==> v in {Undefined, Str(""), Num(0.0), NaN, Bool(false)})
    ensures (rule.kind == MinLength || rule.kind == MaxLength) && !v.Str? ==> !fails
    ensures (rule.kind == Email || rule.kind == CustomPassword) && fails ==> Truthy(v)
  {
    match rule.kind
    case NotEmpty => !Truthy(v)
    case MinLength => v.Str? && ShorterThan(v.s, rule.value)
    case MaxLength => v.Str? && LongerThan(v.s, rule.value)
    case Email => Truthy(v) && !IsEmailAddress(RegexText(v))
    case CustomPassword => Truthy(v) && !IsDigitPassword(RegexText(v))
  }

  /** Rule `i` is the first of `rules` that rejects `v`. */
  predicate FirstFailureAt(rules: seq<ValidationRule>, v: Value, i: int) {
    0 <= i < |rules| && RuleFails(rules[i], v) && forall j :: 0 <= j < i ==> !RuleFails(rules[j], v)
  }

  /** `rule` rejects `v`, as a test on rules. */
  function FailsOn(v: Value): ValidationRule -> bool {
    (rule: ValidationRule) => RuleFails(rule, v)
  }

  /** The rule loop: the message of the first rule that fails, or `''`. */
  function ValidateRules(rules: seq<ValidationRule>, v: Value): (m: string)
    ensures m == "" || exists i :: 0 <= i < |rules| && m == rules[i].message
  {
    match Seqs.FirstIndex(rules, FailsOn(v))
    case None => ""
    case Some(i) => rules[i].message
  }

  /** The rule loop gives `''` when no rule rejects the value, and otherwise
      the message of the first rule that does. */
  lemma ValidateRulesFirstFailure(rules: seq<ValidationRule>, v: Value)
    ensures (forall i :: 0 <= i < |rules| ==> !RuleFails(rules[i], v)) ==> ValidateRules(rules, v) == ""
    ensures forall i :: FirstFailureAt(rules, v, i) ==> ValidateRules(rules, v) == rules[i].message
  {
    forall k | 0 <= k < |rules| ensures FailsOn(v)(rules[k]) == RuleFails(rules[k], v) {
    }
  }

  /** `validateField`: there is no required check, so a field without rules
      accepts every value, whether or not it is required. */
  function ValidateField(field: Field, v: Value): (m: string)
    ensures field.validations == [] ==> m == ""
    ensures m == "" || exists i :: 0 <= i < |field.validations| && m == field.validations[i].message
  {
    ValidateRules(field.validations, v)
  }

  /** A truthy number whose text is an integer never passes the email rule:
      its text has no '@'. */
  lemma EmailRejectsIntegers(rule: ValidationRule, i: int)
    requires rule.kind == Email && i != 0
    ensures RuleFails(rule, Num(i as real))
  {
    var t := RegexText(Num(i as real));
    if i < 0 {
      NumberFacts.NegativeWholeText(-i);
      assert i as real == -((-i) as real);
      assert t == "-" + DecimalText(-i);
    } else {
      NumberFacts.WholeText(i);
      assert t == DecimalText(i);
    }
    assert '@' !in t;
    NoAtNoEmail(t);
  }

  /** The digit password rule on a string: length at least eight, one line,
      a digit somewhere; letters are not looked at. */
  lemma DigitPasswordIgnoresCase(rule: ValidationRule, s: string)
    requires rule.kind == CustomPassword && s != ""
    ensures RuleFails(rule, Str(s)) <==>
            |s| < 8 || (exists k :: 0 <= k < |s| && IsLineTerminator(s[k])) ||
            (forall k :: 0 <= k < |s| ==> !IsDigit(s[k]))
  {
  }

  /** On non-empty text the email rule fails exactly when the text is not an
      address. */
  lemma EmailRuleOnText(rule: ValidationRule, s: string)
    requires rule.kind == Email && s != ""
    ensures RuleFails(rule, Str(s)) <==> !IsEmailAddress(s)
  {
  }

  /** With a whole-number bound `n`, `minLength` fails on text shorter than
      `n` and `maxLength` on text longer than `n`, and on nothing else. */
  lemma LengthRulesOnText(rule: ValidationRule, s: string, n: int)
    requires rule.value == Some(NumberBound(n as real))
    ensures rule.kind == MinLength ==> (RuleFails(rule, Str(s)) <==> |s| < n)
    ensures rule.kind == MaxLength ==> (RuleFails(rule, Str(s)) <==> |s| > n)
  {
  }
}
