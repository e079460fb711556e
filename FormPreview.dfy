/** The preview screen: its own field validator (a required check, then the
    rules in order), the submit loop that builds the error map, and the
    value/error state that input changes update. */
module FormPreview {
  import opened Types
  import opened JsValues
  import opened Patterns
  import Seqs
  import Validation

  const RequiredMessage := "This field is required"

  /** `!value && value !== 0 && value !== false`: the value counts as missing
      for a required field. */
  predicate MissingForRequired(v: Value) {
    !Truthy(v) && v != Num(0.0) && v != Bool(false)
  }

  /** Whether one rule rejects `v`. Only `notEmpty` looks at non-strings. */
  function RuleFails(rule: ValidationRule, v: Value): (fails: bool)
    ensures rule.kind == NotEmpty && !v.Str? ==> (fails <==> v in {Undefined, Num(0.0), NaN, Bool(false)})
    ensures rule.kind != NotEmpty && !v.Str? ==> !fails
  {
    match rule.kind
    case NotEmpty => !Truthy(v) || (v.Str? && Trim(v.s) == "")
    case MinLength => v.Str? && ShorterThan(v.s, rule.value)
    case MaxLength => v.Str? && LongerThan(v.s, rule.value)
    case Email => v.Str? && !IsEmailAddress(v.s)
    case CustomPassword => v.Str? && !IsStrongPassword(v.s)
  }

  /** Rule `i` is the first of `rules` that rejects `v`. */
  predicate FirstFailureAt(rules: seq<ValidationRule>, v: Value, i: int) {
    0 <= i < |rules| && RuleFails(rules[i], v) && forall j :: 0 <= j < i ==> !RuleFails(rules[j], v)
  }

  /** `rule` rejects `v`, as a test on rules. */
  function FailsOn(v: Value): ValidationRule -> bool {
    (rule: ValidationRule) => RuleFails(rule, v)
  }

  /** The rule loop of the validator: the first failing rule's message. */
  function CheckRules(rules: seq<ValidationRule>, v: Value): (r: Option<string>)
    ensures r.Some? ==> exists i :: 0 <= i < |rules| && r.value == rules[i].message
  {
    match Seqs.FirstIndex(rules, FailsOn(v))
    case None => None
    case Some(i) => Some(rules[i].message)
  }

  /** The rule loop gives nothing when no rule rejects the value, and
      otherwise the message of the first rule that does. */
  lemma CheckRulesFirstFailure(rules: seq<ValidationRule>, v: Value)
    ensures CheckRules(rules, v).None? <==> forall i :: 0 <= i < |rules| ==> !RuleFails(rules[i], v)
    ensures forall i :: FirstFailureAt(rules, v, i) ==> CheckRules(rules, v) == Some(rules[i].message)
  {
    forall k | 0 <= k < |rules| ensures FailsOn(v)(rules[k]) == RuleFails(rules[k], v) {
    }
  }

  /** The validator: an absent, empty or NaN value of a required field gets
      the required message and no rule is looked at; `0` and `false` are
      present values; otherwise the first failing rule decides. */
  function ValidateField(field: Field, v: Value): (r: Option<string>)
    ensures field.required && v in {Undefined, Str(""), NaN} ==> r == Some(RequiredMessage)
    ensures !field.required || v !in {Undefined, Str(""), NaN} ==> r == CheckRules(field.validations, v)
  {
    if field.required && MissingForRequired(v) then Some(RequiredMessage)
    else CheckRules(field.validations, v)
  }

  /** `0` and `false` never draw the required message from the required
      check: a required field with either value is judged by its rules alone. */
  lemma ZeroAndFalseArePresent(field: Field)
    requires field.required
    ensures ValidateField(field, Num(0.0)) == CheckRules(field.validations, Num(0.0))
    ensures ValidateField(field, Bool(false)) == CheckRules(field.validations, Bool(false))
  {
  }

  /** `notEmpty` fails on every falsy value, 0 and false included, and on a
      string of white space alone. */
  lemma NotEmptyFails(rule: ValidationRule, v: Value)
    requires rule.kind == NotEmpty
    ensures RuleFails(rule, v) <==>
            v in {Undefined, Num(0.0), NaN, Bool(false)} ||
            (v.Str? && forall k :: 0 <= k < |v.s| ==> IsWhitespace(v.s[k]))
  {
    if v.Str? {
      TrimEmptyIff(v.s);
    }
  }

  /** With `notEmpty` listed before `email`, an empty value gets the
      `notEmpty` message. */
  lemma NotEmptyBeforeEmail(field: Field, a: ValidationRule, b: ValidationRule)
    requires !field.required && field.validations == [a, b]
    requires a.kind == NotEmpty && b.kind == Email
    ensures ValidateField(field, Str("")) == Some(a.message)
  {
    CheckRulesFirstFailure(field.validations, Str(""));
    assert FirstFailureAt(field.validations, Str(""), 0);
  }

  /** A string one preview rule accepts is accepted by the same rule in the
      standalone validator. */
  lemma RuleStricterOnStrings(rule: ValidationRule, s: string)
    requires !RuleFails(rule, Str(s))
    ensures !Validation.RuleFails(rule, Str(s))
  {
  }

  /** A string the preview validator accepts is also accepted by the
      standalone validator: every preview rule is at least as strict on
      strings. */
  lemma StricterOnStrings(rules: seq<ValidationRule>, s: string)
    requires CheckRules(rules, Str(s)).None?
    ensures Validation.ValidateRules(rules, Str(s)) == ""
  {
    CheckRulesFirstFailure(rules, Str(s));
    forall i | 0 <= i < |rules| ensures !Validation.RuleFails(rules[i], Str(s)) {
      RuleStricterOnStrings(rules[i], s);
    }
    Validation.ValidateRulesFirstFailure(rules, Str(s));
  }

  /** A single space fails this `notEmpty`. */
  lemma BlankFailsNotEmpty(rule: ValidationRule)
    requires rule.kind == NotEmpty
    ensures RuleFails(rule, Str(" "))
  {
    assert Trim(" ") == "";
  }

  /** The converse does not hold: white space passes the standalone
      `notEmpty` but not this one. */
  lemma BlankSeparatesValidators(rule: ValidationRule)
    requires rule.kind == NotEmpty
    ensures Validation.ValidateRules([rule], Str(" ")) == ""
    ensures CheckRules([rule], Str(" ")) == Some(rule.message)
  {
    BlankFailsNotEmpty(rule);
    CheckRulesFirstFailure([rule], Str(" "));
    assert FirstFailureAt([rule], Str(" "), 0);
    Validation.ValidateRulesFirstFailure([rule], Str(" "));
    assert !Validation.RuleFails([rule][0], Str(" "));
  }

  /** The email rule fails on text exactly when it is not an address, the
      empty string included. */
  lemma EmailRuleOnText(rule: ValidationRule, s: string)
    requires rule.kind == Email
    ensures RuleFails(rule, Str(s)) <==> !IsEmailAddress(s)
  {
  }

  /** The password rule fails on text exactly when it is shorter than eight
      characters, spans lines, or lacks a digit, a lower-case or an
      upper-case letter. */
  lemma StrongPasswordRule(rule: ValidationRule, s: string)
    requires rule.kind == CustomPassword
    ensures RuleFails(rule, Str(s)) <==>
            || |s| < 8
            || (exists k :: 0 <= k < |s| && IsLineTerminator(s[k]))
            || (forall k :: 0 <= k < |s| ==> !IsDigit(s[k]))
            || (forall k :: 0 <= k < |s| ==> !('a' <= s[k] <= 'z'))
            || (forall k :: 0 <= k < |s| ==> !('A' <= s[k] <= 'Z'))
  {
  }

  /** With a whole-number bound `n`, `minLength` fails on text shorter than
      `n` and `maxLength` on text longer than `n`, and on nothing else. */
  lemma LengthRulesOnText(rule: ValidationRule, s: string, n: int)
    requires rule.value == Some(NumberBound(n as real))
    ensures rule.kind == MinLength ==> (RuleFails(rule, Str(s)) <==> |s| < n)
    ensures rule.kind == MaxLength ==> (RuleFails(rule, Str(s)) <==> |s| > n)
  {
  }

  // ----- submit -----------------------------------------------------------------

  /** `formValues[id]`: `undefined` for a field nobody has typed into. */
  function Lookup(values: map<string, Value>, id: string): Value {
    if id in values then values[id] else Undefined
  }

  /** The field is validated on submit and its error is recorded: it is not
      derived and its validator returns a non-empty message. */
  predicate Reported(f: Field, values: map<string, Value>) {
    && !IsDerived(f)
    && ValidateField(f, Lookup(values, f.id)).Some?
    && ValidateField(f, Lookup(values, f.id)).value != ""
  }

  /** The error map after visiting `fields` in order: a later field with the
      same id overwrites an earlier entry. */
  function SubmitErrors(fields: seq<Field>, values: map<string, Value>): (errors: map<string, string>)
    ensures forall id :: id in errors ==> errors[id] != ""
  {
    if fields == [] then map[]
    else
      var f := fields[|fields| - 1];
      var prev := SubmitErrors(fields[..|fields| - 1], values);
      if Reported(f, values) then prev[f.id := ValidateField(f, Lookup(values, f.id)).value] else prev
  }

  /** `f => f.id === id` and `f` is reported. */
  function ReportsId(values: map<string, Value>, id: string): Field -> bool {
    (f: Field) => f.id == id && Reported(f, values)
  }

  /** Some field with this id is reported. */
  predicate ReportedId(fields: seq<Field>, values: map<string, Value>, id: string) {
    Seqs.Any(fields, ReportsId(values, id))
  }

  /** The error map holds exactly the ids of the fields that are reported. */
  lemma {:induction false} SubmitErrorsKeys(fields: seq<Field>, values: map<string, Value>)
    ensures forall id :: id in SubmitErrors(fields, values) <==> ReportedId(fields, values, id)
  {
    if fields != [] {
      SubmitErrorsKeys(fields[..|fields| - 1], values);
      forall id {
        Seqs.AnyStep(fields, ReportsId(values, id));
      }
    }
  }

  /** With unique ids, each recorded message is the field's own validation
      message, and a derived field never appears in the error map. */
  lemma {:induction false} SubmitErrorsValues(fields: seq<Field>, values: map<string, Value>, i: nat)
    requires UniqueFieldIds(fields) && i < |fields|
    ensures Reported(fields[i], values) ==>
              fields[i].id in SubmitErrors(fields, values) &&
              SubmitErrors(fields, values)[fields[i].id] == ValidateField(fields[i], Lookup(values, fields[i].id)).value
    ensures IsDerived(fields[i]) ==> fields[i].id !in SubmitErrors(fields, values)
  {
    var init, last := fields[..|fields| - 1], fields[|fields| - 1];
    var id := fields[i].id;
    if i < |init| {
      SubmitErrorsValues(init, values, i);
      assert init[i] == fields[i];
      assert last.id != id;
    } else if IsDerived(fields[i]) {
      SubmitErrorsKeys(init, values);
    }
  }

  /** The error-map loop of the submit handler. */
  method CollectErrors(fields: seq<Field>, values: map<string, Value>) returns (errors: map<string, string>)
    ensures errors == SubmitErrors(fields, values)
    ensures forall id :: id in errors <==> ReportedId(fields, values, id)
  {
    errors := map[];
    var n := 0;
    while n < |fields|
      invariant n <= |fields|
      invariant errors == SubmitErrors(fields[..n], values)
    {
      var f := fields[n];
      if !IsDerived(f) {
        var error := ValidateField(f, Lookup(values, f.id));
        if error.Some? && error.value != "" {
          errors := errors[f.id := error.value];
        }
      }
      assert fields[..n + 1][..n] == fields[..n];
      n := n + 1;
    }
    assert fields[..n] == fields;
    SubmitErrorsKeys(fields, values);
  }

  // ----- screen state ----------------------------------------------------------

  datatype SubmitStatus = Idle | Succeeded | Failed

  /** The preview's state: the values typed so far, the current errors and
      the outcome of the last submit. */
  class Preview {
    var values: map<string, Value>
    var errors: map<string, string>
    var status: SubmitStatus

    constructor ()
      ensures values == map[] && errors == map[] && status == Idle
    {
      values, errors, status := map[], map[], Idle;
    }

    /** A new value for one field: that value is set, that field's error is
        cleared, nothing else changes, and the outcome is reset. */
    method HandleChange(fieldId: string, value: Value)
      modifies this
      ensures values == old(values)[fieldId := value]
      ensures errors == old(errors) - {fieldId}
      ensures forall id :: id != fieldId ==> Lookup(values, id) == Lookup(old(values), id)
      ensures forall id :: id != fieldId && id in old(errors) ==> id in errors && errors[id] == old(errors)[id]
      ensures status == Idle
    {
      values := values[fieldId := value];
      errors := errors - {fieldId};
      status := Idle;
    }

    /** Submit: nothing without a form; otherwise the errors become the error
        map of the form's fields and the outcome is success exactly when that
        map is empty. The values are left as they are. */
    method HandleSubmit(form: Option<FormSchema>)
      modifies this
      ensures form.None? ==> values == old(values) && errors == old(errors) && status == old(status)
      ensures form.Some? ==> values == old(values) && errors == SubmitErrors(form.value.fields, values)
      ensures form.Some? ==> (status == Succeeded <==> errors == map[]) && status != Idle
    {
      if form.None? {
        return;
      }
      var newErrors := CollectErrors(form.value.fields, values);
      errors := newErrors;
      if |newErrors| == 0 {
        status := Succeeded;
      } else {
        status := Failed;
      }
    }
  }

  /** A form with one derived field and one required text field whose value
      is empty: the error map names the required field only. */
  lemma RequiredBesideDerived(d: Field, t: Field)
    requires IsDerived(d) && !IsDerived(t) && t.required && d.id != t.id
    ensures SubmitErrors([d, t], map[t.id := Str("")]) == map[t.id := RequiredMessage]
  {
    var values := map[t.id := Str("")];
    assert Lookup(values, t.id) == Str("");
    assert ValidateField(t, Str("")) == Some(RequiredMessage);
    assert Reported(t, values);
    assert !Reported(d, values);
    assert [d, t][..1] == [d];
    assert [d][..0] == [];
    assert SubmitErrors([d], values) == map[];
  }
}
