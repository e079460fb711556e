/** Rendering a field: the derived-value engine, the coercion of raw input into
    a form value, and what a rendered input shows. */
module FieldRenderer {
  import opened Types
  import opened JsValues
  import Seqs
  import NumberFacts

  /** What the free-form formula evaluator does with a formula and the parent
      values: returns a value, or throws (a syntax error, a bad index, ...). */
  datatype Eval = Returned(v: Value) | Threw

  /** One parent's effective value: the form value when it is neither
      undefined nor null, else the default of the first field with that id
      when it has one, else `''`. */
  function ResolveParent(id: string, form: FormSchema, values: map<string, Value>): (v: Value)
    ensures v != Undefined
    ensures id in values && values[id] != Undefined ==> v == values[id]
    ensures !(id in values && values[id] != Undefined) ==>
      forall k :: 0 <= k < |form.fields| && form.fields[k].id == id &&
                  (forall j :: 0 <= j < k ==> form.fields[j].id != id) ==>
        v == if form.fields[k].defaultValue != Undefined then form.fields[k].defaultValue else Str("")
    ensures !(id in values && values[id] != Undefined) &&
              (forall k :: 0 <= k < |form.fields| ==> form.fields[k].id != id)
            ==> v == Str("")
  {
    if id in values && values[id] != Undefined then values[id]
    else
      match Seqs.FirstIndex(form.fields, HasId(id))
      case Some(i) =>
        var f := form.fields[i];
        if f.defaultValue != Undefined then f.defaultValue else Str("")
      case None => Str("")
  }

  /** The parent values, resolved one by one in `parentFields` order. */
  function ResolveParents(ids: seq<string>, form: FormSchema, values: map<string, Value>): (vs: seq<Value>)
    ensures |vs| == |ids|
    ensures forall k :: 0 <= k < |ids| ==> vs[k] == ResolveParent(ids[k], form, values)
  {
    if ids == [] then []
    else [ResolveParent(ids[0], form, values)] + ResolveParents(ids[1..], form, values)
  }

  /** `toLowerCase()` on ASCII letters. No other character lower-cases into
      one of the letters of "sum" or "average", so the keyword comparison is
      the same as with full Unicode case mapping. */
  function LowerAscii(s: string): (r: string)
    ensures |r| == |s|
    ensures forall k :: 0 <= k < |s| ==> r[k] == if 'A' <= s[k] <= 'Z' then (s[k] as int + 32) as char else s[k]
  {
    if s == [] then []
    else
      var c := s[0];
      [if 'A' <= c <= 'Z' then (c as int + 32) as char else c] + LowerAscii(s[1..])
  }

  /** `Number(val) || 0`. */
  function NumberOrZero(v: Value): real {
    match ToNumber(v)
    case Some(x) => x
    case None => 0.0
  }

  /** `reduce((acc, val) => acc + (Number(val) || 0), 0)`. */
  function SumOf(vs: seq<Value>): (r: real)
    ensures (forall k :: 0 <= k < |vs| ==> ToNumber(vs[k]).None?) ==> r == 0.0
  {
    if vs == [] then 0.0 else SumOf(vs[..|vs| - 1]) + NumberOrZero(vs[|vs| - 1])
  }

  /** `vs.map(Number).filter(n => !isNaN(n))`. */
  function Numbers(vs: seq<Value>): (ns: seq<real>)
    ensures |ns| <= |vs|
  {
    if vs == [] then []
    else
      var prev := Numbers(vs[..|vs| - 1]);
      match ToNumber(vs[|vs| - 1])
      case Some(x) => prev + [x]
      case None => prev
  }

  function Total(xs: seq<real>): real {
    if xs == [] then 0.0 else Total(xs[..|xs| - 1]) + xs[|xs| - 1]
  }

  /** The `average` keyword: the mean of the values that convert to numbers,
      undefined when none does. */
  function Average(vs: seq<Value>): (r: Value)
    ensures r == Undefined || r.Num?
  {
    var ns := Numbers(vs);
    if |ns| > 0 then Num(Total(ns) / |ns| as real) else Undefined
  }

  /** The derived-value engine. Undefined unless the field is derived, has
      parent fields, a non-empty formula, and there is a form; then the
      keyword `sum` or `average` (any letter case), else the free-form
      evaluator, whose throwing gives undefined. */
  function CalculateDerivedValue(field: Field, form: Option<FormSchema>, values: map<string, Value>,
                                 custom: (string, seq<Value>) -> Eval): (r: Value)
    ensures !Configured(field, form) ==> r == Undefined
    ensures Configured(field, form) && LowerAscii(field.formula.value) == "sum" ==> r.Num?
    ensures Configured(field, form) && LowerAscii(field.formula.value) == "average" ==> r == Undefined || r.Num?
    ensures Configured(field, form) && LowerAscii(field.formula.value) !in {"sum", "average"} &&
              custom(field.formula.value, Parents(field, form, values)).Threw?
            ==> r == Undefined
    ensures Configured(field, form) && LowerAscii(field.formula.value) !in {"sum", "average"} &&
              custom(field.formula.value, Parents(field, form, values)).Returned?
            ==> r == custom(field.formula.value, Parents(field, form, values)).v
  {
    if !IsDerived(field) || field.parentFields.None? || field.formula.None? || field.formula.value == "" || form.None? then
      Undefined
    else
      var parents := ResolveParents(field.parentFields.value, form.value, values);
      var keyword := LowerAscii(field.formula.value);
      if keyword == "sum" then Num(SumOf(parents))
      else if keyword == "average" then Average(parents)
      else
        match custom(field.formula.value, parents)
        case Returned(v) => v
        case Threw => Undefined
  }

  /** The field carries everything the engine needs to compute a value. */
  predicate Configured(field: Field, form: Option<FormSchema>) {
    IsDerived(field) && field.parentFields.Some? && field.formula.Some? && field.formula.value != "" && form.Some?
  }

  function Parents(field: Field, form: Option<FormSchema>, values: map<string, Value>): seq<Value>
    requires Configured(field, form)
  {
    ResolveParents(field.parentFields.value, form.value, values)
  }

  /** Non-numeric values add 0 to a sum: the sum is the total of the values
      that convert to numbers. */
  lemma {:induction false} SumIsTotalOfNumbers(vs: seq<Value>)
    ensures SumOf(vs) == Total(Numbers(vs))
  {
    if vs != [] {
      SumIsTotalOfNumbers(vs[..|vs| - 1]);
      var ns := Numbers(vs[..|vs| - 1]);
      match ToNumber(vs[|vs| - 1])
      case Some(x) =>
        assert (ns + [x])[..|ns + [x]| - 1] == ns;
      case None =>
    }
  }

  /** A single value adds its number to a sum, or 0 when it does not
      convert. */
  lemma SumOfSingle(v: Value)
    ensures SumOf([v]) == NumberOrZero(v)
  {
    assert [v][..0] == [];
  }

  /** A sum over two runs of values is the sum over the first plus the sum
      over the second. */
  lemma {:induction false} SumOfAppend(a: seq<Value>, b: seq<Value>)
    ensures SumOf(a + b) == SumOf(a) + SumOf(b)
  {
    if b == [] {
      assert a + b == a;
    } else {
      var init := b[..|b| - 1];
      assert (a + b)[..|a + b| - 1] == a + init;
      assert (a + b)[|a + b| - 1] == b[|b| - 1];
      SumOfAppend(a, init);
    }
  }

  /** The average filter keeps a single value's number when it converts, and
      nothing when it does not. */
  lemma NumbersSingle(v: Value)
    ensures Numbers([v]) == (if ToNumber(v).Some? then [ToNumber(v).value] else [])
  {
    assert [v][..0] == [];
  }

  /** The average filter works value by value: over two runs of values it
      keeps the first run's numbers followed by the second's. */
  lemma {:induction false} NumbersAppend(a: seq<Value>, b: seq<Value>)
    ensures Numbers(a + b) == Numbers(a) + Numbers(b)
  {
    if b == [] {
      assert a + b == a;
    } else {
      var init := b[..|b| - 1];
      assert (a + b)[..|a + b| - 1] == a + init;
      assert (a + b)[|a + b| - 1] == b[|b| - 1];
      NumbersAppend(a, init);
    }
  }

  /** No value is kept by the average filter exactly when no value converts
      to a number. */
  lemma {:induction false} NumbersEmptyIff(vs: seq<Value>)
    ensures Numbers(vs) == [] <==> forall k :: 0 <= k < |vs| ==> ToNumber(vs[k]).None?
  {
    if vs != [] {
      NumbersEmptyIff(vs[..|vs| - 1]);
      assert forall k :: 0 <= k < |vs| - 1 ==> vs[..|vs| - 1][k] == vs[k];
    }
  }

  /** Every number kept by the average filter is the conversion of one of
      the values. */
  lemma {:induction false} NumbersComeFromValues(vs: seq<Value>, m: nat)
    requires m < |Numbers(vs)|
    ensures exists k :: 0 <= k < |vs| && ToNumber(vs[k]) == Some(Numbers(vs)[m])
  {
    var init := vs[..|vs| - 1];
    if m < |Numbers(init)| {
      NumbersComeFromValues(init, m);
      var k :| 0 <= k < |init| && ToNumber(init[k]) == Some(Numbers(init)[m]);
      assert vs[k] == init[k];
    } else {
      assert ToNumber(vs[|vs| - 1]) == Some(Numbers(vs)[m]);
    }
  }

  /** A total of numbers between `lo` and `hi` lies between `lo` and `hi`
      times their count. */
  lemma {:induction false} TotalBounds(xs: seq<real>, lo: real, hi: real)
    requires forall m :: 0 <= m < |xs| ==> lo <= xs[m] <= hi
    ensures lo * |xs| as real <= Total(xs) <= hi * |xs| as real
  {
    if xs != [] {
      TotalBounds(xs[..|xs| - 1], lo, hi);
    }
  }

  /** `sum`, in any letter case: always a number, the total of the parents
      that convert to numbers, 0 for an empty parent list. */
  lemma SumResult(field: Field, form: Option<FormSchema>, values: map<string, Value>,
                  custom: (string, seq<Value>) -> Eval)
    requires Configured(field, form) && LowerAscii(field.formula.value) == "sum"
    ensures CalculateDerivedValue(field, form, values, custom) == Num(Total(Numbers(Parents(field, form, values))))
    ensures field.parentFields.value == [] ==> CalculateDerivedValue(field, form, values, custom) == Num(0.0)
  {
    SumIsTotalOfNumbers(Parents(field, form, values));
  }

  /** Dividing a total by a positive count and multiplying back gives the
      total. */
  lemma MeanTimesCount(t: real, n: real)
    requires n > 0.0
    ensures (t / n) * n == t
  {
  }

  /** The mean of a total over a positive count lies within the bounds the
      count scales. */
  lemma MeanBounds(t: real, n: real, lo: real, hi: real)
    requires n > 0.0 && lo * n <= t <= hi * n
    ensures lo <= t / n <= hi
  {
    MeanTimesCount(t, n);
  }

  /** Every number kept by the average filter lies within bounds that hold
      for every value that converts to a number. */
  lemma NumbersBounded(ps: seq<Value>, lo: real, hi: real)
    requires forall k :: 0 <= k < |ps| && ToNumber(ps[k]).Some? ==> lo <= ToNumber(ps[k]).value <= hi
    ensures forall m :: 0 <= m < |Numbers(ps)| ==> lo <= Numbers(ps)[m] <= hi
  {
    forall m | 0 <= m < |Numbers(ps)| ensures lo <= Numbers(ps)[m] <= hi {
      NumbersComeFromValues(ps, m);
    }
  }

  /** The mean of numbers between `lo` and `hi` lies between `lo` and `hi`. */
  lemma MeanWithin(xs: seq<real>, lo: real, hi: real)
    requires |xs| > 0 && forall m :: 0 <= m < |xs| ==> lo <= xs[m] <= hi
    ensures lo <= Total(xs) / |xs| as real <= hi
  {
    TotalBounds(xs, lo, hi);
    MeanBounds(Total(xs), |xs| as real, lo, hi);
  }

  /** The average is undefined exactly when no value converts to a number. */
  lemma AverageUndefinedIff(ps: seq<Value>)
    ensures Average(ps) == Undefined <==> forall k :: 0 <= k < |ps| ==> ToNumber(ps[k]).None?
  {
    NumbersEmptyIff(ps);
  }

  /** A defined average lies between any bounds on the values that convert
      to numbers, so between the least and the greatest of them. */
  lemma AverageBounds(ps: seq<Value>, lo: real, hi: real)
    requires forall k :: 0 <= k < |ps| && ToNumber(ps[k]).Some? ==> lo <= ToNumber(ps[k]).value <= hi
    ensures Average(ps) != Undefined ==> Average(ps).Num? && lo <= Average(ps).x <= hi
  {
    var ns := Numbers(ps);
    if |ns| > 0 {
      NumbersBounded(ps, lo, hi);
      MeanWithin(ns, lo, hi);
    }
  }

  /** A defined average is the total of the numeric values over their count. */
  lemma AverageIsMean(ps: seq<Value>)
    ensures Average(ps) != Undefined ==> |Numbers(ps)| > 0 && Average(ps) == Num(Total(Numbers(ps)) / |Numbers(ps)| as real)
  {
  }

  /** A defined average is the `sum` of the same values divided by the
      count of those that convert to numbers. */
  lemma AverageIsSumOverCount(ps: seq<Value>)
    ensures Average(ps) != Undefined ==> |Numbers(ps)| > 0 && Average(ps) == Num(SumOf(ps) / |Numbers(ps)| as real)
  {
    AverageIsMean(ps);
    SumIsTotalOfNumbers(ps);
  }

  /** The engine on an `average` formula, in any letter case, is the
      average of the resolved parents. */
  lemma AverageResult(field: Field, form: Option<FormSchema>, values: map<string, Value>,
                      custom: (string, seq<Value>) -> Eval)
    requires Configured(field, form) && LowerAscii(field.formula.value) == "average"
    ensures CalculateDerivedValue(field, form, values, custom) == Average(Parents(field, form, values))
  {
  }

  /** The formula keyword ignores letter case: two formulas that lower-case
      to `sum` or `average` compute the same value. */
  lemma KeywordIgnoresCase(field: Field, formula: string, form: Option<FormSchema>, values: map<string, Value>,
                           custom: (string, seq<Value>) -> Eval)
    requires Configured(field, form) && formula != ""
    requires LowerAscii(formula) == LowerAscii(field.formula.value)
    requires LowerAscii(formula) in {"sum", "average"}
    ensures CalculateDerivedValue(field.(formula := Some(formula)), form, values, custom) ==
            CalculateDerivedValue(field, form, values, custom)
  {
  }

  // ----- input and display -------------------------------------------------------

  /** The value an input change produces: a checkbox gives its checked state,
      a number input `Number(text)` (or `''` when the text is empty), every
      other kind the text itself. */
  function CoerceInput(kind: FieldKind, text: string, checked: bool): (v: Value)
    ensures kind == Checkbox ==> v == Bool(checked)
    ensures kind == Number && text == "" ==> v == Str("")
    ensures kind == Number && text != "" ==> ToNumber(v) == StringToNumber(text) && (v.Num? || v.NaN?)
    ensures kind != Checkbox && kind != Number ==> v == Str(text)
  {
    match kind
    case Checkbox => Bool(checked)
    case Number => if text != "" then NumberValue(StringToNumber(text)) else Str("")
    case _ => Str(text)
  }

  /** Typing the text of an integer into a number input stores that number. */
  lemma NumberInputRoundTrip(i: int, checked: bool)
    ensures CoerceInput(Number, NumberText(i as real), checked) == Num(i as real)
  {
    NumberFacts.NumberTextRoundTrip(i);
    assert NumberText(i as real) != "" by {
      var a := if i < 0 then -i else i;
      assert |DecimalText(a)| > 0;
    }
  }

  /** `x || ''`. */
  function OrBlank(v: Value): Value {
    if Truthy(v) then v else Str("")
  }

  /** What a text, textarea, number or date input shows: a derived field its
      derived value, any other field its value, with a falsy one shown blank. */
  function ShownText(field: Field, value: Value, derived: Value): (shown: Value)
    ensures IsDerived(field) && !Truthy(derived) ==> shown == Str("")
    ensures IsDerived(field) && Truthy(derived) ==> shown == derived
    ensures !IsDerived(field) ==> shown == OrBlank(value)
  {
    OrBlank(if IsDerived(field) then derived else value)
  }

  /** A derived field ignores whatever value is stored for it, and shows a
      computed 0 as blank. */
  lemma DerivedDisplay(field: Field, value1: Value, value2: Value, derived: Value)
    requires IsDerived(field)
    ensures ShownText(field, value1, derived) == ShownText(field, value2, derived)
    ensures ShownText(field, value1, Num(0.0)) == Str("")
  {
  }
}
