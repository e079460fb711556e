/** The per-field editor: merging attribute changes into a field, the draft
    of a new validation rule, removing a rule, and the comma-separated
    options text. */
module FieldConfig {
  import opened Types
  import opened JsValues
  import Seqs
  import FormSlice

  // ----- merging changes ------------------------------------------------------------

  /** The attributes an editor change can carry; None leaves the attribute
      as it is. The id and the default value are never part of a change. */
  datatype FieldPatch = FieldPatch(
    labelText: Option<string>,
    kind: Option<FieldKind>,
    required: Option<bool>,
    validations: Option<seq<ValidationRule>>,
    options: Option<seq<string>>,
    isDerived: Option<bool>,
    parentFields: Option<seq<string>>,
    formula: Option<string>)

  const NoChange := FieldPatch(None, None, None, None, None, None, None, None)

  function Pick<T>(change: Option<T>, current: T): T {
    if change.Some? then change.value else current
  }

  /** `{ ...field, ...updates }`. */
  function Merge(f: Field, p: FieldPatch): (r: Field)
    ensures r.id == f.id && r.defaultValue == f.defaultValue
    ensures p.labelText.None? ==> r.labelText == f.labelText
    ensures p.kind.None? ==> r.kind == f.kind
    ensures p.required.None? ==> r.required == f.required
    ensures p.options.None? ==> r.options == f.options
    ensures p.validations.None? ==> r.validations == f.validations
    ensures p.isDerived.None? ==> r.isDerived == f.isDerived
    ensures p.parentFields.None? ==> r.parentFields == f.parentFields
    ensures p.formula.None? ==> r.formula == f.formula
  {
    f.(labelText := Pick(p.labelText, f.labelText),
       kind := Pick(p.kind, f.kind),
       required := Pick(p.required, f.required),
       validations := Pick(p.validations, f.validations),
       options := if p.options.Some? then p.options else f.options,
       isDerived := if p.isDerived.Some? then p.isDerived else f.isDerived,
       parentFields := if p.parentFields.Some? then p.parentFields else f.parentFields,
       formula := if p.formula.Some? then p.formula else f.formula)
  }

  /** Every attribute the change carries replaces the field's. */
  lemma MergeTakesChange(f: Field, p: FieldPatch)
    ensures p.labelText.Some? ==> Merge(f, p).labelText == p.labelText.value
    ensures p.kind.Some? ==> Merge(f, p).kind == p.kind.value
    ensures p.required.Some? ==> Merge(f, p).required == p.required.value
    ensures p.validations.Some? ==> Merge(f, p).validations == p.validations.value
    ensures p.options.Some? ==> Merge(f, p).options == Some(p.options.value)
    ensures p.isDerived.Some? ==> Merge(f, p).isDerived == Some(p.isDerived.value)
    ensures p.parentFields.Some? ==> Merge(f, p).parentFields == Some(p.parentFields.value)
    ensures p.formula.Some? ==> Merge(f, p).formula == Some(p.formula.value)
  {
  }

  /** An empty change gives back the field. */
  lemma MergeNoChange(f: Field)
    ensures Merge(f, NoChange) == f
  {
  }

  /** Applying the same change twice is applying it once. */
  lemma MergeIdempotent(f: Field, p: FieldPatch)
    ensures Merge(Merge(f, p), p) == Merge(f, p)
  {
  }

  /** One change after another is the change that takes each attribute from
      the later one when it has it. */
  function Then(p: FieldPatch, q: FieldPatch): FieldPatch {
    FieldPatch(
      if q.labelText.Some? then q.labelText else p.labelText,
      if q.kind.Some? then q.kind else p.kind,
      if q.required.Some? then q.required else p.required,
      if q.validations.Some? then q.validations else p.validations,
      if q.options.Some? then q.options else p.options,
      if q.isDerived.Some? then q.isDerived else p.isDerived,
      if q.parentFields.Some? then q.parentFields else p.parentFields,
      if q.formula.Some? then q.formula else p.formula)
  }

  lemma MergeThen(f: Field, p: FieldPatch, q: FieldPatch)
    ensures Merge(Merge(f, p), q) == Merge(f, Then(p, q))
  {
  }

  /** `handleChange`: the merged field goes to the store's `updateField`. */
  method HandleChange(store: FormSlice.FormStore, field: Field, p: FieldPatch)
    modifies store
    ensures old(store.currentForm).None? ==> store.currentForm == None
    ensures old(store.currentForm).Some? ==>
              store.currentForm == Some(old(store.currentForm).value.(fields :=
                FormSlice.ReplaceFirst(old(store.currentForm).value.fields, Merge(field, p))))
    ensures store.forms == old(store.forms)
    ensures old(store.Valid()) ==> store.Valid()
  {
    store.UpdateField(Merge(field, p));
  }

  // ----- validation rules ---------------------------------------------------------

  /** `validationValue || undefined`: the value typed into the bound input
      (`''` before any typing, else `Number(text)`) when it is truthy;
      so an entered 0, a cleared input and NaN all store no bound. */
  function StoredBound(entered: Value): (b: Option<Bound>)
    requires entered == Str("") || entered.Num? || entered.NaN?
    ensures b.None? <==> entered in {Str(""), Num(0.0), NaN}
    ensures b.Some? ==> entered.Num? && b.value == NumberBound(entered.x)
  {
    if Truthy(entered) && entered.Num? then Some(NumberBound(entered.x)) else None
  }

  /** The rules without the one at `index`: `filter((_, i) => i !== index)`. */
  function WithoutIndex<T>(s: seq<T>, index: nat): (r: seq<T>)
    ensures index < |s| ==> |r| == |s| - 1
    ensures index >= |s| ==> r == s
  {
    if s == [] then []
    else
      var init := WithoutIndex(s[..|s| - 1], index);
      if |s| - 1 == index then init else init + [s[|s| - 1]]
  }

  /** Removing by index is the splice at that index: exactly that rule goes
      and the others keep their order. */
  lemma {:induction false} WithoutIndexIsRemoveAt<T>(s: seq<T>, index: nat)
    requires index < |s|
    ensures WithoutIndex(s, index) == Seqs.RemoveAt(s, index)
  {
    var init := s[..|s| - 1];
    if index < |init| {
      WithoutIndexIsRemoveAt(init, index);
      assert Seqs.RemoveAt(s, index) == Seqs.RemoveAt(init, index) + [s[|s| - 1]];
    } else {
      assert Seqs.RemoveAt(s, index) == init;
    }
  }

  /** The draft of a new rule: the chosen kind (None for `''`), the value
      typed into the bound input and the message. */
  class RuleDraft {
    var kind: Option<RuleKind>
    var entered: Value
    var message: string

    /** What the bound input can hold: `''`, or what `Number` made of the text. */
    predicate Valid()
      reads this
    {
      entered == Str("") || entered.Num? || entered.NaN?
    }

    constructor ()
      ensures kind == None && entered == Str("") && message == "" && Valid()
    {
      kind, entered, message := None, Str(""), "";
    }

    method SetKind(k: Option<RuleKind>)
      modifies this
      ensures kind == k && entered == old(entered) && message == old(message)
    {
      kind := k;
    }

    /** The bound input's change: `Number(text)`. */
    method SetBound(text: string)
      modifies this
      ensures entered == NumberValue(StringToNumber(text)) && Valid()
      ensures kind == old(kind) && message == old(message)
    {
      entered := NumberValue(StringToNumber(text));
    }

    method SetMessage(m: string)
      modifies this
      ensures message == m && kind == old(kind) && entered == old(entered)
    {
      message := m;
    }

    /** `addValidation`: with a kind and a message chosen, the rule is
        appended to the field's rules, the field goes to `updateField`, and
        the draft is cleared; otherwise nothing happens. */
    method AddValidation(store: FormSlice.FormStore, field: Field)
      requires Valid()
      modifies this, store
      ensures old(kind).None? || old(message) == "" ==>
                && kind == old(kind) && entered == old(entered) && message == old(message)
                && store.currentForm == old(store.currentForm) && store.forms == old(store.forms)
      ensures old(kind).Some? && old(message) != "" ==>
                && kind == None && entered == Str("") && message == ""
                && (old(store.currentForm).Some? ==>
                      store.currentForm == Some(old(store.currentForm).value.(fields :=
                        FormSlice.ReplaceFirst(old(store.currentForm).value.fields,
                          field.(validations := field.validations +
                            [ValidationRule(old(kind).value, StoredBound(old(entered)), old(message))])))))
                && (old(store.currentForm).None? ==> store.currentForm == None)
                && store.forms == old(store.forms)
      ensures Valid()
    {
      if kind.Some? && message != "" {
        var rule := ValidationRule(kind.value, StoredBound(entered), message);
        store.UpdateField(field.(validations := field.validations + [rule]));
        kind := None;
        entered := Str("");
        message := "";
      }
    }
  }

  // ----- options text ---------------------------------------------------------------

  /** Each piece trimmed. */
  function TrimAll(parts: seq<string>): (r: seq<string>)
    ensures |r| == |parts|
    ensures forall k :: 0 <= k < |parts| ==> r[k] == Trim(parts[k])
  {
    seq(|parts|, k requires 0 <= k < |parts| => Trim(parts[k]))
  }

  /** The options an edit of the options text produces: split on ',', each
      piece trimmed, empty pieces kept. */
  function OptionsFromText(text: string): (opts: seq<string>)
    ensures |opts| == |Seqs.Split(text, ',')|
    ensures forall k :: 0 <= k < |opts| ==> opts[k] == Trim(Seqs.Split(text, ',')[k])
    ensures forall k :: 0 <= k < |opts| ==> ',' !in opts[k] && Trimmed(opts[k])
  {
    var parts := Seqs.Split(text, ',');
    forall k | 0 <= k < |parts| ensures ',' !in Trim(parts[k]) && Trimmed(Trim(parts[k])) {
      TrimKeepsOut(parts[k], ',');
    }
    TrimAll(parts)
  }

  /** The options text shown for editing: `options?.join(',') || ''`. No
      options show as an empty text, and options without ',' split back out
      of the text one for one. */
  function OptionsText(options: Option<seq<string>>): (text: string)
    ensures options.None? || options.value == [] ==> text == ""
    ensures options.Some? && options.value != [] ==>
              (forall k :: 0 <= k < |options.value| ==> ',' !in options.value[k]) ==>
              Seqs.Split(text, ',') == options.value
  {
    if options.None? || options.value == [] then ""
    else
      SplitsBack(options.value);
      Seqs.Join(options.value, ',')
  }

  /** Splitting the join of pieces without ',' gives back the pieces. */
  lemma SplitsBack(parts: seq<string>)
    requires parts != []
    ensures (forall k :: 0 <= k < |parts| ==> ',' !in parts[k]) ==> Seqs.Split(Seqs.Join(parts, ','), ',') == parts
  {
    if forall k :: 0 <= k < |parts| ==> ',' !in parts[k] {
      Seqs.SplitJoin(parts, ',');
    }
  }

  /** Trimming pieces that are already trimmed changes nothing. */
  lemma TrimAllTrimmed(parts: seq<string>)
    requires forall k :: 0 <= k < |parts| ==> Trimmed(parts[k])
    ensures TrimAll(parts) == parts
  {
    forall k | 0 <= k < |parts| ensures TrimAll(parts)[k] == parts[k] {
      TrimTrimmed(parts[k]);
    }
  }

  /** Editing the shown text back unchanged gives the same options, for
      options that are trimmed and hold no ','. */
  lemma OptionsRoundTrip(opts: seq<string>)
    requires opts != []
    requires forall k :: 0 <= k < |opts| ==> ',' !in opts[k] && Trimmed(opts[k])
    ensures OptionsFromText(OptionsText(Some(opts))) == opts
  {
    TrimAllTrimmed(opts);
  }

  /** Empty pieces are kept: there is one option per comma plus one, so a
      cleared text gives a single empty option. */
  lemma OptionsCount(text: string)
    ensures |OptionsFromText(text)| == multiset(text)[','] + 1
    ensures OptionsFromText("") == [""]
  {
    Seqs.SplitCount(text, ',');
    assert Trim("") == "";
  }
}
