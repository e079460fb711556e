/** The editor of a derived field: which fields it may take as parents, and
    the changes to its parents and formula. */
module DerivedFieldConfig {
  import opened Types
  import Seqs
  import FieldConfig

  /** `f => f.id !== field.id && !f.isDerived`. */
  function CandidateFor(field: Field): Field -> bool {
    (f: Field) => f.id != field.id && !IsDerived(f)
  }

  /** The fields offered as parents: every field of the current form except
      the field itself and the derived fields, in form order; nothing when
      no form is being edited. */
  function ParentCandidates(form: Option<FormSchema>, field: Field): (r: seq<Field>)
    ensures form.None? ==> r == []
    ensures forall k :: 0 <= k < |r| ==> r[k].id != field.id && !IsDerived(r[k]) && form.Some? && r[k] in form.value.fields
    ensures form.Some? ==> forall f :: f in form.value.fields && f.id != field.id && !IsDerived(f) ==> f in r
  {
    if form.None? then [] else Seqs.Filter(form.value.fields, CandidateFor(field))
  }

  /** The candidates keep the form's order: the candidates of two runs of
      fields are the candidates of the first followed by those of the second. */
  lemma CandidatesKeepOrder(a: seq<Field>, b: seq<Field>, form: FormSchema, field: Field)
    ensures ParentCandidates(Some(form.(fields := a + b)), field) ==
            ParentCandidates(Some(form.(fields := a)), field) + ParentCandidates(Some(form.(fields := b)), field)
  {
    Seqs.FilterAppend(a, b, CandidateFor(field));
  }

  /** Derived fields do not chain: in a form with unique field ids, a parent
      picked from the candidates names a field that is not derived and is
      not the field itself. */
  lemma PickedParentIsPlain(form: FormSchema, field: Field, id: string, k: nat)
    requires UniqueFieldIds(form.fields)
    requires id in FieldIds(ParentCandidates(Some(form), field))
    requires k < |form.fields| && form.fields[k].id == id
    ensures !IsDerived(form.fields[k]) && id != field.id
  {
    var cs := ParentCandidates(Some(form), field);
    var ids := FieldIds(cs);
    var c :| 0 <= c < |ids| && ids[c] == id;
    assert cs[c] in form.fields;
    var m :| 0 <= m < |form.fields| && form.fields[m] == cs[c];
    assert m == k;
  }

  /** `parentFields || []`: the selection shown, with an absent list shown
      as no selection. */
  function SelectedParents(field: Field): (ids: seq<string>)
    ensures field.parentFields.None? ==> ids == []
    ensures field.parentFields.Some? ==> ids == field.parentFields.value
  {
    if field.parentFields.Some? then field.parentFields.value else []
  }

  /** `formula || ''`: the formula text shown. */
  function FormulaText(field: Field): (t: string)
    ensures field.formula.None? ==> t == ""
    ensures field.formula.Some? ==> t == field.formula.value
  {
    if field.formula.Some? then field.formula.value else ""
  }

  /** Picking parents changes the parents and nothing else. */
  lemma ParentsChangeOnly(field: Field, ids: seq<string>)
    ensures FieldConfig.Merge(field, FieldConfig.NoChange.(parentFields := Some(ids))) == field.(parentFields := Some(ids))
    ensures SelectedParents(FieldConfig.Merge(field, FieldConfig.NoChange.(parentFields := Some(ids)))) == ids
  {
  }

  /** Editing the formula changes the formula and nothing else. */
  lemma FormulaChangeOnly(field: Field, text: string)
    ensures FieldConfig.Merge(field, FieldConfig.NoChange.(formula := Some(text))) == field.(formula := Some(text))
    ensures FormulaText(FieldConfig.Merge(field, FieldConfig.NoChange.(formula := Some(text)))) == text
  {
  }
}
