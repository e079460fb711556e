/** The editor's store: the form being edited, if any, and the list of saved
    forms, with the six reducers that change them. */
module FormSlice {
  import opened Types
  import Seqs

  // ----- what the reducers compute -----------------------------------------------

  /** The fields after `updateField`: the first field with the payload's id
      is replaced by the payload; with no such field nothing changes. */
  function ReplaceFirst(fields: seq<Field>, payload: Field): (r: seq<Field>)
    ensures |r| == |fields|
    ensures (forall k :: 0 <= k < |fields| ==> fields[k].id != payload.id) ==> r == fields
    ensures forall i :: 0 <= i < |fields| && fields[i].id == payload.id &&
                        (forall k :: 0 <= k < i ==> fields[k].id != payload.id) ==>
                          r[i] == payload && forall k :: 0 <= k < |r| && k != i ==> r[k] == fields[k]
  {
    match Seqs.FirstIndex(fields, HasId(payload.id))
    case None => fields
    case Some(i) => fields[i := payload]
  }

  /** The fields after `deleteField`: every field with that id is gone,
      every other field is still there, and nothing new appears. */
  function WithoutField(fields: seq<Field>, id: string): (r: seq<Field>)
    ensures |r| <= |fields|
    ensures forall k :: 0 <= k < |r| ==> r[k].id != id && r[k] in fields
    ensures forall k :: 0 <= k < |fields| && fields[k].id != id ==> fields[k] in r
  {
    Seqs.Filter(fields, HasOtherId(id))
  }

  /** The saved forms after `saveForm` of `form`: the earlier copies with
      its id are dropped and the form is appended last. */
  function SavedForms(forms: seq<FormSchema>, form: FormSchema): (r: seq<FormSchema>)
    ensures 1 <= |r| <= |forms| + 1 && r[|r| - 1] == form
    ensures forall k :: 0 <= k < |r| - 1 ==> r[k].id != form.id && r[k] in forms
    ensures forall k :: 0 <= k < |forms| && forms[k].id != form.id ==> forms[k] in r
  {
    Seqs.Filter(forms, FormHasOtherId(form.id)) + [form]
  }

  // ----- properties of the reducers ------------------------------------------------

  /** Appending a field whose id is new keeps the field ids unique. */
  lemma AppendFreshKeepsUnique(fields: seq<Field>, payload: Field)
    requires UniqueFieldIds(fields)
    requires forall k :: 0 <= k < |fields| ==> fields[k].id != payload.id
    ensures UniqueFieldIds(fields + [payload])
  {
  }

  /** `updateField` keeps the field ids: the ids before and after are the same,
      so unique ids stay unique. */
  lemma ReplaceKeepsIds(fields: seq<Field>, payload: Field)
    ensures FieldIds(ReplaceFirst(fields, payload)) == FieldIds(fields)
    ensures UniqueFieldIds(fields) ==> UniqueFieldIds(ReplaceFirst(fields, payload))
  {
    var r := ReplaceFirst(fields, payload);
    assert forall k :: 0 <= k < |r| ==> r[k].id == fields[k].id;
  }

  /** With unique ids, after `updateField` the field with the payload's id
      is the payload. */
  lemma ReplaceThenFind(fields: seq<Field>, payload: Field)
    requires UniqueFieldIds(fields)
    requires exists k :: 0 <= k < |fields| && fields[k].id == payload.id
    ensures Seqs.Find(ReplaceFirst(fields, payload), HasId(payload.id)) == Some(payload)
  {
    var i :| 0 <= i < |fields| && fields[i].id == payload.id;
    assert forall k :: 0 <= k < i ==> fields[k].id != payload.id;
    var r := ReplaceFirst(fields, payload);
    assert r[i] == payload;
    assert forall k :: 0 <= k < |r| && k != i ==> r[k] == fields[k] && !HasId(payload.id)(r[k]);
  }

  /** `deleteField` keeps the relative order of what is left: deleting from
      a concatenation deletes from each part. */
  lemma WithoutFieldKeepsOrder(a: seq<Field>, b: seq<Field>, id: string)
    ensures WithoutField(a + b, id) == WithoutField(a, id) + WithoutField(b, id)
  {
    Seqs.FilterAppend(a, b, HasOtherId(id));
  }

  /** Deleting an id no field has changes nothing. */
  lemma WithoutAbsentField(fields: seq<Field>, id: string)
    requires forall k :: 0 <= k < |fields| ==> fields[k].id != id
    ensures WithoutField(fields, id) == fields
  {
    Seqs.FilterKeepsAll(fields, HasOtherId(id));
  }

  /** Deleting keeps unique field ids unique. */
  lemma WithoutFieldKeepsUnique(fields: seq<Field>, id: string)
    requires UniqueFieldIds(fields)
    ensures UniqueFieldIds(WithoutField(fields, id))
  {
    Seqs.FilterKeepsUnique(fields, HasOtherId(id), (f: Field) => f.id);
  }

  /** Saving keeps the ids of the saved forms unique. */
  lemma SavedFormsKeepUnique(forms: seq<FormSchema>, form: FormSchema)
    requires UniqueFormIds(forms)
    ensures UniqueFormIds(SavedForms(forms, form))
  {
    Seqs.FilterKeepsUnique(forms, FormHasOtherId(form.id), (f: FormSchema) => f.id);
  }

  /** Loading a form right after saving it gives back the saved form, with
      its new name. */
  lemma SaveThenLoad(forms: seq<FormSchema>, form: FormSchema)
    ensures Seqs.Find(SavedForms(forms, form), FormHasId(form.id)) == Some(form)
  {
    var r := SavedForms(forms, form);
    assert forall k :: 0 <= k < |r| - 1 ==> !FormHasId(form.id)(r[k]);
  }

  // ----- the store --------------------------------------------------------------

  /** The editor state: the form being edited (`null` when none) and the
      saved forms. */
  class FormStore {
    var currentForm: Option<FormSchema>
    var forms: seq<FormSchema>

    /** The ids of the saved forms are unique, and every form in the store
        has unique field ids. */
    predicate Valid()
      reads this
    {
      && UniqueFormIds(forms)
      && (forall k :: 0 <= k < |forms| ==> UniqueFieldIds(forms[k].fields))
      && (currentForm.Some? ==> UniqueFieldIds(currentForm.value.fields))
    }

    /** The initial state: no form being edited, the forms read from storage. */
    constructor (saved: seq<FormSchema>)
      ensures currentForm == None && forms == saved
      ensures UniqueFormIds(saved) && (forall k :: 0 <= k < |saved| ==> UniqueFieldIds(saved[k].fields)) ==> Valid()
    {
      currentForm := None;
      forms := saved;
    }

    /** `addField`: appended to the current form, or a new untitled form made
        of just this field (its id and timestamp are given). */
    method AddField(payload: Field, newId: string, now: string)
      modifies this
      ensures old(currentForm).None? ==> currentForm == Some(FormSchema(newId, "", now, [payload]))
      ensures old(currentForm).Some? ==>
                currentForm == Some(old(currentForm).value.(fields := old(currentForm).value.fields + [payload]))
      ensures forms == old(forms)
      ensures old(Valid()) && (old(currentForm).Some? ==>
                forall k :: 0 <= k < |old(currentForm).value.fields| ==> old(currentForm).value.fields[k].id != payload.id)
              ==> Valid()
    {
      match currentForm
      case Some(form) =>
        if UniqueFieldIds(form.fields) && forall k :: 0 <= k < |form.fields| ==> form.fields[k].id != payload.id {
          AppendFreshKeepsUnique(form.fields, payload);
        }
        currentForm := Some(form.(fields := form.fields + [payload]));
      case None =>
        currentForm := Some(FormSchema(newId, "", now, [payload]));
    }

    /** `updateField`: the first field with the payload's id is replaced. */
    method UpdateField(payload: Field)
      modifies this
      ensures old(currentForm).None? ==> currentForm == None
      ensures old(currentForm).Some? ==>
                currentForm == Some(old(currentForm).value.(fields := ReplaceFirst(old(currentForm).value.fields, payload)))
      ensures forms == old(forms)
      ensures old(Valid()) ==> Valid()
    {
      if currentForm.Some? {
        var form := currentForm.value;
        var fields := form.fields;
        var index := Seqs.FirstIndex(fields, HasId(payload.id));
        if index.Some? {
          fields := fields[index.value := payload];
        }
        assert fields == ReplaceFirst(form.fields, payload);
        ReplaceKeepsIds(form.fields, payload);
        currentForm := Some(form.(fields := fields));
      }
    }

    /** `updateForm`: the current form, if there is one, is replaced. */
    method UpdateForm(payload: FormSchema)
      modifies this
      ensures old(currentForm).None? ==> currentForm == None
      ensures old(currentForm).Some? ==> currentForm == Some(payload)
      ensures forms == old(forms)
      ensures old(Valid()) && UniqueFieldIds(payload.fields) ==> Valid()
    {
      if currentForm.Some? {
        currentForm := Some(payload);
      }
    }

    /** `deleteField`: every field with that id leaves the current form. */
    method DeleteField(id: string)
      modifies this
      ensures old(currentForm).None? ==> currentForm == None
      ensures old(currentForm).Some? ==>
                currentForm == Some(old(currentForm).value.(fields := WithoutField(old(currentForm).value.fields, id)))
      ensures forms == old(forms)
      ensures old(Valid()) ==> Valid()
    {
      if currentForm.Some? {
        var form := currentForm.value;
        if UniqueFieldIds(form.fields) {
          WithoutFieldKeepsUnique(form.fields, id);
        }
        currentForm := Some(form.(fields := WithoutField(form.fields, id)));
      }
    }

    /** `saveForm`: the current form gets its name, replaces the saved copies
        with its id at the end of the list, and stops being edited. Writing
        the list to storage is not part of this model. */
    method SaveForm(name: string)
      modifies this
      ensures old(currentForm).None? ==> currentForm == None && forms == old(forms)
      ensures old(currentForm).Some? ==>
                && forms == SavedForms(old(forms), old(currentForm).value.(name := name))
                && currentForm == None
      ensures old(Valid()) ==> Valid()
    {
      if currentForm.Some? {
        var named := currentForm.value.(name := name);
        if Valid() {
          SavedFormsKeepUnique(forms, named);
        }
        forms := SavedForms(forms, named);
        currentForm := None;
      }
    }

    /** `loadForm`: the first saved form with that id becomes the current
        form, or none when no saved form has it. */
    method LoadForm(id: string)
      modifies this
      ensures currentForm.None? <==> forall k :: 0 <= k < |forms| ==> forms[k].id != id
      ensures currentForm.Some? ==> currentForm.value.id == id && currentForm.value in forms
      ensures currentForm == Seqs.Find(forms, FormHasId(id))
      ensures forms == old(forms)
      ensures old(Valid()) ==> Valid()
    {
      currentForm := Seqs.Find(forms, FormHasId(id));
      assert forall k :: 0 <= k < |forms| ==> (FormHasId(id)(forms[k]) <==> forms[k].id == id);
    }
  }
}
