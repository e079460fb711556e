/** The form editor screen: adding a field from the new-field template,
    saving under a name, and reordering the fields by drag and drop. */
module FormBuilder {
  import opened Types
  import Seqs
  import FormSlice
  import FormPreview
  import Validation
  import FieldRenderer

  // ----- reorder ----------------------------------------------------------------

  /** The list after a drag from `src` to `dst`: the element taken out at
      `src` and put back in so that it lands at `dst`. */
  function Moved<T>(s: seq<T>, src: nat, dst: nat): (r: seq<T>)
    requires src < |s| && dst < |s|
    ensures |r| == |s| && r[dst] == s[src]
  {
    Seqs.InsertAt(Seqs.RemoveAt(s, src), dst, s[src])
  }

  /** Where element `k` of the reordered list was before the move. */
  function Origin(src: nat, dst: nat, k: nat): nat {
    if k == dst then src
    else
      var j := if k < dst then k else k - 1;
      if j < src then j else j + 1
  }

  /** The reorder is a permutation: element `k` of the result is the element
      at `Origin(src, dst, k)` before, and no two positions share an origin. */
  lemma MovedFrom<T>(s: seq<T>, src: nat, dst: nat)
    requires src < |s| && dst < |s|
    ensures forall k :: 0 <= k < |s| ==> Origin(src, dst, k) < |s| && Moved(s, src, dst)[k] == s[Origin(src, dst, k)]
    ensures forall k1, k2 :: 0 <= k1 < k2 < |s| ==> Origin(src, dst, k1) != Origin(src, dst, k2)
  {
    var t := Seqs.RemoveAt(s, src);
    forall k | 0 <= k < |s| ensures Moved(s, src, dst)[k] == s[Origin(src, dst, k)] {
      if k != dst {
        var j := if k < dst then k else k - 1;
        assert Moved(s, src, dst)[k] == t[j];
      }
    }
  }

  /** Same elements, as many times each. */
  lemma MovedIsPermutation<T>(s: seq<T>, src: nat, dst: nat)
    requires src < |s| && dst < |s|
    ensures multiset(Moved(s, src, dst)) == multiset(s)
  {
    var t := Seqs.RemoveAt(s, src);
    Seqs.RemoveAtMultiset(s, src);
    Seqs.InsertAtMultiset(t, dst, s[src]);
    assert s[src] in multiset(s);
  }

  /** Every other element keeps its relative order: taking the moved element
      out of the result leaves what taking it out of the input left. */
  lemma MovedKeepsOthersInOrder<T>(s: seq<T>, src: nat, dst: nat)
    requires src < |s| && dst < |s|
    ensures Seqs.RemoveAt(Moved(s, src, dst), dst) == Seqs.RemoveAt(s, src)
  {
    Seqs.RemoveInserted(Seqs.RemoveAt(s, src), dst, s[src]);
  }

  /** A reorder keeps field ids unique. */
  lemma MovedKeepsUnique(fields: seq<Field>, src: nat, dst: nat)
    requires src < |fields| && dst < |fields| && UniqueFieldIds(fields)
    ensures UniqueFieldIds(Moved(fields, src, dst))
  {
    MovedFrom(fields, src, dst);
    var r := Moved(fields, src, dst);
    forall i, j | 0 <= i < j < |r| ensures r[i].id != r[j].id {
      var oi, oj := Origin(src, dst, i), Origin(src, dst, j);
      if oi < oj {
        assert fields[oi].id != fields[oj].id;
      } else {
        assert fields[oj].id != fields[oi].id;
      }
    }
  }

  /** `splice(src, 1)` in place: every element after `src` moves one slot
      down; the last slot is left as it was. */
  method CloseGap<T>(a: array<T>, src: nat)
    requires src < a.Length
    modifies a
    ensures a[..a.Length - 1] == Seqs.RemoveAt(old(a[..]), src)
  {
    ghost var s := a[..];
    var i := src;
    while i < a.Length - 1
      invariant src <= i <= a.Length - 1
      invariant forall k :: 0 <= k < src ==> a[k] == s[k]
      invariant forall k :: src <= k < i ==> a[k] == s[k + 1]
      invariant forall k :: i <= k < a.Length ==> a[k] == s[k]
    {
      a[i] := a[i + 1];
      i := i + 1;
    }
    assert forall k :: 0 <= k < a.Length - 1 ==> a[..a.Length - 1][k] == Seqs.RemoveAt(s, src)[k];
  }

  /** `splice(dst, 0, x)` in place on the first `a.Length - 1` slots: every
      element from `dst` on moves one slot up and `x` goes to `dst`. */
  method OpenGap<T>(a: array<T>, dst: nat, x: T)
    requires dst < a.Length
    modifies a
    ensures a[..] == Seqs.InsertAt(old(a[..a.Length - 1]), dst, x)
  {
    ghost var t := a[..a.Length - 1];
    var i := a.Length - 1;
    while i > dst
      invariant dst <= i <= a.Length - 1
      invariant forall k :: 0 <= k < i ==> a[k] == t[k]
      invariant forall k :: i < k < a.Length ==> a[k] == t[k - 1]
    {
      a[i] := a[i - 1];
      i := i - 1;
    }
    a[dst] := x;
    assert forall k :: 0 <= k < a.Length ==> a[..][k] == Seqs.InsertAt(t, dst, x)[k];
  }

  /** `Array.from` then `splice(src, 1)` and `splice(dst, 0, moved)` on the
      copy. */
  method Reorder<T>(s: seq<T>, src: nat, dst: nat) returns (r: seq<T>)
    requires src < |s| && dst < |s|
    ensures r == Moved(s, src, dst)
  {
    var a := new T[|s|](i requires 0 <= i < |s| => s[i]);
    assert a[..] == s;
    var moved := a[src];
    CloseGap(a, src);
    OpenGap(a, dst, moved);
    r := a[..];
  }

  /** `onDragEnd`: with a drop destination and a form being edited, the
      form's fields are reordered and nothing else about the form changes;
      otherwise nothing happens. */
  method OnDragEnd(store: FormSlice.FormStore, src: nat, dst: Option<nat>)
    requires store.currentForm.Some? && dst.Some? ==>
               src < |store.currentForm.value.fields| && dst.value < |store.currentForm.value.fields|
    modifies store
    ensures dst.None? || old(store.currentForm).None? ==>
              store.currentForm == old(store.currentForm) && store.forms == old(store.forms)
    ensures dst.Some? && old(store.currentForm).Some? ==>
              && store.currentForm == Some(old(store.currentForm).value.(fields :=
                   Moved(old(store.currentForm).value.fields, src, dst.value)))
              && store.forms == old(store.forms)
    ensures old(store.Valid()) ==> store.Valid()
  {
    if dst.None? || store.currentForm.None? {
      return;
    }
    var form := store.currentForm.value;
    var reordered := Reorder(form.fields, src, dst.value);
    if UniqueFieldIds(form.fields) {
      MovedKeepsUnique(form.fields, src, dst.value);
    }
    store.UpdateForm(form.(fields := reordered));
  }

  // ----- new field and save ---------------------------------------------------------

  /** The new-field template: a plain, optional text field labelled
      "New Field", not derived, with no rules, options, parents or formula. */
  function NewField(id: string): (f: Field)
    ensures f.id == id && f.kind == Text && f.labelText == "New Field"
    ensures !f.required && f.defaultValue == Undefined && f.validations == []
    ensures f.options == Some([]) && f.isDerived == Some(false)
    ensures !IsDerived(f) && f.parentFields == Some([]) && f.formula == Some("")
  {
    Field(id, Text, "New Field", false, Undefined, [], Some([]), Some(false), Some([]), Some(""))
  }

  /** A new field asks nothing and computes nothing: both validators accept
      every value for it and it has no derived value. */
  lemma NewFieldIsInert(id: string, v: Value, form: Option<FormSchema>, values: map<string, Value>,
                        custom: (string, seq<Value>) -> FieldRenderer.Eval)
    ensures FormPreview.ValidateField(NewField(id), v) == None
    ensures Validation.ValidateField(NewField(id), v) == ""
    ensures FieldRenderer.CalculateDerivedValue(NewField(id), form, values, custom) == Undefined
  {
  }

  /** `addNewField`: the template, with a fresh id, goes through `addField`. */
  method AddNewField(store: FormSlice.FormStore, fieldId: string, formId: string, now: string)
    modifies store
    ensures old(store.currentForm).None? ==>
              store.currentForm == Some(FormSchema(formId, "", now, [NewField(fieldId)]))
    ensures old(store.currentForm).Some? ==>
              store.currentForm == Some(old(store.currentForm).value.(fields :=
                old(store.currentForm).value.fields + [NewField(fieldId)]))
    ensures store.forms == old(store.forms)
  {
    store.AddField(NewField(fieldId), formId, now);
  }

  /** `handleSave`: the form is saved only under a name that is neither
      cancelled (`null`) nor empty. */
  method HandleSave(store: FormSlice.FormStore, formName: Option<string>)
    modifies store
    ensures formName.None? || formName.value == "" ==>
              store.currentForm == old(store.currentForm) && store.forms == old(store.forms)
    ensures formName.Some? && formName.value != "" && old(store.currentForm).Some? ==>
              && store.forms == FormSlice.SavedForms(old(store.forms), old(store.currentForm).value.(name := formName.value))
              && store.currentForm == None
    ensures old(store.currentForm).None? ==> store.currentForm == None && store.forms == old(store.forms)
  {
    if formName.Some? && formName.value != "" {
      store.SaveForm(formName.value);
    }
  }
}
