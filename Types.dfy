/** The form-schema model: validation rules, fields, forms and the editor state. */
module Types {

  datatype Option<+T> = None | Some(value: T)

  /** A scalar as the form runtime holds it: `undefined`, a string, a finite
      number, NaN (what `Number()` gives for text that is not a number) or a
      boolean. */
  datatype Value = Undefined | Str(s: string) | Num(x: real) | NaN | Bool(b: bool)

  /** The five rule kinds a validation rule can have. */
  datatype RuleKind = NotEmpty | MinLength | MaxLength | Email | CustomPassword

  /** The optional bound of a rule is a number or a string. */
  datatype Bound = NumberBound(x: real) | TextBound(t: string)

  datatype ValidationRule = ValidationRule(kind: RuleKind, value: Option<Bound>, message: string)

  /** The seven input kinds a field can have. */
  datatype FieldKind = Text | Number | TextArea | Select | Radio | Checkbox | Date

  /** A field of a form (`labelText` is the source's `label`). `defaultValue` is `Undefined` when the field has none;
      `options`, `isDerived`, `parentFields` and `formula` are optional. */
  datatype Field = Field(
    id: string,
    kind: FieldKind,
    labelText: string,
    required: bool,
    defaultValue: Value,
    validations: seq<ValidationRule>,
    options: Option<seq<string>>,
    isDerived: Option<bool>,
    parentFields: Option<seq<string>>,
    formula: Option<string>)

  /** A form: its fields are an ordered sequence (render and tab order). */
  datatype FormSchema = FormSchema(id: string, name: string, createdAt: string, fields: seq<Field>)

  /** An absent `isDerived` behaves as false. */
  predicate IsDerived(f: Field) {
    f.isDerived == Some(true)
  }

  /** `f => f.id === id`. */
  function HasId(id: string): Field -> bool {
    (f: Field) => f.id == id
  }

  /** `f => f.id !== id`. */
  function HasOtherId(id: string): Field -> bool {
    (f: Field) => f.id != id
  }

  /** `f => f.id === id`, on forms. */
  function FormHasId(id: string): FormSchema -> bool {
    (f: FormSchema) => f.id == id
  }

  /** `f => f.id !== id`, on forms. */
  function FormHasOtherId(id: string): FormSchema -> bool {
    (f: FormSchema) => f.id != id
  }

  /** The ids of a sequence of fields, in order. */
  function FieldIds(fs: seq<Field>): (ids: seq<string>)
    ensures |ids| == |fs|
    ensures forall k :: 0 <= k < |fs| ==> ids[k] == fs[k].id
  {
    if fs == [] then [] else FieldIds(fs[..|fs| - 1]) + [fs[|fs| - 1].id]
  }

  /** The form invariant the editor is meant to keep: no two fields share an id. */
  predicate UniqueFieldIds(fs: seq<Field>) {
    forall i, j :: 0 <= i < j < |fs| ==> fs[i].id != fs[j].id
  }

  /** No two saved forms share an id. */
  predicate UniqueFormIds(forms: seq<FormSchema>) {
    forall i, j :: 0 <= i < j < |forms| ==> forms[i].id != forms[j].id
  }
}
