# formbuilder — a verified model of the form-schema core

The form builder lets a user put together a form schema. A schema is an ordered list of fields, each with a kind, a label, a required flag, validation rules and an optional derived value computed from other fields. The user can then save named forms and fill in a live preview.

This project models in Dafny the logic the application is built on:

- **Schema model** (`Types`). The rule kinds, the field kinds, fields, forms and the editor state are datatypes. A form value is `Undefined`, a string, a number (`real`), `NaN` or a boolean.
- **JavaScript semantics the code relies on** (`JsValues`, `Patterns`):
  - truthiness;
  - `trim`;
  - `Number()` on decimal text;
  - `String()` on numbers;
  - the email and password regular expressions, written as predicates over characters.
- **List operations** (`Seqs`): `filter`, `findIndex`/`find`, `splice`, `split` and `join`, each with its algebra.
- **The standalone validator** (`Validation`, `src/utils/validation.ts`). It has no required check, its `notEmpty` does not trim, and its password rule asks only for a digit.
- **The preview** (`FormPreview`):
  - its own validator: the required check, then the first failing rule;
  - the submit loop that fills the error map;
  - a `Preview` class holding the typed values, the errors and the submit outcome.
- **The renderer** (`FieldRenderer`):
  - the derived-value engine: parent resolution, the keywords `sum`/`average` in any letter case, and a free-form formula whose throwing gives `undefined`;
  - input coercion;
  - what a derived input shows.
- **The store** (`FormSlice`). The class `FormStore` holds the current form and the saved forms. Its six reducers are `addField`, `updateField`, `updateForm`, `deleteField`, `saveForm` and `loadForm`. The store's invariant is that field ids and saved-form ids are unique. `updateField`, `deleteField`, `saveForm` and `loadForm` keep it unconditionally. `addField` keeps it when the new field's id is fresh, and `updateForm` when the new form's field ids are unique; the code checks neither.
- **The editor** (`FormBuilder`, `FieldConfig`, `DerivedFieldConfig`):
  - drag-and-drop reordering, done in place on an array with two splices;
  - the new-field template;
  - saving under a name;
  - merging attribute changes into a field;
  - the rule draft and its `addValidation`;
  - removing a rule by index;
  - the comma-separated options text;
  - the parent candidates of a derived field.

The free-form formula is any JavaScript expression, evaluated at run time with the parent values in scope. It is a parameter of the engine: a function from the formula text and the parent values to a returned value or a throw. A derived field's parent list may be empty, and `sum` over no parents is 0. Nothing in the store keeps a derived field's parents plain: only the editor's candidate list does, and only when field ids are unique.

## Model

| member | source | states |
|---|---|---|
| Types.FieldIds | src/components/DerivedFieldConfig.tsx:30-33 | the ids of a field list, in order, one per field |
| Seqs.Filter | src/store/slices/formSlice.ts:46 | `filter` keeps exactly the elements satisfying the predicate, never more elements than it had |
| Seqs.FilterAppend | src/store/slices/formSlice.ts:46 | filtering distributes over concatenation, so kept elements keep their relative order |
| Seqs.FilterKeepsUnique | src/store/slices/formSlice.ts:52 | filtering a list with unique keys leaves the keys unique |
| Seqs.AnyStep | src/components/FormPreview.tsx:63-71 | some element matches exactly when one of all but the last does or the last does |
| Seqs.FirstIndex | src/store/slices/formSlice.ts:33 | `findIndex`: none exactly when no element matches, else the first matching index |
| Seqs.Find | src/store/slices/formSlice.ts:58 | `find`: none exactly when no element matches, else the first matching element |
| Seqs.RemoveAt | src/components/FormBuilder.tsx:43 | `splice(i, 1)` drops exactly element `i`, shifting the later ones down |
| Seqs.InsertAt | src/components/FormBuilder.tsx:44 | `splice(i, 0, x)` puts `x` at index `i`, shifting the later ones up |
| Seqs.RemoveInserted | src/components/FormBuilder.tsx:43-44 | removing at the index just inserted at gives back the list |
| Seqs.RemoveAtMultiset | src/components/FormBuilder.tsx:43 | removing takes away one occurrence of the removed element |
| Seqs.InsertAtMultiset | src/components/FormBuilder.tsx:44 | inserting adds one occurrence of the inserted element |
| Seqs.Split | src/components/FieldConfig.tsx:71 | `split(',')` gives at least one piece and no piece holds the separator |
| Seqs.SplitCount | src/components/FieldConfig.tsx:71 | one piece per separator plus one: empty pieces are kept |
| Seqs.JoinSplit | src/components/FieldConfig.tsx:70-71 | joining the pieces of a split gives back the text |
| Seqs.SplitJoin | src/components/FieldConfig.tsx:70-71 | splitting the join of separator-free pieces gives back the pieces |
| JsValues.Truthy | src/utils/validation.ts:5 | a value is falsy exactly when it is `undefined`, `''`, 0, NaN or `false` |
| JsValues.StringToNumber | src/components/FieldRenderer.tsx:28 | `Number()` of empty or blank text is 0 |
| JsValues.ToNumber | src/components/FieldRenderer.tsx:161-163 | only `undefined`, NaN and text fail to convert; booleans and numbers always convert |
| JsValues.NumberText | src/utils/validation.ts:8-9 | `String()` of a number is non-empty, starts with '-' exactly when the number is negative, and holds no '@' |
| JsValues.RegexText | src/utils/validation.ts:8-9 | the text a regular expression tests: a string itself, and for any other value a non-empty text without '@' |
| JsValues.TrimStart | src/components/FormPreview.tsx:32 | a suffix of the text that does not start with white space |
| JsValues.TrimEnd | src/components/FormPreview.tsx:32 | a prefix of the text that does not end with white space |
| JsValues.Trim | src/components/FormPreview.tsx:32 | `trim()` gives a text no longer than the input that neither starts nor ends with white space |
| JsValues.TrimStartDropsWhitespace | src/components/FormPreview.tsx:32 | only white space is dropped at the start |
| JsValues.TrimEndDropsWhitespace | src/components/FormPreview.tsx:32 | only white space is dropped at the end |
| JsValues.TrimTrimmed | src/components/FieldConfig.tsx:71 | trimming a text without outer white space changes nothing |
| JsValues.TrimEmptyIff | src/components/FormPreview.tsx:32 | `trim() === ''` exactly when every character is white space |
| JsValues.TrimKeepsOut | src/components/FieldConfig.tsx:71 | trimming adds no character |
| JsValues.NumberValue | src/components/FieldRenderer.tsx:28 | the value `Number(text)` stores converts back to the same number, or is NaN |
| JsValues.DecimalTextValue | src/utils/validation.ts:8-9 | the decimal text of a natural number reads back as that number |
| JsValues.DigitPrefixLength | src/components/FieldRenderer.tsx:28 | the leading digits of a text: all digits, and the next character is not one |
| JsValues.DecimalText | src/utils/validation.ts:8-9 | `String()` of a natural number is a non-empty run of digits |
| JsValues.DecimalTextReads | src/components/FieldRenderer.tsx:28 | the decimal text of a natural number is an unsigned literal of that value |
| NumberFacts.NonDigitIsNoDecimal | src/components/FieldRenderer.tsx:161 | a character that is neither a digit nor '.' is no unsigned literal |
| NumberFacts.DigitIsDecimal | src/components/FieldRenderer.tsx:161 | a single digit is the unsigned literal of its value |
| NumberFacts.UnsignedText | src/components/FieldRenderer.tsx:28 | without outer white space or a sign, `Number()` reads the text as an unsigned literal |
| NumberFacts.NegativeText | src/components/FieldRenderer.tsx:28 | without outer white space, a leading '-' negates the literal after it |
| NumberFacts.LetterIsNaN | src/components/FieldRenderer.tsx:161-163 | one character that is no digit, sign, '.' or white space converts to NaN |
| NumberFacts.DigitIsNumber | src/components/FieldRenderer.tsx:161-163 | one digit converts to its value |
| NumberFacts.DigitsNumber | src/components/FieldRenderer.tsx:28 | digits convert to the unsigned literal they spell |
| NumberFacts.NegatedDigitsNumber | src/components/FieldRenderer.tsx:28 | a minus sign before digits converts to the negated literal |
| NumberFacts.DecimalTextNumber | src/components/FieldRenderer.tsx:28 | the text of a natural number converts back to it |
| NumberFacts.NegatedTextNumber | src/components/FieldRenderer.tsx:28 | '-' and the text of a natural number converts to its negation |
| NumberFacts.WholeText | src/utils/validation.ts:8-9 | `String()` of a non-negative integer is its decimal text |
| NumberFacts.NegativeWholeText | src/utils/validation.ts:8-9 | `String()` of a negative integer is '-' and the decimal text of its magnitude |
| NumberFacts.WholeRoundTrip | src/components/FieldRenderer.tsx:28 | `Number(String(n))` is `n` for a non-negative integer |
| NumberFacts.NegativeRoundTrip | src/components/FieldRenderer.tsx:28 | `Number(String(i))` is `i` for a negative integer |
| NumberFacts.NumberTextRoundTrip | src/components/FieldRenderer.tsx:28 | `Number(String(i))` is `i` for every integer |
| Patterns.ShorterThan | src/utils/validation.ts:6 | `length < value`: for a number bound, exactly when the length is below it; never without a bound, never together with `length > value` |
| Patterns.LongerThan | src/utils/validation.ts:7 | `length > value`: for a number bound, exactly when the length is above it; never without a bound; for the bound 0 exactly on non-empty text |
| Patterns.AtIndex | src/utils/validation.ts:8 | the position of the first '@', or the length when there is none |
| Patterns.NoAtNoEmail | src/utils/validation.ts:8 | a text without '@' is not an email address |
| Patterns.EmailAddressIff | src/utils/validation.ts:8 | the email check accepts exactly the texts `a@b.c` with `a`, `b`, `c` non-empty runs without white space or '@' |
| Patterns.IsEmailAddress | src/utils/validation.ts:8 | an accepted address has at least five characters, an '@' and no white space |
| Patterns.IsDigitPassword | src/utils/validation.ts:9 | an accepted password has at least eight characters and a digit |
| Patterns.IsStrongPassword | src/components/FormPreview.tsx:52 | accepts exactly the texts of at least eight characters, on one line, with a digit, a lower-case and an upper-case ASCII letter; such a text also passes the digit-only rule |
| Validation.RuleFails | src/utils/validation.ts:5-9 | `notEmpty` fails exactly on `undefined`, `''`, 0, NaN and `false`, so white space passes; the length rules never fail on a non-string; the email and password rules never fail on a falsy value |
| Validation.ValidateRules | src/utils/validation.ts:3-12 | the result is `''` or the message of one of the rules |
| Validation.ValidateRulesFirstFailure | src/utils/validation.ts:3-12 | rules in declaration order: the first failing rule's message, `''` when none fails |
| Validation.ValidateField | src/utils/validation.ts:3-12 | no required check: a field without rules accepts every value; otherwise `''` or the message of one of its rules |
| Validation.EmailRejectsIntegers | src/utils/validation.ts:8 | a non-zero integer value fails the email rule, since its text has no '@' |
| Validation.EmailRuleOnText | src/utils/validation.ts:8 | on non-empty text the email rule fails exactly when the text is not an address |
| Validation.LengthRulesOnText | src/utils/validation.ts:6-7 | with a whole-number bound n, `minLength` fails on text exactly when its length is below n, `maxLength` exactly when above n |
| Validation.DigitPasswordIgnoresCase | src/utils/validation.ts:9 | on a string the password rule fails exactly when it is shorter than 8, spans lines, or has no digit; letter case is not looked at |
| FormPreview.RuleFails | src/components/FormPreview.tsx:29-57 | on a non-string only `notEmpty` can fail, and exactly on `undefined`, 0, NaN and `false` |
| FormPreview.EmailRuleOnText | src/components/FormPreview.tsx:46-50 | on text, the empty string included, the email rule fails exactly when the text is not an address |
| FormPreview.StrongPasswordRule | src/components/FormPreview.tsx:51-55 | on text the password rule fails exactly when it is shorter than 8, spans lines, or lacks a digit, a lower-case or an upper-case letter |
| FormPreview.LengthRulesOnText | src/components/FormPreview.tsx:36-45 | with a whole-number bound n, `minLength` fails on text exactly when its length is below n, `maxLength` exactly when above n |
| FormPreview.CheckRules | src/components/FormPreview.tsx:29-58 | a message, when there is one, is the message of one of the rules |
| FormPreview.CheckRulesFirstFailure | src/components/FormPreview.tsx:29-58 | no message exactly when no rule fails; otherwise the message of the first failing rule |
| FormPreview.ValidateField | src/components/FormPreview.tsx:25-59 | a required field with an absent, empty or NaN value gets "This field is required" before any rule; otherwise the rules decide |
| FormPreview.ZeroAndFalseArePresent | src/components/FormPreview.tsx:26 | a required field holding 0 or `false` is judged by its rules alone |
| FormPreview.NotEmptyFails | src/components/FormPreview.tsx:32 | `notEmpty` fails exactly on a falsy value (0 and `false` included) or a string of white space |
| FormPreview.NotEmptyBeforeEmail | src/components/FormPreview.tsx:29-34 | with `notEmpty` before `email`, an empty value gets the `notEmpty` message |
| FormPreview.RuleStricterOnStrings | src/components/FormPreview.tsx:29-53 | a string one preview rule accepts, the same standalone rule accepts |
| FormPreview.StricterOnStrings | src/components/FormPreview.tsx:29-58 | a string the preview's rules accept is also accepted by the standalone validator's rules |
| FormPreview.BlankFailsNotEmpty | src/components/FormPreview.tsx:32 | a single space fails the preview's `notEmpty` |
| FormPreview.BlankSeparatesValidators | src/components/FormPreview.tsx:32 | white space passes the standalone `notEmpty` and fails the preview's |
| FormPreview.SubmitErrors | src/components/FormPreview.tsx:63-71 | the error map after the `forEach`: every recorded error is a non-empty message |
| FormPreview.SubmitErrorsKeys | src/components/FormPreview.tsx:63-71 | the error map's keys are exactly the ids of the non-derived fields whose validator returns a message |
| FormPreview.SubmitErrorsValues | src/components/FormPreview.tsx:64-70 | with unique ids, each entry is that field's message and a derived field never has one |
| FormPreview.CollectErrors | src/components/FormPreview.tsx:63-71 | the `forEach` loop builds the error map, holding the ids of exactly the reported fields |
| FormPreview.RequiredBesideDerived | src/components/FormPreview.tsx:64-70 | a derived field beside an empty required field: only the required field is reported |
| FormPreview.Preview.constructor | src/components/FormPreview.tsx:11-13 | no values, no errors, no outcome |
| FormPreview.Preview.HandleChange | src/components/FormPreview.tsx:15-23 | sets that field's value, deletes only that field's error, leaves every other value and error, resets the outcome |
| FormPreview.Preview.HandleSubmit | src/components/FormPreview.tsx:61-79 | no form: nothing happens; else the errors become the error map and the outcome is success exactly when it is empty |
| FieldRenderer.ResolveParent | src/components/FieldRenderer.tsx:156 | the typed value when it is defined; else, for the first field with that id, its default when it has one and `''` when not; `''` when no field has the id; never undefined |
| FieldRenderer.ResolveParents | src/components/FieldRenderer.tsx:155-157 | one resolved value per parent id, in `parentFields` order |
| FieldRenderer.LowerAscii | src/components/FieldRenderer.tsx:159 | lower-cases exactly the upper-case ASCII letters, keeping the length |
| FieldRenderer.SumOf | src/components/FieldRenderer.tsx:161 | `reduce` with `Number(val) \|\| 0`: 0 when no value converts to a number |
| FieldRenderer.SumOfSingle | src/components/FieldRenderer.tsx:161 | one value contributes its number, or 0 when it does not convert |
| FieldRenderer.SumOfAppend | src/components/FieldRenderer.tsx:161 | the sum over two runs of values is the sum of their sums, so with `SumOfSingle` it adds each value's number or 0 |
| FieldRenderer.Numbers | src/components/FieldRenderer.tsx:163 | `map(Number).filter(n => !isNaN(n))` keeps at most as many numbers as there are values |
| FieldRenderer.NumbersSingle | src/components/FieldRenderer.tsx:163 | one value is kept as its number when it converts and dropped otherwise |
| FieldRenderer.NumbersAppend | src/components/FieldRenderer.tsx:163 | the filter over two runs of values is the first run's numbers followed by the second's, so with `NumbersSingle` it keeps exactly the converting values' numbers, in order |
| FieldRenderer.Average | src/components/FieldRenderer.tsx:162-164 | the `average` keyword gives a number or undefined, never NaN or text |
| FieldRenderer.CalculateDerivedValue | src/components/FieldRenderer.tsx:147-173 | undefined unless the field is derived with parents, a non-empty formula and a form; `sum` in any case gives a number; `average` a number or undefined; a throwing formula undefined; any other formula gives what the evaluator returns |
| FieldRenderer.SumIsTotalOfNumbers | src/components/FieldRenderer.tsx:161 | the sum counts non-numeric values as 0: it is the total of the values that convert |
| FieldRenderer.NumbersEmptyIff | src/components/FieldRenderer.tsx:163 | the average filter keeps nothing exactly when no value converts to a number |
| FieldRenderer.NumbersComeFromValues | src/components/FieldRenderer.tsx:163 | every kept number is the conversion of some value |
| FieldRenderer.TotalBounds | src/components/FieldRenderer.tsx:164 | a total of bounded numbers is bounded by count times the bounds |
| FieldRenderer.SumResult | src/components/FieldRenderer.tsx:160-161 | `sum` in any case is always a number, the total of the converting parents, 0 for no parents |
| FieldRenderer.NumbersBounded | src/components/FieldRenderer.tsx:163 | bounds on the converting values bound every kept number |
| FieldRenderer.MeanWithin | src/components/FieldRenderer.tsx:164 | the mean of bounded numbers lies within the bounds |
| FieldRenderer.AverageUndefinedIff | src/components/FieldRenderer.tsx:162-164 | the average is undefined exactly when no value converts to a number |
| FieldRenderer.AverageBounds | src/components/FieldRenderer.tsx:162-164 | a defined average lies between the least and the greatest converting value |
| FieldRenderer.AverageIsSumOverCount | src/components/FieldRenderer.tsx:160-164 | a defined average is what `sum` gives for the same values divided by the count of those that convert to numbers |
| FieldRenderer.AverageResult | src/components/FieldRenderer.tsx:159-164 | `average` in any case is the average of the resolved parents |
| FieldRenderer.KeywordIgnoresCase | src/components/FieldRenderer.tsx:159 | formulas that lower-case to the same keyword compute the same value |
| FieldRenderer.CoerceInput | src/components/FieldRenderer.tsx:21-35 | checkbox gives `checked`; number gives `Number(text)`, or `''` for empty text; every other kind the text |
| FieldRenderer.NumberInputRoundTrip | src/components/FieldRenderer.tsx:28 | typing an integer's text into a number input stores that integer |
| FieldRenderer.ShownText | src/components/FieldRenderer.tsx:46 | a derived field shows its derived value and any other field its value, falsy ones blank |
| FieldRenderer.DerivedDisplay | src/components/FieldRenderer.tsx:62-64 | a derived field ignores its stored value and shows a computed 0 as blank |
| FormSlice.ReplaceFirst | src/store/slices/formSlice.ts:33-36 | same length; the first field with the payload's id becomes the payload, all others unchanged; no match: no change |
| FormSlice.WithoutField | src/store/slices/formSlice.ts:46 | every field with the id is gone, every other field is kept, nothing is added |
| FormSlice.SavedForms | src/store/slices/formSlice.ts:52 | the earlier copies with the form's id are gone, the others kept, the form is last |
| FormSlice.AppendFreshKeepsUnique | src/store/slices/formSlice.ts:21 | appending a field with a new id keeps ids unique |
| FormSlice.ReplaceKeepsIds | src/store/slices/formSlice.ts:33-36 | `updateField` keeps the id list, hence unique ids |
| FormSlice.ReplaceThenFind | src/store/slices/formSlice.ts:33-36 | with unique ids the field found by the payload's id afterwards is the payload |
| FormSlice.WithoutFieldKeepsOrder | src/store/slices/formSlice.ts:46 | deleting keeps the relative order of the rest |
| FormSlice.WithoutAbsentField | src/store/slices/formSlice.ts:46 | deleting an id no field has changes nothing |
| FormSlice.WithoutFieldKeepsUnique | src/store/slices/formSlice.ts:46 | deleting keeps ids unique |
| FormSlice.SavedFormsKeepUnique | src/store/slices/formSlice.ts:52 | saving keeps saved form ids unique |
| FormSlice.SaveThenLoad | src/store/slices/formSlice.ts:51-58 | loading the id just saved gives back the saved, renamed form |
| FormSlice.FormStore.constructor | src/store/slices/formSlice.ts:10-13 | no current form; the saved forms as read from storage; the store invariant holds when those have unique form ids and unique field ids |
| FormSlice.FormStore.AddField | src/store/slices/formSlice.ts:19-30 | appends to the current form, or creates an untitled form of just this field; keeps the store invariant for a fresh id |
| FormSlice.FormStore.UpdateField | src/store/slices/formSlice.ts:31-38 | no form: no-op; else the fields become `ReplaceFirst`; invariant kept |
| FormSlice.FormStore.UpdateForm | src/store/slices/formSlice.ts:39-43 | no form: no-op; else the payload becomes the current form; invariant kept when the payload's field ids are unique |
| FormSlice.FormStore.DeleteField | src/store/slices/formSlice.ts:44-48 | no form: no-op; else the fields become `WithoutField`; invariant kept |
| FormSlice.FormStore.SaveForm | src/store/slices/formSlice.ts:49-56 | no form: no-op; else named, saved last replacing its earlier copies, no current form; invariant kept |
| FormSlice.FormStore.LoadForm | src/store/slices/formSlice.ts:57-59 | the first saved form with the id, or none exactly when no saved form has it |
| FormBuilder.Moved | src/components/FormBuilder.tsx:42-44 | same length, the dragged element at the destination |
| FormBuilder.MovedFrom | src/components/FormBuilder.tsx:42-44 | each position of the result holds a distinct position of the input |
| FormBuilder.MovedIsPermutation | src/components/FormBuilder.tsx:42-44 | the reorder is a permutation (same multiset) |
| FormBuilder.MovedKeepsOthersInOrder | src/components/FormBuilder.tsx:42-44 | the other fields keep their relative order |
| FormBuilder.MovedKeepsUnique | src/components/FormBuilder.tsx:42-45 | a reorder keeps field ids unique |
| FormBuilder.CloseGap | src/components/FormBuilder.tsx:43 | the in-place `splice(src, 1)`: the first slots hold the array without element `src` |
| FormBuilder.OpenGap | src/components/FormBuilder.tsx:44 | the in-place `splice(dst, 0, x)`: the array is the first slots with `x` inserted at `dst` |
| FormBuilder.Reorder | src/components/FormBuilder.tsx:42-44 | the in-place copy and two splices compute `Moved` |
| FormBuilder.OnDragEnd | src/components/FormBuilder.tsx:40-46 | no destination or no form: nothing; else only the fields change, reordered; invariant kept |
| FormBuilder.NewField | src/components/FormBuilder.tsx:18-28 | the template: the given id, a text field labelled "New Field", optional, no default or rules, an empty option list, `isDerived` false, no parents, empty formula |
| FormBuilder.NewFieldIsInert | src/components/FormBuilder.tsx:17-30 | both validators accept any value for the new field and its derived value is undefined |
| FormBuilder.AddNewField | src/components/FormBuilder.tsx:17-30 | the template goes through `addField` |
| FormBuilder.HandleSave | src/components/FormBuilder.tsx:32-38 | a cancelled or empty name saves nothing; a name saves the current form and clears it; with no current form nothing changes |
| FieldConfig.Merge | src/components/FieldConfig.tsx:18-20 | the id and default are kept, every attribute the change lacks is kept |
| FieldConfig.MergeTakesChange | src/components/FieldConfig.tsx:18-20 | every attribute the change carries replaces the field's |
| FieldConfig.MergeNoChange | src/components/FieldConfig.tsx:18-20 | an empty change is the identity |
| FieldConfig.MergeIdempotent | src/components/FieldConfig.tsx:18-20 | applying a change twice is applying it once |
| FieldConfig.MergeThen | src/components/FieldConfig.tsx:18-20 | two changes in a row are one combined change |
| FieldConfig.HandleChange | src/components/FieldConfig.tsx:18-20 | the merged field goes through `updateField` |
| FieldConfig.StoredBound | src/components/FieldConfig.tsx:26 | no bound exactly when the entered value is `''`, 0 or NaN; else the entered number |
| FieldConfig.WithoutIndex | src/components/FieldConfig.tsx:130 | one rule fewer for an index in range, no change otherwise |
| FieldConfig.WithoutIndexIsRemoveAt | src/components/FieldConfig.tsx:130 | removing by index drops exactly that rule and keeps the order of the others |
| FieldConfig.RuleDraft.constructor | src/components/FieldConfig.tsx:14-16 | empty kind, bound and message |
| FieldConfig.RuleDraft.SetKind | src/components/FieldConfig.tsx:83 | the draft's kind becomes the chosen one; bound and message are kept |
| FieldConfig.RuleDraft.SetBound | src/components/FieldConfig.tsx:98 | the bound input holds `Number(text)` |
| FieldConfig.RuleDraft.SetMessage | src/components/FieldConfig.tsx:108 | the draft's message becomes the typed text; kind and bound are kept |
| FieldConfig.RuleDraft.AddValidation | src/components/FieldConfig.tsx:22-34 | without a kind or a message nothing changes; else the rule is appended, the field updated and the draft cleared |
| FieldConfig.TrimAll | src/components/FieldConfig.tsx:71 | every piece trimmed, one for one |
| FieldConfig.TrimAllTrimmed | src/components/FieldConfig.tsx:71 | trimming pieces that have no outer white space changes nothing |
| FieldConfig.OptionsFromText | src/components/FieldConfig.tsx:71 | option `k` is piece `k` of the split on ',', trimmed; one option per piece, each without ',' or outer white space |
| FieldConfig.OptionsText | src/components/FieldConfig.tsx:70 | no options show as `''`; options without ',' split back out of the shown text one for one |
| FieldConfig.OptionsRoundTrip | src/components/FieldConfig.tsx:70-71 | editing the shown options text unchanged gives back trimmed, comma-free options |
| FieldConfig.OptionsCount | src/components/FieldConfig.tsx:71 | one option per comma plus one; a cleared text gives one empty option |
| DerivedFieldConfig.ParentCandidates | src/components/DerivedFieldConfig.tsx:30-32 | never the field itself nor a derived field; every other field of the form; nothing without a form |
| DerivedFieldConfig.CandidatesKeepOrder | src/components/DerivedFieldConfig.tsx:30-32 | candidates keep the form's field order |
| DerivedFieldConfig.PickedParentIsPlain | src/components/DerivedFieldConfig.tsx:30-32 | with unique ids a picked parent is neither derived nor the field itself |
| DerivedFieldConfig.SelectedParents | src/components/DerivedFieldConfig.tsx:26 | an absent parent list shows as empty |
| DerivedFieldConfig.FormulaText | src/components/DerivedFieldConfig.tsx:41 | an absent formula shows as `''` |
| DerivedFieldConfig.ParentsChangeOnly | src/components/DerivedFieldConfig.tsx:16-18 | picking parents changes the parents and nothing else |
| DerivedFieldConfig.FormulaChangeOnly | src/components/DerivedFieldConfig.tsx:16-18 | editing the formula changes the formula and nothing else |

## Left out

- Numbers are `real`, not IEEE doubles: no rounding, overflow, `-0` or `Infinity`.
- `Number()` on text reads an optional sign, digits and one optional fraction, after trimming. Exponents, hexadecimal, binary and octal prefixes, and `Infinity` are not modelled.
- JsValues.NumberText: `String()` of a number is exact only for integers below 10^21 in magnitude. JavaScript writes larger magnitudes in exponent form (`1e+21`), and the model writes all their digits instead. So for such a number the standalone password rule sees at least eight digits where JavaScript sees a shorter text. A fractional part keeps only its first decimal digit, because the shortest round-trip digit string of a double is not modelled. Only the standalone validator's email and password rules read this text.
- String length is the number of characters, not UTF-16 code units.
- FieldRenderer.LowerAscii: `toLowerCase()` is modelled on ASCII letters only. The comparison against `sum` and `average` is unaffected, since no other character lower-cases to one of their letters.
- `null` values are not modelled. The form values the code stores are never `null`, so `??` acts on `undefined` alone.
- The free-form formula evaluator (`new Function`) is the parameter `custom`. The model does not say what a given formula computes, only that a throw gives `undefined`.
- Storage is outside the model:
  - the saved forms are read from storage at start-up, so the constructor takes them as a parameter;
  - `saveForm` writes them back to storage, and that write is left out.
- `uuidv4()`, `new Date().toISOString()` and `prompt()` are parameters. The navigation after a save is left out.
- FormBuilder.OnDragEnd requires the source and destination indices to lie within the field list. The drag-and-drop library only reports such indices, so out-of-range splices are not modelled.
- FieldConfig.FieldPatch: a change never carries an id or a default value. No editor in the code sends one.
- JSX rendering, the MUI components, the Redux wiring, the theme and the routes are not modelled. The forms list page is not part of this model.
