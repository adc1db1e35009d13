/** One row of the condition builder: which controls it shows for a condition,
    and the condition each control hands back to the list when the user
    operates it. */
module ConditionRow {
  import opened Catalog

  /** `isFieldValue`: the value equals the `value` of some catalogued field.
      The comparison is strict equality, so a number never qualifies. */
  predicate IsFieldValue(c: Condition) {
    exists f :: f in AllFields && c.value == Name(f.value)
  }

  predicate IsCrossoverOp(op: string) {
    op == "crossed_above" || op == "crossed_below"
  }

  /** `isCrossover`: the condition's operator is one of the two crossovers. */
  predicate IsCrossover(c: Condition) {
    IsCrossoverOp(c.op)
  }

  /** The `#` and `Field` buttons are rendered only for non-crossover rows. */
  predicate TogglesShown(c: Condition) {
    !IsCrossover(c)
  }

  /** The value is picked from the field list (rather than typed as a number)
      when it is a field name or the operator is a crossover. */
  predicate FieldPickerShown(c: Condition) {
    IsFieldValue(c) || IsCrossover(c)
  }

  /** The value is a field reference exactly when it is a string naming a
      catalogued field; numbers never are. */
  lemma IsFieldValueMeaning(c: Condition)
    ensures IsFieldValue(c) <==> c.value.Name? && IsFieldName(c.value.name)
    ensures c.value.Num? ==> !IsFieldValue(c)
  {
    if c.value.Name? && IsFieldName(c.value.name) {
      var i :| 0 <= i < |FieldNames()| && FieldNames()[i] == c.value.name;
      assert AllFields[i] in AllFields;
    }
  }

  /** `ema20`, the value the row falls back to, is a field reference. */
  lemma FallbackIsFieldValue(c: Condition)
    requires c.value == Name("ema20")
    ensures IsFieldValue(c)
  {
    PresetFieldsListedEarly();
    IsFieldValueMeaning(c);
  }

  /** The two crossover operators are both in the operator list. */
  lemma CrossoverOpsCatalogued(op: string)
    requires IsCrossoverOp(op)
    ensures IsOperator(op)
  {
    OperatorsExactly();
    assert OperatorNames()[6] == "crossed_above" && OperatorNames()[7] == "crossed_below";
  }

  /** The field selector: the chosen field replaces `field`; `op` and `value`
      stay as they were. */
  function OnFieldChange(c: Condition, field: string): (r: Condition)
    ensures r.field == field && r.op == c.op && r.value == c.value
  {
    c.(field := field)
  }

  /** The operator selector: the chosen operator replaces `op`, `field` stays.
      Choosing a crossover while the value is a number turns the value into
      `ema20`; in every other case the value stays. */
  function OnOpChange(c: Condition, op: string): (r: Condition)
    ensures r.op == op && r.field == c.field
    ensures IsCrossoverOp(op) && c.value.Num? ==> r.value == Name("ema20")
    ensures !(IsCrossoverOp(op) && c.value.Num?) ==> r.value == c.value
  {
    var next := c.(op := op);
    if IsCrossoverOp(op) && c.value.Num? then next.(value := Name("ema20")) else next
  }

  /** The `#` button: a field-name value becomes the number 0; otherwise the
      condition is left as it is. */
  function OnNumberToggle(c: Condition): (r: Condition)
    ensures r.field == c.field && r.op == c.op
    ensures IsFieldValue(c) ==> r.value == Num(0.0)
    ensures !IsFieldValue(c) ==> r == c
  {
    if IsFieldValue(c) then c.(value := Num(0.0)) else c
  }

  /** The `Field` button: a value that is not a field name becomes `ema20`;
      otherwise the condition is left as it is. */
  function OnFieldToggle(c: Condition): (r: Condition)
    ensures r.field == c.field && r.op == c.op
    ensures !IsFieldValue(c) ==> r.value == Name("ema20")
    ensures IsFieldValue(c) ==> r == c
  {
    if !IsFieldValue(c) then c.(value := Name("ema20")) else c
  }

  /** The value's field selector: the chosen name becomes the value. */
  function OnValueFieldChange(c: Condition, name: string): (r: Condition)
    ensures r.field == c.field && r.op == c.op && r.value == Name(name)
  {
    c.(value := Name(name))
  }

  /** The number input. `parsed` stands for `parseFloat(raw)`, which is not
      modelled; an empty input gives 0 whatever `parsed` is. */
  function OnNumberInput(c: Condition, raw: string, parsed: real): (r: Condition)
    ensures r.field == c.field && r.op == c.op
    ensures r.value == Num(if raw == "" then 0.0 else parsed)
  {
    c.(value := if raw == "" then Num(0.0) else Num(parsed))
  }

  /** Switching a numeric condition to a crossover leaves it comparing with a
      catalogued field. */
  lemma CrossoverSwitchGivesField(c: Condition, op: string)
    requires c.value.Num? && IsCrossoverOp(op)
    ensures IsFieldValue(OnOpChange(c, op)) && IsCrossover(OnOpChange(c, op))
  {
    FallbackIsFieldValue(OnOpChange(c, op));
  }

  /** After the `#` button the value is never a field name, so pressing it
      again does nothing. */
  lemma NumberToggleIdempotent(c: Condition)
    ensures !IsFieldValue(OnNumberToggle(c))
    ensures OnNumberToggle(OnNumberToggle(c)) == OnNumberToggle(c)
  {
    IsFieldValueMeaning(OnNumberToggle(c));
  }

  /** After the `Field` button the value is always a field name, so pressing it
      again does nothing. */
  lemma FieldToggleIdempotent(c: Condition)
    ensures IsFieldValue(OnFieldToggle(c))
    ensures OnFieldToggle(OnFieldToggle(c)) == OnFieldToggle(c)
  {
    if !IsFieldValue(c) {
      FallbackIsFieldValue(OnFieldToggle(c));
    }
  }

  /** What the user can do to one row. `NumberTyped` carries the raw text of
      the input and the number `parseFloat` reads from it. */
  datatype RowEvent =
    | FieldChosen(field: string)
    | OpChosen(op: string)
    | NumberPressed
    | FieldPressed
    | ValueFieldChosen(name: string)
    | NumberTyped(raw: string, parsed: real)

  /** The row's response to an event; a control the row does not render for
      this condition cannot be operated, so its event changes nothing. */
  function Dispatch(c: Condition, e: RowEvent): (r: Condition)
    ensures !e.FieldChosen? ==> r.field == c.field
    ensures !e.OpChosen? ==> r.op == c.op
    ensures e.FieldChosen? ==> r == OnFieldChange(c, e.field)
    ensures e.OpChosen? ==> r == OnOpChange(c, e.op)
    ensures e.NumberPressed? && !IsCrossover(c) ==> r == OnNumberToggle(c)
    ensures e.FieldPressed? && !IsCrossover(c) ==> r == OnFieldToggle(c)
    ensures e.ValueFieldChosen? && FieldPickerShown(c) ==> r == OnValueFieldChange(c, e.name)
    ensures e.NumberTyped? && !FieldPickerShown(c) ==> r == OnNumberInput(c, e.raw, e.parsed)
    ensures (e.NumberPressed? || e.FieldPressed?) && IsCrossover(c) ==> r == c
    ensures e.ValueFieldChosen? && !FieldPickerShown(c) ==> r == c
    ensures e.NumberTyped? && FieldPickerShown(c) ==> r == c
  {
    match e
    case FieldChosen(f) => OnFieldChange(c, f)
    case OpChosen(op) => OnOpChange(c, op)
    case NumberPressed => if TogglesShown(c) then OnNumberToggle(c) else c
    case FieldPressed => if TogglesShown(c) then OnFieldToggle(c) else c
    case ValueFieldChosen(name) => if FieldPickerShown(c) then OnValueFieldChange(c, name) else c
    case NumberTyped(raw, parsed) => if !FieldPickerShown(c) then OnNumberInput(c, raw, parsed) else c
  }

  /** A crossover condition compares with a named field, never a literal. */
  predicate CrossoverHasFieldRef(c: Condition) {
    IsCrossover(c) ==> c.value.Name?
  }

  /** Whatever the user does to a row, a crossover condition keeps comparing
      with a named field: the operator switch supplies one, and the controls
      that would enter a number are not offered on crossover rows. */
  lemma DispatchKeepsCrossoverFieldRef(c: Condition, e: RowEvent)
    requires CrossoverHasFieldRef(c)
    ensures CrossoverHasFieldRef(Dispatch(c, e))
  {
    match e
    case NumberPressed =>
      if TogglesShown(c) { assert !IsCrossover(OnNumberToggle(c)); }
    case _ =>
  }
}
