/** The screener builder's state: the list of conditions being edited, the
    last results shown and the name typed for saving. Every edit rebuilds the
    list from the previous one; the functions below say how, and the class
    holds the state the builder replaces wholesale. */
module ScreenerBuilder {
  import opened Catalog
  import opened Strings
  import ConditionRow

  /** The condition "+ Add Condition" appends. */
  const DefaultCondition := Condition("rsi14", "<", Num(30.0))

  /** `{ ...c }`: a fresh record with the same fields. */
  function CopyCondition(c: Condition): (r: Condition)
    ensures r == c
  {
    Condition(c.field, c.op, c.value)
  }

  /** `conditions.map(c => ({ ...c }))`: an element-wise equal copy. */
  function CopyConditions(cs: seq<Condition>): (r: seq<Condition>)
    ensures r == cs
  {
    seq(|cs|, i requires 0 <= i < |cs| => CopyCondition(cs[i]))
  }

  /** The list the builder starts with: a copy of the first preset's ("Bullish"). */
  function InitialConditions(): (r: seq<Condition>)
    ensures r == Presets[0].conditions && |r| > 0
  {
    PresetsNonEmpty();
    CopyConditions(Presets[0].conditions)
  }

  /** `updateCondition`: `prev.map((p, i) => i === idx ? c : p)`. The length is
      kept, `c` lands at `idx`, every other position is unchanged, and an
      index outside the list changes nothing. */
  function UpdateAt(conds: seq<Condition>, idx: int, c: Condition): (r: seq<Condition>)
    ensures |r| == |conds|
    ensures 0 <= idx < |conds| ==> r[idx] == c
    ensures forall i :: 0 <= i < |conds| && i != idx ==> r[i] == conds[i]
    ensures !(0 <= idx < |conds|) ==> r == conds
  {
    seq(|conds|, i requires 0 <= i < |conds| => if i == idx then c else conds[i])
  }

  /** `addCondition`: the old list followed by the default condition. */
  function AppendDefault(conds: seq<Condition>): (r: seq<Condition>)
    ensures |r| == |conds| + 1
    ensures r[..|conds|] == conds && r[|conds|] == DefaultCondition
  {
    conds + [DefaultCondition]
  }

  /** `s.filter((_, i) => i !== idx)` for a suffix `s` whose first element sits
      at position `from` of the whole list. */
  function FilterOutIndex(s: seq<Condition>, idx: int, from: int): (r: seq<Condition>)
    ensures from <= idx < from + |s| ==> r == s[..idx - from] + s[idx - from + 1..]
    ensures !(from <= idx < from + |s|) ==> r == s
  {
    if s == [] then []
    else (if from == idx then [] else [s[0]]) + FilterOutIndex(s[1..], idx, from + 1)
  }

  /** `removeCondition`: exactly the element at `idx` is dropped and the rest
      keep their order; an index outside the list changes nothing. */
  function RemoveAt(conds: seq<Condition>, idx: int): (r: seq<Condition>)
    ensures 0 <= idx < |conds| ==> |r| == |conds| - 1 && r == conds[..idx] + conds[idx + 1..]
    ensures !(0 <= idx < |conds|) ==> r == conds
  {
    FilterOutIndex(conds, idx, 0)
  }

  /** `canRemove`: the remove button is enabled only while more than one
      condition is left. */
  predicate CanRemove(conds: seq<Condition>) {
    |conds| > 1
  }

  /** `loadPreset`: the list becomes an element-wise equal copy of the preset's. */
  function PresetConditions(p: Preset): (r: seq<Condition>)
    ensures |r| == |p.conditions| && forall i :: 0 <= i < |r| ==> r[i] == p.conditions[i]
  {
    CopyConditions(p.conditions)
  }

  /** What `handleSave` sends: the trimmed name and the current list. */
  datatype SaveRequest = SaveRequest(name: string, conditions: seq<Condition>)

  /** `handleSave`: nothing is sent when the trimmed name is empty, i.e. when
      the typed name is blank; otherwise the trimmed name, which is non-empty
      and neither starts nor ends with white space, goes out with the current
      list. */
  function SaveRequestFor(saveName: string, conds: seq<Condition>): (r: Option<SaveRequest>)
    ensures r.None? <==> AllTrimmable(saveName)
    ensures r.Some? ==> r.value.name == Trim(saveName) && r.value.conditions == conds
    ensures r.Some? ==>
      r.value.name != [] && !IsTrimmable(r.value.name[0]) && !IsTrimmable(r.value.name[|r.value.name| - 1])
  {
    var name := Trim(saveName);
    if name == [] then None else Some(SaveRequest(name, conds))
  }

  /** What the user can do to the list. Row edits reach the list through the row
      at `idx`; removal goes through the row's remove button. */
  datatype UiEdit =
    | RowEdited(idx: int, e: ConditionRow.RowEvent)
    | AddPressed
    | RemovePressed(idx: int)
    | PresetPressed(preset: Preset)

  /** The list after one user action. Only existing rows can be edited or
      removed, and their remove button is disabled unless `CanRemove`. */
  function ApplyEdit(conds: seq<Condition>, e: UiEdit): (r: seq<Condition>)
    ensures e.RowEdited? ==> |r| == |conds| && forall i :: 0 <= i < |conds| && i != e.idx ==> r[i] == conds[i]
    ensures e.RowEdited? && 0 <= e.idx < |conds| ==> r[e.idx] == ConditionRow.Dispatch(conds[e.idx], e.e)
    ensures e.AddPressed? ==> r == conds + [DefaultCondition]
    ensures e.RemovePressed? && !CanRemove(conds) ==> r == conds
    ensures e.RemovePressed? && CanRemove(conds) ==> r == RemoveAt(conds, e.idx)
    ensures e.RemovePressed? && CanRemove(conds) && 0 <= e.idx < |conds| ==> |r| == |conds| - 1 > 0
    ensures e.PresetPressed? ==> r == e.preset.conditions
  {
    match e
    case RowEdited(idx, ev) =>
      if 0 <= idx < |conds| then UpdateAt(conds, idx, ConditionRow.Dispatch(conds[idx], ev)) else conds
    case AddPressed => AppendDefault(conds)
    case RemovePressed(idx) => if CanRemove(conds) then RemoveAt(conds, idx) else conds
    case PresetPressed(p) => PresetConditions(p)
  }

  function ApplyEdits(conds: seq<Condition>, edits: seq<UiEdit>): seq<Condition>
    decreases |edits|
  {
    if edits == [] then conds else ApplyEdits(ApplyEdit(conds, edits[0]), edits[1..])
  }

  /** Only the built-in presets can be loaded from the builder. */
  predicate OffersOnlyBuiltInPresets(edits: seq<UiEdit>) {
    forall i :: 0 <= i < |edits| && edits[i].PresetPressed? ==> edits[i].preset in Presets
  }

  lemma OffersOnlyBuiltInPresetsTail(edits: seq<UiEdit>)
    requires edits != [] && OffersOnlyBuiltInPresets(edits)
    ensures OffersOnlyBuiltInPresets(edits[1..])
  {
    forall i | 0 <= i < |edits[1..]| && edits[1..][i].PresetPressed?
      ensures edits[1..][i].preset in Presets
    {
      assert edits[1..][i] == edits[i + 1];
    }
  }

  /** One action leaves a non-empty list non-empty. */
  lemma ApplyEditKeepsListNonEmpty(conds: seq<Condition>, e: UiEdit)
    requires |conds| > 0
    requires e.PresetPressed? ==> e.preset in Presets
    ensures |ApplyEdit(conds, e)| > 0
  {
    if e.PresetPressed? {
      PresetsNonEmpty();
      var k :| 0 <= k < |Presets| && Presets[k] == e.preset;
    }
  }

  /** The list is never empty: it starts non-empty, every preset is non-empty,
      and removal is disabled on the last condition. */
  lemma {:induction false} EditsKeepListNonEmpty(conds: seq<Condition>, edits: seq<UiEdit>)
    requires |conds| > 0
    requires OffersOnlyBuiltInPresets(edits)
    ensures |ApplyEdits(conds, edits)| > 0
    decreases |edits|
  {
    if edits != [] {
      ApplyEditKeepsListNonEmpty(conds, edits[0]);
      OffersOnlyBuiltInPresetsTail(edits);
      EditsKeepListNonEmpty(ApplyEdit(conds, edits[0]), edits[1..]);
    }
  }

  /** Every crossover condition of the list compares with a named field. */
  predicate CrossoversHaveFieldRefs(conds: seq<Condition>) {
    forall i :: 0 <= i < |conds| ==> ConditionRow.CrossoverHasFieldRef(conds[i])
  }

  /** Every preset's crossover conditions compare with named fields. */
  lemma PresetCrossoversHaveFieldRefs()
    ensures forall k :: 0 <= k < |Presets| ==> CrossoversHaveFieldRefs(Presets[k].conditions)
  {
    forall k, i | 0 <= k < |Presets| && 0 <= i < |Presets[k].conditions|
      ensures ConditionRow.CrossoverHasFieldRef(Presets[k].conditions[i])
    {
      assert k in {0, 1, 2, 3, 4, 5, 6} && i in {0, 1, 2, 3, 4, 5};
    }
  }

  /** One action keeps every crossover comparing with a named field. */
  lemma ApplyEditKeepsCrossoverFieldRefs(conds: seq<Condition>, e: UiEdit)
    requires CrossoversHaveFieldRefs(conds)
    requires e.PresetPressed? ==> e.preset in Presets
    ensures CrossoversHaveFieldRefs(ApplyEdit(conds, e))
  {
    var next := ApplyEdit(conds, e);
    match e
    case RowEdited(idx, ev) =>
      if 0 <= idx < |conds| {
        ConditionRow.DispatchKeepsCrossoverFieldRef(conds[idx], ev);
      }
    case AddPressed =>
    case RemovePressed(idx) =>
      if CanRemove(conds) && 0 <= idx < |conds| {
        assert forall i :: 0 <= i < |next| ==> next[i] == conds[if i < idx then i else i + 1];
      }
    case PresetPressed(p) =>
      PresetCrossoversHaveFieldRefs();
      var k :| 0 <= k < |Presets| && Presets[k] == p;
  }

  /** No sequence of user actions puts a literal number on the right of a
      crossover: the builder starts and stays in that shape. */
  lemma {:induction false} EditsKeepCrossoverFieldRefs(conds: seq<Condition>, edits: seq<UiEdit>)
    requires CrossoversHaveFieldRefs(conds)
    requires OffersOnlyBuiltInPresets(edits)
    ensures CrossoversHaveFieldRefs(ApplyEdits(conds, edits))
    decreases |edits|
  {
    if edits != [] {
      ApplyEditKeepsCrossoverFieldRefs(conds, edits[0]);
      OffersOnlyBuiltInPresetsTail(edits);
      EditsKeepCrossoverFieldRefs(ApplyEdit(conds, edits[0]), edits[1..]);
    }
  }

  /** The list the builder opens on has its crossovers comparing with fields. */
  lemma InitialCrossoversHaveFieldRefs()
    ensures CrossoversHaveFieldRefs(InitialConditions())
  {
    PresetCrossoversHaveFieldRefs();
  }

  /** The builder's state. `results` is what the last run returned, shown
      below the form; `saveName` is the text of the name box. */
  class Builder {
    var conditions: seq<Condition>
    var results: Option<ScreenerResponse>
    var saveName: string

    /** The builder opens on a copy of the first preset, with no results and
        an empty name box. */
    constructor ()
      ensures conditions == Presets[0].conditions && |conditions| > 0
      ensures results == None && saveName == ""
    {
      conditions := InitialConditions();
      results := None;
      saveName := "";
    }

    method UpdateCondition(idx: int, c: Condition)
      modifies this
      ensures conditions == UpdateAt(old(conditions), idx, c)
      ensures results == old(results) && saveName == old(saveName)
    {
      conditions := UpdateAt(conditions, idx, c);
    }

    method AddCondition()
      modifies this
      ensures conditions == AppendDefault(old(conditions))
      ensures results == old(results) && saveName == old(saveName)
    {
      conditions := AppendDefault(conditions);
    }

    /** The handler itself does not check `CanRemove`; the disabled button does. */
    method RemoveCondition(idx: int)
      modifies this
      ensures conditions == RemoveAt(old(conditions), idx)
      ensures results == old(results) && saveName == old(saveName)
    {
      conditions := RemoveAt(conditions, idx);
    }

    /** Loading a preset replaces the list and clears the results. */
    method LoadPreset(p: Preset)
      modifies this
      ensures conditions == PresetConditions(p) && conditions == p.conditions
      ensures results == None && saveName == old(saveName)
    {
      conditions := PresetConditions(p);
      results := None;
    }

    method SetSaveName(name: string)
      modifies this
      ensures saveName == name
      ensures conditions == old(conditions) && results == old(results)
    {
      saveName := name;
    }

    /** The save request the builder would send, if any; sending it and what
        happens after the server answers are not part of this model. */
    method HandleSave() returns (request: Option<SaveRequest>)
      ensures request.None? <==> AllTrimmable(saveName)
      ensures request.Some? ==> request.value == SaveRequest(Trim(saveName), conditions)
    {
      request := SaveRequestFor(saveName, conditions);
    }
  }
}
