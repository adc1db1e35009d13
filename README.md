# StockLens screener front end, modelled in Dafny

StockLens is a web front end for a stock screener. A user builds a list of
conditions such as `rsi14 < 30` or `ema50 crossed_above ema200` and sends it
to a screening server. The front end then shows the matching stocks in a table
that can be sorted and exported as CSV. This project models the logic that
lives in the front end and proves properties of it:

- `catalog.dfy` (module `Catalog`) models the vocabulary shared by the
  screens.
  - Data types: a condition, a screening result and a screener response.
    A condition's `value` is either a number or the name of another field
    (`Num(real) | Name(string)`).
  - Constant tables: the catalogue of 33 fields in six categories, the eight
    operators and the seven built-in presets.
  - What is proved about the tables: the field list is the categories'
    fields in order, no field name repeats, the operators are exactly eight
    distinct strings, and the presets are well formed against the
    catalogues.
  - One preset field is not in the catalogue: "Supertrend Buy Signal" uses
    `prev_supertrend_dir`. A lemma pins that down.
- `condition_row.dfy` (module `ConditionRow`) models one row of the builder.
  - `IsFieldValue` and `IsCrossover` decide which controls a row shows.
  - Each control has a handler that builds the next condition.
  - The handlers' frame properties and the two toggles' idempotence are
    proved. So is the fact that a crossover always compares with a named
    field.
- `screener_builder.dfy` (module `ScreenerBuilder`) models the condition list.
  - The list operations are functions: index update, append, remove, preset
    load and the save-name guard.
  - `class Builder` holds the list, the current results and the save name.
    Its methods replace that state the way the component's `set…` calls do.
  - `ApplyEdits` replays any sequence of user actions. Lemmas prove that
    the list stays non-empty and that crossovers keep comparing with named
    fields.
- `results_table.dfy` (module `ResultsTable`) models the results table.
  - The sort-key and direction state machine, plus `class Table` with
    fields `sortKey` and `sortAsc`.
  - The comparator, which puts missing values last. It is proved
    antisymmetric and transitive.
  - An insertion sort on a fresh array copy, proved to return a permutation
    of the results in comparator order.
  - The `-` / lakh / crore formatting choice.
  - CSV assembly, with split-back lemmas: the text splits into the header
    line and one line per row, and each row line splits back into its
    eleven values.
- `strings.dfy` (module `Strings`) holds the JavaScript string behaviour the
  rest relies on: `trim`, `join` with its inverse `split`, and lexicographic
  code-point order standing in for `localeCompare`.

Some values are computed by the browser and are not modelled:

- `toFixed`, `toLocaleString` and `String(number)` become parameters
  (`show`, `toFixed`, `toLocale`) or the symbolic datatype `Rendered`.
- `parseFloat` becomes the parameter `parsed`.

The catalogue records' `label` is called `title` here, because `label` is a
Dafny keyword.

## Model

| member | source | states |
|---|---|---|
| Catalog.Flatten | src/lib/api.ts:185 | a field is in the flattened list exactly when it is in some category's fields |
| Catalog.AllFieldsByCategory | src/lib/api.ts:119-185 | `ALL_FIELDS` is the six categories' field lists concatenated in category order, 33 entries |
| Catalog.FieldNamesDistinct | src/lib/api.ts:119-183 | no two catalogued fields share a `value` |
| Catalog.OperatorsExactly | src/lib/api.ts:187-196 | the operator values are exactly `>` `<` `>=` `<=` `=` `!=` `crossed_above` `crossed_below`, pairwise distinct |
| Catalog.PresetsNonEmpty | src/lib/api.ts:198-249 | every preset has at least one condition |
| Catalog.PresetOperatorsCatalogued | src/lib/api.ts:198-249 | every preset condition's operator is in the operator list |
| Catalog.PresetValuesCatalogued | src/lib/api.ts:202-239 | every string value in a preset names a catalogued field, `ema200` of the crossover preset included |
| Catalog.PresetFieldsCatalogued | src/lib/api.ts:198-249 | every preset condition's field is catalogued except the second one of "Supertrend Buy Signal" |
| Catalog.PresetUncataloguedField | src/lib/api.ts:243-248 | that exception reads `prev_supertrend_dir`, which is not a catalogued field |
| ConditionRow.IsFieldValueMeaning | src/components/ConditionRow.tsx:18 | a value is a field value iff it is a string equal to some catalogued field's `value`; a number never is |
| ConditionRow.FallbackIsFieldValue | src/lib/api.ts:134 | `ema20`, the fallback value, is a catalogued field |
| ConditionRow.IsFieldValue | src/components/ConditionRow.tsx:18 | the value equals the `value` of some entry of the field catalogue (characterised by `IsFieldValueMeaning`) |
| ConditionRow.IsCrossoverOp | src/components/ConditionRow.tsx:50 | an operator is a crossover iff it is `crossed_above` or `crossed_below` |
| ConditionRow.IsCrossover | src/components/ConditionRow.tsx:19-20 | a condition is a crossover iff its operator is `crossed_above` or `crossed_below` |
| ConditionRow.CrossoverOpsCatalogued | src/components/ConditionRow.tsx:19-20 | both crossover operators are in the operator list |
| ConditionRow.OnFieldChange | src/components/ConditionRow.tsx:28 | the field is replaced; operator and value are untouched |
| ConditionRow.OnOpChange | src/components/ConditionRow.tsx:45-56 | the operator is replaced and the field kept; a number turns into `ema20` exactly when the new operator is a crossover, otherwise the value is kept |
| ConditionRow.OnNumberToggle | src/components/ConditionRow.tsx:75-79 | a field-name value becomes 0; any other condition is returned unchanged |
| ConditionRow.OnFieldToggle | src/components/ConditionRow.tsx:92-96 | a value that is not a field name becomes `ema20`; a field-name value is left alone |
| ConditionRow.OnValueFieldChange | src/components/ConditionRow.tsx:106 | the chosen field name becomes the value, field and operator kept |
| ConditionRow.OnNumberInput | src/components/ConditionRow.tsx:124-129 | an empty input gives 0, otherwise the parsed number; field and operator kept |
| ConditionRow.CrossoverSwitchGivesField | src/components/ConditionRow.tsx:49-54 | after switching a numeric condition to a crossover, the value is a catalogued field |
| ConditionRow.NumberToggleIdempotent | src/components/ConditionRow.tsx:75-79 | after `#` the value is not a field name, and pressing `#` twice equals pressing it once |
| ConditionRow.FieldToggleIdempotent | src/components/ConditionRow.tsx:92-96 | after `Field` the value is a field name, and pressing `Field` twice equals pressing it once |
| ConditionRow.Dispatch | src/components/ConditionRow.tsx:25-132 | each control's event goes to its handler whenever the control is rendered: `#` runs the number toggle and `Field` the field toggle on non-crossover rows, the value selector sets the value while the field picker is shown, the number input parses while it is not; only the field selector changes the field and only the operator selector the operator; a control that is not rendered does nothing |
| ConditionRow.TogglesShown | src/components/ConditionRow.tsx:67-84 | the `#` and `Field` buttons are rendered exactly on non-crossover rows |
| ConditionRow.FieldPickerShown | src/components/ConditionRow.tsx:102 | the field dropdown replaces the number input exactly when the value is a field name or the row is a crossover |
| ConditionRow.DispatchKeepsCrossoverFieldRef | src/components/ConditionRow.tsx:45-132 | no control a row offers leaves a crossover condition comparing with a number |
| ScreenerBuilder.CopyConditions | src/components/ScreenerBuilder.tsx:16 | the spread copy of a condition list is element-wise equal to it |
| ScreenerBuilder.InitialConditions | src/components/ScreenerBuilder.tsx:15-17 | the builder starts on the first preset's conditions, a non-empty list |
| ScreenerBuilder.UpdateAt | src/components/ScreenerBuilder.tsx:24-26 | same length, the new condition at the index, every other index unchanged, an out-of-range index changes nothing |
| ScreenerBuilder.AppendDefault | src/components/ScreenerBuilder.tsx:28-30 | one longer, the old list a prefix, `rsi14 < 30` last |
| ScreenerBuilder.FilterOutIndex | src/components/ScreenerBuilder.tsx:33 | filtering out one position of a suffix removes exactly that element, or nothing when it lies outside |
| ScreenerBuilder.RemoveAt | src/components/ScreenerBuilder.tsx:32-34 | exactly the element at the index is dropped and the rest keep their order; an out-of-range index changes nothing |
| ScreenerBuilder.CanRemove | src/components/ScreenerBuilder.tsx:100 | the remove button is enabled iff more than one condition is left (disabled at src/components/ConditionRow.tsx:139) |
| ScreenerBuilder.PresetConditions | src/components/ScreenerBuilder.tsx:62-63 | loading a preset gives an element-wise equal copy of its conditions |
| ScreenerBuilder.SaveRequestFor | src/components/ScreenerBuilder.tsx:50-53 | nothing is sent iff the name is blank; otherwise the trimmed name, non-empty and without outer white space, with the current list |
| ScreenerBuilder.ApplyEdit | src/components/ScreenerBuilder.tsx:75-110 | a row edit replaces only that row by the row's response; add appends the default; remove does nothing while `CanRemove` fails and otherwise is `RemoveAt` of the pressed row, leaving at least one; a preset button replaces the list by its conditions |
| ScreenerBuilder.ApplyEditKeepsListNonEmpty | src/components/ScreenerBuilder.tsx:96-101 | one user action leaves a non-empty list non-empty |
| ScreenerBuilder.EditsKeepListNonEmpty | src/components/ScreenerBuilder.tsx:96-101 | because removal is offered only while more than one condition is left, no sequence of user actions empties the list |
| ScreenerBuilder.PresetCrossoversHaveFieldRefs | src/lib/api.ts:198-249 | every preset crossover compares with a named field |
| ScreenerBuilder.ApplyEditKeepsCrossoverFieldRefs | src/components/ScreenerBuilder.tsx:90-101 | one user action keeps every crossover comparing with a named field |
| ScreenerBuilder.EditsKeepCrossoverFieldRefs | src/components/ScreenerBuilder.tsx:90-101 | no sequence of user actions puts a number on the right of a crossover |
| ScreenerBuilder.InitialCrossoversHaveFieldRefs | src/components/ScreenerBuilder.tsx:15-17 | the initial list's crossovers compare with named fields |
| ScreenerBuilder.Builder.constructor | src/components/ScreenerBuilder.tsx:15-21 | initial state: the first preset's conditions, no results, empty save name |
| ScreenerBuilder.Builder.UpdateCondition | src/components/ScreenerBuilder.tsx:24-26 | the list becomes `UpdateAt` of the old one; results and save name unchanged |
| ScreenerBuilder.Builder.AddCondition | src/components/ScreenerBuilder.tsx:28-30 | the list becomes `AppendDefault` of the old one; nothing else changes |
| ScreenerBuilder.Builder.RemoveCondition | src/components/ScreenerBuilder.tsx:32-34 | the list becomes `RemoveAt` of the old one; nothing else changes |
| ScreenerBuilder.Builder.LoadPreset | src/components/ScreenerBuilder.tsx:62-65 | the list becomes the preset's conditions and the results are cleared |
| ScreenerBuilder.Builder.SetSaveName | src/components/ScreenerBuilder.tsx:130 | the name box's text is replaced; nothing else changes |
| ScreenerBuilder.Builder.HandleSave | src/components/ScreenerBuilder.tsx:50-53 | no request iff the saved name is blank, else the trimmed name with the current conditions |
| ResultsTable.CellOf | src/components/ResultsTable.tsx:26-27 | a row's value under a key; a string key never yields a number and a number key never a string |
| ResultsTable.NextSort | src/components/ResultsTable.tsx:16-23 | the clicked key becomes the sort key; the same key flips the direction, a new key is ascending iff it is `symbol` |
| ResultsTable.NextSortTwiceRestores | src/components/ResultsTable.tsx:17-18 | clicking the current column twice restores the sort state |
| ResultsTable.NextSortNewColumnTwice | src/components/ResultsTable.tsx:16-23 | two clicks on a new column sort by it descending for `symbol` and ascending otherwise |
| ResultsTable.ClicksSortByColumns | src/components/ResultsTable.tsx:88-99 | clicking headers only sorts by a shown column, the last one clicked |
| ResultsTable.LocaleCompare | src/components/ResultsTable.tsx:32 | negative, zero or positive exactly as the first string sorts before, equals or sorts after the second |
| ResultsTable.Compare | src/components/ResultsTable.tsx:28-36 | negative iff the first cell goes first (present before missing, string order or size, reversed when descending), positive iff the second does, zero iff the cells are equal |
| ResultsTable.CompareRows | src/components/ResultsTable.tsx:26-36 | the comparator on the two rows' values under the sort key, with the same sign meaning |
| ResultsTable.MissingSortsLast | src/components/ResultsTable.tsx:28-30 | two missing values tie; a missing value sorts after a present one in both directions |
| ResultsTable.DescendingSwapsOperands | src/components/ResultsTable.tsx:31-36 | for present strings and numbers, descending equals ascending with the operands swapped |
| ResultsTable.CompareAntisymmetric | src/components/ResultsTable.tsx:28-36 | swapping the operands negates the comparator's sign |
| ResultsTable.CompareTransitive | src/components/ResultsTable.tsx:28-36 | the comparator's "not after" relation is transitive |
| ResultsTable.InOrderTotal | src/components/ResultsTable.tsx:25-37 | any two rows are in order one way or the other |
| ResultsTable.InOrderTransitive | src/components/ResultsTable.tsx:25-37 | row order is transitive |
| ResultsTable.InsertInto | src/components/ResultsTable.tsx:25 | one insertion step extends the sorted prefix by one row, leaves the rows after it in place and only permutes the array |
| ResultsTable.SortInPlace | src/components/ResultsTable.tsx:25-37 | the array ends sorted by the comparator and holds the same rows |
| ResultsTable.Table.constructor | src/components/ResultsTable.tsx:13-14 | the table starts sorted by `symbol`, ascending |
| ResultsTable.Table.HandleSort | src/components/ResultsTable.tsx:16-23 | the new sort state is `NextSort` of the old one and the clicked key |
| ResultsTable.Table.Sorted | src/components/ResultsTable.tsx:25-37 | the rows shown are a permutation of the response's results in comparator order; the response is left unchanged |
| ResultsTable.Fmt | src/components/ResultsTable.tsx:78-79 | a dash exactly when the value is missing, otherwise the value to `dec` decimals, two by default |
| ResultsTable.FmtTextDashIffMissing | src/components/ResultsTable.tsx:78-79 | the text of `fmt` is `"-"` exactly when the value is missing |
| ResultsTable.FmtVol | src/components/ResultsTable.tsx:81-86 | a dash iff missing, `Cr` iff at least 1e7, `L` iff in [1e5, 1e7), no unit below 1e5, two decimals when scaled |
| ResultsTable.FmtVolScale | src/components/ResultsTable.tsx:83-85 | the scaled figure times its unit is the volume, at least 1 crore or between 1 and 100 lakh |
| ResultsTable.FmtVolUnitMonotone | src/components/ResultsTable.tsx:81-86 | a larger volume is never shown in a smaller unit |
| ResultsTable.RowCells | src/components/ResultsTable.tsx:53-66 | a row exports as many values as there are headers |
| ResultsTable.RowLines | src/components/ResultsTable.tsx:53-67 | one line per row, in row order, each that row's values joined by commas |
| ResultsTable.HeaderLine | src/components/ResultsTable.tsx:68 | the eleven header names joined by commas |
| ResultsTable.RowLine | src/components/ResultsTable.tsx:54-66 | a row's eleven values joined by commas |
| ResultsTable.CsvText | src/components/ResultsTable.tsx:68 | the header line, then the row lines in order, joined by line feeds (split back by `CsvTextLines`) |
| ResultsTable.RowLineSplits | src/components/ResultsTable.tsx:54-66 | a row line splits back at commas into its eleven values when none contains a comma |
| ResultsTable.CsvTextLines | src/components/ResultsTable.tsx:68 | the CSV splits at line feeds into the header line and then the rows' lines in order, one more line than rows |
| ResultsTable.Table.ExportCsv | src/components/ResultsTable.tsx:39-68 | the exported text is the CSV of the rows in the table's sorted order |
| Strings.Trim | src/components/ScreenerBuilder.tsx:51 | the trimmed name is a slice of the name with only white space cut off before and after it (`TrimmedFrom`), has no outer white space, and is empty exactly when the name is all white space |
| Strings.Join | src/components/ResultsTable.tsx:66 | `Array.prototype.join`: the parts with the separator between consecutive ones (inverted by `SplitJoin`) |
| Strings.SplitJoin | src/components/ResultsTable.tsx:66-68 | splitting a join at its separator gives back the parts when no part contains it |
| Strings.BelowTotal | src/components/ResultsTable.tsx:32 | two different strings are ordered one way or the other |
| Strings.BelowTransitive | src/components/ResultsTable.tsx:32 | the string order is transitive |

## Left out

- The screening engine runs on the server, and `runScreener`, `saveScreener` and the other fetch wrappers are network I/O. `Builder.HandleSave` returns the request it would send rather than sending it.
- `handleRun` (running a screen, loading and error state) is asynchronous. `Builder` holds `results` only so that `LoadPreset` can clear it.
- Builder.HandleSave: does not model what happens after the server answers: the `Saved as #id` message, the timed clearing of that message, and the name box being emptied on success.
- The Blob, object URL and anchor click of `exportCSV`, and the `screener_<date>.csv` file name, are browser I/O.
- Rendered: `toFixed` and `toLocaleString` are float formatting and stay symbolic (`Fixed(x, decimals, suffix)`, `Localized(x)`). Numbers are `real`, so rounding, NaN and infinities are not modelled.
- RowCells: `String(number)` inside `join` is the parameter `show`. CSV values are written unquoted, as in the source, so the split-back lemmas require that no value contains the separator.
- ConditionRow.OnNumberInput: `parseFloat` is the parameter `parsed`. A partly numeric or non-numeric input (NaN) is not modelled.
- LocaleCompare: the browser's collation is modelled as lexicographic code-point order. Real collation rules are not modelled: the UTF-16 code-unit order of JavaScript strings for characters beyond U+FFFF, and ties between distinct strings such as canonically equivalent ones, for which `localeCompare` returns 0. The model returns 0 only for equal strings.
- Table.Sorted: proves a permutation in comparator order but not the stability of JavaScript's `sort`. Rows that tie may come out in any order.
- Compare: requires that a string is never compared with a number. `CellOf` guarantees this for every key, so `CompareRows` has no precondition. The source's `Number(string)` fallback therefore never applies.
- The copies made by `{ ...c }` and `[...results]` are values here. Object identity and aliasing are not modelled; `Table.Sorted` sorts a fresh array and leaves the response untouched.
- The JSX markup is not modelled: colours, the sort arrow, `window.open` on a row, and the "AND" labels. Neither are the pages under src/app.
- The `disabled` attribute of the remove button is modelled by `ApplyEdit`. That event function dispatches a removal only while `CanRemove` holds. `Builder.RemoveCondition`, like the source's handler, does not check it.
