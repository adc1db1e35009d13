/** The screener's vocabulary, as the front end's API module declares it: the
    shape of a condition and of a screening result, the catalogue of fields
    grouped by category, the operator list and the built-in presets. */
module Catalog {

  datatype Option<T> = None | Some(value: T)

  /** A condition's right-hand side: a literal number, or the name of the
      field to compare with. */
  datatype Value = Num(x: real) | Name(name: string)

  /** One predicate of a screener, `field op value`. Field and operator are
      plain strings: a condition loaded from a saved screener may carry anything. */
  datatype Condition = Condition(field: string, op: string, value: Value)

  datatype FieldOption = FieldOption(value: string, title: string)

  datatype FieldCategory = FieldCategory(title: string, fields: seq<FieldOption>)

  datatype OperatorOption = OperatorOption(value: string, title: string)

  datatype Preset = Preset(name: string, conditions: seq<Condition>)

  /** One matching stock with its latest indicator values; `None` stands for
      JSON `null` (or a missing `sector`). */
  datatype ScreenerResult = ScreenerResult(
    symbol: string, name: string, sector: Option<string>,
    close: Option<real>, changePct: Option<real>, volume: Option<real>,
    volSpike: Option<real>, rsi14: Option<real>,
    ema9: Option<real>, ema20: Option<real>, ema50: Option<real>,
    sma20: Option<real>, sma50: Option<real>, sma200: Option<real>,
    macd: Option<real>, macdSignal: Option<real>, adx14: Option<real>,
    atr14: Option<real>, supertrend: Option<real>, supertrendDir: Option<real>,
    high52w: Option<real>, low52w: Option<real>)

  datatype ScreenerResponse = ScreenerResponse(count: int, date: string, results: seq<ScreenerResult>)

  const PriceFields: seq<FieldOption> := [
    FieldOption("close", "Close"),
    FieldOption("open", "Open"),
    FieldOption("high", "High"),
    FieldOption("low", "Low"),
    FieldOption("change_pct", "Change %")]

  const MovingAverageFields: seq<FieldOption> := [
    FieldOption("ema9", "EMA 9"),
    FieldOption("ema20", "EMA 20"),
    FieldOption("ema50", "EMA 50"),
    FieldOption("ema100", "EMA 100"),
    FieldOption("ema200", "EMA 200"),
    FieldOption("sma20", "SMA 20"),
    FieldOption("sma50", "SMA 50"),
    FieldOption("sma200", "SMA 200")]

  const OscillatorFields: seq<FieldOption> := [
    FieldOption("rsi14", "RSI (14)"),
    FieldOption("macd", "MACD"),
    FieldOption("macd_signal", "MACD Signal"),
    FieldOption("macd_hist", "MACD Histogram"),
    FieldOption("adx14", "ADX (14)"),
    FieldOption("plus_di", "+DI"),
    FieldOption("minus_di", "-DI")]

  const VolatilityFields: seq<FieldOption> := [
    FieldOption("atr14", "ATR (14)"),
    FieldOption("bb_upper", "BB Upper"),
    FieldOption("bb_middle", "BB Middle"),
    FieldOption("bb_lower", "BB Lower"),
    FieldOption("supertrend", "Supertrend"),
    FieldOption("supertrend_dir", "Supertrend Dir")]

  const VolumeFields: seq<FieldOption> := [
    FieldOption("volume", "Volume"),
    FieldOption("vol_spike", "Volume Spike (x avg)"),
    FieldOption("vol_avg20", "Vol Avg 20")]

  const PriceLevelFields: seq<FieldOption> := [
    FieldOption("high_52w", "52W High"),
    FieldOption("low_52w", "52W Low"),
    FieldOption("high_20d", "20D High"),
    FieldOption("low_20d", "20D Low")]

  const FieldCategories: seq<FieldCategory> := [
    FieldCategory("Price", PriceFields),
    FieldCategory("Moving Averages", MovingAverageFields),
    FieldCategory("Oscillators", OscillatorFields),
    FieldCategory("Volatility", VolatilityFields),
    FieldCategory("Volume", VolumeFields),
    FieldCategory("Price Levels", PriceLevelFields)
  ]

  /** `cats.flatMap(c => c.fields)`: every category's fields, in category order. */
  function Flatten(cats: seq<FieldCategory>): (r: seq<FieldOption>)
    ensures forall f :: f in r <==> exists c :: c in cats && f in c.fields
  {
    if cats == [] then [] else cats[0].fields + Flatten(cats[1..])
  }

  const AllFields: seq<FieldOption> := Flatten(FieldCategories)

  /** The `value` of each option, in order. */
  function Names(fields: seq<FieldOption>): (r: seq<string>)
    ensures |r| == |fields|
    ensures forall i :: 0 <= i < |r| ==> r[i] == fields[i].value
  {
    seq(|fields|, i requires 0 <= i < |fields| => fields[i].value)
  }

  /** The field names a condition may refer to, in catalogue order. */
  function FieldNames(): seq<string> {
    Names(AllFields)
  }

  predicate IsFieldName(s: string) {
    s in FieldNames()
  }

  /** No two positions of `s` hold the same element. */
  predicate Distinct<T(==)>(s: seq<T>) {
    forall i, j :: 0 <= i < j < |s| ==> s[i] != s[j]
  }

  const Operators: seq<OperatorOption> := [
    OperatorOption(">", ">"),
    OperatorOption("<", "<"),
    OperatorOption(">=", ">="),
    OperatorOption("<=", "<="),
    OperatorOption("=", "="),
    OperatorOption("!=", "!="),
    OperatorOption("crossed_above", "Crossed Above"),
    OperatorOption("crossed_below", "Crossed Below")
  ]

  function OperatorNames(): (r: seq<string>)
    ensures |r| == |Operators|
    ensures forall i :: 0 <= i < |r| ==> r[i] == Operators[i].value
  {
    seq(|Operators|, i requires 0 <= i < |Operators| => Operators[i].value)
  }

  predicate IsOperator(s: string) {
    s in OperatorNames()
  }

  const Presets: seq<Preset> := [
    Preset("Bullish", [
      Condition("close", ">", Name("ema20")),
      Condition("ema20", ">", Name("ema50")),
      Condition("rsi14", ">", Num(50.0)),
      Condition("macd", ">", Name("macd_signal")),
      Condition("supertrend_dir", "=", Num(1.0)),
      Condition("vol_spike", ">", Num(1.2))]),
    Preset("Bearish", [
      Condition("close", "<", Name("ema20")),
      Condition("ema20", "<", Name("ema50")),
      Condition("rsi14", "<", Num(50.0)),
      Condition("macd", "<", Name("macd_signal")),
      Condition("supertrend_dir", "=", Num(-1.0)),
      Condition("change_pct", "<", Num(0.0))]),
    Preset("Volume Breakout", [
      Condition("vol_spike", ">", Num(2.0)),
      Condition("change_pct", ">", Num(0.0))]),
    Preset("Oversold RSI", [
      Condition("rsi14", "<", Num(30.0))]),
    Preset("Golden Cross (EMA50 x EMA200)", [
      Condition("ema50", "crossed_above", Name("ema200"))]),
    Preset("Near 52W High", [
      Condition("close", ">", Name("high_52w"))]),
    Preset("Supertrend Buy Signal", [
      Condition("supertrend_dir", "=", Num(1.0)),
      Condition("prev_supertrend_dir", "=", Num(-1.0))])
  ]

  /** The field list is the six categories' lists, one after the other and in
      category order: 33 fields. */
  lemma AllFieldsByCategory()
    ensures AllFields == PriceFields + MovingAverageFields + OscillatorFields
      + VolatilityFields + VolumeFields + PriceLevelFields
    ensures |AllFields| == 33
  {
    var c := FieldCategories;
    assert Flatten(c[5..]) == PriceLevelFields + Flatten(c[6..]);
    assert Flatten(c[4..]) == VolumeFields + Flatten(c[5..]);
    assert Flatten(c[3..]) == VolatilityFields + Flatten(c[4..]);
    assert Flatten(c[2..]) == OscillatorFields + Flatten(c[3..]);
    assert Flatten(c[1..]) == MovingAverageFields + Flatten(c[2..]);
    assert Flatten(c) == PriceFields + Flatten(c[1..]);
  }

  predicate Disjoint<T(==)>(a: seq<T>, b: seq<T>) {
    forall i, j :: 0 <= i < |a| && 0 <= j < |b| ==> a[i] != b[j]
  }

  lemma DistinctAppend<T>(a: seq<T>, b: seq<T>)
    requires Distinct(a) && Distinct(b) && Disjoint(a, b)
    ensures Distinct(a + b)
  {
    forall i, j | 0 <= i < j < |a + b| ensures (a + b)[i] != (a + b)[j] {
      if j < |a| {
        assert (a + b)[i] == a[i] && (a + b)[j] == a[j];
      } else if i < |a| {
        assert (a + b)[i] == a[i] && (a + b)[j] == b[j - |a|];
      } else {
        assert (a + b)[i] == b[i - |a|] && (a + b)[j] == b[j - |a|];
      }
    }
  }

  lemma NamesAppend(a: seq<FieldOption>, b: seq<FieldOption>)
    ensures Names(a + b) == Names(a) + Names(b)
  {
    assert forall i :: 0 <= i < |a + b| ==> Names(a + b)[i] == (Names(a) + Names(b))[i];
  }

  lemma CategoriesHaveNoRepeats()
    ensures Distinct(Names(PriceFields)) && Distinct(Names(MovingAverageFields))
    ensures Distinct(Names(OscillatorFields)) && Distinct(Names(VolatilityFields))
    ensures Distinct(Names(VolumeFields)) && Distinct(Names(PriceLevelFields))
  {
  }

  lemma FirstCategoriesApart()
    ensures Disjoint(Names(PriceFields), Names(MovingAverageFields))
    ensures Disjoint(Names(PriceFields) + Names(MovingAverageFields), Names(OscillatorFields))
  {
  }

  lemma LastCategoriesApart()
    ensures Disjoint(Names(VolatilityFields), Names(VolumeFields))
    ensures Disjoint(Names(VolatilityFields) + Names(VolumeFields), Names(PriceLevelFields))
  {
  }

  lemma HalvesApart()
    ensures Disjoint(Names(PriceFields) + Names(MovingAverageFields) + Names(OscillatorFields),
                     Names(VolatilityFields) + Names(VolumeFields) + Names(PriceLevelFields))
  {
  }

  /** No field name occurs twice in the catalogue. */
  lemma FieldNamesDistinct()
    ensures Distinct(FieldNames())
  {
    AllFieldsByCategory();
    var f0, f1, f2 := PriceFields, MovingAverageFields, OscillatorFields;
    var f3, f4, f5 := VolatilityFields, VolumeFields, PriceLevelFields;
    assert AllFields == (f0 + f1 + f2) + (f3 + f4 + f5);
    NamesAppend(f0, f1);
    NamesAppend(f0 + f1, f2);
    NamesAppend(f3, f4);
    NamesAppend(f3 + f4, f5);
    NamesAppend(f0 + f1 + f2, f3 + f4 + f5);
    CategoriesHaveNoRepeats();
    FirstCategoriesApart();
    LastCategoriesApart();
    HalvesApart();
    var n0, n1, n2, n3, n4, n5 := Names(f0), Names(f1), Names(f2), Names(f3), Names(f4), Names(f5);
    DistinctAppend(n0, n1);
    DistinctAppend(n0 + n1, n2);
    DistinctAppend(n3, n4);
    DistinctAppend(n3 + n4, n5);
    DistinctAppend(n0 + n1 + n2, n3 + n4 + n5);
  }

  /** The operators are exactly these eight, each once. */
  lemma OperatorsExactly()
    ensures OperatorNames() == [">", "<", ">=", "<=", "=", "!=", "crossed_above", "crossed_below"]
    ensures Distinct(OperatorNames())
  {
  }

  /** Every preset has at least one condition. */
  lemma PresetsNonEmpty()
    ensures forall k :: 0 <= k < |Presets| ==> |Presets[k].conditions| > 0
  {
  }

  /** Every preset condition uses a catalogued operator. */
  lemma PresetOperatorsCatalogued()
    ensures forall k, i :: 0 <= k < |Presets| && 0 <= i < |Presets[k].conditions| ==>
      IsOperator(Presets[k].conditions[i].op)
  {
    OperatorsExactly();
    forall k, i | 0 <= k < |Presets| && 0 <= i < |Presets[k].conditions|
      ensures IsOperator(Presets[k].conditions[i].op)
    {
      assert k in {0, 1, 2, 3, 4, 5, 6} && i in {0, 1, 2, 3, 4, 5};
    }
  }

  /** The fields the presets use are catalogued: those among the first sixteen ... */
  lemma PresetFieldsListedEarly()
    ensures IsFieldName("close") && IsFieldName("change_pct") && IsFieldName("ema20")
    ensures IsFieldName("ema50") && IsFieldName("ema200") && IsFieldName("rsi14")
    ensures IsFieldName("macd") && IsFieldName("macd_signal")
  {
    AllFieldsByCategory();
    var n := FieldNames();
    assert n[0] == "close" && n[4] == "change_pct" && n[6] == "ema20" && n[7] == "ema50";
    assert n[9] == "ema200" && n[13] == "rsi14" && n[14] == "macd" && n[15] == "macd_signal";
  }

  /** ... and those further down. */
  lemma PresetFieldsListedLate()
    ensures IsFieldName("supertrend_dir") && IsFieldName("vol_spike") && IsFieldName("high_52w")
  {
    AllFieldsByCategory();
    var n := FieldNames();
    assert n[25] == "supertrend_dir" && n[27] == "vol_spike" && n[29] == "high_52w";
  }

  /** Every field a preset compares with is catalogued, the crossover preset's
      `ema200` among them. */
  lemma PresetValuesCatalogued()
    ensures forall k, i :: 0 <= k < |Presets| && 0 <= i < |Presets[k].conditions| && Presets[k].conditions[i].value.Name? ==>
      IsFieldName(Presets[k].conditions[i].value.name)
  {
    PresetFieldsListedEarly();
    PresetFieldsListedLate();
    forall k, i | 0 <= k < |Presets| && 0 <= i < |Presets[k].conditions| && Presets[k].conditions[i].value.Name?
      ensures IsFieldName(Presets[k].conditions[i].value.name)
    {
      assert k in {0, 1, 2, 3, 4, 5, 6} && i in {0, 1, 2, 3, 4, 5};
    }
  }

  /** Every preset's left-hand field is catalogued, except `prev_supertrend_dir`
      in the "Supertrend Buy Signal" preset, which is not in the catalogue. */
  lemma PresetFieldsCatalogued()
    ensures forall k, i :: 0 <= k < |Presets| && 0 <= i < |Presets[k].conditions| ==>
      IsFieldName(Presets[k].conditions[i].field) || (k, i) == (6, 1)
  {
    PresetFieldsListedEarly();
    PresetFieldsListedLate();
    forall k, i | 0 <= k < |Presets| && 0 <= i < |Presets[k].conditions|
      ensures IsFieldName(Presets[k].conditions[i].field) || (k, i) == (6, 1)
    {
      assert k in {0, 1, 2, 3, 4, 5, 6} && i in {0, 1, 2, 3, 4, 5};
    }
  }

  /** The exception: the "Supertrend Buy Signal" preset's second condition reads
      `prev_supertrend_dir`, which the catalogue does not list. */
  lemma PresetUncataloguedField()
    ensures Presets[6].conditions[1].field == "prev_supertrend_dir"
    ensures !IsFieldName("prev_supertrend_dir")
  {
    AllFieldsByCategory();
  }
}
