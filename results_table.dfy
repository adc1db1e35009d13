/** The results table: which column the rows are sorted by and in which
    direction, the comparator that orders them with missing values last, the
    sort of a copy of the results, the cell formatting and the CSV export. */
module ResultsTable {
  import opened Catalog
  import opened Strings

  /** The keys of a result row, any of which the table may sort by. */
  datatype SortKey =
    | Symbol | Name | Sector | Close | ChangePct | Volume | VolSpike | Rsi14
    | Ema9 | Ema20 | Ema50 | Sma20 | Sma50 | Sma200 | Macd | MacdSignal
    | Adx14 | Atr14 | Supertrend | SupertrendDir | High52w | Low52w

  /** The keys that hold strings; every other key holds a number. */
  predicate IsTextKey(key: SortKey) {
    key.Symbol? || key.Name? || key.Sector?
  }

  /** A row's value under a key: missing (`null` or undefined), a string or a number. */
  datatype Cell = Missing | Text(s: string) | Number(x: real)

  function TextCell(v: Option<string>): Cell {
    if v.None? then Missing else Text(v.value)
  }

  function NumberCell(v: Option<real>): Cell {
    if v.None? then Missing else Number(v.value)
  }

  /** `r[key]`. A text key never yields a number and a number key never
      yields a string. */
  function CellOf(r: ScreenerResult, key: SortKey): (c: Cell)
    ensures c.Text? ==> IsTextKey(key)
    ensures c.Number? ==> !IsTextKey(key)
    ensures key.Symbol? ==> c == Text(r.symbol)
    ensures key.Close? ==> c == NumberCell(r.close)
  {
    match key
    case Symbol => Text(r.symbol)
    case Name => Text(r.name)
    case Sector => TextCell(r.sector)
    case Close => NumberCell(r.close)
    case ChangePct => NumberCell(r.changePct)
    case Volume => NumberCell(r.volume)
    case VolSpike => NumberCell(r.volSpike)
    case Rsi14 => NumberCell(r.rsi14)
    case Ema9 => NumberCell(r.ema9)
    case Ema20 => NumberCell(r.ema20)
    case Ema50 => NumberCell(r.ema50)
    case Sma20 => NumberCell(r.sma20)
    case Sma50 => NumberCell(r.sma50)
    case Sma200 => NumberCell(r.sma200)
    case Macd => NumberCell(r.macd)
    case MacdSignal => NumberCell(r.macdSignal)
    case Adx14 => NumberCell(r.adx14)
    case Atr14 => NumberCell(r.atr14)
    case Supertrend => NumberCell(r.supertrend)
    case SupertrendDir => NumberCell(r.supertrendDir)
    case High52w => NumberCell(r.high52w)
    case Low52w => NumberCell(r.low52w)
  }

  // ---------------------------------------------------------------------------
  // Sort state

  datatype SortState = SortState(key: SortKey, asc: bool)

  /** The table opens sorted by symbol, ascending. */
  const InitialSortState := SortState(Symbol, true)

  /** `handleSort(key)`: clicking the current column flips the direction;
      clicking another column sorts by it, ascending for the symbol and
      descending for every other column. */
  function NextSort(s: SortState, key: SortKey): (r: SortState)
    ensures r.key == key
    ensures s.key == key ==> r.asc == !s.asc
    ensures s.key != key ==> (r.asc <==> key == Symbol)
  {
    if s.key == key then s.(asc := !s.asc) else SortState(key, key == Symbol)
  }

  /** Clicking the same column twice restores the order. */
  lemma NextSortTwiceRestores(s: SortState)
    ensures NextSort(NextSort(s, s.key), s.key) == s
  {
  }

  /** After two clicks on a column other than the current one, the table is
      sorted by it in the opposite of its first direction: ascending for a
      number column, descending for the symbol. */
  lemma NextSortNewColumnTwice(s: SortState, key: SortKey)
    requires s.key != key
    ensures NextSort(NextSort(s, key), key) == SortState(key, key != Symbol)
  {
  }

  /** The columns of the table, whose headers are the only way to sort. */
  const Columns: seq<SortKey> := [Symbol, Close, ChangePct, Volume, VolSpike, Rsi14, Ema20, Ema50, Macd, Adx14]

  function SortAfterClicks(s: SortState, clicks: seq<SortKey>): SortState
    decreases |clicks|
  {
    if clicks == [] then s else SortAfterClicks(NextSort(s, clicks[0]), clicks[1..])
  }

  /** Clicking headers only ever sorts by a shown column, and the last
      column clicked is the sort key. */
  lemma {:induction false} ClicksSortByColumns(s: SortState, clicks: seq<SortKey>)
    requires s.key in Columns
    requires forall i :: 0 <= i < |clicks| ==> clicks[i] in Columns
    ensures SortAfterClicks(s, clicks).key in Columns
    ensures clicks != [] ==> SortAfterClicks(s, clicks).key == clicks[|clicks| - 1]
    decreases |clicks|
  {
    if clicks != [] {
      assert forall i :: 0 <= i < |clicks[1..]| ==> clicks[1..][i] == clicks[i + 1];
      ClicksSortByColumns(NextSort(s, clicks[0]), clicks[1..]);
      if clicks[1..] != [] {
        assert clicks[1..][|clicks[1..]| - 1] == clicks[|clicks| - 1];
      }
    }
  }

  // ---------------------------------------------------------------------------
  // Comparator

  /** `a.localeCompare(b)`, with the collation taken to be code-point order:
      negative, zero or positive as `a` sorts before, equal to or after `b`. */
  function LocaleCompare(a: string, b: string): (r: real)
    ensures r < 0.0 <==> Below(a, b)
    ensures r == 0.0 <==> a == b
    ensures r > 0.0 <==> Below(b, a)
  {
    if a == b then
      BelowIrreflexive(a);
      0.0
    else
      BelowTotal(a, b);
      BelowAsymmetric(a, b);
      if Below(a, b) then -1.0 else 1.0
  }

  /** Two cells under the same key: never a string against a number. */
  predicate Comparable(a: Cell, b: Cell) {
    !(a.Text? && b.Number?) && !(a.Number? && b.Text?)
  }

  /** `a` goes strictly before `b` in the table: a present value before a
      missing one, strings in string order and numbers by size, both reversed
      when descending. */
  predicate Precedes(a: Cell, b: Cell, asc: bool) {
    (!a.Missing? && b.Missing?)
    || (a.Text? && b.Text? && (if asc then Below(a.s, b.s) else Below(b.s, a.s)))
    || (a.Number? && b.Number? && (if asc then a.x < b.x else b.x < a.x))
  }

  /** The comparator handed to `sort`: two missing values are equal, a missing
      value goes after any present one whatever the direction, strings compare
      by `localeCompare` and numbers by difference, with the operands swapped
      when descending. Its sign says which cell goes first, and it is zero
      exactly for equal cells. */
  function Compare(a: Cell, b: Cell, asc: bool): (r: real)
    requires Comparable(a, b)
    ensures r < 0.0 <==> Precedes(a, b, asc)
    ensures r > 0.0 <==> Precedes(b, a, asc)
    ensures r == 0.0 <==> a == b
  {
    if a.Missing? && b.Missing? then 0.0
    else if a.Missing? then 1.0
    else if b.Missing? then -1.0
    else if a.Text? then (if asc then LocaleCompare(a.s, b.s) else LocaleCompare(b.s, a.s))
    else if asc then a.x - b.x else b.x - a.x
  }

  /** The comparator applied to two rows under `key`. */
  function CompareRows(a: ScreenerResult, b: ScreenerResult, key: SortKey, asc: bool): (r: real)
    ensures r < 0.0 <==> Precedes(CellOf(a, key), CellOf(b, key), asc)
    ensures r > 0.0 <==> Precedes(CellOf(b, key), CellOf(a, key), asc)
    ensures r == 0.0 <==> CellOf(a, key) == CellOf(b, key)
  {
    Compare(CellOf(a, key), CellOf(b, key), asc)
  }

  /** Missing values sort last in both directions, and two of them tie. */
  lemma MissingSortsLast(a: Cell, b: Cell, asc: bool)
    requires Comparable(a, b)
    ensures a.Missing? && b.Missing? ==> Compare(a, b, asc) == 0.0
    ensures a.Missing? && !b.Missing? ==> Compare(a, b, asc) > 0.0 && Compare(b, a, asc) < 0.0
  {
  }

  /** Between present values, descending is ascending with the operands swapped. */
  lemma DescendingSwapsOperands(a: Cell, b: Cell)
    requires Comparable(a, b) && !a.Missing? && !b.Missing?
    ensures Compare(a, b, false) == Compare(b, a, true)
  {
  }

  function Sign(x: real): int {
    if x < 0.0 then -1 else if x == 0.0 then 0 else 1
  }

  /** Swapping the operands negates the sign of the comparison. */
  lemma CompareAntisymmetric(a: Cell, b: Cell, asc: bool)
    requires Comparable(a, b)
    ensures Sign(Compare(a, b, asc)) == -Sign(Compare(b, a, asc))
  {
    if a.Text? && b.Text? {
      BelowAsymmetric(a.s, b.s);
    }
  }

  /** The comparator is transitive, so it orders the rows consistently. */
  lemma CompareTransitive(a: Cell, b: Cell, c: Cell, asc: bool)
    requires Comparable(a, b) && Comparable(b, c) && Comparable(a, c)
    requires Compare(a, b, asc) <= 0.0 && Compare(b, c, asc) <= 0.0
    ensures Compare(a, c, asc) <= 0.0
  {
    if a.Text? && b.Text? && c.Text? {
      if asc {
        if a.s != b.s && b.s != c.s { BelowTransitive(a.s, b.s, c.s); }
      } else {
        if a.s != b.s && b.s != c.s { BelowTransitive(c.s, b.s, a.s); }
      }
    }
  }

  /** `x` may stay before `y`. */
  predicate InOrder(x: ScreenerResult, y: ScreenerResult, key: SortKey, asc: bool) {
    CompareRows(x, y, key, asc) <= 0.0
  }

  lemma InOrderTotal(x: ScreenerResult, y: ScreenerResult, key: SortKey, asc: bool)
    ensures InOrder(x, y, key, asc) || InOrder(y, x, key, asc)
  {
    CompareAntisymmetric(CellOf(x, key), CellOf(y, key), asc);
  }

  lemma InOrderTransitive(x: ScreenerResult, y: ScreenerResult, z: ScreenerResult, key: SortKey, asc: bool)
    requires InOrder(x, y, key, asc) && InOrder(y, z, key, asc)
    ensures InOrder(x, z, key, asc)
  {
    CompareTransitive(CellOf(x, key), CellOf(y, key), CellOf(z, key), asc);
  }

  /** Every row may stay before every later row. */
  predicate SortedBy(s: seq<ScreenerResult>, key: SortKey, asc: bool) {
    forall i, j :: 0 <= i < j < |s| ==> InOrder(s[i], s[j], key, asc)
  }

  // ---------------------------------------------------------------------------
  // Sorting a copy of the results

  /** While the row at `j` moves down into the sorted prefix `s[..i + 1]`:
      every other pair of that prefix is in order, and the moving row may stay
      before everything after it. */
  predicate Inserting(s: seq<ScreenerResult>, i: int, j: int, key: SortKey, asc: bool) {
    0 <= j <= i < |s|
    && (forall p, q :: 0 <= p < q <= i && p != j && q != j ==> InOrder(s[p], s[q], key, asc))
    && (forall q :: j < q <= i ==> InOrder(s[j], s[q], key, asc))
  }

  lemma InsertingDone(s: seq<ScreenerResult>, i: int, j: int, key: SortKey, asc: bool)
    requires Inserting(s, i, j, key, asc)
    requires j == 0 || InOrder(s[j - 1], s[j], key, asc)
    ensures SortedBy(s[..i + 1], key, asc)
  {
    forall p, q | 0 <= p < q <= i ensures InOrder(s[p], s[q], key, asc) {
      if q == j && p < j - 1 {
        InOrderTransitive(s[p], s[j - 1], s[j], key, asc);
      }
    }
  }

  /** Swapping two neighbours keeps the rows. */
  lemma SwapKeepsMultiset(s: seq<ScreenerResult>, j: int)
    requires 0 < j < |s|
    ensures multiset(s[j - 1 := s[j]][j := s[j - 1]]) == multiset(s)
  {
  }

  lemma InsertingSwap(s: seq<ScreenerResult>, i: int, j: int, key: SortKey, asc: bool)
    requires Inserting(s, i, j, key, asc) && j > 0
    requires !InOrder(s[j - 1], s[j], key, asc)
    ensures Inserting(s[j - 1 := s[j]][j := s[j - 1]], i, j - 1, key, asc)
  {
    InOrderTotal(s[j - 1], s[j], key, asc);
    var t := s[j - 1 := s[j]][j := s[j - 1]];
    forall q | j - 1 < q <= i ensures InOrder(t[j - 1], t[q], key, asc) {
      if q > j {
        assert t[j - 1] == s[j] && t[q] == s[q];
      }
    }
  }

  /** The state of an insertion pass over `o` as a sequence `s`: a reordering
      of `o` that is `Inserting` at `j` and has kept `o`'s rows after `i`. */
  ghost predicate InsertState(s: seq<ScreenerResult>, o: seq<ScreenerResult>, i: int, j: int, key: SortKey, asc: bool) {
    |s| == |o| && Inserting(s, i, j, key, asc) && s[i + 1..] == o[i + 1..] && multiset(s) == multiset(o)
  }

  lemma InsertStart(o: seq<ScreenerResult>, i: int, key: SortKey, asc: bool)
    requires 0 < i < |o| && SortedBy(o[..i], key, asc)
    ensures InsertState(o, o, i, i, key, asc)
  {
    assert forall p :: 0 <= p < i ==> o[..i][p] == o[p];
  }

  lemma InsertStep(s: seq<ScreenerResult>, o: seq<ScreenerResult>, i: int, j: int, key: SortKey, asc: bool)
    requires InsertState(s, o, i, j, key, asc) && j > 0
    requires !InOrder(s[j - 1], s[j], key, asc)
    ensures InsertState(s[j - 1 := s[j]][j := s[j - 1]], o, i, j - 1, key, asc)
  {
    var t := s[j - 1 := s[j]][j := s[j - 1]];
    InsertingSwap(s, i, j, key, asc);
    SwapKeepsMultiset(s, j);
    assert t[i + 1..] == s[i + 1..];
  }

  lemma InsertFinish(s: seq<ScreenerResult>, o: seq<ScreenerResult>, i: int, j: int, key: SortKey, asc: bool)
    requires InsertState(s, o, i, j, key, asc)
    requires j == 0 || InOrder(s[j - 1], s[j], key, asc)
    ensures SortedBy(s[..i + 1], key, asc) && s[i + 1..] == o[i + 1..] && multiset(s) == multiset(o)
  {
    InsertingDone(s, i, j, key, asc);
  }

  /** Exchanges the row at `j` with the one before it. */
  method SwapWithPrevious(a: array<ScreenerResult>, j: int)
    requires 0 < j < a.Length
    modifies a
    ensures a[..] == old(a[..])[j - 1 := old(a[j])][j := old(a[j - 1])]
  {
    a[j - 1], a[j] := a[j], a[j - 1];
  }

  /** Moves `a[i]` down into the sorted prefix `a[..i]`, leaving `a[..i + 1]`
      sorted and the rows after it where they were. */
  method InsertInto(a: array<ScreenerResult>, i: int, key: SortKey, asc: bool)
    requires 0 < i < a.Length && SortedBy(a[..i], key, asc)
    modifies a
    ensures SortedBy(a[..i + 1], key, asc)
    ensures a[i + 1..] == old(a[i + 1..])
    ensures multiset(a[..]) == multiset(old(a[..]))
  {
    ghost var o := a[..];
    InsertStart(o, i, key, asc);
    var j := i;
    while j > 0 && !InOrder(a[j - 1], a[j], key, asc)
      invariant InsertState(a[..], o, i, j, key, asc)
    {
      InsertStep(a[..], o, i, j, key, asc);
      SwapWithPrevious(a, j);
      j := j - 1;
    }
    InsertFinish(a[..], o, i, j, key, asc);
  }

  /** `array.sort(compare)`: sorts `a` in place so that every row may stay
      before every later one, permuting its rows and nothing else. */
  method SortInPlace(a: array<ScreenerResult>, key: SortKey, asc: bool)
    modifies a
    ensures SortedBy(a[..], key, asc)
    ensures multiset(a[..]) == multiset(old(a[..]))
  {
    if a.Length == 0 { return; }
    var i := 1;
    while i < a.Length
      invariant 1 <= i <= a.Length
      invariant SortedBy(a[..i], key, asc)
      invariant multiset(a[..]) == multiset(old(a[..]))
    {
      InsertInto(a, i, key, asc);
      i := i + 1;
    }
    assert a[..] == a[..a.Length];
  }

  // ---------------------------------------------------------------------------
  // Cell formatting

  /** A cell's text, with the float renderings left symbolic: `Fixed(x, d, u)`
      is `x.toFixed(d)` followed by `u`, `Localized(x)` is `x.toLocaleString()`. */
  datatype Rendered = Dash | Fixed(x: real, decimals: nat, suffix: string) | Localized(x: real)

  /** `fmt(v, dec = 2)`: the value to `dec` decimals, two unless the caller
      says otherwise, or a dash when it is missing. */
  function Fmt(v: Option<real>, dec: nat := 2): (r: Rendered)
    ensures r.Dash? <==> v.None?
    ensures v.Some? ==> r == Fixed(v.value, dec, "")
  {
    if v.None? then Dash else Fixed(v.value, dec, "")
  }

  /** `fmtVol(v)`: a dash when missing; crores (`"Cr"`, units of 1e7) from
      1e7 up; lakhs (`"L"`, units of 1e5) from 1e5 up to 1e7; the plain
      localized number below 1e5. */
  function FmtVol(v: Option<real>): (r: Rendered)
    ensures r.Dash? <==> v.None?
    ensures r.Fixed? ==> r.decimals == 2
    ensures r.Fixed? && r.suffix == "Cr" <==> v.Some? && v.value >= 10000000.0
    ensures r.Fixed? && r.suffix == "L" <==> v.Some? && 100000.0 <= v.value < 10000000.0
    ensures r.Localized? <==> v.Some? && v.value < 100000.0
  {
    if v.None? then Dash
    else if v.value >= 10000000.0 then Fixed(v.value / 10000000.0, 2, "Cr")
    else if v.value >= 100000.0 then Fixed(v.value / 100000.0, 2, "L")
    else Localized(v.value)
  }

  /** The scaled figure times its unit gives the volume back, and it lies in
      the unit's range: at least 1 crore, or between 1 and 100 lakh. A figure
      below 1e5 is shown unscaled. */
  lemma FmtVolScale(v: real)
    ensures var r := FmtVol(Some(v));
      (r.Fixed? && r.suffix == "Cr" ==> r.x * 10000000.0 == v && r.x >= 1.0)
      && (r.Fixed? && r.suffix == "L" ==> r.x * 100000.0 == v && 1.0 <= r.x < 100.0)
      && (r.Localized? ==> r.x == v)
  {
  }

  /** The unit a volume is shown in: 0 for none, 1 for lakhs, 2 for crores. */
  function VolUnit(r: Rendered): int {
    if r.Fixed? && r.suffix == "Cr" then 2 else if r.Fixed? && r.suffix == "L" then 1 else 0
  }

  /** A larger volume is never shown in a smaller unit. */
  lemma FmtVolUnitMonotone(v: real, w: real)
    requires v <= w
    ensures VolUnit(FmtVol(Some(v))) <= VolUnit(FmtVol(Some(w)))
  {
  }

  /** The text of a rendering, given the number renderers. */
  function RenderedText(r: Rendered, toFixed: (real, nat) -> string, toLocale: real -> string): string {
    match r
    case Dash => "-"
    case Fixed(x, d, u) => toFixed(x, d) + u
    case Localized(x) => toLocale(x)
  }

  /** Since `toFixed` always writes digits, never a bare `"-"`, the text of
      `fmt` is a dash exactly when the value is missing. */
  lemma FmtTextDashIffMissing(v: Option<real>, dec: nat, toFixed: (real, nat) -> string, toLocale: real -> string)
    requires forall x, d :: toFixed(x, d) != "-"
    ensures RenderedText(Fmt(v, dec), toFixed, toLocale) == "-" <==> v.None?
  {
    if v.Some? {
      assert RenderedText(Fmt(v, dec), toFixed, toLocale) == toFixed(v.value, dec);
    }
  }

  // ---------------------------------------------------------------------------
  // CSV export

  const Headers: seq<string> :=
    ["Symbol", "Name", "Close", "Change%", "Volume", "Vol Spike", "RSI14", "EMA20", "EMA50", "MACD", "ADX14"]

  /** An array element as `join` writes it: `null` becomes the empty string,
      a number its `String` rendering `show`. */
  function CsvNumber(v: Option<real>, show: real -> string): string {
    if v.None? then "" else show(v.value)
  }

  /** The eleven exported values of a row, in header order. */
  function RowCells(r: ScreenerResult, show: real -> string): (cells: seq<string>)
    ensures |cells| == |Headers|
  {
    [r.symbol, r.name, CsvNumber(r.close, show), CsvNumber(r.changePct, show),
     CsvNumber(r.volume, show), CsvNumber(r.volSpike, show), CsvNumber(r.rsi14, show),
     CsvNumber(r.ema20, show), CsvNumber(r.ema50, show), CsvNumber(r.macd, show),
     CsvNumber(r.adx14, show)]
  }

  function HeaderLine(): string {
    Join(Headers, ',')
  }

  function RowLine(r: ScreenerResult, show: real -> string): string {
    Join(RowCells(r, show), ',')
  }

  function RowLines(rows: seq<ScreenerResult>, show: real -> string): (lines: seq<string>)
    ensures |lines| == |rows|
    ensures forall i :: 0 <= i < |rows| ==> lines[i] == RowLine(rows[i], show)
  {
    seq(|rows|, i requires 0 <= i < |rows| => RowLine(rows[i], show))
  }

  /** The exported text: the header line, then one line per row, joined by
      line feeds. */
  function CsvText(rows: seq<ScreenerResult>, show: real -> string): string {
    Join([HeaderLine()] + RowLines(rows, show), '\n')
  }

  /** None of a row's exported values contains `c`. */
  predicate CellsFree(r: ScreenerResult, show: real -> string, c: char) {
    forall i :: 0 <= i < |RowCells(r, show)| ==> c !in RowCells(r, show)[i]
  }

  /** Splitting a row's line at commas gives back its eleven values, as long
      as none of them contains a comma. */
  lemma RowLineSplits(r: ScreenerResult, show: real -> string)
    requires CellsFree(r, show, ',')
    ensures Split(RowLine(r, show), ',') == RowCells(r, show)
  {
    SplitJoin(RowCells(r, show), ',');
  }

  /** A character other than the separator occurs in a joined text only if it
      occurs in one of the parts. */
  lemma {:induction false} JoinFreeOf(parts: seq<string>, sep: char, c: char)
    requires sep != c
    requires forall i :: 0 <= i < |parts| ==> c !in parts[i]
    ensures c !in Join(parts, sep)
    decreases |parts|
  {
    if |parts| > 1 {
      assert forall i :: 0 <= i < |parts[1..]| ==> parts[1..][i] == parts[i + 1];
      JoinFreeOf(parts[1..], sep, c);
    }
  }

  lemma HeaderLineSingle()
    ensures '\n' !in HeaderLine()
  {
    forall k | 0 <= k < |Headers| ensures '\n' !in Headers[k] {
      assert k in {0, 1, 2, 3, 4, 5, 6, 7, 8, 9, 10};
    }
    JoinFreeOf(Headers, ',', '\n');
  }

  lemma RowLineSingle(r: ScreenerResult, show: real -> string)
    requires CellsFree(r, show, '\n')
    ensures '\n' !in RowLine(r, show)
  {
    JoinFreeOf(RowCells(r, show), ',', '\n');
  }

  /** Splitting the exported text at line feeds gives the header line and
      then each row's line in order, one line per row, as long as no value
      contains a line feed. */
  lemma CsvTextLines(rows: seq<ScreenerResult>, show: real -> string)
    requires forall i :: 0 <= i < |rows| ==> CellsFree(rows[i], show, '\n')
    ensures Split(CsvText(rows, show), '\n') == [HeaderLine()] + RowLines(rows, show)
    ensures |Split(CsvText(rows, show), '\n')| == |rows| + 1
  {
    var lines := [HeaderLine()] + RowLines(rows, show);
    HeaderLineSingle();
    forall i | 0 <= i < |rows| ensures '\n' !in RowLine(rows[i], show) {
      RowLineSingle(rows[i], show);
    }
    forall i | 0 <= i < |lines| ensures '\n' !in lines[i] {
      if i > 0 {
        assert lines[i] == RowLine(rows[i - 1], show);
      }
    }
    SplitJoin(lines, '\n');
  }

  // ---------------------------------------------------------------------------
  // The table

  /** The table's state: the response it shows and the current sort. */
  class Table {
    const response: ScreenerResponse
    var sortKey: SortKey
    var sortAsc: bool

    constructor (response: ScreenerResponse)
      ensures this.response == response
      ensures sortKey == InitialSortState.key && sortAsc == InitialSortState.asc
    {
      this.response := response;
      sortKey := Symbol;
      sortAsc := true;
    }

    method HandleSort(key: SortKey)
      modifies this
      ensures SortState(sortKey, sortAsc) == NextSort(old(SortState(sortKey, sortAsc)), key)
    {
      if sortKey == key {
        sortAsc := !sortAsc;
      } else {
        sortKey := key;
        sortAsc := key == Symbol;
      }
    }

    /** `[...response.results].sort(compare)`: a fresh copy is sorted, so the
        result is a reordering of the results in comparator order, and the
        response itself is left as it was. */
    method Sorted() returns (rows: seq<ScreenerResult>)
      ensures multiset(rows) == multiset(response.results)
      ensures SortedBy(rows, sortKey, sortAsc)
    {
      var copy := new ScreenerResult[|response.results|](i requires 0 <= i < |response.results| => response.results[i]);
      assert copy[..] == response.results;
      SortInPlace(copy, sortKey, sortAsc);
      rows := copy[..];
    }

    /** `exportCSV` up to the download: the text exported is the CSV of the
        rows in the order the table shows them. */
    method ExportCsv(show: real -> string) returns (rows: seq<ScreenerResult>, csv: string)
      ensures multiset(rows) == multiset(response.results)
      ensures SortedBy(rows, sortKey, sortAsc)
      ensures csv == CsvText(rows, show)
    {
      rows := Sorted();
      csv := CsvText(rows, show);
    }
  }
}
