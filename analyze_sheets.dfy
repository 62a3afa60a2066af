/**
 * The older sheet analyser (`analyze-sheets.mjs`): on a grid of resolved cells it finds
 * the 合計 (total) column, takes the column before it as the latest month, lists every
 * month column left of the total with its year, and tabulates the item rows by month.
 */
module AnalyzeSheets {
  import opened Wrappers
  import opened Text
  import opened Sheet

  const TotalMarker := "合計"
  const YearMarker := "年"
  const FirstMonthScanCol := 3
  /** The scan limit for month columns when there is no total column after column 0. */
  const DefaultMonthScanEnd := 50
  const FirstItemRow := 4
  const ListedMonths := 14

  // ---------------------------------------------------------------------------
  // The total column and the latest month

  /** Row 3 or row 4 of column `i` mentions 合計. */
  predicate IsTotalColumn(row3: Row, row4: Row, i: int) {
    Contains(TextAt(row3, i), TotalMarker) || Contains(TextAt(row4, i), TotalMarker)
  }

  /** The first total column at or after `i` among the columns of row 3, or -1. */
  function TotalColumnFrom(row3: Row, row4: Row, i: nat): (k: int)
    ensures k == -1 || (i <= k < |row3| && IsTotalColumn(row3, row4, k))
    ensures k == -1 ==> forall j :: i <= j < |row3| ==> !IsTotalColumn(row3, row4, j)
    ensures k >= 0 ==> forall j :: i <= j < k ==> !IsTotalColumn(row3, row4, j)
    decreases |row3| - i
  {
    if i >= |row3| then -1
    else if IsTotalColumn(row3, row4, i) then i
    else TotalColumnFrom(row3, row4, i + 1)
  }

  /** The column before the total, when the total is not the first column. */
  function LatestColumn(total: int): (c: int)
    ensures total > 0 ==> c == total - 1
    ensures total <= 0 ==> c == -1
  {
    if total > 0 then total - 1 else -1
  }

  /** The nearest column at or left of `i` whose row-2 text contains 年, or -1. */
  function YearLabelColumn(row2: Row, i: int): (k: int)
    ensures k == -1 || (0 <= k <= i && Contains(TextAt(row2, k), YearMarker))
    ensures forall j :: k < j <= i ==> !Contains(TextAt(row2, j), YearMarker)
    decreases i + 1
  {
    if i < 0 then -1
    else if Contains(TextAt(row2, i), YearMarker) then i
    else YearLabelColumn(row2, i - 1)
  }

  /** The year label at or left of `i` with 年 and white space removed, if there is one. */
  function YearLabelAt(row2: Row, i: int): (y: Option<string>)
    ensures y.None? <==> YearLabelColumn(row2, i) == -1
    ensures y.Some? ==> y.value == RemoveYearMarks(TextAt(row2, YearLabelColumn(row2, i)))
  {
    var k := YearLabelColumn(row2, i);
    if k == -1 then None else Some(RemoveYearMarks(TextAt(row2, k)))
  }

  /** The backward year search (`for (j = i; j >= 0; j--)` with `break`). */
  method FindYearLabel(row2: Row, i: int) returns (y: Option<string>)
    ensures y == YearLabelAt(row2, i)
  {
    y := None;
    var j := i;
    while j >= 0
      invariant j <= i
      invariant YearLabelColumn(row2, i) == YearLabelColumn(row2, j)
      decreases j + 1
    {
      var v := TextAt(row2, j);
      if Contains(v, YearMarker) {
        y := Some(RemoveYearMarks(v));
        return;
      }
      j := j - 1;
    }
  }

  // ---------------------------------------------------------------------------
  // Month columns

  /** `/^\d+月$/`: one or more digits followed by 月 and nothing else. */
  predicate IsMonthName(s: string) {
    |s| >= 2 && s[|s| - 1] == '月' && AllDigits(s[..|s| - 1])
  }

  datatype MonthCol = MonthCol(colIdx: int, year: string, month: string)

  /** The entry for month column `i`: its year label ('' if none) and the month name without 月. */
  function MonthColAt(row2: Row, row4: Row, i: int): MonthCol {
    MonthCol(i, YearLabelAt(row2, i).GetOr(""), RemoveFirst(TextAt(row4, i), '月'))
  }

  /** Where the month scan stops: at the total column, or at 50 without one after column 0. */
  function MonthScanEnd(total: int): int {
    if total > 0 then total else DefaultMonthScanEnd
  }

  /** The columns among lo..k-1 that satisfy `p`, left to right. */
  function Matching(p: int -> bool, lo: int, k: int): seq<int>
    decreases k - lo
  {
    if k <= lo then [] else Matching(p, lo, k - 1) + (if p(k - 1) then [k - 1] else [])
  }

  /** The matching columns lie in lo..k-1, satisfy `p` and ascend. */
  lemma {:induction false} MatchingOrdered(p: int -> bool, lo: int, k: int)
    ensures forall n :: 0 <= n < |Matching(p, lo, k)| ==> lo <= Matching(p, lo, k)[n] < k && p(Matching(p, lo, k)[n])
    ensures forall a, b :: 0 <= a < b < |Matching(p, lo, k)| ==> Matching(p, lo, k)[a] < Matching(p, lo, k)[b]
    decreases k - lo
  {
    if k > lo {
      MatchingOrdered(p, lo, k - 1);
      var prev := Matching(p, lo, k - 1);
      if p(k - 1) {
        assert Matching(p, lo, k) == prev + [k - 1];
      } else {
        assert Matching(p, lo, k) == prev;
      }
    }
  }

  /** Every column in lo..k-1 that satisfies `p` is matched, and no other. */
  lemma {:induction false} MatchingComplete(p: int -> bool, lo: int, k: int)
    ensures forall i :: i in Matching(p, lo, k) <==> lo <= i < k && p(i)
    decreases k - lo
  {
    if k > lo {
      MatchingComplete(p, lo, k - 1);
      var prev := Matching(p, lo, k - 1);
      if p(k - 1) {
        assert Matching(p, lo, k) == prev + [k - 1];
      } else {
        assert Matching(p, lo, k) == prev;
      }
    }
  }

  /** Whether column `c` of row 4 holds a month name. */
  function MonthNameAt(row4: Row): int -> bool {
    c => IsMonthName(TextAt(row4, c))
  }

  /** The columns among 3..k-1 whose row-4 text is a month name, left to right. */
  function MonthColIndices(row4: Row, k: int): seq<int> {
    Matching(MonthNameAt(row4), FirstMonthScanCol, k)
  }

  /** The month columns among 3..k-1, left to right, each with its year label and month name. */
  function MonthColsBelow(row2: Row, row4: Row, k: int): (cols: seq<MonthCol>)
    ensures |cols| == |MonthColIndices(row4, k)|
    ensures forall n :: 0 <= n < |cols| ==> cols[n].colIdx == MonthColIndices(row4, k)[n]
  {
    var idx := MonthColIndices(row4, k);
    seq(|idx|, n requires 0 <= n < |idx| => MonthColAt(row2, row4, idx[n]))
  }

  /** One more column: appended when its row-4 text is a month name. */
  lemma MonthColsBelowStep(row2: Row, row4: Row, k: int)
    requires k >= FirstMonthScanCol
    ensures MonthColsBelow(row2, row4, k + 1) ==
      MonthColsBelow(row2, row4, k) + (if IsMonthName(TextAt(row4, k)) then [MonthColAt(row2, row4, k)] else [])
  {
    var idx := MonthColIndices(row4, k);
    assert MonthColIndices(row4, k + 1) == idx + (if MonthNameAt(row4)(k) then [k] else []);
  }

  function ColumnsOf(cols: seq<MonthCol>): set<int> {
    set n | 0 <= n < |cols| :: cols[n].colIdx
  }

  /** Entry `n` of a month column list is the one for its own column, somewhere in 3..k-1. */
  predicate MonthColEntry(row2: Row, row4: Row, cols: seq<MonthCol>, k: int, n: int)
    requires 0 <= n < |cols|
  {
    FirstMonthScanCol <= cols[n].colIdx < k && IsMonthName(TextAt(row4, cols[n].colIdx)) &&
    cols[n] == MonthColAt(row2, row4, cols[n].colIdx)
  }

  /** The month columns below `k` lie in 3..k-1, are in ascending order and carry their own year labels. */
  lemma MonthColsOrdered(row2: Row, row4: Row, k: int)
    ensures forall n :: 0 <= n < |MonthColsBelow(row2, row4, k)| ==>
      MonthColEntry(row2, row4, MonthColsBelow(row2, row4, k), k, n)
    ensures forall a, b :: 0 <= a < b < |MonthColsBelow(row2, row4, k)| ==>
      MonthColsBelow(row2, row4, k)[a].colIdx < MonthColsBelow(row2, row4, k)[b].colIdx
  {
    MatchingOrdered(MonthNameAt(row4), FirstMonthScanCol, k);
    var idx := MonthColIndices(row4, k);
    var cols := MonthColsBelow(row2, row4, k);
    forall n | 0 <= n < |cols| ensures MonthColEntry(row2, row4, cols, k, n) {
      assert cols[n] == MonthColAt(row2, row4, idx[n]);
    }
  }

  /** Every column 3..k-1 whose row-4 text is a month name is among the month columns below `k`, and no other. */
  lemma MonthColsComplete(row2: Row, row4: Row, k: int)
    ensures forall i :: i in ColumnsOf(MonthColsBelow(row2, row4, k)) <==>
      FirstMonthScanCol <= i < k && IsMonthName(TextAt(row4, i))
  {
    MatchingComplete(MonthNameAt(row4), FirstMonthScanCol, k);
    var idx := MonthColIndices(row4, k);
    var cols := MonthColsBelow(row2, row4, k);
    forall i | i in ColumnsOf(cols) ensures i in idx {
      var n :| 0 <= n < |cols| && cols[n].colIdx == i;
      assert idx[n] == i;
    }
    forall i | i in idx ensures i in ColumnsOf(cols) {
      var n :| 0 <= n < |idx| && idx[n] == i;
      assert cols[n].colIdx == i;
    }
  }

  /** `arr.slice(-n)`: the last `n` entries, or all of them when there are fewer. */
  function LastN<T>(s: seq<T>, n: nat): (r: seq<T>)
    ensures |r| == if |s| <= n then |s| else n
    ensures r == s[|s| - |r|..]
  {
    if |s| <= n then s else s[|s| - n..]
  }

  /** The loop collecting `allMonthCols`, with the year search for each column. */
  method CollectMonthCols(row2: Row, row4: Row, total: int) returns (cols: seq<MonthCol>)
    ensures cols == MonthColsBelow(row2, row4, MonthScanEnd(total))
  {
    var end := MonthScanEnd(total);
    cols := [];
    var i := FirstMonthScanCol;
    while i < end
      invariant FirstMonthScanCol <= i && (i <= end || i == FirstMonthScanCol)
      invariant cols == MonthColsBelow(row2, row4, i)
    {
      MonthColsBelowStep(row2, row4, i);
      var mv := TextAt(row4, i);
      if IsMonthName(mv) {
        var yearLabel := FindYearLabel(row2, i);
        cols := cols + [MonthCol(i, yearLabel.GetOr(""), RemoveFirst(mv, '月'))];
      }
      i := i + 1;
    }
  }

  // ---------------------------------------------------------------------------
  // Items

  /** `typeof v === 'number' ? v : null` for the cell in column `c`. */
  function CellNumber(row: Row, c: int): (v: Option<real>)
    ensures v.Some? <==> CellAt(row, c).Num?
    ensures v.Some? ==> v.value == CellAt(row, c).value
  {
    match CellAt(row, c)
    case Num(x, _) => Some(x)
    case _ => None
  }

  /** The key of a month column in an item's table, `${year}_${month}`. */
  function MonthKey(mc: MonthCol): string {
    mc.year + "_" + mc.month
  }

  /** One row's values by month, later columns overwriting earlier ones with the same key. */
  function MonthData(row: Row, cols: seq<MonthCol>): map<string, Option<real>>
    decreases |cols|
  {
    if cols == [] then map[]
    else MonthData(row, cols[..|cols| - 1])[MonthKey(cols[|cols| - 1]) := CellNumber(row, cols[|cols| - 1].colIdx)]
  }

  function KeysOf(cols: seq<MonthCol>): set<string> {
    set n | 0 <= n < |cols| :: MonthKey(cols[n])
  }

  /** An item's table has one key per month column. */
  lemma {:induction false} MonthDataKeys(row: Row, cols: seq<MonthCol>)
    ensures MonthData(row, cols).Keys == KeysOf(cols)
    decreases |cols|
  {
    if cols != [] {
      var init := cols[..|cols| - 1];
      MonthDataKeys(row, init);
      forall key | key in KeysOf(cols) ensures key in KeysOf(init) || key == MonthKey(cols[|cols| - 1]) {
        var n :| 0 <= n < |cols| && MonthKey(cols[n]) == key;
        if n < |init| { assert init[n] == cols[n]; }
      }
      forall key | key in KeysOf(init) ensures key in KeysOf(cols) {
        var n :| 0 <= n < |init| && MonthKey(init[n]) == key;
        assert cols[n] == init[n];
      }
    }
  }

  /** A key holds the cell of the last column with that key: a number, or `None` for anything else. */
  lemma {:induction false} MonthDataLastWins(row: Row, cols: seq<MonthCol>, n: int)
    requires 0 <= n < |cols|
    requires forall n' :: n < n' < |cols| ==> MonthKey(cols[n']) != MonthKey(cols[n])
    ensures MonthKey(cols[n]) in MonthData(row, cols)
    ensures MonthData(row, cols)[MonthKey(cols[n])] == CellNumber(row, cols[n].colIdx)
    decreases |cols|
  {
    if n < |cols| - 1 {
      var init := cols[..|cols| - 1];
      assert init[n] == cols[n];
      MonthDataLastWins(row, init, n);
    }
  }

  datatype ItemEntry = ItemEntry(category: string, data: map<string, Option<real>>)

  /** Columns 1 and 2 of an item row, trimmed: the category and the item name. */
  datatype RowLabels = RowLabels(category: string, name: string)

  function LabelsAt(grid: Grid, r: int): RowLabels {
    RowLabels(Trim(TextAt(RowAt(grid, r), 1)), Trim(TextAt(RowAt(grid, r), 2)))
  }

  /** The trimmed labels of every row. */
  function Labels(grid: Grid): (ls: seq<RowLabels>)
    ensures |ls| == |grid| && forall r :: 0 <= r < |ls| ==> ls[r] == LabelsAt(grid, r)
  {
    seq(|grid|, r requires 0 <= r < |grid| => LabelsAt(grid, r))
  }

  /** Rows without a name, named 'null', or named like their category are not items. */
  predicate Skipped(l: RowLabels) {
    l.name == "" || l.name == "null" || l.name == l.category
  }

  function EntryAt(grid: Grid, labels: seq<RowLabels>, cols: seq<MonthCol>, r: int): ItemEntry
    requires 0 <= r < |labels|
  {
    ItemEntry(labels[r].category, MonthData(RowAt(grid, r), cols))
  }

  /** The item table over rows 4..k-1, later rows overwriting earlier ones with the same name. */
  function ItemsBelow(grid: Grid, labels: seq<RowLabels>, cols: seq<MonthCol>, k: int): map<string, ItemEntry>
    requires k <= FirstItemRow || k <= |labels|
    decreases k
  {
    if k <= FirstItemRow then map[]
    else
      var m := ItemsBelow(grid, labels, cols, k - 1);
      if Skipped(labels[k - 1]) then m else m[labels[k - 1].name := EntryAt(grid, labels, cols, k - 1)]
  }

  /** The last item row among 4..k-1 named `name`, or -1. */
  function LastItemRow(labels: seq<RowLabels>, k: int, name: string): (r: int)
    requires k <= FirstItemRow || k <= |labels|
    ensures r == -1 || (FirstItemRow <= r < k && !Skipped(labels[r]) && labels[r].name == name)
    ensures forall r' :: r < r' < k && r' >= FirstItemRow ==> Skipped(labels[r']) || labels[r'].name != name
    decreases k
  {
    if k <= FirstItemRow then -1
    else if !Skipped(labels[k - 1]) && labels[k - 1].name == name then k - 1
    else LastItemRow(labels, k - 1, name)
  }

  /** A name is in the table exactly when some item row holds it, and then it has the last such row's entry. */
  lemma {:induction false} ItemsLastWins(grid: Grid, labels: seq<RowLabels>, cols: seq<MonthCol>, k: int, name: string)
    requires k <= FirstItemRow || k <= |labels|
    ensures name in ItemsBelow(grid, labels, cols, k) <==> LastItemRow(labels, k, name) != -1
    ensures name in ItemsBelow(grid, labels, cols, k) ==>
      ItemsBelow(grid, labels, cols, k)[name] == EntryAt(grid, labels, cols, LastItemRow(labels, k, name))
    decreases k
  {
    if k > FirstItemRow {
      ItemsLastWins(grid, labels, cols, k - 1, name);
    }
  }

  /** The loop over one row's month columns filling `monthData`. */
  method FillMonthData(row: Row, cols: seq<MonthCol>) returns (data: map<string, Option<real>>)
    ensures data == MonthData(row, cols)
  {
    data := map[];
    var n := 0;
    while n < |cols|
      invariant 0 <= n <= |cols|
      invariant data == MonthData(row, cols[..n])
    {
      var mc := cols[n];
      assert cols[..n + 1][..n] == cols[..n];
      data := data[MonthKey(mc) := CellNumber(row, mc.colIdx)];
      n := n + 1;
    }
    assert cols[..|cols|] == cols;
  }

  /**
   * The loop over the rows from 4 on filling `items`, given each row's trimmed category
   * and name (the source trims them at the top of each pass).
   */
  method FillItems(grid: Grid, labels: seq<RowLabels>, cols: seq<MonthCol>) returns (items: map<string, ItemEntry>)
    requires |labels| == |grid|
    ensures items == ItemsBelow(grid, labels, cols, |grid|)
  {
    items := map[];
    var rowIdx := FirstItemRow;
    while rowIdx < |grid|
      invariant FirstItemRow <= rowIdx && (rowIdx <= |grid| || rowIdx == FirstItemRow)
      invariant items == ItemsBelow(grid, labels, cols, rowIdx)
    {
      var row := grid[rowIdx];
      var category := labels[rowIdx].category;
      var itemName := labels[rowIdx].name;
      if !(itemName == "" || itemName == "null") && itemName != category {
        var monthData := FillMonthData(row, cols);
        items := items[itemName := ItemEntry(category, monthData)];
      }
      rowIdx := rowIdx + 1;
    }
  }

  // ---------------------------------------------------------------------------
  // The analysis

  datatype Analysis = Analysis(
    latestYear: Option<string>,
    latestMonth: Option<string>,
    totalColIdx: int,
    latestColIdx: int,
    allMonthCols: seq<MonthCol>,
    items: map<string, ItemEntry>)

  /** What `analyzeWorksheet` returns for a grid: `None` for fewer than four rows. */
  function Analyze(grid: Grid): Option<Analysis> {
    if |grid| < 4 then None
    else
      var row2, row3, row4 := RowAt(grid, YearRow), RowAt(grid, MarkerRow), RowAt(grid, MonthRow);
      var total := TotalColumnFrom(row3, row4, 0);
      var latest := LatestColumn(total);
      var latestYear := if latest >= 0 then YearLabelAt(row2, latest) else None;
      var latestMonth := if latest >= 0 then Some(Trim(RemoveFirst(TextAt(row4, latest), '月'))) else None;
      var cols := MonthColsBelow(row2, row4, MonthScanEnd(total));
      Some(Analysis(latestYear, latestMonth, total, latest, LastN(cols, ListedMonths), ItemsBelow(grid, Labels(grid), cols, |grid|)))
  }

  /**
   * Grids of fewer than four rows give nothing. Otherwise the total column is the first
   * whose row 3 or row 4 mentions 合計, and the latest column is the one before it; without
   * a latest column there is no latest year or month.
   */
  lemma AnalyzeTotals(grid: Grid)
    ensures Analyze(grid).None? <==> |grid| < 4
    ensures Analyze(grid).Some? ==>
      var a := Analyze(grid).value; var row3, row4 := grid[MarkerRow], grid[MonthRow];
      (a.totalColIdx == -1 <==> forall j :: 0 <= j < |row3| ==> !IsTotalColumn(row3, row4, j)) &&
      (a.totalColIdx >= 0 ==>
         IsTotalColumn(row3, row4, a.totalColIdx) &&
         forall j :: 0 <= j < a.totalColIdx ==> !IsTotalColumn(row3, row4, j)) &&
      a.latestColIdx == (if a.totalColIdx > 0 then a.totalColIdx - 1 else -1) &&
      (a.latestColIdx < 0 <==> a.latestMonth.None?) &&
      (a.latestColIdx < 0 ==> a.latestYear.None?)
  {
  }

  /**
   * The listed month columns are the last 14 of the month columns before the total column
   * (or before column 50): in ascending order, each with a month name in row 4.
   */
  lemma AnalyzeMonthCols(grid: Grid)
    requires |grid| >= 4
    ensures var a := Analyze(grid).value; var row2, row4 := grid[YearRow], grid[MonthRow];
      var all := MonthColsBelow(row2, row4, MonthScanEnd(a.totalColIdx));
      a.allMonthCols == LastN(all, ListedMonths) &&
      |a.allMonthCols| <= ListedMonths &&
      (forall n :: 0 <= n < |a.allMonthCols| ==>
         FirstMonthScanCol <= a.allMonthCols[n].colIdx < MonthScanEnd(a.totalColIdx) &&
         IsMonthName(TextAt(row4, a.allMonthCols[n].colIdx))) &&
      (forall p, q :: 0 <= p < q < |a.allMonthCols| ==> a.allMonthCols[p].colIdx < a.allMonthCols[q].colIdx)
  {
    var row2, row4 := grid[YearRow], grid[MonthRow];
    var end := MonthScanEnd(TotalColumnFrom(grid[MarkerRow], row4, 0));
    assert Analyze(grid).value.allMonthCols == LastN(MonthColsBelow(row2, row4, end), ListedMonths);
    ListedMonthCols(row2, row4, end);
  }

  /** The last 14 month columns below `end` lie in 3..end-1, in ascending order, each with a month name. */
  lemma ListedMonthCols(row2: Row, row4: Row, end: int)
    ensures var listed := LastN(MonthColsBelow(row2, row4, end), ListedMonths);
      (forall n :: 0 <= n < |listed| ==>
         FirstMonthScanCol <= listed[n].colIdx < end && IsMonthName(TextAt(row4, listed[n].colIdx))) &&
      (forall p, q :: 0 <= p < q < |listed| ==> listed[p].colIdx < listed[q].colIdx)
  {
    MatchingOrdered(MonthNameAt(row4), FirstMonthScanCol, end);
    var cols := MonthColsBelow(row2, row4, end);
    var placed := c => FirstMonthScanCol <= c < end && MonthNameAt(row4)(c);
    LastNKeepsColumns(cols, ListedMonths, placed);
  }

  /** A suffix of an ascending column list whose columns all satisfy `p` is again one. */
  lemma LastNKeepsColumns(cols: seq<MonthCol>, n: nat, p: int -> bool)
    requires forall m :: 0 <= m < |cols| ==> p(cols[m].colIdx)
    requires forall a, b :: 0 <= a < b < |cols| ==> cols[a].colIdx < cols[b].colIdx
    ensures forall m :: 0 <= m < |LastN(cols, n)| ==> p(LastN(cols, n)[m].colIdx)
    ensures forall a, b :: 0 <= a < b < |LastN(cols, n)| ==> LastN(cols, n)[a].colIdx < LastN(cols, n)[b].colIdx
  {
    var listed := LastN(cols, n);
    var d := |cols| - |listed|;
    forall m | 0 <= m < |listed| ensures listed[m] == cols[d + m] { }
  }

  /** `analyzeWorksheet` on the grid the loader built. */
  method AnalyzeWorksheet(grid: Grid) returns (result: Option<Analysis>)
    ensures result == Analyze(grid)
  {
    if |grid| < 4 {
      return None;
    }
    var row2, row3, row4 := grid[YearRow], grid[MarkerRow], grid[MonthRow];
    var totalColIdx := -1;
    var i := 0;
    while i < |row3|
      invariant 0 <= i <= |row3|
      invariant TotalColumnFrom(row3, row4, i) == TotalColumnFrom(row3, row4, 0)
    {
      if IsTotalColumn(row3, row4, i) {
        totalColIdx := i;
        break;
      }
      i := i + 1;
    }
    var latestColIdx := if totalColIdx > 0 then totalColIdx - 1 else -1;
    var latestYear: Option<string> := None;
    var latestMonth: Option<string> := None;
    if latestColIdx >= 0 {
      latestYear := FindYearLabel(row2, latestColIdx);
      latestMonth := Some(Trim(RemoveFirst(TextAt(row4, latestColIdx), '月')));
    }
    var allMonthCols := CollectMonthCols(row2, row4, totalColIdx);
    var items := FillItems(grid, Labels(grid), allMonthCols);
    return Some(Analysis(latestYear, latestMonth, totalColIdx, latestColIdx, LastN(allMonthCols, ListedMonths), items));
  }
}
