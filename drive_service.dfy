/**
 * The spreadsheet path (`src/services/driveService.ts`): a grid of resolved cells is
 * searched for the label column, the latest month marked actual, and the item rows;
 * up to 13 month columns are read right to left and turned into monthly records; the
 * summary and the year-over-year block are derived from the latest record and the
 * record for the same month a year earlier.
 *
 * Layout of a report sheet (0-based rows): row 1 holds year labels such as "2025年",
 * row 2 the actual/plan marker "実績", row 3 month labels such as "1月"; item names
 * sit in the label column from row 5 on.
 */
module DriveService {
  import opened Wrappers
  import opened Text
  import opened Numeric
  import opened Sheet
  import opened Report

  // ---------------------------------------------------------------------------
  // Store table

  datatype StoreFile = StoreFile(fileId: string, sheetName: string)

  /** `STORE_FILE_MAP`, in declaration order. */
  const StoreEntries: seq<(string, StoreFile)> := [
    ("かね子", StoreFile("1nvZSdgqpq4AS7Gqei3p37J5m7ZydbCzm", "かね子報告書")),
    ("スロパチコンカフェ", StoreFile("1YkG8ZpIzUiNI3OgXq2KE7HzYco0GzRtd", "スロパチ\U{3000}報告書")),
    ("ダルマ池袋", StoreFile("10QBWZJ3sJnymsQCuG20RQY2TuvCr-UPj", "DARUMA池袋\U{3000}報告書")),
    ("ダーツバーW", StoreFile("11XhsK3GdFssl4yJSpeNaiSUUdqbCm0q8", "ダーツバーW\U{3000}報告書")),
    ("ダルマ田町", StoreFile("1DO5eox-YIvetPelR-eb862mBvF8qtZhP", "DARUMA田町\U{3000}報告書")),
    ("池袋サンガ", StoreFile("1YHcxdarVt6MK71J-aT0Lufm36ccJYTPb", "SANGA 報告書")),
    ("どないや", StoreFile("1MG3K9QV4xF5I9CYZ4WBws2jEGVlARfTZ", "どないや\U{3000}報告書")),
    ("紗心", StoreFile("1Pil1CXM-WHPawLhSnd6H9_o4KZH-D9iQ", "紗心\U{3000}報告書"))
  ]

  /** An object literal: each entry sets its key, a later one overriding an earlier. */
  function EntriesToMap(entries: seq<(string, StoreFile)>): (m: map<string, StoreFile>)
    ensures m.Keys == set i | 0 <= i < |entries| :: entries[i].0
    decreases |entries|
  {
    if entries == [] then map[]
    else
      var init := entries[..|entries| - 1];
      var m := EntriesToMap(init)[entries[|entries| - 1].0 := entries[|entries| - 1].1];
      assert forall i :: 0 <= i < |init| ==> init[i] == entries[i];
      m
  }

  function StoreFileMap(): map<string, StoreFile> {
    EntriesToMap(StoreEntries)
  }

  // ---------------------------------------------------------------------------
  // Cell resolution and the loaded window

  /** `cellVal`: a cached formula result wins over a text; a formula alone reads as nothing. */
  function CellVal(v: RawValue): (c: Cell)
    ensures v.RawNull? ==> c == Empty
    ensures v.RawNumber? ==> c == NumberCell(v.number)
    ensures v.RawString? ==> c == Str(v.str)
    ensures v.RawObject? && v.result.Some? ==> c == ScalarCell(v.result.value)
    ensures v.RawObject? && v.result.None? ==> (c == Empty <==> v.text.None?)
    ensures v.RawObject? && v.result.None? && v.text.Some? ==> c == Str(v.text.value)
    ensures WellFormed(c)
  {
    match v
    case RawNull => Empty
    case RawNumber(x) => NumberCell(x)
    case RawString(s) => Str(s)
    case RawObject(result, text, _) =>
      if result.Some? then ScalarCell(result.value)
      else if text.Some? then Str(text.value)
      else Empty
  }

  const MaxRows := 60
  const MaxCols := 50

  /** The first 60 rows of the sheet, each read as 50 resolved cells (`getCell(1..50)`). */
  function LoadGrid(sheet: seq<seq<RawValue>>): (g: Grid)
    ensures |g| == if |sheet| < MaxRows then |sheet| else MaxRows
    ensures forall r :: 0 <= r < |g| ==> |g[r]| == MaxCols
    ensures forall r, c :: 0 <= r < |g| && 0 <= c < MaxCols ==>
      g[r][c] == if c < |sheet[r]| then CellVal(sheet[r][c]) else Empty
    ensures WellFormedGrid(g)
  {
    var n := if |sheet| < MaxRows then |sheet| else MaxRows;
    seq(n, r requires 0 <= r < n =>
      seq(MaxCols, c requires 0 <= c < MaxCols => if c < |sheet[r]| then CellVal(sheet[r][c]) else Empty))
  }

  // ---------------------------------------------------------------------------
  // Header patterns

  const ActualMarker := "実績"

  /** `k` digits at the start of `s`, followed by the month marker. */
  predicate MonthTokenAt(s: string, k: nat) {
    |s| > k && AllDigits(s[..k]) && s[k] == '月'
  }

  /** `s.match(/^(\d{1,2})月/)`, giving the captured digits. */
  function MonthPrefix(s: string): (m: Option<string>)
    ensures m.Some? <==> MonthTokenAt(s, 1) || MonthTokenAt(s, 2)
    ensures m.Some? ==> 1 <= |m.value| <= 2 && MonthTokenAt(s, |m.value|) && m.value == s[..|m.value|]
  {
    if MonthTokenAt(s, 1) then Some(s[..1])
    else if MonthTokenAt(s, 2) then Some(s[..2])
    else None
  }

  /** Four digits at position `i` of `s`, followed by the year marker. */
  predicate YearTokenAt(s: string, i: int) {
    0 <= i && i + 4 < |s| && AllDigits(s[i..i + 4]) && s[i + 4] == '年'
  }

  /** `s.match(/\d{4}年/)` succeeds. */
  predicate HasYearToken(s: string) {
    exists i :: 0 <= i < |s| && YearTokenAt(s, i)
  }

  /** The nearest column at or left of `j` whose year-row cell holds a year token, or -1. */
  function YearColumn(row2: Row, j: int): (k: int)
    ensures k == -1 || 0 <= k <= j
    decreases j
  {
    if j < 0 then -1
    else if HasYearToken(TextAt(row2, j)) then j
    else YearColumn(row2, j - 1)
  }

  /**
   * The year for column `j`: the text of the nearest year-row cell at or left of `j`
   * that holds a year token, with year markers and white space removed.
   */
  function YearLookup(row2: Row, j: int): (y: Option<string>)
  {
    var k := YearColumn(row2, j);
    if k < 0 then None else Some(RemoveYearMarks(TextAt(row2, k)))
  }

  /** `YearColumn` finds a year token and no column between it and `j` holds one. */
  lemma {:induction false} YearColumnIsNearest(row2: Row, j: int)
    ensures var k := YearColumn(row2, j);
      (k == -1 && forall i :: 0 <= i <= j ==> !HasYearToken(TextAt(row2, i))) ||
      (0 <= k && HasYearToken(TextAt(row2, k)) && forall i :: k < i <= j ==> !HasYearToken(TextAt(row2, i)))
    decreases j
  {
    if j >= 0 && !HasYearToken(TextAt(row2, j)) {
      YearColumnIsNearest(row2, j - 1);
    }
  }

  /** A column without a year to its left has none at any column further left. */
  lemma {:induction false} YearLookupNoneBelow(row2: Row, i: int, k: int)
    requires k <= i && YearLookup(row2, i).None?
    ensures YearLookup(row2, k).None?
    decreases i - k
  {
    if k < i {
      YearLookupNoneBelow(row2, i - 1, k);
    }
  }

  function YearText(row2: Row, j: int): string {
    YearLookup(row2, j).GetOr("")
  }

  /** The backward year scan of both detection loops. */
  method FindYear(row2: Row, start: int) returns (y: Option<string>)
    requires start >= 0
    ensures y == YearLookup(row2, start)
  {
    var j := start;
    while j >= 0
      invariant -1 <= j <= start
      invariant YearLookup(row2, start) == YearLookup(row2, j)
    {
      var yv := TextAt(row2, j);
      if HasYearToken(yv) {
        return Some(RemoveYearMarks(yv));
      }
      j := j - 1;
    }
    return None;
  }

  // ---------------------------------------------------------------------------
  // detectLatestMonthCol

  datatype LatestMonth = LatestMonth(colIdx: int, year: string, month: string)

  /** A month column whose marker is "実績" or blank. */
  predicate Qualifies(grid: Grid, i: int) {
    MonthPrefix(TextAt(RowAt(grid, MonthRow), i)).Some? &&
    (TextAt(RowAt(grid, MarkerRow), i) == ActualMarker || TextAt(RowAt(grid, MarkerRow), i) == "")
  }

  /** The largest qualifying index below `n`, or -1. */
  function LastQualifying(grid: Grid, n: int): int
    decreases n
  {
    if n <= 0 then -1
    else if Qualifies(grid, n - 1) then n - 1
    else LastQualifying(grid, n - 1)
  }

  lemma {:induction false} LastQualifyingIsRightmost(grid: Grid, n: int)
    ensures var c := LastQualifying(grid, n);
      (c == -1 && forall i :: 0 <= i < n ==> !Qualifies(grid, i)) ||
      (0 <= c < n && Qualifies(grid, c) && forall i :: c < i < n ==> !Qualifies(grid, i))
    decreases n
  {
    if n > 0 && !Qualifies(grid, n - 1) {
      LastQualifyingIsRightmost(grid, n - 1);
    }
  }

  /** What `detectLatestMonthCol` returns. */
  function LatestMonthColumn(grid: Grid): LatestMonth {
    var row4 := RowAt(grid, MonthRow);
    var c := LastQualifying(grid, |row4|);
    if c < 0 then LatestMonth(-1, "", "")
    else LatestMonth(c, YearText(RowAt(grid, YearRow), c), MonthPrefix(TextAt(row4, c)).GetOr(""))
  }

  /**
   * The latest month is the rightmost month column of the month row marked "実績" or
   * blank, with the digits of its month label and the year of the nearest year label
   * at or left of it; -1 and two empty strings when there is none.
   */
  lemma LatestMonthIsRightmostActual(grid: Grid)
    ensures var lm := LatestMonthColumn(grid); var row4 := RowAt(grid, MonthRow);
      (lm.colIdx == -1 && lm.year == "" && lm.month == "" &&
        forall i :: 0 <= i < |row4| ==> !Qualifies(grid, i)) ||
      (0 <= lm.colIdx < |row4| && Qualifies(grid, lm.colIdx) &&
        (forall i :: lm.colIdx < i < |row4| ==> !Qualifies(grid, i)) &&
        MonthPrefix(TextAt(row4, lm.colIdx)) == Some(lm.month) &&
        lm.year == YearText(RowAt(grid, YearRow), lm.colIdx))
  {
    LastQualifyingIsRightmost(grid, |RowAt(grid, MonthRow)|);
  }

  /** `detectLatestMonthCol`: one pass over the month row; each qualifying column overwrites the last. */
  method DetectLatestMonthCol(grid: Grid) returns (lm: LatestMonth)
    ensures lm == LatestMonthColumn(grid)
  {
    var row2 := RowAt(grid, YearRow);
    var row3 := RowAt(grid, MarkerRow);
    var row4 := RowAt(grid, MonthRow);
    var latestCol := -1;
    var latestYear := "";
    var latestMonth := "";
    for i := 0 to |row4|
      invariant latestCol == LastQualifying(grid, i)
      invariant latestCol < i
      invariant latestYear == (if latestCol < 0 then "" else YearText(row2, latestCol))
      invariant latestMonth == (if latestCol < 0 then "" else MonthPrefix(TextAt(row4, latestCol)).GetOr(""))
    {
      var monthMatch := MonthPrefix(TextAt(row4, i));
      if monthMatch.None? {
        continue;
      }
      var r3v := TextAt(row3, i);
      if r3v != ActualMarker && r3v != "" {
        continue;
      }
      var previous := latestCol;
      latestCol := i;
      latestMonth := monthMatch.value;
      var y := FindYear(row2, i);
      if y.Some? {
        latestYear := y.value;
      } else if previous >= 0 {
        YearLookupNoneBelow(row2, i, previous);
      }
    }
    lm := LatestMonth(latestCol, latestYear, latestMonth);
  }

  // ---------------------------------------------------------------------------
  // detectLabelCol

  const LabelCandidates: seq<nat> := [38, 1, 2]
  const FallbackLabelCol: nat := 38
  const KeyLabels: seq<string> := ["売上", "原価", "粗利益", "人件費"]

  /** Some row 5..14 holds, exactly and untrimmed, one of the key item names in column `col`. */
  predicate HasKeyLabel(grid: Grid, col: nat) {
    exists r :: 5 <= r < 15 && r < |grid| && TextAt(grid[r], col) in KeyLabels
  }

  /** The first of `candidates` with a key item name, or the fallback column. */
  function FirstLabelColumn(grid: Grid, candidates: seq<nat>): nat
    decreases |candidates|
  {
    if candidates == [] then FallbackLabelCol
    else if HasKeyLabel(grid, candidates[0]) then candidates[0]
    else FirstLabelColumn(grid, candidates[1..])
  }

  function LabelColumn(grid: Grid): nat {
    FirstLabelColumn(grid, LabelCandidates)
  }

  lemma {:induction false} FirstLabelColumnIsFirstMatch(grid: Grid, candidates: seq<nat>)
    ensures var col := FirstLabelColumn(grid, candidates);
      (exists k :: 0 <= k < |candidates| && col == candidates[k] && HasKeyLabel(grid, col) &&
        forall k' :: 0 <= k' < k ==> !HasKeyLabel(grid, candidates[k'])) ||
      (col == FallbackLabelCol && forall k :: 0 <= k < |candidates| ==> !HasKeyLabel(grid, candidates[k]))
    decreases |candidates|
  {
    if candidates != [] && !HasKeyLabel(grid, candidates[0]) {
      FirstLabelColumnIsFirstMatch(grid, candidates[1..]);
      var col := FirstLabelColumn(grid, candidates);
      if (exists k ::
            0 <= k < |candidates[1..]| && col == candidates[1..][k] && HasKeyLabel(grid, col) &&
            forall k' :: 0 <= k' < k ==> !HasKeyLabel(grid, candidates[1..][k'])) {
        var k :| 0 <= k < |candidates[1..]| && col == candidates[1..][k] && HasKeyLabel(grid, col) &&
          forall k' :: 0 <= k' < k ==> !HasKeyLabel(grid, candidates[1..][k']);
        assert col == candidates[k + 1];
        assert forall k' :: 0 <= k' < k + 1 ==> !HasKeyLabel(grid, candidates[k']) by {
          forall k' | 0 <= k' < k + 1 ensures !HasKeyLabel(grid, candidates[k']) {
            if k' > 0 { assert candidates[k'] == candidates[1..][k' - 1]; }
          }
        }
      } else {
        forall k | 0 <= k < |candidates| ensures !HasKeyLabel(grid, candidates[k]) {
          if k > 0 { assert candidates[k] == candidates[1..][k - 1]; }
        }
      }
    }
  }

  /**
   * The label column is column 38, 1 or 2, the first of them in that order where some
   * row 5..14 holds 売上, 原価, 粗利益 or 人件費 exactly; column 38 when none does.
   */
  lemma LabelColumnIsFirstCandidate(grid: Grid)
    ensures var col := LabelColumn(grid);
      (col == 38 && HasKeyLabel(grid, 38)) ||
      (col == 1 && !HasKeyLabel(grid, 38) && HasKeyLabel(grid, 1)) ||
      (col == 2 && !HasKeyLabel(grid, 38) && !HasKeyLabel(grid, 1) && HasKeyLabel(grid, 2)) ||
      (col == 38 && !HasKeyLabel(grid, 38) && !HasKeyLabel(grid, 1) && !HasKeyLabel(grid, 2))
  {
    FirstLabelColumnIsFirstMatch(grid, LabelCandidates);
  }

  /** `labels.some(l => KEY_LABELS.includes(l))` over rows 5..14 of column `col`. */
  method ScanForKeyLabel(grid: Grid, col: nat) returns (found: bool)
    ensures found == HasKeyLabel(grid, col)
  {
    var stop := if |grid| < 15 then |grid| else 15;
    var r := 5;
    while r < stop
      invariant (if stop < 5 then 5 else r) <= (if stop < 5 then 5 else stop) && r >= 5
      invariant forall r' :: 5 <= r' < r && r' < |grid| ==> TextAt(grid[r'], col) !in KeyLabels
    {
      if TextAt(grid[r], col) in KeyLabels {
        return true;
      }
      r := r + 1;
    }
    return false;
  }

  /** `detectLabelCol`: the candidates in order, returning at the first with a key item name. */
  method DetectLabelCol(grid: Grid) returns (col: nat)
    ensures col == LabelColumn(grid)
  {
    for k := 0 to |LabelCandidates|
      invariant FirstLabelColumn(grid, LabelCandidates[k..]) == LabelColumn(grid)
    {
      var found := ScanForKeyLabel(grid, LabelCandidates[k]);
      if found {
        return LabelCandidates[k];
      }
      assert LabelCandidates[k..][1..] == LabelCandidates[k + 1..];
    }
    return FallbackLabelCol;
  }

  // ---------------------------------------------------------------------------
  // itemRowMap and getVal

  const FirstItemRow := 5
  const MaxItemRows := 60

  /** `Math.min(grid.length, 60)`: the end of the rows searched for item names. */
  function ItemRowLimit(grid: Grid): nat {
    if |grid| < MaxItemRows then |grid| else MaxItemRows
  }

  /** The trimmed item name in column `col` of row `r`. */
  function ItemLabel(grid: Grid, col: nat, r: int): string {
    Trim(TextAt(RowAt(grid, r), col))
  }

  /** The trimmed names of rows 0..n-1, indexed by row. */
  function LabelsUpTo(grid: Grid, col: nat, n: nat): (names: seq<string>)
    ensures |names| == n
  {
    if n == 0 then [] else LabelsUpTo(grid, col, n - 1) + [ItemLabel(grid, col, n - 1)]
  }

  lemma {:induction false} LabelsUpToAt(grid: Grid, col: nat, n: nat, r: int)
    requires 0 <= r < n
    ensures LabelsUpTo(grid, col, n)[r] == ItemLabel(grid, col, r)
  {
    if r < n - 1 {
      LabelsUpToAt(grid, col, n - 1, r);
    }
  }

  /** The trimmed names of the rows searched, indexed by row. */
  function ItemNames(grid: Grid, col: nat): (names: seq<string>)
    ensures |names| == ItemRowLimit(grid)
  {
    LabelsUpTo(grid, col, ItemRowLimit(grid))
  }

  /** The item map after rows 5..n-1: each non-empty name set to the row it was read from. */
  function IndexRows(names: seq<string>, n: int): map<string, nat>
    requires n <= |names|
    decreases n
  {
    if n <= FirstItemRow then map[]
    else
      var m := IndexRows(names, n - 1);
      if names[n - 1] == "" then m else m[names[n - 1] := n - 1]
  }

  /** One more row read: its name, when non-empty, now maps to it. */
  lemma IndexRowsStep(names: seq<string>, n: int)
    requires FirstItemRow <= n < |names|
    ensures IndexRows(names, n + 1) ==
      if names[n] == "" then IndexRows(names, n) else IndexRows(names, n)[names[n] := n]
  {
  }

  /** The `itemRowMap` of `extractMonthlyRecords`. */
  function ItemRowMap(grid: Grid, col: nat): map<string, nat> {
    var names := ItemNames(grid, col);
    IndexRows(names, |names|)
  }

  /**
   * A name is mapped exactly when some row 5..n-1 holds it (non-empty), and it is mapped
   * to the last such row.
   */
  lemma {:induction false} IndexRowsLastWins(names: seq<string>, n: int, name: string)
    requires n <= |names|
    ensures name in IndexRows(names, n) <==>
      name != "" && exists r :: FirstItemRow <= r < n && names[r] == name
    ensures name in IndexRows(names, n) ==>
      var r := IndexRows(names, n)[name];
      FirstItemRow <= r < n && names[r] == name &&
      forall r' :: r < r' < n ==> names[r'] != name
    decreases n
  {
    if n > FirstItemRow {
      IndexRowsLastWins(names, n - 1, name);
    }
  }

  /**
   * `itemRowMap` maps each non-empty trimmed name of rows 5..min(|grid|, 60)-1 of the label
   * column to the last row holding it, and nothing else.
   */
  lemma ItemRowMapLastWins(grid: Grid, col: nat, name: string)
    ensures name in ItemRowMap(grid, col) <==>
      name != "" && exists r :: FirstItemRow <= r < ItemRowLimit(grid) && ItemLabel(grid, col, r) == name
    ensures name in ItemRowMap(grid, col) ==>
      var r := ItemRowMap(grid, col)[name];
      FirstItemRow <= r < ItemRowLimit(grid) && ItemLabel(grid, col, r) == name &&
      forall r' :: r < r' < ItemRowLimit(grid) ==> ItemLabel(grid, col, r') != name
  {
    var names := ItemNames(grid, col);
    forall r | 0 <= r < |names| ensures names[r] == ItemLabel(grid, col, r) {
      LabelsUpToAt(grid, col, |names|, r);
    }
    IndexRowsLastWins(names, |names|, name);
  }

  /** The loop filling `itemRowMap`. */
  method BuildItemRowMap(grid: Grid, col: nat) returns (items: map<string, nat>)
    ensures items == ItemRowMap(grid, col)
  {
    items := map[];
    var limit := ItemRowLimit(grid);
    ghost var names := ItemNames(grid, col);
    if limit <= FirstItemRow {
      return;
    }
    var rowIdx := FirstItemRow;
    while rowIdx < limit
      invariant FirstItemRow <= rowIdx <= limit
      invariant items == IndexRows(names, rowIdx)
    {
      var name := ItemLabel(grid, col, rowIdx);
      LabelsUpToAt(grid, col, limit, rowIdx);
      IndexRowsStep(names, rowIdx);
      if name != "" {
        items := items[name := rowIdx];
      }
      rowIdx := rowIdx + 1;
    }
  }

  /** `itemRowMap[name] ?? -1`. */
  function RowOf(items: map<string, nat>, name: string): (r: int)
    ensures r == -1 <==> name !in items
    ensures r >= 0 ==> r == items[name]
  {
    if name in items then items[name] else -1
  }

  /**
   * `getVal`: a number cell as it stands, anything else through `parseFloat`, NaN as 0.
   * A blank cell is read as the text "0", which parses to 0.
   */
  function GetVal(grid: Grid, rowIdx: int, colIdx: int): (v: real)
    ensures rowIdx < 0 || colIdx < 0 ==> v == 0.0
    ensures rowIdx >= 0 && colIdx >= 0 && CellAt(RowAt(grid, rowIdx), colIdx).Num? ==>
      v == CellAt(RowAt(grid, rowIdx), colIdx).value
    ensures rowIdx >= 0 && colIdx >= 0 && CellAt(RowAt(grid, rowIdx), colIdx).Empty? ==> v == 0.0
    ensures rowIdx >= 0 && colIdx >= 0 && CellAt(RowAt(grid, rowIdx), colIdx).Str? ==>
      v == ParseOrZero(CellAt(RowAt(grid, rowIdx), colIdx).text)
    ensures rowIdx >= 0 && colIdx >= 0 && CellAt(RowAt(grid, rowIdx), colIdx) == Str("") ==> v == 0.0
  {
    if rowIdx < 0 || colIdx < 0 then 0.0
    else
      match CellAt(RowAt(grid, rowIdx), colIdx)
      case Num(x, _) => x
      case Str(t) => if t == "" then 0.0 else ParseOrZero(t)
      case Empty => 0.0
  }

  /** A text cell holding a plain number reads as that number. */
  lemma GetValOfDigits(grid: Grid, rowIdx: nat, colIdx: nat)
    requires CellAt(RowAt(grid, rowIdx), colIdx).Str?
    requires var t := CellAt(RowAt(grid, rowIdx), colIdx).text; |t| > 0 && AllDigits(t)
    ensures GetVal(grid, rowIdx, colIdx) == DigitsValue(CellAt(RowAt(grid, rowIdx), colIdx).text) as real
  {
    ParseInteger(CellAt(RowAt(grid, rowIdx), colIdx).text);
  }

  // ---------------------------------------------------------------------------
  // The month columns of extractMonthlyRecords

  datatype MonthColumn = MonthColumn(colIdx: int, year: string, month: string)

  const MaxMonths: nat := 13

  predicate IsMonthCol(row4: Row, c: int) {
    MonthPrefix(TextAt(row4, c)).Some?
  }

  /**
   * The month columns found scanning from `c` leftwards with at most `budget` still to
   * collect, oldest first, when the scan arrives at `c` carrying the year `carry`.
   */
  function ScanMonthCols(row2: Row, row4: Row, c: int, carry: string, budget: nat): (r: seq<MonthColumn>)
    ensures |r| <= budget
    ensures forall k :: 0 <= k < |r| ==>
      0 <= r[k].colIdx <= c && MonthPrefix(TextAt(row4, r[k].colIdx)) == Some(r[k].month)
    ensures forall k :: 0 <= k < |r| - 1 ==> r[k].colIdx < r[k + 1].colIdx
    decreases if c < 0 then 0 else c + 1
  {
    if c < 0 || budget == 0 then []
    else
      match MonthPrefix(TextAt(row4, c))
      case None => ScanMonthCols(row2, row4, c - 1, carry, budget)
      case Some(m) =>
        var year := YearLookup(row2, c).GetOr(carry);
        ScanMonthCols(row2, row4, c - 1, year, budget - 1) + [MonthColumn(c, year, m)]
  }

  /** The `monthCols` of `extractMonthlyRecords` for the latest column `latest`. */
  function MonthColumns(grid: Grid, latest: int): seq<MonthColumn> {
    ScanMonthCols(RowAt(grid, YearRow), RowAt(grid, MonthRow), latest, "", MaxMonths)
  }

  /** The columns of a list of month columns. */
  function ColumnsOf(r: seq<MonthColumn>): set<int> {
    set k | 0 <= k < |r| :: r[k].colIdx
  }

  /**
   * The scan takes the rightmost month columns at or left of `c`: every month column from
   * the first one collected up to `c` is collected, and when fewer than `budget` are
   * collected every month column at or left of `c` is.
   */
  lemma {:induction false} ScanTakesRightmost(row2: Row, row4: Row, c: int, carry: string, budget: nat)
    ensures var r := ScanMonthCols(row2, row4, c, carry, budget);
      forall j :: 0 <= j <= c && IsMonthCol(row4, j) && (|r| < budget || (|r| > 0 && r[0].colIdx <= j)) ==>
        j in ColumnsOf(r)
    decreases if c < 0 then 0 else c + 1
  {
    if c >= 0 && budget > 0 {
      match MonthPrefix(TextAt(row4, c))
      case None =>
        ScanTakesRightmost(row2, row4, c - 1, carry, budget);
      case Some(m) =>
        var year := YearLookup(row2, c).GetOr(carry);
        ScanTakesRightmost(row2, row4, c - 1, year, budget - 1);
        var r' := ScanMonthCols(row2, row4, c - 1, year, budget - 1);
        ScanStep(row2, row4, c, carry, budget);
        RightmostAppend(row4, r', MonthColumn(c, year, m), budget);
    }
  }

  /** The columns of a list with one more entry at the end. */
  lemma ColumnsOfAppend(r: seq<MonthColumn>, e: MonthColumn)
    ensures ColumnsOf(r + [e]) == ColumnsOf(r) + {e.colIdx}
  {
    var r2 := r + [e];
    forall x | x in ColumnsOf(r2) ensures x in ColumnsOf(r) || x == e.colIdx {
      var k :| 0 <= k < |r2| && r2[k].colIdx == x;
      if k < |r| { assert r[k].colIdx == x; }
    }
    forall x | x in ColumnsOf(r) ensures x in ColumnsOf(r2) {
      var k :| 0 <= k < |r| && r[k].colIdx == x;
      assert r2[k].colIdx == x;
    }
    assert r2[|r|].colIdx == e.colIdx;
  }

  /** Collecting the month column `e` at the right end keeps every skipped-over month column collected. */
  lemma RightmostAppend(row4: Row, r: seq<MonthColumn>, e: MonthColumn, budget: nat)
    requires budget > 0 && |r| <= budget - 1
    requires forall j ::
      (0 <= j <= e.colIdx - 1 && IsMonthCol(row4, j) && (|r| < budget - 1 || (|r| > 0 && r[0].colIdx <= j))) ==>
      j in ColumnsOf(r)
    ensures var r2 := r + [e];
      forall j :: 0 <= j <= e.colIdx && IsMonthCol(row4, j) && (|r2| < budget || (|r2| > 0 && r2[0].colIdx <= j)) ==>
        j in ColumnsOf(r2)
  {
    var r2 := r + [e];
    ColumnsOfAppend(r, e);
    forall j | 0 <= j <= e.colIdx && IsMonthCol(row4, j) && (|r2| < budget || (|r2| > 0 && r2[0].colIdx <= j))
      ensures j in ColumnsOf(r2)
    {
      if j < e.colIdx && |r| > 0 {
        assert r2[0] == r[0];
      }
    }
  }

  /** One step of the scan at a month column `c`: the scan further left, then `c` itself. */
  lemma ScanStep(row2: Row, row4: Row, c: int, carry: string, budget: nat)
    requires c >= 0 && budget > 0 && IsMonthCol(row4, c)
    ensures var year := YearLookup(row2, c).GetOr(carry);
      ScanMonthCols(row2, row4, c, carry, budget) ==
        ScanMonthCols(row2, row4, c - 1, year, budget - 1) + [MonthColumn(c, year, MonthPrefix(TextAt(row4, c)).value)]
  {
  }

  /** One step of the collection loop: the column at `c` is put in front of what was collected, or skipped. */
  lemma CollectStep(row2: Row, row4: Row, c: int, carry: string, budget: nat, collected: seq<MonthColumn>)
    requires c >= 0 && budget > 0
    ensures var year := YearLookup(row2, c).GetOr(carry);
      IsMonthCol(row4, c) ==>
        ScanMonthCols(row2, row4, c, carry, budget) + collected ==
          ScanMonthCols(row2, row4, c - 1, year, budget - 1) + ([MonthColumn(c, year, MonthPrefix(TextAt(row4, c)).value)] + collected)
    ensures !IsMonthCol(row4, c) ==>
      ScanMonthCols(row2, row4, c, carry, budget) == ScanMonthCols(row2, row4, c - 1, carry, budget)
  {
    if IsMonthCol(row4, c) {
      var year := YearLookup(row2, c).GetOr(carry);
      var entry := MonthColumn(c, year, MonthPrefix(TextAt(row4, c)).value);
      var rest := ScanMonthCols(row2, row4, c - 1, year, budget - 1);
      ScanStep(row2, row4, c, carry, budget);
      assert (rest + [entry]) + collected == rest + ([entry] + collected);
    }
  }

  /** A month column collected at `c` itself is the last entry. */
  lemma ScanEndsAtStart(row2: Row, row4: Row, c: int, carry: string, budget: nat)
    requires c >= 0 && budget > 0 && IsMonthCol(row4, c)
    ensures var r := ScanMonthCols(row2, row4, c, carry, budget);
      |r| > 0 && r[|r| - 1] == MonthColumn(c, YearLookup(row2, c).GetOr(carry), MonthPrefix(TextAt(row4, c)).value)
  {
  }

  /**
   * Each collected column takes the year found at or left of it; one with no year label
   * to its left keeps the year of the column collected to its right (or the year the
   * scan started with).
   */
  lemma {:induction false} ScanCarriesYear(row2: Row, row4: Row, c: int, carry: string, budget: nat)
    ensures var r := ScanMonthCols(row2, row4, c, carry, budget);
      (forall k :: 0 <= k < |r| - 1 ==> r[k].year == YearLookup(row2, r[k].colIdx).GetOr(r[k + 1].year)) &&
      (|r| > 0 ==> r[|r| - 1].year == YearLookup(row2, r[|r| - 1].colIdx).GetOr(carry))
    decreases if c < 0 then 0 else c + 1
  {
    if c >= 0 && budget > 0 {
      match MonthPrefix(TextAt(row4, c))
      case None =>
        ScanCarriesYear(row2, row4, c - 1, carry, budget);
      case Some(m) =>
        var year := YearLookup(row2, c).GetOr(carry);
        ScanCarriesYear(row2, row4, c - 1, year, budget - 1);
        var r' := ScanMonthCols(row2, row4, c - 1, year, budget - 1);
        ScanStep(row2, row4, c, carry, budget);
        CarryAppend(row2, r', MonthColumn(c, year, m), carry);
    }
  }

  /** Appending a column whose year is its own label or `carry` keeps the years carried. */
  lemma CarryAppend(row2: Row, r: seq<MonthColumn>, e: MonthColumn, carry: string)
    requires forall k :: 0 <= k < |r| - 1 ==> r[k].year == YearLookup(row2, r[k].colIdx).GetOr(r[k + 1].year)
    requires |r| > 0 ==> r[|r| - 1].year == YearLookup(row2, r[|r| - 1].colIdx).GetOr(e.year)
    requires e.year == YearLookup(row2, e.colIdx).GetOr(carry)
    ensures var r2 := r + [e];
      (forall k :: 0 <= k < |r2| - 1 ==> r2[k].year == YearLookup(row2, r2[k].colIdx).GetOr(r2[k + 1].year)) &&
      r2[|r2| - 1].year == YearLookup(row2, r2[|r2| - 1].colIdx).GetOr(carry)
  {
    var r2 := r + [e];
    forall k | 0 <= k < |r2| - 1
      ensures r2[k].year == YearLookup(row2, r2[k].colIdx).GetOr(r2[k + 1].year)
    {
      assert r2[k] == r[k];
      if k < |r| - 1 {
        assert r2[k + 1] == r[k + 1];
      }
    }
  }

  /** The right-to-left collection loop, `unshift`ing each month column it meets. */
  method CollectMonthCols(grid: Grid, latest: int) returns (monthCols: seq<MonthColumn>)
    ensures monthCols == MonthColumns(grid, latest)
  {
    var row2 := RowAt(grid, YearRow);
    var row4 := RowAt(grid, MonthRow);
    monthCols := [];
    var currentYear := "";
    var colIdx := latest;
    while colIdx >= 0 && |monthCols| < MaxMonths
      invariant |monthCols| <= MaxMonths
      invariant MonthColumns(grid, latest) ==
        ScanMonthCols(row2, row4, colIdx, currentYear, MaxMonths - |monthCols|) + monthCols
      decreases colIdx + 1
    {
      var monthMatch := MonthPrefix(TextAt(row4, colIdx));
      CollectStep(row2, row4, colIdx, currentYear, MaxMonths - |monthCols|, monthCols);
      if monthMatch.Some? {
        var y := FindYear(row2, colIdx);
        var year := y.GetOr(currentYear);
        currentYear := year;
        monthCols := [MonthColumn(colIdx, year, monthMatch.value)] + monthCols;
      }
      colIdx := colIdx - 1;
    }
  }

  // ---------------------------------------------------------------------------
  // The record of one month column

  /** The amounts read for one column: the seven items the record is built from. */
  datatype ItemValues = ItemValues(sales: real, cost: real, labor: real, opCF: real, rent: real, lease: real, fee: real)

  function ValuesAt(grid: Grid, items: map<string, nat>, col: int): ItemValues {
    ItemValues(
      GetVal(grid, RowOf(items, "売上"), col),
      GetVal(grid, RowOf(items, "原価"), col),
      GetVal(grid, RowOf(items, "人件費"), col),
      GetVal(grid, RowOf(items, "営業CF"), col),
      GetVal(grid, RowOf(items, "地代家賃"), col),
      GetVal(grid, RowOf(items, "リース料"), col),
      GetVal(grid, RowOf(items, "支払手数料"), col))
  }

  /** `part` as a percentage of `sales`, 0 unless sales are positive. */
  function Percent(part: real, sales: real): (p: real)
    ensures sales <= 0.0 ==> p == 0.0
    ensures sales > 0.0 ==> p * sales == part * 100.0
  {
    if sales > 0.0 then part / sales * 100.0 else 0.0
  }

  /** `${year.slice(2)}/${month}月` when the year is non-empty, else `${month}月`. */
  function MonthLabel(year: string, month: string): (s: string)
    ensures year != "" ==> s == Drop(year, 2) + "/" + month + "月"
    ensures year == "" ==> s == month + "月"
  {
    if year == "" then month + "月" else Drop(year, 2) + "/" + month + "月"
  }

  /** The record built for one month column from its item amounts. */
  function Derive(mc: MonthColumn, v: ItemValues): (r: MonthlyRecord)
    ensures r.month == MonthLabel(mc.year, mc.month) && r.momTrend == "-"
  {
    var profitRate := Percent(v.opCF, v.sales);
    var fRate := Percent(v.cost, v.sales);
    var lRate := Percent(v.labor, v.sales);
    var rRate := Percent(v.rent + v.lease + v.fee, v.sales);
    var flrTotal := fRate + lRate + rRate;
    MonthlyRecord(
      MonthLabel(mc.year, mc.month),
      Round(v.sales / 1000.0),
      Round(v.cost / 1000.0),
      Round(v.labor / 1000.0),
      Round(v.opCF / 1000.0),
      Round1(profitRate),
      Round1(fRate),
      Round1(lRate),
      Round1(rRate),
      Round1(flrTotal),
      "-")
  }

  /** Amounts are whole thousands, each within 500 of the amount read. */
  lemma DeriveAmounts(mc: MonthColumn, v: ItemValues)
    ensures var r := Derive(mc, v);
      v.sales - 500.0 < r.sales * 1000.0 <= v.sales + 500.0 && r.sales == r.sales.Floor as real &&
      v.cost - 500.0 < r.cost * 1000.0 <= v.cost + 500.0 && r.cost == r.cost.Floor as real &&
      v.labor - 500.0 < r.laborCost * 1000.0 <= v.labor + 500.0 && r.laborCost == r.laborCost.Floor as real &&
      v.opCF - 500.0 < r.operatingCF * 1000.0 <= v.opCF + 500.0 && r.operatingCF == r.operatingCF.Floor as real
  {
    var r := Derive(mc, v);
    assert r.sales == Round(v.sales / 1000.0);
    assert r.cost == Round(v.cost / 1000.0);
    assert r.laborCost == Round(v.labor / 1000.0);
    assert r.operatingCF == Round(v.opCF / 1000.0);
  }

  /** Without positive sales every rate is 0: nothing is divided by zero. */
  lemma DeriveZeroSales(mc: MonthColumn, v: ItemValues)
    requires v.sales <= 0.0
    ensures var r := Derive(mc, v);
      r.profitRate == 0.0 && r.fCostRate == 0.0 && r.lCostRate == 0.0 && r.rCostRate == 0.0 && r.flrTotal == 0.0
  {
    assert Round1(0.0) == 0.0 by { assert (0.5).Floor == 0; }
  }

  /** Shares of sales add up: the share of a sum is the sum of the shares. */
  lemma PercentAdditive(a: real, b: real, sales: real)
    ensures Percent(a, sales) + Percent(b, sales) == Percent(a + b, sales)
  {
    if sales > 0.0 {
      var pa, pb, pab := Percent(a, sales), Percent(b, sales), Percent(a + b, sales);
      assert (pa + pb) * sales == pab * sales;
    }
  }

  /**
   * Each rate is the item's share of sales in percent, to one decimal; the R rate is the
   * share of rent, lease and fees together, and the FLR total the share of cost, labor,
   * rent, lease and fees together, rounded once.
   */
  lemma DeriveRates(mc: MonthColumn, v: ItemValues)
    ensures var r := Derive(mc, v);
      r.profitRate == Round1(Percent(v.opCF, v.sales)) &&
      r.fCostRate == Round1(Percent(v.cost, v.sales)) &&
      r.lCostRate == Round1(Percent(v.labor, v.sales)) &&
      r.rCostRate == Round1(Percent(v.rent + v.lease + v.fee, v.sales)) &&
      r.flrTotal == Round1(Percent(v.cost + v.labor + v.rent + v.lease + v.fee, v.sales))
  {
    PercentAdditive(v.cost, v.labor, v.sales);
    PercentAdditive(v.cost + v.labor, v.rent + v.lease + v.fee, v.sales);
    assert v.cost + v.labor + (v.rent + v.lease + v.fee) == v.cost + v.labor + v.rent + v.lease + v.fee;
  }

  /** A column with no rent, lease or fee amounts has an R rate of 0. */
  lemma DeriveNoFixedCosts(mc: MonthColumn, v: ItemValues)
    requires v.rent + v.lease + v.fee == 0.0
    ensures Derive(mc, v).rCostRate == 0.0
  {
    assert Round1(0.0) == 0.0 by { assert (0.5).Floor == 0; }
  }

  /** The FLR total is the rounded sum of the unrounded rates: within 0.2 of the stored rates' sum. */
  lemma FlrTotalNearRateSum(mc: MonthColumn, v: ItemValues)
    ensures var r := Derive(mc, v);
      r.fCostRate + r.lCostRate + r.rCostRate - 0.2 < r.flrTotal < r.fCostRate + r.lCostRate + r.rCostRate + 0.2
  {
    var r := Derive(mc, v);
    if v.sales > 0.0 {
      var fRate := Percent(v.cost, v.sales);
      var lRate := Percent(v.labor, v.sales);
      var rRate := Percent(v.rent + v.lease + v.fee, v.sales);
      assert r.fCostRate == Round1(fRate) && r.lCostRate == Round1(lRate) && r.rCostRate == Round1(rRate);
      assert r.flrTotal == Round1(fRate + lRate + rRate);
    }
  }

  /**
   * ...and not always equal to it: sales 10000 with cost and labor 1004 each store
   * F and L rates of 10.0 but an FLR total of 20.1.
   */
  lemma FlrTotalDiffersFromRateSum()
    ensures var r := Derive(MonthColumn(5, "2025", "1"), ItemValues(10000.0, 1004.0, 1004.0, 0.0, 0.0, 0.0, 0.0));
      r.fCostRate == 10.0 && r.lCostRate == 10.0 && r.rCostRate == 0.0 && r.flrTotal == 20.1
  {
    var r := Derive(MonthColumn(5, "2025", "1"), ItemValues(10000.0, 1004.0, 1004.0, 0.0, 0.0, 0.0, 0.0));
    var p, z, t := Percent(1004.0, 10000.0), Percent(0.0, 10000.0), Percent(2008.0, 10000.0);
    assert p == 10.04 && z == 0.0 && t == 20.08;
    Round1Is(p, 100);
    Round1Is(z, 0);
    Round1Is(p + p + z, 201);
  }

  /** The records `extractMonthlyRecords` returns. */
  function MonthlyRecords(grid: Grid, labelCol: nat, latest: int): seq<MonthlyRecord> {
    var items := ItemRowMap(grid, labelCol);
    MapSeq(MonthColumns(grid, latest), mc => ColumnRecord(grid, items, mc))
  }

  /** The record of one month column, from the amounts its item rows hold there. */
  function ColumnRecord(grid: Grid, items: map<string, nat>, mc: MonthColumn): MonthlyRecord {
    Derive(mc, ValuesAt(grid, items, mc.colIdx))
  }

  /**
   * At most 13 records, one per collected month column, oldest first; when the latest
   * column is itself a month column the last record is its record.
   */
  lemma MonthlyRecordsShape(grid: Grid, labelCol: nat, latest: int)
    ensures var recs := MonthlyRecords(grid, labelCol, latest); var cols := MonthColumns(grid, latest);
      |recs| == |cols| <= 13 &&
      (forall k :: 0 <= k < |recs| ==> recs[k].month == MonthLabel(cols[k].year, cols[k].month))
    ensures latest >= 0 && IsMonthCol(RowAt(grid, MonthRow), latest) ==>
      var recs := MonthlyRecords(grid, labelCol, latest);
      |recs| > 0 &&
      recs[|recs| - 1].month ==
        MonthLabel(YearText(RowAt(grid, YearRow), latest), MonthPrefix(TextAt(RowAt(grid, MonthRow), latest)).value)
  {
    if latest >= 0 && IsMonthCol(RowAt(grid, MonthRow), latest) {
      ScanEndsAtStart(RowAt(grid, YearRow), RowAt(grid, MonthRow), latest, "", MaxMonths);
    }
  }

  /** `extractMonthlyRecords`. */
  method ExtractMonthlyRecords(grid: Grid, labelCol: nat, latest: int) returns (records: seq<MonthlyRecord>)
    ensures records == MonthlyRecords(grid, labelCol, latest)
  {
    var items := BuildItemRowMap(grid, labelCol);
    var cols := CollectMonthCols(grid, latest);
    records := [];
    for k := 0 to |cols|
      invariant |records| == k
      invariant forall i :: 0 <= i < k ==> records[i] == ColumnRecord(grid, items, cols[i])
    {
      records := records + [Derive(cols[k], ValuesAt(grid, items, cols[k].colIdx))];
    }
  }

  // ---------------------------------------------------------------------------
  // Summary and year-over-year block of parseXlsxToReportData

  /** The label test of the `find` for the same month a year earlier. */
  predicate IsPrevYearOf(m: MonthlyRecord, year: string, month: string) {
    Contains(m.month, "/" + month + "月") && !StartsWith(m.month, Drop(year, 2))
  }

  /** The index `find` stops at, or -1. */
  function PrevYearIndex(monthly: seq<MonthlyRecord>, year: string, month: string): (k: int)
    ensures k == -1 || 0 <= k < |monthly|
    ensures k >= 0 ==> IsPrevYearOf(monthly[k], year, month)
    ensures k >= 0 ==> forall i :: 0 <= i < k ==> !IsPrevYearOf(monthly[i], year, month)
    ensures k == -1 ==> forall i :: 0 <= i < |monthly| ==> !IsPrevYearOf(monthly[i], year, month)
    decreases |monthly|
  {
    if monthly == [] then -1
    else if IsPrevYearOf(monthly[0], year, month) then 0
    else
      var k := PrevYearIndex(monthly[1..], year, month);
      if k < 0 then -1 else k + 1
  }

  /** `monthly.find(...)` for the record of the same month with another year. */
  function FindPrevYear(monthly: seq<MonthlyRecord>, year: string, month: string): Option<MonthlyRecord> {
    var k := PrevYearIndex(monthly, year, month);
    if k < 0 then None else Some(monthly[k])
  }

  /** With an empty year every label starts with `year.slice(2)`, so nothing is found. */
  lemma PrevYearNeedsYear(monthly: seq<MonthlyRecord>, month: string)
    ensures FindPrevYear(monthly, "", month) == None
  {
    forall i | 0 <= i < |monthly| ensures !IsPrevYearOf(monthly[i], "", month) {
      assert StartsWith(monthly[i].month, "");
    }
  }

  /** The record found never carries the label of the latest month itself. */
  lemma PrevYearIsNotLatest(monthly: seq<MonthlyRecord>, year: string, month: string)
    ensures FindPrevYear(monthly, year, month).Some? ==>
      FindPrevYear(monthly, year, month).value.month != MonthLabel(year, month)
  {
    var own := MonthLabel(year, month);
    if year != "" {
      assert own[..|Drop(year, 2)|] == Drop(year, 2);
      assert StartsWith(own, Drop(year, 2));
    } else {
      PrevYearNeedsYear(monthly, month);
    }
  }

  /** A change between two rates to one decimal, as `Math.round((a - b) * 10) / 10`. */
  function RateChange(current: real, previous: real): (d: real)
    ensures current - previous - 0.05 < d <= current - previous + 0.05
  {
    Round1(current - previous)
  }

  /** Between two rates already rounded to one decimal the change is exact. */
  lemma RateChangeOfRoundedRates(a: real, b: real)
    requires a * 10.0 == (a * 10.0).Floor as real && b * 10.0 == (b * 10.0).Floor as real
    ensures RateChange(a, b) == a - b
  {
    var k := (a * 10.0).Floor - (b * 10.0).Floor;
    assert a - b == k as real / 10.0;
    Round1OfTenths(k);
  }

  /** `Math.round(change / base * 1000) / 10`: a growth in percent to one decimal, 0 without a positive base. */
  function GrowthRate(current: real, base: real): (g: real)
    ensures base <= 0.0 ==> g == 0.0
    ensures base > 0.0 ==> (current - base) / base * 100.0 - 0.05 < g <= (current - base) / base * 100.0 + 0.05
    ensures base > 0.0 && current >= base ==> g >= 0.0
    ensures base > 0.0 && current < base ==> g <= 0.0
  {
    if base > 0.0 then
      var x := (current - base) / base * 1000.0;
      assert current >= base ==> x >= 0.0;
      assert current < base ==> x < 0.0;
      RoundSign(x);
      Round(x) / 10.0
    else 0.0
  }

  /** The baselines of the comparison: the previous-year record's amounts and rate, or 0. */
  function PrevSales(prev: Option<MonthlyRecord>): real { if prev.Some? then prev.value.sales * 1000.0 else 0.0 }
  function PrevCF(prev: Option<MonthlyRecord>): real { if prev.Some? then prev.value.operatingCF * 1000.0 else 0.0 }
  function PrevProfit(prev: Option<MonthlyRecord>): real { if prev.Some? then prev.value.profitRate else 0.0 }

  /** `prevYoyProfit ? round1(latest - prev) : 0`. */
  function ProfitRateChange(latest: MonthlyRecord, prev: Option<MonthlyRecord>): real {
    if PrevProfit(prev) != 0.0 then RateChange(latest.profitRate, PrevProfit(prev)) else 0.0
  }

  /** The `summary` object. */
  function SummaryFor(latest: MonthlyRecord, prev: Option<MonthlyRecord>): (s: SummaryData)
    ensures s.sales == latest.sales * 1000.0 && s.operatingCF == latest.operatingCF * 1000.0
    ensures s.operatingProfitRate == latest.profitRate && s.fCostRate == latest.fCostRate &&
      s.flrCostRate == latest.flrTotal
    ensures s.salesYoyLabel != NoLabel <==> prev.Some? && prev.value.sales > 0.0
    ensures s.salesYoyLabel != NoLabel ==>
      s.salesYoyLabel.VersusSameMonth? &&
      (s.salesYoyLabel.percent > 0.0 <==> latest.sales > prev.value.sales) &&
      (s.salesYoyLabel.percent == 0.0 <==> latest.sales == prev.value.sales)
    ensures prev.None? ==> s.profitRateYoyChange == 0.0 && s.fCostRateChange == 0.0 && s.flrCostRateChange == 0.0
    ensures prev.Some? ==>
      latest.fCostRate - prev.value.fCostRate - 0.05 < s.fCostRateChange <= latest.fCostRate - prev.value.fCostRate + 0.05 &&
      latest.flrTotal - prev.value.flrTotal - 0.05 < s.flrCostRateChange <= latest.flrTotal - prev.value.flrTotal + 0.05
    ensures prev.Some? && prev.value.profitRate == 0.0 ==> s.profitRateYoyChange == 0.0
    ensures prev.Some? && prev.value.profitRate != 0.0 ==>
      var d := latest.profitRate - prev.value.profitRate;
      d - 0.05 < s.profitRateYoyChange <= d + 0.05
    ensures s.salesYoyLabel != NoLabel ==>
      s.salesYoyLabel.percent * (prev.value.sales * 1000.0) == (latest.sales - prev.value.sales) * 1000.0 * 100.0
  {
    var prevSales := PrevSales(prev);
    var curSales := latest.sales * 1000.0;
    var yoyLabel :=
      if prevSales > 0.0 then
        var pct := (curSales - prevSales) / prevSales * 100.0;
        assert pct * prevSales == (curSales - prevSales) * 100.0;
        VersusSameMonth(pct)
      else NoLabel;
    SummaryData(
      curSales,
      yoyLabel,
      latest.profitRate,
      ProfitRateChange(latest, prev),
      latest.operatingCF * 1000.0,
      latest.fCostRate,
      if prev.Some? then RateChange(latest.fCostRate, prev.value.fCostRate) else 0.0,
      latest.flrTotal,
      if prev.Some? then RateChange(latest.flrTotal, prev.value.flrTotal) else 0.0)
  }

  /** The `yoyComparison` object. */
  function YoyFor(latest: MonthlyRecord, prev: Option<MonthlyRecord>): (y: YoyComparison)
    ensures prev.None? ==> y.previousYear == YoyRow(0.0, 0.0, 0.0)
    ensures y.currentYear == YoyRow(latest.sales * 1000.0, latest.operatingCF * 1000.0, latest.profitRate)
    ensures y.change.salesAmount == y.currentYear.sales - y.previousYear.sales
    ensures y.change.cfAmount == y.currentYear.operatingCF - y.previousYear.operatingCF
    ensures y.previousYear.sales <= 0.0 ==> y.change.salesRate == 0.0
    ensures y.previousYear.operatingCF <= 0.0 ==> y.change.cfRate == 0.0
    ensures y.previousYear.sales > 0.0 && latest.sales * 1000.0 >= y.previousYear.sales ==> y.change.salesRate >= 0.0
    ensures y.previousYear.sales > 0.0 && latest.sales * 1000.0 < y.previousYear.sales ==> y.change.salesRate <= 0.0
    ensures prev.Some? ==>
      y.previousYear == YoyRow(prev.value.sales * 1000.0, prev.value.operatingCF * 1000.0, prev.value.profitRate)
    ensures y.previousYear.sales > 0.0 ==>
      var pct := (y.currentYear.sales - y.previousYear.sales) / y.previousYear.sales * 100.0;
      pct - 0.05 < y.change.salesRate <= pct + 0.05
    ensures y.previousYear.operatingCF > 0.0 ==>
      var pct := (y.currentYear.operatingCF - y.previousYear.operatingCF) / y.previousYear.operatingCF * 100.0;
      pct - 0.05 < y.change.cfRate <= pct + 0.05
    ensures y.previousYear.operatingCF > 0.0 && y.currentYear.operatingCF >= y.previousYear.operatingCF ==> y.change.cfRate >= 0.0
    ensures y.previousYear.operatingCF > 0.0 && y.currentYear.operatingCF < y.previousYear.operatingCF ==> y.change.cfRate <= 0.0
    ensures prev.Some? && prev.value.profitRate != 0.0 ==>
      var d := latest.profitRate - prev.value.profitRate;
      d - 0.05 < y.change.profitRateChange <= d + 0.05
    ensures prev.None? || prev.value.profitRate == 0.0 ==> y.change.profitRateChange == 0.0
  {
    var prevSales, prevCF := PrevSales(prev), PrevCF(prev);
    var curSales, curCF := latest.sales * 1000.0, latest.operatingCF * 1000.0;
    YoyComparison(
      YoyRow(prevSales, prevCF, PrevProfit(prev)),
      YoyRow(curSales, curCF, latest.profitRate),
      YoyChange(
        curSales - prevSales,
        GrowthRate(curSales, prevSales),
        curCF - prevCF,
        GrowthRate(curCF, prevCF),
        ProfitRateChange(latest, prev)))
  }

  /** The comparison table and the summary report the same profit-rate change. */
  lemma SummaryAgreesWithYoy(latest: MonthlyRecord, prev: Option<MonthlyRecord>)
    ensures SummaryFor(latest, prev).profitRateYoyChange == YoyFor(latest, prev).change.profitRateChange
    ensures SummaryFor(latest, prev).sales == YoyFor(latest, prev).currentYear.sales
  {
  }

  /** The comment every freshly loaded report starts with. */
  function DefaultComment(storeName: string, year: string, month: string): CommentSection {
    CommentSection("default-1", "データ取得完了",
      storeName + " " + year + "年" + month + "月のPLデータを読み込みました。AIコメント生成ボタンで分析コメントを生成できます。")
  }

  /** The report returned once the records exist; `createdDate` is the caller's formatted date. */
  function AssembleReport(storeName: string, createdDate: string, lm: LatestMonth, monthly: seq<MonthlyRecord>): (rd: ReportData)
    requires |monthly| > 0
    ensures rd.monthlyTrend == monthly && rd.storeName == storeName && rd.createdDate == createdDate
    ensures rd.reportMonth == lm.year + "年" + lm.month + "月" && rd.reportPeriod == rd.reportMonth + "度"
    ensures rd.comments == [DefaultComment(storeName, lm.year, lm.month)] && rd.deletedComments == []
    ensures rd.summary.sales == monthly[|monthly| - 1].sales * 1000.0
  {
    var latest := monthly[|monthly| - 1];
    var prev := FindPrevYear(monthly, lm.year, lm.month);
    var reportMonth := lm.year + "年" + lm.month + "月";
    ReportData(
      storeName, reportMonth, reportMonth + "度", createdDate,
      SummaryFor(latest, prev), YoyFor(latest, prev), monthly,
      [DefaultComment(storeName, lm.year, lm.month)], [])
  }

  datatype ParseError = SheetNotFound(sheetName: string) | LatestMonthNotFound

  /** A workbook: its sheets by name, each as rows of raw cell values. */
  type Workbook = map<string, seq<seq<RawValue>>>

  /** What `parseXlsxToReportData` returns or throws for a loaded grid. */
  function ParseGrid(grid: Grid, storeName: string, createdDate: string): Result<ReportData, ParseError> {
    var labelCol := LabelColumn(grid);
    var lm := LatestMonthColumn(grid);
    if lm.colIdx < 0 then Err(LatestMonthNotFound)
    else
      LatestMonthIsRightmostActual(grid);
      MonthlyRecordsShape(grid, labelCol, lm.colIdx);
      Ok(AssembleReport(storeName, createdDate, lm, MonthlyRecords(grid, labelCol, lm.colIdx)))
  }

  /** A parse fails exactly when no month column is marked actual or blank. */
  lemma ParseGridFails(grid: Grid, storeName: string, createdDate: string)
    ensures ParseGrid(grid, storeName, createdDate).Err? <==>
      forall i :: 0 <= i < |RowAt(grid, MonthRow)| ==> !Qualifies(grid, i)
  {
    LatestMonthIsRightmostActual(grid);
  }

  /**
   * A successful parse holds 1 to 13 records ending with the latest month's, its summary
   * is that record's, and no record has a trend yet.
   */
  lemma ParseGridSeries(grid: Grid, storeName: string, createdDate: string)
    requires ParseGrid(grid, storeName, createdDate).Ok?
    ensures var rd := ParseGrid(grid, storeName, createdDate).value;
      var lm := LatestMonthColumn(grid);
      var n := |rd.monthlyTrend|;
      1 <= n <= 13 &&
      rd.monthlyTrend[n - 1].month == MonthLabel(lm.year, lm.month) &&
      rd.summary.sales == rd.monthlyTrend[n - 1].sales * 1000.0 &&
      rd.reportPeriod == lm.year + "年" + lm.month + "月度" &&
      (forall k :: 0 <= k < n ==> rd.monthlyTrend[k].momTrend == "-")
  {
    var lm := LatestMonthColumn(grid);
    var labelCol := LabelColumn(grid);
    var monthly := MonthlyRecords(grid, labelCol, lm.colIdx);
    ParseGridValue(grid, storeName, createdDate);
    LatestRecordLabel(grid, labelCol);
    AssembledSeries(storeName, createdDate, lm, monthly);
  }

  /** A successful parse is the report assembled from the records up to the latest month. */
  lemma ParseGridValue(grid: Grid, storeName: string, createdDate: string)
    requires ParseGrid(grid, storeName, createdDate).Ok?
    ensures var lm := LatestMonthColumn(grid); var monthly := MonthlyRecords(grid, LabelColumn(grid), lm.colIdx);
      lm.colIdx >= 0 && |monthly| > 0 &&
      ParseGrid(grid, storeName, createdDate).value == AssembleReport(storeName, createdDate, lm, monthly)
  {
    assert LatestMonthColumn(grid).colIdx >= 0;
    LatestRecordLabel(grid, LabelColumn(grid));
  }

  /** With a latest month found, its record is the last and carries its label. */
  lemma LatestRecordLabel(grid: Grid, labelCol: nat)
    requires LatestMonthColumn(grid).colIdx >= 0
    ensures var lm := LatestMonthColumn(grid); var monthly := MonthlyRecords(grid, labelCol, lm.colIdx);
      1 <= |monthly| <= 13 && monthly[|monthly| - 1].month == MonthLabel(lm.year, lm.month) &&
      forall k :: 0 <= k < |monthly| ==> monthly[k].momTrend == "-"
  {
    var lm := LatestMonthColumn(grid);
    var row4 := RowAt(grid, MonthRow);
    assert IsMonthCol(row4, lm.colIdx) && MonthPrefix(TextAt(row4, lm.colIdx)).value == lm.month &&
      lm.year == YearText(RowAt(grid, YearRow), lm.colIdx) by {
      LatestMonthIsRightmostActual(grid);
    }
    MonthlyRecordsShape(grid, labelCol, lm.colIdx);
  }

  /** The assembled report keeps the records, ends its period with 度 and takes its summary sales from the last record. */
  lemma AssembledSeries(storeName: string, createdDate: string, lm: LatestMonth, monthly: seq<MonthlyRecord>)
    requires |monthly| > 0
    ensures var rd := AssembleReport(storeName, createdDate, lm, monthly);
      rd.monthlyTrend == monthly &&
      rd.reportPeriod == lm.year + "年" + lm.month + "月度" &&
      rd.summary.sales == monthly[|monthly| - 1].sales * 1000.0
  {
    assert (lm.year + "年" + lm.month + "月") + "度" == lm.year + "年" + lm.month + "月度";
  }

  /** `parseXlsxToReportData` from the workbook on: sheet lookup, grid window, detection, records, assembly. */
  method ParseXlsxToReportData(workbook: Workbook, sheetName: string, storeName: string, createdDate: string)
    returns (result: Result<ReportData, ParseError>)
    ensures sheetName !in workbook ==> result == Err(SheetNotFound(sheetName))
    ensures sheetName in workbook ==> result == ParseGrid(LoadGrid(workbook[sheetName]), storeName, createdDate)
  {
    if sheetName !in workbook {
      return Err(SheetNotFound(sheetName));
    }
    var grid := LoadGrid(workbook[sheetName]);
    var labelCol := DetectLabelCol(grid);
    var lm := DetectLatestMonthCol(grid);
    if lm.colIdx < 0 {
      return Err(LatestMonthNotFound);
    }
    var monthly := ExtractMonthlyRecords(grid, labelCol, lm.colIdx);
    LatestMonthIsRightmostActual(grid);
    MonthlyRecordsShape(grid, labelCol, lm.colIdx);
    var latest := monthly[|monthly| - 1];
    var prev := FindPrevYear(monthly, lm.year, lm.month);
    var reportMonth := lm.year + "年" + lm.month + "月";
    var report := ReportData(
      storeName, reportMonth, reportMonth + "度", createdDate,
      SummaryFor(latest, prev), YoyFor(latest, prev), monthly,
      [DefaultComment(storeName, lm.year, lm.month)], []);
    return Ok(report);
  }
}
