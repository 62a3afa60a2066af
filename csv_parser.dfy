/**
 * The CSV path (`src/utils/csvParser.ts`): text to rows of cells, rows to monthly records,
 * month-over-month FLR trends, and the summary and year-over-year block of the last month
 * against the average of the earlier months and the record twelve months before.
 */
module CsvParser {
  import opened Wrappers
  import opened Text
  import opened Numeric
  import opened Report

  // ---------------------------------------------------------------------------
  // parseCSVToRows

  /** A piece before a line feed with the carriage return of a `\r\n` removed. */
  function DropCarriageReturn(line: string): (r: string)
    ensures |line| > 0 && line[|line| - 1] == '\r' ==> r == line[..|line| - 1]
    ensures !(|line| > 0 && line[|line| - 1] == '\r') ==> r == line
  {
    if |line| > 0 && line[|line| - 1] == '\r' then line[..|line| - 1] else line
  }

  /** `text.split(/\r?\n/)`. */
  function SplitLines(text: string): (lines: seq<string>)
    ensures |lines| == multiset(text)['\n'] + 1
    ensures forall i :: 0 <= i < |lines| ==> '\n' !in lines[i]
  {
    var pieces := Split(text, '\n');
    SplitJoin(text, '\n');
    seq(|pieces|, i requires 0 <= i < |pieces| =>
      if i < |pieces| - 1 then DropCarriageReturn(pieces[i]) else pieces[i])
  }

  /** Every character of a piece of `s` occurs in `s`. */
  lemma {:induction false} SplitPiecesFromText(s: string, sep: char, i: int, c: char)
    requires 0 <= i < |Split(s, sep)| && c in Split(s, sep)[i]
    ensures c in s
    decreases |s|
  {
    if sep in s {
      var k := FirstIndex(s, sep);
      var rest := s[k + 1..];
      assert Split(s, sep) == [s[..k]] + Split(rest, sep);
      if i == 0 {
        var j :| 0 <= j < k && s[..k][j] == c;
        assert s[j] == c;
      } else {
        assert Split(s, sep)[i] == Split(rest, sep)[i - 1];
        SplitPiecesFromText(rest, sep, i - 1, c);
        var j :| 0 <= j < |rest| && rest[j] == c;
        assert s[k + 1 + j] == c;
      }
    }
  }

  /** Text without carriage returns splits into its lines and joins back to itself. */
  lemma SplitLinesJoin(text: string)
    requires '\r' !in text
    ensures SplitLines(text) == Split(text, '\n')
    ensures Join(SplitLines(text), '\n') == text
  {
    var pieces := Split(text, '\n');
    forall i | 0 <= i < |pieces| ensures DropCarriageReturn(pieces[i]) == pieces[i] {
      if |pieces[i]| > 0 && pieces[i][|pieces[i]| - 1] == '\r' {
        SplitPiecesFromText(text, '\n', i, '\r');
        assert false;
      }
    }
    SplitJoin(text, '\n');
  }

  /** `cell.replace(/^"|"$/g, '')`: one leading and one trailing double quote removed. */
  function StripQuotes(c: string): (r: string)
    ensures |r| <= |c|
    ensures |c| > 0 && c[0] == '"' && |c| > 1 && c[|c| - 1] == '"' ==> r == c[1..|c| - 1]
    ensures |c| > 0 && c[0] == '"' && !(|c| > 1 && c[|c| - 1] == '"') ==> r == c[1..]
    ensures !(|c| > 0 && c[0] == '"') && |c| > 0 && c[|c| - 1] == '"' ==> r == c[..|c| - 1]
    ensures !(|c| > 0 && c[0] == '"') && !(|c| > 0 && c[|c| - 1] == '"') ==> r == c
  {
    var lead := if |c| > 0 && c[0] == '"' then 1 else 0;
    var trail := if |c| > lead && c[|c| - 1] == '"' then 1 else 0;
    c[lead..|c| - trail]
  }

  /** A cell with neither a leading nor a trailing quote is left as it is. */
  lemma StripQuotesUnquoted(c: string)
    requires |c| == 0 || (c[0] != '"' && c[|c| - 1] != '"')
    ensures StripQuotes(c) == c
  {
  }

  function ParseCell(cell: string): string {
    StripQuotes(Trim(cell))
  }

  function ParseLine(line: string): seq<string> {
    var cells := Split(line, ',');
    seq(|cells|, k requires 0 <= k < |cells| => ParseCell(cells[k]))
  }

  /** `parseCSVToRows`. */
  function ParseCsvToRows(csvText: string): seq<seq<string>> {
    var lines := SplitLines(Trim(csvText));
    seq(|lines|, i requires 0 <= i < |lines| => ParseLine(lines[i]))
  }

  /**
   * One row per line of the trimmed text, and each row has one cell more than its line
   * has commas; each cell is the trimmed piece without its enclosing quotes.
   */
  lemma ParseCsvToRowsShape(csvText: string)
    ensures var rows := ParseCsvToRows(csvText); var lines := SplitLines(Trim(csvText));
      |rows| == |lines| == multiset(Trim(csvText))['\n'] + 1 &&
      forall i :: 0 <= i < |rows| ==>
        |rows[i]| == multiset(lines[i])[','] + 1 &&
        forall k :: 0 <= k < |rows[i]| ==> rows[i][k] == StripQuotes(Trim(Split(lines[i], ',')[k]))
  {
    var lines := SplitLines(Trim(csvText));
    forall i | 0 <= i < |lines| ensures |Split(lines[i], ',')| == multiset(lines[i])[','] + 1 {
      SplitJoin(lines[i], ',');
    }
  }

  // ---------------------------------------------------------------------------
  // rowsToMonthlyRecords

  /** `row[k]`, with a missing cell read as the empty text (`parseFloat(undefined)` is NaN, read as 0). */
  function Field(row: seq<string>, k: nat): string {
    if k < |row| then row[k] else ""
  }

  /** `parseFloat(row[k]) || 0`. */
  function NumberField(row: seq<string>, k: nat): real {
    ParseOrZero(Field(row, k))
  }

  /** Columns `k` to 8 of a row, each read with `parseFloat(row[k]) || 0`. */
  function NumberFieldsFrom(row: seq<string>, k: nat): (v: seq<real>)
    requires k <= 9
    ensures |v| == 9 - k
    decreases 9 - k
  {
    if k == 9 then [] else [NumberField(row, k)] + NumberFieldsFrom(row, k + 1)
  }

  lemma {:induction false} NumberFieldsFromAt(row: seq<string>, k: nat, i: nat)
    requires k + i < 9
    ensures NumberFieldsFrom(row, k)[i] == NumberField(row, k + i)
    decreases i
  {
    if i > 0 {
      NumberFieldsFromAt(row, k + 1, i - 1);
    }
  }

  /** The eight numeric columns after the month. */
  function NumberFields(row: seq<string>): (v: seq<real>)
    ensures |v| == 8
  {
    NumberFieldsFrom(row, 1)
  }

  /** A record from its month and its eight numbers; the FLR total rounds the sum of the three rates. */
  function RecordOf(month: string, v: seq<real>): MonthlyRecord
    requires |v| == 8
  {
    MonthlyRecord(month, v[0], v[1], v[2], v[3], v[4], v[5], v[6], v[7], Round1(v[5] + v[6] + v[7]), "-")
  }

  /** The record of one data row. */
  function RowToRecord(row: seq<string>): MonthlyRecord {
    RecordOf(Field(row, 0), NumberFields(row))
  }

  /** `rowsToMonthlyRecords`: the header row dropped, one record per remaining row. */
  function RowsToMonthlyRecords(rows: seq<seq<string>>): (records: seq<MonthlyRecord>)
    ensures |records| == if |rows| == 0 then 0 else |rows| - 1
    ensures forall i :: 1 <= i < |rows| ==> records[i - 1] == RowToRecord(rows[i])
  {
    if |rows| == 0 then [] else MapSeq(rows[1..], RowToRecord)
  }

  /**
   * Every field of a record comes from its place among the eight numbers, the trend is "-",
   * and the FLR total is the stored rates' sum to one decimal.
   */
  lemma RecordOfFields(month: string, v: seq<real>)
    requires |v| == 8
    ensures var r := RecordOf(month, v);
      r.month == month && r.momTrend == "-" &&
      r.sales == v[0] && r.cost == v[1] && r.laborCost == v[2] && r.operatingCF == v[3] && r.profitRate == v[4] &&
      r.fCostRate == v[5] && r.lCostRate == v[6] && r.rCostRate == v[7] &&
      r.flrTotal == Round1(r.fCostRate + r.lCostRate + r.rCostRate)
  {
  }

  /**
   * The record of a row: the month from column 0, each number from its own column (an
   * unparsable or missing cell as 0), and the FLR total the stored rates' sum to one decimal.
   */
  lemma RowToRecordFields(row: seq<string>)
    ensures var r := RowToRecord(row);
      r.month == Field(row, 0) && r.momTrend == "-" &&
      r.sales == NumberField(row, 1) && r.cost == NumberField(row, 2) && r.laborCost == NumberField(row, 3) &&
      r.operatingCF == NumberField(row, 4) && r.profitRate == NumberField(row, 5) &&
      r.fCostRate == NumberField(row, 6) && r.lCostRate == NumberField(row, 7) && r.rCostRate == NumberField(row, 8)
  {
    RecordOfFields(Field(row, 0), NumberFields(row));
    forall i | 0 <= i < 8 ensures NumberFields(row)[i] == NumberField(row, i + 1) {
      NumberFieldsFromAt(row, 1, i);
    }
  }

  /** The value of a one- or two-digit whole part and a one-digit fraction. */
  lemma ShortDecimal(whole: string, d: char)
    requires 1 <= |whole| <= 2 && AllDigits(whole) && IsDigit(d)
    ensures DecimalValue(whole, [d]) ==
      (if |whole| == 1 then DigitValue(whole[0]) else DigitValue(whole[0]) * 10 + DigitValue(whole[1])) as real
      + DigitValue(d) as real / 10.0
  {
    assert [d][1..] == [];
    assert FractionValue([d]) == DigitValue(d) as real / 10.0;
    if |whole| == 2 {
      assert whole[..1][..0] == [];
      assert DigitsValue(whole[..1]) == DigitValue(whole[0]);
    } else {
      assert whole[..0] == [];
      assert DigitsValue(whole) == DigitValue(whole[0]);
    }
  }

  /** A short decimal with one fraction digit reads as its tenths. */
  lemma TenthsText(s: string, whole: string, d: char, tenths: int)
    requires 1 <= |whole| <= 2 && AllDigits(whole) && IsDigit(d)
    requires tenths == (if |whole| == 1 then DigitValue(whole[0]) else DigitValue(whole[0]) * 10 + DigitValue(whole[1])) * 10 + DigitValue(d)
    requires s == whole + "." + [d]
    ensures ParseOrZero(s) == tenths as real / 10.0
  {
    ParseDecimal(whole, [d]);
    ShortDecimal(whole, d);
  }

  /** The three rate columns of the example row read as 28.7, 35.0 and 6.4. */
  lemma ExampleRates(f: string, l: string, r: string)
    requires f == "28.7" && l == "35.0" && r == "6.4"
    ensures ParseOrZero(f) == 28.7 && ParseOrZero(l) == 35.0 && ParseOrZero(r) == 6.4
  {
    TenthsText(f, "28", '7', 287);
    TenthsText(l, "35", '0', 350);
    TenthsText(r, "6", '4', 64);
  }

  /** A row whose rates read 28.7, 35.0 and 6.4 gets an FLR total of 70.1. */
  lemma FlrTotalExample(row: seq<string>)
    requires NumberField(row, 6) == 28.7 && NumberField(row, 7) == 35.0 && NumberField(row, 8) == 6.4
    ensures RowToRecord(row).flrTotal == 70.1
  {
    RowToRecordFields(row);
    Round1OfTenths(701);
    assert 28.7 + 35.0 + 6.4 == 701 as real / 10.0;
  }

  /** The data row of a CSV text whose rate cells are `28.7`, `35.0` and `6.4` gets an FLR total of 70.1. */
  lemma ExampleRow(row: seq<string>)
    requires |row| >= 9 && row[6] == "28.7" && row[7] == "35.0" && row[8] == "6.4"
    ensures RowToRecord(row).flrTotal == 70.1
  {
    ExampleRates(row[6], row[7], row[8]);
    FlrTotalExample(row);
  }

  // ---------------------------------------------------------------------------
  // calculateMomTrends

  const Improved := "改善"
  const Steady := "維持"
  const SlightlyWorse := "やや悪化"
  const Worse := "悪化"

  /** The trend label for a change `d` of the FLR total against the month before. */
  function Trend(d: real): (t: string)
    ensures t == Improved <==> d <= -0.5
    ensures t == Steady <==> -0.5 < d <= 0.5
    ensures t == SlightlyWorse <==> 0.5 < d <= 2.0
    ensures t == Worse <==> d > 2.0
  {
    if d <= -2.0 then Improved
    else if d <= -0.5 then Improved
    else if d <= 0.5 then Steady
    else if d <= 2.0 then SlightlyWorse
    else Worse
  }

  /** How bad a trend label is, from 0 (改善) to 3 (悪化). */
  function TrendRank(t: string): nat {
    if t == Improved then 0 else if t == Steady then 1 else if t == SlightlyWorse then 2 else 3
  }

  /** A larger rise of the FLR total never gets a better trend. */
  lemma TrendMonotonic(d1: real, d2: real)
    requires d1 <= d2
    ensures TrendRank(Trend(d1)) <= TrendRank(Trend(d2))
  {
  }

  /** `calculateMomTrends`. */
  function CalculateMomTrends(records: seq<MonthlyRecord>): (r: seq<MonthlyRecord>)
    ensures |r| == |records|
    ensures |r| > 0 ==> r[0] == records[0].(momTrend := "-")
    ensures forall i :: 0 < i < |r| ==>
      r[i] == records[i].(momTrend := Trend(records[i].flrTotal - records[i - 1].flrTotal))
  {
    seq(|records|, i requires 0 <= i < |records| =>
      if i == 0 then records[i].(momTrend := "-")
      else records[i].(momTrend := Trend(records[i].flrTotal - records[i - 1].flrTotal)))
  }

  /** Only the trend changes: every other field of every record is kept. */
  lemma MomTrendsKeepFields(records: seq<MonthlyRecord>)
    ensures var r := CalculateMomTrends(records);
      forall i :: 0 <= i < |r| ==> r[i].(momTrend := records[i].momTrend) == records[i]
  {
  }

  // ---------------------------------------------------------------------------
  // calculateSummary and calculateYoyComparison

  /**
   * Why the CSV path yields no usable report: no current record (the source reads a field
   * of `undefined` and throws), or an average over no earlier records (the source's
   * numbers become NaN).
   */
  datatype CsvError = NoCurrentRecord | NoEarlierRecords

  /**
   * `calculateSummary`: the averages run over every record but the last, whatever `idx`
   * is; the changes are taken against the record before `idx`.
   */
  function CalculateSummary(records: seq<MonthlyRecord>, idx: int): (r: Result<SummaryData, CsvError>)
    ensures r.Ok? <==> 0 <= idx < |records| && |records| >= 2
    ensures !(0 <= idx < |records|) ==> r == Err(NoCurrentRecord)
    ensures 0 <= idx < |records| && |records| < 2 ==> r == Err(NoEarlierRecords)
    ensures r.Ok? ==>
      var s := r.value; var cur := records[idx];
      var avgSales := Mean(Column(records[..|records| - 1], (r: MonthlyRecord) => r.sales));
      var avgProfitRate := Mean(Column(records[..|records| - 1], (r: MonthlyRecord) => r.profitRate));
      s.sales == cur.sales * 1000.0 && s.operatingCF == cur.operatingCF * 1000.0 &&
      s.operatingProfitRate == cur.profitRate && s.fCostRate == cur.fCostRate && s.flrCostRate == cur.flrTotal &&
      (s.salesYoyLabel == VersusAverage(None) <==> avgSales == 0.0) &&
      (avgSales != 0.0 ==>
         s.salesYoyLabel.VersusAverage? && s.salesYoyLabel.averagePercent.Some? &&
         s.salesYoyLabel.averagePercent.value * avgSales == (cur.sales - avgSales) * 100.0) &&
      cur.profitRate - avgProfitRate - 0.05 < s.profitRateYoyChange <= cur.profitRate - avgProfitRate + 0.05
    ensures r.Ok? && idx == 0 ==> r.value.fCostRateChange == 0.0 && r.value.flrCostRateChange == 0.0
    ensures r.Ok? && idx > 0 ==>
      var d := records[idx].fCostRate - records[idx - 1].fCostRate;
      var e := records[idx].flrTotal - records[idx - 1].flrTotal;
      d - 0.05 < r.value.fCostRateChange <= d + 0.05 && e - 0.05 < r.value.flrCostRateChange <= e + 0.05
  {
    if !(0 <= idx < |records|) then Err(NoCurrentRecord)
    else if |records| < 2 then Err(NoEarlierRecords)
    else
      var current := records[idx];
      var earlier := records[..|records| - 1];
      var avgSales := Mean(Column(earlier, (r: MonthlyRecord) => r.sales));
      var avgProfitRate := Mean(Column(earlier, (r: MonthlyRecord) => r.profitRate));
      Ok(SummaryData(
        current.sales * 1000.0,
        VersusAverage(if avgSales == 0.0 then None else Some((current.sales - avgSales) / avgSales * 100.0)),
        current.profitRate,
        Round1(current.profitRate - avgProfitRate),
        current.operatingCF * 1000.0,
        current.fCostRate,
        if idx > 0 then Round1(current.fCostRate - records[idx - 1].fCostRate) else 0.0,
        current.flrTotal,
        if idx > 0 then Round1(current.flrTotal - records[idx - 1].flrTotal) else 0.0))
  }

  /** The average baseline does not depend on which record is current: the last one is always left out. */
  lemma SummaryBaselineIgnoresIndex(records: seq<MonthlyRecord>, i: int, j: int)
    requires CalculateSummary(records, i).Ok? && CalculateSummary(records, j).Ok?
    requires records[i] == records[j]
    ensures CalculateSummary(records, i).value.salesYoyLabel == CalculateSummary(records, j).value.salesYoyLabel
    ensures CalculateSummary(records, i).value.profitRateYoyChange == CalculateSummary(records, j).value.profitRateYoyChange
  {
  }

  /**
   * The year-over-year change of the CSV path. The rates are `None` where the source
   * divides by a zero baseline and the result is not a finite number.
   */
  datatype CsvYoyChange = CsvYoyChange(
    salesAmount: real,
    salesRate: Option<real>,
    cfAmount: real,
    cfRate: Option<real>,
    profitRateChange: real)

  datatype CsvYoyComparison = CsvYoyComparison(previousYear: YoyRow, currentYear: YoyRow, change: CsvYoyChange)

  /** `Math.round(change / (base * 1000) * 1000) / 10`, undefined for a zero baseline. */
  function ChangeRate(change: real, base: real): (r: Option<real>)
    ensures r.None? <==> base == 0.0
    ensures r.Some? ==>
      var pct := change / (base * 1000.0) * 100.0;
      pct - 0.05 < r.value <= pct + 0.05 && r.value * 10.0 == (r.value * 10.0).Floor as real
  {
    if base == 0.0 then None
    else
      var pct := change / (base * 1000.0) * 100.0;
      assert change / (base * 1000.0) * 1000.0 == pct * 10.0;
      Some(Round1(pct))
  }

  /** The record a year before `idx`: twelve positions back, or the first record when there are fewer. */
  function PrevYearIndex(idx: nat): (p: nat)
    ensures idx >= 12 ==> p == idx - 12
    ensures idx < 12 ==> p == 0
  {
    if idx >= 12 then idx - 12 else 0
  }

  function RowOf(rec: MonthlyRecord): (y: YoyRow)
    ensures y.sales == rec.sales * 1000.0 && y.operatingCF == rec.operatingCF * 1000.0 && y.profitRate == rec.profitRate
  {
    YoyRow(rec.sales * 1000.0, rec.operatingCF * 1000.0, rec.profitRate)
  }

  /** `calculateYoyComparison`. */
  function CalculateYoyComparison(records: seq<MonthlyRecord>, idx: int): (r: Result<CsvYoyComparison, CsvError>)
    ensures r.Ok? <==> 0 <= idx < |records|
    ensures r.Ok? ==>
      var cur := records[idx]; var prev := records[PrevYearIndex(idx)]; var c := r.value.change;
      r.value.currentYear == RowOf(cur) && r.value.previousYear == RowOf(prev) &&
      c.salesAmount == (cur.sales - prev.sales) * 1000.0 &&
      c.cfAmount == (cur.operatingCF - prev.operatingCF) * 1000.0 &&
      (c.salesRate.None? <==> prev.sales == 0.0) &&
      (c.cfRate.None? <==> prev.operatingCF == 0.0) &&
      (c.salesRate.Some? ==>
         var pct := (cur.sales - prev.sales) / prev.sales * 100.0;
         pct - 0.05 < c.salesRate.value <= pct + 0.05) &&
      (c.cfRate.Some? ==>
         var q := (cur.operatingCF - prev.operatingCF) / prev.operatingCF * 100.0;
         q - 0.05 < c.cfRate.value <= q + 0.05) &&
      var d := cur.profitRate - prev.profitRate;
      d - 0.05 < c.profitRateChange <= d + 0.05
  {
    if !(0 <= idx < |records|) then Err(NoCurrentRecord)
    else
      var current := records[idx];
      var prevYear := records[PrevYearIndex(idx)];
      var salesChange := (current.sales - prevYear.sales) * 1000.0;
      var cfChange := (current.operatingCF - prevYear.operatingCF) * 1000.0;
      assert prevYear.sales != 0.0 ==> salesChange / (prevYear.sales * 1000.0) * 100.0 == (current.sales - prevYear.sales) / prevYear.sales * 100.0 by {
        if prevYear.sales != 0.0 { RateIsGrowth(current.sales, prevYear.sales); }
      }
      assert prevYear.operatingCF != 0.0 ==> cfChange / (prevYear.operatingCF * 1000.0) * 100.0 == (current.operatingCF - prevYear.operatingCF) / prevYear.operatingCF * 100.0 by {
        if prevYear.operatingCF != 0.0 { RateIsGrowth(current.operatingCF, prevYear.operatingCF); }
      }
      Ok(CsvYoyComparison(
        RowOf(prevYear),
        RowOf(current),
        CsvYoyChange(
          salesChange,
          ChangeRate(salesChange, prevYear.sales),
          cfChange,
          ChangeRate(cfChange, prevYear.operatingCF),
          Round1(current.profitRate - prevYear.profitRate))))
  }

  /** The amounts cancel the thousands: the rate is the plain growth of the value in percent. */
  lemma RateIsGrowth(cur: real, prev: real)
    requires prev != 0.0
    ensures (cur - prev) * 1000.0 / (prev * 1000.0) * 100.0 == (cur - prev) / prev * 100.0
  {
  }

  /** Within the first year the comparison is against the first record, so the first record compares with itself. */
  lemma YoyOfFirstRecord(records: seq<MonthlyRecord>)
    requires |records| > 0
    ensures var y := CalculateYoyComparison(records, 0).value.change;
      y.salesAmount == 0.0 && y.cfAmount == 0.0 &&
      (records[0].sales != 0.0 ==> y.salesRate == Some(0.0))
  {
    if records[0].sales != 0.0 {
      Round1OfTenths(0);
    }
  }

  // ---------------------------------------------------------------------------
  // csvToReportData

  /** Empty text sections the CSV path attaches to its report. */
  datatype AiNotes = AiNotes(specialNotes: string, costIssues: string, futureOutlook: string)

  /** What `csvToReportData` returns: its own record, with an FLR comment and notes in place of the comment list. */
  datatype CsvReport = CsvReport(
    storeName: string,
    reportMonth: string,
    reportPeriod: string,
    createdDate: string,
    summary: SummaryData,
    yoyComparison: CsvYoyComparison,
    monthlyTrend: seq<MonthlyRecord>,
    flrAnalysisComment: string,
    aiNotes: AiNotes)

  /** The records of a CSV text, header dropped, with their trends. */
  function CsvRecords(csvText: string): (records: seq<MonthlyRecord>)
    ensures |records| == multiset(Trim(csvText))['\n']
  {
    ParseCsvToRowsShape(csvText);
    CalculateMomTrends(RowsToMonthlyRecords(ParseCsvToRows(csvText)))
  }

  /** `csvToReportData`; the creation date is a parameter in place of the clock. */
  function CsvToReportData(csvText: string, storeName: string, reportMonth: string, createdDate: string): (r: Result<CsvReport, CsvError>)
    ensures r.Ok? ==>
      r.value.storeName == storeName && r.value.reportMonth == reportMonth &&
      r.value.reportPeriod == reportMonth + "度" && r.value.createdDate == createdDate &&
      r.value.monthlyTrend == CsvRecords(csvText) &&
      r.value.flrAnalysisComment == "" && r.value.aiNotes == AiNotes("", "", "")
  {
    var records := CsvRecords(csvText);
    var currentIndex := |records| - 1;
    match CalculateSummary(records, currentIndex)
    case Err(e) => Err(e)
    case Ok(summary) =>
      match CalculateYoyComparison(records, currentIndex)
      case Err(e) => Err(e)
      case Ok(yoy) =>
        Ok(CsvReport(storeName, reportMonth, reportMonth + "度", createdDate, summary, yoy, records, "", AiNotes("", "", "")))
  }

  /**
   * A report comes out exactly when the trimmed text has a header and at least two data
   * lines; it then describes the last data line, its predecessor and the line twelve back.
   */
  lemma CsvToReportDataOutcome(csvText: string, storeName: string, reportMonth: string, createdDate: string)
    ensures var r := CsvToReportData(csvText, storeName, reportMonth, createdDate);
      var lines := multiset(Trim(csvText))['\n'];
      (r.Ok? <==> lines >= 2) &&
      (lines == 0 ==> r == Err(NoCurrentRecord)) &&
      (lines == 1 ==> r == Err(NoEarlierRecords))
    ensures var r := CsvToReportData(csvText, storeName, reportMonth, createdDate);
      var records := CsvRecords(csvText);
      r.Ok? ==>
        r.value.summary == CalculateSummary(records, |records| - 1).value &&
        r.value.summary.sales == records[|records| - 1].sales * 1000.0 &&
        r.value.yoyComparison.previousYear == RowOf(records[PrevYearIndex(|records| - 1)])
  {
  }
}
