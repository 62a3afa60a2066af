/** The report's data types (`src/types/report.ts`). */
module Report {
  import opened Wrappers

  /** One month of the series; amounts in thousands, rates in percent. */
  datatype MonthlyRecord = MonthlyRecord(
    month: string,
    sales: real,
    cost: real,
    laborCost: real,
    operatingCF: real,
    profitRate: real,
    fCostRate: real,
    lCostRate: real,
    rCostRate: real,
    flrTotal: real,
    momTrend: string)

  /** `s.map(f)`: one result per element, in order. */
  function MapSeq<A, B>(s: seq<A>, f: A -> B): (r: seq<B>)
    ensures |r| == |s| && forall i :: 0 <= i < |s| ==> r[i] == f(s[i])
  {
    seq(|s|, i requires 0 <= i < |s| => f(s[i]))
  }

  /** One field of every record, in order (`records.map(r => r.field)`). */
  function Column(records: seq<MonthlyRecord>, field: MonthlyRecord -> real): (s: seq<real>)
    ensures |s| == |records| && forall i :: 0 <= i < |s| ==> s[i] == field(records[i])
  {
    seq(|records|, i requires 0 <= i < |records| => field(records[i]))
  }

  /**
   * What `salesYoyLabel` says, up to number formatting: nothing, a change against the
   * same month a year earlier, or a change against the average of the earlier months
   * (`None` where the source divides by a zero average and prints a non-finite number).
   */
  datatype SalesLabel = NoLabel | VersusSameMonth(percent: real) | VersusAverage(averagePercent: Option<real>)

  datatype SummaryData = SummaryData(
    sales: real,
    salesYoyLabel: SalesLabel,
    operatingProfitRate: real,
    profitRateYoyChange: real,
    operatingCF: real,
    fCostRate: real,
    fCostRateChange: real,
    flrCostRate: real,
    flrCostRateChange: real)

  datatype YoyRow = YoyRow(sales: real, operatingCF: real, profitRate: real)

  datatype YoyChange = YoyChange(
    salesAmount: real,
    salesRate: real,
    cfAmount: real,
    cfRate: real,
    profitRateChange: real)

  datatype YoyComparison = YoyComparison(previousYear: YoyRow, currentYear: YoyRow, change: YoyChange)

  datatype CommentSection = CommentSection(id: string, title: string, content: string)

  datatype ReportData = ReportData(
    storeName: string,
    reportMonth: string,
    reportPeriod: string,
    createdDate: string,
    summary: SummaryData,
    yoyComparison: YoyComparison,
    monthlyTrend: seq<MonthlyRecord>,
    comments: seq<CommentSection>,
    deletedComments: seq<CommentSection>)

  datatype AppStep = Select | Loading | Preview | Confirmed
}
