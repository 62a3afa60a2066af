/**
 * The monthly trend table (`src/components/MonthlyTrendTable.tsx`): the previous-year
 * average row and the colour classes of the rate cells.
 */
module MonthlyTrendTable {
  import opened Numeric
  import opened Report

  /** The colour classes a rate cell can get, best first. */
  datatype Tone = Excellent | Good | Fair | Warning | Danger

  /** The CSS class name of a tone. */
  function ClassName(t: Tone): (name: string)
    ensures |name| > 5 && name[..5] == "cell-"
    ensures t == Excellent <==> name == "cell-excellent"
    ensures t == Good <==> name == "cell-good"
    ensures t == Fair <==> name == "cell-ok"
    ensures t == Warning <==> name == "cell-warning"
    ensures t == Danger <==> name == "cell-danger"
  {
    match t
    case Excellent => "cell-excellent"
    case Good => "cell-good"
    case Fair => "cell-ok"
    case Warning => "cell-warning"
    case Danger => "cell-danger"
  }

  /** How bad a tone is, 0 for the best. */
  function Rank(t: Tone): nat {
    match t
    case Excellent => 0
    case Good => 1
    case Fair => 2
    case Warning => 3
    case Danger => 4
  }

  /** `profitRateClass`: the higher the profit rate, the better. */
  function ProfitRateClass(value: real): (t: Tone)
    ensures t == Excellent <==> value >= 30.0
    ensures t == Good <==> 25.0 <= value < 30.0
    ensures t == Fair <==> 20.0 <= value < 25.0
    ensures t == Warning <==> value < 20.0
  {
    if value >= 30.0 then Excellent
    else if value >= 25.0 then Good
    else if value >= 20.0 then Fair
    else Warning
  }

  /** `fCostClass`: the lower the cost of goods rate, the better. */
  function FCostClass(value: real): (t: Tone)
    ensures t == Excellent <==> value <= 25.0
    ensures t == Good <==> 25.0 < value <= 28.0
    ensures t == Fair <==> 28.0 < value <= 30.0
    ensures t == Warning <==> value > 30.0
  {
    if value <= 25.0 then Excellent
    else if value <= 28.0 then Good
    else if value <= 30.0 then Fair
    else Warning
  }

  /** `lCostClass`: the lower the labour rate, the better. */
  function LCostClass(value: real): (t: Tone)
    ensures t == Excellent <==> value <= 25.0
    ensures t == Good <==> 25.0 < value <= 28.0
    ensures t == Fair <==> 28.0 < value <= 32.0
    ensures t == Warning <==> value > 32.0
  {
    if value <= 25.0 then Excellent
    else if value <= 28.0 then Good
    else if value <= 32.0 then Fair
    else Warning
  }

  /** `flrClass`: the lower the FLR total, the better; beyond 70 it is a danger. */
  function FlrClass(value: real): (t: Tone)
    ensures t == Excellent <==> value <= 60.0
    ensures t == Good <==> 60.0 < value <= 65.0
    ensures t == Fair <==> 65.0 < value <= 70.0
    ensures t == Danger <==> value > 70.0
  {
    if value <= 60.0 then Excellent
    else if value <= 65.0 then Good
    else if value <= 70.0 then Fair
    else Danger
  }

  /** A larger profit rate never gets a worse class. */
  lemma ProfitRateClassMonotonic(a: real, b: real)
    requires a <= b
    ensures Rank(ProfitRateClass(b)) <= Rank(ProfitRateClass(a))
  {
  }

  /** A smaller cost rate never gets a worse class, for each of the three cost classifiers. */
  lemma CostClassesMonotonic(a: real, b: real)
    requires a <= b
    ensures Rank(FCostClass(a)) <= Rank(FCostClass(b))
    ensures Rank(LCostClass(a)) <= Rank(LCostClass(b))
    ensures Rank(FlrClass(a)) <= Rank(FlrClass(b))
  {
  }

  /** The labour classifier is never stricter than the cost of goods one. */
  lemma LCostNoStricterThanFCost(value: real)
    ensures Rank(LCostClass(value)) <= Rank(FCostClass(value))
  {
  }

  const AverageMonth := "前年度平均"

  /** `v` is the mean of `xs` to the nearest integer. */
  predicate IsAmountAverage(v: real, xs: seq<real>)
    requires |xs| > 0
  {
    Mean(xs) - 0.5 < v <= Mean(xs) + 0.5 && v == v.Floor as real
  }

  /** `v` is the mean of `xs` to one decimal. */
  predicate IsRateAverage(v: real, xs: seq<real>)
    requires |xs| > 0
  {
    Mean(xs) - 0.05 < v <= Mean(xs) + 0.05 && v * 10.0 == (v * 10.0).Floor as real
  }

  /** `avg`: an amount average, rounded to an integer. */
  function AverageAmount(xs: seq<real>): real
    requires |xs| > 0
  {
    Round(Mean(xs))
  }

  /** `avgRate`: a rate average, rounded to one decimal. */
  function AverageRate(xs: seq<real>): real
    requires |xs| > 0
  {
    Round1(Mean(xs))
  }

  /**
   * `calcPrevYearAverage`: the average row over every record but the last. With fewer than
   * two records the source divides by zero, so at least two are required.
   */
  function CalcPrevYearAverage(data: seq<MonthlyRecord>): (avg: MonthlyRecord)
    requires |data| >= 2
    ensures avg.month == AverageMonth && avg.momTrend == "-"
    ensures var prev := data[..|data| - 1];
      IsAmountAverage(avg.sales, Column(prev, (r: MonthlyRecord) => r.sales)) &&
      IsAmountAverage(avg.cost, Column(prev, (r: MonthlyRecord) => r.cost)) &&
      IsAmountAverage(avg.laborCost, Column(prev, (r: MonthlyRecord) => r.laborCost)) &&
      IsAmountAverage(avg.operatingCF, Column(prev, (r: MonthlyRecord) => r.operatingCF))
    ensures var prev := data[..|data| - 1];
      IsRateAverage(avg.profitRate, Column(prev, (r: MonthlyRecord) => r.profitRate)) &&
      IsRateAverage(avg.fCostRate, Column(prev, (r: MonthlyRecord) => r.fCostRate)) &&
      IsRateAverage(avg.lCostRate, Column(prev, (r: MonthlyRecord) => r.lCostRate)) &&
      IsRateAverage(avg.rCostRate, Column(prev, (r: MonthlyRecord) => r.rCostRate)) &&
      IsRateAverage(avg.flrTotal, Column(prev, (r: MonthlyRecord) => r.flrTotal))
  {
    var prev := data[..|data| - 1];
    MonthlyRecord(
      AverageMonth,
      AverageAmount(Column(prev, (r: MonthlyRecord) => r.sales)),
      AverageAmount(Column(prev, (r: MonthlyRecord) => r.cost)),
      AverageAmount(Column(prev, (r: MonthlyRecord) => r.laborCost)),
      AverageAmount(Column(prev, (r: MonthlyRecord) => r.operatingCF)),
      AverageRate(Column(prev, (r: MonthlyRecord) => r.profitRate)),
      AverageRate(Column(prev, (r: MonthlyRecord) => r.fCostRate)),
      AverageRate(Column(prev, (r: MonthlyRecord) => r.lCostRate)),
      AverageRate(Column(prev, (r: MonthlyRecord) => r.rCostRate)),
      AverageRate(Column(prev, (r: MonthlyRecord) => r.flrTotal)),
      "-")
  }

  /** The latest record never enters the average: changing it leaves the row as it is. */
  lemma AverageIgnoresLatest(data: seq<MonthlyRecord>, latest: MonthlyRecord)
    requires |data| >= 2
    ensures CalcPrevYearAverage(data[..|data| - 1] + [latest]) == CalcPrevYearAverage(data)
  {
    assert (data[..|data| - 1] + [latest])[..|data| - 1] == data[..|data| - 1];
  }

  /** The average sales lie between the rounded smallest and largest earlier sales. */
  lemma AverageSalesBetween(data: seq<MonthlyRecord>, lo: real, hi: real)
    requires |data| >= 2
    requires forall i :: 0 <= i < |data| - 1 ==> lo <= data[i].sales <= hi
    ensures Round(lo) <= CalcPrevYearAverage(data).sales <= Round(hi)
  {
    var xs := Column(data[..|data| - 1], (r: MonthlyRecord) => r.sales);
    MeanBounds(xs, lo, hi);
    RoundMonotonic(lo, Mean(xs));
    RoundMonotonic(Mean(xs), hi);
  }
}
