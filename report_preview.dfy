/**
 * The year labels of the report preview (`src/components/ReportPreview.tsx`): the heading of
 * the previous-year column, found with `reportMonth.match(/(\d+)年(\d+)月/)`, and the month
 * shown in the summary block, `reportMonth.replace(/^\d+年/, '')`.
 */
module ReportPreview {
  import opened Wrappers
  import opened Text
  import StoreSelector

  /** The two captured groups of `(\d+)年(\d+)月`. */
  datatype YearMonth = YearMonth(year: string, month: string)

  /**
   * The pattern matched at the very start of `t`. The greedy digit groups take whole digit
   * runs: giving a digit back leaves a digit where 年 or 月 must stand, so backtracking never
   * finds another match.
   */
  function MatchHere(t: string): Option<YearMonth> {
    var y := DigitRun(t);
    var rest := t[|y|..];
    if y == [] || rest == [] || rest[0] != '年' then None
    else
      var mo := DigitRun(rest[1..]);
      var after := rest[1 + |mo|..];
      if mo == [] || after == [] || after[0] != '月' then None
      else Some(YearMonth(y, mo))
  }

  /** A match at the start captures two non-empty digit groups spelling out the head of `t`. */
  lemma MatchHereShape(t: string)
    ensures MatchHere(t).Some? ==>
              var m := MatchHere(t).value;
              m.year != [] && m.month != [] && AllDigits(m.year) && AllDigits(m.month)
              && StartsWith(t, m.year + "年" + m.month + "月")
  {
    var y := DigitRun(t);
    var rest := t[|y|..];
    DigitRunSpec(t);
    if MatchHere(t).Some? {
      var mo := DigitRun(rest[1..]);
      DigitRunSpec(rest[1..]);
      var after := rest[1 + |mo|..];
      assert t == y + rest && rest == "年" + mo + after;
      assert t[..|y + "年" + mo + "月"|] == y + "年" + mo + "月";
    }
  }

  /** Digits, 年, digits, 月 at the start of a text match with those digits as groups. */
  lemma MatchHereOfLabel(y: string, mo: string, rest: string)
    requires y != [] && AllDigits(y) && mo != [] && AllDigits(mo)
    ensures MatchHere(y + "年" + mo + "月" + rest) == Some(YearMonth(y, mo))
  {
    var t := y + "年" + mo + "月" + rest;
    var afterY := "年" + mo + "月" + rest;
    assert t == y + afterY;
    DigitRunOfDigits(y, afterY);
    assert t[|y|..] == afterY;
    var afterYear := mo + "月" + rest;
    assert afterY[1..] == afterYear;
    DigitRunOfDigits(mo, "月" + rest);
    assert afterYear == mo + ("月" + rest);
    assert afterY[1 + |mo|..] == "月" + rest;
  }

  /** The pattern tried at position `q` of `s`. */
  function MatchAt(s: string, q: nat): Option<YearMonth>
    requires q <= |s|
  {
    MatchHere(s[q..])
  }

  /** Where `match` finds the pattern first at or after position `from`, or -1. */
  function MatchFrom(s: string, from: nat): (p: int)
    requires from <= |s|
    ensures p == -1 || from <= p < |s|
    ensures p >= 0 ==> MatchAt(s, p).Some? && forall q :: from <= q < p ==> MatchAt(s, q).None?
    ensures p == -1 ==> forall q :: from <= q < |s| ==> MatchAt(s, q).None?
    decreases |s| - from
  {
    if from == |s| then -1
    else if MatchAt(s, from).Some? then from
    else MatchFrom(s, from + 1)
  }

  /** Where `match` finds the pattern first, or -1. */
  function MatchPosition(s: string): (p: int)
    ensures -1 <= p < |s|
    ensures p >= 0 ==> MatchAt(s, p).Some? && forall q :: 0 <= q < p ==> MatchAt(s, q).None?
    ensures p == -1 ==> forall q :: 0 <= q < |s| ==> MatchAt(s, q).None?
  {
    MatchFrom(s, 0)
  }

  /** The groups of the first match of `(\d+)年(\d+)月` in `s`. */
  function FirstMatch(s: string): Option<YearMonth> {
    var p := MatchPosition(s);
    if p < 0 then None else MatchAt(s, p)
  }

  /** `previousYearLabel`: one year less than the matched year, the month kept as written. */
  function PreviousYearLabel(reportMonth: string): (heading: string)
    ensures FirstMatch(reportMonth).None? ==> heading == ""
    ensures FirstMatch(reportMonth).Some? ==>
              var m := FirstMatch(reportMonth).value;
              heading == IntToString(DigitsValue(m.year) - 1) + "年" + m.month + "月"
  {
    match FirstMatch(reportMonth)
    case None => ""
    case Some(m) => IntToString(DigitsValue(m.year) - 1) + "年" + m.month + "月"
  }

  /**
   * The headings of the year-over-year table: the current year is the report month as given,
   * the previous year its `previousYearLabel`.
   */
  function YearHeadings(reportMonth: string): (headings: (string, string))
    ensures headings.0 == reportMonth
    ensures headings.1 == PreviousYearLabel(reportMonth)
  {
    (reportMonth, PreviousYearLabel(reportMonth))
  }

  /** A month chosen in the store selector gets the same month of the year before as its heading. */
  lemma PreviousYearOfOption(y: nat, m: nat)
    ensures PreviousYearLabel(StoreSelector.MonthLabel(y, m)) == StoreSelector.MonthLabel(y - 1, m)
  {
    var s := StoreSelector.MonthLabel(y, m);
    MatchHereOfLabel(NatToString(y), NatToString(m), []);
    assert s == NatToString(y) + "年" + NatToString(m) + "月" + [];
    assert s[0..] == s;
    NatToStringValue(y);
  }

  /** `reportMonth.replace(/^\d+年/, '')`: a leading year is dropped, anything else stays. */
  function SummaryMonth(reportMonth: string): (month: string)
    ensures var d := DigitRun(reportMonth);
      if d != [] && |d| < |reportMonth| && reportMonth[|d|] == '年'
      then reportMonth == d + "年" + month
      else month == reportMonth
  {
    var d := DigitRun(reportMonth);
    if d != [] && |d| < |reportMonth| && reportMonth[|d|] == '年' then
      DigitRunSpec(reportMonth);
      assert reportMonth == d + "年" + reportMonth[|d| + 1..];
      reportMonth[|d| + 1..]
    else reportMonth
  }

  /** A text not starting with a digit keeps its summary month as it is. */
  lemma SummaryMonthWithoutYear(reportMonth: string)
    requires reportMonth == [] || !IsDigit(reportMonth[0])
    ensures SummaryMonth(reportMonth) == reportMonth
  {
  }

  /** A leading year and 年 are dropped from the summary month. */
  lemma SummaryMonthOfYear(y: string, rest: string)
    requires y != [] && AllDigits(y)
    ensures SummaryMonth(y + "年" + rest) == rest
  {
    DigitRunOfDigits(y, "年" + rest);
    assert y + "年" + rest == y + ("年" + rest);
  }

  /** For a month chosen in the store selector the summary shows `${m}月`. */
  lemma SummaryMonthOfOption(y: nat, m: nat)
    ensures SummaryMonth(StoreSelector.MonthLabel(y, m)) == NatToString(m) + "月"
  {
    SummaryMonthOfYear(NatToString(y), NatToString(m) + "月");
    assert StoreSelector.MonthLabel(y, m) == NatToString(y) + "年" + (NatToString(m) + "月");
  }
}
