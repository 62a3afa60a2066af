/**
 * The store and month selection (`src/components/StoreSelector.tsx`): the store list, the
 * options for the last 24 months, and the guard before a report is requested. The current
 * date comes in as a parameter: `nowMonth` is the zero-based month of `Date.getMonth`.
 */
module StoreSelector {
  import opened Wrappers
  import opened Text
  import DriveService

  /** `STORES`: the keys of the store table, in declaration order. */
  function Stores(): (stores: seq<string>)
    ensures |stores| == |DriveService.StoreEntries|
    ensures forall i :: 0 <= i < |stores| ==> stores[i] == DriveService.StoreEntries[i].0
  {
    seq(|DriveService.StoreEntries|, i requires 0 <= i < |DriveService.StoreEntries| => DriveService.StoreEntries[i].0)
  }

  /** The listed stores are exactly the stores the table knows, the first one selected initially. */
  lemma StoresAreKeys()
    ensures (set s | s in Stores()) == DriveService.StoreFileMap().Keys
    ensures Stores()[0] == "かね子"
  {
    var stores := Stores();
    var keys := set i | 0 <= i < |DriveService.StoreEntries| :: DriveService.StoreEntries[i].0;
    assert DriveService.StoreFileMap().Keys == keys;
    forall s | s in keys
      ensures s in stores
    {
      var i :| 0 <= i < |DriveService.StoreEntries| && DriveService.StoreEntries[i].0 == s;
      assert stores[i] == s;
    }
  }

  /** How many month options the selector offers. */
  const OptionCount := 24

  /** `${y}年${m}月`. */
  function MonthLabel(year: int, month: nat): string {
    IntToString(year) + "年" + NatToString(month) + "月"
  }

  /** The year of `new Date(nowYear, nowMonth - i, 1)`: months before January borrow from the year. */
  function OptionYear(nowYear: int, nowMonth: int, i: nat): int {
    nowYear + (nowMonth - i) / 12
  }

  /** The one-based month of `new Date(nowYear, nowMonth - i, 1)`. */
  function OptionMonth(nowMonth: int, i: nat): (m: nat)
    ensures 1 <= m <= 12
  {
    (nowMonth - i) % 12 + 1
  }

  /** The `i`-th option: the month `i` months before now. */
  function MonthOption(nowYear: int, nowMonth: int, i: nat): string {
    MonthLabel(OptionYear(nowYear, nowMonth, i), OptionMonth(nowMonth, i))
  }

  /** `generateMonthOptions`. */
  method GenerateMonthOptions(nowYear: int, nowMonth: int) returns (months: seq<string>)
    requires 0 <= nowMonth < 12
    ensures |months| == OptionCount
    ensures forall i :: 0 <= i < |months| ==> months[i] == MonthOption(nowYear, nowMonth, i)
  {
    months := [];
    for i := 0 to OptionCount
      invariant |months| == i
      invariant forall j :: 0 <= j < i ==> months[j] == MonthOption(nowYear, nowMonth, j)
    {
      var year, month := OptionYear(nowYear, nowMonth, i), OptionMonth(nowMonth, i);
      months := months + [MonthLabel(year, month)];
    }
  }

  /** The first option is the current month. */
  lemma FirstOptionIsNow(nowYear: int, nowMonth: int)
    requires 0 <= nowMonth < 12
    ensures MonthOption(nowYear, nowMonth, 0) == MonthLabel(nowYear, nowMonth + 1)
  {
    assert OptionYear(nowYear, nowMonth, 0) == nowYear;
    assert OptionMonth(nowMonth, 0) == nowMonth + 1;
  }

  /**
   * Each option counts `i` months back: as a month number `12 * year + month - 1` it is
   * exactly `i` below now, so the options strictly descend.
   */
  lemma OptionIsMonthsBefore(nowYear: int, nowMonth: int, i: nat)
    ensures 12 * OptionYear(nowYear, nowMonth, i) + OptionMonth(nowMonth, i) - 1 == 12 * nowYear + nowMonth - i
  {
  }

  /** Going one option further back steps the month down, from January to December of the year before. */
  lemma OptionStep(nowYear: int, nowMonth: int, i: nat)
    ensures OptionMonth(nowMonth, i) == 1 ==>
      OptionMonth(nowMonth, i + 1) == 12 && OptionYear(nowYear, nowMonth, i + 1) == OptionYear(nowYear, nowMonth, i) - 1
    ensures OptionMonth(nowMonth, i) > 1 ==>
      OptionMonth(nowMonth, i + 1) == OptionMonth(nowMonth, i) - 1
      && OptionYear(nowYear, nowMonth, i + 1) == OptionYear(nowYear, nowMonth, i)
  {
    OptionIsMonthsBefore(nowYear, nowMonth, i);
    OptionIsMonthsBefore(nowYear, nowMonth, i + 1);
  }

  /** A label determines its year and month. */
  lemma MonthLabelInjective(y1: int, m1: nat, y2: int, m2: nat)
    requires MonthLabel(y1, m1) == MonthLabel(y2, m2)
    ensures y1 == y2 && m1 == m2
  {
    var a1, a2 := IntToString(y1), IntToString(y2);
    var b1, b2 := NatToString(m1), NatToString(m2);
    IntToStringChars(y1);
    IntToStringChars(y2);
    assert '年' !in a1 && '年' !in a2;
    assert MonthLabel(y1, m1) == a1 + ['年'] + (b1 + "月");
    assert MonthLabel(y2, m2) == a2 + ['年'] + (b2 + "月");
    SplitAtMark(a1, b1 + "月", a2, b2 + "月", '年');
    assert b1 == (b1 + "月")[..|b1|];
    assert |b1| == |b2|;
    assert b2 == (b2 + "月")[..|b2|];
    IntToStringInjective(y1, y2);
    NatToStringInjective(m1, m2);
  }

  /** The options are pairwise distinct. */
  lemma OptionsDistinct(nowYear: int, nowMonth: int, i: nat, j: nat)
    requires i != j
    ensures MonthOption(nowYear, nowMonth, i) != MonthOption(nowYear, nowMonth, j)
  {
    OptionIsMonthsBefore(nowYear, nowMonth, i);
    OptionIsMonthsBefore(nowYear, nowMonth, j);
    if MonthOption(nowYear, nowMonth, i) == MonthOption(nowYear, nowMonth, j) {
      MonthLabelInjective(OptionYear(nowYear, nowMonth, i), OptionMonth(nowMonth, i),
                          OptionYear(nowYear, nowMonth, j), OptionMonth(nowMonth, j));
    }
  }

  /** `handleGenerate`: the report is requested only when both a store and a month are chosen. */
  function GenerateRequest(store: string, month: string): (request: Option<(string, string)>)
    ensures request.Some? <==> store != "" && month != ""
    ensures request.Some? ==> request.value == (store, month)
  {
    if store == "" || month == "" then None else Some((store, month))
  }
}
