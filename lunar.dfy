/**
  The short lunar label of a grid cell. The lunisolar conversion itself is done by the
  platform's Chinese calendar and is not modelled: it enters as a lunar month and day.
 */
module Lunar {
  import opened Wrappers
  import opened Seqs

  /** Labels shown on the first day of each lunar month. */
  const MonthSymbols: seq<string> :=
    ["正月", "二月", "三月", "四月", "五月", "六月", "七月", "八月", "九月", "十月", "冬月", "腊月"]

  /** Labels of the lunar days 1..30. */
  const DaySymbols: seq<string> :=
    ["初一", "初二", "初三", "初四", "初五", "初六", "初七", "初八", "初九", "初十",
     "十一", "十二", "十三", "十四", "十五", "十六", "十七", "十八", "十九", "二十",
     "廿一", "廿二", "廿三", "廿四", "廿五", "廿六", "廿七", "廿八", "廿九", "三十"]

  /** A lunar month and day as the platform's Chinese calendar reports them. */
  datatype LunarDate = LunarDate(month: int, day: int)

  /** The range the Chinese calendar reports: months 1..12 (leap months share their number), days 1..30. */
  type ValidLunarDate = d: LunarDate | 1 <= d.month <= 12 && 1 <= d.day <= 30 witness LunarDate(1, 1)

  /** What a short label tells the reader: the start of a lunar month, or a later day of one. */
  datatype LabelMeaning = FirstOfMonth(month: int) | DayOfMonth(day: int)

  /**
    The label of a lunar (month, day): the month's name on its first day, otherwise the day's
    name. `None` is an index the symbol tables do not have, where the app would trap.
   */
  function ShortLabel(month: int, day: int): (r: Option<string>)
    ensures r.Some? <==> (day == 1 && 1 <= month <= 12) || 2 <= day <= 30
    ensures r.Some? ==> |r.value| == 2
  {
    if day == 1 then
      if 1 <= month <= 12 then Some(MonthSymbols[month - 1]) else None
    else if 1 <= day <= 30 then Some(DaySymbols[day - 1])
    else None
  }

  /** Reads a short label back. */
  function Meaning(text: string): (r: Option<LabelMeaning>)
    ensures r.Some? ==> r.value.FirstOfMonth? || 2 <= r.value.day <= 30
  {
    match IndexOf(MonthSymbols, text)
    case Some(i) => Some(FirstOfMonth(i + 1))
    case None =>
      match IndexOf(DaySymbols, text)
      case Some(i) => if i == 0 then None else Some(DayOfMonth(i + 1))
      case None => None
  }

  /** No two month names coincide, no two day names coincide, and no month name is a day name. */
  lemma SymbolsDistinct()
    ensures forall i, j :: 0 <= i < j < |MonthSymbols| ==> MonthSymbols[i] != MonthSymbols[j]
    ensures forall i, j :: 0 <= i < j < |DaySymbols| ==> DaySymbols[i] != DaySymbols[j]
    ensures forall i :: 0 <= i < |MonthSymbols| ==> MonthSymbols[i] !in DaySymbols
  {
    DaySymbolsDistinct();
    forall i | 0 <= i < |MonthSymbols| ensures MonthSymbols[i] !in DaySymbols {
      assert MonthSymbols[i][1] == '月';
      forall j | 0 <= j < |DaySymbols| ensures DaySymbols[j][1] != '月' { }
    }
  }

  lemma DaySymbolsDistinct()
    ensures forall i, j :: 0 <= i < j < |DaySymbols| ==> DaySymbols[i] != DaySymbols[j]
  {
  }

  /**
    Every label the grid can show identifies what it labels: the month on the first day of a
    month, the day otherwise.
   */
  lemma ShortLabelRoundTrip(d: ValidLunarDate)
    ensures ShortLabel(d.month, d.day).Some?
    ensures Meaning(ShortLabel(d.month, d.day).value)
              == Some(if d.day == 1 then FirstOfMonth(d.month) else DayOfMonth(d.day))
  {
    SymbolsDistinct();
    var text := ShortLabel(d.month, d.day).value;
    if d.day == 1 {
      var i := IndexOf(MonthSymbols, text);
      assert MonthSymbols[d.month - 1] == text;
      assert i.Some? && i.value == d.month - 1;
    } else {
      assert text == DaySymbols[d.day - 1];
      assert text !in MonthSymbols;
      var i := IndexOf(DaySymbols, text);
      assert i.Some? && i.value == d.day - 1;
    }
  }

  /** Two grid cells with the same short label fell on the same lunar day, or each on the first of the same month. */
  lemma ShortLabelInjective(a: ValidLunarDate, b: ValidLunarDate)
    requires ShortLabel(a.month, a.day) == ShortLabel(b.month, b.day)
    ensures a.day == b.day
    ensures a.day == 1 ==> a.month == b.month
  {
    ShortLabelRoundTrip(a);
    ShortLabelRoundTrip(b);
  }
}
