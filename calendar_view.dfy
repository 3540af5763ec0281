/**
  The two pieces of logic in the month view: the weekday header, rotated to start on the
  calendar's first weekday, and the small label under each day number.
 */
module CalendarView {
  import opened Wrappers
  import opened Civil
  import opened Lunar
  import opened SolarTerms
  import opened Models
  import opened Manager

  /** `Array(s.dropFirst(k))`: everything after the first `k` elements. */
  function DropFirst<T>(s: seq<T>, k: nat): (r: seq<T>)
    ensures |r| == if k <= |s| then |s| - k else 0
  {
    if k <= |s| then s[k..] else []
  }

  /** `Array(s.prefix(k))`: the first `k` elements, or all of them. */
  function Prefix<T>(s: seq<T>, k: nat): (r: seq<T>)
    ensures |r| == if k <= |s| then k else |s|
  {
    if k <= |s| then s[..k] else s
  }

  /**
    The weekday header: the symbols from the first weekday on, followed by those before it.
    A first weekday below 1 would be a negative count, which Swift rejects.
   */
  function WeekDays(symbols: seq<string>, firstWeekday: int): (r: seq<string>)
    requires firstWeekday >= 1
    ensures |r| == |symbols|
  {
    DropFirst(symbols, firstWeekday - 1) + Prefix(symbols, firstWeekday - 1)
  }

  /**
    The header is a rotation of the symbols: it has their length and the same symbols, and
    position `i` shows the symbol `firstWeekday - 1 + i` places on, wrapping around.
   */
  lemma WeekDaysRotation(symbols: seq<string>, firstWeekday: int)
    requires 1 <= firstWeekday <= |symbols|
    ensures var r := WeekDays(symbols, firstWeekday);
      && |r| == |symbols|
      && multiset(r) == multiset(symbols)
      && forall i :: 0 <= i < |r| ==> r[i] == symbols[(firstWeekday - 1 + i) % |symbols|]
  {
    var k := firstWeekday - 1;
    assert WeekDays(symbols, firstWeekday) == symbols[k..] + symbols[..k];
    RotationMultiset(symbols, k);
    RotationIndex(symbols, k);
  }

  lemma RotationMultiset<T>(s: seq<T>, k: nat)
    requires k <= |s|
    ensures multiset(s[k..] + s[..k]) == multiset(s)
  {
    assert s == s[..k] + s[k..];
  }

  lemma RotationIndex<T>(s: seq<T>, k: nat)
    requires k < |s|
    ensures forall i :: 0 <= i < |s| ==> (s[k..] + s[..k])[i] == s[(k + i) % |s|]
  {
    var n := |s|;
    var r := s[k..] + s[..k];
    forall i | 0 <= i < n ensures r[i] == s[(k + i) % n] {
      if i < n - k {
        ModBelow(k + i, n);
        assert r[i] == s[k..][i];
      } else {
        ModWrap(k + i, n);
        assert r[i] == s[..k][i - (n - k)];
      }
    }
  }

  lemma ModBelow(a: int, n: int)
    requires 0 <= a < n
    ensures a % n == a
  {
  }

  lemma ModWrap(a: int, n: int)
    requires 0 < n <= a < 2 * n
    ensures a % n == a - n
  {
    assert a == n + (a - n);
  }

  /** Starting on the first symbol leaves the header unrotated; a count past the end does too. */
  lemma WeekDaysIdentity(symbols: seq<string>, firstWeekday: int)
    requires firstWeekday == 1 || firstWeekday > |symbols|
    ensures WeekDays(symbols, firstWeekday) == symbols
  {
    if firstWeekday == 1 {
      assert symbols[0..] == symbols;
    } else if firstWeekday == |symbols| + 1 {
      assert symbols[..|symbols|] == symbols;
    }
  }

  /** The label under a day number: its first holiday, else its solar term, else its lunar label, else nothing. */
  function CellLabel(day: CalendarDay): (r: string)
    ensures day.holidays != [] ==> r == day.holidays[0]
    ensures day.holidays == [] && day.solarTerm.Some? ==> r == day.solarTerm.value
    ensures day.holidays == [] && day.solarTerm.None? && day.lunarShort.Some? ==> r == day.lunarShort.value
    ensures day.holidays == [] && day.solarTerm.None? && day.lunarShort.None? ==> r == ""
  {
    if day.holidays != [] then day.holidays[0] else day.solarTerm.GetOr(day.lunarShort.GetOr(""))
  }

  /**
    On a grid cell the label is never empty: it is the day's solar term on a term day, and
    otherwise a lunar label that reads back as that day's lunar date.
   */
  lemma CellLabelOfRecord(day: Date, events: map<Date, seq<CalendarEvent>>, lunarOf: Date -> ValidLunarDate)
    ensures var text := CellLabel(DayRecord(day, events, lunarOf));
      && text != ""
      && (GetSolarTerm(day).Some? ==> text == GetSolarTerm(day).value)
      && (GetSolarTerm(day).None? ==>
            var lunar := lunarOf(day);
            Meaning(text) == Some(if lunar.day == 1 then FirstOfMonth(lunar.month) else DayOfMonth(lunar.day)))
  {
    var lunar := lunarOf(day);
    var rec := DayRecord(day, events, lunarOf);
    assert rec.holidays == [] && rec.solarTerm == GetSolarTerm(day);
    assert rec.lunarShort == ShortLabel(lunar.month, lunar.day);
    LabelWithoutHolidays(rec, lunar);
  }

  lemma LabelWithoutHolidays(rec: CalendarDay, lunar: ValidLunarDate)
    requires rec.holidays == [] && rec.lunarShort == ShortLabel(lunar.month, lunar.day)
    requires rec.solarTerm.Some? ==> |rec.solarTerm.value| == 2
    ensures var text := CellLabel(rec);
      && text != ""
      && (rec.solarTerm.Some? ==> text == rec.solarTerm.value)
      && (rec.solarTerm.None? ==>
            Meaning(text) == Some(if lunar.day == 1 then FirstOfMonth(lunar.month) else DayOfMonth(lunar.day)))
  {
    ShortLabelRoundTrip(lunar);
    if rec.solarTerm.None? {
      assert CellLabel(rec) == ShortLabel(lunar.month, lunar.day).value;
    }
  }
}
