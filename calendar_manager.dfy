/**
  The month view's state: the displayed month, the grid of day records shown for it, the
  selected day and that day's events. Events come from the calendar store; the lunar month
  and day of a date come from the platform's Chinese calendar, passed in as `lunarOf`.
 */
module Manager {
  import opened Wrappers
  import opened Civil
  import opened Seqs
  import opened Models
  import opened Lunar
  import opened SolarTerms

  // ---------------------------------------------------------------------------
  // The month grid

  /** The number of days in the month containing `t`. */
  function MonthLength(t: Date): (n: int)
    ensures 28 <= n <= 31
  {
    DaysInMonth(CivilOf(t).year, CivilOf(t).month)
  }

  /** The day number of the first day of the month containing `t`. */
  function MonthStart(t: Date): (n: int)
    ensures n <= DayNumber(t) < n + MonthLength(t)
    ensures DayNumber(t) - n == CivilOf(t).day - 1
  {
    var c := CivilOf(t);
    DaysFromCivil(CivilDate(c.year, c.month, 1))
  }

  /** Cells taken from the previous month: how far the month's first weekday lies past `firstWeekday`. */
  function LeadDays(t: Date, firstWeekday: int): (n: int)
    ensures 0 <= n <= 6
  {
    (Weekday(MonthStart(t)) - firstWeekday + 7) % 7
  }

  /** The number of cells: lead days and the month's days, padded up to whole weeks. */
  function GridLength(t: Date, firstWeekday: int): (n: int)
    ensures n % 7 == 0
    ensures LeadDays(t, firstWeekday) + MonthLength(t) <= n < LeadDays(t, firstWeekday) + MonthLength(t) + 7
  {
    var filled := LeadDays(t, firstWeekday) + MonthLength(t);
    if filled % 7 == 0 then filled else filled + 7 - filled % 7
  }

  /** The day number of the first cell. */
  function GridStart(t: Date, firstWeekday: int): int {
    MonthStart(t) - LeadDays(t, firstWeekday)
  }

  /** The midnights of `n` consecutive days from day number `start`. */
  function Cells(start: int, n: nat): (g: seq<Date>)
    ensures |g| == n
    ensures forall k :: 0 <= k < n ==> g[k] == Midnight(start + k)
  {
    seq(n, k => Midnight(start + k))
  }

  /** Appending the next midnight to the first `|g|` cells gives the first `|g| + 1`. */
  lemma CellsSnoc(start: int, g: seq<Date>, d: Date)
    requires g == Cells(start, |g|) && d == Midnight(start + |g|)
    ensures g + [d] == Cells(start, |g| + 1)
  {
  }

  /** The midnights shown for the month containing `t`: whole weeks starting on `firstWeekday`. */
  function MonthGrid(t: Date, firstWeekday: int): (g: seq<Date>)
    ensures |g| == GridLength(t, firstWeekday)
    ensures forall k :: 0 <= k < |g| ==> g[k] == Midnight(GridStart(t, firstWeekday) + k)
  {
    Cells(GridStart(t, firstWeekday), GridLength(t, firstWeekday))
  }

  /** The grid is made of whole weeks of consecutive days, each given by its midnight. */
  lemma GridConsecutive(t: Date, firstWeekday: int)
    ensures var g := MonthGrid(t, firstWeekday);
      && |g| % 7 == 0 && |g| >= 28
      && (forall k :: 0 <= k < |g| ==> TimeOfDay(g[k]) == 0 && DayNumber(g[k]) == GridStart(t, firstWeekday) + k)
      && (forall k :: 0 < k < |g| ==> DayNumber(g[k]) == DayNumber(g[k - 1]) + 1)
      && (forall i, j :: 0 <= i < j < |g| ==> g[i] < g[j])
  {
    var g := MonthGrid(t, firstWeekday);
    forall i, j | 0 <= i < j < |g| ensures g[i] < g[j] {
      assert g[i] == Midnight(GridStart(t, firstWeekday) + i);
      assert g[j] == Midnight(GridStart(t, firstWeekday) + j);
    }
  }

  /** Each row starts on `firstWeekday`. */
  lemma GridStartsOnFirstWeekday(t: Date, firstWeekday: int)
    requires 1 <= firstWeekday <= 7
    ensures var g := MonthGrid(t, firstWeekday);
      forall k :: 0 <= k < |g| && k % 7 == 0 ==> Weekday(DayNumber(g[k])) == firstWeekday
  {
    var g := MonthGrid(t, firstWeekday);
    forall k | 0 <= k < |g| && k % 7 == 0 ensures Weekday(DayNumber(g[k])) == firstWeekday {
      assert DayNumber(g[k]) == MonthStart(t) - LeadDays(t, firstWeekday) + k;
      WeekdayShift(MonthStart(t), LeadDays(t, firstWeekday), k, firstWeekday);
    }
  }

  /** Moving back `lead` days from a day of weekday `w` and on by whole weeks lands on weekday `f`. */
  lemma WeekdayShift(first: int, lead: int, k: int, f: int)
    requires 1 <= f <= 7 && k % 7 == 0 && lead == (Weekday(first) - f + 7) % 7
    ensures Weekday(first - lead + k) == f
  {
    var q := k / 7;
    assert k == 7 * q;
    var w := Weekday(first);
    assert (first + 4) % 7 == w - 1;
    var m := first + 4 - (w - 1);
    assert m % 7 == 0;
    var e := (w - f + 7) / 7;
    assert w - f + 7 == 7 * e + lead;
    assert first - lead + k + 4 == m + (f - 1) + 7 * (e - 1) + 7 * q;
  }

  /** Day `d` of the month fills the cell `d - 1` places after the lead days, so the month's days appear in order. */
  lemma GridCellOfMonthDay(t: Date, firstWeekday: int, d: int)
    requires 1 <= d <= MonthLength(t)
    ensures var g, c := MonthGrid(t, firstWeekday), CivilOf(t);
      LeadDays(t, firstWeekday) + d - 1 < |g|
      && CivilOf(g[LeadDays(t, firstWeekday) + d - 1]) == CivilDate(c.year, c.month, d)
  {
    var c := CivilOf(t);
    var cd := CivilDate(c.year, c.month, d);
    CivilRoundTrip(cd);
    assert DaysFromCivil(cd) == MonthStart(t) + d - 1;
  }

  /** A cell in the month's year and month lies between the lead days and the trailing days. */
  lemma GridCellInMonth(t: Date, firstWeekday: int, k: int)
    requires 0 <= k < GridLength(t, firstWeekday)
    requires CivilOf(MonthGrid(t, firstWeekday)[k]).year == CivilOf(t).year
    requires CivilOf(MonthGrid(t, firstWeekday)[k]).month == CivilOf(t).month
    ensures LeadDays(t, firstWeekday) <= k < LeadDays(t, firstWeekday) + MonthLength(t)
  {
    var ck := CivilOf(MonthGrid(t, firstWeekday)[k]);
    var c := CivilOf(t);
    assert DaysFromCivil(ck) == MonthStart(t) + ck.day - 1;
  }

  /** Exactly the cells from `LeadDays` to the month's length past it lie in the month; the others belong to its neighbours. */
  lemma GridOnlyMonthBetweenPadding(t: Date, firstWeekday: int)
    ensures var g, c, lead := MonthGrid(t, firstWeekday), CivilOf(t), LeadDays(t, firstWeekday);
      forall k :: 0 <= k < |g| ==>
        (CivilOf(g[k]).year == c.year && CivilOf(g[k]).month == c.month <==> lead <= k < lead + MonthLength(t))
  {
    var g, c, lead := MonthGrid(t, firstWeekday), CivilOf(t), LeadDays(t, firstWeekday);
    forall k | 0 <= k < |g|
      ensures CivilOf(g[k]).year == c.year && CivilOf(g[k]).month == c.month <==> lead <= k < lead + MonthLength(t)
    {
      if CivilOf(g[k]).year == c.year && CivilOf(g[k]).month == c.month {
        GridCellInMonth(t, firstWeekday, k);
      }
      if lead <= k < lead + MonthLength(t) {
        GridCellOfMonthDay(t, firstWeekday, k - lead + 1);
      }
    }
  }

  /** The day of `t` itself is in the grid, at the cell after the lead days and the days before it. */
  lemma GridContainsDate(t: Date, firstWeekday: int)
    ensures var g := MonthGrid(t, firstWeekday);
      var k := LeadDays(t, firstWeekday) + CivilOf(t).day - 1;
      0 <= k < |g| && g[k] == StartOfDay(t)
  {
  }

  // ---------------------------------------------------------------------------
  // Events grouped by day

  /** `calendar.startOfDay(for: event.startDate)`: the key an event is grouped under. */
  function EventDay(e: CalendarEvent): (d: Date)
    ensures SameDay(d, e.startDate) && TimeOfDay(d) == 0
  {
    StartOfDay(e.startDate)
  }

  function StartsOn(d: Date): CalendarEvent -> bool {
    e => EventDay(e) == d
  }

  /** The events starting on day `d`, in input order. */
  function EventsOn(events: seq<CalendarEvent>, d: Date): seq<CalendarEvent> {
    Filter(events, StartsOn(d))
  }

  /** The days on which some event starts. */
  function EventDays(events: seq<CalendarEvent>): set<Date> {
    set e | e in events :: EventDay(e)
  }

  /** One bucket per day on which some event starts, holding that day's events. */
  function Grouped(events: seq<CalendarEvent>): map<Date, seq<CalendarEvent>> {
    map d | d in EventDays(events) :: EventsOn(events, d)
  }

  /** An event lies in the bucket of its own start day and in no other. */
  lemma BucketMembers(events: seq<CalendarEvent>, d: Date, e: CalendarEvent)
    ensures e in EventsOn(events, d) <==> e in events && EventDay(e) == d
  {
    FilterMembers(events, StartsOn(d), e);
  }

  /** A day has a bucket exactly when some event starts on it, and then the bucket holds that day's events. */
  lemma BucketExists(events: seq<CalendarEvent>, d: Date)
    ensures d in Grouped(events) <==> EventsOn(events, d) != []
    ensures d in Grouped(events) ==> Grouped(events)[d] == EventsOn(events, d)
  {
    if d in Grouped(events) {
      var x :| x in events && EventDay(x) == d;
      BucketMembers(events, d, x);
    } else if EventsOn(events, d) != [] {
      BucketMembers(events, d, EventsOn(events, d)[0]);
    }
  }

  /** Buckets keep the input order: the events of a later batch follow those of an earlier one. */
  lemma EventsOnAppend(a: seq<CalendarEvent>, b: seq<CalendarEvent>, d: Date)
    ensures EventsOn(a + b, d) == EventsOn(a, d) + EventsOn(b, d)
  {
    FilterAppend(a, b, StartsOn(d));
  }

  // ---------------------------------------------------------------------------
  // Day records

  /**
    The record of one grid day: its short lunar label and solar term, and the events of its
    bucket; the Gregorian holidays, the full lunar text and the reminders are left empty.
   */
  function DayRecord(day: Date, events: map<Date, seq<CalendarEvent>>, lunarOf: Date -> ValidLunarDate): CalendarDay {
    var lunar := lunarOf(day);
    var dayStart := StartOfDay(day);
    CalendarDay(day, ShortLabel(lunar.month, lunar.day), None, [], GetSolarTerm(day),
                if dayStart in events then events[dayStart] else [], [])
  }

  function DayRecords(grid: seq<Date>, events: map<Date, seq<CalendarEvent>>, lunarOf: Date -> ValidLunarDate): (r: seq<CalendarDay>)
    ensures |r| == |grid|
    ensures forall k :: 0 <= k < |grid| ==> r[k] == DayRecord(grid[k], events, lunarOf)
  {
    Map(grid, RecordOf(events, lunarOf))
  }

  function RecordOf(events: map<Date, seq<CalendarEvent>>, lunarOf: Date -> ValidLunarDate): Date -> CalendarDay {
    day => DayRecord(day, events, lunarOf)
  }

  /** The loop of `generateCalendarGrid(for:events:)`: one record per grid day, in grid order. */
  method BuildRecords(gridDates: seq<Date>, events: map<Date, seq<CalendarEvent>>, lunarOf: Date -> ValidLunarDate)
    returns (newDays: seq<CalendarDay>)
    ensures newDays == DayRecords(gridDates, events, lunarOf)
  {
    newDays := [];
    var i := 0;
    while i < |gridDates|
      invariant 0 <= i <= |gridDates|
      invariant newDays == DayRecords(gridDates[..i], events, lunarOf)
    {
      RecordsStep(gridDates, i, events, lunarOf);
      newDays := newDays + [DayRecord(gridDates[i], events, lunarOf)];
      i := i + 1;
    }
    assert gridDates[..i] == gridDates;
  }

  /** The records of one more grid day. */
  lemma RecordsStep(gridDates: seq<Date>, i: nat, events: map<Date, seq<CalendarEvent>>, lunarOf: Date -> ValidLunarDate)
    requires i < |gridDates|
    ensures DayRecords(gridDates[..i + 1], events, lunarOf)
            == DayRecords(gridDates[..i], events, lunarOf) + [DayRecord(gridDates[i], events, lunarOf)]
  {
    MapSnoc(gridDates, i, RecordOf(events, lunarOf));
  }

  /** The records of a month grid form whole weeks of consecutive days. */
  lemma RecordsConsecutive(t: Date, firstWeekday: int, events: map<Date, seq<CalendarEvent>>, lunarOf: Date -> ValidLunarDate)
    ensures var days := DayRecords(MonthGrid(t, firstWeekday), events, lunarOf);
      |days| % 7 == 0 && ConsecutiveDays(days)
  {
    GridConsecutive(t, firstWeekday);
  }

  /**
    The record of a day whose events were grouped from `fetched` carries exactly the fetched
    events starting on that day, in fetch order, and a short label that reads back as its
    lunar date.
   */
  lemma RecordOfDay(day: Date, fetched: seq<CalendarEvent>, lunarOf: Date -> ValidLunarDate)
    requires TimeOfDay(day) == 0
    ensures var r, lunar := DayRecord(day, Grouped(fetched), lunarOf), lunarOf(day);
      && r.date == day
      && r.events == EventsOn(fetched, day)
      && r.lunarShort.Some?
      && Meaning(r.lunarShort.value)
           == Some(if lunar.day == 1 then LabelMeaning.FirstOfMonth(lunar.month) else DayOfMonth(lunar.day))
  {
    ShortLabelRoundTrip(lunarOf(day));
    assert StartOfDay(day) == day;
    BucketExists(fetched, day);
  }

  /** Each record of a loaded month belongs to its grid day and carries that day's fetched events. */
  lemma LoadedRecords(t: Date, firstWeekday: int, fetched: seq<CalendarEvent>, lunarOf: Date -> ValidLunarDate, k: int)
    requires 0 <= k < GridLength(t, firstWeekday)
    ensures var g := MonthGrid(t, firstWeekday);
      var r := DayRecords(g, Grouped(fetched), lunarOf)[k];
      r.date == g[k] && r.events == EventsOn(fetched, g[k])
  {
    var g := MonthGrid(t, firstWeekday);
    RecordOfDay(g[k], fetched, lunarOf);
  }

  // ---------------------------------------------------------------------------
  // Selection

  /** `days.first(where:)` on the same day as `date`. */
  function FirstSameDay(days: seq<CalendarDay>, date: Date): (r: Option<CalendarDay>)
    ensures r.None? <==> forall k :: 0 <= k < |days| ==> !SameDay(days[k].date, date)
    ensures r.Some? ==> exists k :: 0 <= k < |days| && days[k] == r.value && SameDay(r.value.date, date)
                          && forall j :: 0 <= j < k ==> !SameDay(days[j].date, date)
  {
    if days == [] then None
    else if SameDay(days[0].date, date) then Some(days[0])
    else
      var r := FirstSameDay(days[1..], date);
      assert forall k :: 1 <= k < |days| ==> days[k] == days[1..][k - 1];
      r
  }

  /** Records of consecutive days: each day has at most one record. */
  predicate ConsecutiveDays(days: seq<CalendarDay>) {
    forall k :: 0 < k < |days| ==> DayNumber(days[k].date) == DayNumber(days[k - 1].date) + 1
  }

  lemma {:induction false} ConsecutiveDaysIncrease(days: seq<CalendarDay>, i: int, j: int)
    requires ConsecutiveDays(days) && 0 <= i <= j < |days|
    ensures DayNumber(days[j].date) == DayNumber(days[i].date) + (j - i)
    decreases j - i
  {
    if i < j {
      ConsecutiveDaysIncrease(days, i, j - 1);
    }
  }

  /**
    Selecting a day of the loaded grid shows exactly the fetched events starting on that day;
    selecting a day outside the grid shows none.
   */
  lemma SelectedEvents(t: Date, firstWeekday: int, fetched: seq<CalendarEvent>, lunarOf: Date -> ValidLunarDate, date: Date)
    ensures var g := MonthGrid(t, firstWeekday);
      var r := FirstSameDay(DayRecords(g, Grouped(fetched), lunarOf), date);
      && (r.Some? <==> DayNumber(g[0]) <= DayNumber(date) <= DayNumber(g[|g| - 1]))
      && (r.Some? ==> r.value.events == EventsOn(fetched, StartOfDay(date)))
  {
    SelectedInRange(t, firstWeekday, fetched, lunarOf, date);
    SelectedBucket(t, firstWeekday, fetched, lunarOf, date);
  }

  lemma SelectedInRange(t: Date, firstWeekday: int, fetched: seq<CalendarEvent>, lunarOf: Date -> ValidLunarDate, date: Date)
    ensures var g := MonthGrid(t, firstWeekday);
      FirstSameDay(DayRecords(g, Grouped(fetched), lunarOf), date).Some?
      <==> DayNumber(g[0]) <= DayNumber(date) <= DayNumber(g[|g| - 1])
  {
    var g := MonthGrid(t, firstWeekday);
    var days := DayRecords(g, Grouped(fetched), lunarOf);
    RecordsConsecutive(t, firstWeekday, Grouped(fetched), lunarOf);
    GridConsecutive(t, firstWeekday);
    FoundWithinRange(days, date);
  }

  /** A day has a record among consecutive records exactly when it lies between the first and the last. */
  lemma FoundWithinRange(days: seq<CalendarDay>, date: Date)
    requires ConsecutiveDays(days) && days != []
    ensures FirstSameDay(days, date).Some?
            <==> DayNumber(days[0].date) <= DayNumber(date) <= DayNumber(days[|days| - 1].date)
  {
    var first := DayNumber(days[0].date);
    ConsecutiveDaysIncrease(days, 0, |days| - 1);
    if first <= DayNumber(date) <= DayNumber(days[|days| - 1].date) {
      var k := DayNumber(date) - first;
      ConsecutiveDaysIncrease(days, 0, k);
      assert SameDay(days[k].date, date);
    }
    forall k | 0 <= k < |days| && SameDay(days[k].date, date)
      ensures first <= DayNumber(date) <= DayNumber(days[|days| - 1].date)
    {
      ConsecutiveDaysIncrease(days, 0, k);
      ConsecutiveDaysIncrease(days, k, |days| - 1);
    }
  }

  lemma SelectedBucket(t: Date, firstWeekday: int, fetched: seq<CalendarEvent>, lunarOf: Date -> ValidLunarDate, date: Date)
    ensures var r := FirstSameDay(DayRecords(MonthGrid(t, firstWeekday), Grouped(fetched), lunarOf), date);
      r.Some? ==> r.value.events == EventsOn(fetched, StartOfDay(date))
  {
    var days := DayRecords(MonthGrid(t, firstWeekday), Grouped(fetched), lunarOf);
    var r := FirstSameDay(days, date);
    if r.Some? {
      var k :| 0 <= k < |days| && days[k] == r.value && SameDay(r.value.date, date);
      RecordOnDay(t, firstWeekday, fetched, lunarOf, k, date);
    }
  }

  /** The record at a grid position on the day of `date` holds the fetched events starting that day. */
  lemma RecordOnDay(t: Date, firstWeekday: int, fetched: seq<CalendarEvent>, lunarOf: Date -> ValidLunarDate, k: int, date: Date)
    requires 0 <= k < GridLength(t, firstWeekday)
    ensures var r := DayRecords(MonthGrid(t, firstWeekday), Grouped(fetched), lunarOf)[k];
      SameDay(r.date, date) ==> r.events == EventsOn(fetched, StartOfDay(date))
  {
    var g := MonthGrid(t, firstWeekday);
    LoadedRecords(t, firstWeekday, fetched, lunarOf, k);
    if SameDay(g[k], date) {
      assert DayNumber(g[k]) == GridStart(t, firstWeekday) + k == DayNumber(date);
    }
  }

  /** Records built without events show no events, whichever day is selected. */
  lemma NothingSelectedWithoutEvents(g: seq<Date>, lunarOf: Date -> ValidLunarDate, date: Date)
    ensures match FirstSameDay(DayRecords(g, map[], lunarOf), date)
      case Some(d) => d.events == []
      case None => true
  {
    var days := DayRecords(g, map[], lunarOf);
    var r := FirstSameDay(days, date);
    if r.Some? {
      var k :| 0 <= k < |days| && days[k] == r.value && SameDay(r.value.date, date);
      assert days[k] == DayRecord(g[k], map[], lunarOf);
    }
  }

  /** One more event of the batch, grouped. */
  lemma GroupedPrefixStep(events: seq<CalendarEvent>, i: nat, grouped: map<Date, seq<CalendarEvent>>)
    requires i < |events| && grouped == Grouped(events[..i])
    ensures var d := StartOfDay(events[i].startDate);
      Grouped(events[..i + 1]) == grouped[d := (if d in grouped then grouped[d] else []) + [events[i]]]
  {
    GroupedStep(events[..i], events[i]);
    assert events[..i + 1] == events[..i] + [events[i]];
  }

  /** `grouped[day, default: []].append(e)` for the start day of `e`. */
  function AddToBucket(grouped: map<Date, seq<CalendarEvent>>, e: CalendarEvent): map<Date, seq<CalendarEvent>> {
    var d := EventDay(e);
    grouped[d := (if d in grouped then grouped[d] else []) + [e]]
  }

  /** Adding one event to a batch adds it at the end of its day's bucket, creating the bucket if needed. */
  lemma GroupedStep(s: seq<CalendarEvent>, e: CalendarEvent)
    ensures Grouped(s + [e]) == AddToBucket(Grouped(s), e)
  {
    var d := EventDay(e);
    var lhs := Grouped(s + [e]);
    var rhs := Grouped(s)[d := (if d in Grouped(s) then Grouped(s)[d] else []) + [e]];
    assert (s + [e])[..|s|] == s;
    forall x ensures x in EventDays(s + [e]) <==> x in EventDays(s) || x == d {
      if x in EventDays(s + [e]) {
        var y :| y in s + [e] && EventDay(y) == x;
      }
      if x in EventDays(s) {
        var y :| y in s && EventDay(y) == x;
        assert y in s + [e];
      }
    }
    forall x | x in lhs ensures x in rhs && lhs[x] == rhs[x] {
      assert EventsOn(s + [e], x) == EventsOn(s, x) + (if EventDay(e) == x then [e] else []);
      BucketExists(s, x);
    }
    assert lhs.Keys == rhs.Keys;
  }

  // ---------------------------------------------------------------------------
  // The manager

  /** `CalendarManager`: the month on display, its day records and the selected day. */
  class CalendarManager {
    var currentMonth: Date
    var days: seq<CalendarDay>
    var selectedDay: Date
    var selectedDayEvents: seq<CalendarEvent>
    /** `calendar.firstWeekday` of the host calendar: 1 = Sunday, ..., 7 = Saturday. */
    const firstWeekday: int

    /** The records always form whole weeks of consecutive days. */
    ghost predicate Valid()
      reads this
    {
      1 <= firstWeekday <= 7 && |days| % 7 == 0 && ConsecutiveDays(days)
    }

    /** A manager showing the month of `now`, before its first load. */
    constructor (now: Date, firstWeekday: int)
      requires 1 <= firstWeekday <= 7
      ensures Valid()
      ensures currentMonth == now && selectedDay == now && days == [] && selectedDayEvents == []
      ensures this.firstWeekday == firstWeekday
    {
      currentMonth := now;
      days := [];
      selectedDay := now;
      selectedDayEvents := [];
      this.firstWeekday := firstWeekday;
    }

    /** `goToCurrentMonth`: show the month of `now`. */
    method GoToCurrentMonth(now: Date)
      modifies this
      requires Valid()
      ensures Valid()
      ensures currentMonth == now
      ensures days == old(days) && selectedDay == old(selectedDay) && selectedDayEvents == old(selectedDayEvents)
    {
      currentMonth := now;
    }

    /** `goToNextMonth`: move the displayed month one month on, clamping the day of the month. */
    method GoToNextMonth()
      modifies this
      requires Valid()
      ensures Valid()
      ensures currentMonth == AddMonths(old(currentMonth), 1)
      ensures MonthIndex(CivilOf(currentMonth)) == MonthIndex(CivilOf(old(currentMonth))) + 1
      ensures days == old(days) && selectedDay == old(selectedDay) && selectedDayEvents == old(selectedDayEvents)
    {
      currentMonth := AddMonths(currentMonth, 1);
    }

    /** `goToPreviousMonth`: move the displayed month one month back, clamping the day of the month. */
    method GoToPreviousMonth()
      modifies this
      requires Valid()
      ensures Valid()
      ensures currentMonth == AddMonths(old(currentMonth), -1)
      ensures MonthIndex(CivilOf(currentMonth)) == MonthIndex(CivilOf(old(currentMonth))) - 1
      ensures days == old(days) && selectedDay == old(selectedDay) && selectedDayEvents == old(selectedDayEvents)
    {
      currentMonth := AddMonths(currentMonth, -1);
    }

    /** `getEvent(date:)`: select `date` and show the events of the first record on its day, if any. */
    method GetEvent(date: Date)
      modifies this
      requires Valid()
      ensures Valid()
      ensures selectedDay == date
      ensures selectedDayEvents == match FirstSameDay(days, date) case Some(d) => d.events case None => []
      ensures currentMonth == old(currentMonth) && days == old(days)
    {
      selectedDay := date;
      var records := days;
      var i := 0;
      while i < |records| && !SameDay(records[i].date, date)
        invariant 0 <= i <= |records|
        invariant forall j :: 0 <= j < i ==> !SameDay(records[j].date, date)
      {
        i := i + 1;
      }
      if i < |records| {
        selectedDayEvents := records[i].events;
        var k :| 0 <= k < |records| && records[k] == FirstSameDay(records, date).value
                 && SameDay(records[k].date, date)
                 && forall j :: 0 <= j < k ==> !SameDay(records[j].date, date);
        assert k == i;
      } else {
        selectedDayEvents := [];
      }
    }

    /** `generateDateGrid(for:)`: lead days, the month's days, then trailing days up to whole weeks. */
    method GenerateDateGrid(date: Date) returns (gridDates: seq<Date>)
      ensures gridDates == MonthGrid(date, firstWeekday)
    {
      var first := MonthStart(date);
      var firstDayOfMonth := Midnight(first);
      var count := MonthLength(date);
      ghost var start := GridStart(date, firstWeekday);

      var weekdayOfFirst := Weekday(DayNumber(firstDayOfMonth));
      var offsetToMonday := (weekdayOfFirst - firstWeekday + 7) % 7;
      assert offsetToMonday == LeadDays(date, firstWeekday) && start == first - offsetToMonday;
      gridDates := [];
      if offsetToMonday > 0 {
        var i := offsetToMonday;
        while i > 0
          invariant 0 <= i <= offsetToMonday
          invariant |gridDates| == offsetToMonday - i
          invariant gridDates == Cells(start, |gridDates|)
        {
          AddDaysToMidnight(first, -i);
          CellsSnoc(start, gridDates, AddDays(firstDayOfMonth, -i));
          gridDates := gridDates + [AddDays(firstDayOfMonth, -i)];
          i := i - 1;
        }
      }

      var i := 0;
      while i < count
        invariant 0 <= i <= count
        invariant |gridDates| == offsetToMonday + i
        invariant gridDates == Cells(start, |gridDates|)
      {
        AddDaysToMidnight(first, i);
        CellsSnoc(start, gridDates, AddDays(firstDayOfMonth, i));
        gridDates := gridDates + [AddDays(firstDayOfMonth, i)];
        i := i + 1;
      }

      var totalDays := |gridDates|;
      var remaining := totalDays % 7;
      if remaining > 0 {
        var lastDay := gridDates[|gridDates| - 1];
        assert lastDay == Midnight(start + totalDays - 1);
        var j := 1;
        while j <= 7 - remaining
          invariant 1 <= j <= 8 - remaining
          invariant |gridDates| == totalDays + j - 1
          invariant gridDates == Cells(start, |gridDates|)
        {
          AddDaysToMidnight(start + totalDays - 1, j);
          CellsSnoc(start, gridDates, AddDays(lastDay, j));
          gridDates := gridDates + [AddDays(lastDay, j)];
          j := j + 1;
        }
      }
      assert |gridDates| == GridLength(date, firstWeekday);
    }

    /** `groupEventsByDay(events:)`: append each event to the bucket of its start day. */
    method GroupEventsByDay(events: seq<CalendarEvent>) returns (groupedEvents: map<Date, seq<CalendarEvent>>)
      ensures groupedEvents == Grouped(events)
    {
      groupedEvents := map[];
      var i := 0;
      while i < |events|
        invariant 0 <= i <= |events|
        invariant groupedEvents == Grouped(events[..i])
      {
        var event := events[i];
        var dayOfEvent := StartOfDay(event.startDate);
        var bucket := if dayOfEvent in groupedEvents then groupedEvents[dayOfEvent] else [];
        GroupedPrefixStep(events, i, groupedEvents);
        groupedEvents := groupedEvents[dayOfEvent := bucket + [event]];
        i := i + 1;
      }
      assert events[..|events|] == events;
    }

    /**
      `generateCalendarGrid(for:events:)`: one record per grid day, in grid order, labelled
      with its lunar label and solar term and carrying its bucket of `events`.
     */
    method GenerateCalendarGrid(date: Date, events: map<Date, seq<CalendarEvent>>, lunarOf: Date -> ValidLunarDate)
      modifies this
      requires Valid()
      ensures Valid()
      ensures days == DayRecords(MonthGrid(date, firstWeekday), events, lunarOf)
      ensures currentMonth == old(currentMonth) && selectedDay == old(selectedDay)
      ensures selectedDayEvents == old(selectedDayEvents)
    {
      var gridDates := GenerateDateGrid(date);
      var newDays := BuildRecords(gridDates, events, lunarOf);
      RecordsConsecutive(date, firstWeekday, events, lunarOf);
      days := newDays;
    }

    /**
      `loadMonth(date:)` once the store has answered: `accessGranted` is whether full access
      was granted and `fetched` the events the store returned for the grid's range.
     */
    method LoadMonth(date: Date, accessGranted: bool, fetched: seq<CalendarEvent>, lunarOf: Date -> ValidLunarDate)
      modifies this
      requires Valid()
      ensures Valid()
      ensures days == DayRecords(MonthGrid(date, firstWeekday), if accessGranted then Grouped(fetched) else map[], lunarOf)
      ensures currentMonth == old(currentMonth) && selectedDay == old(selectedDay)
      ensures selectedDayEvents == old(selectedDayEvents)
    {
      if !accessGranted {
        GenerateCalendarGrid(date, map[], lunarOf);
        return;
      }
      var groupedEvents := GroupEventsByDay(fetched);
      GenerateCalendarGrid(date, groupedEvents, lunarOf);
    }

    /**
      `refreshEvents`: reload the displayed month and re-select the selected day. With access
      granted the day then shows exactly the fetched events starting on it (none when it lies
      outside the grid); with access denied the grid carries no events and the day shows none.
     */
    method RefreshEvents(accessGranted: bool, fetched: seq<CalendarEvent>, lunarOf: Date -> ValidLunarDate)
      modifies this
      requires Valid()
      ensures Valid()
      ensures days == DayRecords(MonthGrid(currentMonth, firstWeekday), if accessGranted then Grouped(fetched) else map[], lunarOf)
      ensures currentMonth == old(currentMonth) && selectedDay == old(selectedDay)
      ensures var g := MonthGrid(currentMonth, firstWeekday);
        selectedDayEvents
          == if accessGranted && DayNumber(g[0]) <= DayNumber(selectedDay) <= DayNumber(g[|g| - 1])
             then EventsOn(fetched, StartOfDay(selectedDay)) else []
    {
      LoadMonth(currentMonth, accessGranted, fetched, lunarOf);
      GetEvent(selectedDay);
      if accessGranted {
        SelectedEvents(currentMonth, firstWeekday, fetched, lunarOf, selectedDay);
      } else {
        NothingSelectedWithoutEvents(MonthGrid(currentMonth, firstWeekday), lunarOf, selectedDay);
      }
    }
  }
}
