/**
  The reminder classifier of the reminders panel: incomplete reminders are split into overdue,
  one-time, six cadence buckets, multi-year groups and future ones. "Now" is a parameter;
  "today" is the start of its day.
 */
module Reminders {
  import opened Wrappers
  import opened Civil
  import opened Seqs
  import opened Models

  /** A reminder paired with the date it is listed under. */
  datatype ReminderWithDate = ReminderWithDate(id: string, reminder: CalendarReminder, date: Date)

  /** A reminder listed under its due date, or under `now` when it has none. */
  function WithDate(reminder: CalendarReminder, now: Date): ReminderWithDate {
    ReminderWithDate(reminder.id, reminder, reminder.dueDate.GetOr(now))
  }

  /** `remindersWithDates`: every incomplete reminder, each listed under its due date or under `now`. */
  function RemindersWithDates(reminders: seq<CalendarReminder>, now: Date): (r: seq<ReminderWithDate>)
    ensures |r| == |reminders|
    ensures forall rem :: rem in reminders ==> WithDate(rem, now) in r
    ensures forall x :: x in r ==> x.reminder in reminders && x == WithDate(x.reminder, now)
  {
    var r := seq(|reminders|, i requires 0 <= i < |reminders| => WithDate(reminders[i], now));
    assert forall i :: 0 <= i < |reminders| ==> r[i] == WithDate(reminders[i], now);
    r
  }

  function Today(now: Date): Date { StartOfDay(now) }

  // ---------------------------------------------------------------------------
  // Sorting by due date

  /** The comparator of `sortedByDate`: dated reminders first, by due instant; undated ones last. */
  function DueKey(item: ReminderWithDate): SortKey {
    match item.reminder.dueDate
    case Some(d) => SortKey(0, d)
    case None => SortKey(1, 0)
  }

  /** The comparator of `sortedByDate`, as written. */
  predicate DueBefore(a: ReminderWithDate, b: ReminderWithDate) {
    if a.reminder.dueDate.Some? && b.reminder.dueDate.Some? then a.reminder.dueDate.value < b.reminder.dueDate.value
    else if a.reminder.dueDate.Some? then true
    else if b.reminder.dueDate.Some? then false
    else false
  }

  /** The comparator is the strict order on due keys. */
  lemma DueBeforeIsKeyOrder(a: ReminderWithDate, b: ReminderWithDate)
    ensures DueBefore(a, b) == KeyLess(DueKey(a), DueKey(b))
  {
  }

  /** `sortedByDate(_:)`. */
  function SortedByDate(items: seq<ReminderWithDate>): seq<ReminderWithDate> {
    SortByKey(items, DueKey)
  }

  /**
    Sorting by date keeps exactly the same reminders, puts every dated reminder before every
    undated one, and orders dated reminders by due instant.
   */
  lemma SortedByDateOrder(items: seq<ReminderWithDate>)
    ensures var r := SortedByDate(items);
      && multiset(r) == multiset(items)
      && (forall i, j :: 0 <= i < j < |r| && r[j].reminder.dueDate.Some? ==> r[i].reminder.dueDate.Some?)
      && (forall i, j :: 0 <= i < j < |r| && r[i].reminder.dueDate.Some? && r[j].reminder.dueDate.Some?
            ==> r[i].reminder.dueDate.value <= r[j].reminder.dueDate.value)
  {
    var r := SortedByDate(items);
    forall i, j | 0 <= i < j < |r| ensures KeyLe(DueKey(r[i]), DueKey(r[j])) {
    }
  }

  lemma SortedByDateMembers(items: seq<ReminderWithDate>, x: ReminderWithDate)
    ensures x in SortedByDate(items) <==> x in items
  {
    SortByKeyMembers(items, DueKey, x);
  }

  // ---------------------------------------------------------------------------
  // Classification rules

  /** `isNotFuture(_:)`: undated, or due no later than today. */
  predicate IsNotFuture(item: ReminderWithDate, now: Date) {
    match item.reminder.dueDate
    case None => true
    case Some(d) => StartOfDay(d) <= Today(now)
  }

  /** The end of the first recurrence cycle: the due date plus `interval` units of `frequency`, if the frequency is known. */
  function CycleEnd(start: Date, frequency: string, interval: int): (r: Option<Date>)
    ensures r.Some? <==> frequency in {"daily", "weekly", "monthly", "yearly"}
  {
    if frequency == "daily" then Some(AddDays(start, interval))
    else if frequency == "weekly" then Some(AddDays(start, 7 * interval))
    else if frequency == "monthly" then Some(AddMonths(start, interval))
    else if frequency == "yearly" then Some(AddYears(start, interval))
    else None
  }

  /** `isRecurringOverdue(_:)`: the whole first cycle, through the day before its end, lies before today. */
  predicate IsRecurringOverdue(item: ReminderWithDate, now: Date) {
    var r := item.reminder;
    if r.dueDate.None? || r.recurrenceFrequency.None? || r.recurrenceInterval.None? then false
    else
      match CycleEnd(r.dueDate.value, r.recurrenceFrequency.value, r.recurrenceInterval.value)
      case None => false
      case Some(end) => StartOfDay(AddDays(end, -1)) < Today(now)
  }

  /** A recurring reminder is never overdue without a due date, a frequency and an interval, or with an unknown frequency. */
  lemma RecurringOverdueNeedsCycle(item: ReminderWithDate, now: Date)
    requires IsRecurringOverdue(item, now)
    ensures item.reminder.dueDate.Some? && item.reminder.recurrenceInterval.Some?
    ensures item.reminder.recurrenceFrequency.Some?
    ensures item.reminder.recurrenceFrequency.value in {"daily", "weekly", "monthly", "yearly"}
  {
  }

  /** With a positive interval the cycle ends on a later day than the due date. */
  lemma CycleEndLater(start: Date, frequency: string, interval: int)
    requires interval >= 1 && CycleEnd(start, frequency, interval).Some?
    ensures DayNumber(CycleEnd(start, frequency, interval).value) > DayNumber(start)
  {
    if frequency == "monthly" {
      AddMonthsLater(start, interval);
    } else if frequency == "yearly" {
      AddYearsLater(start, interval);
    }
  }

  /** An overdue recurring reminder with a positive interval was due before today. */
  lemma OverdueWasDueBeforeToday(item: ReminderWithDate, now: Date)
    requires IsRecurringOverdue(item, now)
    requires item.reminder.recurrenceInterval.Some? && item.reminder.recurrenceInterval.value >= 1
    ensures DayNumber(item.reminder.dueDate.value) < DayNumber(now)
  {
    var r := item.reminder;
    var end := CycleEnd(r.dueDate.value, r.recurrenceFrequency.value, r.recurrenceInterval.value).value;
    CycleEndLater(r.dueDate.value, r.recurrenceFrequency.value, r.recurrenceInterval.value);
    StartOfDayOrder(AddDays(end, -1), now);
  }

  /** A daily reminder due on day `d` every `n` days is overdue exactly when `d + n - 1` is before today. */
  lemma DailyOverdue(item: ReminderWithDate, now: Date)
    requires item.reminder.dueDate.Some? && item.reminder.recurrenceInterval.Some?
    requires item.reminder.recurrenceFrequency == Some("daily")
    ensures IsRecurringOverdue(item, now)
            <==> DayNumber(item.reminder.dueDate.value) + item.reminder.recurrenceInterval.value - 1 < DayNumber(now)
  {
    var r := item.reminder;
    var end := AddDays(r.dueDate.value, r.recurrenceInterval.value);
    StartOfDayOrder(AddDays(end, -1), now);
  }

  // ---------------------------------------------------------------------------
  // Filters

  const Recurring: ReminderWithDate -> bool := (x: ReminderWithDate) => x.reminder.isRecurring
  const NotRecurring: ReminderWithDate -> bool := (x: ReminderWithDate) => !x.reminder.isRecurring

  function DueFromToday(now: Date): ReminderWithDate -> bool {
    (x: ReminderWithDate) => match x.reminder.dueDate case None => true case Some(d) => StartOfDay(d) >= Today(now)
  }

  function DueBeforeToday(now: Date): ReminderWithDate -> bool {
    (x: ReminderWithDate) => match x.reminder.dueDate case None => false case Some(d) => StartOfDay(d) < Today(now)
  }

  function DueAfterToday(now: Date): ReminderWithDate -> bool {
    (x: ReminderWithDate) => match x.reminder.dueDate case None => false case Some(d) => StartOfDay(d) > Today(now)
  }

  function NotFuture(now: Date): ReminderWithDate -> bool {
    (x: ReminderWithDate) => IsNotFuture(x, now)
  }

  function RecurringOverdue(now: Date): ReminderWithDate -> bool {
    (x: ReminderWithDate) => IsRecurringOverdue(x, now)
  }

  function NotRecurringOverdue(now: Date): ReminderWithDate -> bool {
    (x: ReminderWithDate) => !IsRecurringOverdue(x, now)
  }

  /** `oneTimeReminders`: non-recurring reminders that are undated or due today or later, sorted by date. */
  function OneTime(items: seq<ReminderWithDate>, now: Date): seq<ReminderWithDate> {
    SortedByDate(Filter(Filter(items, NotRecurring), DueFromToday(now)))
  }

  /** `overdueReminders`: non-recurring reminders due before today, then overdue recurring ones, sorted by date. */
  function Overdue(items: seq<ReminderWithDate>, now: Date): seq<ReminderWithDate> {
    SortedByDate(Filter(Filter(items, NotRecurring), DueBeforeToday(now))
                 + Filter(Filter(items, Recurring), RecurringOverdue(now)))
  }

  /** Recurring reminders that are neither in the future nor overdue: the ones the cadence buckets choose from. */
  function Current(items: seq<ReminderWithDate>, now: Date): seq<ReminderWithDate> {
    Filter(Filter(Filter(items, Recurring), NotFuture(now)), NotRecurringOverdue(now))
  }

  /** `futureReminders`: recurring reminders due after today, sorted by date. */
  function Future(items: seq<ReminderWithDate>, now: Date): seq<ReminderWithDate> {
    SortedByDate(Filter(Filter(items, Recurring), DueAfterToday(now)))
  }

  /** A reminder is current exactly when it is recurring, not in the future and not overdue. */
  lemma CurrentMembers(items: seq<ReminderWithDate>, now: Date, x: ReminderWithDate)
    ensures x in Current(items, now)
            <==> x in items && x.reminder.isRecurring && IsNotFuture(x, now) && !IsRecurringOverdue(x, now)
  {
    FilterMembers(items, Recurring, x);
    FilterMembers(Filter(items, Recurring), NotFuture(now), x);
    FilterMembers(Filter(Filter(items, Recurring), NotFuture(now)), NotRecurringOverdue(now), x);
  }

  /**
    Non-recurring reminders are split exactly: one without a due date or due today or later is
    one-time, one due before today is overdue, and none is both.
   */
  lemma NonRecurringPartition(items: seq<ReminderWithDate>, now: Date, x: ReminderWithDate)
    requires x in items && !x.reminder.isRecurring
    ensures x in OneTime(items, now) <==> x.reminder.dueDate.None? || StartOfDay(x.reminder.dueDate.value) >= Today(now)
    ensures x in Overdue(items, now) <==> x.reminder.dueDate.Some? && StartOfDay(x.reminder.dueDate.value) < Today(now)
    ensures !(x in OneTime(items, now) && x in Overdue(items, now))
  {
    var a := Filter(Filter(items, NotRecurring), DueBeforeToday(now));
    var b := Filter(Filter(items, Recurring), RecurringOverdue(now));
    FilterMembers(items, NotRecurring, x);
    FilterMembers(items, Recurring, x);
    FilterMembers(Filter(items, NotRecurring), DueFromToday(now), x);
    FilterMembers(Filter(items, NotRecurring), DueBeforeToday(now), x);
    FilterMembers(Filter(items, Recurring), RecurringOverdue(now), x);
    SortedByDateMembers(Filter(Filter(items, NotRecurring), DueFromToday(now)), x);
    SortedByDateMembers(a + b, x);
  }

  /**
    Every one-time reminder of the store is listed exactly once: under the one-time reminders
    when it is undated or due today or later, under the overdue ones otherwise.
   */
  lemma NonRecurringSection(reminders: seq<CalendarReminder>, now: Date, rem: CalendarReminder)
    requires rem in reminders && !rem.isRecurring
    ensures var items, x := RemindersWithDates(reminders, now), WithDate(rem, now);
      && (x in OneTime(items, now) <==> rem.dueDate.None? || StartOfDay(rem.dueDate.value) >= Today(now))
      && (x in Overdue(items, now) <==> !(x in OneTime(items, now)))
  {
    NonRecurringPartition(RemindersWithDates(reminders, now), now, WithDate(rem, now));
  }

  /**
    A recurring reminder of the store is never listed as one-time; it is listed as overdue
    exactly when its cycle has run out, and as future exactly when it is due after today.
   */
  lemma RecurringSection(reminders: seq<CalendarReminder>, now: Date, rem: CalendarReminder)
    requires rem in reminders && rem.isRecurring
    ensures var items, x := RemindersWithDates(reminders, now), WithDate(rem, now);
      && x !in OneTime(items, now)
      && (x in Overdue(items, now) <==> IsRecurringOverdue(x, now))
      && (x in Future(items, now) <==> rem.dueDate.Some? && StartOfDay(rem.dueDate.value) > Today(now))
  {
    var items, x := RemindersWithDates(reminders, now), WithDate(rem, now);
    RecurringOverdueMembers(items, now, x);
    FutureMembers(items, now, x);
  }

  /** A recurring reminder is in the overdue list exactly when it is recurring-overdue. */
  lemma RecurringOverdueMembers(items: seq<ReminderWithDate>, now: Date, x: ReminderWithDate)
    requires x in items && x.reminder.isRecurring
    ensures x in Overdue(items, now) <==> IsRecurringOverdue(x, now)
    ensures x !in OneTime(items, now)
  {
    var a := Filter(Filter(items, NotRecurring), DueBeforeToday(now));
    var b := Filter(Filter(items, Recurring), RecurringOverdue(now));
    FilterMembers(items, NotRecurring, x);
    FilterMembers(items, Recurring, x);
    FilterMembers(Filter(items, NotRecurring), DueFromToday(now), x);
    FilterMembers(Filter(items, NotRecurring), DueBeforeToday(now), x);
    FilterMembers(Filter(items, Recurring), RecurringOverdue(now), x);
    SortedByDateMembers(Filter(Filter(items, NotRecurring), DueFromToday(now)), x);
    SortedByDateMembers(a + b, x);
  }

  /** Future holds exactly the recurring reminders due after today. */
  lemma FutureMembers(items: seq<ReminderWithDate>, now: Date, x: ReminderWithDate)
    ensures x in Future(items, now)
            <==> x in items && x.reminder.isRecurring && x.reminder.dueDate.Some?
                 && StartOfDay(x.reminder.dueDate.value) > Today(now)
  {
    FilterMembers(items, Recurring, x);
    FilterMembers(Filter(items, Recurring), DueAfterToday(now), x);
    SortedByDateMembers(Filter(Filter(items, Recurring), DueAfterToday(now)), x);
  }

  /** A future reminder is not current, and with a positive interval it is not overdue either. */
  lemma FutureIsNotCurrent(items: seq<ReminderWithDate>, now: Date, x: ReminderWithDate)
    requires x in Future(items, now)
    ensures x !in Current(items, now)
    ensures x.reminder.recurrenceInterval.Some? && x.reminder.recurrenceInterval.value >= 1 ==> x !in Overdue(items, now)
  {
    FutureMembers(items, now, x);
    CurrentMembers(items, now, x);
    RecurringOverdueMembers(items, now, x);
    if x.reminder.recurrenceInterval.Some? && x.reminder.recurrenceInterval.value >= 1 && IsRecurringOverdue(x, now) {
      OverdueWasDueBeforeToday(x, now);
    }
  }

  // ---------------------------------------------------------------------------
  // Cadence buckets

  /** The six cadence sections of the panel. */
  datatype Cadence = Weekly | Biweekly | Monthly | Quarterly | Semiannually | Yearly

  /** The (frequency, interval) pair each section takes. */
  function Pattern(c: Cadence): (string, int) {
    match c
    case Weekly => ("weekly", 1)
    case Biweekly => ("weekly", 2)
    case Monthly => ("monthly", 1)
    case Quarterly => ("monthly", 3)
    case Semiannually => ("monthly", 6)
    case Yearly => ("yearly", 1)
  }

  lemma PatternInjective(a: Cadence, b: Cadence)
    requires Pattern(a) == Pattern(b)
    ensures a == b
  {
  }

  predicate HasPattern(x: ReminderWithDate, c: Cadence) {
    x.reminder.recurrenceFrequency == Some(Pattern(c).0) && x.reminder.recurrenceInterval == Some(Pattern(c).1)
  }

  function WithPattern(c: Cadence): ReminderWithDate -> bool {
    (x: ReminderWithDate) => HasPattern(x, c)
  }

  /** `weeklyReminders`, `biweeklyReminders`, ..., `yearlyReminders`: the current reminders of one pattern, sorted by date. */
  function CadenceBucket(items: seq<ReminderWithDate>, c: Cadence, now: Date): seq<ReminderWithDate> {
    SortedByDate(Filter(Current(items, now), WithPattern(c)))
  }

  /** A bucket holds exactly the current reminders with its pattern. */
  lemma CadenceBucketMembers(items: seq<ReminderWithDate>, c: Cadence, now: Date, x: ReminderWithDate)
    ensures x in CadenceBucket(items, c, now) <==> x in Current(items, now) && HasPattern(x, c)
  {
    FilterMembers(Current(items, now), WithPattern(c), x);
    SortedByDateMembers(Filter(Current(items, now), WithPattern(c)), x);
  }

  /** No reminder is in two cadence buckets. */
  lemma CadenceBucketsDisjoint(items: seq<ReminderWithDate>, a: Cadence, b: Cadence, now: Date, x: ReminderWithDate)
    requires a != b
    ensures !(x in CadenceBucket(items, a, now) && x in CadenceBucket(items, b, now))
  {
    CadenceBucketMembers(items, a, now, x);
    CadenceBucketMembers(items, b, now, x);
    if HasPattern(x, a) && HasPattern(x, b) {
      PatternInjective(a, b);
    }
  }

  // ---------------------------------------------------------------------------
  // Multi-year groups

  /** Yearly with an interval above one (a missing interval counts as one). */
  predicate IsMultiYear(x: ReminderWithDate) {
    x.reminder.recurrenceFrequency == Some("yearly") && x.reminder.recurrenceInterval.GetOr(1) > 1
  }

  const MultiYearFilter: ReminderWithDate -> bool := (x: ReminderWithDate) => IsMultiYear(x)

  /** The key a multi-year reminder is grouped under (a missing interval would count as two). */
  function GroupKey(x: ReminderWithDate): int {
    x.reminder.recurrenceInterval.GetOr(2)
  }

  function KeyIs(k: int): ReminderWithDate -> bool {
    (x: ReminderWithDate) => GroupKey(x) == k
  }

  datatype IntervalGroup = IntervalGroup(interval: int, reminders: seq<ReminderWithDate>)

  function MultiYear(items: seq<ReminderWithDate>, now: Date): seq<ReminderWithDate> {
    Filter(Current(items, now), MultiYearFilter)
  }

  function GroupKeys(xs: seq<ReminderWithDate>): (r: seq<int>)
    ensures |r| == |xs| && forall i :: 0 <= i < |xs| ==> r[i] == GroupKey(xs[i])
  {
    seq(|xs|, i requires 0 <= i < |xs| => GroupKey(xs[i]))
  }

  /**
    `multiYearRemindersGrouped`: the current multi-year reminders grouped by interval, groups in
    ascending interval order, each group sorted by date.
   */
  function MultiYearGrouped(items: seq<ReminderWithDate>, now: Date): (r: seq<IntervalGroup>) {
    var members := MultiYear(items, now);
    var keys := SortedUnique(GroupKeys(members));
    seq(|keys|, i requires 0 <= i < |keys| => IntervalGroup(keys[i], SortedByDate(Filter(members, KeyIs(keys[i])))))
  }

  /**
    Groups come in strictly ascending interval order, every interval exceeds one, and no group
    is empty.
   */
  lemma MultiYearGroups(items: seq<ReminderWithDate>, now: Date)
    ensures var g := MultiYearGrouped(items, now);
      && (forall i, j :: 0 <= i < j < |g| ==> g[i].interval < g[j].interval)
      && (forall i :: 0 <= i < |g| ==> g[i].interval > 1 && g[i].reminders != [])
  {
    var g := MultiYearGrouped(items, now);
    forall i | 0 <= i < |g| ensures g[i].interval > 1 && g[i].reminders != [] {
      GroupNonEmpty(items, now, i);
    }
  }

  lemma GroupNonEmpty(items: seq<ReminderWithDate>, now: Date, i: int)
    requires 0 <= i < |MultiYearGrouped(items, now)|
    ensures var g := MultiYearGrouped(items, now)[i];
      g.interval > 1 && g.reminders != []
  {
    var members := MultiYear(items, now);
    var keys := SortedUnique(GroupKeys(members));
    assert keys[i] in GroupKeys(members);
    var k :| 0 <= k < |members| && GroupKeys(members)[k] == keys[i];
    var x := members[k];
    FilterMembers(Current(items, now), MultiYearFilter, x);
    FilterMembers(members, KeyIs(keys[i]), x);
    SortedByDateMembers(Filter(members, KeyIs(keys[i])), x);
  }

  lemma MultiYearMembers(items: seq<ReminderWithDate>, now: Date, i: int, x: ReminderWithDate)
    requires 0 <= i < |MultiYearGrouped(items, now)|
    ensures var g := MultiYearGrouped(items, now)[i];
      x in g.reminders <==> x in Current(items, now) && IsMultiYear(x) && x.reminder.recurrenceInterval == Some(g.interval)
  {
    var members := MultiYear(items, now);
    var keys := SortedUnique(GroupKeys(members));
    FilterMembers(Current(items, now), MultiYearFilter, x);
    FilterMembers(members, KeyIs(keys[i]), x);
    SortedByDateMembers(Filter(members, KeyIs(keys[i])), x);
  }

  /** Every current multi-year reminder lands in the group of its interval. */
  lemma MultiYearCovered(items: seq<ReminderWithDate>, now: Date, x: ReminderWithDate)
    requires x in Current(items, now) && IsMultiYear(x)
    ensures exists i :: 0 <= i < |MultiYearGrouped(items, now)|
              && MultiYearGrouped(items, now)[i].interval == x.reminder.recurrenceInterval.value
              && x in MultiYearGrouped(items, now)[i].reminders
  {
    var members := MultiYear(items, now);
    var keys := SortedUnique(GroupKeys(members));
    FilterMembers(Current(items, now), MultiYearFilter, x);
    var k :| 0 <= k < |members| && members[k] == x;
    assert GroupKeys(members)[k] == GroupKey(x);
    assert GroupKey(x) in keys;
    var i :| 0 <= i < |keys| && keys[i] == GroupKey(x);
    MultiYearMembers(items, now, i, x);
  }

  /**
    A current reminder whose pattern is none of the six cadences and that is not multi-year,
    such as a daily or a two-monthly one, is shown in no section.
   */
  lemma Unbucketed(items: seq<ReminderWithDate>, now: Date, x: ReminderWithDate)
    requires x in Current(items, now) && !IsMultiYear(x)
    requires forall c: Cadence :: !HasPattern(x, c)
    ensures forall c: Cadence :: x !in CadenceBucket(items, c, now)
    ensures forall i :: 0 <= i < |MultiYearGrouped(items, now)| ==> x !in MultiYearGrouped(items, now)[i].reminders
    ensures x !in OneTime(items, now) && x !in Overdue(items, now) && x !in Future(items, now)
  {
    CurrentMembers(items, now, x);
    forall c: Cadence ensures x !in CadenceBucket(items, c, now) {
      CadenceBucketMembers(items, c, now, x);
    }
    forall i | 0 <= i < |MultiYearGrouped(items, now)| ensures x !in MultiYearGrouped(items, now)[i].reminders {
      MultiYearMembers(items, now, i, x);
    }
    RecurringOverdueMembers(items, now, x);
    FutureMembers(items, now, x);
  }
}
