/**
  The day list under the calendar: the selected day's events and reminders merged into one
  list, all-day items first, then timed items by time.
 */
module EventList {
  import opened Wrappers
  import opened Civil
  import opened Seqs
  import opened Models

  /** `CalendarItemType`: an event or a reminder. */
  datatype CalendarItem = EventItem(event: CalendarEvent) | ReminderItem(reminder: CalendarReminder)

  /** `Date.distantPast` (1 January of year 1 in the Julian calendar) in seconds since 1970. */
  const DistantPast: Date := -62135769600

  /** The item's identifier: the store identifier behind a prefix naming its kind. */
  function Id(item: CalendarItem): (r: string)
    ensures item.EventItem? ==> r == "event_" + item.event.id
    ensures item.ReminderItem? ==> r == "reminder_" + item.reminder.id
  {
    match item
    case EventItem(e) => "event_" + e.id
    case ReminderItem(r) => "reminder_" + r.id
  }

  /**
    Two items share an identifier only when they are of the same kind and their store
    identifiers are equal; in particular an event never shares one with a reminder.
   */
  lemma IdInjective(a: CalendarItem, b: CalendarItem)
    requires Id(a) == Id(b)
    ensures a.EventItem? <==> b.EventItem?
    ensures a.EventItem? ==> a.event.id == b.event.id
    ensures a.ReminderItem? ==> a.reminder.id == b.reminder.id
  {
    if a.EventItem? && b.EventItem? {
      assert a.event.id == Id(a)[6..];
      assert b.event.id == Id(b)[6..];
    } else if a.ReminderItem? && b.ReminderItem? {
      assert a.reminder.id == Id(a)[9..];
      assert b.reminder.id == Id(b)[9..];
    } else if a.EventItem? {
      FirstOfConcat("event_", a.event.id);
    } else {
      FirstOfConcat("reminder_", a.reminder.id);
    }
  }

  lemma FirstOfConcat(prefix: string, rest: string)
    requires prefix != []
    ensures (prefix + rest)[0] == prefix[0]
  {
  }

  /** The instant an item is ordered by: an event's start, a reminder's due date, or the distant past. */
  function SortDate(item: CalendarItem): (r: Date)
    ensures item.EventItem? ==> r == item.event.startDate
    ensures item.ReminderItem? ==> r == item.reminder.dueDate.GetOr(DistantPast)
  {
    match item
    case EventItem(e) => e.startDate
    case ReminderItem(r) => r.dueDate.GetOr(DistantPast)
  }

  /** An event's all-day flag, or a reminder without a time of day. */
  predicate IsAllDay(item: CalendarItem) {
    match item
    case EventItem(e) => e.isAllDay
    case ReminderItem(r) => !r.hasTime
  }

  /** The comparator of `sortedItems`, as written. */
  predicate AreInIncreasingOrder(a: CalendarItem, b: CalendarItem) {
    if IsAllDay(a) && IsAllDay(b) then false
    else if IsAllDay(a) then true
    else if IsAllDay(b) then false
    else SortDate(a) < SortDate(b)
  }

  /** All-day items share the lowest key; timed items rank after them by their sort date. */
  function ItemKey(item: CalendarItem): SortKey {
    if IsAllDay(item) then SortKey(0, 0) else SortKey(1, SortDate(item))
  }

  /** The comparator is the strict order on item keys. */
  lemma ComparatorIsKeyOrder(a: CalendarItem, b: CalendarItem)
    ensures AreInIncreasingOrder(a, b) == KeyLess(ItemKey(a), ItemKey(b))
  {
  }

  const AllDay: CalendarItem -> bool := (item: CalendarItem) => IsAllDay(item)

  /** The selected day's events, then its reminders, as items. */
  function Merged(events: seq<CalendarEvent>, reminders: seq<CalendarReminder>): (r: seq<CalendarItem>)
    ensures |r| == |events| + |reminders|
    ensures forall i :: 0 <= i < |events| ==> r[i] == EventItem(events[i])
    ensures forall i :: 0 <= i < |reminders| ==> r[|events| + i] == ReminderItem(reminders[i])
  {
    seq(|events|, i requires 0 <= i < |events| => EventItem(events[i]))
    + seq(|reminders|, i requires 0 <= i < |reminders| => ReminderItem(reminders[i]))
  }

  /** An item is merged exactly when its event or its reminder is one of the day's. */
  lemma MergedMembers(events: seq<CalendarEvent>, reminders: seq<CalendarReminder>, item: CalendarItem)
    ensures item in Merged(events, reminders)
            <==> (item.EventItem? && item.event in events) || (item.ReminderItem? && item.reminder in reminders)
  {
    var m := Merged(events, reminders);
    if item in m {
      var k :| 0 <= k < |m| && m[k] == item;
      if k >= |events| {
        assert m[|events| + (k - |events|)] == item;
      }
    }
    if item.EventItem? && item.event in events {
      var k :| 0 <= k < |events| && events[k] == item.event;
      assert m[k] == item;
    }
    if item.ReminderItem? && item.reminder in reminders {
      var k :| 0 <= k < |reminders| && reminders[k] == item.reminder;
      assert m[|events| + k] == item;
    }
  }

  /** Sorting by item key puts all-day items first and timed items in order of their sort date. */
  lemma ItemOrder(items: seq<CalendarItem>)
    ensures var r := SortByKey(items, ItemKey);
      && (forall i, j :: 0 <= i < j < |r| && IsAllDay(r[j]) ==> IsAllDay(r[i]))
      && (forall i, j :: 0 <= i < j < |r| && !IsAllDay(r[i]) && !IsAllDay(r[j]) ==> SortDate(r[i]) <= SortDate(r[j]))
  {
    var r := SortByKey(items, ItemKey);
    forall i, j | 0 <= i < j < |r| ensures KeyLe(ItemKey(r[i]), ItemKey(r[j])) {
    }
  }

  /** Sorting by item key keeps the all-day items in their input order. */
  lemma AllDayStable(items: seq<CalendarItem>)
    ensures Filter(SortByKey(items, ItemKey), AllDay) == Filter(items, AllDay)
  {
    var sorted := SortByKey(items, ItemKey);
    var p := HasKey(ItemKey, SortKey(0, 0));
    SortByKeyStable(items, ItemKey, SortKey(0, 0));
    forall x ensures AllDay(x) == p(x) {
      assert p(x) == (ItemKey(x) == SortKey(0, 0));
    }
    FilterExtensional(sorted, AllDay, p);
    FilterExtensional(items, AllDay, p);
  }

  /**
    `sortedItems`: the selected day's events and reminders in one list. It holds exactly the
    merged items; all-day items come before timed ones; timed items are in order of their
    sort date; and all-day items keep the order in which they were merged.
   */
  method SortedItems(events: seq<CalendarEvent>, reminders: seq<CalendarReminder>) returns (sorted: seq<CalendarItem>)
    ensures multiset(sorted) == multiset(Merged(events, reminders))
    ensures forall i, j :: 0 <= i < j < |sorted| && IsAllDay(sorted[j]) ==> IsAllDay(sorted[i])
    ensures forall i, j :: 0 <= i < j < |sorted| && !IsAllDay(sorted[i]) && !IsAllDay(sorted[j])
              ==> SortDate(sorted[i]) <= SortDate(sorted[j])
    ensures Filter(sorted, AllDay) == Filter(Merged(events, reminders), AllDay)
  {
    var items: seq<CalendarItem> := [];
    items := items + seq(|events|, i requires 0 <= i < |events| => EventItem(events[i]));
    items := items + seq(|reminders|, i requires 0 <= i < |reminders| => ReminderItem(reminders[i]));
    assert items == Merged(events, reminders);
    sorted := SortByKey(items, ItemKey);
    ItemOrder(items);
    AllDayStable(items);
  }
}
