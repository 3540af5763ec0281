/**
  The value types the calendar engine works on: events and reminders as the
  external store hands them over, and the per-day record of the month grid.
  Colours are not modelled.
 */
module Models {
  import opened Wrappers
  import opened Civil

  /** An event read from the calendar store. */
  datatype CalendarEvent = CalendarEvent(
    id: string,
    title: string,
    location: Option<string>,
    isAllDay: bool,
    startDate: Date,
    endDate: Date,
    notes: Option<string>,
    url: Option<string>)

  /** A reminder read from the reminder store; `priority` uses 0 = none, 1 = high, 5 = medium, 9 = low. */
  datatype CalendarReminder = CalendarReminder(
    id: string,
    title: string,
    isCompleted: bool,
    priority: int,
    dueDate: Option<Date>,
    hasTime: bool,
    notes: Option<string>,
    url: Option<string>,
    listName: string,
    isRecurring: bool,
    recurrenceFrequency: Option<string>,
    recurrenceInterval: Option<int>)

  /** One cell of the month grid. */
  datatype CalendarDay = CalendarDay(
    date: Date,
    lunarShort: Option<string>,
    lunarFull: Option<string>,
    holidays: seq<string>,
    solarTerm: Option<string>,
    events: seq<CalendarEvent>,
    reminders: seq<CalendarReminder>)

  /** The priority badge of a reminder: exclamation marks, more of them for a higher priority. */
  function PriorityText(r: CalendarReminder): (text: string)
    ensures forall i :: 0 <= i < |text| ==> text[i] == '!'
    ensures text != "" <==> r.priority in {1, 5, 9}
    ensures r.priority == 1 ==> text == "!!!"
    ensures r.priority == 5 ==> text == "!!"
    ensures r.priority == 9 ==> text == "!"
  {
    match r.priority
    case 1 => "!!!"
    case 5 => "!!"
    case 9 => "!"
    case _ => ""
  }

  /** High priority shows more marks than medium, and medium more than low. */
  lemma PriorityTextOrder(a: CalendarReminder, b: CalendarReminder)
    requires a.priority in {1, 5, 9} && b.priority in {1, 5, 9}
    ensures a.priority < b.priority <==> |PriorityText(a)| > |PriorityText(b)|
  {
  }
}
