# MacCalendar date engine in Dafny

This project models the date engine behind MacCalendar, a menu-bar calendar for macOS with
Chinese lunar labels, solar terms and holidays, and its companion MiniCalendar. The model covers:

- **Calendar manager** (`calendar_manager.dfy`). It builds the month grid (lead days from the
  previous month, the month's days, then trailing days up to whole weeks), groups fetched events
  by start day, and builds one day record per cell, with its lunar label and solar term. It also
  tracks the displayed month and the selected day. The manager is a class whose methods update
  its fields. Each method is proved against specification functions (`MonthGrid`, `Grouped`,
  `DayRecords`, `EventsOn`).
- **Solar terms** (`solar_terms.dfy`). The 24 terms, their months and their C constants, and the
  `[Y*D+C] - [Y/4]` day formula with its 2082 correction. A date has a term when it is that term's
  computed day.
- **Holidays** (`holidays.dfy`). The fixed Gregorian and lunar tables keyed by `"MM-DD"`, and the
  Mother's Day and Father's Day rules.
- **Lunar labels** (`lunar.dfy`). The month and day symbol tables and the short cell label.
- **Reminder classifier** (`reminders.dfy`). It splits incomplete reminders into overdue,
  one-time, weekly, biweekly, monthly, quarterly, semiannual and yearly sections, multi-year
  groups and future ones.
- **Day list** (`event_list.dfy`). Events and reminders merged into one list, all-day items first.
- **Month view** (`calendar_view.dfy`). The rotated weekday header and the label under each day
  number.
- **Duration text** (`date_helper.dfy`). Hours and minutes between two instants, in both apps.

Supporting modules:

- `civil.dfy`: the Gregorian calendar the platform supplies. Instants are seconds since
  1970-01-01 in one fixed time zone. The module has day numbers, civil dates with a proved round
  trip, weekdays, and day, month and year arithmetic.
- `seqs.dfy`: `filter`, first index, a stable sort by a two-level key, and sorted distinct keys.
- `text.dfy`: decimal rendering and parsing.
- `models.dfy`: the event, reminder and day-record value types.
- `wrappers.dfy`: `Option`.

## Model

| member | source | states |
|---|---|---|
| Civil.StartOfDay | MacCalendar/Core/CalendarManager.swift:150 | the start of the day of `t`: midnight of the same day, at most `t` and less than a day before it |
| Civil.StartOfDayOrder | MacCalendar/Views/RemindersView.swift:42-43 | comparing starts of days is comparing day numbers, for both `<` and `==` |
| Civil.AddDays | MacCalendar/Core/CalendarManager.swift:170 | adding `n` days moves the day number by `n` and keeps the time of day |
| Civil.AddDaysToMidnight | MacCalendar/Core/CalendarManager.swift:177 | adding `k` days to the midnight of day `n` gives the midnight of day `n + k` |
| Civil.DaysInMonth | MacCalendar/Core/CalendarManager.swift:162 | every month has 28 to 31 days |
| Civil.DaysBeforeMonthStep | MacCalendar/Core/CalendarManager.swift:162 | consecutive month starts are one month length apart, and December ends the year |
| Civil.DaysFromCivilMonotone | MacCalendar/Utils/SolarTermHelper.swift:131 | day numbers follow the calendar order of valid civil dates |
| Civil.DaysFromCivilInjective | MacCalendar/Utils/SolarTermHelper.swift:131 | distinct valid civil dates have distinct day numbers |
| Civil.CivilFromDays | MacCalendar/Utils/SolarTermHelper.swift:131 | the civil date of a day number is valid and maps back to that day number |
| Civil.CivilRoundTrip | MacCalendar/Utils/SolarTermHelper.swift:131 | civil date to day number and back is the identity on valid dates |
| Civil.CivilOf | MacCalendar/Utils/SolarTermHelper.swift:131 | the year, month and day of an instant form a valid date on the instant's day |
| Civil.Weekday | MiniCalendar/Utils/HolidayHelper.swift:53 | a weekday is 1 (Sunday) to 7 (Saturday) |
| Civil.WeekdayNext | MacCalendar/Core/CalendarManager.swift:165-167 | the next day has the next weekday, with Saturday followed by Sunday |
| Civil.AddMonths | MacCalendar/Core/CalendarManager.swift:41 | adding `k` months moves the month index by `k`, clamps the day to the new month's length and keeps the time of day |
| Civil.AddYears | MacCalendar/Views/RemindersView.swift:96-97 | adding `k` years keeps the month, clamps the day and keeps the time of day |
| Civil.AddYearsIsTwelveMonths | MacCalendar/Views/RemindersView.swift:94-97 | adding `k` years is adding `12k` months |
| Civil.AddMonthsLater | MacCalendar/Views/RemindersView.swift:94-95 | adding at least one month lands on a later day |
| Civil.AddYearsLater | MacCalendar/Views/RemindersView.swift:96-97 | adding at least one year lands on a later day |
| Text.Decimal | MiniCalendar/Utils/DateHelper.swift:45 | the decimal rendering of a number is a non-empty string of digits |
| Text.DecimalRoundTrip | MiniCalendar/Utils/DateHelper.swift:45 | parsing the decimal rendering of `n` gives `n` |
| Text.DecimalInjective | MiniCalendar/Utils/DateHelper.swift:45 | different numbers render differently |
| Text.DigitsPrefixUnique | MiniCalendar/Utils/HolidayHelper.swift:48 | a digit run followed by a non-digit (or nothing) splits a string in only one way |
| Text.DecimalPrefixUnique | MiniCalendar/Utils/DateHelper.swift:45-49 | a number followed by a non-digit suffix determines both the number and the suffix |
| Seqs.Filter | MacCalendar/Views/RemindersView.swift:36 | filtering keeps only elements satisfying the predicate and never lengthens |
| Seqs.FilterMembers | MacCalendar/Views/RemindersView.swift:36 | an element survives filtering exactly when it is in the input and satisfies the predicate |
| Seqs.SortByKey | MacCalendar/Views/RemindersView.swift:66-75 | sorting gives a permutation of its input, ordered by key |
| Seqs.SortByKeyMembers | MacCalendar/Views/RemindersView.swift:66-75 | sorting keeps exactly the same elements |
| Seqs.SortByKeyStable | MacCalendar/Views/EventListView.swift:82-85 | sorting keeps the elements that share a key in their input order |
| Seqs.SortedUnique | MacCalendar/Views/RemindersView.swift:201-204 | the distinct keys, in strictly ascending order |
| Models.PriorityText | MacCalendar/Models/CalendarReminder.swift:38-49 | priority 1 shows `!!!`, 5 shows `!!`, 9 shows `!`, and every other priority shows nothing |
| Models.PriorityTextOrder | MacCalendar/Models/CalendarReminder.swift:38-49 | a higher priority (smaller number) shows more marks |
| Lunar.ShortLabel | MacCalendar/Core/CalendarManager.swift:200-210 | a label exists exactly for lunar day 1 of months 1 to 12 and for lunar days 2 to 30, and has two characters |
| Lunar.Meaning | MacCalendar/Core/CalendarManager.swift:200-201 | a label read back is a month start or a day from 2 to 30 |
| Lunar.SymbolsDistinct | MacCalendar/Core/CalendarManager.swift:200-201 | the month names are distinct, the day names are distinct, and no month name is a day name |
| Lunar.ShortLabelRoundTrip | MacCalendar/Core/CalendarManager.swift:208-210 | every label the grid shows reads back as the month start or the day it labels |
| Lunar.ShortLabelInjective | MacCalendar/Core/CalendarManager.swift:208-210 | equal labels mean the same lunar day, and the same month on a month's first day |
| SolarTerms.ChineseName | MacCalendar/Utils/SolarTermHelper.swift:38-65 | every term name has two characters |
| SolarTerms.TruncDiv | MacCalendar/Utils/SolarTermHelper.swift:170 | truncating division agrees with floor division on non-negative dividends |
| SolarTerms.TruncRem | MacCalendar/Utils/SolarTermHelper.swift:164 | the truncating remainder agrees with the Euclidean one on non-negative dividends |
| SolarTerms.FirstMatch | MacCalendar/Utils/SolarTermHelper.swift:143-149 | a name is found exactly when some candidate's day matches, and it is the name of the first such candidate |
| SolarTerms.SolarTermOn | MacCalendar/Utils/SolarTermHelper.swift:137-149 | no term outside 1901 to 2100, and a found name has two characters |
| SolarTerms.TermIndex | MacCalendar/Utils/SolarTermHelper.swift:11-35 | every term has a position in the case list |
| SolarTerms.AllCasesComplete | MacCalendar/Utils/SolarTermHelper.swift:11-35 | the case list holds every term exactly once |
| SolarTerms.NamesDistinct | MacCalendar/Utils/SolarTermHelper.swift:38-65 | no two terms share a name |
| SolarTerms.MonthOfIndex | MacCalendar/Utils/SolarTermHelper.swift:68-83 | the case list runs two terms per month, from February through January |
| SolarTerms.MonthHasTwoTerms | MacCalendar/Utils/SolarTermHelper.swift:68-83 | each month 1 to 12 has exactly two terms, and no other month has any |
| SolarTerms.CalculateInRange | MacCalendar/Utils/SolarTermHelper.swift:157-178 | in 1901 to 2100 the day is `floor(Y*D + C) - floor(Y/4)`, with the century's C and one extra day for 冬至 2082 |
| SolarTerms.TermDayBounds | MacCalendar/Utils/SolarTermHelper.swift:157-178 | every term falls between the 3rd and the 24th, inside its month |
| SolarTerms.FirstIndexOfMonth | MacCalendar/Utils/SolarTermHelper.swift:68-83 | the position of the earlier of a month's two terms |
| SolarTerms.IndexInMonth | MacCalendar/Utils/SolarTermHelper.swift:68-83 | a term is the first or the second of its month's pair |
| SolarTerms.MonthTermsApart | MacCalendar/Utils/SolarTermHelper.swift:86-113 | a month's second term falls at least 14 days after its first |
| SolarTerms.AtMostOneTerm | MacCalendar/Utils/SolarTermHelper.swift:141-147 | two different terms never fall on the same date |
| SolarTerms.SolarTermOnMatches | MacCalendar/Utils/SolarTermHelper.swift:129-150 | in 1901 to 2100 a date has a term exactly when it is the computed day of a term of its month, and the result is that term's name |
| SolarTerms.MatchIsTheTerm | MacCalendar/Utils/SolarTermHelper.swift:129-150 | a term of the month falling on the day is the one whose name is returned |
| SolarTerms.TermsOfMonthMembers | MacCalendar/Utils/SolarTermHelper.swift:141 | the candidates of a month are exactly the terms of that month |
| SolarTerms.Month | MacCalendar/Utils/SolarTermHelper.swift:68-83 | every term falls in a month from 1 to 12 |
| SolarTerms.CValue | MacCalendar/Utils/SolarTermHelper.swift:86-113 | both C constants of a term lie between 3 and 25, and the 21st-century one is the smaller |
| SolarTerms.SpecialRule | MacCalendar/Utils/SolarTermHelper.swift:115-122 | only 冬至 has a correction, and its only year is 2082 |
| SolarTerms.CalculateSolarTermDay | MacCalendar/Utils/SolarTermHelper.swift:157-178 | the formula day; CalculateInRange and TermDayBounds state its value and its range |
| SolarTerms.TermsOfMonth | MacCalendar/Utils/SolarTermHelper.swift:141 | the month's candidates in case order; TermsOfMonthMembers and MonthHasTwoTerms state which terms they are |
| SolarTerms.GetSolarTerm | MacCalendar/Utils/SolarTermHelper.swift:129-150 | a found term name has two characters; SolarTermOnMatches states when a date has one |
| SolarTerms.LiChun2025 | MacCalendar/Utils/SolarTermHelper.swift:129-178 | 立春 2025 falls on 3 February, and 4 February 2025 has no term |
| Holidays.FormatNumber | MiniCalendar/Utils/HolidayHelper.swift:26-28 | `%02d`: at least two characters; a non-negative number renders as digits that parse back to it; exactly the numbers 0 to 99 give two digits |
| Holidays.DecimalLength | MiniCalendar/Utils/HolidayHelper.swift:26-28 | numbers from 10 have at least two digits, and from 100 at least three |
| Holidays.KeyInjective | MiniCalendar/Utils/HolidayHelper.swift:41-48 | the `"MM-DD"` key determines the month and the day |
| Holidays.Key | MiniCalendar/Utils/HolidayHelper.swift:41-48 | a key has at least five characters, and months and days below 100 give exactly `MM-DD` |
| Holidays.HolidaysOn | MiniCalendar/Utils/HolidayHelper.swift:36-67 | a day has at most three holidays; GetHolidays and HolidayListOrder state which and in what order |
| Holidays.GregorianMatch | MiniCalendar/Utils/HolidayHelper.swift:41-46 | at most one Gregorian holiday, present exactly when the table has the day's key |
| Holidays.LunarMatch | MiniCalendar/Utils/HolidayHelper.swift:48-51 | at most one lunar holiday, present exactly when the table has the lunar key |
| Holidays.FloatingMatch | MiniCalendar/Utils/HolidayHelper.swift:53-64 | at most one floating holiday per day |
| Holidays.HolidayList | MiniCalendar/Utils/HolidayHelper.swift:36-67 | a day has at most three holidays |
| Holidays.WeekdayOrdinal | MiniCalendar/Utils/HolidayHelper.swift:53 | day `d` is in week `k` of its month's weekday occurrences: `7(k-1) < d <= 7k` |
| Holidays.GetHolidays | MiniCalendar/Utils/HolidayHelper.swift:36-67 | the appended list is the Gregorian match, then the lunar match, then the floating matches of the date |
| Holidays.TablesHaveNoFloatingHoliday | MiniCalendar/Utils/HolidayHelper.swift:11-24 | neither table names 母亲节 or 父亲节 |
| Holidays.FloatingHolidays | MiniCalendar/Utils/HolidayHelper.swift:57-63 | 母亲节 is listed exactly on the second Sunday of May, 父亲节 exactly on the third Sunday of June, and never both |
| Holidays.HolidayListOrder | MiniCalendar/Utils/HolidayHelper.swift:36-67 | the list is empty exactly when nothing matches; a Gregorian match comes first and a lunar match after it |
| Holidays.SpringFestivalAndEve | MiniCalendar/Utils/HolidayHelper.swift:19-24 | lunar 01-01 is 春节 and lunar 12-29 is 除夕 |
| Holidays.NationalDayMeetsMidAutumn | MiniCalendar/Utils/HolidayHelper.swift:36-51 | when 1 October is lunar 08-15 both 国庆节 and 中秋节 are listed, Gregorian first |
| Manager.MonthLength | MacCalendar/Core/CalendarManager.swift:162 | a month has 28 to 31 days |
| Manager.MonthStart | MacCalendar/Core/CalendarManager.swift:158-161 | the month's first day is `day - 1` days before `t`'s day, and `t`'s day lies within the month |
| Manager.LeadDays | MacCalendar/Core/CalendarManager.swift:165-167 | 0 to 6 cells come from the previous month |
| Manager.GridLength | MacCalendar/Core/CalendarManager.swift:182-192 | whole weeks, covering the lead days and the month with fewer than 7 extra cells |
| Manager.Cells | MacCalendar/Core/CalendarManager.swift:164-192 | `n` consecutive midnights from a start day |
| Manager.CellsSnoc | MacCalendar/Core/CalendarManager.swift:171 | appending the midnight after the first `n` cells gives the first `n + 1` cells |
| Manager.MonthGrid | MacCalendar/Core/CalendarManager.swift:157-195 | cell `k` is the midnight of the grid's start day plus `k` |
| Manager.GridConsecutive | MacCalendar/Core/CalendarManager.swift:157-195 | at least 28 cells in whole weeks, midnights of consecutive days, strictly increasing |
| Manager.GridStartsOnFirstWeekday | MacCalendar/Core/CalendarManager.swift:165-167 | every row starts on the calendar's first weekday |
| Manager.WeekdayShift | MacCalendar/Core/CalendarManager.swift:167-169 | stepping back the lead days and on by whole weeks lands on the first weekday |
| Manager.GridCellOfMonthDay | MacCalendar/Core/CalendarManager.swift:176-180 | day `d` of the month is the cell `d - 1` places after the lead days |
| Manager.GridCellInMonth | MacCalendar/Core/CalendarManager.swift:164-192 | a cell in the displayed month lies between the lead and the trailing days |
| Manager.GridOnlyMonthBetweenPadding | MacCalendar/Core/CalendarManager.swift:164-192 | a cell is in the displayed month exactly when it lies between the lead and the trailing days |
| Manager.GridContainsDate | MacCalendar/Core/CalendarManager.swift:176-180 | the day of `t` itself is in the grid |
| Manager.EventDay | MacCalendar/Core/CalendarManager.swift:150 | an event is grouped under the midnight of its start day |
| Manager.EventsOn | MacCalendar/Core/CalendarManager.swift:149-151 | the fetched events starting on a day, in fetch order; BucketMembers and EventsOnAppend state its members and how it splits |
| Manager.Grouped | MacCalendar/Core/CalendarManager.swift:147-154 | the start-day grouping; BucketExists and EventDay state its keys and buckets |
| Manager.BucketMembers | MacCalendar/Core/CalendarManager.swift:147-154 | an event is in a day's bucket exactly when it was fetched and starts on that day |
| Manager.BucketExists | MacCalendar/Core/CalendarManager.swift:147-154 | a day has a bucket exactly when some event starts on it, and the bucket lists those events in fetch order |
| Manager.EventsOnAppend | MacCalendar/Core/CalendarManager.swift:149-151 | the bucket of a concatenation is the two buckets concatenated |
| Manager.GroupedStep | MacCalendar/Core/CalendarManager.swift:150-151 | grouping one more event appends it to its day's bucket |
| Manager.DayRecord | MacCalendar/Core/CalendarManager.swift:205-215 | one grid day's record; RecordOfDay states its events, term and label |
| Manager.DayRecords | MacCalendar/Core/CalendarManager.swift:205-218 | one record per grid day, in grid order |
| Manager.RecordsConsecutive | MacCalendar/Core/CalendarManager.swift:205-220 | the records of a grid form whole weeks of consecutive days |
| Manager.RecordOfDay | MacCalendar/Core/CalendarManager.swift:207-217 | a record carries exactly the fetched events starting on its day, its solar term, and a lunar label that reads back as its lunar date |
| Manager.LoadedRecords | MacCalendar/Core/CalendarManager.swift:72-96 | after a load, each cell's record is the record of that grid day |
| Manager.FirstSameDay | MacCalendar/Core/CalendarManager.swift:56 | the first record on the same day, or none exactly when no record is on that day |
| Manager.ConsecutiveDaysIncrease | MacCalendar/Core/CalendarManager.swift:164-192 | in consecutive records, record `j` is `j - i` days after record `i` |
| Manager.FoundWithinRange | MacCalendar/Core/CalendarManager.swift:56 | a day has a record exactly when it lies between the first and the last record |
| Manager.SelectedInRange | MacCalendar/Core/CalendarManager.swift:54-61 | selecting a date finds a record exactly when the date is within the grid |
| Manager.SelectedBucket | MacCalendar/Core/CalendarManager.swift:54-61 | a found record shows exactly the fetched events starting on the selected day |
| Manager.RecordOnDay | MacCalendar/Core/CalendarManager.swift:209-210 | the grid record on the day of a date holds exactly the fetched events starting that day |
| Manager.SelectedEvents | MacCalendar/Core/CalendarManager.swift:54-69 | selecting a date shows the fetched events starting on it when it is within the grid, and none otherwise |
| Manager.CalendarManager.constructor | MacCalendar/Core/CalendarManager.swift:14-33 | a new manager shows the month of now, with the current day selected and no records yet |
| Manager.CalendarManager.GoToCurrentMonth | MacCalendar/Core/CalendarManager.swift:35-38 | the displayed month becomes the current one; nothing else changes |
| Manager.CalendarManager.GoToNextMonth | MacCalendar/Core/CalendarManager.swift:40-45 | the displayed month moves one month on; nothing else changes |
| Manager.CalendarManager.GoToPreviousMonth | MacCalendar/Core/CalendarManager.swift:47-52 | the displayed month moves one month back; nothing else changes |
| Manager.CalendarManager.GetEvent | MacCalendar/Core/CalendarManager.swift:54-61 | selects the date and shows the events of the first record on its day, or none |
| Manager.CalendarManager.GenerateDateGrid | MacCalendar/Core/CalendarManager.swift:157-195 | the three loops produce exactly the month grid |
| Manager.CalendarManager.GroupEventsByDay | MacCalendar/Core/CalendarManager.swift:147-154 | the loop produces exactly the start-day grouping of the events |
| Manager.GroupedPrefixStep | MacCalendar/Core/CalendarManager.swift:149-152 | appending one event to the bucket of its start day groups one more event of the batch |
| Manager.CalendarManager.GenerateCalendarGrid | MacCalendar/Core/CalendarManager.swift:198-221 | the records become one record per grid day, whole weeks of consecutive days |
| Manager.BuildRecords | MacCalendar/Core/CalendarManager.swift:203-216 | the loop yields one record per grid date, in grid order, each the record of that date |
| Manager.RecordsStep | MacCalendar/Core/CalendarManager.swift:205-215 | one more grid date appends exactly that date's record |
| Manager.CalendarManager.LoadMonth | MacCalendar/Core/CalendarManager.swift:72-96 | records with the grouped fetched events when access is granted, and with no events when it is denied |
| Manager.CalendarManager.RefreshEvents | MacCalendar/Core/CalendarManager.swift:64-69 | the current month is reloaded with the access answer; the selected day then shows exactly the fetched events starting on it when access is granted and it lies in the grid, and none otherwise |
| Manager.NothingSelectedWithoutEvents | MacCalendar/Core/CalendarManager.swift:75-79 | records built without events show no events on any selected day |
| Reminders.RemindersWithDates | MacCalendar/Views/RemindersView.swift:22-30 | one entry per reminder, each listed under its due date or under now when it has none, and nothing else |
| Reminders.NonRecurringSection | MacCalendar/Views/RemindersView.swift:22-53 | an incomplete non-recurring reminder is in the one-time list exactly when undated or due today or later, and in the overdue list exactly when it is not one-time |
| Reminders.RecurringSection | MacCalendar/Views/RemindersView.swift:111-131 | an incomplete recurring reminder is never one-time, is overdue exactly when its cycle ended before today, and is in the future list exactly when due after today |
| Reminders.SortedByDate | MacCalendar/Views/RemindersView.swift:66-75 | the date sort; SortedByDateOrder and SortedByDateMembers state that it is an ordered permutation |
| Reminders.IsNotFuture | MacCalendar/Views/RemindersView.swift:56-63 | undated or due today or earlier; CurrentMembers uses it to state the cadence candidates |
| Reminders.IsRecurringOverdue | MacCalendar/Views/RemindersView.swift:78-109 | the cycle ended before today; RecurringOverdueNeedsCycle, OverdueWasDueBeforeToday and DailyOverdue state when it holds |
| Reminders.OneTime | MacCalendar/Views/RemindersView.swift:33-53 | the one-time section; NonRecurringPartition states its members |
| Reminders.Overdue | MacCalendar/Views/RemindersView.swift:111-131 | the overdue section; NonRecurringPartition and RecurringOverdueMembers state its members |
| Reminders.Current | MacCalendar/Views/RemindersView.swift:136-139 | the candidates of the cadence sections; CurrentMembers states its members |
| Reminders.Future | MacCalendar/Views/RemindersView.swift:207-221 | the future section; FutureMembers and FutureIsNotCurrent state its members |
| Reminders.CadenceBucket | MacCalendar/Views/RemindersView.swift:133-191 | one cadence section; CadenceBucketMembers and CadenceBucketsDisjoint state its members |
| Reminders.MultiYearGrouped | MacCalendar/Views/RemindersView.swift:193-205 | the multi-year groups; MultiYearGroups, MultiYearMembers and MultiYearCovered state their order and members |
| Reminders.DueBeforeIsKeyOrder | MacCalendar/Views/RemindersView.swift:67-74 | the date comparator is the strict order on (undated?, due instant) keys |
| Reminders.SortedByDateOrder | MacCalendar/Views/RemindersView.swift:66-75 | sorting by date is a permutation with dated reminders first and dated ones in due order |
| Reminders.SortedByDateMembers | MacCalendar/Views/RemindersView.swift:66-75 | sorting by date keeps exactly the same reminders |
| Reminders.CycleEnd | MacCalendar/Views/RemindersView.swift:88-100 | a cycle end exists exactly for the daily, weekly, monthly and yearly frequencies |
| Reminders.RecurringOverdueNeedsCycle | MacCalendar/Views/RemindersView.swift:78-100 | an overdue recurring reminder has a due date, a frequency, an interval and a known frequency |
| Reminders.CycleEndLater | MacCalendar/Views/RemindersView.swift:88-100 | with a positive interval the cycle ends on a later day than it starts |
| Reminders.OverdueWasDueBeforeToday | MacCalendar/Views/RemindersView.swift:102-106 | an overdue recurring reminder with a positive interval was due before today |
| Reminders.DailyOverdue | MacCalendar/Views/RemindersView.swift:89-106 | a daily reminder every `n` days is overdue exactly when its due day plus `n - 1` is before today |
| Reminders.CurrentMembers | MacCalendar/Views/RemindersView.swift:136-139 | the candidates for a section are the recurring reminders that are neither in the future nor overdue |
| Reminders.NonRecurringPartition | MacCalendar/Views/RemindersView.swift:33-53 | a non-recurring reminder is one-time when undated or due today or later, overdue when due before today, and never both |
| Reminders.RecurringOverdueMembers | MacCalendar/Views/RemindersView.swift:111-131 | a recurring reminder is in the overdue list exactly when it is recurring-overdue, and never in the one-time list |
| Reminders.FutureMembers | MacCalendar/Views/RemindersView.swift:207-221 | the future list holds exactly the recurring reminders due after today |
| Reminders.FutureIsNotCurrent | MacCalendar/Views/RemindersView.swift:207-221 | a future reminder is in no cadence section, and with a positive interval it is not overdue |
| Reminders.PatternInjective | MacCalendar/Views/RemindersView.swift:133-191 | the six sections take six different (frequency, interval) pairs |
| Reminders.CadenceBucketMembers | MacCalendar/Views/RemindersView.swift:133-191 | a section holds exactly the current reminders with its pair |
| Reminders.CadenceBucketsDisjoint | MacCalendar/Views/RemindersView.swift:133-191 | no reminder is in two cadence sections |
| Reminders.GroupKeys | MacCalendar/Views/RemindersView.swift:201 | the grouping key of each multi-year reminder |
| Reminders.MultiYearGroups | MacCalendar/Views/RemindersView.swift:193-205 | groups come in strictly ascending interval order, every interval exceeds one, and no group is empty |
| Reminders.GroupNonEmpty | MacCalendar/Views/RemindersView.swift:193-205 | each group's interval exceeds one and the group holds at least one reminder |
| Reminders.MultiYearMembers | MacCalendar/Views/RemindersView.swift:193-205 | a group holds exactly the current yearly reminders with its interval |
| Reminders.MultiYearCovered | MacCalendar/Views/RemindersView.swift:193-205 | every current multi-year reminder is in the group of its interval |
| Reminders.Unbucketed | MacCalendar/Views/RemindersView.swift:133-221 | a current reminder with a pattern no section takes, such as daily or every two months, appears in no list |
| EventList.Id | MacCalendar/Views/EventListView.swift:22-29 | an item's identifier is its store identifier behind `event_` or `reminder_` |
| EventList.IdInjective | MacCalendar/Views/EventListView.swift:22-29 | equal identifiers mean the same kind and the same store identifier; an event never shares one with a reminder |
| EventList.SortDate | MacCalendar/Views/EventListView.swift:31-38 | the event's start, or the reminder's due date, or the distant past |
| EventList.IsAllDay | MacCalendar/Views/EventListView.swift:40-47 | an event's all-day flag, or a reminder without a time; ItemOrder states how it orders the list |
| EventList.AreInIncreasingOrder | MacCalendar/Views/EventListView.swift:81-95 | the item comparator; ComparatorIsKeyOrder states that it is the strict order on item keys |
| EventList.ItemKey | MacCalendar/Views/EventListView.swift:81-95 | the (timed?, sort date) key; ComparatorIsKeyOrder ties it to the comparator |
| EventList.ComparatorIsKeyOrder | MacCalendar/Views/EventListView.swift:81-95 | the item comparator is the strict order on (timed?, sort date) keys |
| EventList.Merged | MacCalendar/Views/EventListView.swift:72-78 | the day's events in order, then its reminders in order |
| EventList.MergedMembers | MacCalendar/Views/EventListView.swift:72-78 | an item is merged exactly when its event or reminder is one of the day's |
| EventList.ItemOrder | MacCalendar/Views/EventListView.swift:81-95 | sorting puts all-day items before timed items and timed items in sort-date order |
| EventList.AllDayStable | MacCalendar/Views/EventListView.swift:82-85 | sorting keeps the all-day items in their merged order |
| EventList.SortedItems | MacCalendar/Views/EventListView.swift:71-96 | a permutation of the merged items, all-day first, timed by sort date, all-day in merged order |
| CalendarView.DropFirst | MacCalendar/Views/CalendarView.swift:23 | dropping `k` leaves `n - k` elements, or none |
| CalendarView.Prefix | MacCalendar/Views/CalendarView.swift:23 | the prefix has `k` elements, or all of them |
| CalendarView.WeekDays | MacCalendar/Views/CalendarView.swift:18-25 | the header has as many entries as there are symbols |
| CalendarView.WeekDaysRotation | MacCalendar/Views/CalendarView.swift:18-25 | the header is a rotation: same length, same symbols, and position `i` shows symbol `(firstWeekday - 1 + i) mod n` |
| CalendarView.WeekDaysIdentity | MacCalendar/Views/CalendarView.swift:23 | a first weekday of 1, or one past the number of symbols, leaves the header unrotated |
| CalendarView.CellLabel | MacCalendar/Views/CalendarView.swift:87 | the first holiday if any, else the solar term, else the lunar label, else empty |
| CalendarView.CellLabelOfRecord | MacCalendar/Views/CalendarView.swift:87 | a grid cell's label is never empty: the solar term on a term day, otherwise a lunar label that reads back as the cell's lunar date |
| CalendarView.LabelWithoutHolidays | MacCalendar/Views/CalendarView.swift:87 | without holidays the label is the solar term or the lunar label, and is non-empty |
| DateHelper.IsChinese | MiniCalendar/Utils/DateHelper.swift:40-41 | Chinese by setting, or by a system whose first preferred language starts with `zh`; BilingualAgreesInChinese uses it |
| DateHelper.FormattedDuration | MacCalendar/Utils/DateHelper.swift:25-51 | the Chinese-only text; NoTextUnderAMinute, RenderInjective and FormattedDurationSymmetric state its properties |
| DateHelper.FormattedDurationBilingual | MiniCalendar/Utils/DateHelper.swift:26-64 | the text in either language; NoTextUnderAMinute, BilingualAgreesInChinese and FormattedDurationSymmetric state its properties |
| DateHelper.DurationParts | MacCalendar/Utils/DateHelper.swift:27-36 | whole hours and leftover whole minutes (under 60) of the distance between the instants |
| DateHelper.Render | MacCalendar/Utils/DateHelper.swift:38-50 | there is no text exactly when both hours and minutes are zero |
| DateHelper.FormattedDurationSymmetric | MiniCalendar/Utils/DateHelper.swift:28-29 | the order of the two instants does not matter, in either app |
| DateHelper.NoTextUnderAMinute | MiniCalendar/Utils/DateHelper.swift:43-63 | there is no text exactly when the instants are less than a minute apart, in either app and language |
| DateHelper.BilingualAgreesInChinese | MiniCalendar/Utils/DateHelper.swift:40-52 | in Chinese the bilingual app writes what the Chinese-only app writes |
| DateHelper.ChineseUnitsDistinguishable | MiniCalendar/Utils/DateHelper.swift:44-59 | the Chinese and the English units start with distinct non-digits |
| DateHelper.RenderInjective | MiniCalendar/Utils/DateHelper.swift:43-63 | a duration text determines its hours and minutes |
| DateHelper.LeadingNumber | MiniCalendar/Utils/DateHelper.swift:43-63 | a duration text starts with its leading number followed by a unit |
| DateHelper.WholeMinutes | MacCalendar/Utils/DateHelper.swift:32-36 | hours and leftover minutes give the whole minutes of the distance |
| DateHelper.SameTextSameMinutes | MacCalendar/Utils/DateHelper.swift:38-50 | two durations with the same text are the same number of whole minutes long |

## Left out

- Time zones and daylight saving time: every instant lives in one fixed zone, so a day always has 86400 seconds.
- The Chinese lunisolar calendar conversion is platform code. It is a parameter `lunarOf`, whose results are months 1 to 12 and days 1 to 30. Leap months are not distinguished.
- The calendar store (EventKit) is left out. The access request, the event fetch and the change notification are all out of the model. A load takes the access answer and the fetched events as parameters. The fetch window itself (the grid's first and last day) is not modelled.
- `Task` and `async`: the initializer, the month navigation and the refresh each start an asynchronous load. The model performs the load as a separate `LoadMonth` call. `GoToCurrentMonth`, `GoToNextMonth` and `GoToPreviousMonth` therefore change only the displayed month.
- "Now" (`Date()`), the app language setting, the preferred languages, the weekday symbols and the calendar's first weekday are parameters.
- The optional results of `dateInterval(of:for:)`, `date(byAdding:)` and `dateComponents` never fail in the model, so their early-return branches are not modelled.
- `Date` is a `Double` in Swift. The model uses whole seconds, and the solar-term constants are exact decimals scaled by 10000, so Double rounding is not modelled.
- Swift's `sorted(by:)` is not stable. The model sorts with a stable insertion sort, so it fixes one of the orders Swift may choose for items with equal keys.
- `DateFormatter` output is left out (the `formatDate` helpers and the date and time lines of the lists), except the `"MM-dd"` holiday key. That key is modelled by the same zero-padded `"MM-DD"` format used for the lunar key.
- Manager.CalendarManager.GenerateCalendarGrid: the record for each day is built with a lunar label, no full lunar text, no holidays and no reminders. The source initializer call at MacCalendar/Core/CalendarManager.swift:217 passes `lunar:` and `holiday:` arguments, which the `CalendarDay` initializer (MacCalendar/Models/CalendarDay.swift:27) does not declare.
- Colours, URLs, the settings store, the launch-at-login helper and all SwiftUI layout are left out.
- `getMultiYearLabel` and the other display-only helpers of the reminders panel are left out.
- `allIncompleteReminders` and `selectedDayReminders` are not defined in the manager's source. They enter the model as plain inputs.
