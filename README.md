# Time table: a verified model of the timetable and notification core

This project models the non-visual core of `TimeTableApp`, a browser weekly
timetable with class notifications, in Dafny. The following parts are modelled:

- **Clock texts.** `parseTime` and `formatTime`, and the `"HH:MM - HH:MM"`
  slot labels.
- **The slot grid.** `generateTimeSlots` builds it from the configured start
  time, end time and slot duration, unless custom slots are set.
- **The slot editor.** The end time it proposes for a new row wraps at
  midnight.
- **The timetable store.** A week → day → slot → entry map. It covers building
  an empty table (`generateTimetable`, `resetTimetable`), writing a cell
  (`saveSlot`) and deleting one (`clearSlot`).
- **Notification preferences.** The fixed leads (30, 15 and 5 minutes, and
  "now") and the custom lead times. `updateCustomTimes` normalises the custom
  times, and `formatCustomTimeLabel` labels them.
- **The notification scheduler.** `scheduleNotifications` clears every
  recorded timer. It then visits this week's and next week's occurrences of
  every entry of the current week, and arms one browser timer per lead whose
  fire time is still to come. `scheduleSlotNotifications` projects one
  entry's occurrence from its weekday and start time. `clearAllNotifications`
  clears the recorded timers.

## Modules

- `Options`: `Option`. `None` stands for a `NaN` or `undefined` that the
  source lets flow through.
- `Strings`: the few JavaScript conversions used: `toString`,
  `padStart(2, '0')`, `Number` on digit strings, `split` and `trim`.
- `Clock`: clock texts, slot labels, the slot grid (`GenerateTimeSlots` and
  its loop `GridSlots`) and the slot editor's end time.
- `Leads`: notification settings, lead labels, the custom-time
  normalisation, and the ordered lead list of one slot (`CollectLeads`).
- `Projection`: the weekday arithmetic of `scheduleSlotNotifications`.
- `Timers`: the browser's timer table and the key → handle registry
  (`notificationTimeouts`), with `setTimeout` / `Map.set` (`Arm`) and
  `clearAllNotifications` (`CancelAll`).
- `Timetable`: the cell store and the order in which `Object.entries` visits
  integer keys.
- `Scheduler`: a whole re-arm pass as a function (`Rearm`), and what it asks
  for.
- `App`: the class `TimeTableApp`. Its fields are updated in place by
  methods that mirror the source's handlers. Each method is proved equal to
  the specifying function of the modules above.

Time is counted in whole minutes of local time. The present moment is a
parameter `Now` that carries its absolute minute, its weekday and its minute
of the day. The notification permission is a boolean parameter.

### Behaviour of the code worth knowing

- **Monday slot seen on a Wednesday.** The weekday arithmetic never looks back
  to an earlier day of the week. So a Monday 08:00 slot seen on a Wednesday at
  10:00 is projected to the *coming* Monday, five days ahead, in week offset
  0, and twelve days ahead in week offset 1. One might expect no occurrence
  in week offset 0, since Monday 08:00 of the current week is past. See `Projection.MondaySeenFromWednesday` and
  `Projection.ThisWeekDropped`.
- **`formatTime` does not wrap.** Hours are not reduced modulo 24: a grid
  may show `25:05` (`Clock.FormatTimeNoWrap`).
- **Fired timers are not removed.** A timer's callback only shows the
  notification. Nothing removes its handle from `notificationTimeouts`.
- **Week offset 0 timers are never cancelled.** Both week offsets read the
  current week's data and use the same key `${day}-${subject}-${offset}`. So
  every timer armed for week offset 0 is displaced in the registry by week
  offset 1's timer of the same key. No later `clearAllNotifications` can
  cancel it (`Scheduler.ThisWeekTimersEscapeClear`).
- **`clearSlot` does not reschedule.** It leaves the timers of a deleted
  entry armed, and it leaves the editor open when the cell is empty.
- **`parseTime` does not validate.** A text without `:` or with a non-number
  piece gives `NaN`. An invalid start date schedules nothing.

## Model

| member | source | states |
|---|---|---|
| Strings.NatToString | script.js:235 | the decimal text of a number is non-empty and all digits, one digit exactly below 10 |
| Strings.NatToStringLeading | script.js:235 | the decimal text of a number of two or more digits has no leading zero |
| Strings.IntToString | script.js:768 | `toString` of a non-negative integer reads back through `Number` as itself; of a negative one, it is `-` followed by a text that reads back as the magnitude |
| Strings.NumberOf | script.js:230 | `Number(text)` is a number exactly when the text is all digits (the empty text included) |
| Strings.NatToStringValue | script.js:230-235 | reading a number's decimal text back gives the number |
| Strings.PadStart2 | script.js:235 | `padStart(2, '0')` on a number's text; specified by `LeadingZeroValue` and `PaddedValue` |
| Strings.LeadingZeroValue | script.js:235 | a leading `0` from `padStart` does not change the value read back |
| Strings.PaddedValue | script.js:229-236 | a zero-padded number is all digits and `Number` reads it back as that number |
| Strings.Split | script.js:521 | `split` always yields at least one piece |
| Strings.SplitNone | script.js:230 | a text in which the separator's first character never occurs splits into itself alone |
| Strings.SplitAfter | script.js:521 | a first piece in which the separator's first character never occurs, then the separator, then the rest, splits into that piece followed by the split of the rest |
| Strings.TrimStart | script.js:267 | removes exactly the leading white space (all of JavaScript's white space and line terminators): the result is a suffix, everything dropped is space, and it does not start with space |
| Strings.TrimEnd | script.js:267 | removes exactly the trailing white space: the result is a prefix, everything dropped is space, and it does not end with space |
| Strings.Trim | script.js:267-277 | `trim()`: `TrimStart` then `TrimEnd`; specified by `TrimSlice` |
| Strings.TrimSlice | script.js:267-277 | `trim()` yields a slice of the text with only white space around it, starting and ending with a non-space |
| Clock.DefaultConfig | script.js:6-12 | the initial configuration: 1 week, 5 days, 08:00 to 17:00, 60-minute slots |
| Clock.SlotLabel | script.js:934 | the label `formatTime(start) - formatTime(end)` of a grid slot; specified by `SlotLabelRoundTrip` and `GridAt` |
| Clock.ParseTime | script.js:229-232 | `parseTime`: the first two `:` pieces read by `Number` as hours * 60 + minutes, `NaN` when a piece is missing or not a number; specified by `ClockRoundTrip` and `SlotLabelRoundTrip` |
| Clock.FormatTime | script.js:234-236 | `formatTime`: both numbers padded to two places; specified by `FormatTimeChars`, `FormatTimeWidth`, `FormatTimeNoWrap` and `ClockRoundTrip` |
| Clock.SlotStart | script.js:521-523 | the start minute the scheduler reads from a slot label; specified by `SlotLabelRoundTrip` |
| Clock.EditorNewSlot | script.js:757-768 | the start and end texts of a new editor row; specified by `EditorEndWraps` and `EditorEndAfter` |
| Clock.WrappedEnd | script.js:764-768 | the wrapped end text of a new editor row; specified by `WrappedEndClock` |
| Clock.FormatTimeChars | script.js:234-236 | a formatted time holds no space and splits at `:` into the two padded numbers |
| Clock.ClockRoundTrip | script.js:229-236 | `parseTime(formatTime(h, m)) == h * 60 + m` for every hour and minute count |
| Clock.FormatTimeWidth | script.js:234-236 | numbers below 100 give exactly `HH:MM`, with a leading zero on one-digit numbers |
| Clock.FormatTimeNoWrap | script.js:234-236 | the hour is not reduced modulo 24: `formatTime(25, 5)` is `25:05` |
| Clock.ClockTextRoundTrip | script.js:928-934 | a minute count formatted as floor(m / 60) and m % 60 reads back as m |
| Clock.SlotLabelRoundTrip | script.js:521-523 | the start and end read from a slot label are the minutes it was made from |
| Clock.GridLineValue | script.js:926-935 | the loop's `current` after i steps is start + i * duration |
| Clock.Grid | script.js:926-936 | the first n grid slots are n labels |
| Clock.GridAt | script.js:928-934 | grid slot i is labelled from grid line i to grid line i + 1 |
| Clock.GridCount | script.js:927-935 | the loop stops after the first slot whose start is before the end and whose end reaches it: the count is the rounded-up quotient |
| Clock.GenerateTimeSlots | script.js:915-939 | custom slots when there are any; no slot when a bound is not a time or start >= end; otherwise the grid slots of `duration` minutes, ceil((end - start) / duration) of them, the last one reaching or passing the end |
| Clock.GridSlots | script.js:926-938 | the loop builds exactly the grid, with the count and the last slot's bounds as above |
| Clock.JsRem | script.js:765-767 | JavaScript's `%`: the dividend minus the result is a multiple of the divisor; the result is Dafny's remainder for a non-negative dividend and lies in (-divisor, 0] otherwise |
| Clock.EditorEndWraps | script.js:755-768 | for a non-negative duration, after a last end `HH:MM`, the new editor row starts there and ends at the clock text of (start + duration) mod 1440, an hour below 24 that reads back as that minute |
| Clock.EditorEndAfter | script.js:761-768 | for a non-negative duration, after any last end text reading as `total`, the new row is (that text, clock text of (total + duration) mod 1440) |
| Clock.WrappedEndClock | script.js:765-768 | for a non-negative duration, the wrapped end text is the clock text of (start + duration) mod 1440 |
| Leads.DefaultSettings | script.js:20-28 | the initial notification settings: off, 5 minutes before on, the other leads off, no custom times |
| Leads.FormatCustomTimeLabel | script.js:1001-1018 | `formatCustomTimeLabel`; specified by `LabelRoundTrip`, `DayLabelsCollide` and `LabelExamples` |
| Leads.NormalizeCustomTimes | script.js:962-974 | the custom times `updateCustomTimes` stores; specified by `NormalizedCustomTimes`, `DescendingUnique` and `NormalizeExample` |
| Leads.FixedLeads | script.js:537-549 | the fixed leads in push order; specified by `LeadListMembers` and `FixedLeadsOrder` |
| Leads.CustomLeads | script.js:552-560 | the custom leads in the order of the stored times; specified by `CustomLeadsMembers` and `CustomLeadsOrder` |
| Leads.LeadList | script.js:537-560 | the lead list of one slot; specified by `LeadListMembers` and computed by `CollectLeads` |
| Leads.LabelRoundTrip | script.js:1001-1018 | every label reads back as its minutes below one day; from one day on only the whole days survive |
| Leads.HoursLabelRoundTrip | script.js:1006-1013 | labels strictly between one hour and one day (`N hours`, `Nh Mm`) read back as their minutes |
| Leads.DaysLabelRoundTrip | script.js:1014-1017 | a label of one day or more reads back as its whole days times 1440 |
| Leads.AmountRoundTrip | script.js:1003-1016 | a label `<n> <unit>` reads back as n times the unit's minutes |
| Leads.MixedRoundTrip | script.js:1012 | a label `<h>h <m>m` reads back as h * 60 + m |
| Leads.DayLabelsCollide | script.js:1014-1017 | 1440 and 2879 minutes share the label `1 day` |
| Leads.LabelExamples | script.js:1001-1018 | 5, 60, 90, 120 and 1500 minutes give `5 minutes`, `1 hour`, `1h 30m`, `2 hours`, `1 day` |
| Leads.ValidCustomTimes | script.js:966-971 | the kept inputs are exactly the numeric inputs in (0, 1440] |
| Leads.InsertDescending | script.js:974 | inserting into a strictly descending list keeps it strictly descending, with exactly the old elements and the new one |
| Leads.DistinctDescending | script.js:974 | `[...new Set(times)].sort((a, b) => b - a)` is strictly descending with exactly the elements of `times` |
| Leads.NormalizedCustomTimes | script.js:966-974 | the stored custom times are strictly descending, duplicate-free, in (0, 1440], and exactly the valid inputs |
| Leads.DescendingUnique | script.js:974 | two strictly descending lists with the same elements are equal, so the stored list depends only on the set of valid inputs |
| Leads.NormalizeExample | script.js:966-974 | inputs 10, 10, 30, 5 are stored as 30, 10, 5 |
| Leads.CustomLeadsMembers | script.js:552-560 | a custom lead is in the list exactly when its offset is a positive stored time and its caption is that time's label |
| Leads.LeadListMembers | script.js:537-560 | each fixed lead is in the list exactly when its switch is on, and each custom lead exactly when custom leads are on |
| Leads.CustomLeadsOrder | script.js:552-560 | custom leads have positive offsets and keep the order of the times, so stored times give strictly descending leads |
| Leads.FixedLeadsOrder | script.js:537-549 | the fixed leads come in strictly descending offsets drawn from 30, 15, 5, 0 |
| Leads.CollectLeads | script.js:537-560 | the pushes build exactly the lead list: fixed leads 30, 15, 5, now, then the custom leads |
| Leads.CollectCustomLeads | script.js:552-560 | the pass over the custom times builds exactly the custom leads |
| Projection.Occurrence | script.js:521-532 | the absolute start of a slot's occurrence in a week offset; specified by `NextWeekOccurrence`, `OccurrenceWindow` and `ThisWeekDropped` |
| Projection.Today | script.js:526 | today on the Monday = 1 ... Sunday = 7 scale is in 1..7 and congruent to `getDay()` modulo 7 |
| Projection.DaysUntilSlot | script.js:526-528 | the days ahead are in week offset's 7-day window and land on the slot's weekday |
| Projection.Projected | script.js:521-535 | an occurrence is kept exactly when the start is a time and the occurrence is after now, and then it is unchanged |
| Projection.NextWeekDays | script.js:528 | the days ahead for week offset 1 are those for week offset 0 plus 7 |
| Projection.NextWeekOccurrence | script.js:526-535 | next week's occurrence exists with this week's and is exactly one week later; a kept occurrence this week gives a kept one next week |
| Projection.OccurrenceWindow | script.js:526-532 | an occurrence lies between today + 7 * (week offset) days and six days later, at the start time (the window starts today, not on a calendar Monday); next week's is always kept |
| Projection.ThisWeekDropped | script.js:526-535 | this week's occurrence is dropped exactly when the slot's day is today and its start is not after the present minute |
| Projection.MondaySeenFromWednesday | script.js:526-535 | a Monday 08:00 slot seen on Wednesday 10:00 occurs 5 days ahead in week offset 0 and 12 days ahead in week offset 1 |
| Timers.Arm | script.js:567-589 | one `setTimeout` followed by `Map.set`; specified by `ArmEffect` |
| Timers.ArmAll | script.js:562-591 | requests armed in order; specified by `ArmAllHandles`, `ArmAllKey` and `ArmAllKeepsInvariant` |
| Timers.ArmEffect | script.js:567-589 | `setTimeout` plus `Map.set` takes the next handle, stores the timer under it, records it under the key, and changes nothing else |
| Timers.CancelAll | script.js:594-599 | the registry is emptied and exactly the recorded handles' timers are cleared; the rest stay pending unchanged |
| Timers.ArmAllHandles | script.js:562-589 | arming a list of requests uses one fresh handle per request, in order, each timer carrying its request, and leaves earlier timers untouched |
| Timers.ArmAllKey | script.js:586-589 | a requested key records the handle of the last request with that key; an unrequested key keeps its handle |
| Timers.ArmAllKeepsInvariant | script.js:562-589 | arming keeps handles fresh and every recorded handle naming a pending timer of its key |
| Timers.CancelAllKeepsInvariant | script.js:594-599 | clearing keeps the invariant and is idempotent |
| Timers.DisplacedStayPending | script.js:586-589 | a timer whose key is requested again later is not recorded and survives the next clear |
| Timers.ClearThenArmLeaks | script.js:494-518 | in a clear-then-arm pass, a request whose key repeats later leaves a timer that survives the next clear |
| Timers.ArmFromEmpty | script.js:586-589 | on an empty registry, the recorded keys are exactly the requested ones, each naming a pending timer at its last request's time |
| Timers.LastCancelled | script.js:594-599 | the timer last recorded for its key is cleared by the next `clearAllNotifications` |
| Timetable.DayName | script.js:29 | `dayNames[day]` is defined exactly for days 0 to 6 |
| Timetable.Cell | script.js:295 | the `?.` lookup of a cell: the entry when the week, the day and the slot exist, none otherwise; specified by `WithCellEffect` and `ClearCell` |
| Timetable.WithCell | script.js:269-285 | the table after creating the cell's week and day maps and storing or deleting the cell; specified by `WithCellEffect` |
| Timetable.EntryFromForm | script.js:273-282 | the entry `saveSlot` builds from the form; specified by `SaveSlotEffect` |
| Timetable.SaveCell | script.js:266-285 | the data part of `saveSlot`; specified by `SaveSlotEffect` and `SaveKeepsSubjects` |
| Timetable.WithCellEffect | script.js:269-285 | a cell write creates only the week and day maps it needs, stores or deletes the cell, and leaves every other cell as it was |
| Timetable.ClearCell | script.js:293-301 | the cell is absent afterwards, nothing changes when it was empty, no other cell changes, and no week or day map is removed |
| Timetable.SaveSlotEffect | script.js:266-285 | a non-empty trimmed subject stores the form's entry, with the trimmed subject, the slot's time and day name; an empty one leaves the cell absent; no other cell changes |
| Timetable.SaveKeepsSubjects | script.js:272-285 | no save ever stores an entry with an empty subject |
| Timetable.EmptyTable | script.js:120-126 | the fresh table has exactly the weeks below `weeks`, each with exactly the days below `days`, all with empty slot maps |
| Timetable.EmptyWeek | script.js:122-125 | one fresh week has exactly the days below `days`, all empty |
| Timetable.EmptyTableCells | script.js:120-126 | a fresh table has no cell, so none with an empty subject |
| Timetable.Ascending | script.js:513-515 | `Object.entries` visits exactly the integer keys of an object |
| Timetable.AscendingIncreasing | script.js:513-515 | it visits them in strictly increasing order |
| Timetable.IncreasingUnique | script.js:513-515 | the increasing listing of a key set is unique |
| Timetable.AscendingKeys | script.js:513-515 | taking the least remaining key each time lists the keys in `Object.entries` order |
| Scheduler.Key | script.js:586-589 | the registry key `${day}-${subject}-${offset}` |
| Scheduler.LeadRequests | script.js:562-591 | the timers one occurrence asks for, in lead order; specified by `LeadRequestsMembers` and `LeadStep` |
| Scheduler.SlotRequests | script.js:520-592 | the timers one entry asks for; specified by `SlotRequestsMembers` and `SlotPartner` |
| Scheduler.DayRequests | script.js:515-518 | the timers of a day's slots in a visiting order; specified by `DayRequestsMembers`, `DayMembers` and `SlotStep` |
| Scheduler.WeekRequests | script.js:513-518 | the timers of a week's days in a visiting order; specified by `WeekRequestsMembers` and `DayStep` |
| Scheduler.WeekOf | script.js:507 | `timetableData[currentWeek] \|\| {}`: the current week's data, or no day when the week is missing |
| Scheduler.OffsetRequests | script.js:510-518 | the timers of one week offset, read from the current week; specified by `OffsetMembers` and `NextWeekPartner` |
| Scheduler.Requests | script.js:506-518 | the timers of one pass, offset 0 then offset 1; specified by `RequestsMembers`, `RequestsInFuture` and `ThisWeekKeysRepeat` |
| Scheduler.Rearm | script.js:494-518 | the timer state after `scheduleNotifications`; specified by `RearmKeepsInvariant`, `RearmDisabled`, `RearmRegistry`, `RearmIdempotentKeys` and `ThisWeekTimersEscapeClear` |
| Scheduler.LeadRequestsMembers | script.js:562-589 | the timers of one occurrence are exactly those of its leads whose fire time is after now, at occurrence - lead, under the day-subject-lead key |
| Scheduler.SlotRequestsMembers | script.js:520-592 | an entry asks for a timer exactly when its occurrence is kept and one of its leads fires |
| Scheduler.DayRequestsMembers | script.js:515-518 | a day visited in a slot order asks for exactly the timers of its visited entries with notifications on |
| Scheduler.DayMembers | script.js:515-518 | a day's timers come from exactly its entries with notifications on |
| Scheduler.WeekRequestsMembers | script.js:513-518 | a week visited in a day order asks for exactly the timers of its visited days |
| Scheduler.OffsetMembers | script.js:511-518 | a week offset asks for exactly the timers of the current week's days |
| Scheduler.RequestsMembers | script.js:506-518 | a pass asks for a timer exactly when, for week offset 0 or 1, an entry of the current week with notifications on fires it |
| Scheduler.RequestsInFuture | script.js:562-589 | every requested timer fires after now and is one lead of a kept occurrence of a stored entry |
| Scheduler.WeekFiresFrom | script.js:506-589 | a timer a week gives fires after now and comes from a definite day, slot and lead |
| Scheduler.LeadStep | script.js:562-591 | one more lead arms one more timer exactly when its delay is positive |
| Scheduler.SlotStep | script.js:515-518 | one more slot arms that entry's timers exactly when its notifications are on |
| Scheduler.DayStep | script.js:513-518 | one more day arms that day's timers, its slots in ascending order |
| Scheduler.RearmKeepsInvariant | script.js:494-518 | a pass keeps handles fresh and recorded handles tracked, and the next handle never decreases |
| Scheduler.RearmDisabled | script.js:494-499 | with notifications off or not permitted, a pass only clears and leaves the registry empty |
| Scheduler.RearmRegistry | script.js:494-518 | after a pass the registry holds exactly the requested keys, each naming a pending timer at the time of the last request with that key |
| Scheduler.RearmIdempotentKeys | script.js:494-518 | two passes with the same inputs record the same keys |
| Scheduler.NextWeekPartner | script.js:506-511 | every timer of week offset 0 has a partner in week offset 1, with the same key and one week later |
| Scheduler.SlotPartner | script.js:526-535 | the same lead of the same entry fires again exactly one week later |
| Scheduler.ThisWeekKeysRepeat | script.js:506-518 | every week offset 0 key is requested again later in the same pass |
| Scheduler.ThisWeekTimersEscapeClear | script.js:586-589 | every timer armed for week offset 0 is unrecorded after the pass and survives the next clear |
| App.TimeTableApp.constructor | script.js:3-31 | the initial week, empty table, default configuration and settings, no edited slot, and no timers; establishes `Valid` |
| App.TimeTableApp.SetTimeout | script.js:567-584 | a new pending timer under the next handle, which is returned; keeps `Valid` |
| App.TimeTableApp.ClearAllNotifications | script.js:594-599 | the new timer state is `CancelAll` of the old one; keeps `Valid` |
| App.TimeTableApp.ScheduleSlotNotifications | script.js:520-592 | arms exactly the entry's requests for its kept occurrence, in lead order; keeps `Valid` |
| App.TimeTableApp.ScheduleLeads | script.js:562-591 | arms exactly the occurrence's requests, one lead after another; keeps `Valid` |
| App.TimeTableApp.ScheduleLead | script.js:563-589 | arms the lead's timer and records it exactly when its delay is positive, and otherwise changes nothing; keeps `Valid` |
| App.TimeTableApp.ScheduleNotifications | script.js:494-518 | the new timer state is the re-arm pass `Rearm` of the old one; keeps `Valid` (fresh handles, every recorded handle naming a pending timer of its key) |
| App.TimeTableApp.ScheduleWeek | script.js:511-517 | arms the week offset's requests, days in ascending order; keeps `Valid` |
| App.TimeTableApp.ScheduleDay | script.js:513-516 | arms the day's requests, slots in ascending order, skipping entries with notifications off; keeps `Valid` |
| App.TimeTableApp.InitTimetable | script.js:120-126 | the table becomes the empty table of the configuration |
| App.TimeTableApp.InitWeek | script.js:122-125 | one week becomes the empty week of the configuration |
| App.TimeTableApp.GenerateTimetable | script.js:111-126 | stores the form's configuration and builds its empty table |
| App.TimeTableApp.ResetTimetable | script.js:370-383 | when confirmed, an empty table and every recorded timer cleared; otherwise nothing changes; keeps `Valid` |
| App.TimeTableApp.SaveSlot | script.js:263-291 | the edited cell is saved or deleted as `SaveCell` says, the editor closes, and the timers are re-armed; keeps `Valid` |
| App.TimeTableApp.StoreSlot | script.js:266-288 | the edited cell is saved or deleted as `SaveCell` says and the editor closes |
| App.TimeTableApp.ClearSlot | script.js:293-306 | the edited cell is cleared as `ClearCell` says; the editor closes exactly when the cell held an entry |
| App.TimeTableApp.UpdateCustomTimes | script.js:962-979 | the stored custom times become the normalised inputs, and the timers are re-armed exactly when notifications are on; keeps `Valid` |

## Left out

- The page: rendering, event binding, modals, success messages, printing,
  the theme, the customisation panel and the slot editor's other rows.
  Only the end time the editor proposes for a new row is modelled.
- Persistence of the timetable and the settings (storage, import and
  export). The constructor's call to `init` is not modelled either.
- The notification itself: the timer callback, the message body, the tag,
  and asking for permission. Permission is a boolean parameter, and a
  timer is a pending record that never fires.
- Dates: time zones, daylight-saving changes and seconds. The present is
  a parameter counted in whole minutes.
- Clock.GenerateTimeSlots: requires `slotDuration > 0` when the default
  grid would run. With a zero or negative duration the source's loop never
  ends. A `NaN` duration, which gives one label `HH:MM - NaN:NaN`, is not modelled.
- Clock.GenerateTimeSlots: the custom slots are a parameter. The editor
  that stores them is not modelled.
- The first definition of `generateTimeSlots` is not modelled. The second
  definition replaces it.
- Strings.NumberOf: `Number` is modelled for digit strings only, and
  reads the empty string as 0. Spaces, signs, decimals and exponents are
  read as `NaN`, although JavaScript accepts some of them.
- `parseInt` of the custom-time fields is an input of type `Option<int>`.
- A `NaN` week or day count behaves like zero. JavaScript numbers are
  modelled as unbounded integers, since no magnitude here comes near 2^53.
- App.TimeTableApp.SaveSlot, App.TimeTableApp.StoreSlot and
  App.TimeTableApp.ClearSlot require an edited slot. The source reads
  `this.currentEditingSlot` without a check and throws a `TypeError` when it
  is `null`; only the open slot editor makes sure it is set, and the editor
  is not modelled.
- App.TimeTableApp.ScheduleDay: an entry's `notifications` is a boolean,
  as `saveSlot` stores it. The source's `=== false` test would also let a
  loaded entry without the field through. Loaded entries are not modelled.
