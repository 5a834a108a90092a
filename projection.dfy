/** The occurrence projector of `scheduleSlotNotifications`: from a slot's
    weekday and start time, and the present moment, the next (or the
    following week's) absolute start of the slot, if it is still to come.

    Time is counted in whole minutes of local time. The source compares a
    date set to a whole minute (`setHours(h, m, 0, 0)`) with the present,
    which may carry seconds; for such comparisons the present's floor minute
    gives the same answers, so nothing is lost by counting minutes. */
module Projection {

  import opened Options
  import opened Clock

  /** `Date.prototype.getDay`: 0 is Sunday, 1 Monday, ..., 6 Saturday. */
  type Weekday = x: int | 0 <= x < 7

  type MinuteOfDay = x: int | 0 <= x < 1440

  /** The present: its absolute minute, its weekday and
      `getHours() * 60 + getMinutes()`. */
  datatype Now = Now(abs: int, weekday: Weekday, minuteOfDay: MinuteOfDay)

  /** The weekday on the Monday = 1 ... Sunday = 7 scale. */
  function Today(weekday: Weekday): (t: int)
    ensures 1 <= t <= 7 && t % 7 == weekday
  {
    if weekday == 0 then 7 else weekday
  }

  /** `daysUntilSlot`: how many days ahead of today the slot of day column
      `dayIndex` (0 = Monday) falls, in the current week or `weekOffset`
      weeks later. The dividend is positive, so JavaScript's `%` agrees with
      Dafny's here. */
  function DaysUntilSlot(weekday: Weekday, dayIndex: nat, weekOffset: nat): (days: nat)
    ensures 7 * weekOffset <= days <= 7 * weekOffset + 6
    ensures (Today(weekday) + days) % 7 == (dayIndex + 1) % 7
  {
    var targetDay := dayIndex + 1;
    (targetDay - Today(weekday) + 7) % 7 + weekOffset * 7
  }

  /** The absolute minute of the slot's start: today's midnight, plus the
      days until the slot, plus the start time read from the label. The
      source's `setHours` carries hours past 23 and minutes past 59 into the
      following days, which is what the plain sum does. */
  function Occurrence(now: Now, time: string, dayIndex: nat, weekOffset: nat): Option<int> {
    match SlotStart(time)
    case None => None
    case Some(start) => Some(now.abs - now.minuteOfDay + DaysUntilSlot(now.weekday, dayIndex, weekOffset) * 1440 + start)
  }

  /** The occurrence the scheduler keeps: none when the label's start is not a
      time (an invalid date schedules nothing) or when it is not after now. */
  function Projected(now: Now, time: string, dayIndex: nat, weekOffset: nat): (r: Option<int>)
    ensures r.Some? <==> Occurrence(now, time, dayIndex, weekOffset).Some?
                         && Occurrence(now, time, dayIndex, weekOffset).value > now.abs
    ensures r.Some? ==> r == Occurrence(now, time, dayIndex, weekOffset)
  {
    match Occurrence(now, time, dayIndex, weekOffset)
    case None => None
    case Some(at) => if at <= now.abs then None else Some(at)
  }

  /** The days until the slot are the same weekday offset in both weeks,
      seven days apart. */
  lemma NextWeekDays(weekday: Weekday, dayIndex: nat)
    ensures DaysUntilSlot(weekday, dayIndex, 1) == DaysUntilSlot(weekday, dayIndex, 0) + 7
  {
  }

  /** The following week's occurrence is exactly one week later, and it is
      kept whenever this week's is. */
  lemma NextWeekOccurrence(now: Now, time: string, dayIndex: nat)
    ensures Occurrence(now, time, dayIndex, 1).Some? <==> Occurrence(now, time, dayIndex, 0).Some?
    ensures Occurrence(now, time, dayIndex, 0).Some? ==>
              Occurrence(now, time, dayIndex, 1).value == Occurrence(now, time, dayIndex, 0).value + 7 * 1440
    ensures Projected(now, time, dayIndex, 0).Some? ==>
              Projected(now, time, dayIndex, 1) == Some(Projected(now, time, dayIndex, 0).value + 7 * 1440)
  {
    NextWeekDays(now.weekday, dayIndex);
  }

  /** An occurrence lies in the window of its week: from the week's first
      day at the start time to six days later. Next week's occurrence is
      therefore always still to come. */
  lemma OccurrenceWindow(now: Now, time: string, dayIndex: nat, weekOffset: nat)
    requires SlotStart(time).Some?
    ensures var at := Occurrence(now, time, dayIndex, weekOffset).value;
            var base := now.abs - now.minuteOfDay + SlotStart(time).value;
            base + 7 * weekOffset * 1440 <= at <= base + (7 * weekOffset + 6) * 1440
    ensures weekOffset == 1 ==> Projected(now, time, dayIndex, 1).Some?
  {
    var d := DaysUntilSlot(now.weekday, dayIndex, weekOffset);
    assert 7 * weekOffset * 1440 <= d * 1440 <= (7 * weekOffset + 6) * 1440;
  }

  /** This week's occurrence is dropped exactly when the slot's day is today
      and its start time is not after the present minute: the weekday
      arithmetic never looks back to an earlier day. */
  lemma ThisWeekDropped(now: Now, time: string, dayIndex: nat)
    requires SlotStart(time).Some?
    ensures Projected(now, time, dayIndex, 0).None? <==>
              (dayIndex + 1) % 7 == now.weekday && SlotStart(time).value <= now.minuteOfDay
  {
    var d := DaysUntilSlot(now.weekday, dayIndex, 0);
    if d > 0 {
      assert d * 1440 >= 1440;
    } else {
      assert (Today(now.weekday) + d) % 7 == now.weekday;
    }
  }

  /** A Monday 08:00 slot seen from a Wednesday at 10:00: the first
      occurrence is the coming Monday at 08:00, five days ahead, and the
      following week's is twelve days ahead. */
  lemma MondaySeenFromWednesday(now: Now, time: string)
    requires now.weekday == 3 && now.minuteOfDay == 600
    requires time == SlotLabel(480, 540)
    ensures Projected(now, time, 0, 0) == Some(now.abs - 600 + 5 * 1440 + 480)
    ensures Projected(now, time, 0, 1) == Some(now.abs - 600 + 12 * 1440 + 480)
  {
    SlotLabelRoundTrip(480, 540);
    assert DaysUntilSlot(3, 0, 0) == 5;
    assert DaysUntilSlot(3, 0, 1) == 12;
  }

}
