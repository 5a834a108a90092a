/** The application object `TimeTableApp`: the state its handlers update in
    place and the handlers of the core, each proved against the function of
    the earlier modules that specifies it.

    The browser's timer table is part of the state here (`pendingTimers`,
    `nextHandle`): `setTimeout` and `clearTimeout` are modelled as updates
    of it. The present moment and the notification permission are passed in
    as parameters. */
module App {

  import opened Options
  import opened Strings
  import opened Clock
  import opened Leads
  import opened Projection
  import opened Timers
  import opened Timetable
  import opened Scheduler

  class TimeTableApp {
    var currentWeek: nat
    var timetableData: Table
    var config: Config
    var notificationSettings: NotificationSettings
    var currentEditingSlot: Option<EditingSlot>
    /** `notificationTimeouts`: notification key -> timer handle. */
    var notificationTimeouts: map<string, nat>
    /** The browser's pending timers, by handle. */
    var pendingTimers: map<nat, Timer>
    /** The handle the next `setTimeout` returns. */
    var nextHandle: nat

    /** The registry together with the browser's timers. */
    function Timers(): TimerState
      reads this
    {
      TimerState(notificationTimeouts, pendingTimers, nextHandle)
    }

    /** Handles are fresh and every recorded handle names a pending timer of
        its key. */
    predicate Valid()
      reads this
    {
      HandlesFresh(Timers()) && Tracked(Timers())
    }

    /** The fields the constructor sets; loading from storage, binding the
        page's events and asking for permission are not modelled. */
    constructor ()
      ensures currentWeek == 0 && timetableData == map[]
      ensures config == DefaultConfig() && notificationSettings == DefaultSettings()
      ensures currentEditingSlot == None
      ensures notificationTimeouts == map[] && pendingTimers == map[]
      ensures Valid()
    {
      currentWeek := 0;
      timetableData := map[];
      config := DefaultConfig();
      notificationSettings := DefaultSettings();
      currentEditingSlot := None;
      notificationTimeouts := map[];
      pendingTimers := map[];
      nextHandle := 1;
    }

    // -------------------------------------------------------------------------
    // the browser's timers

    /** `setTimeout`: a new pending timer under a fresh handle. */
    method SetTimeout(fireAt: int, key: string) returns (timeoutId: nat)
      requires Valid()
      modifies this`pendingTimers, this`nextHandle
      ensures Valid()
      ensures timeoutId == old(nextHandle) && nextHandle == old(nextHandle) + 1
      ensures pendingTimers == old(pendingTimers)[timeoutId := Timer(fireAt, key)]
    {
      timeoutId := nextHandle;
      pendingTimers := pendingTimers[timeoutId := Timer(fireAt, key)];
      nextHandle := nextHandle + 1;
    }

    /** `clearAllNotifications`: every recorded handle is passed to
        `clearTimeout`, then the registry is emptied. */
    method ClearAllNotifications()
      requires Valid()
      modifies this`notificationTimeouts, this`pendingTimers
      ensures Timers() == CancelAll(old(Timers()))
      ensures Valid()
    {
      var left := notificationTimeouts.Values;
      ghost var cleared: set<nat> := {};
      while left != {}
        invariant cleared + left == old(notificationTimeouts).Values
        invariant pendingTimers == old(pendingTimers) - cleared
        invariant notificationTimeouts == old(notificationTimeouts)
        decreases |left|
      {
        var timeoutId :| timeoutId in left;
        ClearOneMore(old(pendingTimers), cleared, timeoutId);
        pendingTimers := pendingTimers - {timeoutId};
        cleared := cleared + {timeoutId};
        left := left - {timeoutId};
      }
      notificationTimeouts := map[];
      CancelAllKeepsInvariant(old(Timers()));
    }

    // -------------------------------------------------------------------------
    // scheduling

    /** `scheduleSlotNotifications`: arms one timer per lead whose fire time is
        still to come, for the slot's occurrence in week `weekOffset`, and
        records each handle under the lead's key. When the start is not a
        time the source goes on with an invalid date, every delay is `NaN`
        and nothing is armed; the early return here ends the same way. */
    method ScheduleSlotNotifications(slotData: SlotEntry, dayIndex: nat, weekOffset: nat, now: Now)
      requires Valid()
      modifies this`notificationTimeouts, this`pendingTimers, this`nextHandle
      ensures Timers() == ArmAll(old(Timers()), SlotRequests(slotData, dayIndex, weekOffset, now, notificationSettings))
      ensures Valid()
    {
      var slotDate := Occurrence(now, slotData.time, dayIndex, weekOffset);
      if slotDate.None? || slotDate.value <= now.abs {
        return;
      }
      var notifications := CollectLeads(notificationSettings);
      ScheduleLeads(notifications, slotDate.value, dayIndex, slotData.subject, now);
    }

    /** The `notifications.forEach` of `scheduleSlotNotifications`, for an
        occurrence at minute `at`. */
    method ScheduleLeads(notifications: seq<Lead>, at: int, dayIndex: nat, subject: string, now: Now)
      requires Valid()
      modifies this`notificationTimeouts, this`pendingTimers, this`nextHandle
      ensures Timers() == ArmAll(old(Timers()), LeadRequests(notifications, at, now, dayIndex, subject))
      ensures Valid()
    {
      var i := 0;
      while i < |notifications|
        invariant 0 <= i <= |notifications|
        invariant Timers() == ArmAll(old(Timers()), LeadRequests(notifications[..i], at, now, dayIndex, subject))
        invariant Valid()
      {
        var lead := notifications[i];
        ghost var prev := Timers();
        ghost var next := ArmAll(old(Timers()), LeadRequests(notifications[..i + 1], at, now, dayIndex, subject));
        LeadStep(old(Timers()), notifications, i, at, now, dayIndex, subject);
        assert next == if at - lead.offset > now.abs then Arm(prev, Request(Key(dayIndex, subject, lead.offset), at - lead.offset)) else prev;
        ScheduleLead(lead, at, dayIndex, subject, now);
        assert Timers() == next;
        i := i + 1;
      }
      assert notifications[..i] == notifications;
    }

    /** One lead of `scheduleSlotNotifications`: a timer at `at - offset`
        when its delay is positive, recorded under the lead's key. */
    method ScheduleLead(lead: Lead, at: int, dayIndex: nat, subject: string, now: Now)
      requires Valid()
      modifies this`notificationTimeouts, this`pendingTimers, this`nextHandle
      ensures Timers() == if at - lead.offset > now.abs then Arm(old(Timers()), Request(Key(dayIndex, subject, lead.offset), at - lead.offset))
                          else old(Timers())
      ensures Valid()
    {
      var notificationTime := at - lead.offset;
      var delay := notificationTime - now.abs;
      if delay > 0 {
        var key := Key(dayIndex, subject, lead.offset);
        var timeoutId := SetTimeout(notificationTime, key);
        notificationTimeouts := notificationTimeouts[key := timeoutId];
      }
    }

    /** `scheduleNotifications`: clears every recorded timer, then, when
        notifications are on and permitted, visits this week's and next
        week's occurrences of the entries of the current week. */
    method ScheduleNotifications(now: Now, permission: bool)
      requires Valid()
      modifies this`notificationTimeouts, this`pendingTimers, this`nextHandle
      ensures Timers() == Rearm(old(Timers()), timetableData, currentWeek, notificationSettings, permission, now)
      ensures Valid()
    {
      ClearAllNotifications();
      if !notificationSettings.enabled || !permission {
        return;
      }
      ghost var cleared := Timers();
      var weekOffset := 0;
      while weekOffset <= 1
        invariant 0 <= weekOffset <= 2
        invariant Timers() == ArmAll(cleared, PassPrefix(weekOffset, now))
        invariant Valid()
      {
        ScheduleWeek(weekOffset, now);
        ArmAllAppend(cleared, PassPrefix(weekOffset, now), OffsetRequests(timetableData, currentWeek, weekOffset, now, notificationSettings));
        weekOffset := weekOffset + 1;
      }
    }

    /** The requests of the week offsets below `weekOffset`, in visiting
        order. */
    ghost function PassPrefix(weekOffset: nat, now: Now): (rs: seq<Request>)
      reads this
      ensures weekOffset == 2 ==> rs == Requests(timetableData, currentWeek, now, notificationSettings)
    {
      if weekOffset == 0 then []
      else if weekOffset == 1 then OffsetRequests(timetableData, currentWeek, 0, now, notificationSettings)
      else Requests(timetableData, currentWeek, now, notificationSettings)
    }

    /** One week offset of `scheduleNotifications`: the days of the current
        week in ascending order. */
    method ScheduleWeek(weekOffset: nat, now: Now)
      requires Valid()
      modifies this`notificationTimeouts, this`pendingTimers, this`nextHandle
      ensures Timers() == ArmAll(old(Timers()), OffsetRequests(timetableData, currentWeek, weekOffset, now, notificationSettings))
      ensures Valid()
    {
      var weekData := WeekOf(timetableData, currentWeek);
      var days := AscendingKeys(weekData.Keys);
      var d := 0;
      while d < |days|
        invariant 0 <= d <= |days|
        invariant Timers() == ArmAll(old(Timers()), WeekRequests(weekData, days[..d], weekOffset, now, notificationSettings))
        invariant Valid()
      {
        var dayNum := days[d];
        var dayData := weekData[dayNum];
        ghost var prev := Timers();
        ghost var next := ArmAll(old(Timers()), WeekRequests(weekData, days[..d + 1], weekOffset, now, notificationSettings));
        DayStep(old(Timers()), weekData, days, d, weekOffset, now, notificationSettings);
        assert next == ArmAll(prev, DayRequests(dayData, Ascending(dayData.Keys), dayNum, weekOffset, now, notificationSettings));
        ScheduleDay(dayData, dayNum, weekOffset, now);
        assert Timers() == next;
        d := d + 1;
      }
      assert days[..d] == days;
    }

    /** One day of `scheduleNotifications`: its slots in ascending order,
        skipping entries whose notifications are off. */
    method ScheduleDay(dayData: map<nat, SlotEntry>, dayNum: nat, weekOffset: nat, now: Now)
      requires Valid()
      modifies this`notificationTimeouts, this`pendingTimers, this`nextHandle
      ensures Timers() == ArmAll(old(Timers()), DayRequests(dayData, Ascending(dayData.Keys), dayNum, weekOffset, now, notificationSettings))
      ensures Valid()
    {
      var slots := AscendingKeys(dayData.Keys);
      var k := 0;
      while k < |slots|
        invariant 0 <= k <= |slots|
        invariant Timers() == ArmAll(old(Timers()), DayRequests(dayData, slots[..k], dayNum, weekOffset, now, notificationSettings))
        invariant Valid()
      {
        var slotData := dayData[slots[k]];
        ghost var prev := Timers();
        ghost var next := ArmAll(old(Timers()), DayRequests(dayData, slots[..k + 1], dayNum, weekOffset, now, notificationSettings));
        SlotStep(old(Timers()), dayData, slots, k, dayNum, weekOffset, now, notificationSettings);
        if slotData.notifications {
          assert next == ArmAll(prev, SlotRequests(slotData, dayNum, weekOffset, now, notificationSettings));
          ScheduleSlotNotifications(slotData, dayNum, weekOffset, now);
        } else {
          assert next == prev;
        }
        assert Timers() == next;
        k := k + 1;
      }
      assert slots[..k] == slots;
    }

    // -------------------------------------------------------------------------
    // the timetable

    /** The loops of `generateTimetable` and `resetTimetable`: an empty day map
        for every week and day of the configuration. */
    method InitTimetable()
      modifies this`timetableData
      ensures timetableData == EmptyTable(config.weeks, config.days)
    {
      timetableData := map[];
      var week: nat := 0;
      while week < config.weeks
        invariant 0 <= week <= (if config.weeks > 0 then config.weeks else 0)
        invariant timetableData == EmptyTable(week, config.days)
      {
        InitWeek(week);
        week := week + 1;
      }
    }

    /** One week of those loops: the week's map, then an empty slot map for
        every day of the configuration. */
    method InitWeek(week: nat)
      modifies this`timetableData
      ensures timetableData == old(timetableData)[week := EmptyWeek(config.days)]
    {
      timetableData := timetableData[week := map[]];
      var day: nat := 0;
      while day < config.days
        invariant 0 <= day <= (if config.days > 0 then config.days else 0)
        invariant timetableData == old(timetableData)[week := EmptyWeek(day)]
      {
        var weekData: map<nat, map<nat, SlotEntry>> := timetableData[week];
        timetableData := timetableData[week := weekData[day := map[]]];
        day := day + 1;
      }
    }

    /** The data part of `generateTimetable`: the configuration read from the
        form, then a fresh empty table. */
    method GenerateTimetable(weeks: int, days: int, startTime: string, endTime: string, slotDuration: int)
      modifies this`config, this`timetableData
      ensures config == Config(weeks, days, startTime, endTime, slotDuration)
      ensures timetableData == EmptyTable(weeks, days)
    {
      config := Config(weeks, days, startTime, endTime, slotDuration);
      InitTimetable();
    }

    /** `resetTimetable`: when confirmed, a fresh empty table and every
        recorded timer cleared; otherwise nothing changes. */
    method ResetTimetable(confirmed: bool)
      requires Valid()
      modifies this`timetableData, this`notificationTimeouts, this`pendingTimers
      ensures confirmed ==> timetableData == EmptyTable(config.weeks, config.days)
      ensures confirmed ==> Timers() == CancelAll(old(Timers()))
      ensures !confirmed ==> timetableData == old(timetableData) && Timers() == old(Timers())
      ensures Valid()
    {
      if confirmed {
        InitTimetable();
        ClearAllNotifications();
      }
    }

    /** `saveSlot`: stores the form's entry in the edited cell (or deletes the
        cell when the trimmed subject is empty), closes the editor and
        reschedules every notification. */
    method SaveSlot(form: SlotForm, now: Now, permission: bool)
      requires currentEditingSlot.Some? && Valid()
      modifies this`timetableData, this`currentEditingSlot
      modifies this`notificationTimeouts, this`pendingTimers, this`nextHandle
      ensures timetableData == SaveCell(old(timetableData), old(currentEditingSlot).value, form)
      ensures currentEditingSlot == None
      ensures Timers() == Rearm(old(Timers()), timetableData, currentWeek, notificationSettings, permission, now)
      ensures Valid()
    {
      StoreSlot(form);
      ScheduleNotifications(now, permission);
    }

    /** The data part of `saveSlot`: the edited cell is written or deleted
        and the editor closed. */
    method StoreSlot(form: SlotForm)
      requires currentEditingSlot.Some?
      modifies this`timetableData, this`currentEditingSlot
      ensures timetableData == SaveCell(old(timetableData), old(currentEditingSlot).value, form)
      ensures currentEditingSlot == None
    {
      var target := currentEditingSlot.value;
      ghost var saved := SaveCell(timetableData, target, form);
      var subject := Trim(form.subject);
      var weekData: map<nat, map<nat, SlotEntry>> := if target.week in timetableData then timetableData[target.week] else map[];
      var dayData: map<nat, SlotEntry> := if target.day in weekData then weekData[target.day] else map[];
      if subject != "" {
        dayData := dayData[target.slot := EntryFromForm(target, form)];
      } else {
        dayData := dayData - {target.slot};
      }
      timetableData := timetableData[target.week := weekData[target.day := dayData]];
      assert timetableData == saved;
      currentEditingSlot := None;
    }

    /** `clearSlot`: when the edited cell holds an entry, deletes it and closes
        the editor; notifications are not rescheduled. */
    method ClearSlot()
      requires currentEditingSlot.Some?
      modifies this`timetableData, this`currentEditingSlot
      ensures timetableData == ClearCell(old(timetableData), old(currentEditingSlot).value)
      ensures var target := old(currentEditingSlot).value;
              currentEditingSlot == if Cell(old(timetableData), target.week, target.day, target.slot).Some?
                                    then None else old(currentEditingSlot)
    {
      var target := currentEditingSlot.value;
      if Cell(timetableData, target.week, target.day, target.slot).Some? {
        var weekData: map<nat, map<nat, SlotEntry>> := timetableData[target.week];
        var dayData: map<nat, SlotEntry> := weekData[target.day] - {target.slot};
        timetableData := timetableData[target.week := weekData[target.day := dayData]];
        currentEditingSlot := None;
      }
    }

    // -------------------------------------------------------------------------
    // notification preferences

    /** `updateCustomTimes`: keeps the inputs that are numbers in (0, 1440],
        stores their distinct values largest first, and reschedules when
        notifications are on. Each input is `parseInt` of a field. */
    method UpdateCustomTimes(inputs: seq<Option<int>>, now: Now, permission: bool)
      requires Valid()
      modifies this`notificationSettings
      modifies this`notificationTimeouts, this`pendingTimers, this`nextHandle
      ensures notificationSettings == old(notificationSettings).(customTimes := NormalizeCustomTimes(inputs))
      ensures notificationSettings.enabled ==>
                Timers() == Rearm(old(Timers()), timetableData, currentWeek, notificationSettings, permission, now)
      ensures !notificationSettings.enabled ==> Timers() == old(Timers())
      ensures Valid()
    {
      var times := [];
      var i := 0;
      while i < |inputs|
        invariant 0 <= i <= |inputs|
        invariant times == ValidCustomTimes(inputs[..i])
      {
        var value := inputs[i];
        assert inputs[..i + 1][..i] == inputs[..i];
        if value.Some? && value.value > 0 && value.value <= 1440 {
          times := times + [value.value];
        }
        i := i + 1;
      }
      assert inputs[..i] == inputs;
      notificationSettings := notificationSettings.(customTimes := DistinctDescending(times));
      if notificationSettings.enabled {
        ScheduleNotifications(now, permission);
      }
    }
  }

}
