/** The re-arm pass of `scheduleNotifications` as a function of the state it
    starts from: which timers it asks for, in which order, and what the
    registry and the pending timers are afterwards. */
module Scheduler {

  import opened Options
  import opened Strings
  import opened Leads
  import opened Projection
  import opened Timers
  import opened Timetable

  /** The registry key `${dayIndex}-${subject}-${offset}`. */
  function Key(day: nat, subject: string, offset: nat): string {
    NatToString(day) + "-" + subject + "-" + NatToString(offset)
  }

  /** The timers asked for one occurrence at minute `at`: one per lead, in
      the lead list's order, for the leads whose fire time is after now. */
  function LeadRequests(leads: seq<Lead>, at: int, now: Now, day: nat, subject: string): seq<Request>
    decreases |leads|
  {
    if leads == [] then []
    else
      var l := leads[|leads| - 1];
      LeadRequests(leads[..|leads| - 1], at, now, day, subject)
      + (if at - l.offset > now.abs then [Request(Key(day, subject, l.offset), at - l.offset)] else [])
  }

  /** `scheduleSlotNotifications` for one entry: nothing when its occurrence
      is dropped, otherwise the timers of its leads. */
  function SlotRequests(entry: SlotEntry, day: nat, weekOffset: nat, now: Now, s: NotificationSettings): seq<Request> {
    match Projected(now, entry.time, day, weekOffset)
    case None => []
    case Some(at) => LeadRequests(LeadList(s), at, now, day, entry.subject)
  }

  /** The slots of one day visited in the order `slots`, skipping entries
      whose notifications are switched off. */
  function DayRequests(dayData: map<nat, SlotEntry>, slots: seq<nat>, day: nat, weekOffset: nat, now: Now, s: NotificationSettings): seq<Request>
    decreases |slots|
  {
    if slots == [] then []
    else if slots[|slots| - 1] !in dayData then DayRequests(dayData, slots[..|slots| - 1], day, weekOffset, now, s)
    else
      var entry := dayData[slots[|slots| - 1]];
      DayRequests(dayData, slots[..|slots| - 1], day, weekOffset, now, s)
      + (if entry.notifications then SlotRequests(entry, day, weekOffset, now, s) else [])
  }

  /** The days of one week visited in the order `days`, each day's slots in
      ascending order. */
  ghost function WeekRequests(week: map<nat, map<nat, SlotEntry>>, days: seq<nat>, weekOffset: nat, now: Now, s: NotificationSettings): seq<Request>
    decreases |days|
  {
    if days == [] then []
    else if days[|days| - 1] !in week then WeekRequests(week, days[..|days| - 1], weekOffset, now, s)
    else
      var d := days[|days| - 1];
      WeekRequests(week, days[..|days| - 1], weekOffset, now, s)
      + DayRequests(week[d], Ascending(week[d].Keys), d, weekOffset, now, s)
  }

  /** `this.timetableData[this.currentWeek] || {}`. */
  function WeekOf(data: Table, currentWeek: nat): map<nat, map<nat, SlotEntry>> {
    if currentWeek in data then data[currentWeek] else map[]
  }

  /** All the timers of one week offset; both offsets read the current week. */
  ghost function OffsetRequests(data: Table, currentWeek: nat, weekOffset: nat, now: Now, s: NotificationSettings): seq<Request> {
    var week := WeekOf(data, currentWeek);
    WeekRequests(week, Ascending(week.Keys), weekOffset, now, s)
  }

  /** All the timers one pass asks for: this week's occurrences, then next
      week's. */
  ghost function Requests(data: Table, currentWeek: nat, now: Now, s: NotificationSettings): seq<Request> {
    OffsetRequests(data, currentWeek, 0, now, s) + OffsetRequests(data, currentWeek, 1, now, s)
  }

  /** `scheduleNotifications`: clear everything, then, when notifications are
      on and permitted, arm the pass's timers. */
  ghost function Rearm(t: TimerState, data: Table, currentWeek: nat, s: NotificationSettings, permission: bool, now: Now): TimerState {
    var cleared := CancelAll(t);
    if !s.enabled || !permission then cleared
    else ArmAll(cleared, Requests(data, currentWeek, now, s))
  }

  // ---------------------------------------------------------------------------
  // which timers a pass asks for

  /** Lead `l` of an occurrence at `at` gives request `r`. */
  predicate LeadFires(l: Lead, at: int, now: Now, day: nat, subject: string, r: Request) {
    at - l.offset > now.abs && r == Request(Key(day, subject, l.offset), at - l.offset)
  }

  /** The entry's occurrence is kept and one of its leads gives `r`. */
  predicate SlotFires(entry: SlotEntry, day: nat, weekOffset: nat, now: Now, s: NotificationSettings, r: Request) {
    && Projected(now, entry.time, day, weekOffset).Some?
    && exists l :: l in LeadList(s) && LeadFires(l, Projected(now, entry.time, day, weekOffset).value, now, day, entry.subject, r)
  }

  /** An entry of the day with notifications on gives `r`. */
  predicate DayFires(dayData: map<nat, SlotEntry>, day: nat, weekOffset: nat, now: Now, s: NotificationSettings, r: Request) {
    exists k :: k in dayData && dayData[k].notifications && SlotFires(dayData[k], day, weekOffset, now, s, r)
  }

  /** A day of the week gives `r`. */
  predicate WeekFires(week: map<nat, map<nat, SlotEntry>>, weekOffset: nat, now: Now, s: NotificationSettings, r: Request) {
    exists d :: d in week && DayFires(week[d], d, weekOffset, now, s, r)
  }

  lemma {:induction false} LeadRequestsMembers(leads: seq<Lead>, at: int, now: Now, day: nat, subject: string, r: Request)
    ensures r in LeadRequests(leads, at, now, day, subject) <==> exists l :: l in leads && LeadFires(l, at, now, day, subject, r)
    decreases |leads|
  {
    if leads != [] {
      var init := leads[..|leads| - 1];
      var last := leads[|leads| - 1];
      LeadRequestsMembers(init, at, now, day, subject, r);
      assert leads == init + [last];
      var tail := if at - last.offset > now.abs then [Request(Key(day, subject, last.offset), at - last.offset)] else [];
      assert r in tail <==> LeadFires(last, at, now, day, subject, r);
      assert LeadRequests(leads, at, now, day, subject) == LeadRequests(init, at, now, day, subject) + tail;
      if exists l :: l in leads && LeadFires(l, at, now, day, subject, r) {
        var l :| l in leads && LeadFires(l, at, now, day, subject, r);
        if l != last {
          assert l in init;
        }
      }
      if LeadFires(last, at, now, day, subject, r) {
        assert last in leads;
      }
    }
  }

  lemma SlotRequestsMembers(entry: SlotEntry, day: nat, weekOffset: nat, now: Now, s: NotificationSettings, r: Request)
    ensures r in SlotRequests(entry, day, weekOffset, now, s) <==> SlotFires(entry, day, weekOffset, now, s, r)
  {
    var p := Projected(now, entry.time, day, weekOffset);
    if p.Some? {
      LeadRequestsMembers(LeadList(s), p.value, now, day, entry.subject, r);
    }
  }

  lemma {:induction false} DayRequestsMembers(dayData: map<nat, SlotEntry>, slots: seq<nat>, day: nat, weekOffset: nat, now: Now, s: NotificationSettings, r: Request)
    requires forall i :: 0 <= i < |slots| ==> slots[i] in dayData
    ensures r in DayRequests(dayData, slots, day, weekOffset, now, s) <==>
              exists i :: 0 <= i < |slots| && dayData[slots[i]].notifications && SlotFires(dayData[slots[i]], day, weekOffset, now, s, r)
    decreases |slots|
  {
    if slots != [] {
      var init := slots[..|slots| - 1];
      var k := slots[|slots| - 1];
      DayRequestsMembers(dayData, init, day, weekOffset, now, s, r);
      SlotRequestsMembers(dayData[k], day, weekOffset, now, s, r);
      if exists i :: 0 <= i < |slots| && dayData[slots[i]].notifications && SlotFires(dayData[slots[i]], day, weekOffset, now, s, r) {
        var i :| 0 <= i < |slots| && dayData[slots[i]].notifications && SlotFires(dayData[slots[i]], day, weekOffset, now, s, r);
        if i < |slots| - 1 {
          assert slots[i] == init[i];
        }
      }
      forall i | 0 <= i < |init| ensures init[i] == slots[i] {
      }
    }
  }

  /** A day's requests in ascending slot order come from exactly its entries
      with notifications on. */
  lemma DayMembers(dayData: map<nat, SlotEntry>, day: nat, weekOffset: nat, now: Now, s: NotificationSettings, r: Request)
    ensures r in DayRequests(dayData, Ascending(dayData.Keys), day, weekOffset, now, s) <==> DayFires(dayData, day, weekOffset, now, s, r)
  {
    var slots := Ascending(dayData.Keys);
    DayRequestsMembers(dayData, slots, day, weekOffset, now, s, r);
    if DayFires(dayData, day, weekOffset, now, s, r) {
      var k :| k in dayData && dayData[k].notifications && SlotFires(dayData[k], day, weekOffset, now, s, r);
      assert k in slots;
      var i :| 0 <= i < |slots| && slots[i] == k;
    }
  }

  lemma {:induction false} WeekRequestsMembers(week: map<nat, map<nat, SlotEntry>>, days: seq<nat>, weekOffset: nat, now: Now, s: NotificationSettings, r: Request)
    requires forall i :: 0 <= i < |days| ==> days[i] in week
    ensures r in WeekRequests(week, days, weekOffset, now, s) <==>
              exists i :: 0 <= i < |days| && DayFires(week[days[i]], days[i], weekOffset, now, s, r)
    decreases |days|
  {
    if days != [] {
      var init := days[..|days| - 1];
      var d := days[|days| - 1];
      WeekRequestsMembers(week, init, weekOffset, now, s, r);
      DayMembers(week[d], d, weekOffset, now, s, r);
      if exists i :: 0 <= i < |days| && DayFires(week[days[i]], days[i], weekOffset, now, s, r) {
        var i :| 0 <= i < |days| && DayFires(week[days[i]], days[i], weekOffset, now, s, r);
        if i < |days| - 1 {
          assert days[i] == init[i];
        }
      }
      forall i | 0 <= i < |init| ensures init[i] == days[i] {
      }
    }
  }

  lemma OffsetMembers(data: Table, currentWeek: nat, weekOffset: nat, now: Now, s: NotificationSettings, r: Request)
    ensures r in OffsetRequests(data, currentWeek, weekOffset, now, s) <==> WeekFires(WeekOf(data, currentWeek), weekOffset, now, s, r)
  {
    var week := WeekOf(data, currentWeek);
    var days := Ascending(week.Keys);
    WeekRequestsMembers(week, days, weekOffset, now, s, r);
    if WeekFires(week, weekOffset, now, s, r) {
      var d :| d in week && DayFires(week[d], d, weekOffset, now, s, r);
      assert d in days;
      var i :| 0 <= i < |days| && days[i] == d;
    }
  }

  /** A pass asks for request `r` exactly when, for week offset 0 or 1, some
      day of the CURRENT week holds an entry with notifications on whose
      occurrence is kept and one of whose leads fires after now at
      occurrence - lead, under the key day-subject-lead. */
  lemma RequestsMembers(data: Table, currentWeek: nat, now: Now, s: NotificationSettings, r: Request)
    ensures r in Requests(data, currentWeek, now, s) <==>
              WeekFires(WeekOf(data, currentWeek), 0, now, s, r) || WeekFires(WeekOf(data, currentWeek), 1, now, s, r)
  {
    OffsetMembers(data, currentWeek, 0, now, s, r);
    OffsetMembers(data, currentWeek, 1, now, s, r);
  }

  /** Every requested timer fires strictly after now, at the occurrence minus
      its lead, and its key is built from the entry's day, subject and lead. */
  lemma RequestsInFuture(data: Table, currentWeek: nat, now: Now, s: NotificationSettings, r: Request)
    requires r in Requests(data, currentWeek, now, s)
    ensures r.fireAt > now.abs
    ensures exists w: nat, d, k, l :: w <= 1 && FiresIn(WeekOf(data, currentWeek), w, d, k, now, s, l, r)
  {
    RequestsMembers(data, currentWeek, now, s, r);
    var week := WeekOf(data, currentWeek);
    if WeekFires(week, 0, now, s, r) {
      WeekFiresFrom(week, 0, now, s, r);
    } else {
      WeekFiresFrom(week, 1, now, s, r);
    }
  }

  /** Request `r` is lead `l` of the entry in slot `k` of day `d` of `week`. */
  predicate FiresIn(week: map<nat, map<nat, SlotEntry>>, weekOffset: nat, d: nat, k: nat, now: Now, s: NotificationSettings, l: Lead, r: Request) {
    d in week && k in week[d] && FiresFrom(week[d][k], d, weekOffset, now, s, l, r)
  }

  lemma WeekFiresFrom(week: map<nat, map<nat, SlotEntry>>, weekOffset: nat, now: Now, s: NotificationSettings, r: Request)
    requires WeekFires(week, weekOffset, now, s, r)
    ensures r.fireAt > now.abs
    ensures exists d, k, l :: FiresIn(week, weekOffset, d, k, now, s, l, r)
  {
    var d :| d in week && DayFires(week[d], d, weekOffset, now, s, r);
    var k :| k in week[d] && week[d][k].notifications && SlotFires(week[d][k], d, weekOffset, now, s, r);
    var entry := week[d][k];
    var at := Projected(now, entry.time, d, weekOffset).value;
    var l :| l in LeadList(s) && LeadFires(l, at, now, d, entry.subject, r);
    assert FiresIn(week, weekOffset, d, k, now, s, l, r);
  }

  /** Request `r` is lead `l` of the kept occurrence of `entry`, an entry
      with notifications on. */
  predicate FiresFrom(entry: SlotEntry, day: nat, weekOffset: nat, now: Now, s: NotificationSettings, l: Lead, r: Request) {
    && entry.notifications
    && l in LeadList(s)
    && Projected(now, entry.time, day, weekOffset).Some?
    && var at := Projected(now, entry.time, day, weekOffset).value;
       && r.fireAt == at - l.offset && r.fireAt > now.abs
       && r.key == Key(day, entry.subject, l.offset)
  }

  // ---------------------------------------------------------------------------
  // one step of each of the pass's loops

  /** One more lead arms at most one more timer. */
  lemma LeadStep(t: TimerState, leads: seq<Lead>, i: nat, at: int, now: Now, day: nat, subject: string)
    requires i < |leads|
    ensures var u := ArmAll(t, LeadRequests(leads[..i], at, now, day, subject));
            var l := leads[i];
            ArmAll(t, LeadRequests(leads[..i + 1], at, now, day, subject))
              == if at - l.offset > now.abs then Arm(u, Request(Key(day, subject, l.offset), at - l.offset)) else u
  {
    var upto := leads[..i + 1];
    assert upto[..|upto| - 1] == leads[..i];
    var done := LeadRequests(leads[..i], at, now, day, subject);
    var l := leads[i];
    var tail := if at - l.offset > now.abs then [Request(Key(day, subject, l.offset), at - l.offset)] else [];
    assert LeadRequests(upto, at, now, day, subject) == done + tail;
    if tail == [] {
      assert done + tail == done;
    } else {
      ArmAllSnoc(t, done, tail[0]);
    }
  }

  /** One more slot of a day arms that slot's timers when its notifications
      are on. */
  lemma SlotStep(t: TimerState, dayData: map<nat, SlotEntry>, slots: seq<nat>, k: nat, day: nat, weekOffset: nat, now: Now, s: NotificationSettings)
    requires k < |slots| && slots[k] in dayData
    ensures var u := ArmAll(t, DayRequests(dayData, slots[..k], day, weekOffset, now, s));
            var entry := dayData[slots[k]];
            ArmAll(t, DayRequests(dayData, slots[..k + 1], day, weekOffset, now, s))
              == if entry.notifications then ArmAll(u, SlotRequests(entry, day, weekOffset, now, s)) else u
  {
    var upto := slots[..k + 1];
    assert upto[..|upto| - 1] == slots[..k];
    var done := DayRequests(dayData, slots[..k], day, weekOffset, now, s);
    var entry := dayData[slots[k]];
    if entry.notifications {
      ArmAllAppend(t, done, SlotRequests(entry, day, weekOffset, now, s));
    } else {
      assert done + [] == done;
    }
  }

  /** One more day of a week arms that day's timers. */
  lemma DayStep(t: TimerState, week: map<nat, map<nat, SlotEntry>>, days: seq<nat>, d: nat, weekOffset: nat, now: Now, s: NotificationSettings)
    requires d < |days| && days[d] in week
    ensures var u := ArmAll(t, WeekRequests(week, days[..d], weekOffset, now, s));
            var dayData := week[days[d]];
            ArmAll(t, WeekRequests(week, days[..d + 1], weekOffset, now, s))
              == ArmAll(u, DayRequests(dayData, Ascending(dayData.Keys), days[d], weekOffset, now, s))
  {
    var upto := days[..d + 1];
    assert upto[..|upto| - 1] == days[..d];
    var dayData := week[days[d]];
    ArmAllAppend(t, WeekRequests(week, days[..d], weekOffset, now, s), DayRequests(dayData, Ascending(dayData.Keys), days[d], weekOffset, now, s));
  }

  /** A pass keeps handles fresh and recorded handles tracked. */
  lemma RearmKeepsInvariant(t: TimerState, data: Table, currentWeek: nat, s: NotificationSettings, permission: bool, now: Now)
    requires HandlesFresh(t) && Tracked(t)
    ensures var u := Rearm(t, data, currentWeek, s, permission, now);
            HandlesFresh(u) && Tracked(u) && u.next >= t.next
  {
    CancelAllKeepsInvariant(t);
    ArmAllHandles(CancelAll(t), Requests(data, currentWeek, now, s));
    ArmAllKeepsInvariant(CancelAll(t), Requests(data, currentWeek, now, s));
  }

  // ---------------------------------------------------------------------------
  // the registry after a pass

  /** With notifications off or not permitted, the pass leaves the registry
      empty and only clears timers. */
  lemma RearmDisabled(t: TimerState, data: Table, currentWeek: nat, s: NotificationSettings, permission: bool, now: Now)
    requires !s.enabled || !permission
    ensures Rearm(t, data, currentWeek, s, permission, now).registry == map[]
    ensures Rearm(t, data, currentWeek, s, permission, now) == CancelAll(t)
  {
  }

  /** After a pass, the registry holds exactly the keys of the requests, and
      each key's handle names a pending timer of that key that fires at the
      time of the LAST request with that key. */
  lemma RearmRegistry(t: TimerState, data: Table, currentWeek: nat, s: NotificationSettings, permission: bool, now: Now)
    requires s.enabled && permission
    ensures var u := Rearm(t, data, currentWeek, s, permission, now);
            var rs := Requests(data, currentWeek, now, s);
            && (forall k :: k in u.registry <==> exists i :: 0 <= i < |rs| && rs[i].key == k)
            && (forall k :: k in u.registry ==>
                  && LastWith(rs, k) >= 0
                  && u.registry[k] in u.pending
                  && u.pending[u.registry[k]] == Timer(rs[LastWith(rs, k)].fireAt, k))
  {
    var rs := Requests(data, currentWeek, now, s);
    ArmFromEmpty(CancelAll(t), rs);
    assert Rearm(t, data, currentWeek, s, permission, now) == ArmAll(CancelAll(t), rs);
  }

  /** Two passes in a row with the same inputs record the same set of keys:
      the keys depend only on the timetable, the settings and now. */
  lemma RearmIdempotentKeys(t: TimerState, data: Table, currentWeek: nat, s: NotificationSettings, permission: bool, now: Now)
    ensures var once := Rearm(t, data, currentWeek, s, permission, now);
            Rearm(once, data, currentWeek, s, permission, now).registry.Keys == once.registry.Keys
  {
    var once := Rearm(t, data, currentWeek, s, permission, now);
    if s.enabled && permission {
      RearmRegistry(t, data, currentWeek, s, permission, now);
      RearmRegistry(once, data, currentWeek, s, permission, now);
    }
  }

  /** Every request of this week's occurrences has a partner among next
      week's: the same key, one week later. */
  lemma NextWeekPartner(data: Table, currentWeek: nat, now: Now, s: NotificationSettings, r: Request)
    requires r in OffsetRequests(data, currentWeek, 0, now, s)
    ensures Request(r.key, r.fireAt + 7 * 1440) in OffsetRequests(data, currentWeek, 1, now, s)
  {
    var week := WeekOf(data, currentWeek);
    var r1 := Request(r.key, r.fireAt + 7 * 1440);
    OffsetMembers(data, currentWeek, 0, now, s, r);
    OffsetMembers(data, currentWeek, 1, now, s, r1);
    var d :| d in week && DayFires(week[d], d, 0, now, s, r);
    var k :| k in week[d] && week[d][k].notifications && SlotFires(week[d][k], d, 0, now, s, r);
    SlotPartner(week[d][k], d, now, s, r);
    assert DayFires(week[d], d, 1, now, s, r1);
  }

  /** The same lead of the same entry one week later. */
  lemma SlotPartner(entry: SlotEntry, day: nat, now: Now, s: NotificationSettings, r: Request)
    requires SlotFires(entry, day, 0, now, s, r)
    ensures SlotFires(entry, day, 1, now, s, Request(r.key, r.fireAt + 7 * 1440))
  {
    var r1 := Request(r.key, r.fireAt + 7 * 1440);
    NextWeekOccurrence(now, entry.time, day);
    var at := Projected(now, entry.time, day, 0).value;
    var l :| l in LeadList(s) && LeadFires(l, at, now, day, entry.subject, r);
    assert LeadFires(l, at + 7 * 1440, now, day, entry.subject, r1);
  }

  /** Because both week offsets use the same keys, every request for this
      week's occurrences is followed, among next week's, by a request with
      the same key. */
  lemma ThisWeekKeysRepeat(data: Table, currentWeek: nat, now: Now, s: NotificationSettings, i: nat)
    requires i < |OffsetRequests(data, currentWeek, 0, now, s)|
    ensures var rs := Requests(data, currentWeek, now, s);
            exists j :: |OffsetRequests(data, currentWeek, 0, now, s)| <= j < |rs| && rs[j].key == rs[i].key
  {
    var w0 := OffsetRequests(data, currentWeek, 0, now, s);
    var w1 := OffsetRequests(data, currentWeek, 1, now, s);
    var rs := w0 + w1;
    var r := w0[i];
    NextWeekPartner(data, currentWeek, now, s, r);
    var j :| 0 <= j < |w1| && w1[j] == Request(r.key, r.fireAt + 7 * 1440);
    assert rs == Requests(data, currentWeek, now, s);
    assert rs[i] == r && rs[|w0| + j] == w1[j];
    assert |w0| <= |w0| + j < |rs| && rs[|w0| + j].key == rs[i].key;
  }

  /** So every timer armed for this week's occurrences has its handle
      overwritten in the registry by next week's timer of the same key: it
      is left pending by the next pass's `clearAllNotifications`, and no
      later pass can cancel it. */
  lemma ThisWeekTimersEscapeClear(t: TimerState, data: Table, currentWeek: nat, s: NotificationSettings, permission: bool, now: Now, i: nat)
    requires HandlesFresh(t) && s.enabled && permission
    requires i < |OffsetRequests(data, currentWeek, 0, now, s)|
    ensures var u := Rearm(t, data, currentWeek, s, permission, now);
            var r := Requests(data, currentWeek, now, s)[i];
            !Recorded(u, t.next + i) && PendingAt(CancelAll(u), t.next + i, Timer(r.fireAt, r.key))
  {
    var rs := Requests(data, currentWeek, now, s);
    ThisWeekKeysRepeat(data, currentWeek, now, s, i);
    var j :| i < j < |rs| && rs[j].key == rs[i].key;
    ClearThenArmLeaks(t, rs, i, j);
  }

}
