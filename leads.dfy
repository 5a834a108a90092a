/** Notification lead times: the user's preferences, the normalisation of the
    custom lead times, their human-readable labels and the ordered list of
    leads the scheduler works through for each slot. */
module Leads {

  import opened Options
  import opened Strings
  import opened Sequences

  /** `this.notificationSettings`. */
  datatype NotificationSettings = NotificationSettings(
    enabled: bool,
    before5: bool,
    before15: bool,
    before30: bool,
    atStart: bool,
    custom: bool,
    customTimes: seq<int>)

  /** The preferences the application starts with. */
  function DefaultSettings(): NotificationSettings {
    NotificationSettings(false, true, false, false, false, false, [])
  }

  /** One entry of the per-slot `notifications` list: minutes before the start
      and the words used in the message. */
  datatype Lead = Lead(offset: nat, caption: string)

  // ---------------------------------------------------------------------------
  // labels

  /** `formatCustomTimeLabel`. */
  function FormatCustomTimeLabel(minutes: nat): string {
    if minutes < 60 then NatToString(minutes) + " minutes"
    else if minutes == 60 then "1 hour"
    else if minutes < 1440 then
      var hours := minutes / 60;
      var remainingMinutes := minutes % 60;
      if remainingMinutes == 0 then NatToString(hours) + " " + (if hours == 1 then "hour" else "hours")
      else NatToString(hours) + "h " + NatToString(remainingMinutes) + "m"
    else
      var days := minutes / 1440;
      NatToString(days) + " " + (if days == 1 then "day" else "days")
  }

  /** Reads a lead label back as minutes: the inverse of
      `FormatCustomTimeLabel` below one day. */
  function LabelMinutes(text: string): Option<nat> {
    var parts := Split(text, " ");
    if |parts| != 2 then None
    else
      var amount, unit := parts[0], parts[1];
      if unit == "minutes" then NumberOf(amount)
      else if unit == "hour" || unit == "hours" then Scale(NumberOf(amount), 60)
      else if unit == "day" || unit == "days" then Scale(NumberOf(amount), 1440)
      else if |amount| > 0 && amount[|amount| - 1] == 'h' && |unit| > 0 && unit[|unit| - 1] == 'm' then
        match (NumberOf(amount[..|amount| - 1]), NumberOf(unit[..|unit| - 1]))
        case (Some(h), Some(m)) => Some(h * 60 + m)
        case _ => None
      else None
  }

  function Scale(n: Option<nat>, factor: nat): Option<nat> {
    match n
    case None => None
    case Some(v) => Some(v * factor)
  }

  lemma WordAvoidsSpace(word: string)
    requires word in ["minutes", "hour", "hours", "day", "days"]
    ensures Avoids(word, ' ')
  {
  }

  /** The label of a number followed by a unit word. */
  lemma AmountUnit(n: nat, unit: string)
    requires Avoids(unit, ' ')
    ensures Split(NatToString(n) + " " + unit, " ") == [NatToString(n), unit]
  {
    SplitAfter(NatToString(n), " ", unit);
    SplitNone(unit, " ");
  }

  /** Every label reads back as the minutes it was made from when these are
      less than a day; from one day on, only the whole days are kept. */
  lemma LabelRoundTrip(minutes: nat)
    ensures LabelMinutes(FormatCustomTimeLabel(minutes))
            == Some(if minutes < 1440 then minutes else minutes / 1440 * 1440)
  {
    if minutes < 60 {
      assert FormatCustomTimeLabel(minutes) == NatToString(minutes) + " " + "minutes";
      AmountRoundTrip(minutes, "minutes");
    } else if minutes == 60 {
      assert NatToString(1) == "1";
      assert FormatCustomTimeLabel(minutes) == NatToString(1) + " " + "hour";
      AmountRoundTrip(1, "hour");
    } else if minutes < 1440 {
      HoursLabelRoundTrip(minutes);
    } else {
      DaysLabelRoundTrip(minutes);
    }
  }

  lemma HoursLabelRoundTrip(minutes: nat)
    requires 60 < minutes < 1440
    ensures LabelMinutes(FormatCustomTimeLabel(minutes)) == Some(minutes)
  {
    var hours, rest := minutes / 60, minutes % 60;
    assert hours * 60 + rest == minutes;
    if rest == 0 {
      var unit := if hours == 1 then "hour" else "hours";
      assert FormatCustomTimeLabel(minutes) == NatToString(hours) + " " + unit;
      AmountRoundTrip(hours, unit);
    } else {
      assert FormatCustomTimeLabel(minutes) == NatToString(hours) + "h " + NatToString(rest) + "m";
      MixedRoundTrip(hours, rest);
    }
  }

  lemma DaysLabelRoundTrip(minutes: nat)
    requires minutes >= 1440
    ensures LabelMinutes(FormatCustomTimeLabel(minutes)) == Some(minutes / 1440 * 1440)
  {
    var days := minutes / 1440;
    var unit := if days == 1 then "day" else "days";
    assert FormatCustomTimeLabel(minutes) == NatToString(days) + " " + unit;
    AmountRoundTrip(days, unit);
  }

  /** A label `"<n> <unit>"` reads back as n times the unit's minutes. */
  lemma AmountRoundTrip(n: nat, unit: string)
    requires unit in ["minutes", "hour", "hours", "day", "days"]
    ensures LabelMinutes(NatToString(n) + " " + unit)
            == Some(n * (if unit == "minutes" then 1 else if unit == "hour" || unit == "hours" then 60 else 1440))
  {
    WordAvoidsSpace(unit);
    AmountUnit(n, unit);
    NatToStringValue(n);
  }

  /** A label `"<h>h <m>m"` reads back as h * 60 + m. */
  lemma MixedRoundTrip(hours: nat, rest: nat)
    ensures LabelMinutes(NatToString(hours) + "h " + NatToString(rest) + "m") == Some(hours * 60 + rest)
  {
    var a, b := Marked(hours, 'h'), Marked(rest, 'm');
    MixedText(hours, rest);
    SplitAfter(a, " ", b);
    SplitNone(b, " ");
    assert Split(a + " " + b, " ") == [a, b];
    NatToStringValue(hours);
    NatToStringValue(rest);
    MarkedLabel(a + " " + b, a, b, hours, rest);
  }

  /** A number marked `h`, a space and a number marked `m` read as hours and
      minutes: no unit word ends in `m`. */
  lemma MarkedLabel(text: string, a: string, b: string, hours: nat, rest: nat)
    requires Split(text, " ") == [a, b]
    requires |a| > 0 && a[|a| - 1] == 'h' && NumberOf(a[..|a| - 1]) == Some(hours)
    requires |b| > 0 && b[|b| - 1] == 'm' && NumberOf(b[..|b| - 1]) == Some(rest)
    ensures LabelMinutes(text) == Some(hours * 60 + rest)
  {
    var parts := Split(text, " ");
    assert parts[0] == a && parts[1] == b;
  }

  lemma MixedText(hours: nat, rest: nat)
    ensures NatToString(hours) + "h " + NatToString(rest) + "m" == Marked(hours, 'h') + " " + Marked(rest, 'm')
  {
    assert "h " == ['h'] + [' '];
  }

  /** A number followed by a unit letter. */
  function Marked(n: nat, c: char): (r: string)
    requires !IsDigit(c) && c != ' '
    ensures Avoids(r, ' ') && |r| > 0 && r[|r| - 1] == c && r[..|r| - 1] == NatToString(n)
  {
    var r := NatToString(n) + [c];
    assert forall i :: 0 <= i < |r| - 1 ==> r[i] == NatToString(n)[i];
    r
  }

  /** Leads of one day or more lose the part below a day: 1440 and 2879
      minutes carry the same label. */
  lemma DayLabelsCollide()
    ensures FormatCustomTimeLabel(1440) == FormatCustomTimeLabel(2879) == "1 day"
  {
    assert NatToString(1) == "1";
  }

  /** The labels of 5, 60, 90, 120 and 1500 minutes. */
  lemma LabelExamples()
    ensures FormatCustomTimeLabel(5) == "5 minutes"
    ensures FormatCustomTimeLabel(60) == "1 hour"
    ensures FormatCustomTimeLabel(90) == "1h 30m"
    ensures FormatCustomTimeLabel(120) == "2 hours"
    ensures FormatCustomTimeLabel(1500) == "1 day"
  {
    assert NatToString(5) == "5";
    assert NatToString(1) == "1";
    assert NatToString(2) == "2";
    assert NatToString(30) == "30";
  }

  // ---------------------------------------------------------------------------
  // custom lead times

  predicate StrictlyDescending(s: seq<int>) {
    forall i, j :: 0 <= i < j < |s| ==> s[i] > s[j]
  }

  /** The inputs `updateCustomTimes` keeps: numbers (not `NaN`) in (0, 1440],
      in input order. Each input is the result of `parseInt` on a field. */
  function ValidCustomTimes(inputs: seq<Option<int>>): (times: seq<int>)
    ensures forall x :: x in times <==> Some(x) in inputs && 0 < x <= 1440
  {
    if inputs == [] then []
    else
      var last := inputs[|inputs| - 1];
      var rest := ValidCustomTimes(inputs[..|inputs| - 1]);
      assert inputs == inputs[..|inputs| - 1] + [last];
      if last.Some? && 0 < last.value <= 1440 then rest + [last.value] else rest
  }

  /** Puts `x` in its place in a strictly descending sequence, unless it is
      already there. */
  function InsertDescending(x: int, s: seq<int>): (r: seq<int>)
    requires StrictlyDescending(s)
    ensures StrictlyDescending(r)
    ensures forall y :: y in r <==> y == x || y in s
  {
    if s == [] then [x]
    else if x > s[0] then [x] + s
    else if x == s[0] then s
    else
      var rest := InsertDescending(x, s[1..]);
      assert forall k :: 0 <= k < |rest| ==> rest[k] < s[0] by {
        forall k | 0 <= k < |rest| ensures rest[k] < s[0] {
          assert rest[k] in rest;
          if rest[k] != x {
            var j :| 0 <= j < |s[1..]| && s[1..][j] == rest[k];
            assert s[j + 1] == rest[k];
          }
        }
      }
      [s[0]] + rest
  }

  /** `[...new Set(times)].sort((a, b) => b - a)`: the distinct values of
      `times`, largest first. */
  function DistinctDescending(times: seq<int>): (r: seq<int>)
    ensures StrictlyDescending(r)
    ensures forall y :: y in r <==> y in times
  {
    if times == [] then []
    else
      var r := InsertDescending(times[|times| - 1], DistinctDescending(times[..|times| - 1]));
      assert times == times[..|times| - 1] + [times[|times| - 1]];
      r
  }

  /** The value `updateCustomTimes` stores in `customTimes`. */
  function NormalizeCustomTimes(inputs: seq<Option<int>>): seq<int> {
    DistinctDescending(ValidCustomTimes(inputs))
  }

  /** The stored custom lead times lie in (0, 1440], are strictly descending
      (so hold no duplicate) and are exactly the valid inputs. */
  lemma NormalizedCustomTimes(inputs: seq<Option<int>>)
    ensures var times := NormalizeCustomTimes(inputs);
            && StrictlyDescending(times)
            && (forall i :: 0 <= i < |times| ==> 0 < times[i] <= 1440)
            && (forall x :: x in times <==> Some(x) in inputs && 0 < x <= 1440)
            && (forall i, j :: 0 <= i < j < |times| ==> times[i] != times[j])
  {
    var times := NormalizeCustomTimes(inputs);
    forall i | 0 <= i < |times| ensures 0 < times[i] <= 1440 {
      assert times[i] in times;
    }
  }

  /** Two strictly descending sequences with the same elements are equal, so
      the stored list depends only on the set of valid inputs. */
  lemma {:induction false} DescendingUnique(a: seq<int>, b: seq<int>)
    requires StrictlyDescending(a) && StrictlyDescending(b)
    requires (forall x :: x in a ==> x in b) && (forall x :: x in b ==> x in a)
    ensures a == b
    decreases |a|
  {
    SameElementsEmpty(a, b);
    if a != [] {
      assert a[0] == b[0] by {
        assert a[0] in b && b[0] in a;
      }
      forall x ensures x in a[1..] <==> x in b[1..] {
        if x in a[1..] {
          assert x < a[0] && x in b;
        }
        if x in b[1..] {
          assert x < b[0] && x in a;
        }
      }
      DescendingUnique(a[1..], b[1..]);
      assert a == [a[0]] + a[1..] && b == [b[0]] + b[1..];
    }
  }

  /** Inputs 10, 10, 30, 5 are stored as 30, 10, 5. */
  lemma NormalizeExample(inputs: seq<Option<int>>)
    requires inputs == [Some(10), Some(10), Some(30), Some(5)]
    ensures NormalizeCustomTimes(inputs) == [30, 10, 5]
  {
    var times := NormalizeCustomTimes(inputs);
    forall x ensures x in times <==> x in [30, 10, 5] {
      assert Some(x) in inputs <==> x == 10 || x == 30 || x == 5;
    }
    DescendingUnique(times, [30, 10, 5]);
  }

  // ---------------------------------------------------------------------------
  // the ordered lead list of `scheduleSlotNotifications`

  /** The fixed leads, in the order the source pushes them: 30, 15, 5, 0. */
  function FixedLeads(s: NotificationSettings): seq<Lead> {
    (if s.before30 then [Lead(30, "30 minutes")] else [])
    + (if s.before15 then [Lead(15, "15 minutes")] else [])
    + (if s.before5 then [Lead(5, "5 minutes")] else [])
    + (if s.atStart then [Lead(0, "now")] else [])
  }

  /** The custom leads, in the order of `times`, keeping the positive ones. */
  function CustomLeads(times: seq<int>): seq<Lead> {
    if times == [] then []
    else
      var last := times[|times| - 1];
      CustomLeads(times[..|times| - 1])
      + (if last > 0 then [Lead(last, FormatCustomTimeLabel(last))] else [])
  }

  /** The list of leads for one slot. */
  function LeadList(s: NotificationSettings): seq<Lead> {
    FixedLeads(s) + (if s.custom then CustomLeads(s.customTimes) else [])
  }

  /** Which leads are in the list: each fixed lead exactly when its switch is
      on, and each positive custom time (with its label) exactly when custom
      leads are on. */
  lemma {:induction false} CustomLeadsMembers(times: seq<int>, l: Lead)
    ensures l in CustomLeads(times) <==>
              l.offset in times && l.offset > 0 && l.caption == FormatCustomTimeLabel(l.offset)
  {
    if times != [] {
      var init := times[..|times| - 1];
      CustomLeadsMembers(init, l);
      assert times == init + [times[|times| - 1]];
    }
  }

  lemma LeadListMembers(s: NotificationSettings, l: Lead)
    ensures l in LeadList(s) <==>
              || (s.before30 && l == Lead(30, "30 minutes"))
              || (s.before15 && l == Lead(15, "15 minutes"))
              || (s.before5 && l == Lead(5, "5 minutes"))
              || (s.atStart && l == Lead(0, "now"))
              || (s.custom && l.offset in s.customTimes && l.offset > 0
                  && l.caption == FormatCustomTimeLabel(l.offset))
  {
    CustomLeadsMembers(s.customTimes, l);
  }

  function Offsets(leads: seq<Lead>): seq<int> {
    seq(|leads|, i requires 0 <= i < |leads| => leads[i].offset)
  }

  /** The custom leads keep the order of the custom times, so stored (strictly
      descending) custom times give strictly descending custom leads. */
  lemma {:induction false} CustomLeadsOrder(times: seq<int>)
    ensures forall i :: 0 <= i < |CustomLeads(times)| ==> CustomLeads(times)[i].offset > 0
    ensures StrictlyDescending(times) ==> StrictlyDescending(Offsets(CustomLeads(times)))
  {
    if times != [] {
      var init := times[..|times| - 1];
      var last := times[|times| - 1];
      CustomLeadsOrder(init);
      assert times == init + [last];
      if StrictlyDescending(times) {
        assert StrictlyDescending(init);
        var prev := CustomLeads(init);
        forall i | 0 <= i < |prev| ensures prev[i].offset > last {
          CustomLeadsMembers(init, prev[i]);
          assert prev[i] in prev;
          var k :| 0 <= k < |init| && init[k] == prev[i].offset;
          assert times[k] == init[k];
        }
        if last > 0 {
          var l := Lead(last, FormatCustomTimeLabel(last));
          assert CustomLeads(times) == prev + [l];
          assert Offsets(prev + [l]) == Offsets(prev) + [last];
        } else {
          assert CustomLeads(times) == prev;
        }
      }
    }
  }

  /** The fixed leads come in descending order of offset. */
  lemma FixedLeadsOrder(s: NotificationSettings)
    ensures StrictlyDescending(Offsets(FixedLeads(s)))
    ensures forall l :: l in FixedLeads(s) ==> l.offset in {30, 15, 5, 0}
  {
  }

  /** `CollectLeads` builds the list the way the source does: conditional
      pushes of the fixed leads, then a pass over the custom times. */
  method CollectLeads(s: NotificationSettings) returns (notifications: seq<Lead>)
    ensures notifications == LeadList(s)
  {
    notifications := [];
    if s.before30 {
      notifications := notifications + [Lead(30, "30 minutes")];
    }
    if s.before15 {
      notifications := notifications + [Lead(15, "15 minutes")];
    }
    if s.before5 {
      notifications := notifications + [Lead(5, "5 minutes")];
    }
    if s.atStart {
      notifications := notifications + [Lead(0, "now")];
    }
    assert notifications == FixedLeads(s);
    if s.custom {
      var custom := CollectCustomLeads(s.customTimes);
      notifications := notifications + custom;
    }
  }

  /** The pass over the custom times: every positive one gives a lead
      labelled by `FormatCustomTimeLabel`. */
  method CollectCustomLeads(times: seq<int>) returns (leads: seq<Lead>)
    ensures leads == CustomLeads(times)
  {
    leads := [];
    var i := 0;
    while i < |times|
      invariant 0 <= i <= |times|
      invariant leads == CustomLeads(times[..i])
    {
      var offset := times[i];
      assert times[..i + 1][..i] == times[..i];
      if offset > 0 {
        var caption := FormatCustomTimeLabel(offset);
        leads := leads + [Lead(offset, caption)];
      }
      i := i + 1;
    }
    assert times[..i] == times;
  }

}
