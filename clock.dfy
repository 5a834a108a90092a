/** Clock arithmetic of the timetable: `HH:MM` texts and minutes of the day,
    the `"HH:MM - HH:MM"` slot labels, the default slot grid and the end time
    the slot editor proposes for a new row. */
module Clock {

  import opened Options
  import opened Strings
  import opened Sequences

  /** The grid settings of the set-up form (`this.config`). */
  datatype Config = Config(weeks: int, days: int, startTime: string, endTime: string, slotDuration: int)

  /** The settings the application starts with. */
  function DefaultConfig(): Config {
    Config(1, 5, "08:00", "17:00", 60)
  }

  /** `parseTime`: split at ':' and read the first two pieces with `Number`;
      a missing minutes piece or a piece that is not a number makes the whole
      result `NaN` (`None`). */
  function ParseTime(text: string): (r: Option<nat>)
  {
    var parts := Split(text, ":");
    if |parts| < 2 then None
    else match (NumberOf(parts[0]), NumberOf(parts[1]))
      case (Some(h), Some(m)) => Some(h * 60 + m)
      case _ => None
  }

  /** `formatTime`: both numbers zero-padded to two places. The hour is not
      reduced modulo 24 and wider numbers are not cut. */
  function FormatTime(hours: nat, minutes: nat): string {
    PadStart2(NatToString(hours)) + ":" + PadStart2(NatToString(minutes))
  }

  /** The text of a minute count written as hours and minutes. */
  function ClockText(minute: nat): string {
    FormatTime(minute / 60, minute % 60)
  }

  /** The label of the slot from minute `start` to minute `end`. */
  function SlotLabel(start: nat, end: nat): string {
    ClockText(start) + " - " + ClockText(end)
  }

  /** The start minute of a slot label as the notification scheduler reads it:
      the label's first `" - "` piece, through `parseTime`. */
  function SlotStart(slot: string): Option<nat> {
    ParseTime(Split(slot, " - ")[0])
  }

  /** The end minute of a slot label: its second `" - "` piece. */
  function SlotEnd(slot: string): Option<nat> {
    var parts := Split(slot, " - ");
    if |parts| < 2 then None else ParseTime(parts[1])
  }

  lemma FormatTimeChars(hours: nat, minutes: nat)
    ensures Avoids(FormatTime(hours, minutes), ' ')
    ensures Split(FormatTime(hours, minutes), ":")
            == [PadStart2(NatToString(hours)), PadStart2(NatToString(minutes))]
  {
    var a, b := PadStart2(NatToString(hours)), PadStart2(NatToString(minutes));
    PaddedValue(hours);
    PaddedValue(minutes);
    SplitAfter(a, ":", b);
    SplitNone(b, ":");
    assert FormatTime(hours, minutes) == a + ":" + b;
  }

  /** Reading back a formatted time gives hours * 60 + minutes, for every hour
      (two digits or more) and every minute count. */
  lemma ClockRoundTrip(hours: nat, minutes: nat)
    ensures ParseTime(FormatTime(hours, minutes)) == Some(hours * 60 + minutes)
  {
    FormatTimeChars(hours, minutes);
    PaddedValue(hours);
    PaddedValue(minutes);
  }

  /** Hours and minutes below 100 give exactly five characters `HH:MM`, with a
      leading zero on a one-digit number. */
  lemma FormatTimeWidth(hours: nat, minutes: nat)
    requires hours < 100 && minutes < 100
    ensures |FormatTime(hours, minutes)| == 5 && FormatTime(hours, minutes)[2] == ':'
    ensures hours < 10 ==> FormatTime(hours, minutes)[0] == '0'
    ensures minutes < 10 ==> FormatTime(hours, minutes)[3] == '0'
  {
    if hours >= 10 { assert NatToString(hours) == NatToString(hours / 10) + [DigitChar(hours % 10)]; }
    if minutes >= 10 { assert NatToString(minutes) == NatToString(minutes / 10) + [DigitChar(minutes % 10)]; }
  }

  /** The hour is not wrapped at 24. */
  lemma FormatTimeNoWrap()
    ensures FormatTime(25, 5) == "25:05"
  {
    assert NatToString(25) == "25";
    assert NatToString(5) == "5";
  }

  /** A slot label reads back as the start and end it was made from. */
  lemma SlotLabelRoundTrip(start: nat, end: nat)
    ensures SlotStart(SlotLabel(start, end)) == Some(start)
    ensures SlotEnd(SlotLabel(start, end)) == Some(end)
  {
    var a, b := ClockText(start), ClockText(end);
    ClockTextRoundTrip(start);
    ClockTextRoundTrip(end);
    ClockTextAvoids(start);
    ClockTextAvoids(end);
    SplitAfter(a, " - ", b);
    SplitNone(b, " - ");
    assert SlotLabel(start, end) == a + " - " + b;
  }

  // ---------------------------------------------------------------------------
  // the slot grid

  /** The configured start and end minutes, when both texts are times. */
  function GridBounds(config: Config): Option<(nat, nat)> {
    match (ParseTime(config.startTime), ParseTime(config.endTime))
    case (Some(s), Some(e)) => Some((s, e))
    case _ => None
  }

  /** The default grid loop only ends when the duration is positive (or when
      it does not run at all). */
  predicate GridTerminates(customSlots: seq<string>, config: Config) {
    |customSlots| == 0 && GridBounds(config).Some? && GridBounds(config).value.0 < GridBounds(config).value.1
    ==> config.slotDuration > 0
  }

  /** The minute of grid line `i`: `duration` minutes after line `i - 1`,
      line 0 being `start`. */
  function GridLine(start: nat, duration: nat, i: nat): nat {
    if i == 0 then start else GridLine(start, duration, i - 1) + duration
  }

  /** Grid line `i` is `i` durations after the start. */
  lemma {:induction false} GridLineValue(start: nat, duration: nat, i: nat)
    ensures GridLine(start, duration, i) == start + i * duration
  {
    if i > 0 {
      GridLineValue(start, duration, i - 1);
      MulSucc(i - 1, duration);
    }
  }

  /** The first `n` slots of `duration` minutes from minute `start`: slot `i`
      runs from grid line `i` to grid line `i + 1`. */
  function Grid(start: nat, duration: nat, n: nat): (slots: seq<string>)
    ensures |slots| == n
  {
    if n == 0 then [] else Grid(start, duration, n - 1) + [SlotLabel(GridLine(start, duration, n - 1), GridLine(start, duration, n))]
  }

  /** Slot `i` of the grid runs from grid line `i` to grid line `i + 1`,
      that is (by `GridLineValue`) from `start + i * duration` to
      `start + (i + 1) * duration`. */
  lemma {:induction false} GridAt(start: nat, duration: nat, n: nat, i: nat)
    requires i < n
    ensures Grid(start, duration, n)[i] == SlotLabel(GridLine(start, duration, i), GridLine(start, duration, i + 1))
  {
    if i < n - 1 {
      GridAt(start, duration, n - 1, i);
      SnocKeeps(Grid(start, duration, n - 1), SlotLabel(GridLine(start, duration, n - 1), GridLine(start, duration, n)), i);
      assert Grid(start, duration, n)[i] == Grid(start, duration, n - 1)[i];
    } else {
      assert GridLine(start, duration, i) == GridLine(start, duration, n - 1);
      assert GridLine(start, duration, i + 1) == GridLine(start, duration, n);
    }
  }

  /** When grid line `n - 1` is before `end` and grid line `n` is not, `n`
      is the rounded-up number of durations between start and end. */
  lemma GridCount(start: nat, end: nat, duration: nat, n: nat)
    requires duration > 0 && n > 0
    requires GridLine(start, duration, n - 1) < end <= GridLine(start, duration, n)
    ensures start + (n - 1) * duration < end <= start + n * duration
    ensures n == (end - start + duration - 1) / duration
  {
    GridLineValue(start, duration, n);
    GridLineValue(start, duration, n - 1);
    CeilingCount(end - start, duration, n);
  }

  /** The number `k` of slots of length `d` that cover `n` minutes with the
      last one allowed to overshoot is the rounded-up quotient. */
  lemma CeilingCount(n: nat, d: nat, k: nat)
    requires d > 0 && (k - 1) * d < n <= k * d
    ensures k == (n + d - 1) / d
  {
    var a := n + d - 1;
    assert k * d == (k - 1) * d + d;
    assert k * d <= a < (k + 1) * d;
    var q, r := a / d, a % d;
    assert a == q * d + r && 0 <= r < d;
    if q < k {
      assert (q + 1) * d == q * d + d;
      MulMonotone(q + 1, k, d);
    } else if q > k {
      assert (k + 1) * d == k * d + d;
      MulMonotone(k + 1, q, d);
    }
  }

  lemma MulSucc(n: nat, d: int)
    ensures (n + 1) * d == n * d + d
  {
  }

  lemma MulMonotone(a: int, b: int, d: nat)
    requires a <= b
    ensures a * d <= b * d
  {
    assert b * d - a * d == (b - a) * d;
  }

  /** `generateTimeSlots` (the second definition, which replaces the first):
      the custom slots when there are any; otherwise labels of `duration`
      minutes from the start time while the label's start is before the end
      time. The last label may run past the end time. */
  method GenerateTimeSlots(customSlots: seq<string>, config: Config) returns (slots: seq<string>)
    requires GridTerminates(customSlots, config)
    ensures |customSlots| > 0 ==> slots == customSlots
    ensures |customSlots| == 0 && GridBounds(config).None? ==> slots == []
    ensures |customSlots| == 0 && GridBounds(config).Some? ==>
              var (s, e) := GridBounds(config).value;
              (s >= e ==> slots == []) &&
              (s < e ==> var d := config.slotDuration;
                         slots == Grid(s, d, |slots|)
                         && |slots| == (e - s + d - 1) / d
                         && s + (|slots| - 1) * d < e <= s + |slots| * d)
  {
    if |customSlots| > 0 {
      return customSlots;
    }
    slots := [];
    var bounds := GridBounds(config);
    if bounds.None? {
      // `while (NaN < end)` and `while (start < NaN)` never run
      return;
    }
    var (start, end) := bounds.value;
    slots := GridSlots(start, end, config.slotDuration);
  }

  /** The loop of `generateTimeSlots`: a label per `duration` minutes from
      `start` while the label's start is before `end`. */
  method GridSlots(start: nat, end: nat, duration: int) returns (slots: seq<string>)
    requires start < end ==> duration > 0
    ensures start >= end ==> slots == []
    ensures start < end ==> slots == Grid(start, duration, |slots|)
                            && |slots| == (end - start + duration - 1) / duration
                            && start + (|slots| - 1) * duration < end <= start + |slots| * duration
  {
    slots := [];
    if end <= start {
      // the loop does not run
      return;
    }
    var current := start;
    while current < end
      invariant start <= current
      invariant current == GridLine(start, duration, |slots|)
      invariant |slots| > 0 ==> GridLine(start, duration, |slots| - 1) < end
      invariant slots == Grid(start, duration, |slots|)
      decreases end - current
    {
      var hours := current / 60;
      var minutes := current % 60;
      var nextSlot := current + duration;
      var nextHours := nextSlot / 60;
      var nextMinutes := nextSlot % 60;
      var slot := FormatTime(hours, minutes) + " - " + FormatTime(nextHours, nextMinutes);
      assert slot == SlotLabel(current, nextSlot);
      slots := slots + [slot];
      current := nextSlot;
    }
    GridCount(start, end, duration, |slots|);
  }

  // ---------------------------------------------------------------------------
  // the slot editor

  /** JavaScript's `%` with a positive divisor: the remainder takes the sign
      of the dividend. */
  function JsRem(a: int, b: nat): (r: int)
    requires b > 0
    ensures (a - r) % b == 0
    ensures a >= 0 ==> r == a % b
    ensures a < 0 ==> -(b as int) < r <= 0
  {
    if a >= 0 then
      var q: int := a / b;
      assert a - a % b == q * b;
      MultipleMod(q, b);
      a % b
    else
      NegativeRem(-a, b);
      -((-a) % b)
  }

  /** Taking away the remainder of `n` and negating leaves a multiple of
      `b`. */
  lemma NegativeRem(n: int, b: nat)
    requires n >= 0 && b > 0
    ensures (-n + n % b) % b == 0
  {
    var q: int := n / b;
    assert n == q * b + n % b;
    assert -n + n % b == (-q) * b;
    MultipleMod(-q, b);
  }

  /** A multiple of `b` leaves no remainder. */
  lemma MultipleMod(k: int, b: nat)
    requires b > 0
    ensures (k * b) % b == 0
  {
    var m := (k * b) % b;
    var d := (k * b) / b;
    assert k * b == d * b + m && 0 <= m < b;
    assert (k - d) * b == m;
    if k - d > 0 {
      MulMonotone(1, k - d, b);
    } else if k - d < 0 {
      MulMonotone(k - d, -1, b);
    }
  }

  /** The start and end texts `addNewTimeSlotInEditor` puts in a new editor
      row: after the last row, a slot that starts where the last one ends and
      whose end is that time plus the slot duration, wrapped at midnight; with
      no row, 17:00 - 18:00. A last end that is not a time gives "NaN:NaN". */
  function EditorNewSlot(lastEnd: Option<string>, duration: int): (string, string) {
    match lastEnd
    case None => ("17:00", "18:00")
    case Some(t) => (t, WrappedEnd(ParseTime(t), duration))
  }

  /** The end text of a new editor row whose start is `start` minutes. */
  function WrappedEnd(start: Option<nat>, duration: int): string {
    match start
    case None => "NaN:NaN"
    case Some(total) =>
      var e := JsRem(total + duration, 24 * 60);
      PadStart2(IntToString(e / 60)) + ":" + PadStart2(IntToString(JsRem(e, 60)))
  }

  /** After a well-formed last end time and a non-negative duration, the new
      row starts at that time and ends at start + duration modulo one day,
      written as an ordinary clock time before 24:00. */
  lemma EditorEndWraps(hours: nat, minutes: nat, duration: nat)
    ensures EditorNewSlot(Some(FormatTime(hours, minutes)), duration).0 == FormatTime(hours, minutes)
    ensures EditorNewSlot(Some(FormatTime(hours, minutes)), duration).1 == ClockText((hours * 60 + minutes + duration) % 1440)
    ensures (hours * 60 + minutes + duration) % 1440 / 60 < 24
    ensures ParseTime(ClockText((hours * 60 + minutes + duration) % 1440)) == Some((hours * 60 + minutes + duration) % 1440)
  {
    var total := hours * 60 + minutes;
    var e := (hours * 60 + minutes + duration) % 1440;
    ClockRoundTrip(hours, minutes);
    EditorEndAfter(FormatTime(hours, minutes), total, duration);
    DayMinuteOf(total, hours, minutes, duration);
    ClockTextRoundTrip(e);
  }

  lemma DayMinuteOf(total: int, hours: int, minutes: int, duration: int)
    requires total == hours * 60 + minutes
    ensures (total + duration) % 1440 == (hours * 60 + minutes + duration) % 1440
  {
  }

  /** After a last end time that reads as `total` minutes, the new row ends
      at the clock time of `total + duration` modulo one day. */
  lemma EditorEndAfter(t: string, total: nat, duration: nat)
    requires ParseTime(t) == Some(total)
    ensures EditorNewSlot(Some(t), duration).0 == t
    ensures EditorNewSlot(Some(t), duration).1 == ClockText((total + duration) % 1440)
    ensures (total + duration) % 1440 / 60 < 24
  {
    WrappedEndClock(total, duration);
  }

  lemma WrappedEndClock(total: nat, duration: nat)
    ensures WrappedEnd(Some(total), duration) == ClockText((total + duration) % 1440)
  {
    var e := (total + duration) % 1440;
    assert JsRem(total + duration, 24 * 60) == e;
    assert JsRem(e, 60) == e % 60;
    assert IntToString(e / 60) == NatToString(e / 60);
    assert IntToString(e % 60) == NatToString(e % 60);
  }

  /** A minute count's text reads back as that count. */
  lemma ClockTextRoundTrip(m: nat)
    ensures ParseTime(ClockText(m)) == Some(m)
  {
    ClockRoundTrip(m / 60, m % 60);
  }

  lemma ClockTextAvoids(m: nat)
    ensures Avoids(ClockText(m), ' ')
  {
    FormatTimeChars(m / 60, m % 60);
  }

}
