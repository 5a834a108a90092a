/** The timetable cell store `timetableData`: week -> day -> slot -> entry,
    with its initial shape, single-cell writes and deletes, and the order in
    which `Object.entries` visits its integer keys. */
module Timetable {

  import opened Options
  import opened Strings
  import opened Sequences

  /** One filled cell. `dayName` is `dayNames[day]`, absent past Sunday. */
  datatype SlotEntry = SlotEntry(
    subject: string,
    location: string,
    instructor: string,
    notes: string,
    color: string,
    notifications: bool,
    time: string,
    dayName: Option<string>)

  /** The week -> day -> slot -> entry map. */
  type Table = map<nat, map<nat, map<nat, SlotEntry>>>

  /** The cell being edited (`currentEditingSlot`): its coordinates and the
      label of its time slot. */
  datatype EditingSlot = EditingSlot(week: nat, day: nat, slot: nat, time: string)

  /** The raw values of the slot form's fields. */
  datatype SlotForm = SlotForm(
    subject: string,
    location: string,
    instructor: string,
    notes: string,
    color: string,
    notify: bool)

  /** `this.dayNames[day]`. */
  function DayName(day: nat): (r: Option<string>)
    ensures r.Some? <==> day < 7
  {
    var names := ["Monday", "Tuesday", "Wednesday", "Thursday", "Friday", "Saturday", "Sunday"];
    if day < |names| then Some(names[day]) else None
  }

  /** `this.timetableData[week]?.[day]?.[slot]`. */
  function Cell(data: Table, week: nat, day: nat, slot: nat): Option<SlotEntry> {
    if week in data && day in data[week] && slot in data[week][day] then Some(data[week][day][slot])
    else None
  }

  /** The table after creating the week and day maps of a cell (when
      missing) and then storing `cell` in it (`Some`) or deleting it
      (`None`). Every other cell keeps its value. */
  function WithCell(data: Table, week: nat, day: nat, slot: nat, cell: Option<SlotEntry>): Table {
    var weekData: map<nat, map<nat, SlotEntry>> := if week in data then data[week] else map[];
    var dayData: map<nat, SlotEntry> := if day in weekData then weekData[day] else map[];
    var newDay: map<nat, SlotEntry> := match cell
      case None => dayData - {slot}
      case Some(e) => dayData[slot := e];
    data[week := weekData[day := newDay]]
  }

  /** The written cell holds `cell`, every other cell keeps its value, and
      only the week and day maps of the cell are created. */
  lemma WithCellEffect(data: Table, week: nat, day: nat, slot: nat, cell: Option<SlotEntry>)
    ensures var r := WithCell(data, week, day, slot, cell);
            && r.Keys == data.Keys + {week} && day in r[week]
            && r[week].Keys == (if week in data then data[week].Keys else {}) + {day}
            && Cell(r, week, day, slot) == cell
            && forall w: nat, d: nat, s: nat :: (w, d, s) != (week, day, slot) ==> Cell(r, w, d, s) == Cell(data, w, d, s)
  {
  }

  /** The entry `saveSlot` builds from the form for the edited cell. */
  function EntryFromForm(target: EditingSlot, form: SlotForm): SlotEntry {
    SlotEntry(Trim(form.subject), Trim(form.location), Trim(form.instructor), Trim(form.notes),
              form.color, form.notify, target.time, DayName(target.day))
  }

  /** The data part of `saveSlot`: a non-empty trimmed subject stores the
      form's entry in the cell; an empty one deletes the cell. */
  function SaveCell(data: Table, target: EditingSlot, form: SlotForm): Table {
    WithCell(data, target.week, target.day, target.slot,
             if Trim(form.subject) != "" then Some(EntryFromForm(target, form)) else None)
  }

  /** The data part of `clearSlot`: the cell is deleted when it holds an
      entry, and the table is left as it is otherwise. */
  function ClearCell(data: Table, target: EditingSlot): (r: Table)
    ensures Cell(data, target.week, target.day, target.slot).None? ==> r == data
    ensures Cell(r, target.week, target.day, target.slot).None?
    ensures forall w: nat, d: nat, s: nat :: (w, d, s) != (target.week, target.day, target.slot) ==> Cell(r, w, d, s) == Cell(data, w, d, s)
    ensures r.Keys == data.Keys
    ensures forall w :: w in r ==> r[w].Keys == data[w].Keys
  {
    if Cell(data, target.week, target.day, target.slot).Some? then
      WithCellEffect(data, target.week, target.day, target.slot, None);
      WithCell(data, target.week, target.day, target.slot, None)
    else data
  }

  /** Saving a slot with a non-empty trimmed subject stores exactly that
      entry, with the trimmed subject, the slot's time label and its day
      name; with an empty subject the cell is absent afterwards. No other
      cell changes. */
  lemma SaveSlotEffect(data: Table, target: EditingSlot, form: SlotForm)
    ensures var c := Cell(SaveCell(data, target, form), target.week, target.day, target.slot);
            && (Trim(form.subject) != "" ==>
                  && c == Some(EntryFromForm(target, form))
                  && c.value.subject == Trim(form.subject)
                  && c.value.time == target.time && c.value.dayName == DayName(target.day))
            && (Trim(form.subject) == "" ==> c == None)
    ensures forall w: nat, d: nat, s: nat :: (w, d, s) != (target.week, target.day, target.slot) ==>
              Cell(SaveCell(data, target, form), w, d, s) == Cell(data, w, d, s)
  {
    var subject := Trim(form.subject);
    var cell := if subject != "" then Some(EntryFromForm(target, form)) else None;
    WithCellEffect(data, target.week, target.day, target.slot, cell);
  }

  /** No entry with an empty subject is ever stored by a save. */
  lemma SaveKeepsSubjects(data: Table, target: EditingSlot, form: SlotForm)
    requires NoEmptySubject(data)
    ensures NoEmptySubject(SaveCell(data, target, form))
  {
    var r: Table := SaveCell(data, target, form);
    SaveSlotEffect(data, target, form);
    forall w: nat, d: nat, s: nat | w in r && d in r[w] && s in r[w][d] ensures r[w][d][s].subject != "" {
      var e: SlotEntry := r[w][d][s];
      assert Cell(r, w, d, s) == Some(e);
      if (w, d, s) == (target.week, target.day, target.slot) {
        assert Trim(form.subject) != "" && e == EntryFromForm(target, form);
      } else {
        assert Cell(data, w, d, s) == Some(e);
        assert data[w][d][s] == e;
      }
    }
  }

  /** No stored entry has an empty subject: clearing the subject deletes the
      entry rather than keeping an empty one. */
  predicate NoEmptySubject(data: Table) {
    forall w, d, s :: w in data && d in data[w] && s in data[w][d] ==> data[w][d][s].subject != ""
  }

  /** The table `generateTimetable` and `resetTimetable` build: an empty slot
      map for every week below `weeks` and every day below `days`, and
      nothing else. */
  function EmptyTable(weeks: int, days: int): (r: Table)
    ensures forall w: nat :: w in r <==> w < weeks
    ensures forall w :: w in r ==> (forall d: nat :: d in r[w] <==> d < days)
    ensures forall w, d :: w in r && d in r[w] ==> r[w][d] == map[]
    decreases weeks
  {
    if weeks <= 0 then map[] else EmptyTable(weeks - 1, days)[weeks - 1 := EmptyWeek(days)]
  }

  /** One week of the freshly built table: an empty slot map for every day
      below `days`. */
  function EmptyWeek(days: int): (r: map<nat, map<nat, SlotEntry>>)
    ensures forall d: nat :: d in r <==> d < days
    ensures forall d :: d in r ==> r[d] == map[]
    decreases days
  {
    if days <= 0 then map[] else EmptyWeek(days - 1)[days - 1 := map[]]
  }

  /** A freshly built table has no cell at all. */
  lemma EmptyTableCells(weeks: int, days: int, w: nat, d: nat, s: nat)
    ensures Cell(EmptyTable(weeks, days), w, d, s) == None
    ensures NoEmptySubject(EmptyTable(weeks, days))
  {
  }

  // ---------------------------------------------------------------------------
  // iteration order

  predicate StrictlyIncreasing(s: seq<nat>) {
    forall i, j :: 0 <= i < j < |s| ==> s[i] < s[j]
  }

  predicate IsLeast(m: nat, s: set<nat>) {
    m in s && forall y :: y in s ==> m <= y
  }

  lemma {:induction false} LeastExists(s: set<nat>)
    requires s != {}
    ensures exists m :: IsLeast(m, s)
    decreases |s|
  {
    var x :| x in s;
    if s - {x} == {} {
      assert s == {x};
      assert IsLeast(x, s);
    } else {
      LeastExists(s - {x});
      var m :| IsLeast(m, s - {x});
      forall y | y in s ensures x <= y || m <= y {
        if y != x {
          assert y in s - {x};
        }
      }
      if x < m {
        assert IsLeast(x, s);
      } else {
        assert IsLeast(m, s);
      }
    }
  }

  /** The order in which `Object.entries` visits the integer keys of an
      object: ascending numeric order. */
  ghost function Ascending(s: set<nat>): (r: seq<nat>)
    ensures forall x :: x in r <==> x in s
    decreases |s|
  {
    if s == {} then []
    else
      var m := Least(s);
      [m] + Ascending(s - {m})
  }

  /** The least key of a non-empty key set. */
  ghost function Least(s: set<nat>): (m: nat)
    requires s != {}
    ensures IsLeast(m, s)
  {
    LeastExists(s);
    var m :| IsLeast(m, s);
    m
  }

  /** The listing is increasing. */
  lemma {:induction false} AscendingIncreasing(s: set<nat>)
    ensures StrictlyIncreasing(Ascending(s))
    decreases |s|
  {
    if s != {} {
      var m := Least(s);
      var rest := Ascending(s - {m});
      var r := Ascending(s);
      assert r == [m] + rest;
      AscendingIncreasing(s - {m});
      forall i | 0 <= i < |rest| ensures m < rest[i] {
        assert rest[i] in s - {m};
      }
    }
  }

  /** The visiting order is the unique increasing listing of the keys. */
  lemma {:induction false} IncreasingUnique(a: seq<nat>, b: seq<nat>)
    requires StrictlyIncreasing(a) && StrictlyIncreasing(b)
    requires (forall x :: x in a ==> x in b) && (forall x :: x in b ==> x in a)
    ensures a == b
    decreases |a|
  {
    SameElementsEmpty(a, b);
    if a != [] {
      assert a[0] == b[0] by {
        var x, y := a[0], b[0];
        assert x in b && y in a;
      }
      forall x ensures x in a[1..] <==> x in b[1..] {
        if x in a[1..] {
          assert x > a[0] && x in b;
        }
        if x in b[1..] {
          assert x > b[0] && x in a;
        }
      }
      IncreasingUnique(a[1..], b[1..]);
      assert a == [a[0]] + a[1..] && b == [b[0]] + b[1..];
    }
  }

  /** Lists the keys of `keys` in ascending order, taking the least key
      left each time. */
  method AscendingKeys(keys: set<nat>) returns (r: seq<nat>)
    ensures r == Ascending(keys)
  {
    r := [];
    var left := keys;
    while left != {}
      invariant left <= keys && |r| + |left| == |keys|
      invariant StrictlyIncreasing(r)
      invariant forall x :: x in r <==> x in keys && x !in left
      invariant forall i, y :: 0 <= i < |r| && y in left ==> r[i] < y
      decreases |left|
    {
      LeastExists(left);
      var m :| IsLeast(m, left);
      r := r + [m];
      left := left - {m};
    }
    AscendingIncreasing(keys);
    IncreasingUnique(r, Ascending(keys));
  }

}
