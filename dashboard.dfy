/**
 * The dashboard: it owns the slot list and the timetable, loads both from
 * storage once, writes every change the grid reports back to storage,
 * counts the week's classes and distinct subjects, and names the day shown
 * in the header.
 */
module Dashboard {
  import opened Js
  import opened Planner
  import Mock
  import TimetableGrid
  import Storage

  // ---------------------------------------------------------------------
  // The statistics cards
  // ---------------------------------------------------------------------

  /** The cells, as (day, slot) pairs, among the days `ds` whose value names a class. */
  function ClassCellsIn(timetable: Timetable, ds: set<string>): set<(string, string)>
  {
    set d, s | d in ds && d in timetable && s in timetable[d] && IsClass(timetable[d][s]) :: (d, s)
  }

  /** The distinct class names among the days `ds`. */
  function SubjectsIn(timetable: Timetable, ds: set<string>): set<string>
  {
    set d, s | d in ds && d in timetable && s in timetable[d] && IsClass(timetable[d][s]) :: timetable[d][s]
  }

  /** Every cell of the week that holds a class. */
  function ClassCells(timetable: Timetable): set<(string, string)> { ClassCellsIn(timetable, timetable.Keys) }

  /** Every distinct class name of the week. */
  function ActiveSubjects(timetable: Timetable): set<string> { SubjectsIn(timetable, timetable.Keys) }

  /** The slots of one day's map, among `ks`, whose value names a class. */
  function ClassSlots(day: map<string, string>, ks: set<string>): set<string>
  {
    set s | s in ks && s in day && IsClass(day[s])
  }

  /** The class names of one day's map, among the slots `ks`. */
  function ClassNames(day: map<string, string>, ks: set<string>): set<string>
  {
    set s | s in ks && s in day && IsClass(day[s]) :: day[s]
  }

  /** The pairs (d, s) for the slots `slots` of day `d`. */
  function Pairs(d: string, slots: set<string>): set<(string, string)>
  {
    set s | s in slots :: (d, s)
  }

  /** Pairing every slot with the same day keeps the count. */
  lemma {:induction false} PairsCount(d: string, slots: set<string>)
    ensures |Pairs(d, slots)| == |slots|
    decreases |slots|
  {
    if slots != {} {
      var s :| s in slots;
      PairsCount(d, slots - {s});
      assert Pairs(d, slots) == Pairs(d, slots - {s}) + {(d, s)};
    }
  }

  /** Adding one more day adds that day's class cells and class names. */
  lemma AddDay(timetable: Timetable, ds: set<string>, d: string)
    requires d in timetable && d !in ds
    ensures ClassCellsIn(timetable, ds + {d}) ==
            ClassCellsIn(timetable, ds) + Pairs(d, ClassSlots(timetable[d], timetable[d].Keys))
    ensures ClassCellsIn(timetable, ds) !! Pairs(d, ClassSlots(timetable[d], timetable[d].Keys))
    ensures SubjectsIn(timetable, ds + {d}) ==
            SubjectsIn(timetable, ds) + ClassNames(timetable[d], timetable[d].Keys)
  {
  }

  /** Adding one more slot of a day adds it, and its name, when it holds a class. */
  lemma AddSlot(day: map<string, string>, ks: set<string>, s: string)
    requires s in day && s !in ks
    ensures ClassSlots(day, ks + {s}) == if IsClass(day[s]) then ClassSlots(day, ks) + {s} else ClassSlots(day, ks)
    ensures ClassNames(day, ks + {s}) == if IsClass(day[s]) then ClassNames(day, ks) + {day[s]} else ClassNames(day, ks)
  {
  }

  /** The two numbers on the statistics cards. */
  datatype Stats = Stats(activeSubjectsCount: nat, weeklyClassesCount: nat)

  /** The inner `forEach` over one day's cells: its class names and how many cells hold a class. */
  method ScanDay(daySchedule: map<string, string>) returns (dayNames: set<string>, dayCount: nat)
    ensures dayNames == ClassNames(daySchedule, daySchedule.Keys)
    ensures dayCount == |ClassSlots(daySchedule, daySchedule.Keys)|
  {
    dayNames := {};
    dayCount := 0;
    var slotsLeft := daySchedule.Keys;
    while slotsLeft != {}
      invariant slotsLeft <= daySchedule.Keys
      invariant dayNames == ClassNames(daySchedule, daySchedule.Keys - slotsLeft)
      invariant dayCount == |ClassSlots(daySchedule, daySchedule.Keys - slotsLeft)|
      decreases |slotsLeft|
    {
      var s :| s in slotsLeft;
      var subject := daySchedule[s];
      AddSlot(daySchedule, daySchedule.Keys - slotsLeft, s);
      if subject != "" && subject != FreePeriod && subject != LunchBreak {
        dayNames := dayNames + {subject};
        dayCount := dayCount + 1;
      }
      assert daySchedule.Keys - (slotsLeft - {s}) == daySchedule.Keys - slotsLeft + {s};
      slotsLeft := slotsLeft - {s};
    }
    assert daySchedule.Keys - slotsLeft == daySchedule.Keys;
  }

  /**
   * The `stats` memo: walks every day and every cell, collecting the
   * distinct class names and counting the cells that hold a class.
   */
  method ComputeStats(timetable: Timetable) returns (stats: Stats)
    ensures stats.activeSubjectsCount == |ActiveSubjects(timetable)|
    ensures stats.weeklyClassesCount == |ClassCells(timetable)|
  {
    var subjects: set<string> := {};
    var classCount := 0;
    var daysLeft := timetable.Keys;
    ghost var done: set<string> := {};
    while daysLeft != {}
      invariant done !! daysLeft && done + daysLeft == timetable.Keys
      invariant subjects == SubjectsIn(timetable, done)
      invariant classCount == |ClassCellsIn(timetable, done)|
      decreases |daysLeft|
    {
      var d :| d in daysLeft;
      var dayNames, dayCount := ScanDay(timetable[d]);
      DayStep(timetable, done, d);
      subjects := subjects + dayNames;
      classCount := classCount + dayCount;
      done := done + {d};
      daysLeft := daysLeft - {d};
    }
    assert done == timetable.Keys;
    stats := Stats(|subjects|, classCount);
  }

  /** One more day of the outer loop adds that day's class count and class names. */
  lemma DayStep(timetable: Timetable, ds: set<string>, d: string)
    requires d in timetable && d !in ds
    ensures |ClassCellsIn(timetable, ds + {d})| ==
            |ClassCellsIn(timetable, ds)| + |ClassSlots(timetable[d], timetable[d].Keys)|
    ensures SubjectsIn(timetable, ds + {d}) ==
            SubjectsIn(timetable, ds) + ClassNames(timetable[d], timetable[d].Keys)
  {
    AddDay(timetable, ds, d);
    PairsCount(d, ClassSlots(timetable[d], timetable[d].Keys));
  }

  /** Each distinct subject is held by at least one cell, so there are never more subjects than classes. */
  lemma ActiveAtMostWeekly(timetable: Timetable)
    ensures |ActiveSubjects(timetable)| <= |ClassCells(timetable)|
  {
    ImageNoLarger(timetable, ClassCells(timetable));
  }

  /** The class names held by a set of class cells are no more than the cells. */
  lemma {:induction false} ImageNoLarger(timetable: Timetable, cells: set<(string, string)>)
    requires cells <= ClassCells(timetable)
    ensures |set c | c in cells :: timetable[c.0][c.1]| <= |cells|
    ensures cells == ClassCells(timetable) ==> (set c | c in cells :: timetable[c.0][c.1]) == ActiveSubjects(timetable)
    decreases |cells|
  {
    if cells != {} {
      var c :| c in cells;
      ImageNoLarger(timetable, cells - {c});
      assert (set x | x in cells :: timetable[x.0][x.1]) ==
             (set x | x in cells - {c} :: timetable[x.0][x.1]) + {timetable[c.0][c.1]};
    }
    if cells == ClassCells(timetable) {
      forall x | x in ActiveSubjects(timetable) ensures x in (set c | c in cells :: timetable[c.0][c.1]) {
        var d, s :| d in timetable && s in timetable[d] && IsClass(timetable[d][s]) && timetable[d][s] == x;
        assert (d, s) in cells;
      }
    }
  }

  /** An empty timetable has no classes and no subjects; a sentinel-only one neither. */
  lemma NoClassesNoStats(timetable: Timetable)
    requires forall d, s :: d in timetable && s in timetable[d] ==> !IsClass(timetable[d][s])
    ensures ClassCells(timetable) == {} && ActiveSubjects(timetable) == {}
  {
  }

  /**
   * Setting one cell through the grid changes the class cells by that cell
   * alone: it is added when the new value names a class and removed when not.
   */
  lemma SetCellClassCells(timetable: Timetable, day: string, slot: string, subject: string)
    ensures ClassCells(TimetableGrid.WithCell(timetable, day, slot, subject)) ==
            if IsClass(subject) then ClassCells(timetable) + {(day, slot)} else ClassCells(timetable) - {(day, slot)}
  {
    var t := TimetableGrid.WithCell(timetable, day, slot, subject);
    forall c | c in ClassCells(t) ensures c in (if IsClass(subject) then ClassCells(timetable) + {(day, slot)} else ClassCells(timetable) - {(day, slot)}) {
      TimetableGrid.WithCellReadBack(timetable, day, slot, subject, c.0, c.1);
    }
    forall c | c in (if IsClass(subject) then ClassCells(timetable) + {(day, slot)} else ClassCells(timetable) - {(day, slot)}) ensures c in ClassCells(t) {
      TimetableGrid.WithCellReadBack(timetable, day, slot, subject, c.0, c.1);
    }
  }

  /** Filling a cell that held no class with a class adds exactly one weekly class. */
  lemma FillingCellAddsOneClass(timetable: Timetable, day: string, slot: string, subject: string)
    requires IsClass(subject)
    requires !(day in timetable && slot in timetable[day] && IsClass(timetable[day][slot]))
    ensures |ClassCells(TimetableGrid.WithCell(timetable, day, slot, subject))| == |ClassCells(timetable)| + 1
  {
    SetCellClassCells(timetable, day, slot, subject);
    assert (day, slot) !in ClassCells(timetable);
  }

  // ---------------------------------------------------------------------
  // The header's day
  // ---------------------------------------------------------------------

  /** `getCurrentDaySchedule`: the day to show and whether it is really today. */
  datatype DaySchedule = DaySchedule(day: string, isToday: bool)

  /** Sunday shows Monday as a demonstration; every other day shows itself as today. */
  function CurrentDaySchedule(dayIndex: int): (r: DaySchedule)
    requires 0 <= dayIndex < 7
    ensures r.isToday <==> dayIndex != 0
    ensures r.isToday ==> r.day == WeekDays[dayIndex]
    ensures !r.isToday ==> r.day == "Monday"
  {
    var today := WeekDays[dayIndex];
    DaySchedule(if today == "Sunday" then "Monday" else today, today != "Sunday")
  }

  /** The day shown is always one of the grid's columns, Monday to Saturday. */
  lemma ShownDayIsColumn(dayIndex: int)
    requires 0 <= dayIndex < 7
    ensures CurrentDaySchedule(dayIndex).day in Mock.Days
  {
  }

  // ---------------------------------------------------------------------
  // The component's state
  // ---------------------------------------------------------------------

  /**
   * The dashboard's state: the slot list, the timetable and the subject whose
   * syllabus is open; and what storage holds for the slots and the timetable.
   */
  class DashboardState {
    var timeSlots: Slots
    var timetable: Timetable
    var selectedSubject: Option<string>
    var storedSlots: Option<Slots>
    var storedTimetable: Storage.Stored<Timetable>

    /** The first render: the default slots and an empty timetable, over the given storage. */
    constructor(storedSlots: Option<Slots>, storedTimetable: Storage.Stored<Timetable>)
      ensures timeSlots == Mock.TimeSlots && timetable == map[] && selectedSubject == None
      ensures this.storedSlots == storedSlots && this.storedTimetable == storedTimetable
    {
      timeSlots := Mock.TimeSlots;
      timetable := map[];
      selectedSubject := None;
      this.storedSlots := storedSlots;
      this.storedTimetable := storedTimetable;
    }

    /**
     * The load effect: saved slots replace the defaults when there are any;
     * the loaded timetable replaces the empty initial one only when it is
     * truthy, that is, unless storage holds a falsy value.
     */
    method LoadData()
      modifies this`timeSlots, this`timetable
      ensures timeSlots == if storedSlots.Some? then storedSlots.value else old(timeSlots)
      ensures storedTimetable.Falsy? ==> timetable == old(timetable)
      ensures !storedTimetable.Falsy? ==> Some(timetable) == Storage.LoadTimetableFromStorage(storedTimetable)
    {
      if storedSlots.Some? {
        timeSlots := storedSlots.value;
      }
      var savedTimetable := Storage.LoadTimetableFromStorage(storedTimetable);
      if savedTimetable.Some? {
        timetable := savedTimetable.value;
      }
    }

    /** `handleTimeSlotsChange`: the new slots become the state, then are written to storage. */
    method HandleTimeSlotsChange(newTimeSlots: Slots)
      modifies this`timeSlots, this`storedSlots
      ensures timeSlots == newTimeSlots && storedSlots == Some(newTimeSlots)
    {
      timeSlots := newTimeSlots;
      storedSlots := Some(newTimeSlots);
    }

    /** `handleTimetableChange`: the new timetable becomes the state, then is written to storage. */
    method HandleTimetableChange(newTimetable: Timetable)
      modifies this`timetable, this`storedTimetable
      ensures timetable == newTimetable && storedTimetable == Storage.Saved(newTimetable)
    {
      timetable := newTimetable;
      storedTimetable := Storage.Saved(newTimetable);
    }

    /** `handleSubjectClick`: opens that subject's syllabus. */
    method HandleSubjectClick(subject: string)
      modifies this`selectedSubject
      ensures selectedSubject == Some(subject)
    {
      selectedSubject := Some(subject);
    }

    /** Closing the syllabus dialog. */
    method CloseSyllabus()
      modifies this`selectedSubject
      ensures selectedSubject == None
    {
      selectedSubject := None;
    }

    /** The grid's callbacks, wired to the handlers above. */
    method OnGridEvent(ev: TimetableGrid.GridEvent)
      modifies this`timeSlots, this`storedSlots, this`timetable, this`storedTimetable, this`selectedSubject
      ensures ev.TimeSlotsChanged? ==> timeSlots == ev.timeSlots && storedSlots == Some(ev.timeSlots)
      ensures !ev.TimeSlotsChanged? ==> timeSlots == old(timeSlots) && storedSlots == old(storedSlots)
      ensures ev.TimetableChanged? ==> timetable == ev.timetable && storedTimetable == Storage.Saved(ev.timetable)
      ensures !ev.TimetableChanged? ==> timetable == old(timetable) && storedTimetable == old(storedTimetable)
      ensures ev.SubjectClicked? ==> selectedSubject == Some(ev.subject)
      ensures !ev.SubjectClicked? ==> selectedSubject == old(selectedSubject)
    {
      match ev
      case NoEvent =>
      case SubjectClicked(subject) => HandleSubjectClick(subject);
      case TimetableChanged(t) => HandleTimetableChange(t);
      case TimeSlotsChanged(ts) => HandleTimeSlotsChange(ts);
    }

    /** The statistics cards for the current timetable. */
    method CurrentStats() returns (stats: Stats)
      ensures stats.activeSubjectsCount == |ActiveSubjects(timetable)|
      ensures stats.weeklyClassesCount == |ClassCells(timetable)|
      ensures stats.activeSubjectsCount <= stats.weeklyClassesCount
    {
      stats := ComputeStats(timetable);
      ActiveAtMostWeekly(timetable);
    }
  }

  /**
   * What a change survives: once the grid reports a timetable and the
   * dashboard writes it, a fresh dashboard over the same storage loads that
   * timetable back.
   */
  method ReloadAfterChange(t: Timetable, slots: Slots) returns (timetable: Timetable, timeSlots: Slots)
    ensures timetable == t && timeSlots == slots
  {
    var first := new DashboardState(None, Storage.Nothing);
    first.HandleTimetableChange(t);
    first.HandleTimeSlotsChange(slots);
    var second := new DashboardState(first.storedSlots, first.storedTimetable);
    second.LoadData();
    timetable := second.timetable;
    timeSlots := second.timeSlots;
  }

  /** With nothing stored, the dashboard ends up showing the default timetable and the default slots. */
  method FirstRun() returns (timetable: Timetable, timeSlots: Slots)
    ensures timetable == Mock.DefaultTimetable && timeSlots == Mock.TimeSlots
  {
    var d := new DashboardState(None, Storage.Nothing);
    d.LoadData();
    timetable := d.timetable;
    timeSlots := d.timeSlots;
  }

  /** A falsy value stored for the timetable (a `null`, say) leaves the dashboard's empty timetable in place. */
  method FalsyStoredTimetable(storedSlots: Option<Slots>) returns (timetable: Timetable)
    ensures timetable == map[]
  {
    var d := new DashboardState(storedSlots, Storage.Falsy);
    d.LoadData();
    timetable := d.timetable;
  }
}
