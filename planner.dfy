/**
 * The shapes every component of the planner shares: the time-slot labels,
 * the day -> slot -> subject timetable, the subject -> topics syllabus, the
 * two sentinel cell values, and the way a cell is read and coloured.
 */
module Planner {
  import opened Js

  /** Ordered time-slot labels such as "9:00 - 10:00"; they key the timetable rows. */
  type Slots = seq<string>

  /** Day name -> slot label -> subject name (or a sentinel). */
  type Timetable = map<string, map<string, string>>

  /** Subject name -> ordered topics. */
  type Syllabus = map<string, seq<string>>

  const FreePeriod: string := "Free Period"
  const LunchBreak: string := "Lunch Break"

  /** The names `Date.getDay()` indexes, Sunday first. */
  const WeekDays: seq<string> :=
    ["Sunday", "Monday", "Tuesday", "Wednesday", "Thursday", "Friday", "Saturday"]

  predicate IsSentinel(subject: string) { subject == FreePeriod || subject == LunchBreak }

  /** A cell value that names a class: JS-truthy (non-empty) and not a sentinel. */
  predicate IsClass(subject: string) { subject != "" && !IsSentinel(subject) }

  /** `timetable[day]?.[slot]`: the stored value, if the day and the slot are present. */
  function Lookup(timetable: Timetable, day: string, slot: string): (v: Option<string>)
    ensures v.Some? <==> day in timetable && slot in timetable[day]
    ensures v.Some? ==> v.value == timetable[day][slot]
  {
    if day in timetable && slot in timetable[day] then Some(timetable[day][slot]) else None
  }

  /**
   * `timetable[day]?.[slot] || 'Free Period'`: what a cell shows. It is the
   * stored value when that is present and non-empty, and "Free Period" when
   * the day, the slot or the value is missing or empty.
   */
  function CellContent(timetable: Timetable, day: string, slot: string): (shown: string)
    ensures shown != ""
    ensures Lookup(timetable, day, slot).Some? && Lookup(timetable, day, slot).value != "" ==>
              shown == timetable[day][slot]
    ensures Lookup(timetable, day, slot).None? || Lookup(timetable, day, slot).value == "" ==>
              shown == FreePeriod
  {
    match Lookup(timetable, day, slot)
    case Some(v) => if v != "" then v else FreePeriod
    case None => FreePeriod
  }

  /** A shown cell names a class only when that class is what the cell stores. */
  lemma CellContentClass(timetable: Timetable, day: string, slot: string)
    ensures IsClass(CellContent(timetable, day, slot)) <==> (
              day in timetable && slot in timetable[day] && IsClass(timetable[day][slot]))
    ensures IsClass(CellContent(timetable, day, slot)) ==>
              CellContent(timetable, day, slot) == timetable[day][slot]
  {
  }

  /** The three cell colours: lunch, free period, and everything else. */
  datatype Colour = Orange | Gray | Blue

  /** The colour a cell or widget row gets from its subject. */
  function ColourOf(subject: string): (c: Colour)
    ensures c == Orange <==> subject == LunchBreak
    ensures c == Gray <==> subject == FreePeriod
    ensures c == Blue <==> !IsSentinel(subject)
  {
    if subject == LunchBreak then Orange
    else if subject == FreePeriod then Gray
    else Blue
  }

  /**
   * `s.filter((_, i) => i !== index)`: every element except the one at
   * `index`, in order.
   */
  function RemoveIndex<T>(s: seq<T>, index: int): (r: seq<T>)
    ensures 0 <= index < |s| ==> r == s[..index] + s[index + 1..]
    ensures !(0 <= index < |s|) ==> r == s
  {
    if s == [] then []
    else if index == 0 then s[1..]
    else [s[0]] + RemoveIndex(s[1..], index - 1)
  }
}
