/**
 * The weekly grid editor: a table of slot rows by day columns whose cells
 * open the syllabus (outside edit mode) or a subject picker (in edit mode),
 * and whose slot labels can be renamed, appended and deleted.
 *
 * The grid owns no timetable and no slot list: it is given both as props and
 * reports every change through a callback. Here each handler returns the
 * callback it makes as a `GridEvent`; the component's own `useState` fields
 * are the fields of `GridState`.
 */
module TimetableGrid {
  import opened Js
  import opened Text
  import opened Planner
  import TimetableWidget
  import Mock

  /** The label a new row gets. */
  const NewSlot: string := "New Slot"

  /** `editingCell`: the cell whose subject picker is open. */
  datatype Cell = Cell(day: string, slot: string)

  /** `editingTimeSlot`: the row whose label editor is open, and its label when it opened. */
  datatype SlotEdit = SlotEdit(index: int, text: string)

  /** The callback a handler makes, with its argument. */
  datatype GridEvent =
    | NoEvent
    | SubjectClicked(subject: string)
    | TimetableChanged(timetable: Timetable)
    | TimeSlotsChanged(timeSlots: Slots)

  // ---------------------------------------------------------------------
  // Copy-on-write updates of the timetable and of the slot list
  // ---------------------------------------------------------------------

  /**
   * `{ ...timetable, [day]: { ...(timetable[day] || {}), [slot]: subject } }`:
   * the timetable with one cell set, the day's map created if it is absent.
   */
  function WithCell(timetable: Timetable, day: string, slot: string, subject: string): (t: Timetable)
    ensures t.Keys == timetable.Keys + {day}
  {
    timetable[day := (if day in timetable then timetable[day] else map[])[slot := subject]]
  }

  /** Reading a cell after setting one: the new subject at that cell, the old value everywhere else. */
  lemma WithCellReadBack(timetable: Timetable, day: string, slot: string, subject: string, d: string, s: string)
    ensures Lookup(WithCell(timetable, day, slot, subject), d, s) ==
            if d == day && s == slot then Some(subject) else Lookup(timetable, d, s)
  {
  }

  /** Setting a cell to what it already holds gives back the same timetable. */
  lemma WithCellSameValue(timetable: Timetable, day: string, slot: string)
    requires day in timetable && slot in timetable[day]
    ensures WithCell(timetable, day, slot, timetable[day][slot]) == timetable
  {
    var t := WithCell(timetable, day, slot, timetable[day][slot]);
    assert t[day] == timetable[day];
  }

  /** The last of two writes to the same cell wins. */
  lemma WithCellOverwrite(timetable: Timetable, day: string, slot: string, a: string, b: string)
    ensures WithCell(WithCell(timetable, day, slot, a), day, slot, b) == WithCell(timetable, day, slot, b)
  {
    var once := WithCell(timetable, day, slot, a);
    assert once[day][slot := b] == WithCell(timetable, day, slot, b)[day];
  }

  /** `[...timeSlots, 'New Slot']`. */
  function WithRowAdded(timeSlots: Slots): (r: Slots)
    ensures |r| == |timeSlots| + 1
    ensures r[..|timeSlots|] == timeSlots && r[|timeSlots|] == NewSlot
  {
    timeSlots + [NewSlot]
  }

  /** `timeSlots.filter((_, i) => i !== index)`. */
  function WithRowDeleted(timeSlots: Slots, index: int): (r: Slots)
    ensures 0 <= index < |timeSlots| ==> |r| == |timeSlots| - 1
    ensures !(0 <= index < |timeSlots|) ==> r == timeSlots
    ensures 0 <= index < |timeSlots| ==>
              forall k :: 0 <= k < |r| ==> r[k] == if k < index then timeSlots[k] else timeSlots[k + 1]
  {
    RemoveIndex(timeSlots, index)
  }

  /**
   * `copy = [...timeSlots]; copy[index] = text`: the label at `index`
   * replaced; an index one past the end appends, as a JS array does.
   */
  function WithSlotRenamed(timeSlots: Slots, index: int, text: string): (r: Slots)
    requires 0 <= index <= |timeSlots|
    ensures |r| == if index < |timeSlots| then |timeSlots| else |timeSlots| + 1
    ensures r[index] == text
    ensures forall k :: 0 <= k < |timeSlots| && k != index ==> r[k] == timeSlots[k]
  {
    if index < |timeSlots| then timeSlots[index := text] else timeSlots + [text]
  }

  /** Deleting the row just added gives back the slots as they were. */
  lemma DeleteAddedRow(timeSlots: Slots)
    ensures WithRowDeleted(WithRowAdded(timeSlots), |timeSlots|) == timeSlots
  {
  }

  /** Renaming a label to the text it had gives back the same slots. */
  lemma RenameToSame(timeSlots: Slots, index: int)
    requires 0 <= index < |timeSlots|
    ensures WithSlotRenamed(timeSlots, index, timeSlots[index]) == timeSlots
  {
  }

  /** Renaming a label twice keeps only the second name. */
  lemma RenameTwice(timeSlots: Slots, index: int, a: string, b: string)
    requires 0 <= index < |timeSlots|
    ensures WithSlotRenamed(WithSlotRenamed(timeSlots, index, a), index, b) ==
            WithSlotRenamed(timeSlots, index, b)
  {
  }

  /**
   * A freshly added row's label has no dash, so it reads as the range
   * {0, 0} and is never the widget's current slot.
   */
  lemma NewSlotNeverCurrent(now: int)
    ensures !TimetableWidget.IsCurrent(NewSlot, now)
  {
    SplitNoSep(NewSlot, '-');
    TimetableWidget.ZeroRangeNeverCurrent(NewSlot, now);
  }

  // ---------------------------------------------------------------------
  // Layouts
  // ---------------------------------------------------------------------

  /** The three renderings: a fixed seven-column grid, wrapping flex rows, single-line flex rows. */
  datatype Layout = GridColumns | WrappingRows | SingleLineRows

  /** `renderTimetable`: the format value "1", "3" or "4" picks a layout; any other value the first. */
  function LayoutFor(format: string): (l: Layout)
    ensures l == WrappingRows <==> format == "3"
    ensures l == SingleLineRows <==> format == "4"
    ensures l == GridColumns <==> format != "3" && format != "4"
  {
    if format == "1" then GridColumns
    else if format == "3" then WrappingRows
    else if format == "4" then SingleLineRows
    else GridColumns
  }

  /** An entry of the format picker: the value it stores and the label it shows. */
  datatype FormatOption = FormatOption(value: string, caption: string)

  /** The picker's entries: captions 1, 2, 3 store the values "1", "3", "4". */
  const FormatOptions: seq<FormatOption> :=
    [FormatOption("1", "1"), FormatOption("3", "2"), FormatOption("4", "3")]

  /** The picker's three entries select the three layouts, one each, in order. */
  lemma FormatOptionsReachEveryLayout()
    ensures LayoutFor(FormatOptions[0].value) == GridColumns
    ensures LayoutFor(FormatOptions[1].value) == WrappingRows
    ensures LayoutFor(FormatOptions[2].value) == SingleLineRows
    ensures FormatOptions[1].caption == "2" && FormatOptions[2].caption == "3"
  {
  }

  /** `localStorage.getItem('timetableFormat') || '1'`: a saved non-empty value, else "1". */
  function InitialFormat(saved: Option<string>): (f: string)
    ensures f != ""
    ensures saved.Some? && saved.value != "" ==> f == saved.value
    ensures !(saved.Some? && saved.value != "") ==> f == "1"
  {
    if saved.Some? && saved.value != "" then saved.value else "1"
  }

  /**
   * What every layout shows: one row per slot, in order, and in it one cell
   * per default day, Monday to Saturday, each with `getCellContent`.
   */
  function GridCells(timetable: Timetable, timeSlots: Slots): (rows: seq<seq<string>>)
    ensures |rows| == |timeSlots|
    ensures forall i :: 0 <= i < |rows| ==> |rows[i]| == |Mock.Days|
  {
    seq(|timeSlots|, i requires 0 <= i < |timeSlots| =>
      seq(|Mock.Days|, j requires 0 <= j < |Mock.Days| => CellContent(timetable, Mock.Days[j], timeSlots[i])))
  }

  /**
   * Every shown cell has text; it is what the timetable stores for that day
   * and slot when that is non-empty, and "Free Period" otherwise.
   */
  lemma GridCellsShowTimetable(timetable: Timetable, timeSlots: Slots, i: int, j: int)
    requires 0 <= i < |timeSlots| && 0 <= j < |Mock.Days|
    ensures GridCells(timetable, timeSlots)[i][j] != ""
    ensures Lookup(timetable, Mock.Days[j], timeSlots[i]).Some? && timetable[Mock.Days[j]][timeSlots[i]] != "" ==>
              GridCells(timetable, timeSlots)[i][j] == timetable[Mock.Days[j]][timeSlots[i]]
    ensures !(Lookup(timetable, Mock.Days[j], timeSlots[i]).Some? && timetable[Mock.Days[j]][timeSlots[i]] != "") ==>
              GridCells(timetable, timeSlots)[i][j] == FreePeriod
  {
  }

  // ---------------------------------------------------------------------
  // The component's state and its handlers
  // ---------------------------------------------------------------------

  /** The grid's `useState` fields: edit mode, the open cell picker, the open label editor, the layout. */
  class GridState {
    var editMode: bool
    var editingCell: Option<Cell>
    var editingTimeSlot: Option<SlotEdit>
    var tempTimeSlotText: string
    var format: string

    /** The first render: not editing, no dialog open, the saved format or "1". */
    constructor(savedFormat: Option<string>)
      ensures !editMode && editingCell == None && editingTimeSlot == None && tempTimeSlotText == ""
      ensures format == InitialFormat(savedFormat)
    {
      editMode := false;
      editingCell := None;
      editingTimeSlot := None;
      tempTimeSlotText := "";
      format := InitialFormat(savedFormat);
    }

    /** The Edit/Exit button: flips edit mode and nothing else; an open picker stays open. */
    method ToggleEditMode()
      modifies this`editMode
      ensures editMode == !old(editMode)
    {
      editMode := !editMode;
    }

    /** The format picker. */
    method SetFormat(value: string)
      modifies this`format
      ensures format == value
    {
      format := value;
    }

    /** The layout the current format renders. */
    function CurrentLayout(): (l: Layout)
      reads this`format
      ensures format == "1" ==> l == GridColumns
    {
      LayoutFor(format)
    }

    /**
     * `handleCellClick`: outside edit mode a cell that names a class reports
     * that subject and the state is unchanged; in edit mode the cell's picker
     * opens and nothing is reported.
     */
    method CellClick(timetable: Timetable, day: string, slot: string) returns (ev: GridEvent)
      modifies this`editingCell
      ensures !editMode ==> editingCell == old(editingCell)
      ensures !editMode ==> ev == (if Lookup(timetable, day, slot).Some? && IsClass(timetable[day][slot])
                                   then SubjectClicked(timetable[day][slot]) else NoEvent)
      ensures editMode ==> editingCell == Some(Cell(day, slot)) && ev == NoEvent
    {
      if !editMode {
        var subject := Lookup(timetable, day, slot);
        if subject.Some? && subject.value != "" && subject.value != LunchBreak && subject.value != FreePeriod {
          ev := SubjectClicked(subject.value);
        } else {
          ev := NoEvent;
        }
        return;
      }
      editingCell := Some(Cell(day, slot));
      ev := NoEvent;
    }

    /**
     * `handleSubjectSelect`: with a picker open and a non-empty choice, the
     * timetable with that one cell set is reported and the picker closes;
     * otherwise nothing happens.
     */
    method SubjectSelect(timetable: Timetable, subject: string) returns (ev: GridEvent)
      modifies this`editingCell
      ensures old(editingCell).None? || subject == "" ==> ev == NoEvent && editingCell == old(editingCell)
      ensures old(editingCell).Some? && subject != "" ==>
                ev == TimetableChanged(WithCell(timetable, old(editingCell).value.day, old(editingCell).value.slot, subject)) &&
                editingCell == None
    {
      if editingCell.None? || subject == "" {
        ev := NoEvent;
        return;
      }
      var cell := editingCell.value;
      ev := TimetableChanged(WithCell(timetable, cell.day, cell.slot, subject));
      editingCell := None;
    }

    /** Closing the subject picker. */
    method CloseCellDialog()
      modifies this`editingCell
      ensures editingCell == None
    {
      editingCell := None;
    }

    /**
     * The pencil button of row `index`: the label editor opens holding the
     * row's label. The button is rendered only in edit mode; the handler
     * itself does not check the mode.
     */
    method StartEditTimeSlot(index: int, timeSlot: string)
      modifies this`editingTimeSlot, this`tempTimeSlotText
      ensures editingTimeSlot == Some(SlotEdit(index, timeSlot)) && tempTimeSlotText == timeSlot
    {
      editingTimeSlot := Some(SlotEdit(index, timeSlot));
      tempTimeSlotText := timeSlot;
    }

    /** Typing in the label editor. */
    method EditTimeSlotText(text: string)
      modifies this`tempTimeSlotText
      ensures tempTimeSlotText == text
    {
      tempTimeSlotText := text;
    }

    /**
     * `handleTimeSlotSave`: with the label editor open, the slots with that
     * row renamed to the typed text, untrimmed, are reported and the editor
     * closes (the typed text is kept); otherwise nothing happens.
     */
    method TimeSlotSave(timeSlots: Slots) returns (ev: GridEvent)
      requires editingTimeSlot.Some? ==> 0 <= editingTimeSlot.value.index <= |timeSlots|
      modifies this`editingTimeSlot
      ensures old(editingTimeSlot).None? ==> ev == NoEvent && editingTimeSlot == None
      ensures old(editingTimeSlot).Some? ==>
                ev == TimeSlotsChanged(WithSlotRenamed(timeSlots, old(editingTimeSlot).value.index, tempTimeSlotText)) &&
                editingTimeSlot == None
    {
      if editingTimeSlot.None? {
        ev := NoEvent;
        return;
      }
      var copy := WithSlotRenamed(timeSlots, editingTimeSlot.value.index, tempTimeSlotText);
      ev := TimeSlotsChanged(copy);
      editingTimeSlot := None;
    }

    /** Closing the label editor without saving. */
    method CloseSlotDialog()
      modifies this`editingTimeSlot
      ensures editingTimeSlot == None
    {
      editingTimeSlot := None;
    }

    /**
     * `handleAddRow`: reports the slots with a "New Slot" row appended; the
     * timetable is untouched. The Add Row button is rendered only in edit
     * mode; the handler itself does not check the mode.
     */
    method AddRow(timeSlots: Slots) returns (ev: GridEvent)
      ensures ev.TimeSlotsChanged?
      ensures |ev.timeSlots| == |timeSlots| + 1 && ev.timeSlots[..|timeSlots|] == timeSlots
      ensures ev.timeSlots[|timeSlots|] == NewSlot
    {
      ev := TimeSlotsChanged(WithRowAdded(timeSlots));
    }

    /**
     * `handleDeleteRow`: reports the slots without row `index`; the timetable
     * is untouched. The delete button is rendered only in edit mode; the
     * handler itself does not check the mode.
     */
    method DeleteRow(timeSlots: Slots, index: int) returns (ev: GridEvent)
      ensures ev.TimeSlotsChanged?
      ensures 0 <= index < |timeSlots| ==> ev.timeSlots == timeSlots[..index] + timeSlots[index + 1..]
      ensures !(0 <= index < |timeSlots|) ==> ev.timeSlots == timeSlots
    {
      ev := TimeSlotsChanged(WithRowDeleted(timeSlots, index));
    }
  }
}
