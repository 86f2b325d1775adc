/**
 * The "today" widget: it reads slot labels such as "9:00 - 10:00" or
 * "09:00 AM - 10:00 AM" as time ranges, picks the first slot that contains
 * the current time, and shows today's cells with the current one ringed.
 *
 * Times are whole minutes since midnight (`60 * hours + minutes`). For
 * minutes pieces 0 to 59 the widget's own `hours + minutes / 60` orders every
 * pair of times the same way.
 */
module TimetableWidget {
  import opened Js
  import opened Text
  import opened Planner
  import Mock
  import Storage

  /** A slot's start and end, in minutes since midnight, either of which may be NaN. */
  datatype TimeRange = TimeRange(start: Num, end: Num)

  /** `time.split(':').map(Number)`: the hours, and the minutes when there is a second piece. */
  function ClockParts(time: string): (Num, Option<Num>)
  {
    var pieces := Split(time, ':');
    (ToNumber(pieces[0]), if |pieces| >= 2 then Some(ToNumber(pieces[1])) else None)
  }

  /** `if (modifier)`: a modifier word is present and non-empty. */
  predicate HasModifier(modifier: Option<string>) { modifier.Some? && modifier.value != "" }

  /**
   * The hour after the AM/PM rule (when there is a modifier word) or the
   * afternoon rule (when there is none), applied in the order the widget
   * applies them.
   */
  function AdjustHours(hours: Num, modifier: Option<string>): (h: Num)
    ensures h.NaN? <==> hours.NaN?
  {
    match hours
    case NaN => NaN
    case Int(v) =>
      if HasModifier(modifier) then
        var word := Lower(modifier.value);
        var afterPm := if word == "pm" && v < 12 then v + 12 else v;
        var afterAm := if word == "am" && afterPm == 12 then 0 else afterPm;
        Int(afterAm)
      else if 1 <= v <= 7 then Int(v + 12)
      else Int(v)
  }

  /** A "pm" word in any case moves a morning hour to the afternoon. */
  lemma PmAddsTwelve(v: nat, m: string)
    requires m in {"pm", "pM", "Pm", "PM"}
    requires v < 12
    ensures AdjustHours(Int(v), Some(m)) == Int(v + 12)
  {
    LowerTwoLetters(m, "pm");
  }

  /** An "am" word in any case makes 12 o'clock midnight. */
  lemma AmTwelveIsMidnight(m: string)
    requires m in {"am", "aM", "Am", "AM"}
    ensures AdjustHours(Int(12), Some(m)) == Int(0)
  {
    LowerTwoLetters(m, "am");
  }

  /** Any other modifier word leaves the hour as written. */
  lemma OtherModifierKeepsHour(v: nat, m: string)
    requires m != ""
    requires m !in {"pm", "pM", "Pm", "PM"} || v >= 12
    requires m !in {"am", "aM", "Am", "AM"} || v != 12
    ensures AdjustHours(Int(v), Some(m)) == Int(v)
  {
    LowerTwoLetters(m, "pm");
    LowerTwoLetters(m, "am");
    if Lower(m) == "pm" || Lower(m) == "am" {
      assert m == [m[0], m[1]];
    }
  }

  /** Without a modifier word the hours 1 to 7 are afternoon hours and the rest are kept. */
  lemma NoModifierAfternoonRule(v: nat, modifier: Option<string>)
    requires !HasModifier(modifier)
    ensures AdjustHours(Int(v), modifier) == Int(if 1 <= v <= 7 then v + 12 else v)
  {
  }

  /** Every hour of the 24-hour clock stays on the clock, whatever the modifier. */
  lemma AdjustStaysOnClock(v: nat, modifier: Option<string>)
    requires v < 24
    ensures AdjustHours(Int(v), modifier).Int?
    ensures 0 <= AdjustHours(Int(v), modifier).value < 24
  {
  }

  /**
   * `parseTime`: the first space-separated word is "hours[:minutes]", the
   * second (if any) the AM/PM modifier. Missing, zero or non-numeric minutes
   * count as 0; non-numeric hours make the time NaN.
   */
  function ParseTime(timeStr: string): (t: Num)
    ensures t.Int? ==> t.value >= 0
  {
    var words := Split(timeStr, ' ');
    var modifier := if |words| >= 2 then Some(words[1]) else None;
    var (hours, minutes) := ClockParts(words[0]);
    match AdjustHours(hours, modifier)
    case NaN => NaN
    case Int(h) => Int(60 * h + OrZero(minutes))
  }

  /** The words `parseTime` is given: a clock reading, then an optional modifier after one space. */
  function ClockLabel(hh: string, mm: string, modifier: Option<string>): string
  {
    hh + ":" + mm + (if modifier.Some? then " " + modifier.value else "")
  }

  /** How `parseTime` reads "hh:mm" and "hh:mm word": adjusted hours, then the minutes. */
  lemma ParseClockLabel(hh: string, mm: string, modifier: Option<string>)
    requires AllDigits(hh) && AllDigits(mm)
    requires modifier.Some? ==> ' ' !in modifier.value
    ensures ParseTime(ClockLabel(hh, mm, modifier)) ==
            Int(60 * AdjustHours(Int(DigitsValue(hh)), modifier).value + DigitsValue(mm))
  {
    var time := hh + ":" + mm;
    assert ' ' !in time by {
      assert forall i :: 0 <= i < |time| ==> time[i] == ':' || IsDigit(time[i]);
    }
    if modifier.Some? {
      SplitCons(time, modifier.value, ' ');
      SplitNoSep(modifier.value, ' ');
      assert ClockLabel(hh, mm, modifier) == time + [' '] + modifier.value;
    } else {
      SplitNoSep(time, ' ');
      assert ClockLabel(hh, mm, modifier) == time;
    }
    assert ':' !in hh by { assert forall i :: 0 <= i < |hh| ==> IsDigit(hh[i]); }
    assert ':' !in mm by { assert forall i :: 0 <= i < |mm| ==> IsDigit(mm[i]); }
    SplitCons(hh, mm, ':');
    SplitNoSep(mm, ':');
  }

  /** A bare hour such as "9" reads as that hour on the hour. */
  lemma HourOnly(hh: string)
    requires AllDigits(hh)
    ensures ParseTime(hh) == Int(60 * AdjustHours(Int(DigitsValue(hh)), None).value)
  {
    assert ' ' !in hh && ':' !in hh by { assert forall i :: 0 <= i < |hh| ==> IsDigit(hh[i]); }
    SplitNoSep(hh, ' ');
    SplitNoSep(hh, ':');
  }

  /** Minutes that are not a number count as 0: "9:xx" reads as "9". */
  lemma NonNumericMinutesAreZero(hh: string, mm: string)
    requires AllDigits(hh)
    requires ' ' !in mm && ':' !in mm && !AllDigits(mm)
    ensures ParseTime(hh + ":" + mm) == ParseTime(hh)
  {
    HourOnly(hh);
    var time := hh + ":" + mm;
    assert ' ' !in time by {
      assert forall i :: 0 <= i < |time| ==> time[i] == ':' || IsDigit(time[i]) || time[i] in mm;
    }
    SplitNoSep(time, ' ');
    assert ':' !in hh by { assert forall i :: 0 <= i < |hh| ==> IsDigit(hh[i]); }
    SplitCons(hh, mm, ':');
    SplitNoSep(mm, ':');
  }

  /**
   * `parseTimeRange`: the label split on "-" must give exactly two pieces,
   * each trimmed and read by `ParseTime`; any other label is the range
   * {start: 0, end: 0}.
   */
  function ParseTimeRange(rangeStr: string): (r: TimeRange)
    ensures |Split(rangeStr, '-')| != 2 ==> r == TimeRange(Int(0), Int(0))
  {
    var pieces := Split(rangeStr, '-');
    if |pieces| != 2 then TimeRange(Int(0), Int(0))
    else TimeRange(ParseTime(Trim(pieces[0])), ParseTime(Trim(pieces[1])))
  }

  /** A label with one dash reads as the two times around it; one with none reads as {0, 0}. */
  lemma RangeOfLabel(a: string, b: string)
    requires '-' !in a && '-' !in b
    ensures ParseTimeRange(a + "-" + b) == TimeRange(ParseTime(Trim(a)), ParseTime(Trim(b)))
    ensures ParseTimeRange(a) == TimeRange(Int(0), Int(0))
  {
    SplitCons(a, b, '-');
    SplitNoSep(b, '-');
    assert a + "-" + b == a + ['-'] + b;
    SplitNoSep(a, '-');
  }

  /** `now >= start && now < end`; a NaN end point makes both comparisons false. */
  predicate InRange(r: TimeRange, now: int)
  {
    r.start.Int? && r.end.Int? && r.start.value <= now < r.end.value
  }

  predicate IsCurrent(slot: string, now: int) { InRange(ParseTimeRange(slot), now) }

  /** An hour that is not a number, such as "noon", reads as NaN. */
  lemma NonNumericHourIsNaN(hh: string)
    requires ' ' !in hh && ':' !in hh && !AllDigits(hh)
    ensures ParseTime(hh) == NaN
  {
    SplitNoSep(hh, ' ');
    SplitNoSep(hh, ':');
  }

  /** A label either of whose ends is such an hour is never the current slot. */
  lemma NonNumericEndNeverCurrent(a: string, b: string, now: int)
    requires '-' !in a && '-' !in b
    requires (' ' !in Trim(a) && ':' !in Trim(a) && !AllDigits(Trim(a))) ||
             (' ' !in Trim(b) && ':' !in Trim(b) && !AllDigits(Trim(b)))
    ensures !IsCurrent(a + "-" + b, now)
  {
    RangeOfLabel(a, b);
    if ' ' !in Trim(a) && ':' !in Trim(a) && !AllDigits(Trim(a)) {
      NonNumericHourIsNaN(Trim(a));
    } else {
      NonNumericHourIsNaN(Trim(b));
    }
  }

  /** A label that does not read as two times, such as "New Slot", is never current. */
  lemma ZeroRangeNeverCurrent(slot: string, now: int)
    requires |Split(slot, '-')| != 2
    ensures !IsCurrent(slot, now)
  {
  }

  /** Slot `i` is current at `now` and no slot before it is. */
  predicate FirstCurrentAt(slots: Slots, now: int, i: int)
  {
    0 <= i < |slots| && IsCurrent(slots[i], now) && forall j :: 0 <= j < i ==> !IsCurrent(slots[j], now)
  }

  /** When the head is not current, the first current slot of the tail is the first current slot of the list. */
  lemma FirstCurrentShift(slots: Slots, now: int, k: int)
    requires slots != [] && !IsCurrent(slots[0], now) && FirstCurrentAt(slots[1..], now, k)
    ensures FirstCurrentAt(slots, now, k + 1) && slots[k + 1] == slots[1..][k]
  {
    forall j | 0 <= j < k + 1 ensures !IsCurrent(slots[j], now) {
      if j > 0 { assert slots[j] == slots[1..][j - 1]; }
    }
  }

  /**
   * The first slot, in list order, whose range contains `now`; `None` when
   * no slot does.
   */
  function CurrentSlot(slots: Slots, now: int): (r: Option<string>)
    ensures r.Some? ==> exists i :: FirstCurrentAt(slots, now, i) && slots[i] == r.value
    ensures r.None? <==> forall i :: 0 <= i < |slots| ==> !IsCurrent(slots[i], now)
  {
    if slots == [] then None
    else if IsCurrent(slots[0], now) then
      assert FirstCurrentAt(slots, now, 0);
      Some(slots[0])
    else
      var r := CurrentSlot(slots[1..], now);
      assert forall i :: 1 <= i < |slots| ==> slots[i] == slots[1..][i - 1];
      assert r.Some? ==> exists i :: FirstCurrentAt(slots, now, i) && slots[i] == r.value by {
        if r.Some? {
          var k :| FirstCurrentAt(slots[1..], now, k) && slots[1..][k] == r.value;
          FirstCurrentShift(slots, now, k);
        }
      }
      r
  }

  /** `currentTime.getHours() + currentTime.getMinutes() / 60`, in minutes. */
  function Minutes(hour: int, minute: int): int { 60 * hour + minute }

  /**
   * `getCurrentTimeSlot`: walks the slots in order and returns the first one
   * whose range contains the current time, or null.
   */
  method GetCurrentTimeSlot(timeSlots: Slots, hour: int, minute: int) returns (slot: Option<string>)
    ensures slot == CurrentSlot(timeSlots, Minutes(hour, minute))
    ensures slot.Some? ==> slot.value in timeSlots
  {
    var now := 60 * hour + minute;
    var i := 0;
    while i < |timeSlots|
      invariant 0 <= i <= |timeSlots|
      invariant CurrentSlot(timeSlots[i..], now) == CurrentSlot(timeSlots, now)
    {
      var range := ParseTimeRange(timeSlots[i]);
      CurrentSlotStep(timeSlots, now, i);
      if InRange(range, now) {
        slot := Some(timeSlots[i]);
        return;
      }
      i := i + 1;
    }
    assert timeSlots[i..] == [];
    slot := None;
  }

  /** Looking for the current slot from index `i` on: slot `i` if it is current, else the search goes on from `i + 1`. */
  lemma CurrentSlotStep(slots: Slots, now: int, i: int)
    requires 0 <= i < |slots|
    ensures CurrentSlot(slots[i..], now) ==
            if IsCurrent(slots[i], now) then Some(slots[i]) else CurrentSlot(slots[i + 1..], now)
  {
    assert slots[i..][0] == slots[i] && slots[i..][1..] == slots[i + 1..];
  }

  /** `getCurrentDay`: the weekday name of `Date.getDay()`, falling back to "Monday". */
  function CurrentDay(dayIndex: int): string
  {
    var name := if 0 <= dayIndex < |WeekDays| then WeekDays[dayIndex] else "";
    if name != "" then name else "Monday"
  }

  /** Every day index `Date.getDay()` can return has its own name: the fallback is never taken. */
  lemma CurrentDayNames(dayIndex: int)
    requires 0 <= dayIndex < 7
    ensures CurrentDay(dayIndex) == WeekDays[dayIndex]
    ensures dayIndex == 0 ==> CurrentDay(dayIndex) == "Sunday"
  {
  }

  /** What `getSubjectStyle` decides: the colour from the subject and the ring for the current slot. */
  datatype Style = Style(colour: Colour, ring: bool)

  function SubjectStyle(subject: string, isCurrent: bool): Style
  {
    Style(ColourOf(subject), isCurrent)
  }

  /** One widget row: its label, what it shows and how it is styled. */
  datatype Row = Row(slot: string, subject: string, style: Style)

  /**
   * The widget's rows for one day: `todaySchedule[slot] || 'Free Period'`
   * for each slot, ringed when the label is the current slot's label.
   */
  function Rows(timetable: Timetable, timeSlots: Slots, dayIndex: int, now: int): (rows: seq<Row>)
    ensures |rows| == |timeSlots|
  {
    var current := CurrentSlot(timeSlots, now);
    seq(|timeSlots|, i requires 0 <= i < |timeSlots| =>
      var subject := CellContent(timetable, CurrentDay(dayIndex), timeSlots[i]);
      Row(timeSlots[i], subject, SubjectStyle(subject, current == Some(timeSlots[i]))))
  }

  /**
   * A row is ringed exactly when its slot is current; a ringed slot's range
   * contains the time, and a cell with nothing stored shows "Free Period".
   */
  lemma RowsHighlightCurrent(timetable: Timetable, timeSlots: Slots, dayIndex: int, now: int, i: int)
    requires 0 <= i < |timeSlots|
    ensures Rows(timetable, timeSlots, dayIndex, now)[i].style.ring <==>
            CurrentSlot(timeSlots, now) == Some(timeSlots[i])
    ensures Rows(timetable, timeSlots, dayIndex, now)[i].style.ring ==> IsCurrent(timeSlots[i], now)
    ensures CurrentDay(dayIndex) !in timetable ==>
            Rows(timetable, timeSlots, dayIndex, now)[i].subject == FreePeriod
  {
  }

  /** The minutes since midnight at which each default slot starts and ends. */
  const DefaultStarts: seq<int> := [540, 600, 675, 735, 855, 915, 990]
  const DefaultEnds: seq<int> := [600, 660, 735, 795, 915, 975, 1050]

  /**
   * Each default label reads as the range its text says: 9:00 to 10:00, ...,
   * 12:15 to 13:15 (the "1" is an afternoon hour), ..., 16:30 to 17:30.
   */
  lemma DefaultSlotRanges()
    ensures forall k :: 0 <= k < 7 ==>
              ParseTimeRange(Mock.TimeSlots[k]) == TimeRange(Int(DefaultStarts[k]), Int(DefaultEnds[k]))
  {
    var ts := Mock.TimeSlots;
    forall k | 0 <= k < 7
      ensures ParseTimeRange(ts[k]) == TimeRange(Int(DefaultStarts[k]), Int(DefaultEnds[k]))
    {
      if k == 0 { DefaultSlot0(ts); }
      else if k == 1 { DefaultSlot1(ts); }
      else if k == 2 { DefaultSlot2(ts); }
      else if k == 3 { DefaultSlot3(ts); }
      else if k == 4 { DefaultSlot4(ts); }
      else if k == 5 { DefaultSlot5(ts); }
      else { DefaultSlot6(ts); }
    }
  }

  // One lemma per default label keeps each label's reading in a proof of its own.

  lemma DefaultSlot0(ts: Slots)
    requires ts == Mock.TimeSlots
    ensures ParseTimeRange(ts[0]) == TimeRange(Int(540), Int(600))
  {
    DefaultDigits();
    DefaultLabel(ts[0], "9", "00", "10", "00", 540, 600);
  }

  lemma DefaultSlot1(ts: Slots)
    requires ts == Mock.TimeSlots
    ensures ParseTimeRange(ts[1]) == TimeRange(Int(600), Int(660))
  {
    DefaultDigits();
    DefaultLabel(ts[1], "10", "00", "11", "00", 600, 660);
  }

  lemma DefaultSlot2(ts: Slots)
    requires ts == Mock.TimeSlots
    ensures ParseTimeRange(ts[2]) == TimeRange(Int(675), Int(735))
  {
    DefaultDigits();
    DefaultLabel(ts[2], "11", "15", "12", "15", 675, 735);
  }

  lemma DefaultSlot3(ts: Slots)
    requires ts == Mock.TimeSlots
    ensures ParseTimeRange(ts[3]) == TimeRange(Int(735), Int(795))
  {
    DefaultDigits();
    DefaultLabel(ts[3], "12", "15", "1", "15", 735, 795);
  }

  lemma DefaultSlot4(ts: Slots)
    requires ts == Mock.TimeSlots
    ensures ParseTimeRange(ts[4]) == TimeRange(Int(855), Int(915))
  {
    DefaultDigits();
    DefaultLabel(ts[4], "2", "15", "3", "15", 855, 915);
  }

  lemma DefaultSlot5(ts: Slots)
    requires ts == Mock.TimeSlots
    ensures ParseTimeRange(ts[5]) == TimeRange(Int(915), Int(975))
  {
    DefaultDigits();
    DefaultLabel(ts[5], "3", "15", "4", "15", 915, 975);
  }

  lemma DefaultSlot6(ts: Slots)
    requires ts == Mock.TimeSlots
    ensures ParseTimeRange(ts[6]) == TimeRange(Int(990), Int(1050))
  {
    DefaultDigits();
    DefaultLabel(ts[6], "4", "30", "5", "30", 990, 1050);
  }

  /** The two-digit numbers the default labels are written with. */
  lemma DefaultDigits()
    ensures DigitsValue("00") == 0 && DigitsValue("15") == 15 && DigitsValue("30") == 30
    ensures DigitsValue("10") == 10 && DigitsValue("11") == 11 && DigitsValue("12") == 12
  {
    assert "00"[..1] == "0" && "15"[..1] == "1" && "30"[..1] == "3";
    assert "10"[..1] == "1" && "11"[..1] == "1" && "12"[..1] == "1";
  }

  /** One default label, read through `LabelRange`. */
  lemma DefaultLabel(text: string, h1: string, m1: string, h2: string, m2: string, start: int, end: int)
    requires text == h1 + ":" + m1 + " - " + h2 + ":" + m2
    requires AllDigits(h1) && AllDigits(m1) && AllDigits(h2) && AllDigits(m2)
    requires h1 != [] && m1 != [] && h2 != [] && m2 != []
    requires start == ClockMinutes(h1, m1) && end == ClockMinutes(h2, m2)
    ensures ParseTimeRange(text) == TimeRange(Int(start), Int(end))
  {
    LabelRange(h1, m1, h2, m2);
  }

  /** The minutes since midnight of a reading "hh:mm" without a modifier word. */
  function ClockMinutes(hh: string, mm: string): int
    requires AllDigits(hh) && AllDigits(mm)
  {
    60 * AdjustHours(Int(DigitsValue(hh)), None).value + DigitsValue(mm)
  }

  /** A clock reading "h:m" with white space around it, as one side of a range label reads it. */
  lemma PaddedClockTime(pre: string, h: string, m: string, post: string)
    requires AllSpace(pre) && AllSpace(post)
    requires AllDigits(h) && AllDigits(m) && h != [] && m != []
    ensures ParseTime(Trim(pre + h + ":" + m + post)) == Int(ClockMinutes(h, m))
  {
    var x := h + ":" + m;
    assert !IsSpace(x[0]) && !IsSpace(x[|x| - 1]) by { assert x[0] == h[0] && x[|x| - 1] == m[|m| - 1]; }
    assert pre + h + ":" + m + post == pre + x + post;
    TrimPadded(pre, x, post);
    ParseClockLabel(h, m, None);
    assert ClockLabel(h, m, None) == x;
  }

  /** How a default-style label "h1:m1 - h2:m2" reads. */
  lemma LabelRange(h1: string, m1: string, h2: string, m2: string)
    requires AllDigits(h1) && AllDigits(m1) && AllDigits(h2) && AllDigits(m2)
    requires h1 != [] && m1 != [] && h2 != [] && m2 != []
    ensures ParseTimeRange(h1 + ":" + m1 + " - " + h2 + ":" + m2) ==
            TimeRange(Int(ClockMinutes(h1, m1)), Int(ClockMinutes(h2, m2)))
  {
    var a := h1 + ":" + m1 + " ";
    var b := " " + h2 + ":" + m2;
    assert "" + h1 + ":" + m1 + " " == a;
    assert " " + h2 + ":" + m2 + "" == b;
    assert h1 + ":" + m1 + " - " + h2 + ":" + m2 == a + "-" + b;
    assert '-' !in a by { assert forall i :: 0 <= i < |a| ==> a[i] == ':' || a[i] == ' ' || IsDigit(a[i]); }
    assert '-' !in b by { assert forall i :: 0 <= i < |b| ==> b[i] == ':' || b[i] == ' ' || IsDigit(b[i]); }
    PaddedClockTime("", h1, m1, " ");
    PaddedClockTime(" ", h2, m2, "");
    RangeOfLabel(a, b);
  }

  /** The default bounds: each slot starts before it ends and ends no later than any later slot starts. */
  lemma DefaultBoundsIncrease()
    ensures forall k :: 0 <= k < 7 ==> DefaultStarts[k] < DefaultEnds[k]
    ensures forall i, j :: 0 <= i < j < 7 ==> DefaultEnds[i] <= DefaultStarts[j]
  {
  }

  /**
   * The default slots are proper ranges in increasing order, each ending no
   * later than the next begins; so at most one default slot is current at a time.
   */
  lemma DefaultSlotsOrdered()
    ensures forall i, j, now :: 0 <= i < j < 7 && IsCurrent(Mock.TimeSlots[i], now) ==>
              !IsCurrent(Mock.TimeSlots[j], now)
  {
    DefaultSlotRanges();
    DefaultBoundsIncrease();
    forall i, j, now | 0 <= i < j < 7 && IsCurrent(Mock.TimeSlots[i], now)
      ensures !IsCurrent(Mock.TimeSlots[j], now)
    {
      assert now < DefaultEnds[i] <= DefaultStarts[j];
    }
  }

  /** Which default slot is current at a given time: the one whose range holds it, if any. */
  lemma DefaultCurrentSlot(now: int, k: int)
    requires 0 <= k < 7 && DefaultStarts[k] <= now < DefaultEnds[k]
    ensures CurrentSlot(Mock.TimeSlots, now) == Some(Mock.TimeSlots[k])
  {
    var slots := Mock.TimeSlots;
    DefaultSlotRanges();
    DefaultBoundsIncrease();
    var r := CurrentSlot(slots, now);
    assert IsCurrent(slots[k], now);
    var i :| FirstCurrentAt(slots, now, i) && slots[i] == r.value;
    assert i == k;
  }

  /** Between 13:15 and 14:15 (after the lunch slot) no default slot is current. */
  lemma DefaultAfterLunchGap(now: int)
    requires 795 <= now < 855
    ensures CurrentSlot(Mock.TimeSlots, now) == None
  {
    DefaultSlotRanges();
    DefaultBoundsIncrease();
    assert forall k :: 0 <= k < |Mock.TimeSlots| ==> !IsCurrent(Mock.TimeSlots[k], now);
  }

  /** The widget component's state: what `useState` holds and the clock it re-reads every minute. */
  class WidgetState {
    const standalone: bool
    const timeSlotsProp: Option<Slots>
    var timetable: Timetable
    var syllabusData: Syllabus
    var selectedSubject: Option<string>
    var hour: int
    var minute: int
    var timeSlots: Slots

    /** The first render: empty data, no selection, the prop's slots or the default ones. */
    constructor(standalone: bool, timeSlotsProp: Option<Slots>, hour: int, minute: int)
      ensures this.standalone == standalone && this.timeSlotsProp == timeSlotsProp
      ensures timetable == map[] && syllabusData == map[] && selectedSubject == None
      ensures this.hour == hour && this.minute == minute
      ensures timeSlots == if timeSlotsProp.Some? then timeSlotsProp.value else Mock.TimeSlots
    {
      this.standalone := standalone;
      this.timeSlotsProp := timeSlotsProp;
      timetable := map[];
      syllabusData := map[];
      selectedSubject := None;
      this.hour := hour;
      this.minute := minute;
      timeSlots := if timeSlotsProp.Some? then timeSlotsProp.value else Mock.TimeSlots;
    }

    /**
     * The load effect, given what the storage loaders returned. They already
     * fall back to the default data when nothing is saved, so `None` here is
     * only the falsy value a stored `null` (say) parses to, which becomes
     * empty. A standalone widget without a slots prop takes the saved slots,
     * or the default ones when none are saved.
     */
    method LoadData(timetableData: Option<Timetable>, syllabusLoaded: Option<Syllabus>, savedTimeSlots: Option<Slots>)
      modifies this
      ensures timetable == if timetableData.Some? then timetableData.value else map[]
      ensures syllabusData == if syllabusLoaded.Some? then syllabusLoaded.value else map[]
      ensures timeSlots == if standalone && timeSlotsProp.None? then
                             (if savedTimeSlots.Some? then savedTimeSlots.value else Mock.TimeSlots)
                           else old(timeSlots)
      ensures selectedSubject == old(selectedSubject) && hour == old(hour) && minute == old(minute)
    {
      timetable := if timetableData.Some? then timetableData.value else map[];
      syllabusData := if syllabusLoaded.Some? then syllabusLoaded.value else map[];
      if standalone && timeSlotsProp.None? {
        timeSlots := if savedTimeSlots.Some? then savedTimeSlots.value else Mock.TimeSlots;
      }
    }

    /** The one-minute timer: only the clock changes. */
    method Tick(hour: int, minute: int)
      modifies this`hour, this`minute
      ensures this.hour == hour && this.minute == minute
    {
      this.hour := hour;
      this.minute := minute;
    }

    /** `handleSubjectClick`: only a cell that names a class opens its syllabus. */
    method HandleSubjectClick(subject: string)
      modifies this`selectedSubject
      ensures selectedSubject == if IsClass(subject) then Some(subject) else old(selectedSubject)
    {
      if subject != "" && subject != LunchBreak && subject != FreePeriod {
        selectedSubject := Some(subject);
      }
    }

    /** Closing the syllabus dialog clears the selection. */
    method CloseDialog()
      modifies this`selectedSubject
      ensures selectedSubject == None
    {
      selectedSubject := None;
    }

    /** The rows rendered for the day `Date.getDay()` returns, at the stored clock. */
    function VisibleRows(dayIndex: int): (rows: seq<Row>)
      reads this
      ensures |rows| == |timeSlots|
      ensures forall i :: 0 <= i < |rows| ==>
                (rows[i].style.ring <==> CurrentSlot(timeSlots, Minutes(hour, minute)) == Some(timeSlots[i]))
    {
      Rows(timetable, timeSlots, dayIndex, Minutes(hour, minute))
    }
  }

  /**
   * With nothing saved, the widget ends up showing the default timetable and
   * syllabus, and (standalone without a slots prop) the default slots.
   */
  method FirstRun(standalone: bool, timeSlotsProp: Option<Slots>, hour: int, minute: int)
    returns (timetable: Timetable, syllabusData: Syllabus, timeSlots: Slots)
    ensures timetable == Mock.DefaultTimetable && syllabusData == Mock.DefaultSyllabus
    ensures timeSlots == if timeSlotsProp.Some? then timeSlotsProp.value else Mock.TimeSlots
  {
    var w := new WidgetState(standalone, timeSlotsProp, hour, minute);
    w.LoadData(Storage.LoadTimetableFromStorage(Storage.Nothing), Storage.LoadSyllabusFromStorage(Storage.Nothing), None);
    timetable := w.timetable;
    syllabusData := w.syllabusData;
    timeSlots := w.timeSlots;
  }
}
