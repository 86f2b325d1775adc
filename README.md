# College planner: a verified model of the planner's logic

The College Planner is a React/Capacitor app. A student keeps a weekly
timetable in it: six days by a list of time-slot labels, and each cell holds
one of three things:

- a subject;
- `"Free Period"`;
- `"Lunch Break"`.

The student also keeps, per subject, a syllabus: a list of topics. This Dafny
project models the logic inside the app's components:

- **Time-slot labels and the "current" slot.** Labels such as `"9:00 - 10:00"` or
  `"09:00 AM - 10:00 AM"` are read the way the home-screen widget reads them,
  including:
  - the AM/PM rule;
  - the rule that hours 1 to 7 with no modifier are afternoon hours;
  - the "first slot whose half-open range holds the time" choice.

  Times are whole minutes since midnight.
- **Timetable grid.** This covers:
  - the copy-on-write update of one cell;
  - adding, deleting and renaming slot rows;
  - the default shown for an empty cell;
  - the three layouts;
  - the edit-mode state machine. Its dialogs are fields of `GridState`, and its
    callbacks are the `GridEvent` values the methods return.
- **Syllabus manager.** Topics are appended, replaced and deleted, with trimming
  and with no-ops on blank input. Every edit reports the new syllabus and then
  saves it; this order is kept in an effect log. The subject list is sorted in
  place, as an insertion sort on an array.
- **Dashboard.** It counts the week's classes and its distinct subjects, using
  nested loops. It applies the Sunday-shows-Monday header rule and the
  load-once / overwrite-on-change handling of the slots and the timetable.
- **Backup import/export.** Import accepts a decoded file only when it has the
  backup shape (all or nothing). Export names the file after the date. Native
  export errors are sorted into dismissed or alerted.
- **Subjects card.** The trimmed, non-blank input is forwarded, and the delete
  action of each row forwards that row's name.
- **The default data.** This covers the default slots, days, subjects,
  timetable and syllabus. The lemmas about them include the exact minute range
  each default label parses to.

Module layout:

- One module per component: `TimetableWidget`, `TimetableGrid`,
  `SyllabusManager`, `Dashboard`, `DataSyncManager`, `SubjectsManager`.
- `Mock` holds the default data.
- Three shared modules hold the JavaScript semantics the components rely on:
  - `Js`: `Number()` on digit strings, truthiness, `||` defaults;
  - `Text`: `trim` with JavaScript's white-space set, `split`, ASCII
    `toLowerCase`, `includes`;
  - `Planner`: the data types, the two sentinels, and the `?.`/`||` cell
    lookup.

Points where the code behaves differently from what its interface suggests;
the model follows the code:

- **Import.** A backup file is accepted only when `subjects`, `timetable` and
  `syllabus` are each JavaScript-truthy, not merely present, so `0`, `""`,
  `false` and `null` values are rejected. A file that decodes to `null` is
  reported as unreadable, because reading a property of `null` throws into the
  same handler.
- **Topic updates.** An update does not check its index: the code assigns to
  that index of a copy, so an index equal to the length appends a topic. The
  model keeps that behaviour.
- **The timetable default.** The components start from an empty timetable,
  but the storage loader falls back to the built-in timetable, so a first run
  shows the default timetable, not an empty one. Only a falsy stored value
  (such as `null`) leaves the dashboard's timetable empty.
- **Subjects.** Rejecting a duplicate subject, keeping the list sorted on
  insertion and removing a deleted subject's cells are not done by the
  component files modelled here; the subjects card only forwards names.

## Model

| member | source | states |
|---|---|---|
| Js.ToNumber | frontend/src/components/TimetableWidget.jsx:23 | `Number()` gives a number exactly for digit strings, 0 for the empty string, never negative |
| Js.OrZero | frontend/src/components/TimetableWidget.jsx:32 | `minutes \|\| 0`: the number when it is truthy, 0 for a missing value, NaN or 0 |
| Js.ToNumberShowNat | frontend/src/components/TimetableWidget.jsx:23 | reading back the decimal digits of any natural number gives that number |
| Js.LeadingZero | frontend/src/components/TimetableWidget.jsx:23 | a leading zero does not change the number read, so `"09"` reads as `"9"` |
| Text.TrimSpec | frontend/src/components/TimetableWidget.jsx:36 | `trim` removes exactly a white-space prefix and suffix; the result neither starts nor ends with white space |
| Text.BlankIffAllSpace | frontend/src/components/SyllabusManager.jsx:25 | `!s.trim()` holds exactly when every character is white space |
| Text.TrimIdempotent | frontend/src/components/SyllabusManager.jsx:26 | trimming twice is trimming once |
| Text.TrimPadded | frontend/src/components/SubjectsManager.jsx:25 | white space around a word is what `trim` takes away |
| Text.JoinSplit | frontend/src/components/TimetableWidget.jsx:22-23 | `split` loses nothing: joining the pieces with the separator gives the string back |
| Text.SplitJoin | frontend/src/components/TimetableWidget.jsx:36 | splitting pieces joined by a separator they do not contain gives the pieces back |
| Text.SplitCons | frontend/src/components/DataSyncManager.jsx:23 | the first piece of a split is everything before the first separator |
| Text.LowerTwoLetters | frontend/src/components/TimetableWidget.jsx:25-26 | a word lower-cases to `pm`/`am` exactly when it is those two letters in any mix of cases |
| Text.Includes | frontend/src/components/DataSyncManager.jsx:55 | `includes` holds exactly when the text occurs at some position |
| Planner.Lookup | frontend/src/components/TimetableGrid.jsx:26 | `timetable[day]?.[slot]` is defined exactly when both keys exist, and is then the stored value |
| Planner.CellContent | frontend/src/components/TimetableGrid.jsx:59 | the stored value, or `"Free Period"` when the day, the slot or the value is missing or empty; never empty |
| Planner.CellContentClass | frontend/src/components/TimetableWidget.jsx:128 | a shown cell is a class exactly when its stored value is a class |
| Planner.ColourOf | frontend/src/components/TimetableWidget.jsx:86-93 | orange exactly for `"Lunch Break"`, gray exactly for `"Free Period"`, blue for every other value |
| Planner.RemoveIndex | frontend/src/components/TimetableGrid.jsx:55 | `filter((_, i) => i !== index)` removes exactly that element and keeps the order; out of range it changes nothing |
| Mock.DaysAreMondayToSaturday | frontend/src/mock.js:12 | the grid's days are the week from Monday to Saturday, in order, without Sunday |
| Mock.TimeSlotsDistinct | frontend/src/mock.js:2-10 | seven default slots, no two the same |
| Mock.TimetableCoversGrid | frontend/src/mock.js:25-80 | the default timetable has exactly the six days, and each day has exactly the seven default slots |
| Mock.TimetableCellsKnown | frontend/src/mock.js:14-80 | every default cell is a listed subject or a sentinel |
| Mock.LunchEveryDay | frontend/src/mock.js:30 | `"12:15 - 1:15"` is `"Lunch Break"` on every day |
| Mock.SyllabusCoversSubjects | frontend/src/mock.js:82-149 | the default syllabus has exactly the eight subjects as keys, each with at least one topic |
| TimetableWidget.AdjustHours | frontend/src/components/TimetableWidget.jsx:24-31 | the hour stays NaN exactly when it was NaN |
| TimetableWidget.PmAddsTwelve | frontend/src/components/TimetableWidget.jsx:25 | `pm` in any case adds 12 to hours below 12 |
| TimetableWidget.AmTwelveIsMidnight | frontend/src/components/TimetableWidget.jsx:26 | `am` in any case turns hour 12 into 0 |
| TimetableWidget.OtherModifierKeepsHour | frontend/src/components/TimetableWidget.jsx:24-26 | any other modifier, or `pm` at 12 or later, or `am` at any other hour, keeps the hour |
| TimetableWidget.NoModifierAfternoonRule | frontend/src/components/TimetableWidget.jsx:27-31 | with no modifier, hours 1 to 7 gain 12 and every other hour is kept |
| TimetableWidget.AdjustStaysOnClock | frontend/src/components/TimetableWidget.jsx:24-31 | an hour of the 24-hour clock stays on the 24-hour clock |
| TimetableWidget.ParseTime | frontend/src/components/TimetableWidget.jsx:21-33 | a parsed time is never negative |
| TimetableWidget.ParseClockLabel | frontend/src/components/TimetableWidget.jsx:21-33 | `hh:mm [modifier]` reads as 60 times the adjusted hour plus the minutes |
| TimetableWidget.HourOnly | frontend/src/components/TimetableWidget.jsx:23-32 | a label without minutes, such as `"9"`, reads as the full hour |
| TimetableWidget.NonNumericMinutesAreZero | frontend/src/components/TimetableWidget.jsx:32 | minutes that are not a number count as 0 |
| TimetableWidget.NonNumericHourIsNaN | frontend/src/components/TimetableWidget.jsx:21-32 | an hour that is not a number makes the time NaN |
| TimetableWidget.NonNumericEndNeverCurrent | frontend/src/components/TimetableWidget.jsx:35-41 | a label with such an hour at either end is never the current slot, whatever the clock |
| TimetableWidget.ParseTimeRange | frontend/src/components/TimetableWidget.jsx:35-41 | a label that does not split into exactly two parts on `-` gives the range 0 to 0 |
| TimetableWidget.RangeOfLabel | frontend/src/components/TimetableWidget.jsx:35-41 | `a - b` gives the range from the trimmed `a` to the trimmed `b`; a label without `-` gives 0 to 0 |
| TimetableWidget.ZeroRangeNeverCurrent | frontend/src/components/TimetableWidget.jsx:37-75 | a label that does not split into two is never current |
| TimetableWidget.CurrentSlot | frontend/src/components/TimetableWidget.jsx:71-80 | the first slot in list order whose half-open range holds the time, and none exactly when no slot holds it |
| TimetableWidget.GetCurrentTimeSlot | frontend/src/components/TimetableWidget.jsx:71-80 | the loop returns that first current slot, and a returned slot is an element of the list |
| TimetableWidget.CurrentDayNames | frontend/src/components/TimetableWidget.jsx:66-69 | every day index 0 to 6 names its weekday, Sunday included, so the `'Monday'` fallback is never used |
| TimetableWidget.Rows | frontend/src/components/TimetableWidget.jsx:127-132 | one row per slot |
| TimetableWidget.RowsHighlightCurrent | frontend/src/components/TimetableWidget.jsx:95-129 | a row is ringed exactly when its slot is the current slot; a missing day shows every slot as `"Free Period"` |
| TimetableWidget.DefaultSlotRanges | frontend/src/mock.js:2-10 | each default label parses to its exact minute range (9:00 is 540, 1:15 is 13:15, and so on) |
| TimetableWidget.LabelRange | frontend/src/components/TimetableWidget.jsx:35-41 | `h1:m1 - h2:m2` parses to the two clock readings in minutes |
| TimetableWidget.DefaultBoundsIncrease | frontend/src/mock.js:2-10 | every default range starts before it ends, and each ends no later than any later one starts |
| TimetableWidget.DefaultSlotsOrdered | frontend/src/mock.js:2-10 | no two default slots are ever current at once |
| TimetableWidget.DefaultCurrentSlot | frontend/src/components/TimetableWidget.jsx:71-80 | inside a default slot's range, that slot is the current one |
| TimetableWidget.DefaultAfterLunchGap | frontend/src/mock.js:6-7 | between 13:15 and 14:15 no default slot is current |
| TimetableWidget.WidgetState.constructor | frontend/src/components/TimetableWidget.jsx:43-48 | empty timetable and syllabus, nothing selected, the given slots or the defaults |
| TimetableWidget.WidgetState.LoadData | frontend/src/components/TimetableWidget.jsx:50-60 | the loaders' results, a falsy one becoming `{}`; the saved slots, or the defaults, only for a standalone widget given no slots |
| TimetableWidget.FirstRun | frontend/src/components/TimetableWidget.jsx:43-61 | with nothing saved, the widget shows the default timetable and syllabus, and the prop's slots or else the default ones |
| TimetableWidget.WidgetState.Tick | frontend/src/components/TimetableWidget.jsx:62 | the clock reading is replaced |
| TimetableWidget.WidgetState.HandleSubjectClick | frontend/src/components/TimetableWidget.jsx:106-108 | a click selects the subject only when it is a class |
| TimetableWidget.WidgetState.CloseDialog | frontend/src/components/TimetableWidget.jsx:147 | closing the dialog clears the selection |
| TimetableWidget.WidgetState.VisibleRows | frontend/src/components/TimetableWidget.jsx:102-132 | one row per slot, ringed exactly when it is the current slot at the widget's clock |
| TimetableGrid.WithCell | frontend/src/components/TimetableGrid.jsx:36 | the upsert adds the day if it was missing and keeps every other day |
| TimetableGrid.WithCellReadBack | frontend/src/components/TimetableGrid.jsx:36 | after the upsert, that cell reads the new subject and every other cell reads as before |
| TimetableGrid.WithCellSameValue | frontend/src/components/TimetableGrid.jsx:36 | writing a cell's own value back changes nothing |
| TimetableGrid.WithCellOverwrite | frontend/src/components/TimetableGrid.jsx:36 | the second of two writes to one cell wins |
| TimetableGrid.WithRowAdded | frontend/src/components/TimetableGrid.jsx:50 | one longer; the old slots are kept as a prefix; the last is `"New Slot"` |
| TimetableGrid.WithRowDeleted | frontend/src/components/TimetableGrid.jsx:55 | one shorter with the later slots shifted down by one; out of range it changes nothing |
| TimetableGrid.WithSlotRenamed | frontend/src/components/TimetableGrid.jsx:43-44 | only the edited index takes the new text; an index at the end appends |
| TimetableGrid.DeleteAddedRow | frontend/src/components/TimetableGrid.jsx:50-55 | deleting the row just added restores the slot list |
| TimetableGrid.RenameToSame | frontend/src/components/TimetableGrid.jsx:43-44 | renaming a slot to its own label changes nothing |
| TimetableGrid.RenameTwice | frontend/src/components/TimetableGrid.jsx:43-44 | the second of two renames of a slot wins |
| TimetableGrid.NewSlotNeverCurrent | frontend/src/components/TimetableGrid.jsx:50 | an added `"New Slot"` row is never current for the widget |
| TimetableGrid.LayoutFor | frontend/src/components/TimetableGrid.jsx:290-301 | `'3'` and `'4'` pick their layouts; every other value falls back to the grid layout |
| TimetableGrid.FormatOptionsReachEveryLayout | frontend/src/components/TimetableGrid.jsx:121-123 | the menu's three options reach the three layouts, captioned 1, 2 and 3 |
| TimetableGrid.InitialFormat | frontend/src/components/TimetableGrid.jsx:14-17 | a saved non-empty format is used, and `'1'` exactly when none is saved or the saved one is empty |
| TimetableGrid.GridCells | frontend/src/components/TimetableGrid.jsx:197-209 | one row per slot, one cell per day |
| TimetableGrid.GridCellsShowTimetable | frontend/src/components/TimetableGrid.jsx:59-204 | each cell shows its stored value when that is non-empty, and `"Free Period"` exactly otherwise |
| TimetableGrid.GridState.constructor | frontend/src/components/TimetableGrid.jsx:10-17 | not editing, no dialog open, an empty slot text, the saved format or `'1'` |
| TimetableGrid.GridState.ToggleEditMode | frontend/src/components/TimetableGrid.jsx:132 | the edit button flips edit mode |
| TimetableGrid.GridState.SetFormat | frontend/src/components/TimetableGrid.jsx:118 | the chosen format is kept |
| TimetableGrid.GridState.CurrentLayout | frontend/src/components/TimetableGrid.jsx:290-301 | format `'1'` shows the grid layout |
| TimetableGrid.GridState.CellClick | frontend/src/components/TimetableGrid.jsx:24-31 | outside edit mode a click reports a class cell's subject and opens nothing; in edit mode it opens that cell and reports nothing |
| TimetableGrid.GridState.SubjectSelect | frontend/src/components/TimetableGrid.jsx:33-39 | with a cell open and a non-empty choice, it reports the timetable with that one cell set and closes the cell; otherwise nothing happens |
| TimetableGrid.GridState.CloseCellDialog | frontend/src/components/TimetableGrid.jsx:67 | closing the dialog clears the open cell |
| TimetableGrid.GridState.StartEditTimeSlot | frontend/src/components/TimetableGrid.jsx:172-174 | the pencil opens the slot with its own label as the text |
| TimetableGrid.GridState.EditTimeSlotText | frontend/src/components/TimetableGrid.jsx:100 | typing replaces the slot text |
| TimetableGrid.GridState.TimeSlotSave | frontend/src/components/TimetableGrid.jsx:41-47 | with a slot open, it reports the slot list with only that label replaced by the untrimmed text and closes the slot; otherwise nothing |
| TimetableGrid.GridState.CloseSlotDialog | frontend/src/components/TimetableGrid.jsx:92 | closing the dialog clears the open slot |
| TimetableGrid.GridState.AddRow | frontend/src/components/TimetableGrid.jsx:49-52 | reports the slot list with `"New Slot"` appended, and never a timetable |
| TimetableGrid.GridState.DeleteRow | frontend/src/components/TimetableGrid.jsx:54-57 | reports the slot list without that index, and never a timetable |
| SyllabusManager.WithTopicAdded | frontend/src/components/SyllabusManager.jsx:26 | the topic goes to the end of the subject's list, created when missing; every other subject is kept |
| SyllabusManager.WithTopicReplaced | frontend/src/components/SyllabusManager.jsx:33-35 | only that index takes the text; the length and the other entries and subjects are kept |
| SyllabusManager.WithTopicRemoved | frontend/src/components/SyllabusManager.jsx:41-42 | exactly that entry goes and the order is kept; out of range the syllabus is unchanged |
| SyllabusManager.RemoveAddedTopic | frontend/src/components/SyllabusManager.jsx:26-41 | deleting the topic just added restores the syllabus |
| SyllabusManager.ReplaceWithSame | frontend/src/components/SyllabusManager.jsx:33-35 | replacing a topic by itself changes nothing |
| SyllabusManager.StoredTopicIsTrimmed | frontend/src/components/SyllabusManager.jsx:25-34 | a stored topic is non-empty, has no white space at either end, and is the typed text with white space cut from both ends |
| SyllabusManager.SaveEffects | frontend/src/components/SyllabusManager.jsx:19-22 | the parent hears of the new syllabus first, then it is saved |
| SyllabusManager.SyllabusEditor.constructor | frontend/src/components/SyllabusManager.jsx:15-17 | no subject being edited, an empty new topic, no topic being edited |
| SyllabusManager.SyllabusEditor.TypeNewTopic | frontend/src/components/SyllabusManager.jsx:94-140 | typing sets the new topic, and in the list view marks that subject as the one being edited |
| SyllabusManager.SyllabusEditor.SetEditingSubject | frontend/src/components/SyllabusManager.jsx:127-132 | the subject being edited is set or cleared |
| SyllabusManager.SyllabusEditor.ShownNewTopic | frontend/src/components/SyllabusManager.jsx:140 | only the subject being edited shows the typed topic |
| SyllabusManager.SyllabusEditor.AddTopic | frontend/src/components/SyllabusManager.jsx:24-29 | blank input does nothing; otherwise the trimmed topic is appended, reported, saved, and the input cleared; something is reported exactly when the dialog's Add button is enabled |
| SyllabusManager.SyllabusEditor.AddDisabled | frontend/src/components/SyllabusManager.jsx:95-141 | the Add button is disabled exactly when the draft is all white space, or (in the list view) another subject is being edited |
| SyllabusManager.SyllabusEditor.ListAddEnabledOnlyForEditingSubject | frontend/src/components/SyllabusManager.jsx:139-141 | in the list view only the edited subject's button can be enabled, and its box shows the draft it would add; other boxes are empty and disabled |
| SyllabusManager.SyllabusEditor.UpdateTopic | frontend/src/components/SyllabusManager.jsx:31-38 | blank text does nothing; otherwise that entry takes the trimmed text, the result is reported and saved, and the edit closes |
| SyllabusManager.SyllabusEditor.DeleteTopic | frontend/src/components/SyllabusManager.jsx:40-44 | the list without that index is reported and saved |
| SyllabusManager.SyllabusEditor.StartEditingTopic | frontend/src/components/SyllabusManager.jsx:46-48 | the topic's index and text open in the editor |
| SyllabusManager.SyllabusEditor.EditTopicText | frontend/src/components/SyllabusManager.jsx:74 | typing replaces only the edited text |
| SyllabusManager.SyllabusEditor.CancelTopicEdit | frontend/src/components/SyllabusManager.jsx:75 | cancelling closes the topic editor |
| SyllabusManager.StrLeTotal | frontend/src/components/SyllabusManager.jsx:50 | the default sort order compares any two names |
| SyllabusManager.StrLeAntisymmetric | frontend/src/components/SyllabusManager.jsx:50 | two names ordered both ways are equal |
| SyllabusManager.StrLeTransitive | frontend/src/components/SyllabusManager.jsx:50 | the order is transitive |
| SyllabusManager.SortedUnique | frontend/src/components/SyllabusManager.jsx:50 | two sorted arrangements of the same names are the same sequence, so the sorted list does not depend on the input order |
| SyllabusManager.SortSubjects | frontend/src/components/SyllabusManager.jsx:50 | the caller's array is sorted in place and holds the same names as before |
| SyllabusManager.InsertLast | frontend/src/components/SyllabusManager.jsx:50 | one insertion step extends the sorted prefix by one and keeps the names |
| Dashboard.ComputeStats | frontend/src/components/Dashboard.jsx:51-68 | the loops count exactly the distinct class names and exactly the cells holding a class |
| Dashboard.ScanDay | frontend/src/components/Dashboard.jsx:56-61 | one day's pass collects that day's class names and counts its class cells |
| Dashboard.ActiveAtMostWeekly | frontend/src/components/Dashboard.jsx:52-66 | there are never more distinct subjects than weekly classes |
| Dashboard.NoClassesNoStats | frontend/src/components/Dashboard.jsx:54-67 | a timetable that is empty, or holds only sentinels, counts no classes and no subjects |
| Dashboard.SetCellClassCells | frontend/src/components/Dashboard.jsx:78-81 | a grid cell update changes the counted cells by that cell alone: added when it now holds a class, removed when not |
| Dashboard.FillingCellAddsOneClass | frontend/src/components/Dashboard.jsx:55-61 | putting a class into a cell without one adds exactly one weekly class |
| Dashboard.CurrentDaySchedule | frontend/src/components/Dashboard.jsx:83-88 | Sunday shows Monday and is not today; every other day shows itself and is today |
| Dashboard.ShownDayIsColumn | frontend/src/components/Dashboard.jsx:83-88 | the day shown is always one of the grid's six days |
| Storage.LoadTimetableFromStorage | frontend/src/utils/storage.js:14-27 | the saved timetable; the default timetable when nothing usable is stored; a stored falsy value comes back as it is (`None`) |
| Storage.LoadSyllabusFromStorage | frontend/src/utils/storage.js:14-30 | the saved syllabus; the default syllabus when nothing usable is stored; a stored falsy value comes back as it is (`None`) |
| Dashboard.DashboardState.constructor | frontend/src/components/Dashboard.jsx:28-35 | default slots, an empty timetable, nothing selected |
| Dashboard.DashboardState.LoadData | frontend/src/components/Dashboard.jsx:39-45 | stored slots replace the defaults only when present; the loaded timetable replaces the current one exactly when it is truthy, i.e. unless storage holds a falsy value |
| Dashboard.DashboardState.HandleTimeSlotsChange | frontend/src/components/Dashboard.jsx:73-76 | the new slots become the state and are what storage holds |
| Dashboard.DashboardState.HandleTimetableChange | frontend/src/components/Dashboard.jsx:78-81 | the new timetable becomes the state and is what storage holds |
| Dashboard.DashboardState.HandleSubjectClick | frontend/src/components/Dashboard.jsx:70 | the clicked subject's syllabus opens |
| Dashboard.DashboardState.CloseSyllabus | frontend/src/components/Dashboard.jsx:121 | closing clears the selection |
| Dashboard.DashboardState.OnGridEvent | frontend/src/components/Dashboard.jsx:108-114 | each grid callback reaches its handler, and nothing else changes |
| Dashboard.DashboardState.CurrentStats | frontend/src/components/Dashboard.jsx:51-105 | the two cards show the exact counts, subjects never above classes |
| Dashboard.ReloadAfterChange | frontend/src/components/Dashboard.jsx:39-81 | a timetable and slots written by the handlers are what the next load shows |
| Dashboard.FirstRun | frontend/src/components/Dashboard.jsx:34-45 | with nothing stored, the default timetable and the default slots are shown |
| Dashboard.FalsyStoredTimetable | frontend/src/components/Dashboard.jsx:35-45 | a falsy stored timetable leaves the initial empty timetable in place |
| DataSyncManager.Property | frontend/src/components/DataSyncManager.jsx:81 | a property is defined exactly for an object that has that field |
| DataSyncManager.Outcome | frontend/src/components/DataSyncManager.jsx:74-97 | a missing or non-JSON file is never read; a file that does not decode, or decodes to `null`, cannot be read |
| DataSyncManager.ImportedIffBackup | frontend/src/components/DataSyncManager.jsx:81-85 | a JSON file is imported exactly when all three parts are truthy, and then unchanged |
| DataSyncManager.EmptyCollectionsAccepted | frontend/src/components/DataSyncManager.jsx:81 | empty arrays and objects count as present |
| DataSyncManager.FalsyPartRejects | frontend/src/components/DataSyncManager.jsx:84-85 | one missing or falsy part rejects the whole file |
| DataSyncManager.AlertText | frontend/src/components/DataSyncManager.jsx:83-94 | every outcome shows a message |
| DataSyncManager.AlertsDistinguishOutcomes | frontend/src/components/DataSyncManager.jsx:83-94 | different outcomes show different messages |
| DataSyncManager.FileInput.constructor | frontend/src/components/DataSyncManager.jsx:14 | an empty input that has reported nothing |
| DataSyncManager.FileInput.HandleFileSelect | frontend/src/components/DataSyncManager.jsx:74-97 | once the file is read: an import exactly for a valid backup, one alert naming the outcome, and the input cleared |
| DataSyncManager.ExportFileName | frontend/src/components/DataSyncManager.jsx:23-35 | the name starts with `college-planner-backup-` and ends with `.json` |
| DataSyncManager.ExportFileNameIsDate | frontend/src/components/DataSyncManager.jsx:23-35 | the name is the prefix, the timestamp's date part and `.json` |
| DataSyncManager.SameDaySameName | frontend/src/components/DataSyncManager.jsx:23-35 | two exports on the same day get the same name |
| DataSyncManager.DifferentDaysDifferentNames | frontend/src/components/DataSyncManager.jsx:23-35 | exports on different days get different names |
| DataSyncManager.HandleExportError | frontend/src/components/DataSyncManager.jsx:51-63 | an error is dismissed exactly when its message mentions `Share canceled`; a `null` error makes the handler throw |
| DataSyncManager.CancellationDismissed | frontend/src/components/DataSyncManager.jsx:55-58 | a message containing `Share canceled` anywhere is dismissed |
| DataSyncManager.OtherErrorAlerted | frontend/src/components/DataSyncManager.jsx:61-62 | any other message is alerted after the fixed prefix |
| SubjectsManager.SubjectInput.constructor | frontend/src/components/SubjectsManager.jsx:21 | the input starts empty |
| SubjectsManager.SubjectInput.SetNewSubject | frontend/src/components/SubjectsManager.jsx:44 | typing replaces the input |
| SubjectsManager.SubjectInput.AddDisabled | frontend/src/components/SubjectsManager.jsx:47 | the Add button is disabled exactly when the input is all white space |
| SubjectsManager.SubjectInput.HandleAddClick | frontend/src/components/SubjectsManager.jsx:23-47 | it forwards exactly when the button would be enabled: the trimmed text, and then the input is cleared; blank input stays |
| SubjectsManager.SubjectInput.KeyPress | frontend/src/components/SubjectsManager.jsx:45 | Enter acts as the Add button; other keys do nothing |
| SubjectsManager.ForwardedIsTrimmedName | frontend/src/components/SubjectsManager.jsx:24-25 | a forwarded name is non-blank and already trimmed; nothing is forwarded exactly for white space only |
| SubjectsManager.PaddedNameForwardedBare | frontend/src/components/SubjectsManager.jsx:25 | spaces around a name are not forwarded |
| SubjectsManager.Rows | frontend/src/components/SubjectsManager.jsx:55-73 | one row per subject, in order, whose delete forwards exactly the name it shows |

## Left out

- Rendering: JSX, class strings beyond the three-way colour, dialogs, tabs and accordions. The grid's three layouts are reduced to which one is chosen.
- Storage I/O. `localStorage`, `JSON.stringify` and `JSON.parse` are foreign calls. Stored values are `Option`s of already-decoded data. A corrupt stored value is the same as an absent one, as the loaders' `catch` makes it.
- The saving of the grid's format to `localStorage`. Only the initial read of the saved format is modelled.
- The clock. `new Date()`, `getDay()`, `getHours()`/`getMinutes()` and the one-minute timer are parameters: a weekday index and a time in minutes.
- Floating point. The widget compares `hours + minutes/60` as doubles, and the model compares `60*hours + minutes` exactly. For minutes pieces 0 to 59 the two order every pair of times the same way. A label whose minutes piece is 60 or more can differ at a tie: `"0:77 - 2:00"` at 1:17 is current in the model, but the doubles 0 + 77/60 and 1 + 17/60 differ in the last bit, so the widget does not treat it as current.
- TimetableWidget.ParseTime: `Number()` is modelled for decimal digit strings and the empty string only. Signs, decimals, exponents, hex and surrounding white space inside a piece all read as NaN, so such labels are never current.
- DataSyncManager.Json: JSON numbers are integers in the model, so non-integer numbers are not represented (truthiness only needs "zero or not").
- TimetableGrid.GridState.TimeSlotSave: an index more than one past the end would give the JavaScript array holes. It is excluded by the precondition, so such saves are not modelled.
- SyllabusManager.SyllabusEditor.UpdateTopic: an index more than one past the end would give the JavaScript array holes. It is excluded by the precondition, so such updates are not modelled. An absent subject makes the handler throw before any report or save. The model treats this as "nothing happens", and so does DeleteTopic.
- SyllabusManager.SortSubjects: JavaScript's default sort compares UTF-16 code units. The model compares `char` values, which agree for text outside the astral planes.
- Text.Lower: `toLowerCase` is modelled for ASCII letters only.
- Dashboard.CurrentDaySchedule: the day index is required to be 0 to 6, which is what `getDay()` returns.
- DataSyncManager.FileInput.HandleFileSelect: `FileReader` runs its callback after the input is cleared. The model records the final state and not that interleaving.
- DataSyncManager.FileInput.HandleFileSelect: models only a read that completes and an `onImport` that returns. A read that fails never runs `onload`, so there is no alert at all (DataSyncManager.jsx:77-92). An `onImport` that throws (line 82) leads to the "Could not read the file" alert after the import has already been reported (lines 87-89).
- Web export. Blob and link creation and the fixed alert on failure are platform calls; only the file name is modelled.
- The exported document's contents, and the adoption of an imported object by the app. These belong to the parent component, which is not part of this model.
- Subject de-duplication, sorted insertion, the cascade on deletion and hall numbers. These live in handlers outside the modelled components.
- The Android widget provider, the app shell and the Capacitor platform check. These are platform plumbing.
- The dashboard renders the syllabus manager without a subject list or a syllabus. That wiring is not modelled; the syllabus editor takes both as parameters.
