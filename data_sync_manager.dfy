/**
 * Backup import and export: the rule deciding whether a decoded backup
 * file is accepted, the alert each outcome shows, the export file's name,
 * and which export errors are reported to the user.
 */
module DataSyncManager {
  import opened Js
  import opened Text

  // ---------------------------------------------------------------------
  // Import
  // ---------------------------------------------------------------------

  /** A decoded JSON value. Numbers are kept as integers. */
  datatype Json =
    | JNull
    | JBool(b: bool)
    | JNum(n: int)
    | JStr(s: string)
    | JArr(items: seq<Json>)
    | JObj(fields: map<string, Json>)

  /** JavaScript truthiness of a decoded value: every array and object is truthy, even an empty one. */
  predicate JsonTruthy(j: Json)
  {
    match j
    case JNull => false
    case JBool(b) => b
    case JNum(n) => n != 0
    case JStr(s) => s != ""
    case JArr(_) => true
    case JObj(_) => true
  }

  /**
   * Reading a property of a non-null value: an object's own field, and
   * `undefined` (None) for a missing field or any other kind of value.
   */
  function Property(j: Json, key: string): (v: Option<Json>)
    requires !j.JNull?
    ensures v.Some? <==> j.JObj? && key in j.fields
  {
    if j.JObj? && key in j.fields then Some(j.fields[key]) else None
  }

  /** A property that is present and truthy. */
  predicate TruthyProperty(j: Json, key: string)
    requires !j.JNull?
  {
    var v := Property(j, key);
    v.Some? && JsonTruthy(v.value)
  }

  /** The backup shape: `subjects`, `timetable` and `syllabus` all present and truthy. */
  predicate IsBackup(j: Json)
    requires !j.JNull?
  {
    TruthyProperty(j, "subjects") && TruthyProperty(j, "timetable") && TruthyProperty(j, "syllabus")
  }

  /**
   * The file the user picked: its MIME type, and its text as decoded by
   * `JSON.parse` (None when the text is not valid JSON).
   */
  datatype SelectedFile = SelectedFile(mimeType: string, parsed: Option<Json>)

  const JsonMimeType := "application/json"

  /** What choosing a file leads to. */
  datatype ImportOutcome =
    | Imported(data: Json)
    | InvalidFormat
    | Unreadable
    | NotJson

  /**
   * `handleFileSelect`'s decision. No file, or a file of another type, is
   * never read. A file that does not decode, or decodes to `null` (whose
   * property read throws into the same handler), cannot be read. Any other
   * value is imported unchanged when it has the backup shape.
   */
  function Outcome(file: Option<SelectedFile>): (o: ImportOutcome)
    ensures o.NotJson? <==> file.None? || file.value.mimeType != JsonMimeType
    ensures o.Unreadable? <==> file.Some? && file.value.mimeType == JsonMimeType &&
                               (file.value.parsed.None? || file.value.parsed.value.JNull?)
  {
    if file.None? || file.value.mimeType != JsonMimeType then NotJson
    else if file.value.parsed.None? || file.value.parsed.value.JNull? then Unreadable
    else if IsBackup(file.value.parsed.value) then Imported(file.value.parsed.value)
    else InvalidFormat
  }

  /** The alert shown for each outcome. */
  function AlertText(o: ImportOutcome): (text: string)
    ensures text != ""
  {
    match o
    case Imported(_) => "Data imported successfully!"
    case InvalidFormat => "Invalid file format. Please import a valid backup file."
    case Unreadable => "Could not read the file. It may be corrupted."
    case NotJson => "Please select a valid .json file."
  }

  /** Each outcome has its own alert, so the user can tell them apart. */
  lemma AlertsDistinguishOutcomes(o1: ImportOutcome, o2: ImportOutcome)
    requires AlertText(o1) == AlertText(o2)
    ensures o1.Imported? <==> o2.Imported?
    ensures !o1.Imported? ==> o1 == o2
  {
  }

  /**
   * All or nothing: a JSON file is imported exactly when it decodes to a
   * value with all three parts truthy, and then it is imported unchanged.
   */
  lemma ImportedIffBackup(file: SelectedFile)
    ensures Outcome(Some(file)).Imported? <==>
            file.mimeType == JsonMimeType && file.parsed.Some? && !file.parsed.value.JNull? &&
            IsBackup(file.parsed.value)
    ensures Outcome(Some(file)).Imported? ==> Outcome(Some(file)).data == file.parsed.value
  {
  }

  /** A backup whose three parts are empty collections is still accepted. */
  lemma EmptyCollectionsAccepted(extra: map<string, Json>)
    ensures Outcome(Some(SelectedFile(JsonMimeType, Some(JObj(extra[
              "subjects" := JArr([])][
              "timetable" := JObj(map[])][
              "syllabus" := JObj(map[])]))))).Imported?
  {
  }

  /** A missing or falsy part rejects the whole file. */
  lemma FalsyPartRejects(fields: map<string, Json>, key: string)
    requires key == "subjects" || key == "timetable" || key == "syllabus"
    requires key !in fields || !JsonTruthy(fields[key])
    ensures Outcome(Some(SelectedFile(JsonMimeType, Some(JObj(fields))))) == InvalidFormat
  {
  }

  /** The file input: its value, and what it reported to the app and the user. */
  class FileInput {
    var value: string
    var imports: seq<Json>
    var alerts: seq<string>

    constructor()
      ensures value == "" && imports == [] && alerts == []
    {
      value := "";
      imports := [];
      alerts := [];
    }

    /**
     * `handleFileSelect` once the file has been read: at most one import and
     * one alert for the outcome, and the input is cleared so the same file can
     * be chosen again. A read that never completes, and an import callback
     * that fails, are outside this model.
     */
    method HandleFileSelect(file: Option<SelectedFile>)
      modifies this
      ensures imports == old(imports) + (if Outcome(file).Imported? then [Outcome(file).data] else [])
      ensures alerts == old(alerts) + [AlertText(Outcome(file))]
      ensures value == ""
    {
      var o := Outcome(file);
      if o.Imported? {
        imports := imports + [o.data];
      }
      alerts := alerts + [AlertText(o)];
      value := "";
    }
  }

  // ---------------------------------------------------------------------
  // Export
  // ---------------------------------------------------------------------

  const BackupPrefix := "college-planner-backup-"
  const BackupSuffix := ".json"

  /** The backup file's name for a clock reading in ISO 8601 form: the part before the first `T`. */
  function ExportFileName(isoTimestamp: string): (name: string)
    ensures |name| >= |BackupPrefix| + |BackupSuffix|
    ensures name[..|BackupPrefix|] == BackupPrefix
    ensures name[|name| - |BackupSuffix|..] == BackupSuffix
  {
    BackupPrefix + Split(isoTimestamp, 'T')[0] + BackupSuffix
  }

  /** For a timestamp `date` + `T` + `time`, the name carries exactly the date. */
  lemma ExportFileNameIsDate(date: string, time: string)
    requires 'T' !in date
    ensures ExportFileName(date + "T" + time) == BackupPrefix + date + BackupSuffix
    ensures ExportFileName(date + "T" + time)[|BackupPrefix|..|BackupPrefix| + |date|] == date
  {
    assert date + "T" + time == date + ['T'] + time;
    SplitCons(date, time, 'T');
  }

  /** Two timestamps of the same day give the same file name. */
  lemma SameDaySameName(date: string, time1: string, time2: string)
    requires 'T' !in date
    ensures ExportFileName(date + "T" + time1) == ExportFileName(date + "T" + time2)
  {
    ExportFileNameIsDate(date, time1);
    ExportFileNameIsDate(date, time2);
  }

  /** Dates that differ give different names. */
  lemma DifferentDaysDifferentNames(date1: string, date2: string, time1: string, time2: string)
    requires 'T' !in date1 && 'T' !in date2 && date1 != date2
    ensures ExportFileName(date1 + "T" + time1) != ExportFileName(date2 + "T" + time2)
  {
    ExportFileNameIsDate(date1, time1);
    ExportFileNameIsDate(date2, time2);
  }

  /** The error a native export can fail with; `message` is None when it has none. */
  datatype ExportError = ExportError(message: Option<string>)

  /** What a native export failure leads to. */
  datatype ErrorOutcome =
    | Dismissed
    | Alerted(text: string)
    | Throws

  const CancelMessage := "Share canceled"
  const ExportAlertPrefix := "An error occurred while exporting your data: "

  /**
   * The native export's error handler. The share sheet's cancellation is
   * dismissed silently. Any other error is alerted with its message
   * (`undefined` when it has none). A `null` error is not dismissed, and
   * reading its message for the alert throws again.
   */
  function HandleExportError(error: Option<ExportError>): (r: ErrorOutcome)
    ensures r.Dismissed? <==> error.Some? && error.value.message.Some? && Includes(error.value.message.value, CancelMessage)
    ensures r.Throws? <==> error.None?
  {
    if error.Some? && error.value.message.Some? && error.value.message.value != "" &&
       Includes(error.value.message.value, CancelMessage)
    then Dismissed
    else if error.None? then Throws
    else Alerted(ExportAlertPrefix + (if error.value.message.Some? then error.value.message.value else "undefined"))
  }

  /** A message that mentions the cancellation anywhere is dismissed. */
  lemma CancellationDismissed(pre: string, post: string)
    ensures HandleExportError(Some(ExportError(Some(pre + CancelMessage + post)))) == Dismissed
  {
    var m := pre + CancelMessage + post;
    assert m[|pre|..|pre| + |CancelMessage|] == CancelMessage;
    assert OccursAt(m, CancelMessage, |pre|);
  }

  /** Every other error with a message is shown to the user with that message. */
  lemma OtherErrorAlerted(message: string)
    requires !Includes(message, CancelMessage)
    ensures HandleExportError(Some(ExportError(Some(message)))) == Alerted(ExportAlertPrefix + message)
  {
  }
}
