/**
 * The storage layer's loaders: each returns what was saved under its key,
 * or the planner's default data when nothing is saved.
 */
module Storage {
  import opened Js
  import opened Planner
  import Mock

  /**
   * What a key holds, as `loadFromStorage` sees it: nothing usable (no
   * entry, an empty entry, or text that does not parse), text that parses to
   * a falsy JSON value (`null`, `false`, `0`, `""`), or a saved value.
   */
  datatype Stored<T> = Nothing | Falsy | Saved(value: T)

  /**
   * `loadTimetableFromStorage`: the saved timetable, or the default one when
   * nothing usable is stored; `None` stands for the falsy value a stored
   * `null` (say) parses to, which the loader returns as it is.
   */
  function LoadTimetableFromStorage(stored: Stored<Timetable>): (t: Option<Timetable>)
    ensures t.None? <==> stored.Falsy?
    ensures stored.Saved? ==> t == Some(stored.value)
    ensures stored.Nothing? ==> t == Some(Mock.DefaultTimetable)
  {
    match stored
    case Nothing => Some(Mock.DefaultTimetable)
    case Falsy => None
    case Saved(v) => Some(v)
  }

  /** `loadSyllabusFromStorage`: as the timetable loader, with the default syllabus. */
  function LoadSyllabusFromStorage(stored: Stored<Syllabus>): (s: Option<Syllabus>)
    ensures s.None? <==> stored.Falsy?
    ensures stored.Saved? ==> s == Some(stored.value)
    ensures stored.Nothing? ==> s == Some(Mock.DefaultSyllabus)
  {
    match stored
    case Nothing => Some(Mock.DefaultSyllabus)
    case Falsy => None
    case Saved(v) => Some(v)
  }
}
