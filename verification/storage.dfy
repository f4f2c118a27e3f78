/** The browser's local storage as the core reads it: one slot per key. */
module Storage {
  import opened Basics

  /** What `JSON.parse(localStorage.getItem(key))` finds: nothing stored, text that does
      not parse, or a parsed value. */
  datatype Slot<+T> = Missing | Corrupt | Stored(value: T)

  /** The `hermes_user` record; only its `name` is read by the core, and a missing name
      is `None` (an empty name is `Some("")`). */
  datatype UserRecord = UserRecord(name: Option<string>)
}
