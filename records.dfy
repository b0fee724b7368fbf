/** The two record types of the local store (lib/store/entry_store.go). */
module Records {

  /** The running session: at most one is meant to exist at a time. */
  datatype CurrentTimeEntry = CurrentTimeEntry(id: string, project: string, task: string, start: int)

  /** A finished session; `id` is the id of the current entry it was stopped from. */
  datatype TimeEntry = TimeEntry(id: string, project: string, task: string, start: int, end: int)

  /** The time from start to end in nanoseconds (negative when the end precedes the start). */
  function Duration(e: TimeEntry): int {
    e.end - e.start
  }
}
