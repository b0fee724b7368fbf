/**
 * The start/stop state machine of lib/time-entry.go: the store is Idle when the
 * current-entry collection is empty and Running when it holds an entry. The clock reads
 * and the UUID generator of the source are parameters.
 */
module TimeEntries {
  import opened Records
  import opened EntryStore

  /**
   * `Stop`: records the current entry as a time entry with the same id and the given end
   * (no check that end is after start), then clears every current entry.
   */
  method Stop(store: Store, c: CurrentTimeEntry, end: int) returns (te: TimeEntry)
    requires store.Ready()
    modifies store`entries, store`current
    ensures store.Ready()
    ensures te == TimeEntry(c.id, c.project, c.task, c.start, end)
    ensures store.entries == old(store.entries) + [te]
    ensures store.current == []
  {
    te := TimeEntry(c.id, c.project, c.task, c.start, end);
    store.InsertTimeEntry(te);
    store.DeleteCurrentTimeEntry();
  }

  /**
   * `NewCurrentTimeEntry`: a running entry is first stopped at `now` (the clock read inside
   * this function, not the new entry's start); then the fresh entry with id `newId` becomes
   * the one and only current entry, however many there were before.
   */
  method NewCurrentTimeEntry(store: Store, project: string, task: string, start: int,
                             now: int, newId: string) returns (c: CurrentTimeEntry)
    requires store.Ready()
    modifies store`entries, store`current
    ensures store.Ready()
    ensures c == CurrentTimeEntry(newId, project, task, start)
    ensures store.current == [c]
    ensures old(store.current) == [] ==> store.entries == old(store.entries)
    ensures old(store.current) != [] ==>
      var running := old(store.current)[0];
      store.entries == old(store.entries) + [TimeEntry(running.id, running.project, running.task, running.start, now)]
  {
    var running := store.GetCurrentTimeEntry();
    if running.Some? {
      var _ := Stop(store, running.value, now);
    }
    c := CurrentTimeEntry(newId, project, task, start);
    store.InsertCurrentTimeEntry(c);
  }

  /**
   * `Start`: NewCurrentTimeEntry with the start taken from the clock. The source reads the
   * clock twice: `startedAt` for the new entry, `stoppedAt` inside NewCurrentTimeEntry.
   */
  method Start(project: string, task: string, store: Store, startedAt: int, stoppedAt: int,
               newId: string) returns (c: CurrentTimeEntry)
    requires store.Ready()
    modifies store`entries, store`current
    ensures store.Ready()
    ensures c == CurrentTimeEntry(newId, project, task, startedAt)
    ensures store.current == [c]
    ensures old(store.current) == [] ==> store.entries == old(store.entries)
    ensures old(store.current) != [] ==>
      var running := old(store.current)[0];
      store.entries == old(store.entries) + [TimeEntry(running.id, running.project, running.task, running.start, stoppedAt)]
  {
    c := NewCurrentTimeEntry(store, project, task, startedAt, stoppedAt, newId);
  }
}
