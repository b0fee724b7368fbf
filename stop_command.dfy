/** The stop command (cli/stop.go, and the older stop action of cli/main.go). */
module StopCommand {
  import opened Wrappers
  import opened Records
  import opened EntryStore
  import TimeEntries

  /**
   * Stops the running entry at the `--end` timestamp when given, else at `now`. With no
   * running entry it changes nothing and still reports no error.
   */
  method StopAction(store: Store, endFlag: Option<int>, now: int) returns (stopped: Option<TimeEntry>)
    requires store.Ready()
    modifies store`entries, store`current
    ensures store.Ready()
    ensures old(store.current) == [] ==>
      stopped == None && store.entries == old(store.entries) && store.current == []
    ensures old(store.current) != [] ==>
      var running := old(store.current)[0];
      var end := if endFlag.Some? then endFlag.value else now;
      && stopped == Some(TimeEntry(running.id, running.project, running.task, running.start, end))
      && store.entries == old(store.entries) + [stopped.value]
      && store.current == []
  {
    var end := now;
    if endFlag.Some? {
      end := endFlag.value;
    }
    var current := store.GetCurrentTimeEntry();
    if current == None {
      return None;
    }
    var te := TimeEntries.Stop(store, current.value, end);
    stopped := Some(te);
  }
}
