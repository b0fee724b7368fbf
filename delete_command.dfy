/** The delete command (cli/delete.go): delete one time entry and flag its tracking records. */
module DeleteCommand {
  import opened Wrappers
  import opened Records
  import opened Ordering
  import opened EntryStore
  import opened Clockify

  const IdRequired: Error := "id is required"

  /**
   * With `--last`, deletes the entry with the latest start (the source indexes `[0]` of
   * the query result unchecked, so the collection must not be empty); otherwise deletes
   * the entry whose id is the first argument, which must not be empty. The tracking
   * records flagged deleted are those for the first argument in both cases, not for the id
   * actually deleted, and the error of that flagging is dropped.
   */
  method DeleteAction(store: Store, cstore: ClockifyStore, last: bool, firstArg: string,
                      flagFault: Option<Error>) returns (err: Option<Error>)
    requires store.Ready() && cstore.Ready()
    requires last ==> store.entries != []
    modifies store`entries, cstore`tracking
    ensures store.Ready() && cstore.Ready()
    ensures !last && firstArg == "" ==>
      err == Some(IdRequired) && store.entries == old(store.entries) && cstore.tracking == old(cstore.tracking)
    ensures !last && firstArg != "" ==> store.entries == RemoveById(old(store.entries), firstArg)
    ensures last ==> exists newest :: (newest in old(store.entries) &&
                                       (forall y :: y in old(store.entries) ==> y.start <= newest.start) &&
                                       store.entries == RemoveById(old(store.entries), newest.id))
    ensures last || firstArg != "" ==>
      && err == None
      && cstore.tracking == if flagFault == None then MarkedDeleted(old(cstore.tracking), firstArg)
                            else old(cstore.tracking)
  {
    if last {
      var q := Query(All, true, Some(1));
      var newest := store.GetTimeEntriesQuery(q);
      SelectAll(store.entries);
      assert store.entries[0] in store.entries;
      NewestFirstHeadIsLatest(store.entries, store.entries[0]);
      var x := newest[0];
      forall y | y in store.entries ensures y.start <= x.start {
        NewestFirstHeadIsLatest(store.entries, y);
      }
      store.DeleteTimeEntry(x.id);
    } else {
      if firstArg == "" {
        return Some(IdRequired);
      }
      store.DeleteTimeEntry(firstArg);
    }
    var _ := cstore.MakeClockifyTimeEntryDeleted(firstArg, flagFault);
    err := None;
  }
}
