/**
 * The Clockify sync-tracking and configuration tables (lib/clockify/clockify_store.go).
 * Each call into the database may fail with an error that the source returns to its
 * caller; such a failure is an input here (`fault`), and a failed call changes nothing.
 */
module Clockify {
  import opened Wrappers
  import opened Records

  const ClockifyTimeEntryCollection: string := "clockify_time_entries"
  const ClockifyConfigCollection: string := "clockify_config"

  datatype ClockifyConfig = ClockifyConfig(id: string, workspaceId: string, apiKey: string)

  /** Links a local time entry to its remote counterpart. */
  datatype ClockifyTimeEntry = ClockifyTimeEntry(id: string, timeEntryId: string, clockifyId: string, deleted: bool)

  /** The tracking table after `deleted: true` is set on every record for timeEntryId. */
  function MarkedDeleted(s: seq<ClockifyTimeEntry>, timeEntryId: string): (r: seq<ClockifyTimeEntry>)
    ensures |r| == |s|
    ensures forall i :: 0 <= i < |s| ==>
      r[i] == if s[i].timeEntryId == timeEntryId then s[i].(deleted := true) else s[i]
  {
    if s == [] then []
    else [if s[0].timeEntryId == timeEntryId then s[0].(deleted := true) else s[0]]
         + MarkedDeleted(s[1..], timeEntryId)
  }

  /** Marking twice is marking once. */
  lemma MarkedDeletedIdempotent(s: seq<ClockifyTimeEntry>, timeEntryId: string)
    ensures MarkedDeleted(MarkedDeleted(s, timeEntryId), timeEntryId) == MarkedDeleted(s, timeEntryId)
  {
  }

  /** With no record for the id, nothing changes. */
  lemma MarkedDeletedNoMatch(s: seq<ClockifyTimeEntry>, timeEntryId: string)
    requires forall i :: 0 <= i < |s| ==> s[i].timeEntryId != timeEntryId
    ensures MarkedDeleted(s, timeEntryId) == s
  {
  }

  /** The first tracking record for a time entry, as `FindFirst` yields it. */
  function FirstTracking(s: seq<ClockifyTimeEntry>, timeEntryId: string): (r: Option<ClockifyTimeEntry>)
    ensures r == None <==> forall i :: 0 <= i < |s| ==> s[i].timeEntryId != timeEntryId
    ensures r.Some? ==> exists k :: (0 <= k < |s| && s[k] == r.value && r.value.timeEntryId == timeEntryId &&
                                     forall j :: 0 <= j < k ==> s[j].timeEntryId != timeEntryId)
  {
    if s == [] then None
    else if s[0].timeEntryId == timeEntryId then Some(s[0])
    else
      var r := FirstTracking(s[1..], timeEntryId);
      assert forall i :: 1 <= i < |s| ==> s[i] == s[1..][i - 1];
      if r.Some? then
        var k :| 0 <= k < |s[1..]| && s[1..][k] == r.value && r.value.timeEntryId == timeEntryId &&
                 forall j :: 0 <= j < k ==> s[1..][j].timeEntryId != timeEntryId;
        assert s[k + 1] == r.value;
        r
      else
        r
  }

  class ClockifyStore {
    var collections: set<string>
    var tracking: seq<ClockifyTimeEntry>
    var configs: seq<ClockifyConfig>

    predicate Valid()
      reads this
    {
      && (ClockifyTimeEntryCollection !in collections ==> tracking == [])
      && (ClockifyConfigCollection !in collections ==> configs == [])
    }

    predicate Ready()
      reads this
    {
      Valid() && ClockifyTimeEntryCollection in collections && ClockifyConfigCollection in collections
    }

    /**
     * `NewClockifyStore(db)` over a database whose state is given: creates each collection
     * only when it is absent, so opening an already set-up database changes nothing.
     */
    constructor NewClockifyStore(collections0: set<string>, tracking0: seq<ClockifyTimeEntry>,
                                 configs0: seq<ClockifyConfig>)
      requires ClockifyTimeEntryCollection !in collections0 ==> tracking0 == []
      requires ClockifyConfigCollection !in collections0 ==> configs0 == []
      ensures Ready()
      ensures collections == collections0 + {ClockifyTimeEntryCollection, ClockifyConfigCollection}
      ensures {ClockifyTimeEntryCollection, ClockifyConfigCollection} <= collections0 ==> collections == collections0
      ensures tracking == tracking0 && configs == configs0
    {
      collections, tracking, configs := collections0, tracking0, configs0;
      new;
      CreateCollectionIfNotExists();
      CreateConfigCollectionIfNotExists();
    }

    method CreateCollectionIfNotExists()
      requires Valid()
      modifies this`collections
      ensures Valid()
      ensures collections == old(collections) + {ClockifyTimeEntryCollection}
    {
      if ClockifyTimeEntryCollection !in collections {
        collections := collections + {ClockifyTimeEntryCollection};
      }
    }

    method CreateConfigCollectionIfNotExists()
      requires Valid()
      modifies this`collections
      ensures Valid()
      ensures collections == old(collections) + {ClockifyConfigCollection}
    {
      if ClockifyConfigCollection !in collections {
        collections := collections + {ClockifyConfigCollection};
      }
    }

    /** `InsertTimeEntry`: one tracking record for the entry, not deleted, with an empty own id. */
    method InsertTimeEntry(timeEntry: TimeEntry, clockifyId: string, fault: Option<Error>) returns (err: Option<Error>)
      requires Ready()
      modifies this`tracking
      ensures Ready()
      ensures err == fault
      ensures tracking == if fault == None
                          then old(tracking) + [ClockifyTimeEntry("", timeEntry.id, clockifyId, false)]
                          else old(tracking)
    {
      err := fault;
      if fault == None {
        tracking := tracking + [ClockifyTimeEntry("", timeEntry.id, clockifyId, false)];
      }
    }

    /** `MakeClockifyTimeEntryDeleted`: sets `deleted` in place on every matching record. */
    method MakeClockifyTimeEntryDeleted(timeEntryId: string, fault: Option<Error>) returns (err: Option<Error>)
      requires Ready()
      modifies this`tracking
      ensures Ready()
      ensures err == fault
      ensures tracking == if fault == None then MarkedDeleted(old(tracking), timeEntryId) else old(tracking)
    {
      err := fault;
      if fault != None {
        return;
      }
      var i := 0;
      while i < |tracking|
        invariant 0 <= i <= |tracking| == |old(tracking)|
        invariant forall k :: 0 <= k < i ==> tracking[k] == MarkedDeleted(old(tracking), timeEntryId)[k]
        invariant forall k :: i <= k < |tracking| ==> tracking[k] == old(tracking)[k]
      {
        if tracking[i].timeEntryId == timeEntryId {
          tracking := tracking[i := tracking[i].(deleted := true)];
        }
        i := i + 1;
      }
    }

    /** `GetClockifyTimeEntry`: the first record for the entry, or none (with no error). */
    method GetClockifyTimeEntry(timeEntry: TimeEntry, fault: Option<Error>) returns (r: Result<Option<ClockifyTimeEntry>>)
      requires Ready()
      ensures fault.Some? ==> r == Err(fault.value)
      ensures fault == None ==> r == Ok(FirstTracking(tracking, timeEntry.id))
    {
      if fault.Some? {
        return Err(fault.value);
      }
      r := Ok(FirstTracking(tracking, timeEntry.id));
    }

    /**
     * `GetClockifyConfig`: the first config record. On an empty collection the source hands
     * a nil document to Unmarshal, so without a failure a record must be present.
     */
    method GetClockifyConfig(fault: Option<Error>) returns (r: Result<ClockifyConfig>)
      requires Ready()
      requires fault == None ==> configs != []
      ensures fault.Some? ==> r == Err(fault.value)
      ensures fault == None ==> r == Ok(configs[0])
    {
      if fault.Some? {
        return Err(fault.value);
      }
      r := Ok(configs[0]);
    }

    /**
     * `InsertClockifyConfig`: deletes all configs, then inserts the argument, so on success
     * exactly one config remains. A failed delete is returned and nothing is inserted.
     */
    method InsertClockifyConfig(config: ClockifyConfig, deleteFault: Option<Error>, insertFault: Option<Error>)
      returns (err: Option<Error>)
      requires Ready()
      modifies this`configs
      ensures Ready()
      ensures deleteFault.Some? ==> err == deleteFault && configs == old(configs)
      ensures deleteFault == None ==>
        err == insertFault && configs == if insertFault == None then [config] else []
    {
      err := DeleteClockifyConfig(deleteFault);
      if err.Some? {
        return;
      }
      err := insertFault;
      if insertFault == None {
        configs := configs + [config];
      }
    }

    /** `DeleteClockifyConfig`: empties the config collection. */
    method DeleteClockifyConfig(fault: Option<Error>) returns (err: Option<Error>)
      requires Ready()
      modifies this`configs
      ensures Ready()
      ensures err == fault
      ensures configs == if fault == None then [] else old(configs)
    {
      err := fault;
      if fault == None {
        configs := [];
      }
    }
  }
}
