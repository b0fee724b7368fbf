/**
 * The local store (lib/store/entry_store.go and lib/store/migration.go) over in-memory
 * collections: the embedded document database is replaced by one sequence of records per
 * collection, in the order the database yields them, plus the sets of collection names
 * and (collection, field) indexes that the schema steps create.
 */
module EntryStore {
  import opened Wrappers
  import opened Clock
  import opened Records
  import opened Ordering

  const CurrentTimeEntryCollection: string := "current-time-entry"
  const TimeEntryCollection: string := "time-entry"
  const ProjectField: string := "project"

  /** How many project names a completion scan reads, and how many task names. */
  const ProjectsLimit: nat := 100
  const TasksLimit: nat := 10

  /** Time of day of EndOfDay: 23:59:59 and 999 nanoseconds (not 999,999,999). */
  const EndOfDayTime: int := 86_399_000_000_999

  /** `StartOfDay`: t's date at 00:00:00.0. */
  function StartOfDay(t: int): (r: int)
    ensures Day(r) == Day(t) && TimeOfDay(r) == 0
    ensures r <= t
  {
    MidnightOfDay(Day(t));
    Midnight(Day(t))
  }

  /** `EndOfDay`: t's date at 23:59:59 plus 999 ns. */
  function EndOfDay(t: int): (r: int)
    ensures Day(r) == Day(t) && TimeOfDay(r) == EndOfDayTime
    ensures StartOfDay(t) < r
  {
    DayAndTime(Midnight(Day(t)) + EndOfDayTime, Day(t), EndOfDayTime);
    Midnight(Day(t)) + EndOfDayTime
  }

  /**
   * The day window [StartOfDay(t), EndOfDay(t)] holds exactly the instants of t's date
   * up to 23:59:59.000000999: the rest of the day's last second is outside it.
   */
  lemma DayWindow(t: int, u: int)
    ensures StartOfDay(t) <= u <= EndOfDay(t) <==> Day(u) == Day(t) && TimeOfDay(u) <= EndOfDayTime
  {
    DayAndTime(u, Day(u), TimeOfDay(u));
  }

  /** The shapes of query the callers build over the time-entry collection. */
  datatype Criteria =
    | All
    | StartAtLeast(from: int)
    | StartAtMost(to: int)
    | StartBetween(lo: int, hi: int)
    | ProjectIs(project: string)

  predicate Matches(c: Criteria, e: TimeEntry) {
    match c
    case All => true
    case StartAtLeast(from) => e.start >= from
    case StartAtMost(to) => e.start <= to
    case StartBetween(lo, hi) => lo <= e.start <= hi
    case ProjectIs(p) => e.project == p
  }

  /** A query: a filter, an optional newest-first sort on start, an optional limit. */
  datatype Query = Query(criteria: Criteria, newestFirst: bool, limit: Option<nat>)

  /** The records matching c, in stored order. */
  function Select(s: seq<TimeEntry>, c: Criteria): (r: seq<TimeEntry>)
    ensures |r| <= |s|
    ensures forall x :: x in r <==> x in s && Matches(c, x)
  {
    if s == [] then []
    else if Matches(c, s[0]) then [s[0]] + Select(s[1..], c)
    else Select(s[1..], c)
  }

  /** idx lists, in increasing order, the positions in s from which t's elements come. */
  predicate SubsequenceVia(t: seq<TimeEntry>, s: seq<TimeEntry>, idx: seq<int>) {
    && |idx| == |t|
    && (forall i :: 0 <= i < |idx| ==> 0 <= idx[i] < |s| && s[idx[i]] == t[i])
    && (forall i, j :: 0 <= i < j < |idx| ==> idx[i] < idx[j])
  }

  /** A subsequence of s[1..] is, one position further on, a subsequence of s, with or without s[0] in front. */
  lemma SubsequenceOfTail(t: seq<TimeEntry>, s: seq<TimeEntry>, idx: seq<int>)
    requires s != [] && SubsequenceVia(t, s[1..], idx)
    ensures SubsequenceVia(t, s, Shifted(idx))
    ensures SubsequenceVia([s[0]] + t, s, [0] + Shifted(idx))
  {
    var shifted := Shifted(idx);
    forall i | 0 <= i < |idx| ensures s[shifted[i]] == t[i] {
      assert s[shifted[i]] == s[1..][idx[i]];
    }
    var t' := [s[0]] + t;
    var idx' := [0] + shifted;
    forall i | 0 <= i < |idx'| ensures 0 <= idx'[i] < |s| && s[idx'[i]] == t'[i] {
      if i > 0 {
        assert idx'[i] == shifted[i - 1] && t'[i] == t[i - 1];
      }
    }
  }

  /** A subsequence of all but the last element of s is one of s, with or without that last element after it. */
  lemma SubsequenceOfInit(t: seq<TimeEntry>, s: seq<TimeEntry>, idx: seq<int>)
    requires s != [] && SubsequenceVia(t, s[..|s| - 1], idx)
    ensures SubsequenceVia(t, s, idx)
    ensures SubsequenceVia(t + [s[|s| - 1]], s, idx + [|s| - 1])
  {
    var t' := t + [s[|s| - 1]];
    var idx' := idx + [|s| - 1];
    forall i | 0 <= i < |idx| ensures s[idx[i]] == t[i] {
      assert s[idx[i]] == s[..|s| - 1][idx[i]];
    }
    forall i | 0 <= i < |idx'| ensures 0 <= idx'[i] < |s| && s[idx'[i]] == t'[i] {
      if i < |idx| {
        assert idx'[i] == idx[i] && t'[i] == t[i];
      }
    }
  }

  /** Every position one further on. */
  function Shifted(idx: seq<int>): (r: seq<int>)
    ensures |r| == |idx| && forall i :: 0 <= i < |idx| ==> r[i] == idx[i] + 1
  {
    seq(|idx|, i requires 0 <= i < |idx| => idx[i] + 1)
  }

  /** Select keeps every matching record as often as it is stored and drops the rest. */
  lemma {:induction false} SelectCount(s: seq<TimeEntry>, c: Criteria)
    ensures forall x :: multiset(Select(s, c))[x] == if Matches(c, x) then multiset(s)[x] else 0
  {
    if s != [] {
      SelectCount(s[1..], c);
      assert s == [s[0]] + s[1..];
    }
  }

  /** Select keeps the stored order. */
  lemma {:induction false} SelectIsSubsequence(s: seq<TimeEntry>, c: Criteria)
    ensures exists idx :: SubsequenceVia(Select(s, c), s, idx)
  {
    if s == [] {
      assert Select(s, c) == [];
      assert SubsequenceVia([], s, []);
    } else {
      SelectIsSubsequence(s[1..], c);
      var idx :| SubsequenceVia(Select(s[1..], c), s[1..], idx);
      SubsequenceOfTail(Select(s[1..], c), s, idx);
      if Matches(c, s[0]) {
        assert SubsequenceVia(Select(s, c), s, [0] + Shifted(idx));
      } else {
        assert SubsequenceVia(Select(s, c), s, Shifted(idx));
      }
    }
  }

  lemma {:induction false} SelectAll(s: seq<TimeEntry>)
    ensures Select(s, All) == s
  {
    if s != [] {
      SelectAll(s[1..]);
      assert s == [s[0]] + s[1..];
    }
  }

  /** The first record Select returns is the first matching record in stored order. */
  lemma {:induction false} SelectHead(s: seq<TimeEntry>, c: Criteria)
    requires Select(s, c) != []
    ensures exists k :: 0 <= k < |s| && s[k] == Select(s, c)[0] && forall j :: 0 <= j < k ==> !Matches(c, s[j])
  {
    if !Matches(c, s[0]) {
      SelectHead(s[1..], c);
      var k :| 0 <= k < |s[1..]| && s[1..][k] == Select(s[1..], c)[0]
        && forall j :: 0 <= j < k ==> !Matches(c, s[1..][j]);
      assert s[k + 1] == Select(s, c)[0];
      forall j | 0 <= j < k + 1 ensures !Matches(c, s[j]) {
        if j > 0 {
          assert s[j] == s[1..][j - 1];
        }
      }
    }
  }

  /** At most limit records from the front of s; all of s without a limit. */
  function Take(s: seq<TimeEntry>, limit: Option<nat>): (r: seq<TimeEntry>)
    ensures |r| <= |s| && r == s[..|r|]
    ensures limit.Some? ==> |r| == if limit.value < |s| then limit.value else |s|
    ensures limit == None ==> r == s
  {
    if limit.Some? && limit.value < |s| then s[..limit.value] else s
  }

  /** Every record of a prefix is a record of the whole. */
  lemma PrefixMembers(s: seq<TimeEntry>, n: nat)
    requires n <= |s|
    ensures forall x :: x in s[..n] ==> x in s
  {
    forall x | x in s[..n] ensures x in s {
      var i :| 0 <= i < n && s[..n][i] == x;
      assert s[i] == x;
    }
  }

  /** What the database returns for q. */
  function QueryResult(s: seq<TimeEntry>, q: Query): seq<TimeEntry> {
    var selected := Select(s, q.criteria);
    Take(if q.newestFirst then SortByStart(selected, true) else selected, q.limit)
  }

  /** Every answer is a stored matching record; nothing is lost without a limit; order is kept or sorted. */
  lemma QueryResultSound(s: seq<TimeEntry>, q: Query)
    ensures forall x :: x in QueryResult(s, q) ==> x in s && Matches(q.criteria, x)
    ensures |QueryResult(s, q)| <= |Select(s, q.criteria)|
    ensures q.limit.Some? ==> |QueryResult(s, q)| <= q.limit.value
    ensures q.limit == None && !q.newestFirst ==> QueryResult(s, q) == Select(s, q.criteria)
    ensures q.limit == None ==> multiset(QueryResult(s, q)) == multiset(Select(s, q.criteria))
    ensures q.newestFirst ==> SortedByStart(QueryResult(s, q), true)
  {
    var selected := Select(s, q.criteria);
    var ordered := if q.newestFirst then SortByStart(selected, true) else selected;
    var r := Take(ordered, q.limit);
    assert multiset(ordered) == multiset(selected);
    PrefixMembers(ordered, |r|);
    forall x | x in r ensures x in s && Matches(q.criteria, x) {
      assert x in multiset(ordered);
    }
  }

  /** `DeleteTimeEntry(id)`: every record with that id goes, the others stay in order. */
  function RemoveById(s: seq<TimeEntry>, id: string): (r: seq<TimeEntry>)
    ensures |r| <= |s|
    ensures forall x :: x in r <==> x in s && x.id != id
  {
    if s == [] then []
    else if s[0].id == id then RemoveById(s[1..], id)
    else [s[0]] + RemoveById(s[1..], id)
  }

  lemma {:induction false} RemoveByIdAbsent(s: seq<TimeEntry>, id: string)
    requires forall i :: 0 <= i < |s| ==> s[i].id != id
    ensures RemoveById(s, id) == s
  {
    if s != [] {
      RemoveByIdAbsent(s[1..], id);
      assert s == [s[0]] + s[1..];
    }
  }

  /** Deleting keeps every other record as often as it is stored. */
  lemma {:induction false} RemoveByIdCount(s: seq<TimeEntry>, id: string)
    ensures forall x :: multiset(RemoveById(s, id))[x] == if x.id == id then 0 else multiset(s)[x]
  {
    if s != [] {
      RemoveByIdCount(s[1..], id);
      assert s == [s[0]] + s[1..];
    }
  }

  /** Deleting keeps the other records in stored order. */
  lemma {:induction false} RemoveByIdIsSubsequence(s: seq<TimeEntry>, id: string)
    ensures exists idx :: SubsequenceVia(RemoveById(s, id), s, idx)
  {
    if s == [] {
      assert RemoveById(s, id) == [];
      assert SubsequenceVia([], s, []);
    } else {
      RemoveByIdIsSubsequence(s[1..], id);
      var idx :| SubsequenceVia(RemoveById(s[1..], id), s[1..], idx);
      SubsequenceOfTail(RemoveById(s[1..], id), s, idx);
      if s[0].id == id {
        assert SubsequenceVia(RemoveById(s, id), s, Shifted(idx));
      } else {
        assert SubsequenceVia(RemoveById(s, id), s, [0] + Shifted(idx));
      }
    }
  }

  /** Deleting the same id a second time changes nothing. */
  lemma RemoveByIdIdempotent(s: seq<TimeEntry>, id: string)
    ensures RemoveById(RemoveById(s, id), id) == RemoveById(s, id)
  {
    var r := RemoveById(s, id);
    forall i | 0 <= i < |r| ensures r[i].id != id {
      assert r[i] in r;
    }
    RemoveByIdAbsent(r, id);
  }

  /** `UpdateTimeEntry(e)`: every record with e's id is replaced by e. */
  function ReplaceById(s: seq<TimeEntry>, e: TimeEntry): (r: seq<TimeEntry>)
    ensures |r| == |s|
    ensures forall i :: 0 <= i < |s| ==> r[i] == (if s[i].id == e.id then e else s[i])
  {
    if s == [] then []
    else [if s[0].id == e.id then e else s[0]] + ReplaceById(s[1..], e)
  }

  class Store {
    /** Names of the collections that exist in the database. */
    var collections: set<string>
    /** (collection, field) pairs that carry an index. */
    var indexes: set<(string, string)>
    /** The records of the current-time-entry collection. */
    var current: seq<CurrentTimeEntry>
    /** The records of the time-entry collection. */
    var entries: seq<TimeEntry>

    /** A collection that does not exist holds no records; an index belongs to an existing collection. */
    predicate Valid()
      reads this
    {
      && (TimeEntryCollection !in collections ==> entries == [])
      && (CurrentTimeEntryCollection !in collections ==> current == [])
      && (forall ix | ix in indexes :: ix.0 in collections)
    }

    /** The schema that NewStore sets up is in place. */
    predicate Ready()
      reads this
    {
      && Valid()
      && TimeEntryCollection in collections
      && CurrentTimeEntryCollection in collections
      && (TimeEntryCollection, ProjectField) in indexes
    }

    /**
     * `NewStore(db)`: opens a database whose state is given and runs the schema steps.
     * The home-directory set-up of the older revision is not part of this model.
     */
    constructor NewStore(collections0: set<string>, indexes0: set<(string, string)>,
                         current0: seq<CurrentTimeEntry>, entries0: seq<TimeEntry>)
      requires TimeEntryCollection !in collections0 ==> entries0 == []
      requires CurrentTimeEntryCollection !in collections0 ==> current0 == []
      requires forall ix | ix in indexes0 :: ix.0 in collections0
      ensures Ready()
      ensures current == current0 && entries == entries0
      ensures collections == collections0 + {TimeEntryCollection, CurrentTimeEntryCollection}
      ensures indexes == indexes0 + {(TimeEntryCollection, ProjectField)}
    {
      collections, indexes := collections0, indexes0;
      current, entries := current0, entries0;
      new;
      Migrate();
    }

    /** `Migrate`: creates what is missing of the schema and nothing else. */
    method Migrate()
      requires Valid()
      modifies this`collections, this`indexes
      ensures Ready()
      ensures collections == old(collections) + {TimeEntryCollection, CurrentTimeEntryCollection}
      ensures indexes == old(indexes) + {(TimeEntryCollection, ProjectField)}
      ensures old(Ready()) ==> collections == old(collections) && indexes == old(indexes)
    {
      CreateTimeEntryCollectionIfNotExists();
      CreateCurrentTimeEntryCollectionIfNotExists();
    }

    method CreateTimeEntryCollectionIfNotExists()
      requires Valid()
      modifies this`collections, this`indexes
      ensures Valid()
      ensures collections == old(collections) + {TimeEntryCollection}
      ensures indexes == old(indexes) + {(TimeEntryCollection, ProjectField)}
    {
      if TimeEntryCollection !in collections {
        collections := collections + {TimeEntryCollection};
      }
      if (TimeEntryCollection, ProjectField) !in indexes {
        indexes := indexes + {(TimeEntryCollection, ProjectField)};
      }
    }

    method CreateCurrentTimeEntryCollectionIfNotExists()
      requires Valid()
      modifies this`collections
      ensures Valid()
      ensures collections == old(collections) + {CurrentTimeEntryCollection}
    {
      if CurrentTimeEntryCollection !in collections {
        collections := collections + {CurrentTimeEntryCollection};
      }
    }

    /** `InsertCurrentTimeEntry`: no check that the collection was empty. */
    method InsertCurrentTimeEntry(e: CurrentTimeEntry)
      requires Ready()
      modifies this`current
      ensures Ready()
      ensures current == old(current) + [e]
    {
      current := current + [e];
    }

    /** `DeleteCurrentTimeEntry`: removes every current entry, however many there are. */
    method DeleteCurrentTimeEntry()
      requires Ready()
      modifies this`current
      ensures Ready()
      ensures current == []
    {
      current := [];
    }

    method InsertTimeEntry(e: TimeEntry)
      requires Ready()
      modifies this`entries
      ensures Ready()
      ensures entries == old(entries) + [e]
    {
      entries := entries + [e];
    }

    /** `GetCurrentTimeEntry`: nil exactly when there is no current entry, else the first. */
    method GetCurrentTimeEntry() returns (r: Option<CurrentTimeEntry>)
      requires Ready()
      ensures r == None <==> current == []
      ensures r.Some? ==> r.value == current[0]
    {
      if |current| == 0 {
        r := None;
      } else {
        r := Some(current[0]);
      }
    }

    /** `GetTimeEntries`: one entry per stored record, fields and order preserved. */
    method GetTimeEntries() returns (r: seq<TimeEntry>)
      requires Ready()
      ensures r == entries
    {
      var docs := entries;
      var a := new TimeEntry[|docs|];
      var i := 0;
      while i < |docs|
        invariant 0 <= i <= |docs| == a.Length
        invariant a[..i] == docs[..i]
      {
        a[i] := docs[i];
        i := i + 1;
      }
      r := a[..];
    }

    /** `GetTimeEntriesQuery`: the records the query selects. */
    method GetTimeEntriesQuery(q: Query) returns (r: seq<TimeEntry>)
      requires Ready()
      ensures r == QueryResult(entries, q)
    {
      r := QueryResult(entries, q);
    }

    /**
     * `GetTimeEntryForToday`: the first stored entry that starts inside today's window.
     * The source indexes the result without a length check, so such an entry must exist.
     */
    method GetTimeEntryForToday(now: int) returns (r: TimeEntry)
      requires Ready()
      requires Select(entries, StartBetween(StartOfDay(now), EndOfDay(now))) != []
      ensures r in entries && StartOfDay(now) <= r.start <= EndOfDay(now)
      ensures exists k :: (0 <= k < |entries| && entries[k] == r &&
                            forall j :: 0 <= j < k ==> !(StartOfDay(now) <= entries[j].start <= EndOfDay(now)))
    {
      var window := StartBetween(StartOfDay(now), EndOfDay(now));
      var docs := Select(entries, window);
      r := docs[0];
      assert r in docs;
      SelectHead(entries, window);
    }

    /** `GetProjects`: the project of each of the first 100 records, not deduplicated. */
    method GetProjects() returns (r: seq<string>)
      requires Ready()
      ensures |r| == if |entries| < ProjectsLimit then |entries| else ProjectsLimit
      ensures forall i :: 0 <= i < |r| ==> r[i] == entries[i].project
    {
      var docs := Take(entries, Some(ProjectsLimit));
      var a := new string[|docs|];
      var i := 0;
      while i < |docs|
        invariant 0 <= i <= |docs| == a.Length
        invariant forall k :: 0 <= k < i ==> a[k] == docs[k].project
      {
        a[i] := docs[i].project;
        i := i + 1;
      }
      r := a[..];
    }

    /** `GetTasks`: the task of each of the first 10 records whose project is the argument. */
    method GetTasks(project: string) returns (r: seq<string>)
      requires Ready()
      ensures |r| <= TasksLimit
      ensures |r| == |Take(Select(entries, ProjectIs(project)), Some(TasksLimit))|
      ensures forall i :: 0 <= i < |r| ==> r[i] == Select(entries, ProjectIs(project))[i].task
      ensures forall i :: 0 <= i < |r| ==> exists e :: e in entries && e.project == project && e.task == r[i]
    {
      var matching := Select(entries, ProjectIs(project));
      var docs := Take(matching, Some(TasksLimit));
      var a := new string[|docs|];
      var i := 0;
      while i < |docs|
        invariant 0 <= i <= |docs| == a.Length
        invariant forall k :: 0 <= k < i ==> a[k] == docs[k].task
      {
        a[i] := docs[i].task;
        i := i + 1;
      }
      r := a[..];
      forall i | 0 <= i < |r| ensures exists e :: e in entries && e.project == project && e.task == r[i] {
        assert matching[i] in matching;
      }
    }

    /** `UpdateTimeEntry`: full-record replace of the records with the entry's id. */
    method UpdateTimeEntry(e: TimeEntry)
      requires Ready()
      modifies this`entries
      ensures Ready()
      ensures entries == ReplaceById(old(entries), e)
    {
      entries := ReplaceById(entries, e);
    }

    /** `DeleteTimeEntry`: removes the records with that id; no error when there are none. */
    method DeleteTimeEntry(id: string)
      requires Ready()
      modifies this`entries
      ensures Ready()
      ensures entries == RemoveById(old(entries), id)
    {
      entries := RemoveById(entries, id);
    }
  }
}
