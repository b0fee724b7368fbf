/**
 * The Clockify commands of cli/clockify.go: the week and day windows of the upload
 * commands and the per-entry decision of the upload loop. The remote API is not called in
 * the model; a Create action stands for the `PostNewTimeEntry` request the source sends.
 */
module ClockifyCommand {
  import opened Wrappers
  import opened Clock
  import opened Records
  import opened EntryStore
  import opened Clockify

  /** Time of day of endOfWeek: 23:59:59 with 0 nanoseconds. */
  const EndOfWeekTime: int := 86_399_000_000_000

  function DaysSinceMonday(d: int): (n: int)
    ensures 0 <= n < 7
  {
    (Weekday(d) + 6) % 7
  }

  function DaysUntilSunday(d: int): (n: int)
    ensures 0 <= n < 7
  {
    (7 - Weekday(d)) % 7
  }

  /** The day startOfWeek lands on: the Monday on or before d. */
  function WeekStartDay(d: int): int { d - DaysSinceMonday(d) }

  /** The day endOfWeek lands on: the Sunday on or after d. */
  function WeekEndDay(d: int): int { d + DaysUntilSunday(d) }

  lemma WeekStartDayIsMonday(d: int)
    ensures Weekday(WeekStartDay(d)) == Monday
    ensures d - 6 <= WeekStartDay(d) <= d
  {
  }

  lemma WeekEndDayIsSunday(d: int)
    ensures Weekday(WeekEndDay(d)) == Sunday
    ensures d <= WeekEndDay(d) <= d + 6
  {
  }

  /** The week the upload covers runs from a Monday to the Sunday six days later. */
  lemma WeekSpansSixDays(d: int)
    ensures WeekEndDay(d) == WeekStartDay(d) + 6
  {
  }

  /** Going back to Monday from a Monday goes nowhere. */
  lemma WeekStartDayIdempotent(d: int)
    ensures WeekStartDay(WeekStartDay(d)) == WeekStartDay(d)
  {
    WeekStartDayIsMonday(d);
  }

  /** A step back from a day other than Monday stays in the same week and nears Monday. */
  lemma WeekStartStep(d: int)
    requires Weekday(d) != Monday
    ensures WeekStartDay(d - 1) == WeekStartDay(d) && DaysSinceMonday(d - 1) < DaysSinceMonday(d)
  {
    WeekdayPrevious(d);
  }

  /** A step forward from a day other than Sunday stays in the same week and nears Sunday. */
  lemma WeekEndStep(d: int)
    requires Weekday(d) != Sunday
    ensures WeekEndDay(d + 1) == WeekEndDay(d) && DaysUntilSunday(d + 1) < DaysUntilSunday(d)
  {
    WeekdayNext(d);
  }

  /** `startOfWeek`: one day back at a time until Monday, then that date at 00:00:00. */
  method StartOfWeek(t: int) returns (r: int)
    ensures r == Midnight(WeekStartDay(Day(t)))
    ensures Weekday(Day(r)) == Monday && TimeOfDay(r) == 0
    ensures Day(t) - 6 <= Day(r) <= Day(t)
  {
    var u := t;
    while Weekday(Day(u)) != Monday
      invariant WeekStartDay(Day(u)) == WeekStartDay(Day(t))
      decreases DaysSinceMonday(Day(u))
    {
      AddDaysShiftsDay(u, -1);
      WeekStartStep(Day(u));
      u := AddDays(u, -1);
    }
    r := Midnight(Day(u));
    MidnightOfDay(Day(u));
    WeekStartDayIsMonday(Day(t));
  }

  /** `endOfWeek`: one day forward at a time until Sunday, then that date at 23:59:59. */
  method EndOfWeek(t: int) returns (r: int)
    ensures r == Midnight(WeekEndDay(Day(t))) + EndOfWeekTime
    ensures Weekday(Day(r)) == Sunday && TimeOfDay(r) == EndOfWeekTime
    ensures Day(t) <= Day(r) <= Day(t) + 6
  {
    var u := t;
    while Weekday(Day(u)) != Sunday
      invariant WeekEndDay(Day(u)) == WeekEndDay(Day(t))
      decreases DaysUntilSunday(Day(u))
    {
      AddDaysShiftsDay(u, 1);
      WeekEndStep(Day(u));
      u := AddDays(u, 1);
    }
    r := Midnight(Day(u)) + EndOfWeekTime;
    DayAndTime(r, Day(u), EndOfWeekTime);
    WeekEndDayIsSunday(Day(t));
  }

  /** The window of `upload-last-week`: the week of the instant seven days ago. */
  method LastWeekWindow(now: int) returns (lo: int, hi: int)
    ensures Weekday(Day(lo)) == Monday && TimeOfDay(lo) == 0
    ensures Day(hi) == Day(lo) + 6 && TimeOfDay(hi) == EndOfWeekTime
    ensures Day(now) - 13 <= Day(lo) <= Day(now) - 7
  {
    var lastWeek := AddDays(now, -7);
    AddDaysShiftsDay(now, -7);
    lo := StartOfWeek(lastWeek);
    hi := EndOfWeek(lastWeek);
    WeekSpansSixDays(Day(lastWeek));
    MidnightOfDay(WeekStartDay(Day(lastWeek)));
  }

  /** The window of `upload-today`: today's midnight and the next midnight. */
  function TodayWindow(now: int): (w: (int, int))
    ensures Day(w.0) == Day(now) && TimeOfDay(w.0) == 0
    ensures w.1 == AddDays(w.0, 1) && w.0 <= now < w.1
  {
    var lo := Midnight(Day(now));
    MidnightOfDay(Day(now));
    DayAndTime(now, Day(now), TimeOfDay(now));
    (lo, AddDays(lo, 1))
  }

  /**
   * Both ends of the upload-today window are inclusive: an entry is uploaded when it
   * starts today or exactly at the next midnight.
   */
  lemma TodayWindowSelects(now: int, e: TimeEntry)
    ensures Matches(StartBetween(TodayWindow(now).0, TodayWindow(now).1), e) <==>
            Day(e.start) == Day(now) || e.start == Midnight(Day(now) + 1)
  {
    DayAndTime(e.start, Day(e.start), TimeOfDay(e.start));
  }

  /** What the upload loop does with one entry. */
  datatype SyncAction =
    | Create(entry: TimeEntry, config: ClockifyConfig)
    | Update(entry: TimeEntry)
    | Delete(entry: TimeEntry)

  /**
   * No tracking record: create remotely (the returned id and error are dropped, so no
   * tracking record is ever written). A record flagged deleted: the delete branch. Any
   * other record: the update branch. The last two only print.
   */
  function Decide(e: TimeEntry, tracked: Option<ClockifyTimeEntry>, config: ClockifyConfig): (a: SyncAction)
    ensures a.entry == e
    ensures a.Create? <==> tracked == None
    ensures a.Create? ==> a.config == config
    ensures a.Delete? <==> tracked.Some? && tracked.value.deleted
  {
    match tracked
    case None => Create(e, config)
    case Some(t) => if t.deleted then Delete(e) else Update(e)
  }

  /** Among the lookups 0 .. count - 1, the index of the first that fails, or count when none does. */
  function FirstFault(count: nat, lookupFault: nat -> Option<Error>): (n: nat)
    ensures n <= count
    ensures forall j :: 0 <= j < n ==> lookupFault(j) == None
    ensures n < count ==> lookupFault(n).Some?
  {
    if count == 0 then 0
    else
      var n := FirstFault(count - 1, lookupFault);
      if n < count - 1 || lookupFault(count - 1).Some? then n else count
  }

  /**
   * `uploadTimeEntry(start, end)`: over the entries starting in [start, end], looks up the
   * config and then each entry's tracking record, stopping at the first failed lookup and
   * returning its error. `lookupFault(i)` is the failure, if any, of the lookup for the
   * i-th entry of the query result. Neither store changes.
   */
  method UploadTimeEntry(store: Store, cstore: ClockifyStore, start: int, end: int,
                         configFault: Option<Error>, lookupFault: nat -> Option<Error>)
    returns (err: Option<Error>, actions: seq<SyncAction>)
    requires store.Ready() && cstore.Ready()
    requires configFault == None ==> cstore.configs != []
    ensures var entries := Select(store.entries, StartBetween(start, end));
      if configFault.Some? then err == configFault && actions == []
      else
        var n := FirstFault(|entries|, lookupFault);
        && err == (if n < |entries| then lookupFault(n) else None)
        && |actions| == n
        && forall i :: 0 <= i < n ==>
             actions[i] == Decide(entries[i], FirstTracking(cstore.tracking, entries[i].id), cstore.configs[0])
  {
    var entries := store.GetTimeEntriesQuery(Query(StartBetween(start, end), false, None));
    QueryResultSound(store.entries, Query(StartBetween(start, end), false, None));
    var config := cstore.GetClockifyConfig(configFault);
    if config.Err? {
      return Some(config.error), [];
    }
    ghost var n := FirstFault(|entries|, lookupFault);
    actions := [];
    var i := 0;
    while i < |entries|
      invariant 0 <= i <= |entries|
      invariant forall j :: 0 <= j < i ==> lookupFault(j) == None
      invariant |actions| == i
      invariant forall j :: 0 <= j < i ==>
        actions[j] == Decide(entries[j], FirstTracking(cstore.tracking, entries[j].id), config.value)
    {
      var tracked := cstore.GetClockifyTimeEntry(entries[i], lookupFault(i));
      if tracked.Err? {
        assert n == i;
        return Some(tracked.error), actions;
      }
      actions := actions + [Decide(entries[i], tracked.value, config.value)];
      i := i + 1;
    }
    assert n == |entries|;
    err := None;
  }
}
