/**
 * The list action of cli/main.go: all entries sorted by start, then `filterEntries`
 * with the --from/--to dates and with today's window.
 */
module ListFilter {
  import opened Wrappers
  import opened Clock
  import opened Records
  import opened Ordering
  import opened EntryStore

  /** `filterEntries` keeps an entry when from < start < to + 24h, strictly at both ends. */
  predicate InWindow(e: TimeEntry, from: int, to: int) {
    from < e.start && e.start < to + NsPerDay
  }

  /** The entries in the window, in input order. */
  function Filtered(s: seq<TimeEntry>, from: int, to: int): (r: seq<TimeEntry>)
    ensures |r| <= |s|
    ensures forall x :: x in r <==> x in s && InWindow(x, from, to)
  {
    if s == [] then []
    else
      assert s == s[..|s| - 1] + [s[|s| - 1]];
      Filtered(s[..|s| - 1], from, to) + (if InWindow(s[|s| - 1], from, to) then [s[|s| - 1]] else [])
  }

  /** `filterEntries`. */
  method FilterEntries(entries: seq<TimeEntry>, from: int, to: int) returns (filtered: seq<TimeEntry>)
    ensures filtered == Filtered(entries, from, to)
    ensures forall x :: x in filtered <==> x in entries && InWindow(x, from, to)
  {
    filtered := [];
    var toUpper := to + NsPerDay;
    for i := 0 to |entries|
      invariant filtered == Filtered(entries[..i], from, to)
    {
      assert entries[..i + 1][..i] == entries[..i];
      if from < entries[i].start && entries[i].start < toUpper {
        filtered := filtered + [entries[i]];
      }
    }
    assert entries[..|entries|] == entries;
  }

  /** Each entry in the window is kept as often as it occurs; the others are dropped. */
  lemma {:induction false} FilteredCount(s: seq<TimeEntry>, from: int, to: int)
    ensures forall x :: multiset(Filtered(s, from, to))[x] == if InWindow(x, from, to) then multiset(s)[x] else 0
  {
    if s != [] {
      FilteredCount(s[..|s| - 1], from, to);
      assert s == s[..|s| - 1] + [s[|s| - 1]];
    }
  }

  /** The result keeps entries of the input in their input order. */
  lemma {:induction false} FilteredIsSubsequence(s: seq<TimeEntry>, from: int, to: int)
    ensures exists idx :: SubsequenceVia(Filtered(s, from, to), s, idx)
  {
    if s == [] {
      assert Filtered(s, from, to) == [];
      assert SubsequenceVia([], s, []);
    } else {
      var init := s[..|s| - 1];
      FilteredIsSubsequence(init, from, to);
      var idx :| SubsequenceVia(Filtered(init, from, to), init, idx);
      SubsequenceOfInit(Filtered(init, from, to), s, idx);
      if InWindow(s[|s| - 1], from, to) {
        assert Filtered(s, from, to) == Filtered(init, from, to) + [s[|s| - 1]];
        assert SubsequenceVia(Filtered(s, from, to), s, idx + [|s| - 1]);
      } else {
        assert Filtered(s, from, to) == Filtered(init, from, to) + [];
        assert SubsequenceVia(Filtered(s, from, to), s, idx);
      }
    }
  }

  /** Filtering again with the same dates changes nothing. */
  lemma {:induction false} FilteredIdempotent(s: seq<TimeEntry>, from: int, to: int)
    ensures Filtered(Filtered(s, from, to), from, to) == Filtered(s, from, to)
  {
    if s != [] {
      var init := s[..|s| - 1];
      FilteredIdempotent(init, from, to);
      var f := Filtered(s, from, to);
      if InWindow(s[|s| - 1], from, to) {
        assert f == Filtered(init, from, to) + [s[|s| - 1]];
        assert f[..|f| - 1] == Filtered(init, from, to);
        assert f[|f| - 1] == s[|s| - 1];
        assert Filtered(f, from, to) == Filtered(f[..|f| - 1], from, to) + [f[|f| - 1]];
      } else {
        assert f == Filtered(init, from, to) + [];
        assert f == Filtered(init, from, to);
      }
    }
  }

  /** Filtering keeps a sorted input sorted. */
  lemma {:induction false} FilteredSorted(s: seq<TimeEntry>, from: int, to: int)
    requires SortedByStart(s, false)
    ensures SortedByStart(Filtered(s, from, to), false)
  {
    if s != [] {
      var init := s[..|s| - 1];
      assert SortedByStart(init, false);
      FilteredSorted(init, from, to);
      var f := Filtered(init, from, to);
      if InWindow(s[|s| - 1], from, to) {
        forall i | 0 <= i < |f| ensures Precedes(f[i], s[|s| - 1], false) {
          assert f[i] in init;
          var k :| 0 <= k < |init| && init[k] == f[i];
          assert s[k] == f[i];
        }
      }
    }
  }

  /**
   * With --today the window is (StartOfDay(now), EndOfDay(now) + 24h): an entry starting
   * exactly at midnight is dropped, and one starting on the next day before its
   * 23:59:59.000000999 is kept.
   */
  lemma TodayWindow(now: int, e: TimeEntry)
    ensures InWindow(e, StartOfDay(now), EndOfDay(now)) <==>
      (Day(e.start) == Day(now) && TimeOfDay(e.start) > 0)
      || (Day(e.start) == Day(now) + 1 && TimeOfDay(e.start) < EndOfDayTime)
  {
    var d := Day(now);
    DayAndTime(e.start, Day(e.start), TimeOfDay(e.start));
    assert StartOfDay(now) == d * NsPerDay;
    assert EndOfDay(now) + NsPerDay == (d + 1) * NsPerDay + EndOfDayTime;
  }

  /** Whether the list action shows e: inside the --from/--to window when given, and inside today's window with --today. */
  predicate Listed(e: TimeEntry, fromTo: Option<(int, int)>, today: bool, now: int) {
    && (fromTo.Some? ==> InWindow(e, fromTo.value.0, fromTo.value.1))
    && (today ==> InWindow(e, StartOfDay(now), EndOfDay(now)))
  }

  /** The list action of cli/main.go: sorted by start, then the optional date filter, then the optional today filter. */
  method ListAction(store: Store, fromTo: Option<(int, int)>, today: bool, now: int)
    returns (entries: seq<TimeEntry>)
    requires store.Ready()
    ensures SortedByStart(entries, false)
    ensures forall x :: x in entries <==> x in store.entries && Listed(x, fromTo, today, now)
    ensures forall x :: multiset(entries)[x] == if Listed(x, fromTo, today, now) then multiset(store.entries)[x] else 0
  {
    var all := store.GetTimeEntries();
    entries := SortByStart(all, false);
    assert forall x :: x in entries <==> x in multiset(all);
    if fromTo.Some? {
      FilteredSorted(entries, fromTo.value.0, fromTo.value.1);
      FilteredCount(entries, fromTo.value.0, fromTo.value.1);
      entries := FilterEntries(entries, fromTo.value.0, fromTo.value.1);
    }
    if today {
      FilteredSorted(entries, StartOfDay(now), EndOfDay(now));
      FilteredCount(entries, StartOfDay(now), EndOfDay(now));
      entries := FilterEntries(entries, StartOfDay(now), EndOfDay(now));
    }
  }
}
