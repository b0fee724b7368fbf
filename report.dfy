/**
 * The arithmetic of the report command (cli/report.go): totals, per-day and per-project
 * sums and groups, the duration text, the working-day count and the summary counts.
 * A day key is the day number of an entry's start (Clock); `time.Duration` is an int64,
 * whose overflow the model does not follow.
 */
module Report {
  import opened Wrappers
  import opened Clock
  import opened Text
  import opened Records
  import opened Ordering

  /** The `YYYY-MM-DD` key of an entry, as a day number. */
  function DayKey(e: TimeEntry): int { Day(e.start) }

  function ProjectKey(e: TimeEntry): string { e.project }

  /** The sum of End - Start over the entries. */
  function TotalOf(s: seq<TimeEntry>): int {
    if s == [] then 0 else TotalOf(s[..|s| - 1]) + Duration(s[|s| - 1])
  }

  /** The entries whose key is k, in input order. */
  function SelectKey<K(==)>(s: seq<TimeEntry>, key: TimeEntry -> K, k: K): seq<TimeEntry> {
    if s == [] then []
    else SelectKey(s[..|s| - 1], key, k) + (if key(s[|s| - 1]) == k then [s[|s| - 1]] else [])
  }

  function KeysOf<K(==)>(s: seq<TimeEntry>, key: TimeEntry -> K): set<K> {
    set i | 0 <= i < |s| :: key(s[i])
  }

  /** The per-key totals: each entry's duration is added to the total of its key. */
  function HoursBy<K(==)>(s: seq<TimeEntry>, key: TimeEntry -> K): map<K, int> {
    if s == [] then map[]
    else
      var m := HoursBy(s[..|s| - 1], key);
      var k := key(s[|s| - 1]);
      m[k := (if k in m then m[k] else 0) + Duration(s[|s| - 1])]
  }

  /** The per-key groups: each entry is appended to the group of its key, in input order. */
  function GroupBy<K(==)>(s: seq<TimeEntry>, key: TimeEntry -> K): map<K, seq<TimeEntry>> {
    if s == [] then map[]
    else
      var m := GroupBy(s[..|s| - 1], key);
      var k := key(s[|s| - 1]);
      m[k := (if k in m then m[k] else []) + [s[|s| - 1]]]
  }

  lemma KeysOfAppend<K>(s: seq<TimeEntry>, key: TimeEntry -> K)
    requires s != []
    ensures KeysOf(s, key) == KeysOf(s[..|s| - 1], key) + {key(s[|s| - 1])}
  {
    var init := s[..|s| - 1];
    forall x | x in KeysOf(s, key) ensures x in KeysOf(init, key) + {key(s[|s| - 1])} {
      var i :| 0 <= i < |s| && key(s[i]) == x;
      if i < |s| - 1 {
        assert init[i] == s[i];
      }
    }
    forall x | x in KeysOf(init, key) ensures x in KeysOf(s, key) {
      var i :| 0 <= i < |init| && key(init[i]) == x;
      assert s[i] == init[i];
    }
  }

  /**
   * Each key of the per-key sums comes from some entry and every entry's key is there;
   * the value under a key is the total of exactly the entries with that key.
   */
  lemma {:induction false} HoursByMeaning<K>(s: seq<TimeEntry>, key: TimeEntry -> K)
    ensures HoursBy(s, key).Keys == KeysOf(s, key)
    ensures forall k :: k in HoursBy(s, key) ==> HoursBy(s, key)[k] == TotalOf(SelectKey(s, key, k))
  {
    if s != [] {
      var init := s[..|s| - 1];
      HoursByMeaning(init, key);
      KeysOfAppend(s, key);
      var last := s[|s| - 1];
      forall k | k in HoursBy(s, key) ensures HoursBy(s, key)[k] == TotalOf(SelectKey(s, key, k)) {
        var sel := SelectKey(s, key, k);
        if key(last) == k {
          assert sel[..|sel| - 1] == SelectKey(init, key, k);
          if k !in HoursBy(init, key) {
            EmptySelection(init, key, k);
          }
        } else {
          assert sel == SelectKey(init, key, k);
        }
      }
    }
  }

  /** No entry has a key outside KeysOf. */
  lemma {:induction false} EmptySelection<K>(s: seq<TimeEntry>, key: TimeEntry -> K, k: K)
    requires k !in KeysOf(s, key)
    ensures SelectKey(s, key, k) == []
  {
    if s != [] {
      KeysOfAppend(s, key);
      EmptySelection(s[..|s| - 1], key, k);
    }
  }

  /** Each group holds exactly the entries with its key, in input order. */
  lemma {:induction false} GroupByMeaning<K>(s: seq<TimeEntry>, key: TimeEntry -> K)
    ensures GroupBy(s, key).Keys == KeysOf(s, key)
    ensures forall k :: k in GroupBy(s, key) ==> GroupBy(s, key)[k] == SelectKey(s, key, k)
  {
    if s != [] {
      var init := s[..|s| - 1];
      GroupByMeaning(init, key);
      KeysOfAppend(s, key);
      forall k | k in GroupBy(s, key) ensures GroupBy(s, key)[k] == SelectKey(s, key, k) {
        if key(s[|s| - 1]) == k && k !in GroupBy(init, key) {
          EmptySelection(init, key, k);
        }
      }
    }
  }

  /** An entry is in the group of its own key and in no other. */
  lemma GroupsPartition<K>(s: seq<TimeEntry>, key: TimeEntry -> K, i: int, k: K)
    requires 0 <= i < |s|
    ensures key(s[i]) in GroupBy(s, key)
    ensures k in GroupBy(s, key) && s[i] in GroupBy(s, key)[k] ==> key(s[i]) == k
    ensures s[i] in GroupBy(s, key)[key(s[i])]
  {
    GroupByMeaning(s, key);
    SelectKeyMembers(s, key, key(s[i]));
    SelectKeyMembers(s, key, k);
    assert s[i] in s;
  }

  lemma {:induction false} SelectKeyMembers<K>(s: seq<TimeEntry>, key: TimeEntry -> K, k: K)
    ensures forall x :: x in SelectKey(s, key, k) <==> x in s && key(x) == k
  {
    if s != [] {
      SelectKeyMembers(s[..|s| - 1], key, k);
      assert s == s[..|s| - 1] + [s[|s| - 1]];
    }
  }

  /** The per-key sums and the groups agree: each sum is the total of its group. */
  lemma HoursMatchGroups<K>(s: seq<TimeEntry>, key: TimeEntry -> K, k: K)
    requires k in HoursBy(s, key)
    ensures k in GroupBy(s, key) && HoursBy(s, key)[k] == TotalOf(GroupBy(s, key)[k])
  {
    HoursByMeaning(s, key);
    GroupByMeaning(s, key);
  }

  /** The sum of the values of an int-valued map. */
  ghost function MapSum<K>(m: map<K, int>): int
    decreases |m|
  {
    if m == map[] then 0
    else
      var k :| k in m;
      m[k] + MapSum(m - {k})
  }

  /** MapSum does not depend on which key it picks first. */
  lemma {:induction false} MapSumRemove<K>(m: map<K, int>, k: K)
    requires k in m
    ensures MapSum(m) == m[k] + MapSum(m - {k})
    decreases |m|
  {
    var j :| j in m && MapSum(m) == m[j] + MapSum(m - {j});
    if j != k {
      var rest := m - {j};
      assert k in rest;
      MapSumRemove(rest, k);
      var both := m - {j} - {k};
      assert rest - {k} == both;
      var restK := m - {k};
      assert j in restK;
      MapSumRemove(restK, j);
      assert restK - {j} == both;
    }
  }

  lemma MapSumUpdate<K>(m: map<K, int>, k: K, d: int)
    ensures MapSum(m[k := (if k in m then m[k] else 0) + d]) == MapSum(m) + d
  {
    var m' := m[k := (if k in m then m[k] else 0) + d];
    MapSumRemove(m', k);
    if k in m {
      MapSumRemove(m, k);
      assert m' - {k} == m - {k};
    } else {
      assert m' - {k} == m;
    }
  }

  /** The per-key sums add up to the total duration. */
  lemma {:induction false} HoursBySumToTotal<K>(s: seq<TimeEntry>, key: TimeEntry -> K)
    ensures MapSum(HoursBy(s, key)) == TotalOf(s)
  {
    if s != [] {
      HoursBySumToTotal(s[..|s| - 1], key);
      MapSumUpdate(HoursBy(s[..|s| - 1], key), key(s[|s| - 1]), Duration(s[|s| - 1]));
    }
  }

  /** `calculateTotalDuration`. */
  method CalculateTotalDuration(entries: seq<TimeEntry>) returns (total: int)
    ensures total == TotalOf(entries)
  {
    total := 0;
    for i := 0 to |entries|
      invariant total == TotalOf(entries[..i])
    {
      assert entries[..i + 1][..i] == entries[..i];
      total := total + Duration(entries[i]);
    }
    assert entries[..|entries|] == entries;
  }

  /** `calculateHoursByDay`: keys are the days entries start on; values sum to the total. */
  method CalculateHoursByDay(entries: seq<TimeEntry>) returns (m: map<int, int>)
    ensures m == HoursBy(entries, DayKey)
    ensures m.Keys == KeysOf(entries, DayKey)
    ensures MapSum(m) == TotalOf(entries)
  {
    m := map[];
    for i := 0 to |entries|
      invariant m == HoursBy(entries[..i], DayKey)
    {
      assert entries[..i + 1][..i] == entries[..i];
      var day := DayKey(entries[i]);
      m := m[day := (if day in m then m[day] else 0) + Duration(entries[i])];
    }
    assert entries[..|entries|] == entries;
    HoursByMeaning(entries, DayKey);
    HoursBySumToTotal(entries, DayKey);
  }

  /** `calculateHoursByProject`: keys are exactly the projects present; values sum to the total. */
  method CalculateHoursByProject(entries: seq<TimeEntry>) returns (m: map<string, int>)
    ensures m == HoursBy(entries, ProjectKey)
    ensures m.Keys == KeysOf(entries, ProjectKey)
    ensures MapSum(m) == TotalOf(entries)
  {
    m := map[];
    for i := 0 to |entries|
      invariant m == HoursBy(entries[..i], ProjectKey)
    {
      assert entries[..i + 1][..i] == entries[..i];
      var project := entries[i].project;
      m := m[project := (if project in m then m[project] else 0) + Duration(entries[i])];
    }
    assert entries[..|entries|] == entries;
    HoursByMeaning(entries, ProjectKey);
    HoursBySumToTotal(entries, ProjectKey);
  }

  /** `groupEntriesByDay`: each day's group is that day's entries in input order. */
  method GroupEntriesByDay(entries: seq<TimeEntry>) returns (m: map<int, seq<TimeEntry>>)
    ensures m == GroupBy(entries, DayKey)
    ensures m.Keys == KeysOf(entries, DayKey)
    ensures forall k :: k in m ==> m[k] == SelectKey(entries, DayKey, k)
  {
    m := map[];
    for i := 0 to |entries|
      invariant m == GroupBy(entries[..i], DayKey)
    {
      assert entries[..i + 1][..i] == entries[..i];
      var day := DayKey(entries[i]);
      m := m[day := (if day in m then m[day] else []) + [entries[i]]];
    }
    assert entries[..|entries|] == entries;
    GroupByMeaning(entries, DayKey);
  }

  /** `groupEntriesByProject`: each project's group is its entries in input order. */
  method GroupEntriesByProject(entries: seq<TimeEntry>) returns (m: map<string, seq<TimeEntry>>)
    ensures m == GroupBy(entries, ProjectKey)
    ensures m.Keys == KeysOf(entries, ProjectKey)
    ensures forall k :: k in m ==> m[k] == SelectKey(entries, ProjectKey, k)
  {
    m := map[];
    for i := 0 to |entries|
      invariant m == GroupBy(entries[..i], ProjectKey)
    {
      assert entries[..i + 1][..i] == entries[..i];
      var project := entries[i].project;
      m := m[project := (if project in m then m[project] else []) + [entries[i]]];
    }
    assert entries[..|entries|] == entries;
    GroupByMeaning(entries, ProjectKey);
  }

  /** The whole hours of a duration, and the whole minutes past the last whole hour, both truncated toward zero. */
  function WholeHours(d: int): int { Quot(d, NsPerHour) }
  function MinutesPastHour(d: int): int { Rem(Quot(d, NsPerMinute), 60) }

  /** `formatDuration`. */
  function FormatDuration(d: int): (r: string)
    ensures r != [] && (r[|r| - 1] == 'h' || r[|r| - 1] == 'm')
  {
    var hours := WholeHours(d);
    var minutes := MinutesPastHour(d);
    if hours == 0 && minutes == 0 then "0h 0m"
    else if hours == 0 then IntToString(minutes) + "m"
    else if minutes == 0 then IntToString(hours) + "h"
    else IntToString(hours) + "h " + IntToString(minutes) + "m"
  }

  /** Whole minutes determine both fields, so the seconds of a duration never show. */
  lemma {:induction false} FieldsFromWholeMinutes(d: int)
    requires d >= 0
    ensures WholeHours(d) == (d / NsPerMinute) / 60
    ensures MinutesPastHour(d) == (d / NsPerMinute) % 60
    ensures WholeHours(d) * 60 + MinutesPastHour(d) == d / NsPerMinute
  {
    var mins := d / NsPerMinute;
    var h := mins / 60;
    assert d == (h * 60 + mins % 60) * NsPerMinute + d % NsPerMinute;
    assert d == h * NsPerHour + ((mins % 60) * NsPerMinute + d % NsPerMinute);
  }

  /** The text is the same for any two non-negative durations with the same whole minutes. */
  lemma FormatDurationDropsSeconds(d: int, e: int)
    requires d >= 0 && e >= 0 && d / NsPerMinute == e / NsPerMinute
    ensures FormatDuration(d) == FormatDuration(e)
  {
    FieldsFromWholeMinutes(d);
    FieldsFromWholeMinutes(e);
  }

  /** Go's conversions truncate toward zero: a negative duration shows the negated fields. */
  lemma FieldsOfNegative(d: int)
    requires d < 0
    ensures WholeHours(d) == -WholeHours(-d)
    ensures MinutesPastHour(d) == -MinutesPastHour(-d)
  {
    FieldsFromWholeMinutes(-d);
  }

  /** Hours and minutes are the unique split of a duration into whole hours and minutes. */
  lemma FieldsOfSplit(h: nat, m: nat, r: int)
    requires m < 60 && 0 <= r < NsPerMinute
    ensures WholeHours((h * 60 + m) * NsPerMinute + r) == h
    ensures MinutesPastHour((h * 60 + m) * NsPerMinute + r) == m
  {
    var d := (h * 60 + m) * NsPerMinute + r;
    assert d / NsPerMinute == h * 60 + m;
    FieldsFromWholeMinutes(d);
  }

  /** Less than a minute (including a zero duration) shows as `0h 0m`. */
  lemma FormatUnderAMinute(d: int)
    requires 0 <= d < NsPerMinute
    ensures FormatDuration(d) == "0h 0m"
  {
    FieldsOfSplit(0, 0, d);
  }

  /** Whole hours drop the minutes part; minutes under an hour drop the hours part. */
  lemma FormatShapes(h: nat, m: nat, r: int)
    requires m < 60 && 0 <= r < NsPerMinute
    ensures h > 0 && m == 0 ==> FormatDuration((h * 60 + m) * NsPerMinute + r) == NatToString(h) + "h"
    ensures h == 0 && m > 0 ==> FormatDuration((h * 60 + m) * NsPerMinute + r) == NatToString(m) + "m"
    ensures h > 0 && m > 0 ==>
      FormatDuration((h * 60 + m) * NsPerMinute + r) == NatToString(h) + "h " + NatToString(m) + "m"
  {
    FieldsOfSplit(h, m, r);
  }

  function TaskKey(e: TimeEntry): string { e.task }

  /** |KeysOf| never exceeds the number of entries. */
  lemma {:induction false} KeysOfBound<K>(s: seq<TimeEntry>, key: TimeEntry -> K)
    ensures |KeysOf(s, key)| <= |s|
  {
    if s != [] {
      KeysOfAppend(s, key);
      KeysOfBound(s[..|s| - 1], key);
    }
  }

  /**
   * The distinct-project and distinct-task counts of the summary box (`len` of the two
   * `map[string]bool` sets): the number of different projects and tasks among the entries.
   */
  method SummaryCounts(entries: seq<TimeEntry>) returns (projects: nat, tasks: nat)
    ensures projects == |KeysOf(entries, ProjectKey)| && tasks == |KeysOf(entries, TaskKey)|
    ensures projects <= |entries| && tasks <= |entries|
  {
    var uniqueProjects: set<string> := {};
    var uniqueTasks: set<string> := {};
    for i := 0 to |entries|
      invariant uniqueProjects == KeysOf(entries[..i], ProjectKey)
      invariant uniqueTasks == KeysOf(entries[..i], TaskKey)
    {
      assert entries[..i + 1][..i] == entries[..i];
      KeysOfAppend(entries[..i + 1], ProjectKey);
      KeysOfAppend(entries[..i + 1], TaskKey);
      uniqueProjects := uniqueProjects + {entries[i].project};
      uniqueTasks := uniqueTasks + {entries[i].task};
    }
    assert entries[..|entries|] == entries;
    KeysOfBound(entries, ProjectKey);
    KeysOfBound(entries, TaskKey);
    projects, tasks := |uniqueProjects|, |uniqueTasks|;
  }

  /** A day that is neither a Saturday nor a Sunday. */
  predicate IsWorkingDay(t: int) {
    Weekday(Day(t)) != Saturday && Weekday(Day(t)) != Sunday
  }

  /** How many times the loop of `countWorkingDays` runs: the one-day steps from start to end inclusive. */
  function Steps(start: int, end: int): nat {
    if start > end then 0 else (end - start) / NsPerDay + 1
  }

  /** The working days among the one-day steps from start while the step is not after end. */
  function WorkingDays(start: int, end: int): (n: nat)
    ensures start > end ==> n == 0
    ensures n <= Steps(start, end)
    decreases if start <= end then end - start + 1 else 0
  {
    if start > end then 0
    else
      assert AddDays(start, 1) <= end ==> (end - start) / NsPerDay == (end - AddDays(start, 1)) / NsPerDay + 1;
      (if IsWorkingDay(start) then 1 else 0) + WorkingDays(AddDays(start, 1), end)
  }

  /** 1 for a weekday number other than Saturday and Sunday. */
  function WorkingWeekday(w: int): nat {
    if w != Saturday && w != Sunday then 1 else 0
  }

  /** The weekday after w. */
  function NextWeekday(w: int): int {
    if w == Saturday then Sunday else w + 1
  }

  /** One step of the count: the day u, then the count from the next day on. */
  lemma StepAt(u: int, end: int)
    requires u <= end
    ensures WorkingDays(u, end) == WorkingWeekday(Weekday(Day(u))) + WorkingDays(u + NsPerDay, end)
    ensures Weekday(Day(u + NsPerDay)) == NextWeekday(Weekday(Day(u)))
  {
    AddDaysShiftsDay(u, 1);
    WeekdayNext(Day(u));
  }

  /** Whatever weekday a week starts on, five of its seven days are working days. */
  lemma FiveOfSeven(w0: int, w1: int, w2: int, w3: int, w4: int, w5: int, w6: int)
    requires 0 <= w0 < 7 && w1 == NextWeekday(w0) && w2 == NextWeekday(w1) && w3 == NextWeekday(w2)
    requires w4 == NextWeekday(w3) && w5 == NextWeekday(w4) && w6 == NextWeekday(w5)
    ensures WorkingWeekday(w0) + WorkingWeekday(w1) + WorkingWeekday(w2) + WorkingWeekday(w3)
      + WorkingWeekday(w4) + WorkingWeekday(w5) + WorkingWeekday(w6) == 5
  {
  }

  /** Seven consecutive days always hold five working days. */
  lemma SevenSteps(t: int, end: int)
    requires AddDays(t, 6) <= end
    ensures WorkingDays(t, end) == 5 + WorkingDays(AddDays(t, 7), end)
  {
    var u1, u2, u3 := t + NsPerDay, t + 2 * NsPerDay, t + 3 * NsPerDay;
    var u4, u5, u6 := t + 4 * NsPerDay, t + 5 * NsPerDay, t + 6 * NsPerDay;
    StepAt(t, end);
    StepAt(u1, end);
    StepAt(u2, end);
    StepAt(u3, end);
    StepAt(u4, end);
    StepAt(u5, end);
    StepAt(u6, end);
    FiveOfSeven(Weekday(Day(t)), Weekday(Day(u1)), Weekday(Day(u2)), Weekday(Day(u3)),
      Weekday(Day(u4)), Weekday(Day(u5)), Weekday(Day(u6)));
  }

  /** A period of k whole weeks counts 5 * k working days, whatever day it starts on. */
  lemma {:induction false} WorkingDaysOfWeeks(t: int, k: nat)
    ensures WorkingDays(t, AddDays(t, 7 * k) - 1) == 5 * k
    decreases k
  {
    if k > 0 {
      SevenSteps(t, AddDays(t, 7 * k) - 1);
      WorkingDaysOfWeeks(AddDays(t, 7), k - 1);
      assert AddDays(AddDays(t, 7), 7 * (k - 1)) == AddDays(t, 7 * k);
    }
  }

  /** `countWorkingDays`. */
  method CountWorkingDays(start: int, end: int) returns (days: nat)
    ensures days == WorkingDays(start, end)
    ensures days <= Steps(start, end)
  {
    days := 0;
    var date := start;
    while date <= end
      invariant days + WorkingDays(date, end) == WorkingDays(start, end)
      decreases if date <= end then end - date + 1 else 0
    {
      var weekday := Weekday(Day(date));
      if weekday != Saturday && weekday != Sunday {
        days := days + 1;
      }
      date := AddDays(date, 1);
    }
  }

  /**
   * The entries the report works on: none when the query found nothing (the report only
   * prints a warning), otherwise the query result sorted by non-decreasing start.
   */
  function ReportEntries(found: seq<TimeEntry>): (r: Option<seq<TimeEntry>>)
    ensures r.None? <==> found == []
    ensures r.Some? ==> SortedByStart(r.value, false) && multiset(r.value) == multiset(found)
  {
    if found == [] then None else Some(SortByStart(found, false))
  }
}
