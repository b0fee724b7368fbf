/**
 * The list command of cli/list.go: the flags select one query (the first flag present
 * wins), and the rows of the table are built from the entries the query returns.
 * `time.Stamp` formatting is a parameter.
 */
module ListCommand {
  import opened Wrappers
  import opened Clock
  import opened Text
  import opened Records
  import opened EntryStore
  import opened Report

  /** The flags the action reads; a timestamp flag is Some when it was given. */
  datatype ListFlags = ListFlags(from: Option<int>, to: Option<int>, today: bool, yesterday: bool, showId: bool)

  /** The query the if-chain in the action returns, in its order of precedence. */
  function ListCriteria(flags: ListFlags, now: int): (c: Criteria)
    ensures c == All <==> flags.from.None? && flags.to.None? && !flags.today && !flags.yesterday
    ensures c.StartBetween? ==> StartOfDay(c.lo) == c.lo && Day(c.hi) == Day(c.lo) && TimeOfDay(c.hi) == EndOfDayTime
  {
    if flags.from.Some? then StartAtLeast(flags.from.value)
    else if flags.to.Some? then StartAtMost(flags.to.value)
    else if flags.today then StartBetween(StartOfDay(now), EndOfDay(now))
    else if flags.yesterday then StartBetween(StartOfDay(now - NsPerDay), EndOfDay(now - NsPerDay))
    else All
  }

  function ListQuery(flags: ListFlags, now: int): Query {
    Query(ListCriteria(flags, now), false, None)
  }

  /** The entries the list command shows for the stored entries s. */
  function Listed(s: seq<TimeEntry>, flags: ListFlags, now: int): seq<TimeEntry> {
    QueryResult(s, ListQuery(flags, now))
  }

  /** --from wins: only start >= from applies, even when --to is also given. */
  lemma FromWins(s: seq<TimeEntry>, flags: ListFlags, now: int)
    requires flags.from.Some?
    ensures forall x :: x in Listed(s, flags, now) <==> x in s && x.start >= flags.from.value
  {
    QueryResultSound(s, ListQuery(flags, now));
  }

  /** --to without --from: only start <= to applies. */
  lemma ToAlone(s: seq<TimeEntry>, flags: ListFlags, now: int)
    requires flags.from.None? && flags.to.Some?
    ensures forall x :: x in Listed(s, flags, now) <==> x in s && x.start <= flags.to.value
  {
    QueryResultSound(s, ListQuery(flags, now));
  }

  /**
   * --today (which wins over --yesterday) and --yesterday apply only without --from and
   * --to; they keep the entries of that date up to 23:59:59.000000999.
   */
  lemma DayFlags(s: seq<TimeEntry>, flags: ListFlags, now: int)
    requires flags.from.None? && flags.to.None? && (flags.today || flags.yesterday)
    ensures var day := if flags.today then Day(now) else Day(now) - 1;
      forall x :: x in Listed(s, flags, now) <==>
        x in s && Day(x.start) == day && TimeOfDay(x.start) <= EndOfDayTime
  {
    QueryResultSound(s, ListQuery(flags, now));
    var t := if flags.today then now else now - NsPerDay;
    assert Day(t) == (if flags.today then Day(now) else Day(now) - 1) by {
      AddDaysShiftsDay(now, -1);
    }
    forall x: TimeEntry ensures StartOfDay(t) <= x.start <= EndOfDay(t) <==>
      Day(x.start) == Day(t) && TimeOfDay(x.start) <= EndOfDayTime {
      DayWindow(t, x.start);
    }
  }

  /** No selecting flag: every stored entry, in stored order. */
  lemma NoFlags(s: seq<TimeEntry>, flags: ListFlags, now: int)
    requires flags.from.None? && flags.to.None? && !flags.today && !flags.yesterday
    ensures Listed(s, flags, now) == s
  {
    SelectAll(s);
  }

  /** The header row; --id puts an "ID" column in front. */
  function Header(showId: bool): seq<string> {
    (if showId then ["ID"] else []) + ["Project", "Task", "Start", "End", "Duration"]
  }

  /** The duration cell: whole hours, "h ", the minutes past the hour padded to two digits, "m". */
  function DurationCell(d: int): string {
    IntToString(WholeHours(d)) + "h " + Pad2(MinutesPastHour(d)) + "m"
  }

  /** The cell ends in "m"; for a duration that is not negative it is digits, "h ", two digits, "m". */
  lemma DurationCellForm(d: int)
    ensures var r := DurationCell(d); |r| >= 2 && r[|r| - 1] == 'm'
    ensures var r := DurationCell(d); d >= 0 ==>
      && |r| >= 6 && AllDigits(r[..|r| - 5]) && r[|r| - 5..|r| - 3] == "h "
      && AllDigits(r[|r| - 3..|r| - 1])
  {
    if d >= 0 {
      Pad2TwoDigits(MinutesPastHour(d));
      CellLayout(NatToString(WholeHours(d)), Pad2(MinutesPastHour(d)));
    }
  }

  /** Where the pieces of "<hours>h <minutes>m" sit, for decimal hours and two-digit minutes. */
  lemma CellLayout(hours: string, minutes: string)
    requires AllDigits(hours) && |minutes| == 2 && AllDigits(minutes)
    ensures var r := hours + "h " + minutes + "m";
      && |r| >= 5 && AllDigits(r[..|r| - 5]) && r[|r| - 5..|r| - 3] == "h "
      && AllDigits(r[|r| - 3..|r| - 1])
  {
    var r := hours + "h " + minutes + "m";
    assert r[..|r| - 5] == hours;
    assert r[|r| - 3..|r| - 1] == minutes;
  }

  /** For a duration of h hours, m minutes and some seconds, the cell reads "<h>h <mm>m". */
  lemma DurationCellShape(h: nat, m: nat, r: int)
    requires m < 60 && 0 <= r < NsPerMinute
    ensures DurationCell((h * 60 + m) * NsPerMinute + r) == NatToString(h) + "h " + Pad2(m) + "m"
    ensures |Pad2(m)| == 2 && AllDigits(Pad2(m)) && DecimalValue(Pad2(m)) == m
  {
    FieldsOfSplit(h, m, r);
    DecimalRoundTrip(m);
    if m < 10 {
      assert Pad2(m) == "0" + NatToString(m);
      assert DecimalValue(Pad2(m)) == DecimalValue(Pad2(m)[..1]) * 10 + m;
    } else {
      assert NatToString(m) == NatToString(m / 10) + [DigitChar(m % 10)];
    }
  }

  /** One entry's row; --id puts the entry's id in front. */
  function Row(e: TimeEntry, showId: bool, stamp: int -> string): (r: seq<string>)
    ensures |r| == |Header(showId)|
  {
    (if showId then [e.id] else [])
      + [e.project, e.task, stamp(e.start), stamp(e.end), DurationCell(Duration(e))]
  }

  /** Every row is as long as the header, and puts each field under its own heading. */
  lemma RowMatchesHeader(e: TimeEntry, showId: bool, stamp: int -> string)
    ensures |Row(e, showId, stamp)| == |Header(showId)|
    ensures forall k :: 0 <= k < |Header(showId)| ==>
      (Header(showId)[k] == "ID" ==> Row(e, showId, stamp)[k] == e.id)
      && (Header(showId)[k] == "Project" ==> Row(e, showId, stamp)[k] == e.project)
      && (Header(showId)[k] == "Task" ==> Row(e, showId, stamp)[k] == e.task)
      && (Header(showId)[k] == "Start" ==> Row(e, showId, stamp)[k] == stamp(e.start))
      && (Header(showId)[k] == "End" ==> Row(e, showId, stamp)[k] == stamp(e.end))
      && (Header(showId)[k] == "Duration" ==> Row(e, showId, stamp)[k] == DurationCell(Duration(e)))
  {
    var off := if showId then 1 else 0;
    forall k | 0 <= k < |Header(showId)|
      ensures (Header(showId)[k] == "ID" ==> Row(e, showId, stamp)[k] == e.id)
      && (Header(showId)[k] == "Project" ==> Row(e, showId, stamp)[k] == e.project)
      && (Header(showId)[k] == "Task" ==> Row(e, showId, stamp)[k] == e.task)
      && (Header(showId)[k] == "Start" ==> Row(e, showId, stamp)[k] == stamp(e.start))
      && (Header(showId)[k] == "End" ==> Row(e, showId, stamp)[k] == stamp(e.end))
      && (Header(showId)[k] == "Duration" ==> Row(e, showId, stamp)[k] == DurationCell(Duration(e)))
    {
      if k < off {
        assert Header(showId)[k] == "ID";
      } else {
        assert Header(showId)[k] == ["Project", "Task", "Start", "End", "Duration"][k - off];
        assert Row(e, showId, stamp)[k] ==
          [e.project, e.task, stamp(e.start), stamp(e.end), DurationCell(Duration(e))][k - off];
      }
    }
  }

  /**
   * The table: the header, then one row per entry in order (so, by RowMatchesHeader,
   * every row is as long as the header).
   */
  method BuildTable(entries: seq<TimeEntry>, showId: bool, stamp: int -> string)
    returns (table: seq<seq<string>>)
    ensures |table| == |entries| + 1 && table[0] == Header(showId)
    ensures forall i :: 0 <= i < |entries| ==> table[i + 1] == Row(entries[i], showId, stamp)
  {
    var headers := ["Project", "Task", "Start", "End", "Duration"];
    if showId {
      headers := ["ID"] + headers;
    }
    assert headers == Header(showId);
    table := [headers];
    for i := 0 to |entries|
      invariant |table| == i + 1 && table[0] == Header(showId)
      invariant forall j :: 0 <= j < i ==> table[j + 1] == Row(entries[j], showId, stamp)
    {
      var entry := entries[i];
      var duration := Duration(entry);
      var cell := DurationCell(duration);
      var row := [entry.project, entry.task, stamp(entry.start), stamp(entry.end), cell];
      if showId {
        row := [entry.id] + row;
      }
      assert row == Row(entry, showId, stamp);
      table := table + [row];
    }
  }

  /** The list action: query the store with the selected criteria, then build the table. */
  method ListAction(store: Store, flags: ListFlags, now: int, stamp: int -> string)
    returns (table: seq<seq<string>>)
    requires store.Ready()
    ensures var listed := Listed(store.entries, flags, now);
      && |table| == |listed| + 1 && table[0] == Header(flags.showId)
      && forall i :: 0 <= i < |listed| ==> table[i + 1] == Row(listed[i], flags.showId, stamp)
  {
    var entries := store.GetTimeEntriesQuery(ListQuery(flags, now));
    table := BuildTable(entries, flags.showId, stamp);
  }
}
