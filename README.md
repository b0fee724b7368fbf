# time-entry in Dafny

A verified model of the core of `time-entry`, a command-line time tracker written in Go.
The tracker keeps two collections in an embedded document database:

- the *current* (running) entry;
- the finished *time entries*.

A separate pair of tables tracks synchronisation with the Clockify service.

Starting a task stops the running one and opens a new current entry. Stopping turns the current entry into a time entry with the same id. The `list`, `report`, `edit`, `delete` and Clockify `upload-*` commands read and transform the time entries.

The model follows the program's structure, one Dafny module per source file:

| module | models |
|---|---|
| `EntryStore` (entry_store.dfy) | `lib/store/entry_store.go` and `lib/store/migration.go`: the `Store` class with one `seq` per collection, the sets of collections and indexes, and the query shapes its callers use |
| `TimeEntries` (time_entry.dfy) | `lib/time-entry.go`: the Start/Stop state machine |
| `Clockify` (clockify_store.dfy) | `lib/clockify/clockify_store.go`: the `ClockifyStore` class with its tracking and config tables |
| `ClockifyCommand` (clockify_command.dfy) | `cli/clockify.go`: week and day windows, and the per-entry upload decision |
| `DeleteCommand`, `StopCommand` | `cli/delete.go`, `cli/stop.go` |
| `Report` (report.dfy) | `cli/report.go`: totals, per-day and per-project sums and groups, `formatDuration`, distinct counts, `countWorkingDays` |
| `Edit` (edit.dfy) | `cli/edit.go`: the edit-file format, its parser, and the merge/validate step |
| `ListFilter` (list_filter.dfy) | `cli/main.go`: `filterEntries` and the older list action |
| `ListCommand` (list_command.dfy) | `cli/list.go`: flag precedence, and header and row construction |
| `Clock`, `Text`, `Ordering`, `Records`, `Wrappers` | the parts of Go's `time`, `strings`, `fmt` and `sort` packages that the core relies on, the record types, and Option/Result |

Representation:

- An instant is an integer number of nanoseconds on a fixed-offset local clock.
  - A calendar day is `Day(t) = t / NsPerDay`.
  - The weekday is `(Day + 4) % 7`, with Go's numbering where Sunday is 0.
  - `AddDate(0, 0, n)` adds n whole days.
  - The "YYYY-MM-DD" key of the report is the day number, which identifies the string exactly.
- Go's integer `%`, which keeps the sign of the dividend, is written out as `Clock.Rem`. `Clock.Quot` is the matching division that truncates toward zero.
- Go converts a duration to whole hours and to whole minutes by way of a float64 value (`Duration.Hours`, `Duration.Minutes`). The model replaces them with integer division truncating toward zero (`Report.WholeHours`, `Report.MinutesPastHour`). The two agree on every duration below about 4096 hours; see "## Left out".
- RFC822 and `time.Stamp` formatting and `time.Parse` are function parameters.
- The clock, the UUID generator and database failures are parameters too. A Clockify database call that fails is an `Option<Error>` input, and a failed call changes nothing.
- The database engine becomes in-memory sequences in the order the engine yields them. `GetTimeEntriesQuery`, `UpdateTimeEntry` and `DeleteTimeEntry` are not defined in the repository's files, so they are given their callers' meaning:
  - a query is filter, then optional newest-first sort by start, then optional limit;
  - an update replaces every record with the entry's id;
  - a delete removes every record with that id.

Points where the code does something its description does not suggest, and which the model follows:

- **Upload window.** The upload-today window is inclusive at both ends, so an entry that starts exactly at the next midnight is uploaded too (`ClockifyCommand.TodayWindowSelects`).
- **Today filter in `cli/main.go`.** The `--today` filter of the older list action in `cli/main.go` keeps entries that start after midnight and before `EndOfDay + 24h`. That is most of the next day too, and the entry that starts exactly at midnight is dropped (`ListFilter.TodayWindow`).
- **`EndOfDay`.** `EndOfDay` is 23:59:59 plus 999 ns, so the rest of the last second lies outside the day window (`EntryStore.DayWindow`).
- **`delete` flagging.** `delete` flags the tracking records of the first argument, not of the entry actually deleted. Under `--last` with no argument, that key is the empty string (`DeleteCommand.DeleteAction`).
- **Sync tracking.** The upload's create branch drops the remote id. No tracking record is ever written, and the delete and update branches only print (`ClockifyCommand.Decide`).
- **`NewStore` signature.** `NewStore()` takes no argument in `lib/store/entry_store.go:37`, but its callers pass a database (`cli/start.go:40`). The model follows the callers: `NewStore` is given the state of the database it opens.

## Model

| member | source | states |
|---|---|---|
| EntryStore.StartOfDay | lib/store/entry_store.go:205-207 | the result is on t's day at time of day 0, and not after t |
| EntryStore.EndOfDay | lib/store/entry_store.go:209-211 | the result is on t's day at 23:59:59 plus 999 ns, after StartOfDay(t) |
| EntryStore.DayWindow | lib/store/entry_store.go:205-211 | u lies in [StartOfDay(t), EndOfDay(t)] iff u is on t's day no later than 23:59:59.000000999 |
| EntryStore.Select | lib/store/entry_store.go:176-185 | a record is selected iff it is stored and matches the criteria; no more records than stored |
| EntryStore.SelectCount | lib/store/entry_store.go:176-185 | every matching record is selected exactly as often as it is stored; the others never |
| EntryStore.SelectIsSubsequence | lib/store/entry_store.go:176-185 | the selection keeps stored order (increasing index witness) |
| EntryStore.SelectAll | lib/store/entry_store.go:152 | the criteria All select every record in stored order |
| EntryStore.SelectHead | lib/store/entry_store.go:190-191 | the first selected record is the first stored record that matches |
| EntryStore.Take | cli/delete.go:32-37 | a limit keeps the first min(limit, length) records; no limit keeps all |
| EntryStore.QueryResultSound | cli/list.go:57-81 | every answer is a stored matching record; at most the limit; without a limit the answer is a permutation of the selection (equal to it when unsorted); a newest-first answer is sorted descending by start |
| EntryStore.RemoveById | cli/delete.go:32-42 | a record stays iff it was stored and has a different id; never grows |
| EntryStore.RemoveByIdCount | cli/delete.go:32-42 | every record with another id stays exactly as often as it was stored; records with the id are gone |
| EntryStore.RemoveByIdIsSubsequence | cli/delete.go:32-42 | the remaining records keep their stored order (increasing index witness) |
| EntryStore.RemoveByIdAbsent | cli/delete.go:42 | deleting an id no record has changes nothing |
| EntryStore.RemoveByIdIdempotent | cli/delete.go:42 | deleting the same id twice is deleting it once |
| EntryStore.ReplaceById | cli/edit.go:143 | same length; each record with the entry's id is replaced by the entry, the others stay in place |
| EntryStore.Store.NewStore | lib/store/entry_store.go:37-62 | opening keeps the stored records and adds exactly the two collections and the project index that were missing |
| EntryStore.Store.Migrate | lib/store/migration.go:7-10 | afterwards both collections and the project index exist; nothing else is added; on a migrated store nothing changes (idempotent) and records survive |
| EntryStore.Store.CreateTimeEntryCollectionIfNotExists | lib/store/migration.go:12-36 | adds the time-entry collection and its project index, only if missing |
| EntryStore.Store.CreateCurrentTimeEntryCollectionIfNotExists | lib/store/migration.go:38-50 | adds the current-time-entry collection, only if missing |
| EntryStore.Store.InsertCurrentTimeEntry | lib/store/entry_store.go:104-113 | the current collection gains exactly the record at the end; time entries are untouched (frame) |
| EntryStore.Store.DeleteCurrentTimeEntry | lib/store/entry_store.go:115-120 | every current record goes, however many; time entries are untouched (frame) |
| EntryStore.Store.InsertTimeEntry | lib/store/entry_store.go:122-131 | the time-entry collection gains exactly the record at the end; current entries are untouched (frame) |
| EntryStore.Store.GetCurrentTimeEntry | lib/store/entry_store.go:133-149 | nil iff there is no current record, otherwise the first one |
| EntryStore.Store.GetTimeEntries | lib/store/entry_store.go:151-164 | one entry per stored record, same count, order and fields (array copy loop) |
| EntryStore.Store.GetTimeEntriesQuery | cli/list.go:57-81 | the answer is QueryResult of the stored records |
| EntryStore.Store.GetTimeEntryForToday | lib/store/entry_store.go:175-196 | requires a record starting inside today's window (the unchecked `docs[0]`); returns the first such stored record |
| EntryStore.Store.GetProjects | lib/store/entry_store.go:213-224 | min(100, count) names, the i-th being the i-th record's project, not deduplicated |
| EntryStore.Store.GetTasks | lib/store/entry_store.go:226-237 | at most 10 names, the i-th being the task of the i-th record with that project, each from a record of that project |
| EntryStore.Store.UpdateTimeEntry | cli/edit.go:143 | the stored records become ReplaceById of the old ones |
| EntryStore.Store.DeleteTimeEntry | cli/delete.go:32-42 | the stored records become RemoveById of the old ones |
| TimeEntries.Stop | lib/time-entry.go:37-50 | returns the current entry's id, project, task and start with the given end (no end ≥ start check); the time entries gain exactly it; no current entry remains |
| TimeEntries.NewCurrentTimeEntry | lib/time-entry.go:14-35 | a running entry is first recorded as a time entry ending at `now`; with none, time entries are unchanged; afterwards exactly one current entry exists, the returned one with the given fields and fresh id |
| TimeEntries.Start | lib/time-entry.go:10-12 | NewCurrentTimeEntry with the start read from the clock; the same state-machine guarantees |
| StopCommand.StopAction | cli/stop.go:29-51 | with no current entry nothing changes and no error; otherwise the running entry is stopped at `--end`, or `now` when it is absent |
| DeleteCommand.DeleteAction | cli/delete.go:25-50 | no `--last` and an empty argument: "id is required" and nothing changes; an argument: that id is deleted; `--last`: the entry with the latest start is deleted; the tracking records flagged are those of the first argument |
| Clockify.MarkedDeleted | lib/clockify/clockify_store.go:81-90 | same length; each record for the time entry has deleted set, every other record and field unchanged |
| Clockify.MarkedDeletedIdempotent | lib/clockify/clockify_store.go:81-90 | marking twice is marking once |
| Clockify.MarkedDeletedNoMatch | lib/clockify/clockify_store.go:81-90 | with no matching record nothing changes |
| Clockify.FirstTracking | lib/clockify/clockify_store.go:92-108 | none iff no record matches; otherwise the first matching record |
| Clockify.ClockifyStore.NewClockifyStore | lib/clockify/clockify_store.go:34-41 | adds exactly the missing collections and keeps the records; on a set-up database nothing changes |
| Clockify.ClockifyStore.CreateCollectionIfNotExists | lib/clockify/clockify_store.go:43-55 | adds the tracking collection only if missing |
| Clockify.ClockifyStore.CreateConfigCollectionIfNotExists | lib/clockify/clockify_store.go:57-69 | adds the config collection only if missing |
| Clockify.ClockifyStore.InsertTimeEntry | lib/clockify/clockify_store.go:70-79 | on success one tracking record is added with the entry's id, the given Clockify id and deleted = false; a failure is returned and nothing changes |
| Clockify.ClockifyStore.MakeClockifyTimeEntryDeleted | lib/clockify/clockify_store.go:81-90 | on success the table becomes MarkedDeleted of the old one (in-place loop); a failure is returned and nothing changes |
| Clockify.ClockifyStore.GetClockifyTimeEntry | lib/clockify/clockify_store.go:92-108 | a failure is returned as an error; otherwise FirstTracking, that is, no record and no error when none matches |
| Clockify.ClockifyStore.GetClockifyConfig | lib/clockify/clockify_store.go:119-126 | a failure is returned; otherwise the first config, which must exist (nil document otherwise) |
| Clockify.ClockifyStore.InsertClockifyConfig | lib/clockify/clockify_store.go:137-147 | a failed delete is returned and nothing changes; otherwise exactly the argument remains (or nothing, if the insert fails) |
| Clockify.ClockifyStore.DeleteClockifyConfig | lib/clockify/clockify_store.go:149-151 | on success the config table is empty; a failure is returned and nothing changes |
| ClockifyCommand.WeekStartDayIsMonday | cli/clockify.go:102-108 | the week-start day is a Monday, between 6 days before and the day itself |
| ClockifyCommand.WeekEndDayIsSunday | cli/clockify.go:110-116 | the week-end day is a Sunday, between the day itself and 6 days after |
| ClockifyCommand.WeekSpansSixDays | cli/clockify.go:102-116 | endOfWeek's date is exactly 6 days after startOfWeek's date |
| ClockifyCommand.WeekStartDayIdempotent | cli/clockify.go:102-108 | going back to Monday from a Monday stays put |
| ClockifyCommand.WeekStartStep | cli/clockify.go:103-105 | one step back from a non-Monday stays in the same week and gets closer to Monday (loop variant) |
| ClockifyCommand.WeekEndStep | cli/clockify.go:111-113 | one step forward from a non-Sunday stays in the same week and gets closer to Sunday (loop variant) |
| ClockifyCommand.StartOfWeek | cli/clockify.go:102-108 | the loop ends at 00:00:00 on the Monday on or before t, at most 6 days earlier |
| ClockifyCommand.EndOfWeek | cli/clockify.go:110-116 | the loop ends at 23:59:59 (0 ns) on the Sunday on or after t, at most 6 days later |
| ClockifyCommand.LastWeekWindow | cli/clockify.go:79-86 | from a Monday midnight to 23:59:59 six days later, in the week of the instant seven days ago |
| ClockifyCommand.TodayWindow | cli/clockify.go:92-97 | today's midnight, and exactly one day later; now lies in between |
| ClockifyCommand.TodayWindowSelects | cli/clockify.go:93-96 | an entry is uploaded iff it starts today or exactly at the next midnight (both ends inclusive) |
| ClockifyCommand.Decide | cli/clockify.go:145-156 | the action is for the given entry: Create, with the config, iff there is no tracking record; Delete iff the record is flagged deleted; Update otherwise |
| ClockifyCommand.FirstFault | cli/clockify.go:139-143 | the index of the first lookup that fails, or the count when none fails |
| ClockifyCommand.UploadTimeEntry | cli/clockify.go:118-160 | a config error aborts with it; otherwise the entries starting in [start, end] are processed in order up to the first failed lookup, whose error is returned; each processed entry gets Create without a tracking record, Delete with a deleted one, Update otherwise; no store changes |
| Ordering.InsertByStart | cli/report.go:110-113 | inserting into a sorted sequence keeps it sorted and adds exactly the element (multiset) |
| Ordering.SortByStart | cli/report.go:110-113 | sorted by start and a permutation of the input |
| Ordering.NewestFirstHeadIsLatest | cli/delete.go:32-37 | the head of the newest-first order is a stored entry starting no earlier than any other |
| Report.HoursByMeaning | cli/report.go:177-192 | the keys are exactly the keys present; each value is the total duration of the entries with that key |
| Report.GroupByMeaning | cli/report.go:194-209 | the keys are exactly the keys present; each group is the entries with that key in input order |
| Report.GroupsPartition | cli/report.go:194-209 | every entry is in the group of its own key and in no group of another key |
| Report.SelectKeyMembers | cli/report.go:194-209 | an entry is in a key's group iff it is an input entry with that key |
| Report.HoursMatchGroups | cli/report.go:177-209 | the hours of a key equal the total of that key's group |
| Report.HoursBySumToTotal | cli/report.go:169-192 | the per-key hours sum to the total duration |
| Report.CalculateTotalDuration | cli/report.go:169-175 | the loop's sum is the sum of End − Start over the entries |
| Report.CalculateHoursByDay | cli/report.go:177-184 | the loop's map: keys are the days present, values sum to the total |
| Report.CalculateHoursByProject | cli/report.go:186-192 | the loop's map: keys are exactly the projects present, values sum to the total |
| Report.GroupEntriesByDay | cli/report.go:194-201 | each day present maps to its entries in input order |
| Report.GroupEntriesByProject | cli/report.go:203-209 | each project present maps to its entries in input order |
| Report.FormatDuration | cli/report.go:211-224 | the text is never empty and ends with its unit, "h" or "m" |
| Report.FieldsFromWholeMinutes | cli/report.go:211-213 | in the integer model, for d ≥ 0, the hour and minute fields are the whole minutes split into hours and minutes |
| Report.FormatDurationDropsSeconds | cli/report.go:211-224 | in the integer model, durations with the same whole minutes format the same: seconds are dropped |
| Report.FieldsOfNegative | cli/report.go:212-213 | for negative durations, both fields are the negated fields of the opposite duration (truncation toward zero) |
| Report.FieldsOfSplit | cli/report.go:212-213 | in the integer model, a duration of h hours, m < 60 minutes and under a minute more has fields h and m |
| Report.FormatUnderAMinute | cli/report.go:215-216 | under a minute formats as "0h 0m" |
| Report.FormatShapes | cli/report.go:215-223 | in the integer model, "Hh" when the minutes are 0, "Mm" when the hours are 0, otherwise "Hh Mm" |
| Report.KeysOfBound | cli/report.go:228-234 | there are no more distinct keys than entries |
| Report.SummaryCounts | cli/report.go:228-234 | the distinct project and task counts are the sizes of the key sets, at most the number of entries |
| Report.WorkingDays | cli/report.go:264-273 | 0 when start > end; never more than the number of one-day steps |
| Report.StepAt | cli/report.go:266-270 | one step counts the day if it is a weekday, then moves to the next weekday |
| Report.FiveOfSeven | cli/report.go:267-268 | any seven consecutive weekdays hold five working days |
| Report.SevenSteps | cli/report.go:264-273 | seven steps from t count 5 more than starting a week later |
| Report.WorkingDaysOfWeeks | cli/report.go:264-273 | k whole weeks hold 5k working days |
| Report.CountWorkingDays | cli/report.go:264-273 | the loop's count is WorkingDays(start, end), at most the number of steps |
| Report.ReportEntries | cli/report.go:104-113 | none iff no entries are found; otherwise sorted by start and a permutation of the query result |
| Edit.JoinLinesSnoc | cli/edit.go:156-167 | appending one `Sprintln` line to the builder's text |
| Edit.CreateTempFileToEdit | cli/edit.go:156-167 | the builder's text is the eight lines of the edit file, each ended by a newline |
| Edit.RemoveLineComments | cli/edit.go:184-186 | the result has no '#', no surrounding white space, and is no longer than the line |
| Edit.RemoveLineCommentsStrips | cli/edit.go:184-186 | a clean value followed by white space and an optional comment comes back exactly |
| Edit.RemoveLineCommentsIdempotent | cli/edit.go:184-186 | applying it twice is applying it once |
| Edit.FieldValueClean | cli/edit.go:177 | a parsed value has no '#' and no surrounding white space |
| Edit.FieldValueFirst | cli/edit.go:175-179 | only the first line with the prefix is used |
| Edit.FieldValueAbsent | cli/edit.go:181 | "" when no line has the prefix |
| Edit.FindLineWithPrefixAndTrim | cli/edit.go:174-182 | the loop with early return computes FieldValue, which is clean |
| Edit.EditedEntry | cli/edit.go:73-141 | an accepted entry keeps the selected ID and does not end before it starts; every refusal is the ID mismatch, end before start, or the error of parsing the Start or End value |
| Edit.MergeEditedEntry | cli/edit.go:72-115 | the sequence of reassignments computes EditedEntry |
| Edit.EditedEntryChecks | cli/edit.go:77-79 | a different non-empty ID is refused; an accepted edit keeps the ID and does not end before it starts |
| Edit.EditedEntryFields | cli/edit.go:81-111 | absent or empty fields keep the old value, so a set field never becomes empty |
| Edit.EndBeforeStartRefused | cli/edit.go:113-115 | once the times parse, the edit is refused exactly when the end is before the start; otherwise the merged entry |
| Edit.TailOfField | cli/edit.go:177 | the value after "Key: " of a clean value comes back as written |
| Edit.IdRestComments | cli/edit.go:161 | the ID line's trailing comment is removed, leaving the id |
| Edit.TailOfIdLine | cli/edit.go:161 | parsing the value of the ID line gives the id |
| Edit.FieldOfLine | cli/edit.go:174-182 | a field line preceded by lines that cannot carry the prefix gives its value |
| Edit.IdOfEditFile | cli/edit.go:161 | parsing "ID:" from the written file gives the entry's id |
| Edit.ProjectOfEditFile | cli/edit.go:162 | parsing "Project:" from the written file gives the project |
| Edit.TaskOfEditFile | cli/edit.go:163 | parsing "Task:" from the written file gives the task |
| Edit.TimesOfEditFile | cli/edit.go:164-165 | parsing "Start:" and "End:" gives the formatted times |
| Edit.EditLinesSingle | cli/edit.go:156-165 | no written line contains a newline when the values are clean |
| Edit.UnchangedFileRoundTrip | cli/edit.go:72-143 | splitting the written file and merging it back gives the entry with its times reparsed: id, project and task survive the round trip |
| Edit.ApplyEdit | cli/edit.go:72-143 | a refused edit returns its error and leaves the store unchanged; an accepted one replaces the record by id |
| ListFilter.FilterEntries | cli/main.go:171-183 | the loop computes Filtered; an entry is kept iff from < start < to + 24h |
| ListFilter.Filtered | cli/main.go:171-183 | an entry is kept iff it is an input entry strictly inside the window; never grows |
| ListFilter.FilteredCount | cli/main.go:171-183 | every entry inside the window is kept exactly as often as it occurs; the others never |
| ListFilter.FilteredIsSubsequence | cli/main.go:171-183 | the result is a subsequence of the input (increasing index witness) |
| ListFilter.FilteredIdempotent | cli/main.go:171-183 | filtering twice is filtering once |
| ListFilter.FilteredSorted | cli/main.go:101-115 | filtering a sorted sequence keeps it sorted |
| ListFilter.TodayWindow | cli/main.go:113-115 | the `--today` filter admits today after midnight, and the next day strictly before 23:59:59.000000999 |
| ListFilter.ListAction | cli/main.go:101-115 | the output is sorted by start and is a permutation of the stored entries inside each applied window: each such entry appears as often as it is stored, and no other does |
| ListCommand.FromWins | cli/list.go:58-61 | with `--from`, exactly the entries starting at or after it; `--to` is ignored |
| ListCommand.ToAlone | cli/list.go:62-65 | `--to` without `--from` gives exactly the entries starting at or before it |
| ListCommand.DayFlags | cli/list.go:66-79 | `--today` or `--yesterday` without from/to give the day window of now or of now − 24h; today wins |
| ListCommand.NoFlags | cli/list.go:80 | with no flags, all entries in stored order |
| ListCommand.DurationCellForm | cli/list.go:99 | the cell ends in "m"; for a non-negative duration it is digits, "h ", exactly two digits, "m" |
| ListCommand.DurationCellShape | cli/list.go:99 | in the integer model, the cell reads "<hours>h <mm>m" with minutes as exactly two digits that denote them |
| ListCommand.Row | cli/list.go:92-104 | a row has as many cells as the header, with or without `--id` |
| ListCommand.RowMatchesHeader | cli/list.go:83-107 | every row is as long as the header and each field sits under its own heading, with or without `--id` |
| ListCommand.BuildTable | cli/list.go:83-107 | the header, then one row per entry in order |
| ListCommand.ListCriteria | cli/list.go:57-81 | no filter exactly when no flag is given; a day filter runs from a midnight to 23:59:59.000000999 of the same day |
| ListCommand.ListAction | cli/list.go:53-107 | the table lists the query result of the selected flags |
| Text.TrimSpace | cli/edit.go:185 | the result has no white space at either end and is no longer than the input |
| Text.TrimSpaceStrips | cli/edit.go:177 | white space around a trimmed string is exactly what is removed |
| Text.TrimSpaceIdempotent | cli/edit.go:185 | trimming twice is trimming once |
| Text.BeforeFirst | cli/edit.go:185 | the text before the first '#', all of it when there is none |
| Text.SplitJoinLines | cli/edit.go:72 | splitting newline-ended lines at '\n' gives the lines and one empty tail |
| Text.DecimalRoundTrip | cli/list.go:99 | reading the decimal rendering back gives the number |
| Text.Pad2TwoDigits | cli/list.go:99 | `%02d` of 0 to 99 is exactly two digits |
| Text.NatToStringInjective | cli/report.go:218-223 | different numbers render differently |
| Clock.Quot | cli/report.go:212-213 | division truncating toward zero, the integer stand-in for the float64 `Hours()`/`Minutes()` conversion (see "## Left out") |
| Clock.Rem | cli/report.go:213 | Go's remainder, with the sign of the dividend |
| Clock.AddDaysShiftsDay | cli/clockify.go:104 | `AddDate(0, 0, n)` shifts the day by n and keeps the time of day |

## Left out

- `lib/clockify/clockify_api.go` is not part of this model: HTTP, JSON and status codes. A Create action stands for the `PostNewTimeEntry` call. Its DELETE URL with a literal `{workspaceId}` placeholder is never reached by the modelled commands.
- The database engine itself: its generic query language, the ids it returns on insert, and any order other than insertion order. Records are returned in stored order.
- `NewStore`'s home-directory and `MkdirAll` set-up, `lib/db/new_db.go` and `lib/store/path.go`: filesystem plumbing. The `store == nil` branch of `NewCurrentTimeEntry`, which opens a store of its own, is left out too.
- The `GetProjects`/`GetTasks` delegators of `lib/time-entry.go`: one-line forwards to the store methods above.
- Store failures reported with `log.Fatal` in `lib/store/entry_store.go`: the process ends, so there is no state after them to state anything about.
- All terminal rendering (pterm tables, boxes and colours), the interactive selection of the entry to edit, the `$EDITOR` launch and temp-file I/O. The edit model starts from the file's lines, and the tables are sequences of cells.
- Floating point: the percentages and averages of the report's displays.
- Report.WholeHours: integer division truncating toward zero stands in for Go's float64 hour count. Go adds the whole hours and the fraction of an hour left over as float64 values, and from about 4096 hours a remainder just under one hour rounds that sum up to the next hour. For 4096h 59m 59.999999999s Go gives 4097 and the model gives 4096. Below 4096 hours the two agree.
- Report.MinutesPastHour: integer truncation stands in for Go's float64 minute count, taken modulo 60. For very large durations the float64 minutes can round up in the same way. The model does not.
- Report.FormatDuration: built on the two fields above, so its text agrees with Go's only below about 4096 hours. `Report.FieldsFromWholeMinutes`, `Report.FieldsOfSplit`, `Report.FormatDurationDropsSeconds` and `Report.FormatShapes` are statements about this integer model.
- ListCommand.DurationCell: the same float64 `Hours()`/`Minutes()` conversion is modelled by the same integer fields, with the same limit. `ListCommand.DurationCellShape` is a statement about this integer model.
- Time zones and daylight saving: the local zone has a fixed offset. RFC822/RFC3339/`time.Stamp` formatting and parsing are parameters.
- Separate reads of the clock: several `time.Now` reads within one command are taken as one instant `now`. The exception is `Start` and `NewCurrentTimeEntry`, whose two reads are separate parameters. UUIDs are parameters.
- 64-bit overflow of nanosecond instants and durations: integers are unbounded.
- The tie order of `sort.Slice`, which is not stable: any order that is sorted by start is allowed.
- Report period selection and its query: its week starts use UTC `Truncate(24h)`, and its project and task filters use the engine's `Where` chaining.
- The Clockify `config` commands, the `status` command, and the argument-count check of `cli/start.go`: command-line glue around store calls already modelled.
- The entry-selection strings built for the interactive prompt in `cli/edit.go`.
