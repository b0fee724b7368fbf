/**
 * The edit command's text round trip (cli/edit.go): the file written for the editor, the
 * `Key: value` lookup that reads it back, and the merge of the edited values into the
 * selected entry. RFC 822 formatting and `time.Parse` are parameters.
 */
module Edit {
  import opened Wrappers
  import opened Text
  import opened Records
  import opened EntryStore

  const IdMismatch := "invalid file content, ID is not the same"
  const EndBeforeStart := "end time is before start time"
  const IdComment := " # Don't change this line"

  /** The file's lines, each written by one `fmt.Sprintln` (which puts a space between operands). */
  function EditFileLines(e: TimeEntry, formatTime: int -> string): seq<string> {
    [ "# Modify this file to change the time entry",
      "# Don't change the ID line",
      "",
      "ID: " + e.id + IdComment,
      "Project: " + e.project,
      "Task: " + e.task,
      "Start: " + formatTime(e.start),
      "End: " + formatTime(e.end) ]
  }

  /** Appending one more line keeps the text equal to the joined lines so far. */
  lemma {:induction false} JoinLinesSnoc(lines: seq<string>, k: int)
    requires 0 <= k < |lines|
    ensures JoinLines(lines[..k + 1]) == JoinLines(lines[..k]) + lines[k] + "\n"
  {
    if k > 0 {
      JoinLinesSnoc(lines[1..], k - 1);
      assert lines[..k + 1][1..] == lines[1..][..k];
      assert lines[..k][1..] == lines[1..][..k - 1];
    }
  }

  /** `createTempFileToEdit`: the text it builds with `fmt.Sprintln` (and writes to the temporary file). */
  method CreateTempFileToEdit(e: TimeEntry, formatTime: int -> string) returns (content: string)
    ensures content == JoinLines(EditFileLines(e, formatTime))
  {
    var lines := EditFileLines(e, formatTime);
    content := "";
    JoinLinesSnoc(lines, 0);
    content := content + lines[0] + "\n";
    JoinLinesSnoc(lines, 1);
    content := content + lines[1] + "\n";
    JoinLinesSnoc(lines, 2);
    content := content + lines[2] + "\n";
    JoinLinesSnoc(lines, 3);
    content := content + lines[3] + "\n";
    JoinLinesSnoc(lines, 4);
    content := content + lines[4] + "\n";
    JoinLinesSnoc(lines, 5);
    content := content + lines[5] + "\n";
    JoinLinesSnoc(lines, 6);
    content := content + lines[6] + "\n";
    JoinLinesSnoc(lines, 7);
    content := content + lines[7] + "\n";
    assert lines[..8] == lines;
  }

  /** `removeLineComments`: everything from the first '#' on is dropped, then white space. */
  function RemoveLineComments(line: string): (r: string)
    ensures '#' !in r && Trimmed(r)
    ensures |r| <= |line|
  {
    var before := BeforeFirst(line, '#');
    var r := TrimSpace(before);
    assert '#' !in r by {
      if '#' in r {
        TrimSpaceWithin(before, '#');
      }
    }
    r
  }

  /** The text kept by RemoveLineComments is the trimmed text before a '#' and its spaces. */
  lemma RemoveLineCommentsStrips(a: string, sp: string, b: string)
    requires '#' !in a && Trimmed(a) && AllSpace(sp)
    ensures RemoveLineComments(a + sp + "#" + b) == a
    ensures RemoveLineComments(a + sp) == a
  {
    assert forall i :: 0 <= i < |sp| ==> sp[i] != '#';
    assert a + sp + "#" + b == (a + sp) + ['#'] + b;
    BeforeFirstOfJoined(a + sp, '#', b);
    BeforeFirstAbsent(a + sp, '#');
    assert a + sp == "" + a + sp;
    TrimSpaceStrips("", a, sp);
  }

  lemma RemoveLineCommentsIdempotent(line: string)
    ensures RemoveLineComments(RemoveLineComments(line)) == RemoveLineComments(line)
  {
    var r := RemoveLineComments(line);
    BeforeFirstAbsent(r, '#');
    TrimSpaceOfTrimmed(r);
  }

  /** The value after a line's prefix, as `findLineWithPrefixAndTrim` returns it. */
  function FieldTail(line: string, prefix: string): string
    requires |prefix| <= |line|
  {
    RemoveLineComments(TrimSpace(line[|prefix|..]))
  }

  /** The value of the first line starting with prefix, or "" when there is none. */
  function FieldValue(lines: seq<string>, prefix: string): string {
    if lines == [] then ""
    else if HasPrefix(lines[0], prefix) then FieldTail(lines[0], prefix)
    else FieldValue(lines[1..], prefix)
  }

  /** A value read from the file never holds a '#' and has no white space at either end. */
  lemma {:induction false} FieldValueClean(lines: seq<string>, prefix: string)
    ensures '#' !in FieldValue(lines, prefix) && Trimmed(FieldValue(lines, prefix))
  {
    if lines != [] && !HasPrefix(lines[0], prefix) {
      FieldValueClean(lines[1..], prefix);
    }
  }

  /** Only the first line with the prefix counts; later ones are ignored. */
  lemma {:induction false} FieldValueFirst(lines: seq<string>, prefix: string, i: int)
    requires 0 <= i < |lines| && HasPrefix(lines[i], prefix)
    requires forall j :: 0 <= j < i ==> !HasPrefix(lines[j], prefix)
    ensures FieldValue(lines, prefix) == FieldTail(lines[i], prefix)
  {
    if i > 0 {
      FieldValueFirst(lines[1..], prefix, i - 1);
    }
  }

  /** No line with the prefix: the value is empty. */
  lemma {:induction false} FieldValueAbsent(lines: seq<string>, prefix: string)
    requires forall j :: 0 <= j < |lines| ==> !HasPrefix(lines[j], prefix)
    ensures FieldValue(lines, prefix) == ""
  {
    if lines != [] {
      FieldValueAbsent(lines[1..], prefix);
    }
  }

  /** `findLineWithPrefixAndTrim`. */
  method FindLineWithPrefixAndTrim(lines: seq<string>, prefix: string) returns (r: string)
    ensures r == FieldValue(lines, prefix)
    ensures '#' !in r && Trimmed(r)
  {
    FieldValueClean(lines, prefix);
    for i := 0 to |lines|
      invariant FieldValue(lines, prefix) == FieldValue(lines[i..], prefix)
    {
      if HasPrefix(lines[i], prefix) {
        return RemoveLineComments(TrimSpace(lines[i][|prefix|..]));
      }
      assert lines[i..][1..] == lines[i + 1..];
    }
    return "";
  }

  /** A field that is absent or left empty keeps the old value. */
  function KeepIfEmpty(value: string, old_: string): string {
    if value == "" then old_ else value
  }

  /** A time field: the old instant when empty, otherwise what parsing gives. */
  function ParsedOr(raw: string, old_: int, parseTime: string -> Result<int>): Result<int> {
    if raw == "" then Ok(old_) else parseTime(raw)
  }

  /** The outcome of the merge-and-validate block of the edit command. */
  function EditedEntry(selected: TimeEntry, lines: seq<string>, parseTime: string -> Result<int>): (r: Result<TimeEntry>)
    ensures r.Ok? ==> r.value.id == selected.id && r.value.start <= r.value.end
    ensures r.Err? ==>
      || r.error == IdMismatch || r.error == EndBeforeStart
      || parseTime(FieldValue(lines, "Start:")) == Err(r.error)
      || parseTime(FieldValue(lines, "End:")) == Err(r.error)
  {
    var id := KeepIfEmpty(FieldValue(lines, "ID:"), selected.id);
    if id != selected.id then Err(IdMismatch)
    else
      var project := KeepIfEmpty(FieldValue(lines, "Project:"), selected.project);
      var task := KeepIfEmpty(FieldValue(lines, "Task:"), selected.task);
      var start := ParsedOr(FieldValue(lines, "Start:"), selected.start, parseTime);
      if start.Err? then Err(start.error)
      else
        var end := ParsedOr(FieldValue(lines, "End:"), selected.end, parseTime);
        if end.Err? then Err(end.error)
        else if end.value < start.value then Err(EndBeforeStart)
        else Ok(TimeEntry(selected.id, project, task, start.value, end.value))
  }

  /** The merge block (cli/edit.go:72-115, 135-141), reassigning one variable at a time. */
  method MergeEditedEntry(selected: TimeEntry, lines: seq<string>, parseTime: string -> Result<int>)
    returns (r: Result<TimeEntry>)
    ensures r == EditedEntry(selected, lines, parseTime)
  {
    var newId := FindLineWithPrefixAndTrim(lines, "ID:");
    if newId == "" {
      newId := selected.id;
    }
    if newId != selected.id {
      return Err(IdMismatch);
    }
    var newProject := FindLineWithPrefixAndTrim(lines, "Project:");
    if newProject == "" {
      newProject := selected.project;
    }
    var newTask := FindLineWithPrefixAndTrim(lines, "Task:");
    if newTask == "" {
      newTask := selected.task;
    }
    var newStart := selected.start;
    var newStartRaw := FindLineWithPrefixAndTrim(lines, "Start:");
    if newStartRaw != "" {
      var parsed := parseTime(newStartRaw);
      if parsed.Err? {
        return Err(parsed.error);
      }
      newStart := parsed.value;
    }
    var newEnd := selected.end;
    var newEndRaw := FindLineWithPrefixAndTrim(lines, "End:");
    if newEndRaw != "" {
      var parsed := parseTime(newEndRaw);
      if parsed.Err? {
        return Err(parsed.error);
      }
      newEnd := parsed.value;
    }
    if newEnd < newStart {
      return Err(EndBeforeStart);
    }
    return Ok(TimeEntry(selected.id, newProject, newTask, newStart, newEnd));
  }

  /** A different non-empty ID is refused; an accepted edit keeps the ID and does not end before it starts. */
  lemma EditedEntryChecks(selected: TimeEntry, lines: seq<string>, parseTime: string -> Result<int>)
    ensures var v := FieldValue(lines, "ID:");
      v != "" && v != selected.id ==> EditedEntry(selected, lines, parseTime) == Err(IdMismatch)
    ensures var r := EditedEntry(selected, lines, parseTime);
      r.Ok? ==> r.value.id == selected.id && r.value.start <= r.value.end
  {
  }

  /**
   * On success each text field is the edited value, or the old one when the edit left it
   * absent or empty; so a field that was set can never become empty.
   */
  lemma EditedEntryFields(selected: TimeEntry, lines: seq<string>, parseTime: string -> Result<int>)
    requires EditedEntry(selected, lines, parseTime).Ok?
    ensures var e := EditedEntry(selected, lines, parseTime).value;
      && e.project == KeepIfEmpty(FieldValue(lines, "Project:"), selected.project)
      && e.task == KeepIfEmpty(FieldValue(lines, "Task:"), selected.task)
      && (selected.project != "" ==> e.project != "")
      && (selected.task != "" ==> e.task != "")
      && (FieldValue(lines, "Start:") == "" ==> e.start == selected.start)
      && (FieldValue(lines, "End:") == "" ==> e.end == selected.end)
  {
  }

  /** The times are refused exactly when the end comes before the start. */
  lemma EndBeforeStartRefused(selected: TimeEntry, lines: seq<string>, parseTime: string -> Result<int>)
    requires FieldValue(lines, "ID:") in {"", selected.id}
    requires ParsedOr(FieldValue(lines, "Start:"), selected.start, parseTime).Ok?
    requires ParsedOr(FieldValue(lines, "End:"), selected.end, parseTime).Ok?
    ensures var s := ParsedOr(FieldValue(lines, "Start:"), selected.start, parseTime).value;
      var e := ParsedOr(FieldValue(lines, "End:"), selected.end, parseTime).value;
      EditedEntry(selected, lines, parseTime) == (if e < s then Err(EndBeforeStart) else
        Ok(TimeEntry(selected.id, KeepIfEmpty(FieldValue(lines, "Project:"), selected.project),
          KeepIfEmpty(FieldValue(lines, "Task:"), selected.task), s, e)))
  {
  }

  /** A value that survives the file: no '#', no line break, no white space at the ends. */
  predicate Clean(v: string) {
    '#' !in v && '\n' !in v && Trimmed(v)
  }

  lemma TailOfField(prefix: string, v: string)
    requires Clean(v)
    ensures FieldTail(prefix + " " + v, prefix) == v
  {
    var line := prefix + " " + v;
    assert line[|prefix|..] == " " + v + "";
    TrimSpaceStrips(" ", v, "");
    assert v + "" == v;
    RemoveLineCommentsStrips(v, "", "");
  }

  lemma DropPrefix(p: string, x: string)
    ensures (p + x)[|p|..] == x
  {
  }

  lemma IdRestTrimmed(id: string)
    requires Clean(id) && id != ""
    ensures Trimmed(id + IdComment)
  {
    var rest := id + IdComment;
    assert rest[0] == id[0];
    assert rest[|rest| - 1] == IdComment[|IdComment| - 1];
  }

  lemma IdLineTail(id: string)
    ensures ("ID: " + id + IdComment)[3..] == " " + (id + IdComment) + ""
  {
    assert "ID: " + id + IdComment == "ID:" + (" " + (id + IdComment) + "");
    DropPrefix("ID:", " " + (id + IdComment) + "");
  }

  lemma IdRestComments(id: string)
    requires Clean(id) && id != ""
    ensures RemoveLineComments(id + IdComment) == id
  {
    var note := " Don't change this line";
    assert id + IdComment == id + " " + "#" + note;
    RemoveLineCommentsStrips(id, " ", note);
  }

  lemma TailOfIdLine(id: string)
    requires Clean(id) && id != ""
    ensures FieldTail("ID: " + id + IdComment, "ID:") == id
  {
    IdRestTrimmed(id);
    IdLineTail(id);
    TrimSpaceStrips(" ", id + IdComment, "");
    IdRestComments(id);
  }

  lemma NotPrefixed(line: string, prefix: string)
    requires prefix != [] && (line == [] || line[0] != prefix[0])
    ensures !HasPrefix(line, prefix)
  {
    if |prefix| <= |line| {
      assert line[..|prefix|][0] == line[0];
    }
  }

  /** The first line that starts with prefix's first character is the field's line. */
  lemma {:induction false} FieldFoundAt(lines: seq<string>, prefix: string, i: int)
    requires prefix != [] && 0 <= i < |lines| && HasPrefix(lines[i], prefix)
    requires forall j :: 0 <= j < i ==> lines[j] == [] || lines[j][0] != prefix[0]
    ensures FieldValue(lines, prefix) == FieldTail(lines[i], prefix)
  {
    forall j | 0 <= j < i ensures !HasPrefix(lines[j], prefix) {
      NotPrefixed(lines[j], prefix);
    }
    FieldValueFirst(lines, prefix, i);
  }

  lemma FieldOfLine(lines: seq<string>, prefix: string, i: int, v: string)
    requires prefix != [] && 0 <= i < |lines| && lines[i] == prefix + " " + v && Clean(v)
    requires forall j :: 0 <= j < i ==> lines[j] == [] || lines[j][0] != prefix[0]
    ensures FieldValue(lines, prefix) == v
  {
    assert lines[i][..|prefix|] == prefix;
    FieldFoundAt(lines, prefix, i);
    TailOfField(prefix, v);
  }

  /** No line of the file before line i (the line of the field whose key starts with c) starts with c. */
  lemma EarlierHeads(e: TimeEntry, formatTime: int -> string, i: int, c: char)
    requires (i, c) in {(3, 'I'), (4, 'P'), (5, 'T'), (6, 'S'), (7, 'E')}
    ensures var lines := FileLines(e, formatTime);
      forall j :: 0 <= j < i ==> lines[j] == [] || lines[j][0] != c
  {
    var lines := FileLines(e, formatTime);
    forall j | 0 <= j < i ensures lines[j] == [] || lines[j][0] != c {
      if j == 0 {
        assert lines[j] == "# Modify this file to change the time entry";
      } else if j == 1 {
        assert lines[j] == "# Don't change the ID line";
      } else if j == 2 {
        assert lines[j] == [];
      } else if j == 3 {
        assert lines[j][0] == 'I';
      } else if j == 4 {
        assert lines[j][0] == 'P';
      } else if j == 5 {
        assert lines[j][0] == 'T';
      } else {
        assert lines[j][0] == 'S';
      }
    }
  }

  /** The lines `strings.Split` gives back from the file's text. */
  function FileLines(e: TimeEntry, formatTime: int -> string): seq<string> {
    EditFileLines(e, formatTime) + [""]
  }

  lemma IdOfEditFile(e: TimeEntry, formatTime: int -> string)
    requires Clean(e.id) && e.id != ""
    ensures FieldValue(FileLines(e, formatTime), "ID:") == e.id
  {
    var lines := FileLines(e, formatTime);
    assert lines[3][..3] == "ID:";
    EarlierHeads(e, formatTime, 3, 'I');
    FieldFoundAt(lines, "ID:", 3);
    TailOfIdLine(e.id);
  }

  lemma ProjectOfEditFile(e: TimeEntry, formatTime: int -> string)
    requires Clean(e.project)
    ensures FieldValue(FileLines(e, formatTime), "Project:") == e.project
  {
    EarlierHeads(e, formatTime, 4, 'P');
    FieldOfLine(FileLines(e, formatTime), "Project:", 4, e.project);
  }

  lemma TaskOfEditFile(e: TimeEntry, formatTime: int -> string)
    requires Clean(e.task)
    ensures FieldValue(FileLines(e, formatTime), "Task:") == e.task
  {
    EarlierHeads(e, formatTime, 5, 'T');
    FieldOfLine(FileLines(e, formatTime), "Task:", 5, e.task);
  }

  lemma TimesOfEditFile(e: TimeEntry, formatTime: int -> string)
    requires Clean(formatTime(e.start)) && Clean(formatTime(e.end))
    ensures FieldValue(FileLines(e, formatTime), "Start:") == formatTime(e.start)
    ensures FieldValue(FileLines(e, formatTime), "End:") == formatTime(e.end)
  {
    EarlierHeads(e, formatTime, 6, 'S');
    FieldOfLine(FileLines(e, formatTime), "Start:", 6, formatTime(e.start));
    EarlierHeads(e, formatTime, 7, 'E');
    FieldOfLine(FileLines(e, formatTime), "End:", 7, formatTime(e.end));
  }

  lemma FirstCommentSingle()
    ensures '\n' !in "# Modify this file to change the time entry"
  {
  }

  lemma SecondCommentSingle()
    ensures '\n' !in "# Don't change the ID line"
  {
  }

  lemma IdCommentSingle()
    ensures '\n' !in IdComment
  {
  }

  /** Every line of the file is a single line when the values hold no line break. */
  lemma EditLinesSingle(e: TimeEntry, formatTime: int -> string)
    requires Clean(e.id) && Clean(e.project) && Clean(e.task)
    requires Clean(formatTime(e.start)) && Clean(formatTime(e.end))
    ensures var lines := EditFileLines(e, formatTime);
      forall i :: 0 <= i < |lines| ==> '\n' !in lines[i]
  {
    var lines := EditFileLines(e, formatTime);
    FirstCommentSingle();
    SecondCommentSingle();
    IdCommentSingle();
    NoNewlineJoin("ID: ", e.id);
    NoNewlineJoin("ID: " + e.id, IdComment);
    NoNewlineJoin("Project: ", e.project);
    NoNewlineJoin("Task: ", e.task);
    NoNewlineJoin("Start: ", formatTime(e.start));
    NoNewlineJoin("End: ", formatTime(e.end));
    forall i | 0 <= i < |lines| ensures '\n' !in lines[i] {
      if i == 0 {
      } else if i == 1 {
      } else if i == 2 {
      } else if i == 3 {
      } else if i == 4 {
      } else if i == 5 {
      } else if i == 6 {
      } else {
      }
    }
  }

  lemma NoNewlineJoin(a: string, b: string)
    requires '\n' !in a && '\n' !in b
    ensures '\n' !in a + b
  {
  }

  /**
   * Saving the file unchanged gives back the selected entry, with start and end replaced
   * by what parsing their RFC 822 text yields (RFC 822 has no seconds).
   */
  lemma UnchangedFileRoundTrip(e: TimeEntry, formatTime: int -> string, parseTime: string -> Result<int>)
    requires Clean(e.id) && e.id != ""
    requires Clean(e.project) && Clean(e.task)
    requires Clean(formatTime(e.start)) && formatTime(e.start) != ""
    requires Clean(formatTime(e.end)) && formatTime(e.end) != ""
    requires parseTime(formatTime(e.start)).Ok? && parseTime(formatTime(e.end)).Ok?
    requires parseTime(formatTime(e.start)).value <= parseTime(formatTime(e.end)).value
    ensures EditedEntry(e, SplitOn(JoinLines(EditFileLines(e, formatTime)), '\n'), parseTime)
      == Ok(TimeEntry(e.id, e.project, e.task,
          parseTime(formatTime(e.start)).value, parseTime(formatTime(e.end)).value))
  {
    EditLinesSingle(e, formatTime);
    SplitJoinLines(EditFileLines(e, formatTime));
    var lines := FileLines(e, formatTime);
    assert SplitOn(JoinLines(EditFileLines(e, formatTime)), '\n') == lines;
    IdOfEditFile(e, formatTime);
    ProjectOfEditFile(e, formatTime);
    TaskOfEditFile(e, formatTime);
    TimesOfEditFile(e, formatTime);
  }

  /** `editedEntry` reaches the store only on success; an error leaves the entries as they were. */
  method ApplyEdit(store: Store, selected: TimeEntry, lines: seq<string>, parseTime: string -> Result<int>)
    returns (err: Option<Error>)
    requires store.Ready()
    modifies store`entries
    ensures store.Ready()
    ensures var r := EditedEntry(selected, lines, parseTime);
      && (r.Err? ==> err == Some(r.error) && store.entries == old(store.entries))
      && (r.Ok? ==> err == None && store.entries == ReplaceById(old(store.entries), r.value))
  {
    var r := MergeEditedEntry(selected, lines, parseTime);
    if r.Err? {
      return Some(r.error);
    }
    store.UpdateTimeEntry(r.value);
    return None;
  }
}
