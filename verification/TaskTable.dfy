/** The task table of a powermetrics report: header, rows and the core mix each task is given. */
module TaskTable {
  import opened Wrappers
  import opened Arithmetic
  import opened Text
  import opened Sequences
  import opened Columns
  import InputDecoder

  // ----- the header -----

  /** Position of the first " %", or the length. */
  function PercentAt(s: string): (n: nat)
    ensures n <= |s|
    ensures forall i | 0 <= i < n :: !(" %" <= s[i..])
    ensures n < |s| ==> " %" <= s[n..]
  {
    if s == "" || " %" <= s then 0
    else
      var n := 1 + PercentAt(s[1..]);
      assert forall i | 1 <= i <= |s| :: s[i..] == s[1..][i - 1..];
      n
  }

  /** The columns that one header field names. */
  function FieldColumns(field: string): (names: seq<string>)
    ensures names != []
  {
    if StartsWith(field, "Deadlines (") then ["Deadline<2ms", "Deadline2-5ms"]
    else if StartsWith(field, "Wakeups (") then ["WakeupsIntr", "WakeupsPkgIdle"]
    else
      var pos := PercentAt(field);
      if pos < |field| then [field[..pos], "%" + field[pos + 2..]] else [field]
  }

  function HeaderColumns(fields: seq<string>): (names: seq<string>)
    ensures |names| >= |fields|
  {
    if fields == [] then []
    else HeaderColumns(fields[..|fields| - 1]) + FieldColumns(fields[|fields| - 1])
  }

  method ExpandAmpHeader(fields: seq<string>) returns (expanded: seq<string>)
    ensures expanded == HeaderColumns(fields)
  {
    expanded := [];
    var i := 0;
    while i < |fields|
      invariant 0 <= i <= |fields| && expanded == HeaderColumns(fields[..i])
    {
      var field := fields[i];
      assert fields[..i + 1][..i] == fields[..i];
      ghost var before := expanded;
      if StartsWith(field, "Deadlines (") {
        expanded := expanded + ["Deadline<2ms"];
        expanded := expanded + ["Deadline2-5ms"];
      } else if StartsWith(field, "Wakeups (") {
        expanded := expanded + ["WakeupsIntr"];
        expanded := expanded + ["WakeupsPkgIdle"];
      } else {
        var pos := PercentAt(field);
        if pos < |field| {
          expanded := expanded + [field[..pos]];
          expanded := expanded + ["%" + field[pos + 2..]];
        } else {
          expanded := expanded + [field];
        }
      }
      assert expanded == before + FieldColumns(field);
      i := i + 1;
    }
    assert fields[..|fields|] == fields;
  }

  /** The two fields that list their columns in parentheses become these columns, and a field without " %" is one. */
  lemma ListedColumns(listed: string, field: string)
    ensures FieldColumns("Deadlines (" + listed) == ["Deadline<2ms", "Deadline2-5ms"]
    ensures FieldColumns("Wakeups (" + listed) == ["WakeupsIntr", "WakeupsPkgIdle"]
    ensures !StartsWith(field, "Deadlines (") && !StartsWith(field, "Wakeups (") && !Contains(field, " %") ==>
              FieldColumns(field) == [field]
  {
    assert ("Wakeups (" + listed)[0] == 'W';
    assert Contains(field, " %") || forall i | 0 <= i <= |field| :: !(" %" <= field[i..]);
  }

  /** Two header columns that a single space merged are told apart when the second is a percentage. */
  lemma MergedPercentColumnSplits(name: string, percentName: string)
    requires !StartsWith(name + " %" + percentName, "Deadlines (") && !StartsWith(name + " %" + percentName, "Wakeups (")
    requires forall i | 0 <= i < |name| :: !(" %" <= name[i..])
    ensures FieldColumns(name + " %" + percentName) == [name, "%" + percentName]
  {
    var s := name + " %" + percentName;
    assert s[|name|..] == " %" + percentName;
    forall i | 0 <= i < |name|
      ensures !(" %" <= s[i..])
    {
      if i < |name| - 1 {
        assert s[i..][..2] == name[i..][..2];
      } else {
        assert s[i..][1] == ' ';
      }
    }
    assert PercentAt(s) == |name|;
    assert s[..|name|] == name;
    assert s[|name| + 2..] == percentName;
  }

  // ----- one row -----

  /** A row as a map from column name to cell; of two columns with one name the later wins. */
  function CellsOf(header: seq<string>, values: seq<string>): map<string, string>
    requires |header| == |values|
  {
    if header == [] then map[]
    else
      var n := |header| - 1;
      CellsOf(header[..n], values[..n])[Trim(header[n]) := Trim(values[n])]
  }

  function Atoi(s: string): int {
    match InputDecoder.ScanInt(CString(s))
    case None => 0
    case Some((value, _)) => value
  }

  /** The pid of a row: its ID column, or else its PID column. */
  function PidOf(cells: map<string, string>): Option<int> {
    if "ID" in cells then Some(Atoi(cells["ID"]))
    else if "PID" in cells then Some(Atoi(cells["PID"]))
    else None
  }

  datatype Task = Task(pid: int, cells: map<string, string>)

  /** The task a row describes, if it has the width of the header and a positive pid. */
  function TaskOf(header: seq<string>, values: seq<string>): Option<Task> {
    if |values| != |header| then None
    else
      var cells := CellsOf(header, values);
      var pid := PidOf(cells);
      if pid.Some? && pid.value > 0 then Some(Task(pid.value, cells)) else None
  }

  // ----- the scan over the lines -----

  const MARKER := "*** Running tasks ***"

  datatype Scan = Scan(inTasks: bool, header: seq<string>, tasks: seq<Task>)

  const START := Scan(false, [], [])

  predicate IsHeaderLine(line: string) {
    StartsWith(line, "Name") && Contains(line, "CPU ms/s")
  }

  predicate EndsTable(s: Scan, line: string) {
    s.inTasks && !Contains(line, MARKER) && StartsWith(line, "****")
  }

  /** The scan after one trimmed line that does not end the table. */
  function Step(s: Scan, line: string): Scan {
    if Contains(line, MARKER) then s.(inTasks := true)
    else if !s.inTasks || line == "" then s
    else if IsHeaderLine(line) then s.(header := HeaderColumns(Split(line)))
    else if s.header == [] then s
    else
      match TaskOf(s.header, Repair(TrimAll(Split(line)), |s.header|))
      case None => s
      case Some(task) => s.(tasks := s.tasks + [task])
  }

  function ScanLines(s: Scan, lines: seq<string>): Scan
    decreases |lines|
  {
    if lines == [] || EndsTable(s, Trim(lines[0])) then s
    else ScanLines(Step(s, Trim(lines[0])), lines[1..])
  }

  // ----- the core mix -----

  /** What atof makes of a cell: any function. */
  type Atof = string -> real

  datatype CoreMix = CoreMix(first: string, firstPercent: int, second: string, secondPercent: int)

  /** std::round: halves go away from zero. */
  function Round(r: real): int {
    if r >= 0.0 then (r + 0.5).Floor else -((-r + 0.5).Floor)
  }

  function ShareOf(atof: Atof, cells: map<string, string>, part: string): real
    requires part in cells && "CPU ms/s" in cells
  {
    var total := atof(cells["CPU ms/s"]);
    if total > 0.0 then atof(cells[part]) * 100.0 / total else 0.0
  }

  /** The share of the faster cores and whether it comes from a super-core column. */
  function Primary(atof: Atof, cells: map<string, string>): (real, bool) {
    if "%SCPU" in cells then (atof(cells["%SCPU"]), true)
    else if "SCPU ms/s" in cells && "CPU ms/s" in cells then (ShareOf(atof, cells, "SCPU ms/s"), true)
    else if "%PCPU" in cells then (atof(cells["%PCPU"]), false)
    else if "PCPU ms/s" in cells && "CPU ms/s" in cells then (ShareOf(atof, cells, "PCPU ms/s"), false)
    else (0.0, false)
  }

  function Rest(primary: real): real {
    if 100.0 - primary > 0.0 then 100.0 - primary else 0.0
  }

  function CoreMixOf(atof: Atof, hasSuper: bool, cells: map<string, string>): CoreMix {
    var (primary, isSuper) := Primary(atof, cells);
    CoreMix(if isSuper && hasSuper then "S" else "P", Round(primary),
            if isSuper && hasSuper then "P" else "E", Round(Rest(primary)))
  }

  /** When they fit an int, the two rounded percentages add up to 100 exactly when the primary one is not a half
      between 0 and 100 and does not exceed 100 by half a percent or more. */
  lemma PercentagesAddUpIff(atof: Atof, hasSuper: bool, cells: map<string, string>)
    requires FitsInt(CoreMixOf(atof, hasSuper, cells).firstPercent)
    requires FitsInt(CoreMixOf(atof, hasSuper, cells).secondPercent)
    ensures var mix := CoreMixOf(atof, hasSuper, cells);
            var primary := Primary(atof, cells).0;
            mix.firstPercent + mix.secondPercent == 100 <==>
            primary <= 0.0 || (primary < 100.0 && primary - primary.Floor as real != 0.5) || 100.0 <= primary < 100.5
  {
    hide Primary;
    RoundedSum(Primary(atof, cells).0);
  }

  lemma RoundedSum(p: real)
    ensures Round(p) + Round(Rest(p)) == 100 <==>
            p <= 0.0 || (p < 100.0 && p - p.Floor as real != 0.5) || 100.0 <= p < 100.5
  {
    var whole := p.Floor;
    var part := p - whole as real;
    assert p == whole as real + part;
    FloorIs(p + 0.5, if part < 0.5 then whole else whole + 1);
    FloorIs(-p + 0.5, if part <= 0.5 then -whole else -whole - 1);
    FloorIs(100.0 - p + 0.5, if part <= 0.5 then 100 - whole else 99 - whole);
  }

  lemma FloorIs(r: real, n: int)
    requires n as real <= r < n as real + 1.0
    ensures r.Floor == n
  {
  }

  /** The core mix of every pid; of two rows with one pid the later wins. */
  function CoreMixes(atof: Atof, hasSuper: bool, tasks: seq<Task>): (mixes: map<int, CoreMix>)
    ensures forall pid :: pid in mixes <==> exists i | 0 <= i < |tasks| :: tasks[i].pid == pid
  {
    if tasks == [] then map[]
    else
      var n := |tasks| - 1;
      CoreMixes(atof, hasSuper, tasks[..n])[tasks[n].pid := CoreMixOf(atof, hasSuper, tasks[n].cells)]
  }

  // ----- the program's loops -----

  method ReadCells(header: seq<string>, values: seq<string>) returns (cells: map<string, string>)
    requires |header| == |values|
    ensures cells == CellsOf(header, values)
  {
    hide Trim;
    cells := map[];
    var i := 0;
    while i < |header|
      invariant 0 <= i <= |header| && cells == CellsOf(header[..i], values[..i])
    {
      cells := cells[Trim(header[i]) := Trim(values[i])];
      i := i + 1;
      assert header[..i][..i - 1] == header[..i - 1] && values[..i][..i - 1] == values[..i - 1];
    }
    assert header[..|header|] == header && values[..|values|] == values;
  }

  /** One row of the table: its task, if it is accepted. */
  method ReadTask(header: seq<string>, line: string) returns (task: Option<Task>)
    ensures task == TaskOf(header, Repair(TrimAll(Split(line)), |header|))
  {
    hide Split, Repair, TrimAll, CellsOf, Atoi;
    var values := SplitMultiSpace(line);
    values := SplitMergedNumericFields(values, |header|);
    if |values| != |header| {
      return None;
    }
    var cells := ReadCells(header, values);
    var pid := PidOf(cells);
    if pid.None? || pid.value <= 0 {
      return None;
    }
    task := Some(Task(pid.value, cells));
  }

  lemma MixesAppend(atof: Atof, hasSuper: bool, tasks: seq<Task>, task: Task)
    ensures CoreMixes(atof, hasSuper, tasks + [task]) ==
            CoreMixes(atof, hasSuper, tasks)[task.pid := CoreMixOf(atof, hasSuper, task.cells)]
  {
    FrontOfAppend(tasks, task);
    hide CoreMixOf;
  }

  method ParseAmpData(text: string, hasSuper: bool, atof: Atof) returns (coreMix: map<int, CoreMix>)
    ensures coreMix == CoreMixes(atof, hasSuper, ScanLines(START, ReadLines(text)).tasks)
  {
    hide CoreMixOf, TaskOf, Contains, Trim, HeaderColumns, Split, CoreMixes, Repair, TrimAll;
    NoMixes(atof, hasSuper);
    var lines := ReadLines(text);
    coreMix := map[];
    var inTasks := false;
    var header: seq<string> := [];
    ghost var tasks: seq<Task> := [];
    var i := 0;
    while i < |lines|
      invariant 0 <= i <= |lines|
      invariant coreMix == CoreMixes(atof, hasSuper, tasks)
      invariant ScanLines(Scan(inTasks, header, tasks), lines[i..]) == ScanLines(START, lines)
    {
      var line := Trim(lines[i]);
      assert lines[i..][0] == lines[i] && lines[i..][1..] == lines[i + 1..];
      i := i + 1;
      if Contains(line, MARKER) {
        inTasks := true;
        continue;
      }
      if !inTasks {
        continue;
      }
      if StartsWith(line, "****") {
        return;
      }
      if line == "" {
        continue;
      }
      if IsHeaderLine(line) {
        var fields := SplitMultiSpace(line);
        header := ExpandAmpHeader(fields);
        continue;
      }
      if header == [] {
        continue;
      }
      var task := ReadTask(header, line);
      if task.None? {
        continue;
      }
      MixesAppend(atof, hasSuper, tasks, task.value);
      coreMix := coreMix[task.value.pid := CoreMixOf(atof, hasSuper, task.value.cells)];
      tasks := tasks + [task.value];
    }
  }

  lemma NoMixes(atof: Atof, hasSuper: bool)
    ensures CoreMixes(atof, hasSuper, []) == map[]
  {
  }
}

/** A whole report reads back to the columns it was laid out from. */
module TaskTableFacts {
  import opened Wrappers
  import opened Arithmetic
  import opened Text
  import opened Sequences
  import opened Columns
  import opened ColumnFacts
  import opened TaskTable
  import InputDecoder
  import opened InputConverse

  /** A table row as it is laid out, and the line it stands on. */
  datatype TableRow = TableRow(columns: seq<string>, gaps: seq<nat>, line: string)

  /** A row that is no marker, end or header line, laid out recoverably for the header, perhaps indented, with
      a pid that fits an int. */
  ghost predicate Readable(header: seq<string>, row: TableRow) {
    && IsRow(row.columns, row.gaps) && Recoverable(row.columns, row.gaps)
    && |row.columns| == |header|
    && Trim(row.line) == Line(row.columns, row.gaps)
    && !Contains(Trim(row.line), MARKER) && !StartsWith(Trim(row.line), "****") && !IsHeaderLine(Trim(row.line))
    && TaskOf(header, row.columns).Some? && FitsInt(TaskOf(header, row.columns).value.pid)
  }

  /** A header whose columns are at least two spaces apart. */
  ghost predicate IsHeader(header: TableRow) {
    && IsRow(header.columns, header.gaps) && (forall i | 0 <= i < |header.gaps| :: header.gaps[i] >= 2)
    && Trim(header.line) == Line(header.columns, header.gaps)
    && IsHeaderLine(Trim(header.line)) && !Contains(Trim(header.line), MARKER)
  }

  ghost predicate AllReadable(header: seq<string>, rows: seq<TableRow>) {
    forall i | 0 <= i < |rows| :: Readable(header, rows[i])
  }

  ghost function TaskFor(header: seq<string>, row: TableRow): Task
    requires Readable(header, row)
  {
    TaskOf(header, row.columns).value
  }

  /** One task for every row, in order. */
  ghost function TasksOf(header: seq<string>, rows: seq<TableRow>): (tasks: seq<Task>)
    requires AllReadable(header, rows)
    ensures |tasks| == |rows| && forall i | 0 <= i < |rows| :: tasks[i] == TaskFor(header, rows[i])
  {
    seq(|rows|, i requires 0 <= i < |rows| => TaskFor(header, rows[i]))
  }

  function Lines(rows: seq<TableRow>): (lines: seq<string>)
    ensures |lines| == |rows| && forall i | 0 <= i < |rows| :: lines[i] == rows[i].line
  {
    seq(|rows|, i requires 0 <= i < |rows| => rows[i].line)
  }

  lemma LineIsNotEmpty(columns: seq<string>, gaps: seq<nat>)
    requires IsRow(columns, gaps)
    ensures Line(columns, gaps) != ""
  {
  }

  /** A readable row is never dropped and no cell is lost or shifted. */
  lemma StepReadsRow(s: Scan, row: TableRow)
    requires s.inTasks && s.header != [] && Readable(s.header, row)
    ensures Step(s, Trim(row.line)) == s.(tasks := s.tasks + [TaskFor(s.header, row)])
    ensures !EndsTable(s, Trim(row.line))
  {
    LineIsNotEmpty(row.columns, row.gaps);
    RecoveryYieldsColumns(row.columns, row.gaps);
    hide Contains, TaskOf, Repair, TrimAll, Split, IsRow, Recoverable, Line;
  }

  lemma {:induction false} ScanReadsRows(s: Scan, rows: seq<TableRow>, after: seq<string>)
    requires s.inTasks && s.header != [] && AllReadable(s.header, rows)
    ensures ScanLines(s, Lines(rows) + after) ==
            ScanLines(s.(tasks := s.tasks + TasksOf(s.header, rows)), after)
    decreases |rows|
  {
    hide Readable, Step, EndsTable, TaskFor, Trim;
    var lines := Lines(rows) + after;
    if rows == [] {
      assert lines == after;
      Empty(s.tasks);
    } else {
      StepReadsRow(s, rows[0]);
      assert lines[0] == rows[0].line;
      assert lines[1..] == Lines(rows[1..]) + after;
      var task := TaskFor(s.header, rows[0]);
      ScanReadsRows(s.(tasks := s.tasks + [task]), rows[1..], after);
      assert [task] + TasksOf(s.header, rows[1..]) == TasksOf(s.header, rows);
      Associate(s.tasks, [task], TasksOf(s.header, rows[1..]));
    }
  }

  lemma {:induction false} ScanSkipsPreamble(before: seq<string>, after: seq<string>)
    requires forall line | line in before :: !Contains(Trim(line), MARKER)
    ensures ScanLines(START, before + after) == ScanLines(START, after)
  {
    hide Contains, Trim;
    if before == [] {
      assert before + after == after;
    } else {
      assert (before + after)[0] == before[0] && (before + after)[1..] == before[1..] + after;
      ScanSkipsPreamble(before[1..], after);
    }
  }

  lemma StepOpens(marker: string)
    requires Contains(Trim(marker), MARKER)
    ensures Step(START, Trim(marker)) == Scan(true, [], []) && !EndsTable(START, Trim(marker))
  {
    hide Contains, Trim;
  }

  lemma HeaderFields(header: TableRow)
    requires IsHeader(header)
    ensures Split(Trim(header.line)) == header.columns
    ensures IsHeaderLine(Trim(header.line)) && !Contains(Trim(header.line), MARKER)
  {
    SplitRecoversIffWide(header.columns, header.gaps);
    hide Contains, Split, Line, IsRow, Trim, IsHeaderLine;
  }

  lemma NameIsNoEnd(line: string)
    requires IsHeaderLine(line)
    ensures line != "" && !StartsWith(line, "****")
  {
    hide Contains;
    assert line[0] == 'N';
  }

  lemma StepReadsHeader(s: Scan, header: TableRow)
    requires s.inTasks && IsHeader(header)
    ensures Step(s, Trim(header.line)) == s.(header := HeaderColumns(header.columns))
    ensures !EndsTable(s, Trim(header.line))
  {
    HeaderFields(header);
    NameIsNoEnd(Trim(header.line));
    hide IsHeader, IsHeaderLine, Contains, HeaderColumns, Split, Trim, TaskOf, Repair;
  }

  /** The marker line opens the table and the header line names its columns. */
  lemma ScanOpensTable(marker: string, header: TableRow, after: seq<string>)
    requires Contains(Trim(marker), MARKER) && IsHeader(header)
    ensures ScanLines(START, [marker] + ([header.line] + after)) ==
            ScanLines(Scan(true, HeaderColumns(header.columns), []), after)
  {
    StepOpens(marker);
    StepReadsHeader(Scan(true, [], []), header);
    hide IsHeader, Contains, Trim, HeaderColumns, Step, EndsTable;
    ScanOne(START, marker, [header.line] + after);
    ScanOne(Scan(true, [], []), header.line, after);
  }

  lemma ScanOne(s: Scan, line: string, after: seq<string>)
    requires !EndsTable(s, Trim(line))
    ensures ScanLines(s, [line] + after) == ScanLines(Step(s, Trim(line)), after)
  {
    hide EndsTable, Step, Trim;
    var lines := [line] + after;
    assert lines[0] == line && lines[1..] == after;
  }

  /** Main result: a report with anything but the marker before its table and anything after the end line
      reads back to exactly the tasks of its rows, in order. */
  lemma TableReadsBack(before: seq<string>, marker: string, header: TableRow, rows: seq<TableRow>,
                       end: string, after: seq<string>)
    requires forall line | line in before :: !Contains(Trim(line), MARKER)
    requires Contains(Trim(marker), MARKER) && IsHeader(header)
    requires AllReadable(HeaderColumns(header.columns), rows)
    requires StartsWith(Trim(end), "****") && !Contains(Trim(end), MARKER)
    ensures ScanLines(START, before + ([marker] + ([header.line] + (Lines(rows) + ([end] + after))))).tasks ==
            TasksOf(HeaderColumns(header.columns), rows)
  {
    hide Readable, Contains, Trim, Step;
    var names := HeaderColumns(header.columns);
    var rest := Lines(rows) + ([end] + after);
    ScanSkipsPreamble(before, [marker] + ([header.line] + rest));
    ScanOpensTable(marker, header, rest);
    ScanReadsRows(Scan(true, names, []), rows, [end] + after);
    Empty(TasksOf(names, rows));
    assert ([end] + after)[0] == end;
  }

  /** With distinct column names every cell of a task is the column that stands under its name. */
  lemma {:induction false} CellUnderName(header: seq<string>, columns: seq<string>, i: nat)
    requires |header| == |columns| && i < |header|
    requires forall j, k | 0 <= j < k < |header| :: Trim(header[j]) != Trim(header[k])
    requires Trimmed(columns[i])
    ensures Trim(header[i]) in CellsOf(header, columns)
    ensures CellsOf(header, columns)[Trim(header[i])] == columns[i]
  {
    hide Trim, Trimmed;
    var n := |header| - 1;
    if i == n {
      TrimTrims(columns[i]);
    } else {
      assert forall j | 0 <= j < n :: header[..n][j] == header[j];
      CellUnderName(header[..n], columns[..n], i);
    }
  }

  /** The core mix of a pid comes from its last row. */
  lemma {:induction false} LastRowWins(atof: Atof, hasSuper: bool, tasks: seq<Task>, i: nat)
    requires i < |tasks| && forall k | i < k < |tasks| :: tasks[k].pid != tasks[i].pid
    ensures tasks[i].pid in CoreMixes(atof, hasSuper, tasks)
    ensures CoreMixes(atof, hasSuper, tasks)[tasks[i].pid] == CoreMixOf(atof, hasSuper, tasks[i].cells)
  {
    hide CoreMixOf;
    if i < |tasks| - 1 {
      LastRowWins(atof, hasSuper, tasks[..|tasks| - 1], i);
    }
  }

  // ----- which rows are tasks -----

  /** A row of the right width is a task exactly when its ID column, or else its PID column, starts like a positive
      number: blanks, a sign and digits, then anything but a digit. */
  lemma TaskIff(header: seq<string>, columns: seq<string>, pid: int)
    requires |columns| == |header|
    ensures var cells := CellsOf(header, columns);
            TaskOf(header, columns) == Some(Task(pid, cells)) <==>
            pid > 0 && (|| ("ID" in cells && StartsWithNumber(cells["ID"], pid))
                        || ("ID" !in cells && "PID" in cells && StartsWithNumber(cells["PID"], pid)))
  {
    hide Atoi, CellsOf;
    var cells := CellsOf(header, columns);
    if pid > 0 {
      if "ID" in cells {
        AtoiIff(cells["ID"], pid);
      } else if "PID" in cells {
        AtoiIff(cells["PID"], pid);
      }
    }
  }

  ghost predicate StartsWithNumber(s: string, v: int) {
    exists n: Number, tail :: IsNumber(n) && NoDigitFirst(tail) && s == TextOfNumber(n) + tail && NumberValue(n) == v
  }

  lemma AtoiIff(s: string, v: int)
    requires v > 0
    ensures Atoi(s) == v <==> StartsWithNumber(s, v)
  {
    var c := CString(s);
    hide CString, IsNumber, TextOfNumber, NumberValue, InputDecoder.ScanInt, NoDigitFirst;
    if StartsWithNumber(s, v) {
      var n: Number, tail :| IsNumber(n) && NoDigitFirst(tail) && s == TextOfNumber(n) + tail && NumberValue(n) == v;
      NumberHasNoZeroByte(n);
      CutTail(TextOfNumber(n), tail);
      ScanReadsNumber(n, CString(tail));
    }
    if Atoi(s) == v {
      ScannedIsNumber(c);
      var n: Number :| IsNumber(n) && NumberValue(n) == InputDecoder.ScanInt(c).value.0 &&
        c == TextOfNumber(n) + InputDecoder.ScanInt(c).value.1;
      var rest := InputDecoder.ScanInt(c).value.1;
      ZeroTail(s, TextOfNumber(n), rest);
    }
  }

  lemma ZeroTail(s: string, front: string, rest: string)
    requires CString(s) == front + rest && NoDigitFirst(rest)
    ensures exists tail :: s == front + tail && NoDigitFirst(tail)
  {
    var m := IndexOf(s, '\0');
    var tail := rest + s[m..];
    assert s == s[..m] + s[m..];
    assert s == front + tail;
    assert NoDigitFirst(tail);
  }

  /** The lines that open, name and end a table. */
  lemma SpecialLines(before: string, between: string, after: string)
    ensures Contains(before + (MARKER + after), MARKER)
    ensures IsHeaderLine("Name" + (between + ("CPU ms/s" + after)))
  {
    ContainsMiddle(before, MARKER, after);
    ContainsMiddle("Name" + between, "CPU ms/s", after);
    assert "Name" + (between + ("CPU ms/s" + after)) == ("Name" + between) + ("CPU ms/s" + after);
    hide Contains;
  }

  // ----- where the core mix comes from -----

  /** The nearest integer; a half goes away from zero. */
  ghost predicate IsRounded(r: real, n: int) {
    && -0.5 <= n as real - r <= 0.5
    && (n as real - r == 0.5 ==> r > 0.0) && (n as real - r == -0.5 ==> r < 0.0)
  }

  lemma RoundIs(r: real)
    ensures IsRounded(r, Round(r))
  {
  }

  /** A core mix with these labels whose first share is the nearest percentage and whose second is the rest. */
  ghost predicate Mixes(mix: CoreMix, first: string, second: string, share: real) {
    && mix.first == first && mix.second == second && IsRounded(share, mix.firstPercent)
    && IsRounded(if share >= 100.0 then 0.0 else 100.0 - share, mix.secondPercent)
  }

  /** A percentage column is taken as it stands, a time column as its share of the CPU time; a super-core column goes
      before a performance-core one and names the cores S and P on machines that have them, otherwise P and E. */
  lemma MixSource(atof: Atof, hasSuper: bool, cells: map<string, string>)
    ensures var mix := CoreMixOf(atof, hasSuper, cells);
            var first, second := if hasSuper then "S" else "P", if hasSuper then "P" else "E";
            var timed := "CPU ms/s" in cells;
            if "%SCPU" in cells then Mixes(mix, first, second, atof(cells["%SCPU"]))
            else if "SCPU ms/s" in cells && timed then
              Mixes(mix, first, second, Percent(atof(cells["SCPU ms/s"]), atof(cells["CPU ms/s"])))
            else if "%PCPU" in cells then Mixes(mix, "P", "E", atof(cells["%PCPU"]))
            else if "PCPU ms/s" in cells && timed then
              Mixes(mix, "P", "E", Percent(atof(cells["PCPU ms/s"]), atof(cells["CPU ms/s"])))
            else Mixes(mix, "P", "E", 0.0)
  {
    RoundIs(Primary(atof, cells).0);
    RoundIs(TaskTable.Rest(Primary(atof, cells).0));
    hide Round, IsRounded;
  }

  /** A hundred times the part in the whole; nothing when there is no whole. */
  ghost function Percent(part: real, whole: real): real {
    if whole <= 0.0 then 0.0 else part * 100.0 / whole
  }
}
