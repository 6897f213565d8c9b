/** Recovering the columns of a powermetrics task row: splitting on wide gaps, then repairing merged numbers. */
module Columns {
  import opened Text
  import opened Sequences

  // ----- splitting on two or more spaces -----

  datatype SplitState = SplitState(result: seq<string>, current: string, spaceRun: nat)

  function SplitStep(s: SplitState, ch: char): SplitState {
    if ch == ' ' then
      if s.spaceRun + 1 >= 2 then
        if s.current != "" then SplitState(s.result + [Trim(s.current)], "", s.spaceRun + 1)
        else s.(spaceRun := s.spaceRun + 1)
      else if s.current != "" then s.(current := s.current + [ch], spaceRun := s.spaceRun + 1)
      else s.(spaceRun := s.spaceRun + 1)
    else s.(current := s.current + [ch], spaceRun := 0)
  }

  function SplitScan(s: SplitState, line: string): SplitState {
    if line == "" then s else SplitStep(SplitScan(s, line[..|line| - 1]), line[|line| - 1])
  }

  function SplitEnd(s: SplitState): seq<string> {
    if s.current != "" then s.result + [Trim(s.current)] else s.result
  }

  function Split(line: string): seq<string> {
    SplitEnd(SplitScan(SplitState([], "", 0), line))
  }

  method SplitMultiSpace(line: string) returns (result: seq<string>)
    ensures result == Split(line)
  {
    result := [];
    var current := "";
    var spaceRun: nat := 0;
    var i := 0;
    while i < |line|
      invariant 0 <= i <= |line|
      invariant SplitState(result, current, spaceRun) == SplitScan(SplitState([], "", 0), line[..i])
    {
      var ch := line[i];
      assert line[..i + 1][..i] == line[..i];
      if ch == ' ' {
        spaceRun := spaceRun + 1;
        if spaceRun >= 2 {
          if current != "" {
            result := result + [Trim(current)];
            current := "";
          }
        } else if current != "" {
          current := current + [ch];
        }
      } else {
        spaceRun := 0;
        current := current + [ch];
      }
      i := i + 1;
    }
    assert line[..|line|] == line;
    if current != "" {
      result := result + [Trim(current)];
    }
  }

  // ----- numeric subfields -----

  predicate IsNumericChar(c: char) {
    IsDigit(c) || c in ".+-eE"
  }

  predicate IsNumericField(text: string) {
    var t := Trim(text);
    (forall i | 0 <= i < |t| :: IsNumericChar(t[i])) && exists i | 0 <= i < |t| :: IsDigit(t[i])
  }

  predicate AllNumeric(parts: seq<string>) {
    forall i | 0 <= i < |parts| :: IsNumericField(parts[i])
  }

  predicate Splittable(field: string) {
    |Words(field)| >= 2 && AllNumeric(Words(field))
  }

  /** The words of a field when they are at least two and all numeric, otherwise nothing. */
  function NumericSubfields(field: string): (parts: seq<string>)
    ensures parts != [] <==> Splittable(field)
    ensures parts != [] ==> |parts| >= 2 && parts == Words(field)
  {
    if Splittable(field) then Words(field) else []
  }

  method SplitNumericSubfields(field: string) returns (parts: seq<string>)
    ensures parts == NumericSubfields(field)
    ensures parts != [] <==> Splittable(field)
  {
    hide Words, IsNumericField;
    var words := Words(field);
    parts := [];
    var i := 0;
    while i < |words|
      invariant 0 <= i <= |words|
      invariant parts == words[..i] && AllNumeric(parts)
    {
      if !IsNumericField(words[i]) {
        return [];
      }
      parts := parts + [words[i]];
      i := i + 1;
    }
    assert words[..|words|] == words;
    if |parts| < 2 {
      return [];
    }
  }

  // ----- the repair loop -----

  /** The first splittable field, or the width when there is none. */
  function FirstSplittable(fields: seq<string>): (i: nat)
    ensures i <= |fields|
    ensures forall k | 0 <= k < i :: !Splittable(fields[k])
    ensures i < |fields| ==> Splittable(fields[i])
  {
    hide Splittable;
    if fields == [] || Splittable(fields[0]) then 0
    else
      var n := FirstSplittable(fields[1..]);
      assert forall k | 1 <= k < |fields| :: fields[k] == fields[1..][k - 1];
      n + 1
  }

  function SplitAt(fields: seq<string>, i: nat): (r: seq<string>)
    requires i < |fields| && Splittable(fields[i])
    ensures |r| > |fields|
  {
    fields[..i] + NumericSubfields(fields[i]) + fields[i + 1..]
  }

  /** Repeatedly splits the first splittable field until the width is reached or nothing can be split. */
  function Repair(fields: seq<string>, width: nat): (r: seq<string>)
    decreases width - |fields|
  {
    var i := FirstSplittable(fields);
    if |fields| >= width || i == |fields| then fields else Repair(SplitAt(fields, i), width)
  }

  function TrimAll(fields: seq<string>): (r: seq<string>)
    ensures |r| == |fields| && forall i | 0 <= i < |fields| :: r[i] == Trim(fields[i])
  {
    seq(|fields|, i requires 0 <= i < |fields| => Trim(fields[i]))
  }

  lemma FirstSplittableIs(fields: seq<string>, i: nat)
    requires i <= |fields| && forall k | 0 <= k < i :: !Splittable(fields[k])
    requires i < |fields| ==> Splittable(fields[i])
    ensures FirstSplittable(fields) == i
  {
    hide Splittable;
  }

  lemma RepairStep(fields: seq<string>, i: nat, width: nat)
    requires i <= |fields| && forall k | 0 <= k < i :: !Splittable(fields[k])
    requires i < |fields| ==> Splittable(fields[i])
    ensures |fields| >= width || i == |fields| ==> Repair(fields, width) == fields
    ensures |fields| < width && i < |fields| ==> Repair(fields, width) == Repair(SplitAt(fields, i), width)
  {
    hide Splittable, NumericSubfields;
    FirstSplittableIs(fields, i);
  }

  method TrimFields(fields: seq<string>) returns (r: seq<string>)
    ensures r == TrimAll(fields)
  {
    hide Trim;
    r := fields;
    var n := 0;
    while n < |fields|
      invariant 0 <= n <= |fields| == |r|
      invariant forall k | 0 <= k < n :: r[k] == Trim(fields[k])
      invariant forall k | n <= k < |fields| :: r[k] == fields[k]
    {
      r := r[n := Trim(r[n])];
      n := n + 1;
    }
  }

  /** One round of the repair loop: splits the first splittable field, if there is one. */
  method SplitFirst(fields: seq<string>) returns (r: seq<string>, changed: bool)
    ensures changed ==> exists i | 0 <= i < |fields| ::
              Splittable(fields[i]) && r == SplitAt(fields, i) && forall k | 0 <= k < i :: !Splittable(fields[k])
    ensures !changed ==> r == fields && forall k | 0 <= k < |fields| :: !Splittable(fields[k])
  {
    hide NumericSubfields, Splittable;
    r, changed := fields, false;
    var index := 0;
    while index < |fields|
      invariant 0 <= index <= |fields| && r == fields && !changed
      invariant forall k | 0 <= k < index :: !Splittable(fields[k])
    {
      var parts := SplitNumericSubfields(fields[index]);
      if parts == [] {
        index := index + 1;
        continue;
      }
      r := r[..index] + [parts[0]] + parts[1..] + r[index + 1..];
      assert [parts[0]] + parts[1..] == parts;
      assert r == SplitAt(fields, index);
      return r, true;
    }
  }

  method SplitMergedNumericFields(fields: seq<string>, expectedSize: nat) returns (r: seq<string>)
    ensures r == Repair(TrimAll(fields), expectedSize)
  {
    hide NumericSubfields, Splittable, Repair, SplitAt;
    r := TrimFields(fields);
    RepairFull(r, expectedSize);
    while |r| < expectedSize
      invariant Repair(r, expectedSize) == Repair(TrimAll(fields), expectedSize)
      invariant |r| >= expectedSize ==> Repair(r, expectedSize) == r
      decreases expectedSize - |r|
    {
      ghost var before := r;
      var changed;
      r, changed := SplitFirst(r);
      if !changed {
        RepairStep(before, |before|, expectedSize);
        break;
      }
      ghost var i :| 0 <= i < |before| && Splittable(before[i]) && r == SplitAt(before, i) &&
                     forall k | 0 <= k < i :: !Splittable(before[k]);
      RepairStep(before, i, expectedSize);
      RepairFull(r, expectedSize);
    }
  }

  lemma RepairFull(fields: seq<string>, width: nat)
    ensures |fields| >= width ==> Repair(fields, width) == fields
  {
  }
}

/** What splitting and repairing keep, and when they recover the true columns. */
module ColumnFacts {
  import opened Text
  import opened Sequences
  import opened Columns

  // ----- nothing is lost -----

  function AllWords(fields: seq<string>): seq<string> {
    if fields == [] then [] else AllWords(fields[..|fields| - 1]) + Words(fields[|fields| - 1])
  }

  lemma AllWordsAppend(fields: seq<string>, field: string)
    ensures AllWords(fields + [field]) == AllWords(fields) + Words(field)
  {
    assert (fields + [field])[..|fields|] == fields;
  }

  lemma {:induction false} AllWordsConcat(a: seq<string>, b: seq<string>)
    ensures AllWords(a + b) == AllWords(a) + AllWords(b)
  {
    hide Words, AllWords;
    if b == [] {
      Empty(a);
      AllWordsEmpty();
      Empty(AllWords(a));
    } else {
      var front, last := b[..|b| - 1], b[|b| - 1];
      AllWordsConcat(a, front);
      AllWordsAppend(a + front, last);
      AllWordsAppend(front, last);
      FrontAndLast(b);
      Associate(a, front, [last]);
      Associate(AllWords(a), AllWords(front), Words(last));
    }
  }

  lemma AllWordsEmpty()
    ensures AllWords([]) == []
  {
  }

  /** While scanning, the words found so far and those still open make up the words of the line. */
  lemma {:induction false} ScanKeepsWords(line: string, rest: string)
    ensures var s := SplitScan(SplitState([], "", 0), line);
            Words(line + rest) == AllWords(s.result) + Words(s.current + rest)
    decreases |line|
  {
    hide Words, Trim;
    if line == "" {
      assert line + rest == rest && "" + rest == rest;
    } else {
      var front, ch := line[..|line| - 1], line[|line| - 1];
      var s := SplitScan(SplitState([], "", 0), front);
      assert line + rest == front + ([ch] + rest);
      ScanKeepsWords(front, [ch] + rest);
      StepKeepsWords(s, ch, rest);
    }
  }

  lemma StepKeepsWords(s: SplitState, ch: char, rest: string)
    ensures var t := SplitStep(s, ch);
            AllWords(s.result) + Words(s.current + ([ch] + rest)) == AllWords(t.result) + Words(t.current + rest)
  {
    hide Words, Trim;
    assert s.current + ([ch] + rest) == s.current + [ch] + rest;
    assert "" + rest == rest;
    if ch == ' ' && s.current != "" && s.spaceRun >= 1 {
      WordsSplit(s.current, ch, rest);
      WordsTrim(s.current);
      AllWordsAppend(s.result, Trim(s.current));
    } else if ch == ' ' && s.current == "" {
      assert "" + [ch] + rest == [ch] + rest;
      WordsSkip([ch] + rest);
      assert ([ch] + rest)[1..] == rest;
    }
  }

  /** Splitting is lossless: the words of the fields, in order, are the words of the line. */
  lemma SplitKeepsWords(line: string)
    ensures AllWords(Split(line)) == Words(line)
  {
    var s := SplitScan(SplitState([], "", 0), line);
    ScanKeepsWords(line, "");
    assert line + "" == line && s.current + "" == s.current;
    if s.current != "" {
      WordsTrim(s.current);
      AllWordsAppend(s.result, Trim(s.current));
    } else {
      WordsOfEmpty();
    }
  }

  lemma {:induction false} AllWordsOfTokens(parts: seq<string>)
    requires forall p | p in parts :: IsToken(p)
    ensures AllWords(parts) == parts
  {
    if parts != [] {
      AllWordsOfTokens(parts[..|parts| - 1]);
      WordsOfToken(parts[|parts| - 1]);
    }
  }

  lemma SplitAtKeepsWords(fields: seq<string>, i: nat)
    requires i < |fields| && Splittable(fields[i])
    ensures AllWords(SplitAt(fields, i)) == AllWords(fields)
  {
    var parts := NumericSubfields(fields[i]);
    WordsAreTokens(fields[i]);
    AllWordsOfTokens(parts);
    hide Words, NumericSubfields, AllWords, Splittable;
    AllWordsConcat(fields[..i] + parts, fields[i + 1..]);
    AllWordsConcat(fields[..i], parts);
    AllWordsConcat(fields[..i] + [fields[i]], fields[i + 1..]);
    AllWordsAppend(fields[..i], fields[i]);
    Around(fields, i);
  }

  /** The repair is lossless too, and it stops at the width or when nothing is splittable. */
  lemma {:induction false} RepairKeepsWords(fields: seq<string>, width: nat)
    ensures AllWords(Repair(fields, width)) == AllWords(fields)
    ensures |Repair(fields, width)| >= width || forall f | f in Repair(fields, width) :: !Splittable(f)
    decreases width - |fields|
  {
    hide Splittable, AllWords;
    var i := FirstSplittable(fields);
    if |fields| < width && i < |fields| {
      SplitAtKeepsWords(fields, i);
      RepairKeepsWords(SplitAt(fields, i), width);
    }
  }

  lemma {:induction false} TrimAllKeepsWords(fields: seq<string>)
    ensures AllWords(TrimAll(fields)) == AllWords(fields)
  {
    if fields != [] {
      var front, last := fields[..|fields| - 1], fields[|fields| - 1];
      TrimAllKeepsWords(front);
      WordsTrim(last);
      assert TrimAll(fields)[..|fields| - 1] == TrimAll(front);
    }
  }

  /** Both stages together lose no word of the line, for any line and any expected width. */
  lemma RecoveryKeepsWords(line: string, width: nat)
    ensures AllWords(Repair(TrimAll(Split(line)), width)) == Words(line)
  {
    SplitKeepsWords(line);
    TrimAllKeepsWords(Split(line));
    RepairKeepsWords(TrimAll(Split(line)), width);
  }

  // ----- the repair reaches the full expansion -----

  function Expand(field: string): (parts: seq<string>)
    ensures |parts| >= 1
  {
    if Splittable(field) then NumericSubfields(field) else [field]
  }

  function ExpandAll(fields: seq<string>): (r: seq<string>)
    ensures |r| >= |fields|
  {
    if fields == [] then [] else ExpandAll(fields[..|fields| - 1]) + Expand(fields[|fields| - 1])
  }

  lemma ExpandAllAppend(fields: seq<string>, field: string)
    ensures ExpandAll(fields + [field]) == ExpandAll(fields) + Expand(field)
  {
    assert (fields + [field])[..|fields|] == fields;
  }

  lemma {:induction false} ExpandAllConcat(a: seq<string>, b: seq<string>)
    ensures ExpandAll(a + b) == ExpandAll(a) + ExpandAll(b)
  {
    hide Expand, ExpandAll;
    if b == [] {
      Empty(a);
      ExpandAllEmpty();
      Empty(ExpandAll(a));
    } else {
      var front, last := b[..|b| - 1], b[|b| - 1];
      ExpandAllConcat(a, front);
      ExpandAllAppend(a + front, last);
      ExpandAllAppend(front, last);
      FrontAndLast(b);
      Associate(a, front, [last]);
      Associate(ExpandAll(a), ExpandAll(front), Expand(last));
    }
  }

  lemma ExpandAllEmpty()
    ensures ExpandAll([]) == []
  {
  }

  lemma TokenNotSplittable(s: string)
    requires IsToken(s)
    ensures !Splittable(s)
  {
    WordsOfToken(s);
  }

  lemma {:induction false} ExpandAllUnsplittable(parts: seq<string>)
    requires forall p | p in parts :: !Splittable(p)
    ensures ExpandAll(parts) == parts
  {
    hide Splittable;
    if parts != [] {
      ExpandAllUnsplittable(parts[..|parts| - 1]);
    }
  }

  lemma SplitAtKeepsExpansion(fields: seq<string>, i: nat)
    requires i < |fields| && Splittable(fields[i])
    ensures ExpandAll(SplitAt(fields, i)) == ExpandAll(fields)
  {
    var parts := NumericSubfields(fields[i]);
    WordsAreTokens(fields[i]);
    forall p | p in parts
      ensures !Splittable(p)
    {
      TokenNotSplittable(p);
    }
    ExpandAllUnsplittable(parts);
    assert Expand(fields[i]) == parts;
    hide Words, Expand, NumericSubfields, ExpandAll, Splittable;
    ExpandAllConcat(fields[..i] + parts, fields[i + 1..]);
    ExpandAllConcat(fields[..i], parts);
    ExpandAllConcat(fields[..i] + [fields[i]], fields[i + 1..]);
    ExpandAllAppend(fields[..i], fields[i]);
    Around(fields, i);
  }

  lemma {:induction false} FullWidth(fields: seq<string>)
    requires |ExpandAll(fields)| == |fields|
    ensures ExpandAll(fields) == fields
  {
    hide Splittable, NumericSubfields;
    if fields != [] {
      FullWidth(fields[..|fields| - 1]);
    }
  }

  /** Asked for the width of the full expansion, the repair yields exactly it: it never stops short or overshoots. */
  lemma {:induction false} RepairExpands(fields: seq<string>)
    ensures Repair(fields, |ExpandAll(fields)|) == ExpandAll(fields)
    decreases |ExpandAll(fields)| - |fields|
  {
    hide Splittable, ExpandAll;
    var i := FirstSplittable(fields);
    if |fields| == |ExpandAll(fields)| {
      FullWidth(fields);
    } else if i == |fields| {
      ExpandAllUnsplittable(fields);
    } else {
      SplitAtKeepsExpansion(fields, i);
      RepairExpands(SplitAt(fields, i));
    }
  }

  // ----- rows made of columns -----

  function Spaces(n: nat): (s: string)
    ensures |s| == n && forall i | 0 <= i < n :: s[i] == ' '
  {
    seq(n, _ => ' ')
  }

  /** A column as it can stand in a row: not empty, no blank at either end, no two spaces in a row inside. */
  ghost predicate IsColumn(c: string) {
    && c != "" && Trimmed(c)
    && forall i | 0 <= i < |c| - 1 :: c[i] != ' ' || c[i + 1] != ' '
  }

  ghost predicate IsRow(columns: seq<string>, gaps: seq<nat>) {
    && |columns| == |gaps| + 1
    && (forall i | 0 <= i < |columns| :: IsColumn(columns[i]))
    && (forall i | 0 <= i < |gaps| :: gaps[i] >= 1)
  }

  /** The line: column i and column i + 1 stand gaps[i] spaces apart. */
  function Line(columns: seq<string>, gaps: seq<nat>): string
    requires |columns| == |gaps| + 1
    decreases |gaps|
  {
    var n := |gaps|;
    if n == 0 then columns[0]
    else Line(columns[..n], gaps[..n - 1]) + Spaces(gaps[n - 1]) + columns[n]
  }

  /** The fields that wide gaps delimit: complete ones and the last one, which single spaces extend. */
  function Merged(columns: seq<string>, gaps: seq<nat>): (r: (seq<string>, string))
    requires |columns| == |gaps| + 1
    decreases |gaps|
  {
    var n := |gaps|;
    if n == 0 then ([], columns[0])
    else
      var (done, open) := Merged(columns[..n], gaps[..n - 1]);
      if gaps[n - 1] == 1 then (done, open + " " + columns[n]) else (done + [open], columns[n])
  }

  function MergedFields(columns: seq<string>, gaps: seq<nat>): seq<string>
    requires |columns| == |gaps| + 1
  {
    Merged(columns, gaps).0 + [Merged(columns, gaps).1]
  }

  lemma RowFront(columns: seq<string>, gaps: seq<nat>)
    requires IsRow(columns, gaps) && gaps != []
    ensures IsRow(columns[..|gaps|], gaps[..|gaps| - 1])
  {
  }

  lemma {:induction false} ScanAppend(s: SplitState, a: string, b: string)
    ensures SplitScan(s, a + b) == SplitScan(SplitScan(s, a), b)
    decreases |b|
  {
    if b == "" {
      assert a + b == a;
    } else {
      assert (a + b)[..|a + b| - 1] == a + b[..|b| - 1];
      ScanAppend(s, a, b[..|b| - 1]);
    }
  }

  /** Scanning a column appends it to the open field. */
  lemma {:induction false} ScanColumn(s: SplitState, c: string, n: nat)
    requires IsColumn(c) && 0 < n <= |c|
    ensures SplitScan(s, c[..n]) == SplitState(s.result, s.current + c[..n], if c[n - 1] == ' ' then 1 else 0)
  {
    hide Trim;
    assert c[..n][..n - 1] == c[..n - 1];
    assert s.current + c[..n - 1] + [c[n - 1]] == s.current + c[..n];
    if n == 1 {
      assert SplitScan(s, c[..0]) == s;
    } else {
      ScanColumn(s, c, n - 1);
    }
  }

  /** A single space stays in the open field; a wider gap closes it. */
  lemma {:induction false} ScanGap(s: SplitState, n: nat)
    requires s.current != "" && s.spaceRun == 0 && n >= 1
    ensures SplitScan(s, Spaces(n)) ==
            if n == 1 then SplitState(s.result, s.current + " ", 1)
            else SplitState(s.result + [Trim(s.current + " ")], "", n)
  {
    assert Spaces(n)[..n - 1] == Spaces(n - 1);
    if n == 1 {
      assert SplitScan(s, Spaces(0)) == s;
    } else {
      ScanGap(s, n - 1);
    }
  }

  lemma TrimSpace(s: string)
    requires s != "" && Trimmed(s)
    ensures Trim(s + " ") == s
  {
    var t := s + " ";
    assert t[0] == s[0];
    assert TrimLeft(t) == t;
    assert t[..|t| - 1] == s;
    assert TrimRight(t) == TrimRight(s);
    TrimTrims(s);
  }

  lemma {:induction false} OpenIsTrimmed(columns: seq<string>, gaps: seq<nat>)
    requires IsRow(columns, gaps)
    ensures var (done, open) := Merged(columns, gaps);
            open != "" && Trimmed(open) && forall f | f in done :: Trimmed(f)
    decreases |gaps|
  {
    if gaps != [] {
      RowFront(columns, gaps);
      OpenIsTrimmed(columns[..|gaps|], gaps[..|gaps| - 1]);
    }
  }

  lemma {:induction false} ScanLine(columns: seq<string>, gaps: seq<nat>)
    requires IsRow(columns, gaps)
    ensures var (done, open) := Merged(columns, gaps);
            SplitScan(SplitState([], "", 0), Line(columns, gaps)) == SplitState(done, open, 0)
    decreases |gaps|
  {
    hide Trim, SplitScan, IsColumn;
    var start := SplitState([], "", 0);
    var n := |gaps|;
    var c := columns[n];
    assert c[..|c|] == c;
    ColumnEnds(c);
    if n == 0 {
      ScanColumn(start, c, |c|);
      assert "" + c == c;
    } else {
      RowFront(columns, gaps);
      ScanLine(columns[..n], gaps[..n - 1]);
      OpenIsTrimmed(columns[..n], gaps[..n - 1]);
      var (done, open) := Merged(columns[..n], gaps[..n - 1]);
      var front, gap := Line(columns[..n], gaps[..n - 1]), Spaces(gaps[n - 1]);
      ScanAppend(start, front + gap, c);
      ScanAppend(start, front, gap);
      ScanGap(SplitState(done, open, 0), gaps[n - 1]);
      TrimSpace(open);
      ScanColumn(SplitScan(start, front + gap), c, |c|);
      assert "" + c == c;
    }
  }

  lemma ColumnEnds(c: string)
    requires IsColumn(c)
    ensures c != "" && c[|c| - 1] != ' '
  {
  }

  /** Splitting a row gives the fields that its wide gaps delimit. */
  lemma SplitLine(columns: seq<string>, gaps: seq<nat>)
    requires IsRow(columns, gaps)
    ensures Split(Line(columns, gaps)) == MergedFields(columns, gaps)
    ensures TrimAll(MergedFields(columns, gaps)) == MergedFields(columns, gaps)
  {
    ScanLine(columns, gaps);
    OpenIsTrimmed(columns, gaps);
    var fields := MergedFields(columns, gaps);
    forall i | 0 <= i < |fields|
      ensures Trim(fields[i]) == fields[i]
    {
      TrimTrims(fields[i]);
    }
  }

  /** Each one-space gap merges two columns: the width tells how many there are. */
  lemma {:induction false} MergedWidth(columns: seq<string>, gaps: seq<nat>)
    requires |columns| == |gaps| + 1
    ensures |MergedFields(columns, gaps)| <= |columns|
    ensures (forall i | 0 <= i < |gaps| :: gaps[i] != 1) ==> MergedFields(columns, gaps) == columns
    ensures |MergedFields(columns, gaps)| == |columns| ==> forall i | 0 <= i < |gaps| :: gaps[i] != 1
    decreases |gaps|
  {
    var n := |gaps|;
    if n > 0 {
      MergedWidth(columns[..n], gaps[..n - 1]);
      assert forall i | 0 <= i < n - 1 :: gaps[..n - 1][i] == gaps[i];
      assert columns == columns[..n] + [columns[n]];
    }
  }

  /** Splitting alone recovers the columns exactly when every gap is at least two spaces wide. */
  lemma SplitRecoversIffWide(columns: seq<string>, gaps: seq<nat>)
    requires IsRow(columns, gaps)
    ensures Split(Line(columns, gaps)) == columns <==> forall i | 0 <= i < |gaps| :: gaps[i] >= 2
  {
    SplitLine(columns, gaps);
    MergedWidth(columns, gaps);
  }

  ghost predicate NumericToken(c: string) {
    IsToken(c) && IsNumericField(c)
  }

  /** One-space gaps stand only between numeric tokens, and no column is itself a list of numbers. */
  ghost predicate Recoverable(columns: seq<string>, gaps: seq<nat>)
    requires |columns| == |gaps| + 1
  {
    && (forall i | 0 <= i < |gaps| :: gaps[i] == 1 ==> NumericToken(columns[i]) && NumericToken(columns[i + 1]))
    && (forall i | 0 <= i < |columns| :: !Splittable(columns[i]))
  }

  /** The expansion of the merged fields is the list of columns; an open field that ends in a number is all numbers. */
  lemma {:induction false} ExpandMerged(columns: seq<string>, gaps: seq<nat>)
    requires IsRow(columns, gaps) && Recoverable(columns, gaps)
    ensures ExpandAll(MergedFields(columns, gaps)) == columns
    ensures NumericToken(columns[|gaps|]) ==>
              AllNumeric(Words(Merged(columns, gaps).1)) &&
              Expand(Merged(columns, gaps).1) == Words(Merged(columns, gaps).1)
    decreases |gaps|
  {
    hide IsNumericField, IsToken, Words, NumericSubfields, ExpandAll;
    var n := |gaps|;
    var c := columns[n];
    var (done, open) := Merged(columns, gaps);
    ExpandAllAppend(done, open);
    if NumericToken(c) {
      WordsOfToken(c);
    }
    if n == 0 {
      NoFields();
    } else {
      var (before, last) := Merged(columns[..n], gaps[..n - 1]);
      RowFront(columns, gaps);
      ExpandMerged(columns[..n], gaps[..n - 1]);
      ExpandAllAppend(before, last);
      FrontAndLast(columns);
      if gaps[n - 1] == 1 {
        assert NumericToken(columns[n - 1]) && columns[n - 1] == columns[..n][n - 1];
        WordsSplit(last, ' ', c);
        SplittableNumbers(last, open, c);
        Associate(ExpandAll(before), Expand(last), [c]);
      }
    }
  }

  lemma NoFields()
    ensures ExpandAll([]) == []
  {
  }

  lemma SplittableNumbers(last: string, open: string, c: string)
    requires Words(open) == Words(last) + [c] && AllNumeric(Words(last)) && IsNumericField(c)
    requires Expand(last) == Words(last)
    ensures AllNumeric(Words(open)) && Expand(open) == Words(last) + [c] == Words(open)
  {
    hide IsNumericField, Words;
    assert |Words(open)| >= 2;
  }

  /** Main result: splitting and repairing to the number of columns yields exactly the columns. */
  lemma RecoveryYieldsColumns(columns: seq<string>, gaps: seq<nat>)
    requires IsRow(columns, gaps) && Recoverable(columns, gaps)
    ensures Repair(TrimAll(Split(Line(columns, gaps))), |columns|) == columns
  {
    SplitLine(columns, gaps);
    ExpandMerged(columns, gaps);
    RepairExpands(MergedFields(columns, gaps));
  }
}
