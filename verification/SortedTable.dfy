/** What the rows of the table look like to its reader: which column they follow, and from which end. */
module SortedTable {
  import opened Text
  import opened Numbers
  import opened Snapshots
  import opened Sorting
  import opened ProcessOrder
  import opened ProcessTree
  import opened ProcessTreeFacts
  import opened ProcessView

  // ----- keys -----

  /** a <= b for doubles that are numbers, infinities included. */
  ghost predicate AtMost(a: Double, b: Double) {
    match (a, b)
    case (Finite(m, x), Finite(n, y)) => (if m then 0.0 - x else x) <= (if n then 0.0 - y else y)
    case (Infinite(m), Infinite(n)) => m || !n
    case (Infinite(m), Finite(_, _)) => m
    case (Finite(_, _), Infinite(n)) => !n
    case _ => false
  }

  function Unit(suffix: char): real {
    if suffix in "kK" then 1024.0
    else if suffix in "mM" then 1024.0 * 1024.0
    else if suffix in "gG" then 1024.0 * 1024.0 * 1024.0
    else if suffix in "tT" then 1024.0 * 1024.0 * 1024.0 * 1024.0
    else 1.0
  }

  /** A text that strtod reads as a finite number, times the unit at the place where it stops. */
  ghost predicate Reads(strtod: Strtod, text: string, v: real) {
    var c := CString(text);
    if text == "" then v == 0.0
    else
      var (d, end) := strtod(c);
      d.Finite? && v == (if d.negative then 0.0 - d.magnitude else d.magnitude) * if end < |c| then Unit(c[end]) else 1.0
  }

  /** Two amounts around the first slash. */
  ghost predicate ReadsAround(strtod: Strtod, cell: string, k: nat, x: real, y: real) {
    && k < |cell| && cell[k] == '/' && (forall m | 0 <= m < k :: cell[m] != '/')
    && Reads(strtod, cell[..k], x) && Reads(strtod, cell[k + 1..], y)
  }

  /** An I/O cell reads as one amount, or as the sum of the two around its first slash. */
  ghost predicate CellReads(strtod: Strtod, cell: string, v: real) {
    if forall k | 0 <= k < |cell| :: cell[k] != '/' then Reads(strtod, cell, v)
    else exists k: nat, x, y :: ReadsAround(strtod, cell, k, x, y) && v == x + y
  }

  predicate NamesMissing(cell: string) {
    cell in ["", "-", "root", "wait", "stale", "parse", "denied", "n/a"]
  }

  ghost predicate IoKnown(strtod: Strtod, cell: string, v: real) {
    !NamesMissing(cell) && CellReads(strtod, cell, v)
  }

  ghost predicate PowerKnown(strtod: Strtod, cell: string, v: real) {
    !NamesMissing(cell) && Reads(strtod, cell, v)
  }

  // ----- the order a reader sees -----

  /** Upwards for a positive direction, otherwise downwards; equal keys by rising pid. */
  ghost predicate Follows(below: bool, above: bool, direction: int, p: int, q: int) {
    (if direction > 0 then below else above) && (below && above ==> p < q)
  }

  /** Of two cells a known one stands before a missing one, and two missing ones stand by pid. */
  ghost predicate CellsFollow(known: real -> bool, others: real -> bool, direction: int, p: int, q: int) {
    && (forall x, y | known(x) && others(y) :: Follows(x <= y, y <= x, direction, p, q))
    && ((forall x :: !known(x)) ==> (forall y :: !others(y)) && p < q)
  }

  /** a stands before b in the column of the mode. */
  ghost predicate InColumnOrder(strtod: Strtod, a: Process, b: Process, mode: SortMode, direction: int) {
    match mode
    case ByPid => if direction > 0 then a.pid < b.pid else a.pid > b.pid
    case ByCpu =>
      Follows(AtMost(a.cpuPercent, b.cpuPercent), AtMost(b.cpuPercent, a.cpuPercent), direction, a.pid, b.pid)
    case ByMem =>
      Follows(AtMost(a.memoryPercent, b.memoryPercent), AtMost(b.memoryPercent, a.memoryPercent), direction,
              a.pid, b.pid)
    case ByTime =>
      Follows(a.totalCpuTimeNs <= b.totalCpuTimeNs, b.totalCpuTimeNs <= a.totalCpuTimeNs, direction, a.pid, b.pid)
    case ByName =>
      Follows(a.command == b.command || Alphabetical(a.command, b.command),
              a.command == b.command || Alphabetical(b.command, a.command), direction, a.pid, b.pid)
    case ByGpuActive =>
      Follows(a.gpuActive ==> b.gpuActive, b.gpuActive ==> a.gpuActive, direction, a.pid, b.pid)
    case ByIo =>
      CellsFollow(x => IoKnown(strtod, a.io, x), y => IoKnown(strtod, b.io, y), direction, a.pid, b.pid)
    case ByPower =>
      CellsFollow(x => PowerKnown(strtod, a.power, x), y => PowerKnown(strtod, b.power, y), direction, a.pid, b.pid)
  }

  // ----- the comparator gives this order -----

  lemma AtMostIs(a: Double, b: Double)
    requires !a.NaN? && !b.NaN?
    ensures AtMost(a, b) <==> DoubleEqual(a, b) || DoubleLess(a, b)
    ensures DoubleEqual(a, b) <==> AtMost(a, b) && AtMost(b, a)
  {
  }

  lemma ScaledReads(strtod: Strtod, text: string, v: real)
    ensures Reads(strtod, text, v) <==>
            ParseScaledNumber(strtod, text).Finite? && RealOf(ParseScaledNumber(strtod, text)) == v
  {
    if text != "" {
      var c := CString(text);
      var (d, end) := strtod(c);
      if end < |c| && d.Finite? {
        UnitIs(c[end]);
        ScaledValue(d, ScaleOf(c[end]));
      }
    }
  }

  lemma UnitIs(c: char)
    ensures Unit(c) == ScaleOf(c)
  {
  }

  lemma ScaledValue(d: Double, factor: Magnitude)
    requires d.Finite?
    ensures RealOf(DoubleScale(d, factor)) == (if d.negative then 0.0 - d.magnitude else d.magnitude) * factor
  {
    if d.negative {
      assert (0.0 - d.magnitude) * factor == 0.0 - d.magnitude * factor;
    }
  }

  lemma SumValue(a: Double, b: Double)
    ensures DoubleAdd(a, b).Finite? <==> a.Finite? && b.Finite?
    ensures a.Finite? && b.Finite? ==> RealOf(DoubleAdd(a, b)) == RealOf(a) + RealOf(b)
  {
  }

  lemma AmountReads(strtod: Strtod, cell: string, v: real)
    ensures CellReads(strtod, cell, v) <==>
            IoAmount(strtod, cell).Finite? && RealOf(IoAmount(strtod, cell)) == v
  {
    hide Reads, ParseScaledNumber, DoubleAdd;
    var k := IndexOf(cell, '/');
    if k == |cell| {
      ScaledReads(strtod, cell, v);
    } else {
      var l, r := ParseScaledNumber(strtod, cell[..k]), ParseScaledNumber(strtod, cell[k + 1..]);
      SumValue(l, r);
      if l.Finite? && r.Finite? {
        ScaledReads(strtod, cell[..k], RealOf(l));
        ScaledReads(strtod, cell[k + 1..], RealOf(r));
        assert ReadsAround(strtod, cell, k, RealOf(l), RealOf(r));
      }
      if CellReads(strtod, cell, v) {
        var m: nat, x, y :| ReadsAround(strtod, cell, m, x, y) && v == x + y;
        assert m == k;
        ScaledReads(strtod, cell[..k], x);
        ScaledReads(strtod, cell[k + 1..], y);
      }
    }
  }

  /** The score of a cell is its amount, or an infinity at the far end. */
  lemma CellsInOrder(a: Double, b: Double, known: real -> bool, others: real -> bool, direction: int, p: int, q: int)
    requires forall v :: known(v) <==> a.Finite? && RealOf(a) == v
    requires forall v :: others(v) <==> b.Finite? && RealOf(b) == v
    ensures var l, r := FiniteOrMissing(a, direction), FiniteOrMissing(b, direction);
            (if !DoubleEqual(l, r) then CompareDouble(l, r, direction) else p < q) <==>
            CellsFollow(known, others, direction, p, q)
  {
    if a.Finite? {
      assert known(RealOf(a));
    }
    if b.Finite? {
      assert others(RealOf(b));
    }
  }

  lemma IoInOrder(strtod: Strtod, a: Process, b: Process, direction: int)
    ensures ProcessSortLess(strtod, a, b, ByIo, direction) <==> InColumnOrder(strtod, a, b, ByIo, direction)
  {
    hide CellReads, IoAmount, FiniteOrMissing, CompareDouble, DoubleEqual, CellsFollow;
    var x := if NamesMissing(a.io) then NaN else IoAmount(strtod, a.io);
    var y := if NamesMissing(b.io) then NaN else IoAmount(strtod, b.io);
    forall v
      ensures IoKnown(strtod, a.io, v) <==> x.Finite? && RealOf(x) == v
      ensures IoKnown(strtod, b.io, v) <==> y.Finite? && RealOf(y) == v
    {
      AmountReads(strtod, a.io, v);
      AmountReads(strtod, b.io, v);
    }
    CellsInOrder(x, y, v => IoKnown(strtod, a.io, v), v => IoKnown(strtod, b.io, v), direction, a.pid, b.pid);
    NotANumberIsMissing(direction);
  }

  lemma PowerInOrder(strtod: Strtod, a: Process, b: Process, direction: int)
    ensures ProcessSortLess(strtod, a, b, ByPower, direction) <==> InColumnOrder(strtod, a, b, ByPower, direction)
  {
    hide Reads, ParseScaledNumber, FiniteOrMissing, CompareDouble, DoubleEqual, CellsFollow;
    var x := if NamesMissing(a.power) then NaN else ParseScaledNumber(strtod, a.power);
    var y := if NamesMissing(b.power) then NaN else ParseScaledNumber(strtod, b.power);
    forall v
      ensures PowerKnown(strtod, a.power, v) <==> x.Finite? && RealOf(x) == v
      ensures PowerKnown(strtod, b.power, v) <==> y.Finite? && RealOf(y) == v
    {
      ScaledReads(strtod, a.power, v);
      ScaledReads(strtod, b.power, v);
    }
    CellsInOrder(x, y, v => PowerKnown(strtod, a.power, v), v => PowerKnown(strtod, b.power, v), direction,
                 a.pid, b.pid);
    NotANumberIsMissing(direction);
  }

  lemma NotANumberIsMissing(direction: int)
    ensures FiniteOrMissing(NaN, direction) == MissingSortScore(direction)
  {
  }

  /** The comparator puts a before b exactly when a stands before b in the column, for all eight modes. */
  lemma LessIffColumnOrder(strtod: Strtod, a: Process, b: Process, mode: SortMode, direction: int)
    requires a.pid != b.pid && Comparable(a, mode) && Comparable(b, mode)
    ensures ProcessSortLess(strtod, a, b, mode, direction) <==> InColumnOrder(strtod, a, b, mode, direction)
  {
    match mode
    case ByCpu =>
      AtMostIs(a.cpuPercent, b.cpuPercent);
      AtMostIs(b.cpuPercent, a.cpuPercent);
      DoubleTotal(a.cpuPercent, b.cpuPercent);
      hide AtMost, DoubleLess, DoubleEqual;
    case ByMem =>
      AtMostIs(a.memoryPercent, b.memoryPercent);
      AtMostIs(b.memoryPercent, a.memoryPercent);
      DoubleTotal(a.memoryPercent, b.memoryPercent);
      hide AtMost, DoubleLess, DoubleEqual;
    case ByName =>
      StringLessTotal(a.command, b.command);
      StringLessIsAlphabetical(a.command, b.command);
      StringLessIsAlphabetical(b.command, a.command);
      hide Alphabetical, StringLess;
    case ByIo => IoInOrder(strtod, a, b, direction);
    case ByPower => PowerInOrder(strtod, a, b, direction);
    case _ =>
  }

  // ----- the table -----

  /** Main result: earlier rows of the flat table stand before later ones in the chosen column. */
  lemma FlatTableInColumnOrder(strtod: Strtod, filtered: seq<Process>, mode: SortMode, direction: int, i: nat, j: nat)
    requires DistinctPids(filtered) && AllComparable(filtered, mode) && i < j < |filtered|
    ensures var rows := FlatRows(Sort(Comparator(strtod, mode, direction), filtered));
            |rows| == |filtered| &&
            InColumnOrder(strtod, rows[i].process, rows[j].process, mode, direction)
  {
    hide ProcessSortLess, InColumnOrder, Comparable;
    var less := Comparator(strtod, mode, direction);
    var s := Sort(less, filtered);
    SortPermutes(less, filtered);
    assert PidsIdentify(filtered);
    TotalOrderIff(strtod, filtered, mode, direction);
    TotalIsWeak(less, filtered);
    SortSorts(less, filtered);
    SortedPidsDiffer(filtered, s, i, j);
    assert s[i] in filtered && s[j] in filtered;
    Trichotomy(strtod, s[i], s[j], mode, direction);
    LessIffColumnOrder(strtod, s[i], s[j], mode, direction);
  }

  /** A permutation of processes with distinct pids has distinct pids. */
  lemma SortedPidsDiffer(a: seq<Process>, b: seq<Process>, i: nat, j: nat)
    requires DistinctPids(a) && multiset(a) == multiset(b) && i < j < |b|
    ensures b[i].pid != b[j].pid
  {
    SameElements(a, b);
    assert b[i] in a && b[j] in a;
    OnceInMultiset(a, b[i]);
    TwiceInMultiset(b, i, j);
  }

  lemma TwiceInMultiset<T>(s: seq<T>, i: nat, j: nat)
    requires i < j < |s|
    ensures s[i] == s[j] ==> multiset(s)[s[i]] >= 2
  {
    assert s == s[..j] + s[j..];
    assert s[..j][i] == s[i] && s[j..][0] == s[j];
    assert s[i] in s[..j] && s[j] in s[j..];
    assert multiset(s)[s[i]] == multiset(s[..j])[s[i]] + multiset(s[j..])[s[i]];
  }

  /** So do siblings of the tree, and the rows at depth zero that the walk from the roots drew. */
  lemma TreeSiblingsInColumnOrder(strtod: Strtod, filtered: seq<Process>, mode: SortMode, direction: int,
                                  collapsed: set<int>, i: int, k: int)
    requires PidsIdentify(filtered) && AllComparable(filtered, mode)
    requires 0 <= i < k < |TreeRows(Forest(filtered, Comparator(strtod, mode, direction), collapsed))|
    requires var f := Forest(filtered, Comparator(strtod, mode, direction), collapsed);
             var rows := TreeRows(f);
             if rows[i].depth > 0 then Siblings(rows, i, k) else k < |RootWalk(f).rows| && rows[k].depth == 0
    ensures var rows := TreeRows(Forest(filtered, Comparator(strtod, mode, direction), collapsed));
            InColumnOrder(strtod, rows[i].process, rows[k].process, mode, direction)
  {
    hide ProcessSortLess, InColumnOrder, Comparable, TreeRows, RootWalk, RowOf;
    var f := Forest(filtered, Comparator(strtod, mode, direction), collapsed);
    TreeSiblingsInSortOrder(strtod, filtered, mode, direction, collapsed, i, k);
    EveryPidOnce(f);
    var a, b := TreeRows(f)[i], TreeRows(f)[k];
    assert a in TreeRows(f) && b in TreeRows(f);
    LessIffColumnOrder(strtod, a.process, b.process, mode, direction);
  }
}
