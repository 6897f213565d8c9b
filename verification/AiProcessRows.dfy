/** The AI-first process list: every process once, recognised ones in front by size, the others by CPU use. */
module AiProcessRows {
  import opened Text
  import opened Numbers
  import opened Snapshots
  import opened Sorting
  import opened WorkloadDetector
  import opened WorkloadModel
  import ProcessOrder
  import ProcessTreeFacts
  import opened SortedTable

  datatype AiRow = AiRow(process: Process, detection: Detection, isAi: bool)

  function UnknownDetection(p: Process): Detection {
    Detection(UnknownKind, UnknownRole, p.name, "", "no AI workload signal", 0.0)
  }

  function AiRowOf(p: Process): AiRow {
    var d := DetectWorkloadProcess(p);
    if d.confidence >= 0.60 then AiRow(p, d, true) else AiRow(p, UnknownDetection(p), false)
  }

  function AiRows(processes: seq<Process>): (rows: seq<AiRow>)
    ensures |rows| == |processes| && forall i | 0 <= i < |rows| :: rows[i] == AiRowOf(processes[i])
  {
    seq(|processes|, i requires 0 <= i < |processes| => AiRowOf(processes[i]))
  }

  predicate AiLess(l: AiRow, r: AiRow) {
    if l.isAi != r.isAi then l.isAi && !r.isAi
    else if l.isAi && r.isAi && l.process.residentBytes != r.process.residentBytes then
      l.process.residentBytes > r.process.residentBytes
    else if !DoubleEqual(l.process.cpuPercent, r.process.cpuPercent) then
      DoubleLess(r.process.cpuPercent, l.process.cpuPercent)
    else l.process.pid < r.process.pid
  }

  // ----- the order -----

  /** Rows that only CPU use can tell apart. */
  predicate SameBand(l: AiRow, r: AiRow) {
    l.isAi == r.isAi && (l.isAi ==> l.process.residentBytes == r.process.residentBytes)
  }

  ghost predicate RowPidsIdentify(rows: seq<AiRow>) {
    forall x, y | x in rows && y in rows && x.process.pid == y.process.pid :: x == y
  }

  ghost predicate NoNaNInABand(rows: seq<AiRow>) {
    forall x, y | x in rows && y in rows && x != y && SameBand(x, y) :: !x.process.cpuPercent.NaN?
  }

  lemma AiTrichotomy(l: AiRow, r: AiRow)
    requires l.process.pid != r.process.pid
    ensures AiLess(l, r) ==> !AiLess(r, l)
    ensures AiLess(l, r) || AiLess(r, l) <==>
            (SameBand(l, r) ==> !l.process.cpuPercent.NaN? && !r.process.cpuPercent.NaN?)
  {
    ProcessOrder.DoubleTotal(l.process.cpuPercent, r.process.cpuPercent);
    ProcessOrder.DoubleTotal(r.process.cpuPercent, l.process.cpuPercent);
    hide DoubleLess;
  }

  lemma AiIrreflexive(x: AiRow)
    ensures !AiLess(x, x)
  {
    ProcessOrder.DoubleTotal(x.process.cpuPercent, x.process.cpuPercent);
  }

  lemma AiTransitive(x: AiRow, y: AiRow, z: AiRow)
    requires AiLess(x, y) && AiLess(y, z)
    requires SameBand(x, y) && SameBand(y, z) ==>
               !x.process.cpuPercent.NaN? && !y.process.cpuPercent.NaN? && !z.process.cpuPercent.NaN?
    ensures AiLess(x, z)
  {
    if SameBand(x, y) && SameBand(y, z) {
      ProcessOrder.DoubleKeyTransitive(x.process.cpuPercent, y.process.cpuPercent, z.process.cpuPercent, -1,
                                       x.process.pid, y.process.pid, z.process.pid);
    } else {
      hide DoubleLess, DoubleEqual;
    }
  }

  /** The comparator is a strict total order exactly when no not-a-number meets another row of its band. */
  lemma AiOrderIff(rows: seq<AiRow>)
    requires RowPidsIdentify(rows)
    ensures StrictTotalOn(AiLess, rows) <==>
            NoNaNInABand(rows)
  {
    hide AiLess, SameBand;
    forall x, y | x in rows && y in rows && x != y
      ensures AiLess(x, y) ==> !AiLess(y, x)
      ensures AiLess(x, y) || AiLess(y, x) <==>
              (SameBand(x, y) ==> !x.process.cpuPercent.NaN? && !y.process.cpuPercent.NaN?)
      ensures SameBand(x, y) <==> SameBand(y, x)
    {
      AiTrichotomy(x, y);
      BandsAreOrdered(x, y, x);
    }
    forall x | x in rows
      ensures !AiLess(x, x)
    {
      AiIrreflexive(x);
    }
    if NoNaNInABand(rows) {
      forall x, y, z | x in rows && y in rows && z in rows && AiLess(x, y) && AiLess(y, z)
        ensures AiLess(x, z)
      {
        AiTransitive(x, y, z);
      }
    }
  }

  /** Within a band a not-a-number stands beside at most one number. */
  ghost predicate NaNBesideOneNumber(rows: seq<AiRow>) {
    forall n, x, y | n in rows && x in rows && y in rows && SameBand(n, x) && SameBand(n, y) ::
      n.process.cpuPercent.NaN? && !x.process.cpuPercent.NaN? && !y.process.cpuPercent.NaN? ==> x == y
  }

  /** Rows of different bands are ordered, and the order does not look into the bands. */
  lemma BandsAreOrdered(x: AiRow, y: AiRow, z: AiRow)
    ensures SameBand(x, y) <==> SameBand(y, x)
    ensures SameBand(x, y) && SameBand(y, z) ==> SameBand(x, z)
    ensures SameBand(x, y) && !SameBand(y, z) ==> (AiLess(x, z) <==> AiLess(y, z)) && (AiLess(z, x) <==> AiLess(z, y))
    ensures !SameBand(x, y) && !SameBand(y, z) && AiLess(x, y) && AiLess(y, z) ==> AiLess(x, z) && !SameBand(x, z)
  {
    hide DoubleLess, DoubleEqual;
  }

  /** Of three rows a comparison of two says something about the third. */
  lemma AiSplits(x: AiRow, y: AiRow, z: AiRow)
    requires x.process.pid != y.process.pid && y.process.pid != z.process.pid && x.process.pid != z.process.pid
    requires AiLess(x, z)
    requires SameBand(x, y) && SameBand(y, z) ==> !y.process.cpuPercent.NaN?
    ensures AiLess(x, y) || AiLess(y, z)
  {
    BandsAreOrdered(x, y, z);
    BandsAreOrdered(y, x, z);
    BandsAreOrdered(x, z, y);
    AiTrichotomy(x, y);
    AiTrichotomy(y, z);
    AiTrichotomy(x, z);
    if SameBand(x, y) && SameBand(y, z) && AiLess(y, x) {
      AiTransitive(y, x, z);
    } else {
      hide AiLess, SameBand;
    }
  }

  /** A not-a-number is tied with two numbers of its band, which are not tied with each other. */
  lemma NaNTiesNumbers(rows: seq<AiRow>, n: AiRow, x: AiRow, y: AiRow)
    requires RowPidsIdentify(rows) && n in rows && x in rows && y in rows && x != y
    requires SameBand(n, x) && SameBand(n, y)
    requires n.process.cpuPercent.NaN? && !x.process.cpuPercent.NaN? && !y.process.cpuPercent.NaN?
    ensures !StrictWeakOn(AiLess, rows)
  {
    BandsAreOrdered(n, x, y);
    BandsAreOrdered(x, n, y);
    AiTrichotomy(n, x);
    AiTrichotomy(n, y);
    AiTrichotomy(x, y);
    hide AiLess, SameBand;
    assert AiLess(x, y) || AiLess(y, x);
  }

  /** The comparator meets the requirement of std::sort exactly when no not-a-number stands in a band with two
      numbers. */
  lemma AiWeakOrderIff(rows: seq<AiRow>)
    requires RowPidsIdentify(rows)
    ensures StrictWeakOn(AiLess, rows) <==> NaNBesideOneNumber(rows)
  {
    hide AiLess, SameBand;
    if NaNBesideOneNumber(rows) {
      forall x | x in rows
        ensures !AiLess(x, x)
      {
        AiIrreflexive(x);
      }
      forall x, y, z | x in rows && y in rows && z in rows
        ensures AiLess(x, y) && AiLess(y, z) ==> AiLess(x, z)
        ensures AiLess(x, z) ==> AiLess(x, y) || AiLess(y, z)
      {
        WeakOnThree(rows, x, y, z);
      }
    } else {
      var n, x, y :| n in rows && x in rows && y in rows && SameBand(n, x) && SameBand(n, y) && x != y &&
        n.process.cpuPercent.NaN? && !x.process.cpuPercent.NaN? && !y.process.cpuPercent.NaN?;
      NaNTiesNumbers(rows, n, x, y);
    }
  }

  lemma WeakOnThree(rows: seq<AiRow>, x: AiRow, y: AiRow, z: AiRow)
    requires RowPidsIdentify(rows) && NaNBesideOneNumber(rows) && x in rows && y in rows && z in rows
    ensures AiLess(x, y) && AiLess(y, z) ==> AiLess(x, z)
    ensures AiLess(x, z) ==> AiLess(x, y) || AiLess(y, z)
  {
    AiIrreflexive(x);
    AiIrreflexive(y);
    BandsAreOrdered(x, y, z);
    BandsAreOrdered(y, z, x);
    hide AiLess, SameBand;
    if x != y && y != z && x != z {
      AiTrichotomy(x, y);
      AiTrichotomy(y, z);
      AiTrichotomy(x, z);
      if AiLess(x, y) && AiLess(y, z) {
        AiTransitive(x, y, z);
      }
      if AiLess(x, z) {
        AiSplits(x, y, z);
      }
    } else if x != y {
      AiTrichotomy(x, y);
    }
  }

  // ----- the program -----

  method BuildAiProcessRows(processes: seq<Process>) returns (rows: seq<AiRow>)
    ensures rows == Sort(AiLess, AiRows(processes))
  {
    hide DetectWorkloadProcess, Sort, AiLess;
    rows := [];
    var i := 0;
    while i < |processes|
      invariant 0 <= i <= |processes|
      invariant rows == AiRows(processes[..i])
    {
      var process := processes[i];
      var detection := DetectWorkloadProcess(process);
      var isAi := detection.confidence >= 0.60;
      if !isAi {
        detection := UnknownDetection(process);
      }
      rows := rows + [AiRow(process, detection, isAi)];
      i := i + 1;
      assert rows == AiRows(processes[..i]);
    }
    assert processes[..|processes|] == processes;
    rows := Sort(AiLess, rows);
  }

  // ----- what the list shows -----

  /** Recognised processes come before all others. */
  lemma AiRowsComeFirst(processes: seq<Process>, i: nat, j: nat)
    requires RowPidsIdentify(AiRows(processes)) && NaNBesideOneNumber(AiRows(processes))
    requires i < j < |processes|
    ensures |Sort(AiLess, AiRows(processes))| == |processes|
    ensures Sort(AiLess, AiRows(processes))[j].isAi ==> Sort(AiLess, AiRows(processes))[i].isAi
  {
    hide AiRowOf, Sort, DoubleEqual, DoubleLess;
    var rows := AiRows(processes);
    AiWeakOrderIff(rows);
    SortSorts(AiLess, rows);
    SortPermutes(AiLess, rows);
  }

  /** Of two rows the earlier one is recognised, larger, busier or has the smaller pid: size counts only among
      recognised processes, CPU use only at equal size, the pid only at equal use. */
  ghost predicate StandsBefore(a: AiRow, b: AiRow) {
    if a.isAi != b.isAi then a.isAi
    else if a.isAi && a.process.residentBytes != b.process.residentBytes then
      a.process.residentBytes > b.process.residentBytes
    else
      && AtMost(b.process.cpuPercent, a.process.cpuPercent)
      && (AtMost(a.process.cpuPercent, b.process.cpuPercent) ==> a.process.pid < b.process.pid)
  }

  lemma LessStandsBefore(a: AiRow, b: AiRow)
    requires AiLess(a, b) && a.process.pid != b.process.pid
    requires SameBand(a, b) ==> !a.process.cpuPercent.NaN? && !b.process.cpuPercent.NaN?
    ensures StandsBefore(a, b)
  {
    if SameBand(a, b) {
      AtMostIs(a.process.cpuPercent, b.process.cpuPercent);
      AtMostIs(b.process.cpuPercent, a.process.cpuPercent);
      ProcessOrder.DoubleTotal(a.process.cpuPercent, b.process.cpuPercent);
    }
    hide AtMost, DoubleLess, DoubleEqual;
  }

  /** The list reads in that order. */
  lemma AiListInOrder(processes: seq<Process>, i: nat, j: nat)
    requires ProcessTreeFacts.DistinctPids(processes) && NoNaNInABand(AiRows(processes)) && i < j < |processes|
    ensures |Sort(AiLess, AiRows(processes))| == |processes|
    ensures StandsBefore(Sort(AiLess, AiRows(processes))[i], Sort(AiLess, AiRows(processes))[j])
  {
    RowsIdentify(processes);
    hide AiRowOf, Sort, AiLess, SameBand, StandsBefore, ProcessTreeFacts.DistinctPids;
    var rows := AiRows(processes);
    AiOrderIff(rows);
    TotalIsWeak(AiLess, rows);
    SortSorts(AiLess, rows);
    SortPermutes(AiLess, rows);
    var a, b := Sort(AiLess, rows)[i], Sort(AiLess, rows)[j];
    assert a in rows && b in rows;
    RowsOnce(processes, a);
    TwiceInMultiset(Sort(AiLess, rows), i, j);
    BandsAreOrdered(a, b, a);
    LessStandsBefore(a, b);
  }

  lemma RowsIdentify(processes: seq<Process>)
    requires ProcessTreeFacts.DistinctPids(processes)
    ensures RowPidsIdentify(AiRows(processes))
  {
    hide DetectWorkloadProcess;
  }

  lemma RowsOnce(processes: seq<Process>, row: AiRow)
    requires ProcessTreeFacts.DistinctPids(processes)
    ensures multiset(AiRows(processes))[row] <= 1
  {
    hide AiRowOf, ProcessTreeFacts.DistinctPids;
    RowsCount(processes, row);
    ProcessTreeFacts.OnceInMultiset(processes, row.process);
  }

  /** The list depends on which processes were sampled but not on their order. */
  lemma AiListIgnoresSampleOrder(a: seq<Process>, b: seq<Process>)
    requires multiset(a) == multiset(b)
    requires RowPidsIdentify(AiRows(a)) && NoNaNInABand(AiRows(a))
    ensures Sort(AiLess, AiRows(a)) == Sort(AiLess, AiRows(b))
  {
    hide AiRowOf, Sort, AiLess, SameBand, StrictTotalOn, StrictWeakOn;
    var x, y := AiRows(a), AiRows(b);
    RowsPermute(a, b);
    SameElements(x, y);
    AiOrderIff(x);
    AiOrderIff(y);
    TotalIsWeak(AiLess, x);
    TotalIsWeak(AiLess, y);
    SortSorts(AiLess, x);
    SortSorts(AiLess, y);
    SortPermutes(AiLess, x);
    SortPermutes(AiLess, y);
    TotalOnSame(x, Sort(AiLess, x));
    SortedUnique(AiLess, Sort(AiLess, x), Sort(AiLess, y));
  }

  lemma TotalOnSame(x: seq<AiRow>, y: seq<AiRow>)
    requires StrictTotalOn(AiLess, x) && forall r | r in y :: r in x
    ensures StrictTotalOn(AiLess, y)
  {
    hide AiLess;
  }

  lemma {:induction false} RowsCount(ps: seq<Process>, row: AiRow)
    ensures multiset(AiRows(ps))[row] == if row == AiRowOf(row.process) then multiset(ps)[row.process] else 0
  {
    hide AiRowOf;
    if ps != [] {
      MultisetStep(ps);
      MultisetStep(AiRows(ps));
      assert AiRows(ps)[1..] == AiRows(ps[1..]);
      RowsCount(ps[1..], row);
      RowOfItsProcess(ps[0]);
    }
  }

  lemma RowOfItsProcess(p: Process)
    ensures AiRowOf(p).process == p
  {
    hide DetectWorkloadProcess;
  }

  lemma RowsPermute(a: seq<Process>, b: seq<Process>)
    requires multiset(a) == multiset(b)
    ensures multiset(AiRows(a)) == multiset(AiRows(b))
  {
    hide AiRowOf;
    forall row: AiRow
      ensures multiset(AiRows(a))[row] == multiset(AiRows(b))[row]
    {
      RowsCount(a, row);
      RowsCount(b, row);
    }
  }

  /** The recognised rows as the items they were detected as. */
  function AiItems(rows: seq<AiRow>): seq<Detected> {
    if rows == [] then []
    else
      var front, row := AiItems(rows[..|rows| - 1]), rows[|rows| - 1];
      if row.isAi then front + [Detected(row.process, row.detection)] else front
  }

  lemma {:induction false} AiItemsCount(rows: seq<AiRow>, item: Detected)
    ensures multiset(AiItems(rows))[item] == multiset(rows)[AiRow(item.process, item.detection, true)]
  {
    if rows != [] {
      var front, row := rows[..|rows| - 1], rows[|rows| - 1];
      assert rows == front + [row];
      AiItemsCount(front, item);
    }
  }

  lemma {:induction false} AiItemsAreDetected(processes: seq<Process>)
    ensures AiItems(AiRows(processes)) == DetectAll(processes)
  {
    hide DetectWorkloadProcess;
    if processes != [] {
      var n := |processes| - 1;
      assert AiRows(processes)[..n] == AiRows(processes[..n]);
      AiItemsAreDetected(processes[..n]);
    }
  }

  /** The rows marked as AI are exactly the items that the workloads group, each as often. */
  lemma AiRowsAreWorkloadItems(processes: seq<Process>)
    ensures multiset(AiItems(Sort(AiLess, AiRows(processes)))) == multiset(DetectAll(processes))
  {
    hide AiRowOf, AiLess, AiItems;
    var rows := AiRows(processes);
    AiItemsAreDetected(processes);
    SortPermutes(AiLess, rows);
    forall item: Detected
      ensures multiset(AiItems(Sort(AiLess, rows)))[item] == multiset(AiItems(rows))[item]
    {
      AiItemsCount(Sort(AiLess, rows), item);
      AiItemsCount(rows, item);
    }
  }
}
