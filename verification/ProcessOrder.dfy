/** The process comparator of the table: eight sort modes, two directions, ties broken by pid. */
module ProcessOrder {
  import opened Wrappers
  import opened Text
  import opened Numbers
  import opened Snapshots
  import opened Sorting

  datatype SortMode = ByPid | ByCpu | ByMem | ByTime | ByName | ByGpuActive | ByIo | ByPower

  function DefaultSortDirection(mode: SortMode): int {
    match mode
    case ByPid => 1
    case ByName => 1
    case _ => -1
  }

  /** The C library's strtod: the value it reads and where it stops.  Nothing is assumed about it. */
  type Strtod = string -> (Double, nat)

  predicate IsMissingValue(value: string) {
    value in ["", "-", "root", "wait", "stale", "parse", "denied", "n/a"]
  }

  function ScaleOf(suffix: char): Magnitude {
    match ToLower(suffix)
    case 'k' => 1024.0
    case 'm' => 1048576.0
    case 'g' => 1073741824.0
    case 't' => 1099511627776.0
    case _ => 1.0
  }

  function ParseScaledNumber(strtod: Strtod, text: string): Double {
    if text == "" then Finite(false, 0.0) else
      var c := CString(text);
      var (value, end) := strtod(c);
      if end < |c| then DoubleScale(value, ScaleOf(c[end])) else value
  }

  function MissingSortScore(direction: int): Double {
    Infinite(direction <= 0)
  }

  function FiniteOrMissing(score: Double, direction: int): Double {
    if score.Finite? then score else MissingSortScore(direction)
  }

  /** The number an I/O cell stands for: one amount, or the sum of two around a slash. */
  function IoAmount(strtod: Strtod, value: string): Double {
    var slash := IndexOf(value, '/');
    if slash == |value| then ParseScaledNumber(strtod, value)
    else DoubleAdd(ParseScaledNumber(strtod, value[..slash]), ParseScaledNumber(strtod, value[slash + 1..]))
  }

  function IoScore(strtod: Strtod, value: string, direction: int): Double {
    if IsMissingValue(value) then MissingSortScore(direction)
    else FiniteOrMissing(IoAmount(strtod, value), direction)
  }

  function PowerScore(strtod: Strtod, value: string, direction: int): Double {
    if IsMissingValue(value) then MissingSortScore(direction)
    else FiniteOrMissing(ParseScaledNumber(strtod, value), direction)
  }

  predicate CompareInt(lhs: int, rhs: int, direction: int) {
    if lhs == rhs then false else if direction > 0 then lhs < rhs else lhs > rhs
  }

  predicate CompareDouble(lhs: Double, rhs: Double, direction: int) {
    if DoubleEqual(lhs, rhs) then false
    else if direction > 0 then DoubleLess(lhs, rhs) else DoubleLess(rhs, lhs)
  }

  predicate CompareString(lhs: string, rhs: string, direction: int) {
    if lhs == rhs then false
    else if direction > 0 then StringLess(lhs, rhs) else StringLess(rhs, lhs)
  }

  predicate ProcessSortLess(strtod: Strtod, lhs: Process, rhs: Process, mode: SortMode, direction: int) {
    match mode
    case ByPid =>
      if lhs.pid != rhs.pid then CompareInt(lhs.pid, rhs.pid, direction) else lhs.pid < rhs.pid
    case ByCpu =>
      if !DoubleEqual(lhs.cpuPercent, rhs.cpuPercent)
      then CompareDouble(lhs.cpuPercent, rhs.cpuPercent, direction) else lhs.pid < rhs.pid
    case ByMem =>
      if !DoubleEqual(lhs.memoryPercent, rhs.memoryPercent)
      then CompareDouble(lhs.memoryPercent, rhs.memoryPercent, direction) else lhs.pid < rhs.pid
    case ByTime =>
      if lhs.totalCpuTimeNs != rhs.totalCpuTimeNs
      then CompareInt(lhs.totalCpuTimeNs, rhs.totalCpuTimeNs, direction) else lhs.pid < rhs.pid
    case ByName =>
      if lhs.command != rhs.command
      then CompareString(lhs.command, rhs.command, direction) else lhs.pid < rhs.pid
    case ByGpuActive =>
      if lhs.gpuActive != rhs.gpuActive
      then (if direction > 0 then !lhs.gpuActive && rhs.gpuActive else lhs.gpuActive && !rhs.gpuActive)
      else lhs.pid < rhs.pid
    case ByIo =>
      var l, r := IoScore(strtod, lhs.io, direction), IoScore(strtod, rhs.io, direction);
      if !DoubleEqual(l, r) then CompareDouble(l, r, direction) else lhs.pid < rhs.pid
    case ByPower =>
      var l, r := PowerScore(strtod, lhs.power, direction), PowerScore(strtod, rhs.power, direction);
      if !DoubleEqual(l, r) then CompareDouble(l, r, direction) else lhs.pid < rhs.pid
  }

  /** The only obstacle to an order: a not-a-number in the column sorted by. */
  predicate Comparable(p: Process, mode: SortMode) {
    match mode
    case ByCpu => !p.cpuPercent.NaN?
    case ByMem => !p.memoryPercent.NaN?
    case _ => true
  }

  // ----- doubles -----

  lemma DoubleTotal(a: Double, b: Double)
    ensures DoubleEqual(a, b) ==> !DoubleLess(a, b) && !DoubleLess(b, a)
    ensures DoubleLess(a, b) ==> !DoubleLess(b, a)
    ensures (DoubleEqual(a, b) || DoubleLess(a, b) || DoubleLess(b, a)) <==> (!a.NaN? && !b.NaN?)
  {
  }

  lemma DoubleTransitive(a: Double, b: Double, c: Double)
    ensures DoubleLess(a, b) && DoubleLess(b, c) ==> DoubleLess(a, c)
    ensures DoubleLess(a, b) && DoubleEqual(b, c) ==> DoubleLess(a, c)
    ensures DoubleEqual(a, b) && DoubleLess(b, c) ==> DoubleLess(a, c)
    ensures DoubleEqual(a, b) && DoubleEqual(b, c) ==> DoubleEqual(a, c)
    ensures DoubleEqual(a, b) <==> DoubleEqual(b, a)
  {
  }

  lemma ScoresAreNumbers(strtod: Strtod, value: string, direction: int)
    ensures !IoScore(strtod, value, direction).NaN? && !PowerScore(strtod, value, direction).NaN?
  {
  }

  // ----- the order -----

  /** Of two processes with different pids exactly one comes first, if and only if neither key is not-a-number. */
  lemma Trichotomy(strtod: Strtod, l: Process, r: Process, mode: SortMode, direction: int)
    requires l.pid != r.pid
    ensures ProcessSortLess(strtod, l, r, mode, direction) ==> !ProcessSortLess(strtod, r, l, mode, direction)
    ensures (ProcessSortLess(strtod, l, r, mode, direction) || ProcessSortLess(strtod, r, l, mode, direction))
            <==> (Comparable(l, mode) && Comparable(r, mode))
  {
    match mode
    case ByCpu => DoubleTotal(l.cpuPercent, r.cpuPercent); DoubleTotal(r.cpuPercent, l.cpuPercent);
    case ByMem => DoubleTotal(l.memoryPercent, r.memoryPercent); DoubleTotal(r.memoryPercent, l.memoryPercent);
    case ByName => StringLessTotal(l.command, r.command);
    case ByIo =>
      ScoresAreNumbers(strtod, l.io, direction);
      ScoresAreNumbers(strtod, r.io, direction);
      hide IoScore;
      DoubleTotal(IoScore(strtod, l.io, direction), IoScore(strtod, r.io, direction));
      DoubleTotal(IoScore(strtod, r.io, direction), IoScore(strtod, l.io, direction));
    case ByPower =>
      ScoresAreNumbers(strtod, l.power, direction);
      ScoresAreNumbers(strtod, r.power, direction);
      hide PowerScore;
      DoubleTotal(PowerScore(strtod, l.power, direction), PowerScore(strtod, r.power, direction));
      DoubleTotal(PowerScore(strtod, r.power, direction), PowerScore(strtod, l.power, direction));
    case _ =>
  }

  lemma Irreflexive(strtod: Strtod, p: Process, mode: SortMode, direction: int)
    ensures !ProcessSortLess(strtod, p, p, mode, direction)
  {
    DoubleTotal(p.cpuPercent, p.cpuPercent);
    DoubleTotal(p.memoryPercent, p.memoryPercent);
  }

  lemma DoubleKeyTransitive(a: Double, b: Double, c: Double, direction: int, i: int, j: int, k: int)
    requires !a.NaN? && !b.NaN? && !c.NaN?
    requires if !DoubleEqual(a, b) then CompareDouble(a, b, direction) else i < j
    requires if !DoubleEqual(b, c) then CompareDouble(b, c, direction) else j < k
    ensures if !DoubleEqual(a, c) then CompareDouble(a, c, direction) else i < k
  {
    DoubleTransitive(a, b, c);
    DoubleTransitive(c, b, a);
    DoubleTransitive(b, a, c);
    DoubleTransitive(a, c, b);
    DoubleTotal(a, c);
    DoubleTotal(a, b);
    DoubleTotal(b, c);
  }

  lemma Transitive(strtod: Strtod, a: Process, b: Process, c: Process, mode: SortMode, direction: int)
    requires Comparable(a, mode) && Comparable(b, mode) && Comparable(c, mode)
    requires ProcessSortLess(strtod, a, b, mode, direction) && ProcessSortLess(strtod, b, c, mode, direction)
    ensures ProcessSortLess(strtod, a, c, mode, direction)
  {
    hide CompareDouble, DoubleEqual, IoScore, PowerScore;
    match mode
    case ByCpu => DoubleKeyTransitive(a.cpuPercent, b.cpuPercent, c.cpuPercent, direction, a.pid, b.pid, c.pid);
    case ByMem =>
      DoubleKeyTransitive(a.memoryPercent, b.memoryPercent, c.memoryPercent, direction, a.pid, b.pid, c.pid);
    case ByName =>
      StringLessTotal(a.command, b.command);
      StringLessTotal(b.command, c.command);
      if StringLess(a.command, b.command) && StringLess(b.command, c.command) {
        StringLessTransitive(a.command, b.command, c.command);
      } else if StringLess(c.command, b.command) && StringLess(b.command, a.command) {
        StringLessTransitive(c.command, b.command, a.command);
      }
      StringLessTotal(a.command, c.command);
    case ByIo =>
      ScoresAreNumbers(strtod, a.io, direction);
      ScoresAreNumbers(strtod, b.io, direction);
      ScoresAreNumbers(strtod, c.io, direction);
      DoubleKeyTransitive(IoScore(strtod, a.io, direction), IoScore(strtod, b.io, direction),
                          IoScore(strtod, c.io, direction), direction, a.pid, b.pid, c.pid);
    case ByPower =>
      ScoresAreNumbers(strtod, a.power, direction);
      ScoresAreNumbers(strtod, b.power, direction);
      ScoresAreNumbers(strtod, c.power, direction);
      DoubleKeyTransitive(PowerScore(strtod, a.power, direction), PowerScore(strtod, b.power, direction),
                          PowerScore(strtod, c.power, direction), direction, a.pid, b.pid, c.pid);
    case _ =>
  }

  ghost predicate AllComparable(s: seq<Process>, mode: SortMode) {
    forall p | p in s :: Comparable(p, mode)
  }

  function Comparator(strtod: Strtod, mode: SortMode, direction: int): (Process, Process) -> bool {
    (l, r) => ProcessSortLess(strtod, l, r, mode, direction)
  }

  /** On processes with distinct pids the comparator is a strict total order exactly when at most one
      process is left or no key is not-a-number. */
  lemma TotalOrderIff(strtod: Strtod, s: seq<Process>, mode: SortMode, direction: int)
    requires PidsIdentify(s)
    ensures StrictTotalOn(Comparator(strtod, mode, direction), s) <==>
            AllComparable(s, mode) || (forall x, y | x in s && y in s :: x == y)
  {
    hide ProcessSortLess;
    var less := Comparator(strtod, mode, direction);
    forall x, y | x in s && y in s && x != y
      ensures less(x, y) ==> !less(y, x)
      ensures (less(x, y) || less(y, x)) <==> (Comparable(x, mode) && Comparable(y, mode))
    {
      Trichotomy(strtod, x, y, mode, direction);
    }
    forall x | x in s
      ensures !less(x, x)
    {
      Irreflexive(strtod, x, mode, direction);
    }
    if AllComparable(s, mode) {
      forall x, y, z | x in s && y in s && z in s && less(x, y) && less(y, z)
        ensures less(x, z)
      {
        Transitive(strtod, x, y, z, mode, direction);
      }
    }
  }

  /** At most one process has a key that is a number. */
  ghost predicate OneComparable(s: seq<Process>, mode: SortMode) {
    forall x, y | x in s && y in s && Comparable(x, mode) && Comparable(y, mode) :: x == y
  }

  /** On processes with distinct pids the comparator meets the requirement of std::sort exactly when all keys
      are numbers or at most one is: a not-a-number is tied with everything. */
  lemma WeakOrderIff(strtod: Strtod, s: seq<Process>, mode: SortMode, direction: int)
    requires PidsIdentify(s)
    ensures StrictWeakOn(Comparator(strtod, mode, direction), s) <==> AllComparable(s, mode) || OneComparable(s, mode)
  {
    hide ProcessSortLess, Comparable;
    var less := Comparator(strtod, mode, direction);
    forall x, y | x in s && y in s && x != y
      ensures less(x, y) ==> !less(y, x)
      ensures (less(x, y) || less(y, x)) <==> (Comparable(x, mode) && Comparable(y, mode))
    {
      Trichotomy(strtod, x, y, mode, direction);
    }
    forall x | x in s
      ensures !less(x, x)
    {
      Irreflexive(strtod, x, mode, direction);
    }
    if AllComparable(s, mode) {
      TotalOrderIff(strtod, s, mode, direction);
      TotalIsWeak(less, s);
    }
  }

  /** Hence the sorted list does not depend on the order in which processes were sampled. */
  lemma OrderOfSamplesIrrelevant(strtod: Strtod, a: seq<Process>, b: seq<Process>, mode: SortMode, direction: int)
    requires multiset(a) == multiset(b) && PidsIdentify(a) && AllComparable(a, mode)
    ensures Sort(Comparator(strtod, mode, direction), a) == Sort(Comparator(strtod, mode, direction), b)
  {
    var less := Comparator(strtod, mode, direction);
    SameElements(a, b);
    TotalOrderIff(strtod, a, mode, direction);
    TotalOrderIff(strtod, b, mode, direction);
    hide Comparator;
    TotalIsWeak(less, a);
    TotalIsWeak(less, b);
    SortSorts(less, a);
    SortSorts(less, b);
    SortPermutes(less, a);
    SortPermutes(less, b);
    SortedUnique(less, Sort(less, a), Sort(less, b));
  }

  /** One not-a-number is enough to break the contract of std::sort: it is tied with two processes that are not tied. */
  lemma NaNBreaksTheOrder(strtod: Strtod, p: Process)
    ensures var a := p.(pid := 1, cpuPercent := Finite(false, 1.0));
            var b := p.(pid := 2, cpuPercent := NaN);
            var c := p.(pid := 3, cpuPercent := Finite(false, 2.0));
            !StrictWeakOn(Comparator(strtod, ByCpu, 1), [a, b, c])
  {
    var a := p.(pid := 1, cpuPercent := Finite(false, 1.0));
    var b := p.(pid := 2, cpuPercent := NaN);
    var c := p.(pid := 3, cpuPercent := Finite(false, 2.0));
    var less := Comparator(strtod, ByCpu, 1);
    var s := [a, b, c];
    assert a in s && b in s && c in s;
    assert less(a, c) && !less(a, b) && !less(b, c);
  }

  predicate IoMissing(strtod: Strtod, value: string) {
    IsMissingValue(value) || !IoAmount(strtod, value).Finite?
  }

  predicate PowerMissing(strtod: Strtod, value: string) {
    IsMissingValue(value) || !ParseScaledNumber(strtod, value).Finite?
  }

  /** Missing and non-finite amounts come after every finite one, in both directions. */
  lemma MissingComesLast(strtod: Strtod, known: Process, missing: Process, direction: int)
    ensures !IoMissing(strtod, known.io) && IoMissing(strtod, missing.io) ==>
              ProcessSortLess(strtod, known, missing, ByIo, direction) &&
              !ProcessSortLess(strtod, missing, known, ByIo, direction)
    ensures !PowerMissing(strtod, known.power) && PowerMissing(strtod, missing.power) ==>
              ProcessSortLess(strtod, known, missing, ByPower, direction) &&
              !ProcessSortLess(strtod, missing, known, ByPower, direction)
  {
    hide IoAmount, ParseScaledNumber, IsMissingValue;
    assert !IoMissing(strtod, known.io) ==> IoScore(strtod, known.io, direction).Finite?;
    assert !PowerMissing(strtod, known.power) ==> PowerScore(strtod, known.power, direction).Finite?;
  }
}
