/** Memory pressure and memory risk: two cascades fed into each other, and their monotonicity. */
module MemoryRiskModel {
  import opened Wrappers
  import opened Arithmetic
  import opened Snapshots

  const KIB := 1024
  const MIB := 1024 * KIB
  const GIB := 1024 * MIB

  // ----- pressure -----

  function FractionOfTotal(bytes: int, total: int): real {
    if total == 0 then 0.0 else bytes as real / total as real
  }

  function Reclaimable(m: Memory): U64 {
    Add64(Add64(m.inactive, m.speculative), m.purgeable)
  }

  predicate SevereSwap(m: Memory) {
    m.swapUsed >= Max(2 * GIB, m.total / 20)
  }

  predicate ModerateSwap(m: Memory) {
    m.swapUsed >= Max(512 * MIB, m.total / 100)
  }

  /** Much compressed, little reclaimable, much in active use. */
  predicate CompressionOver(m: Memory, compressed: real, reclaimable: real, active: real) {
    && FractionOfTotal(m.compressed, m.total) >= compressed
    && FractionOfTotal(Reclaimable(m), m.total) <= reclaimable
    && FractionOfTotal(Add64(m.active, m.wired), m.total) >= active
  }

  function DeriveMemoryPressure(m: Memory): PressureLevel {
    if m.total == 0 then UnknownPressure
    else if SevereSwap(m) || CompressionOver(m, 0.20, 0.08, 0.50) then PressureCritical
    else if ModerateSwap(m) || CompressionOver(m, 0.10, 0.16, 0.45) then PressureWarn
    else Normal
  }

  // ----- risk -----

  function PercentOf(value: U64, percent: nat): nat {
    value / 100 * percent
  }

  function SwapRate(m: Memory): U64 {
    Add64(m.swapInRate, m.swapOutRate)
  }

  function StrictUsed(m: Memory): U64 {
    Add64(Add64(m.wired, m.active), m.compressed)
  }

  function Headroom(m: Memory): U64 {
    var credit := Min(Reclaimable(m), PercentOf(m.total, 20));
    if m.total > StrictUsed(m) then Add64(m.total - StrictUsed(m), credit) else credit
  }

  predicate TotalsMissing(m: Memory) {
    m.total == 0 || (m.wired == 0 && m.active == 0 && m.used == 0)
  }

  predicate CompressedRising(m: Memory, history: seq<Memory>) {
    if history == [] then m.compressed > 0 else m.compressed > history[0].compressed
  }

  predicate SwapUsedIncreasing(m: Memory, history: seq<Memory>) {
    if history == [] then m.swapUsed > 0 else m.swapUsed > history[0].swapUsed
  }

  /** The sum without wrap-around. */
  function RssSum(workloads: seq<Workload>): nat {
    if workloads == [] then 0
    else RssSum(workloads[..|workloads| - 1]) + workloads[|workloads| - 1].residentBytes
  }

  /** The summing loop; 64-bit addition wraps around. */
  method WorkloadRssTotal(workloads: seq<Workload>) returns (total: U64)
    ensures total == RssSum(workloads) % TWO_TO_THE_64
  {
    total := 0;
    var i := 0;
    while i < |workloads|
      invariant 0 <= i <= |workloads|
      invariant total == RssSum(workloads[..i]) % TWO_TO_THE_64
    {
      assert workloads[..i + 1][..i] == workloads[..i];
      total := Add64(total, workloads[i].residentBytes);
      i := i + 1;
    }
    assert workloads[..|workloads|] == workloads;
  }

  // ----- the conditions of the cascade -----

  datatype Condition =
    | PressureIsCritical | HighSwapOut | VeryLowHeadroom
    | PressureIsWarn | ActiveSwapping | LowHeadroom
    | MuchCompressed | LargeWorkloads | ReducedHeadroom

  function LevelOf(c: Condition): RiskLevel {
    match c
    case PressureIsCritical => Critical
    case HighSwapOut => Critical
    case VeryLowHeadroom => Critical
    case PressureIsWarn => Warn
    case ActiveSwapping => Warn
    case LowHeadroom => Warn
    case MuchCompressed => Watch
    case LargeWorkloads => Watch
    case ReducedHeadroom => Watch
  }

  function ReasonOf(c: Condition): string {
    match c
    case PressureIsCritical => "memory pressure critical"
    case HighSwapOut => "swapout rate rising"
    case VeryLowHeadroom => "estimated headroom below 5% with compression rising"
    case PressureIsWarn => "memory pressure warn"
    case ActiveSwapping => "swap used increasing with active paging"
    case LowHeadroom => "estimated headroom below 10%"
    case MuchCompressed => "compressed memory above 10%"
    case LargeWorkloads => "workload RSS above 50% of memory"
    case ReducedHeadroom => "estimated headroom below 20%"
  }

  predicate Fires(c: Condition, m: Memory, history: seq<Memory>, rss: nat) {
    match c
    case PressureIsCritical => m.pressure == PressureCritical
    case HighSwapOut => m.swapOutRate >= 16 * MIB
    case VeryLowHeadroom => Headroom(m) < PercentOf(m.total, 5) && CompressedRising(m, history)
    case PressureIsWarn => m.pressure == PressureWarn
    case ActiveSwapping => SwapUsedIncreasing(m, history) && SwapRate(m) > 0
    case LowHeadroom => Headroom(m) < PercentOf(m.total, 10)
    case MuchCompressed => m.compressed > PercentOf(m.total, 10)
    case LargeWorkloads => rss > m.total / 2
    case ReducedHeadroom => Headroom(m) < PercentOf(m.total, 20)
  }

  function Severity(level: RiskLevel): nat {
    match level
    case UnknownRisk => 0
    case Ok => 1
    case Watch => 2
    case Warn => 3
    case Critical => 4
  }

  /** The level is the greatest severity among the conditions that fire, and Ok when none does. */
  ghost predicate IsRiskLevel(level: RiskLevel, m: Memory, history: seq<Memory>, rss: nat) {
    if TotalsMissing(m) then level == UnknownRisk
    else
      && level != UnknownRisk
      && (forall c :: Fires(c, m, history, rss) ==> Severity(LevelOf(c)) <= Severity(level))
      && (level != Ok ==> exists c :: Fires(c, m, history, rss) && LevelOf(c) == level)
  }

  /** The fields that do not depend on the branch taken. */
  ghost predicate HasRiskFields(risk: MemoryRisk, m: Memory) {
    && risk.reclaimable == Reclaimable(m) && risk.compressed == m.compressed
    && risk.swapUsed == m.swapUsed && risk.swapRate == SwapRate(m)
    && risk.headroom == if TotalsMissing(m) then 0 else Headroom(m)
  }

  ghost predicate ExplainsRisk(risk: MemoryRisk, m: Memory, history: seq<Memory>, rss: nat) {
    if TotalsMissing(m) then risk.reason == "memory totals unavailable"
    else if risk.level == Ok then risk.reason == "memory headroom healthy"
    else exists c :: Fires(c, m, history, rss) && LevelOf(c) == risk.level && ReasonOf(c) == risk.reason
  }

  /** The program's cascade finds the greatest severity and gives the reason of a condition of that severity. */
  method DeriveMemoryRisk(m: Memory, history: seq<Memory>, workloads: seq<Workload>) returns (risk: MemoryRisk)
    ensures var rss := RssSum(workloads) % TWO_TO_THE_64;
            IsRiskLevel(risk.level, m, history, rss) && HasRiskFields(risk, m) && ExplainsRisk(risk, m, history, rss)
  {
    hide Headroom, Reclaimable, SwapRate, PercentOf;
    risk := MemoryRisk(UnknownRisk, "", 0, Reclaimable(m), m.compressed, m.swapUsed, SwapRate(m));
    if m.total == 0 || (m.wired == 0 && m.active == 0 && m.used == 0) {
      return risk.(reason := "memory totals unavailable");
    }
    var rss := WorkloadRssTotal(workloads);
    risk := risk.(headroom := Headroom(m));
    var cause: Condition;
    if m.pressure == PressureCritical {
      cause := PressureIsCritical;
    } else if m.swapOutRate >= 16 * MIB {
      cause := HighSwapOut;
    } else if Headroom(m) < PercentOf(m.total, 5) && CompressedRising(m, history) {
      cause := VeryLowHeadroom;
    } else if m.pressure == PressureWarn {
      cause := PressureIsWarn;
    } else if SwapUsedIncreasing(m, history) && SwapRate(m) > 0 {
      cause := ActiveSwapping;
    } else if Headroom(m) < PercentOf(m.total, 10) {
      cause := LowHeadroom;
    } else if m.compressed > PercentOf(m.total, 10) {
      cause := MuchCompressed;
    } else if rss > m.total / 2 {
      cause := LargeWorkloads;
    } else if Headroom(m) < PercentOf(m.total, 20) {
      cause := ReducedHeadroom;
    } else {
      risk := risk.(level := Ok, reason := "memory headroom healthy");
      return;
    }
    assert Fires(cause, m, history, rss);
    risk := risk.(level := LevelOf(cause), reason := ReasonOf(cause));
  }

  /** The level is determined by the memory, the history and the workload total. */
  lemma RiskLevelUnique(a: RiskLevel, b: RiskLevel, m: Memory, history: seq<Memory>, rss: nat)
    requires IsRiskLevel(a, m, history, rss) && IsRiskLevel(b, m, history, rss)
    ensures a == b
  {
    hide Fires;
  }

  /** The level in plain numbers, for samples on which no sum wraps around: headroom is what the three used counts
      leave, with a credit for reclaimable bytes of at most a fifth of the memory. */
  lemma RiskInNumbers(level: RiskLevel, m: Memory, history: seq<Memory>, rss: nat)
    requires IsRiskLevel(level, m, history, rss) && NoOverflow(m) && !TotalsMissing(m)
    ensures var percent := m.total / 100;
            var used, reclaim := m.wired + m.active + m.compressed, m.inactive + m.speculative + m.purgeable;
            var credit := if reclaim < percent * 20 then reclaim else percent * 20;
            var headroom := (if m.total > used then m.total - used else 0) + credit;
            var was: Option<Memory> := if history == [] then None else Some(history[0]);
            var rising := m.compressed > (if was.Some? then was.value.compressed else 0);
            var swapping := m.swapUsed > (if was.Some? then was.value.swapUsed else 0) && m.swapInRate + m.swapOutRate > 0;
            var critical := m.pressure == PressureCritical || m.swapOutRate >= 16777216 ||
                            (headroom < percent * 5 && rising);
            var warn := m.pressure == PressureWarn || swapping || headroom < percent * 10;
            var watch := m.compressed > percent * 10 || rss > m.total / 2 || headroom < percent * 20;
            level == if critical then Critical else if warn then Warn else if watch then Watch else Ok
  {
    SumsAreExact(m);
    HeadroomIs(m);
    hide Headroom, Reclaimable, StrictUsed, SwapRate;
    assert Fires(PressureIsCritical, m, history, rss) || !Fires(PressureIsCritical, m, history, rss);
    assert Fires(HighSwapOut, m, history, rss) || !Fires(HighSwapOut, m, history, rss);
    assert Fires(VeryLowHeadroom, m, history, rss) || !Fires(VeryLowHeadroom, m, history, rss);
    assert Fires(PressureIsWarn, m, history, rss) || !Fires(PressureIsWarn, m, history, rss);
    assert Fires(ActiveSwapping, m, history, rss) || !Fires(ActiveSwapping, m, history, rss);
    assert Fires(LowHeadroom, m, history, rss) || !Fires(LowHeadroom, m, history, rss);
    assert Fires(MuchCompressed, m, history, rss) || !Fires(MuchCompressed, m, history, rss);
    assert Fires(LargeWorkloads, m, history, rss) || !Fires(LargeWorkloads, m, history, rss);
    assert Fires(ReducedHeadroom, m, history, rss) || !Fires(ReducedHeadroom, m, history, rss);
  }

  lemma HeadroomIs(m: Memory)
    requires NoOverflow(m)
    ensures var used, reclaim := m.wired + m.active + m.compressed, m.inactive + m.speculative + m.purgeable;
            var cap := m.total / 100 * 20;
            Headroom(m) == (if m.total > used then m.total - used else 0) + if reclaim < cap then reclaim else cap
  {
    SumsAreExact(m);
    hide Reclaimable, StrictUsed;
    if m.total > StrictUsed(m) {
      Add64Exact(m.total - StrictUsed(m), Min(Reclaimable(m), PercentOf(m.total, 20)));
    }
  }

  // ----- monotonicity end to end -----

  /** No sum of the model wraps around. */
  ghost predicate NoOverflow(m: Memory) {
    && m.inactive + m.speculative + m.purgeable < TWO_TO_THE_64
    && m.wired + m.active + m.compressed < TWO_TO_THE_64
    && m.swapInRate + m.swapOutRate < TWO_TO_THE_64
    && m.total + PercentOf(m.total, 20) < TWO_TO_THE_64
  }

  /** Memory n is under at least as much strain as m: more in use and swapped, less reclaimable. */
  ghost predicate Strained(m: Memory, n: Memory) {
    && m.total == n.total && m.used <= n.used
    && m.compressed <= n.compressed && m.active <= n.active && m.wired <= n.wired
    && m.swapUsed <= n.swapUsed && m.swapInRate <= n.swapInRate && m.swapOutRate <= n.swapOutRate
    && m.inactive >= n.inactive && m.speculative >= n.speculative && m.purgeable >= n.purgeable
  }

  function WithPressure(m: Memory): Memory {
    m.(pressure := DeriveMemoryPressure(m))
  }

  lemma FractionMonotone(a: nat, b: nat, total: nat)
    requires a <= b
    ensures FractionOfTotal(a, total) <= FractionOfTotal(b, total)
  {
    if total > 0 {
      DivideReals(a as real, b as real, total as real);
    }
  }

  lemma DivideReals(a: real, b: real, t: real)
    requires a <= b && t > 0.0
    ensures a / t <= b / t
  {
    assert (b - a) / t >= 0.0;
    assert b / t - a / t == (b - a) / t;
  }

  lemma SumsAreExact(m: Memory)
    requires NoOverflow(m)
    ensures Reclaimable(m) == m.inactive + m.speculative + m.purgeable
    ensures StrictUsed(m) == m.wired + m.active + m.compressed
    ensures SwapRate(m) == m.swapInRate + m.swapOutRate
    ensures Add64(m.active, m.wired) == m.active + m.wired
  {
  }

  lemma CompressionMonotone(m: Memory, n: Memory, compressed: real, reclaimable: real, active: real)
    requires Strained(m, n) && NoOverflow(m) && NoOverflow(n)
    requires CompressionOver(m, compressed, reclaimable, active)
    ensures CompressionOver(n, compressed, reclaimable, active)
  {
    SumsAreExact(m);
    SumsAreExact(n);
    hide FractionOfTotal, Add64, Reclaimable;
    FractionMonotone(m.compressed, n.compressed, m.total);
    FractionMonotone(Reclaimable(n), Reclaimable(m), m.total);
    FractionMonotone(Add64(m.active, m.wired), Add64(n.active, n.wired), m.total);
  }

  /** The pressure in plain numbers: a fifth compressed with at most 8 percent reclaimable and half in active use, or
      swap of 2 GiB and a twentieth of the memory, is critical; half of that, roughly, is a warning. */
  lemma PressureInNumbers(m: Memory)
    requires NoOverflow(m)
    ensures var reclaim, active := m.inactive + m.speculative + m.purgeable, m.active + m.wired;
            var critical := (m.swapUsed >= 2147483648 && m.swapUsed >= m.total / 20) ||
                            (5 * m.compressed >= m.total && 100 * reclaim <= 8 * m.total && 2 * active >= m.total);
            var warn := (m.swapUsed >= 536870912 && m.swapUsed >= m.total / 100) ||
                        (10 * m.compressed >= m.total && 100 * reclaim <= 16 * m.total && 100 * active >= 45 * m.total);
            DeriveMemoryPressure(m) ==
            if m.total == 0 then UnknownPressure else if critical then PressureCritical
            else if warn then PressureWarn else Normal
  {
    SumsAreExact(m);
    if m.total > 0 {
      FractionAtLeast(m.compressed, m.total, 20);
      FractionAtLeast(m.compressed, m.total, 10);
      FractionAtMost(Reclaimable(m), m.total, 8);
      FractionAtMost(Reclaimable(m), m.total, 16);
      FractionAtLeast(Add64(m.active, m.wired), m.total, 50);
      FractionAtLeast(Add64(m.active, m.wired), m.total, 45);
    }
    hide FractionOfTotal, Reclaimable, Add64;
  }

  lemma FractionAtLeast(bytes: nat, total: nat, percent: nat)
    requires total > 0
    ensures FractionOfTotal(bytes, total) >= percent as real / 100.0 <==> 100 * bytes >= percent * total
  {
    var b, t, p := bytes as real, total as real, percent as real;
    assert b / t * t == b;
    if b / t >= p / 100.0 {
      assert b / t * t >= p / 100.0 * t;
      assert 100.0 * b >= p * t;
      assert (100 * bytes) as real >= (percent * total) as real;
    } else {
      assert b / t * t < p / 100.0 * t;
      assert 100.0 * b < p * t;
      assert (100 * bytes) as real < (percent * total) as real;
    }
  }

  lemma FractionAtMost(bytes: nat, total: nat, percent: nat)
    requires total > 0
    ensures FractionOfTotal(bytes, total) <= percent as real / 100.0 <==> 100 * bytes <= percent * total
  {
    var b, t, p := bytes as real, total as real, percent as real;
    assert b / t * t == b;
    if b / t <= p / 100.0 {
      assert b / t * t <= p / 100.0 * t;
      assert 100.0 * b <= p * t;
      assert (100 * bytes) as real <= (percent * total) as real;
    } else {
      assert b / t * t > p / 100.0 * t;
      assert 100.0 * b > p * t;
      assert (100 * bytes) as real > (percent * total) as real;
    }
  }

  /** More strain never lowers the pressure. */
  lemma PressureMonotone(m: Memory, n: Memory)
    requires Strained(m, n) && NoOverflow(m) && NoOverflow(n)
    ensures DeriveMemoryPressure(m) == PressureCritical ==> DeriveMemoryPressure(n) == PressureCritical
    ensures DeriveMemoryPressure(m) == PressureWarn ==> DeriveMemoryPressure(n) in {PressureWarn, PressureCritical}
  {
    if CompressionOver(m, 0.20, 0.08, 0.50) {
      CompressionMonotone(m, n, 0.20, 0.08, 0.50);
    }
    if CompressionOver(m, 0.10, 0.16, 0.45) {
      CompressionMonotone(m, n, 0.10, 0.16, 0.45);
    }
    hide CompressionOver;
  }

  lemma Add64Exact(a: U64, b: U64)
    requires a + b < TWO_TO_THE_64
    ensures Add64(a, b) == a + b
  {
  }

  lemma HeadroomMonotone(m: Memory, n: Memory)
    requires Strained(m, n) && NoOverflow(m) && NoOverflow(n)
    ensures Headroom(m) >= Headroom(n)
  {
    SumsAreExact(m);
    SumsAreExact(n);
    hide Reclaimable, StrictUsed, PercentOf, Add64, SwapRate;
    var a, b := Min(Reclaimable(m), PercentOf(m.total, 20)), Min(Reclaimable(n), PercentOf(n.total, 20));
    if m.total > StrictUsed(m) {
      Add64Exact(m.total - StrictUsed(m), a);
    }
    if n.total > StrictUsed(n) {
      Add64Exact(n.total - StrictUsed(n), b);
    }
  }

  /** A condition that fires keeps firing under more strain, or the critical pressure takes over. */
  lemma FiresMonotone(c: Condition, m: Memory, n: Memory, history: seq<Memory>, rssM: nat, rssN: nat)
    requires Strained(m, n) && rssM <= rssN && Headroom(m) >= Headroom(n) && SwapRate(m) <= SwapRate(n)
    requires m.pressure == PressureCritical ==> n.pressure == PressureCritical
    requires m.pressure == PressureWarn ==> n.pressure in {PressureWarn, PressureCritical}
    requires Fires(c, m, history, rssM)
    ensures Fires(c, n, history, rssN) ||
            (LevelOf(c) == Warn && Fires(PressureIsCritical, n, history, rssN))
  {
    hide Headroom, PercentOf, SwapRate;
  }

  /** Main result: raising strain never lowers the level obtained by feeding the pressure into the risk. */
  lemma RiskMonotone(m: Memory, n: Memory, history: seq<Memory>, rssM: nat, rssN: nat,
                     levelM: RiskLevel, levelN: RiskLevel)
    requires Strained(m, n) && NoOverflow(m) && NoOverflow(n) && rssM <= rssN
    requires IsRiskLevel(levelM, WithPressure(m), history, rssM)
    requires IsRiskLevel(levelN, WithPressure(n), history, rssN)
    ensures Severity(levelM) <= Severity(levelN)
  {
    hide Headroom, DeriveMemoryPressure, SwapRate, PercentOf, Fires;
    var p, q := WithPressure(m), WithPressure(n);
    PressureMonotone(m, n);
    HeadroomMonotone(m, n);
    PressureDoesNotMatter(m);
    PressureDoesNotMatter(n);
    SumsAreExact(m);
    SumsAreExact(n);
    if levelM != Ok && levelM != UnknownRisk {
      var c :| Fires(c, p, history, rssM) && LevelOf(c) == levelM;
      FiresMonotone(c, p, q, history, rssM, rssN);
    }
  }

  lemma PressureDoesNotMatter(m: Memory)
    ensures Headroom(WithPressure(m)) == Headroom(m) && SwapRate(WithPressure(m)) == SwapRate(m)
  {
    hide DeriveMemoryPressure;
  }

  /** Ten billion bytes in all, a wired count at the top of its range and nothing else. */
  function Overfull(m: Memory, active: U64): Memory {
    m.(total := 10000000000, used := 1, wired := TWO_TO_THE_64 - 1, active := active, compressed := 0,
       inactive := 0, speculative := 0, purgeable := 0, swapUsed := 0, swapInRate := 0, swapOutRate := 0)
  }

  /** Without the overflow bound the claim fails: a wrapped sum makes more active memory look like none. */
  lemma OverflowBreaksMonotonicity(m: Memory)
    ensures var quiet, busy := Overfull(m, 0), Overfull(m, 1);
            && Strained(quiet, busy)
            && IsRiskLevel(Warn, WithPressure(quiet), [], 0) && IsRiskLevel(Ok, WithPressure(busy), [], 0)
  {
    OverfullPressure(m, 0);
    OverfullPressure(m, 1);
    OverfullHeadroom(m);
    hide Headroom, DeriveMemoryPressure;
    assert Fires(LowHeadroom, WithPressure(Overfull(m, 0)), [], 0);
  }

  lemma OverfullPressure(m: Memory, active: U64)
    ensures DeriveMemoryPressure(Overfull(m, active)) == Normal
  {
    hide Reclaimable, Add64;
  }

  lemma OverfullHeadroom(m: Memory)
    ensures Headroom(WithPressure(Overfull(m, 0))) == 0
    ensures Headroom(WithPressure(Overfull(m, 1))) == 10000000000
  {
    hide DeriveMemoryPressure;
  }
}
