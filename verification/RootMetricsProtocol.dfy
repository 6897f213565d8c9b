/**
 The powermetrics thread and the sampler that reads its results.  The producer collects, merges with its
 last success and publishes under a lock; the sampler copies under the same lock and reports a status.
 */
module RootMetricsProtocol {
  import opened Wrappers
  import opened Text
  import opened Snapshots

  /** Everything a collection measures. */
  datatype Readings = Readings(
    aneAvailable: bool, thermal: string, ane: string, sampleTime: nat, gpuFrequencyMhz: int,
    coreMix: map<int, string>, io: map<int, string>, power: map<int, string>)

  datatype RootMetrics = RootMetrics(
    sampled: bool, available: bool, stale: bool, failureReason: string, readings: Readings)

  const NO_READINGS := Readings(false, "N/A", "N/A", 0, 0, map[], map[], map[])
  const NO_METRICS := RootMetrics(false, false, false, "", NO_READINGS)

  /** What any collection returns: sampled, not stale, and with a reason when it failed. */
  predicate Collected(m: RootMetrics) {
    m.sampled && !m.stale && (!m.available ==> m.failureReason != "")
  }

  // ----- the protocol as a state machine -----

  /** `merged` is the producer's result between collection and publication. */
  datatype State = State(
    lastSuccess: RootMetrics, merged: Option<RootMetrics>, shared: RootMetrics, cached: RootMetrics)

  datatype Action = Collect(metrics: RootMetrics) | Publish | Copy

  const INITIAL := State(NO_METRICS, None, NO_METRICS, NO_METRICS)

  function Merge(metrics: RootMetrics, lastSuccess: RootMetrics): RootMetrics {
    if !metrics.available && lastSuccess.available then
      lastSuccess.(sampled := true, stale := true,
                   failureReason := if metrics.failureReason == "" then "powermetrics sample failed"
                                    else metrics.failureReason)
    else metrics
  }

  predicate Enabled(s: State, a: Action) {
    match a
    case Collect(m) => s.merged.None? && Collected(m)
    case Publish => s.merged.Some?
    case Copy => true
  }

  function Next(s: State, a: Action): State
    requires Enabled(s, a)
  {
    match a
    case Collect(m) =>
      s.(merged := Some(Merge(m, s.lastSuccess)), lastSuccess := if m.available then m else s.lastSuccess)
    case Publish => s.(shared := s.merged.value, merged := None)
    case Copy => s.(cached := s.shared)
  }

  ghost predicate IsRun(actions: seq<Action>)
    decreases |actions|, 0
  {
    actions == [] ||
    (IsRun(actions[..|actions| - 1]) &&
     Enabled(StateAfter(actions[..|actions| - 1]), actions[|actions| - 1]))
  }

  ghost function StateAfter(actions: seq<Action>): State
    requires IsRun(actions)
    decreases |actions|, 1
  {
    if actions == [] then INITIAL
    else Next(StateAfter(actions[..|actions| - 1]), actions[|actions| - 1])
  }

  // ----- what a run has collected and published -----

  ghost function Collections(actions: seq<Action>): seq<RootMetrics> {
    if actions == [] then []
    else
      var front := Collections(actions[..|actions| - 1]);
      match actions[|actions| - 1]
      case Collect(m) => front + [m]
      case _ => front
  }

  /** The collections whose results have been published: all but one still in the producer's hands. */
  ghost function PublishedCollections(actions: seq<Action>): seq<RootMetrics> {
    if actions == [] then []
    else match actions[|actions| - 1]
      case Publish => Collections(actions)
      case _ => PublishedCollections(actions[..|actions| - 1])
  }

  ghost predicate AnySuccess(h: seq<RootMetrics>) {
    exists i | 0 <= i < |h| :: h[i].available
  }

  ghost function LatestIndex(h: seq<RootMetrics>): (i: nat)
    requires AnySuccess(h)
    ensures i < |h| && h[i].available
    ensures forall k | i < k < |h| :: !h[k].available
  {
    var last := |h| - 1;
    if h[last].available then last
    else
      assert forall k | 0 <= k < last :: h[..last][k] == h[k];
      LatestIndex(h[..last])
  }

  /** The most recent successful collection. */
  ghost function LatestSuccess(h: seq<RootMetrics>): (m: RootMetrics)
    requires AnySuccess(h)
    ensures m.available && m in h
  {
    h[LatestIndex(h)]
  }

  /** What a published value must be, given the collections behind it. */
  ghost predicate Reflects(m: RootMetrics, h: seq<RootMetrics>) {
    && (m.available <==> AnySuccess(h))
    && (AnySuccess(h) ==> m.readings == LatestSuccess(h).readings)
    && (m.stale <==> AnySuccess(h) && !h[|h| - 1].available)
    && (m.sampled <==> h != [])
    && (m.stale || (m.sampled && !m.available) ==>
          m.failureReason != "" && m.failureReason == h[|h| - 1].failureReason)
  }

  // ----- every interleaving -----

  lemma AnySuccessAppend(h: seq<RootMetrics>, m: RootMetrics)
    ensures AnySuccess(h + [m]) <==> AnySuccess(h) || m.available
    ensures AnySuccess(h + [m]) ==> LatestSuccess(h + [m]) == if m.available then m else LatestSuccess(h)
  {
    var t := h + [m];
    assert t[..|t| - 1] == h && t[|h|] == m;
    if AnySuccess(h) {
      var i :| 0 <= i < |h| && h[i].available;
      assert t[i].available;
    }
    if AnySuccess(t) && !m.available {
      var i :| 0 <= i < |t| && t[i].available;
      assert h[i].available;
    }
  }

  ghost predicate ProducerInvariant(s: State, collected: seq<RootMetrics>) {
    && (s.lastSuccess.available <==> AnySuccess(collected))
    && (AnySuccess(collected) ==> s.lastSuccess == LatestSuccess(collected))
    && (s.merged.Some? ==> collected != [] && Reflects(s.merged.value, collected))
    && forall m | m in collected :: Collected(m)
  }

  lemma {:induction false} ProducerHolds(actions: seq<Action>)
    requires IsRun(actions)
    ensures ProducerInvariant(StateAfter(actions), Collections(actions))
  {
    if actions != [] {
      var front, a := actions[..|actions| - 1], actions[|actions| - 1];
      ProducerHolds(front);
      var s, h := StateAfter(front), Collections(front);
      if a.Collect? {
        AnySuccessAppend(h, a.metrics);
        assert (h + [a.metrics])[|h|] == a.metrics;
        hide LatestSuccess, AnySuccess;
        assert Reflects(Merge(a.metrics, s.lastSuccess), h + [a.metrics]);
      }
    }
  }

  /** While nothing is in the producer's hands, everything collected is published. */
  lemma {:induction false} PublishedOrInHand(actions: seq<Action>)
    requires IsRun(actions)
    ensures StateAfter(actions).merged.None? ==> PublishedCollections(actions) == Collections(actions)
    ensures PublishedCollections(actions) <= Collections(actions)
  {
    if actions != [] {
      PublishedOrInHand(actions[..|actions| - 1]);
    }
  }

  /** Main result: in every interleaving the published value reflects exactly the published collections:
      available iff one succeeded, the readings of the latest success and of no other, stale iff the latest failed. */
  lemma {:induction false} SharedReflectsHistory(actions: seq<Action>)
    requires IsRun(actions)
    ensures Reflects(StateAfter(actions).shared, PublishedCollections(actions))
  {
    if actions != [] {
      var front, a := actions[..|actions| - 1], actions[|actions| - 1];
      SharedReflectsHistory(front);
      if a.Publish? {
        ProducerHolds(front);
      }
    }
  }

  /** The history the sampler's copy was taken from. */
  ghost function CopiedCollections(actions: seq<Action>): seq<RootMetrics> {
    if actions == [] then []
    else match actions[|actions| - 1]
      case Copy => PublishedCollections(actions)
      case _ => CopiedCollections(actions[..|actions| - 1])
  }

  /** The copy reflects a prefix of the published history: a whole published value, never a mixture. */
  lemma {:induction false} CachedReflectsHistory(actions: seq<Action>)
    requires IsRun(actions)
    ensures Reflects(StateAfter(actions).cached, CopiedCollections(actions))
    ensures CopiedCollections(actions) <= PublishedCollections(actions)
  {
    if actions != [] {
      var front, a := actions[..|actions| - 1], actions[|actions| - 1];
      CachedReflectsHistory(front);
      if a.Copy? {
        SharedReflectsHistory(front);
      } else if a.Publish? {
        PublishedOrInHand(front);
      }
    }
  }

  lemma {:induction false} CopiedGrows(before: seq<Action>, after: seq<Action>)
    requires before <= after && IsRun(after)
    ensures IsRun(before) && CopiedCollections(before) <= CopiedCollections(after)
    decreases |after|
  {
    if before == after {
    } else {
      var front := after[..|after| - 1];
      CopiedGrows(before, front);
      CachedReflectsHistory(front);
    }
  }

  // ----- what the observer sees -----

  datatype Report = Report(
    thermal: string, ane: string, thermalAvailable: bool, aneAvailable: bool,
    thermalStatus: MetricStatus, aneStatus: MetricStatus, processStatus: MetricStatus)

  function FailureKind(m: RootMetrics): Availability {
    if !m.sampled then Waiting
    else if Contains(m.failureReason, "permission") then PermissionDenied
    else if Contains(m.failureReason, "parse") then ParseFailed
    else Unavailable
  }

  function ReasonOr(m: RootMetrics, text: string): string {
    if m.stale then m.failureReason else text
  }

  function Apply(m: RootMetrics, ageMs: U64): Report {
    if m.available then
      var kind := if m.stale then Stale else Available;
      Report(m.readings.thermal, if m.readings.aneAvailable then m.readings.ane else "N/A",
             true, m.readings.aneAvailable,
             MetricStatus(kind, ReasonOr(m, "powermetrics thermal sampler"), ageMs),
             if m.readings.aneAvailable
             then MetricStatus(kind, ReasonOr(m, "powermetrics ANE sampler"), ageMs)
             else MetricStatus(Unavailable, "ANE field missing from powermetrics", ageMs),
             MetricStatus(kind, ReasonOr(m, "powermetrics task sampler"), ageMs))
    else
      var reason := if m.sampled then m.failureReason else "waiting for first powermetrics sample";
      var status := MetricStatus(FailureKind(m), reason, 0);
      Report("N/A", "N/A", false, false, status, status, status)
  }

  const NO_ROOT := MetricStatus(RequiresRoot, "powermetrics requires root", 0)

  function ReportOf(rootMode: bool, cached: RootMetrics, ageMs: U64): Report {
    if rootMode then Apply(cached, ageMs)
    else Report("N/A", "N/A without root", false, false, NO_ROOT, NO_ROOT, NO_ROOT)
  }

  /** Every status the observer reads carries a reason. */
  lemma ReasonsNeverEmpty(actions: seq<Action>, rootMode: bool, ageMs: U64)
    requires IsRun(actions)
    ensures var r := ReportOf(rootMode, StateAfter(actions).cached, ageMs);
            r.thermalStatus.reason != "" && r.aneStatus.reason != "" && r.processStatus.reason != ""
  {
    hide LatestSuccess, AnySuccess, Contains, IsRun, StateAfter;
    CachedReflectsHistory(actions);
  }

  /** The process status tells success, staleness and waiting apart. */
  lemma StatusTellsHistory(actions: seq<Action>, ageMs: U64)
    requires IsRun(actions)
    ensures var h := CopiedCollections(actions);
            var status := ReportOf(true, StateAfter(actions).cached, ageMs).processStatus.availability;
            && (status == Available <==> h != [] && h[|h| - 1].available)
            && (status == Stale <==> AnySuccess(h) && !h[|h| - 1].available)
            && (status == Waiting <==> h == [])
  {
    hide LatestSuccess, Contains, IsRun, StateAfter, CopiedCollections;
    CachedReflectsHistory(actions);
    var h := CopiedCollections(actions);
    assert h != [] && h[|h| - 1].available ==> AnySuccess(h);
  }

  /** The texts the observer reads are those of the latest success in its copy; while that is stale, every status
      of it gives the reason of the latest failure. */
  lemma ReportShowsLatest(actions: seq<Action>, ageMs: U64)
    requires IsRun(actions) && AnySuccess(CopiedCollections(actions))
    ensures var h := CopiedCollections(actions);
            var r, latest := ReportOf(true, StateAfter(actions).cached, ageMs), LatestSuccess(h).readings;
            && r.thermal == latest.thermal && r.thermalAvailable
            && r.ane == (if latest.aneAvailable then latest.ane else "N/A") && r.aneAvailable == latest.aneAvailable
            && r.thermalStatus.ageMs == r.aneStatus.ageMs == r.processStatus.ageMs == ageMs
            && (r.aneStatus.availability == Unavailable <==> !latest.aneAvailable)
            && (if h[|h| - 1].available then r.thermalStatus.availability == Available == r.processStatus.availability
                else r.thermalStatus.availability == Stale == r.processStatus.availability &&
                     r.thermalStatus.reason == h[|h| - 1].failureReason == r.processStatus.reason)
  {
    hide LatestSuccess, Contains, IsRun, StateAfter, CopiedCollections;
    CachedReflectsHistory(actions);
  }

  /** Without a success nothing is shown, and all three statuses say the same: waiting before the first collection,
      then the kind and text of the latest failure. */
  lemma ReportWithoutSuccess(actions: seq<Action>, ageMs: U64)
    requires IsRun(actions) && !AnySuccess(CopiedCollections(actions))
    ensures var h := CopiedCollections(actions);
            var r := ReportOf(true, StateAfter(actions).cached, ageMs);
            && r.thermal == r.ane == "N/A" && !r.thermalAvailable && !r.aneAvailable
            && r.thermalStatus == r.aneStatus == r.processStatus
            && (h == [] ==> r.processStatus.availability == Waiting)
            && (h != [] ==>
                  var reason := h[|h| - 1].failureReason;
                  && r.processStatus.reason == reason
                  && r.processStatus.availability ==
                     (if Contains(reason, "permission") then PermissionDenied
                      else if Contains(reason, "parse") then ParseFailed else Unavailable))
  {
    hide LatestSuccess, Contains, IsRun, StateAfter, CopiedCollections;
    CachedReflectsHistory(actions);
  }

  /** Without root nothing is shown and all three statuses ask for it, whatever the copy holds. */
  lemma ReportWithoutRoot(cached: RootMetrics, ageMs: U64)
    ensures var r := ReportOf(false, cached, ageMs);
            && r.thermal == "N/A" && r.ane == "N/A without root" && !r.thermalAvailable && !r.aneAvailable
            && r.thermalStatus == r.aneStatus == r.processStatus
            && r.processStatus == MetricStatus(RequiresRoot, "powermetrics requires root", 0)
  {
  }

  /** Once the observer has seen data, its process status stays Available or Stale for the rest of the run. */
  lemma ObserverNeverGoesBack(before: seq<Action>, after: seq<Action>, ageBefore: U64, ageAfter: U64)
    requires before <= after && IsRun(after) && IsRun(before)
    requires Apply(StateAfter(before).cached, ageBefore).processStatus.availability in {Available, Stale}
    ensures Apply(StateAfter(after).cached, ageAfter).processStatus.availability in {Available, Stale}
    ensures Apply(StateAfter(after).cached, ageAfter).thermalAvailable
  {
    hide Contains, LatestSuccess, IsRun, StateAfter, CopiedCollections;
    CopiedGrows(before, after);
    CachedReflectsHistory(before);
    CachedReflectsHistory(after);
    var h, g := CopiedCollections(before), CopiedCollections(after);
    var i :| 0 <= i < |h| && h[i].available;
    assert g[i] == h[i];
  }

  // ----- the two threads' code -----

  class RootMetricsSampler {
    var lastSuccess: RootMetrics
    var shared: RootMetrics
    var cached: RootMetrics
    var report: Report
    const rootMode: bool

    constructor (rootMode: bool)
      ensures lastSuccess == shared == cached == NO_METRICS && this.rootMode == rootMode
    {
      this.rootMode := rootMode;
      lastSuccess, shared, cached := NO_METRICS, NO_METRICS, NO_METRICS;
      report := ReportOf(false, NO_METRICS, 0);
    }

    ghost function Protocol(merged: Option<RootMetrics>): State
      reads this
    {
      State(lastSuccess, merged, shared, cached)
    }

    /** The producer's unlocked half: it touches nothing the sampler reads. */
    method MergeCollection(collected: RootMetrics) returns (metrics: RootMetrics)
      requires Collected(collected)
      modifies this`lastSuccess
      ensures Protocol(Some(metrics)) == Next(old(Protocol(None)), Collect(collected))
    {
      metrics := collected;
      if metrics.available {
        lastSuccess := metrics;
      } else if lastSuccess.available {
        var failure := if metrics.failureReason == "" then "powermetrics sample failed" else metrics.failureReason;
        metrics := lastSuccess;
        metrics := metrics.(sampled := true, stale := true, failureReason := failure);
      }
    }

    /** The producer's locked half. */
    method PublishMetrics(metrics: RootMetrics)
      modifies this`shared
      ensures Protocol(None) == Next(old(Protocol(Some(metrics))), Publish)
    {
      shared := metrics;
    }

    /** The sampler: copy under the lock, then report. */
    method SampleRootMetrics(ageMs: U64, ghost merged: Option<RootMetrics>)
      modifies this`cached, this`report
      ensures rootMode ==> Protocol(merged) == Next(old(Protocol(merged)), Copy)
      ensures !rootMode ==> cached == old(cached)
      ensures report == ReportOf(rootMode, cached, ageMs)
    {
      if !rootMode {
        report := Report("N/A", "N/A without root", false, false, NO_ROOT, NO_ROOT, NO_ROOT);
        return;
      }
      cached := shared;
      ApplyRootMetrics(ageMs);
    }

    method ApplyRootMetrics(ageMs: U64)
      modifies this`report
      ensures report == Apply(cached, ageMs)
    {
      if cached.available {
        var aneAvailable := cached.readings.aneAvailable;
        var availability := if cached.stale then Stale else Available;
        var thermalStatus := MetricStatus(
          availability, if cached.stale then cached.failureReason else "powermetrics thermal sampler", ageMs);
        var aneStatus := MetricStatus(Unavailable, "ANE field missing from powermetrics", ageMs);
        if aneAvailable {
          aneStatus := MetricStatus(
            availability, if cached.stale then cached.failureReason else "powermetrics ANE sampler", ageMs);
        }
        var processStatus := MetricStatus(
          availability, if cached.stale then cached.failureReason else "powermetrics task sampler", ageMs);
        report := Report(cached.readings.thermal, if aneAvailable then cached.readings.ane else "N/A",
                         true, aneAvailable, thermalStatus, aneStatus, processStatus);
      } else {
        var availability := Waiting;
        var reason := "waiting for first powermetrics sample";
        if cached.sampled {
          reason := cached.failureReason;
          availability := if Contains(cached.failureReason, "permission") then PermissionDenied
                          else if Contains(cached.failureReason, "parse") then ParseFailed
                          else Unavailable;
        }
        var status := MetricStatus(availability, reason, 0);
        report := Report("N/A", "N/A", false, false, status, status, status);
      }
    }
  }
}
