/** Depth in the tree against the true ancestors of a process, among them those that the filter removed. */
module ProcessAncestry {
  import opened Text
  import opened Snapshots
  import opened ProcessTree
  import opened ProcessTreeFacts
  import opened ProcessView

  /** What the walk sees of the sampled processes. */
  function Shown(processes: seq<Process>, query: string, less: (Process, Process) -> bool, collapsed: set<int>): Forest {
    Forest(Filtered(processes, query), less, collapsed)
  }

  /** q is the sampled parent of p; a process that names itself has none. */
  ghost predicate IsParent(processes: seq<Process>, q: Process, p: Process) {
    q in processes && q.pid == p.parentPid && q.pid != p.pid
  }

  ghost predicate HasParent(processes: seq<Process>, p: Process) {
    exists q :: IsParent(processes, q, p)
  }

  /** Following the parents ends: the rank falls with every step. */
  ghost predicate AcyclicLinks(processes: seq<Process>, rank: int -> nat) {
    forall p, q | p in processes && IsParent(processes, q, p) :: rank(q.pid) < rank(p.pid)
  }

  ghost predicate AllPositive(processes: seq<Process>) {
    forall p | p in processes :: p.pid > 0
  }

  ghost function ParentIn(processes: seq<Process>, p: Process): (q: Process)
    requires HasParent(processes, p)
    ensures IsParent(processes, q, p)
  {
    var q :| IsParent(processes, q, p);
    q
  }

  /** All ancestors of a process, its parent first, whether the filter keeps them or not. */
  ghost function Ancestors(processes: seq<Process>, rank: int -> nat, p: Process): seq<Process>
    requires AcyclicLinks(processes, rank) && p in processes
    decreases rank(p.pid)
  {
    if !HasParent(processes, p) then []
    else [ParentIn(processes, p)] + Ancestors(processes, rank, ParentIn(processes, p))
  }

  function CountPassing(ps: seq<Process>, query: string): nat {
    if ps == [] then 0
    else (if ProcessMatchesQuery(ps[0], query) then 1 else 0) + CountPassing(ps[1..], query)
  }

  /** The number of ancestors that pass the filter. */
  ghost function PassingAncestors(processes: seq<Process>, rank: int -> nat, p: Process, query: string): nat
    requires AcyclicLinks(processes, rank) && p in processes
  {
    CountPassing(Ancestors(processes, rank, p), query)
  }

  /** How many leading processes pass the filter. */
  function LeadingPassing(ps: seq<Process>, query: string): nat {
    if ps == [] || !ProcessMatchesQuery(ps[0], query) then 0 else 1 + LeadingPassing(ps[1..], query)
  }

  /** Above an ancestor that the filter removed no ancestor passes it. */
  ghost predicate NoneAboveHidden(ancestors: seq<Process>, query: string) {
    forall i, j | 0 <= i < j < |ancestors| && !ProcessMatchesQuery(ancestors[i], query) ::
      !ProcessMatchesQuery(ancestors[j], query)
  }

  lemma {:induction false} CountIsZeroIff(ps: seq<Process>, query: string)
    ensures CountPassing(ps, query) == 0 <==> forall i | 0 <= i < |ps| :: !ProcessMatchesQuery(ps[i], query)
  {
    hide ProcessMatchesQuery;
    if ps != [] {
      CountIsZeroIff(ps[1..], query);
      assert forall i | 1 <= i < |ps| :: ps[i] == ps[1..][i - 1];
    }
  }

  /** The leading ones are all that pass exactly when none passes behind one that does not. */
  lemma {:induction false} LeadingIsCountIff(ps: seq<Process>, query: string)
    ensures LeadingPassing(ps, query) <= CountPassing(ps, query)
    ensures LeadingPassing(ps, query) == CountPassing(ps, query) <==> NoneAboveHidden(ps, query)
  {
    hide ProcessMatchesQuery;
    if ps != [] {
      var rest := ps[1..];
      LeadingIsCountIff(rest, query);
      CountIsZeroIff(rest, query);
      assert forall i | 1 <= i < |ps| :: ps[i] == rest[i - 1];
      assert forall i | 0 <= i < |rest| :: rest[i] == ps[i + 1];
    }
  }

  /** A shown process is a root when it has no parent or its parent is hidden. */
  lemma ShownRoot(processes: seq<Process>, query: string, less: (Process, Process) -> bool, collapsed: set<int>, p: Process)
    requires PidsIdentify(processes) && AllPositive(processes) && p in processes
    ensures var f := Shown(processes, query, less, collapsed);
            && (!IsRoot(f, p) <==> HasParent(processes, p) && ProcessMatchesQuery(ParentIn(processes, p), query))
            && (!IsRoot(f, p) ==> ParentIn(processes, p) == ParentOf(f, p))
  {
    hide ProcessMatchesQuery, Filtered;
    var f := Shown(processes, query, less, collapsed);
    assert forall q | q in f.filtered :: q in processes;
    if !IsRoot(f, p) {
      assert IsParent(processes, ParentOf(f, p), p);
    }
    if HasParent(processes, p) {
      var q := ParentIn(processes, p);
      assert q in f.filtered ==> q.pid in Pids(f.filtered);
    }
  }

  lemma ShownAcyclic(processes: seq<Process>, query: string, less: (Process, Process) -> bool, collapsed: set<int>,
                     rank: int -> nat)
    requires PidsIdentify(processes) && AllPositive(processes) && AcyclicLinks(processes, rank)
    ensures Acyclic(Shown(processes, query, less, collapsed), rank)
  {
    hide ProcessMatchesQuery, IsRoot;
    var f := Shown(processes, query, less, collapsed);
    forall p | p in f.filtered && !IsRoot(f, p)
      ensures rank(p.parentPid) < rank(p.pid)
    {
      ShownRoot(processes, query, less, collapsed, p);
    }
  }

  /** None of the leading passing ancestors is collapsed. */
  ghost predicate LeadingOpen(ancestors: seq<Process>, query: string, collapsed: set<int>) {
    forall k | 0 <= k < |ancestors| && k < LeadingPassing(ancestors, query) :: ancestors[k].pid !in collapsed
  }

  lemma LeadingOpenStep(ps: seq<Process>, query: string, collapsed: set<int>)
    requires ps != [] && ProcessMatchesQuery(ps[0], query)
    ensures LeadingOpen(ps, query, collapsed) <==> ps[0].pid !in collapsed && LeadingOpen(ps[1..], query, collapsed)
  {
    hide ProcessMatchesQuery;
    assert LeadingPassing(ps, query) == 1 + LeadingPassing(ps[1..], query);
    assert forall k | 1 <= k < |ps| :: ps[k] == ps[1..][k - 1];
    assert forall k | 0 <= k < |ps[1..]| :: ps[1..][k] == ps[k + 1];
  }

  /** The chain the walk follows is the leading run of passing ancestors. */
  lemma {:induction false} ChainIsLeading(processes: seq<Process>, query: string, less: (Process, Process) -> bool,
                                          collapsed: set<int>, rank: int -> nat, p: Process)
    requires PidsIdentify(processes) && AllPositive(processes) && AcyclicLinks(processes, rank)
    requires Acyclic(Shown(processes, query, less, collapsed), rank) && p in Filtered(processes, query)
    ensures p in processes
    ensures var f, ancestors := Shown(processes, query, less, collapsed), Ancestors(processes, rank, p);
            && PassingChain(f, rank, p) == LeadingPassing(ancestors, query)
            && (OpenChain(f, rank, p) <==> LeadingOpen(ancestors, query, collapsed))
    decreases rank(p.pid)
  {
    hide ProcessMatchesQuery, IsRoot, Filtered, LeadingOpen, HasParent;
    var f := Shown(processes, query, less, collapsed);
    var ancestors := Ancestors(processes, rank, p);
    ShownRoot(processes, query, less, collapsed, p);
    if IsRoot(f, p) {
      NothingLeading(ancestors, query, collapsed);
    } else {
      assert rank(p.parentPid) < rank(p.pid);
      ChainIsLeading(processes, query, less, collapsed, rank, ParentOf(f, p));
      assert ancestors[1..] == Ancestors(processes, rank, ParentOf(f, p));
      LeadingOpenStep(ancestors, query, collapsed);
    }
  }

  lemma NothingLeading(ps: seq<Process>, query: string, collapsed: set<int>)
    requires ps == [] || !ProcessMatchesQuery(ps[0], query)
    ensures LeadingPassing(ps, query) == 0 && LeadingOpen(ps, query, collapsed)
  {
    hide ProcessMatchesQuery;
  }

  /** Main result: with acyclic links and positive distinct pids, for any collapsed set, a row's depth is the number
      of ancestors that pass the filter exactly when none of them stands above a filtered-out one and none
      below the first filtered-out one is collapsed. */
  lemma DepthCountsPassingAncestorsIff(processes: seq<Process>, query: string, less: (Process, Process) -> bool,
                                       collapsed: set<int>, rank: int -> nat, i: nat)
    requires PidsIdentify(processes) && AllPositive(processes) && AcyclicLinks(processes, rank)
    requires i < |TreeRows(Shown(processes, query, less, collapsed))|
    ensures var row := TreeRows(Shown(processes, query, less, collapsed))[i];
            && row.process in processes
            && var ancestors := Ancestors(processes, rank, row.process);
            && row.depth <= PassingAncestors(processes, rank, row.process, query)
            && (row.depth == PassingAncestors(processes, rank, row.process, query) <==>
                NoneAboveHidden(ancestors, query) && LeadingOpen(ancestors, query, collapsed))
  {
    hide TreeRows, ProcessMatchesQuery, Filtered, Acyclic, NoneAboveHidden, LeadingOpen, Ancestors, PassingChain,
         OpenChain, AcyclicLinks;
    var f := Shown(processes, query, less, collapsed);
    ShownAcyclic(processes, query, less, collapsed, rank);
    ShownIdentify(processes, query);
    DepthIsPassingChainIff(f, rank, i);
    var p := TreeRows(f)[i].process;
    ChainIsLeading(processes, query, less, collapsed, rank, p);
    LeadingIsCountIff(Ancestors(processes, rank, p), query);
  }

  lemma ShownIdentify(processes: seq<Process>, query: string)
    requires PidsIdentify(processes) && AllPositive(processes)
    ensures PidsIdentify(Filtered(processes, query)) && AllPositive(Filtered(processes, query))
  {
    hide ProcessMatchesQuery, Filtered;
  }

  // ----- a hidden parent cuts the chain -----

  /** Three generations of one process; the filter keeps the first and the last. */
  function Generation(p: Process, n: int): Process {
    p.(pid := n, parentPid := n - 1, user := "", command := "", name := if n == 2 then "b" else "a")
  }

  lemma MatchesByName(p: Process, n: int)
    ensures ProcessMatchesQuery(Generation(p, n), "a") <==> n != 2
  {
    assert Lower("") == "" && Lower("a") == "a" && Lower("b") == "b";
    ContainsLetter("a", 'a');
    ContainsLetter("b", 'a');
    ContainsLetter("", 'a');
    hide Lower, Contains;
  }

  lemma ContainsLetter(s: string, c: char)
    requires |s| <= 1
    ensures Contains(s, [c]) <==> s == [c]
  {
    assert s[0..] == s;
  }

  function Family(p: Process): seq<Process> {
    [Generation(p, 1), Generation(p, 2), Generation(p, 3)]
  }

  /** A parent has a smaller pid than its child. */
  function PidRank(pid: int): nat {
    if pid > 0 then pid else 0
  }

  lemma FamilyTree(p: Process)
    ensures PidsIdentify(Family(p)) && AllPositive(Family(p)) && AcyclicLinks(Family(p), PidRank)
    ensures Generation(p, 3) in Family(p)
    ensures Ancestors(Family(p), PidRank, Generation(p, 3)) == [Generation(p, 2), Generation(p, 1)]
  {
    var a, b, c := Generation(p, 1), Generation(p, 2), Generation(p, 3);
    var all := Family(p);
    assert a in all && b in all && c in all;
    assert IsParent(all, b, c) && IsParent(all, a, b) && !HasParent(all, a);
    assert ParentIn(all, c) == b && ParentIn(all, b) == a;
    assert Ancestors(all, PidRank, b) == [a] + Ancestors(all, PidRank, a);
    assert [b] + [a] == [b, a];
  }

  /** The input on which depth is not the number of passing ancestors: the row of the third generation has
      depth zero although its grandparent passes the filter and nothing is collapsed. */
  lemma HiddenParentCutsDepth(p: Process, less: (Process, Process) -> bool, i: nat)
    requires i < |TreeRows(Shown(Family(p), "a", less, {}))|
    requires TreeRows(Shown(Family(p), "a", less, {}))[i].process == Generation(p, 3)
    ensures AcyclicLinks(Family(p), PidRank) && Generation(p, 3) in Family(p)
    ensures PassingAncestors(Family(p), PidRank, Generation(p, 3), "a") == 1
    ensures TreeRows(Shown(Family(p), "a", less, {}))[i].depth == 0
  {
    var a, b := Generation(p, 1), Generation(p, 2);
    FamilyTree(p);
    MatchesByName(p, 1);
    MatchesByName(p, 2);
    CountOfTwo(b, a, "a");
    hide TreeRows, ProcessMatchesQuery, Ancestors, NoneAboveHidden, AcyclicLinks, Generation, Family;
    DepthCountsPassingAncestorsIff(Family(p), "a", less, {}, PidRank, i);
    HiddenBelowPassing([b, a], "a");
  }

  lemma CountOfTwo(a: Process, b: Process, query: string)
    requires !ProcessMatchesQuery(a, query) && ProcessMatchesQuery(b, query)
    ensures CountPassing([a, b], query) == 1
  {
    hide ProcessMatchesQuery;
    assert [a, b][1..] == [b] && [b][1..] == [];
    assert CountPassing([b], query) == 1;
  }

  lemma HiddenBelowPassing(ps: seq<Process>, query: string)
    requires |ps| == 2 && !ProcessMatchesQuery(ps[0], query) && ProcessMatchesQuery(ps[1], query)
    ensures !NoneAboveHidden(ps, query)
  {
    hide ProcessMatchesQuery;
    assert 0 <= 0 < 1 < |ps|;
  }

  /** And there is such a row. */
  lemma ThirdGenerationIsShown(p: Process, less: (Process, Process) -> bool)
    ensures exists i | 0 <= i < |TreeRows(Shown(Family(p), "a", less, {}))| ::
              TreeRows(Shown(Family(p), "a", less, {}))[i].process == Generation(p, 3)
  {
    var c, f := Generation(p, 3), Shown(Family(p), "a", less, {});
    MatchesByName(p, 3);
    FamilyTree(p);
    hide TreeRows, ProcessMatchesQuery, Ancestors, RowOf;
    assert c in Family(p) && c in f.filtered && c.pid in Pids(f.filtered);
    EveryPidOnce(f);
    var row :| row in TreeRows(f) && row.process.pid == c.pid;
    assert row.process in f.filtered && row.process in Family(p);
    var i :| 0 <= i < |TreeRows(f)| && TreeRows(f)[i] == row;
  }
}
