/**
 The rows of the process table in tree mode: a depth-first walk over arbitrary parent links, which may
 form cycles, point at the process itself or at processes that the filter removed.
 */
module ProcessTree {
  import opened Sequences
  import opened Snapshots
  import opened Sorting

  datatype Row = Row(process: Process, depth: nat, hasChildren: bool, collapsed: bool)

  /** What the walk works on: the filtered processes, the table's comparator and the collapsed pids. */
  datatype Forest = Forest(filtered: seq<Process>, less: (Process, Process) -> bool, collapsedPids: set<int>)

  function Pids(s: seq<Process>): set<int> {
    set p | p in s :: p.pid
  }

  function WithParent(s: seq<Process>, pid: int): (r: seq<Process>)
    ensures forall p :: p in r <==> p in s && p.parentPid == pid
  {
    if s == [] then []
    else
      var front := WithParent(s[..|s| - 1], pid);
      if s[|s| - 1].parentPid == pid then front + [s[|s| - 1]] else front
  }

  /** The sorted children of a pid. */
  function Children(f: Forest, pid: int): (r: seq<Process>)
    ensures forall p :: p in r <==> p in f.filtered && p.parentPid == pid
  {
    SortPermutes(f.less, WithParent(f.filtered, pid));
    Sort(f.less, WithParent(f.filtered, pid))
  }

  predicate IsRoot(f: Forest, p: Process) {
    p.parentPid <= 0 || p.parentPid == p.pid || p.parentPid !in Pids(f.filtered)
  }

  function RootsOf(f: Forest, s: seq<Process>): (r: seq<Process>)
    ensures forall p :: p in r <==> p in s && IsRoot(f, p)
  {
    if s == [] then []
    else
      var front := RootsOf(f, s[..|s| - 1]);
      if IsRoot(f, s[|s| - 1]) then front + [s[|s| - 1]] else front
  }

  function Roots(f: Forest): (r: seq<Process>)
    ensures forall p :: p in r <==> p in f.filtered && IsRoot(f, p)
  {
    SortPermutes(f.less, RootsOf(f, f.filtered));
    Sort(f.less, RootsOf(f, f.filtered))
  }

  // ----- the walk as a function -----

  datatype Walk = Walk(rows: seq<Row>, visited: set<int>)

  function RowOf(f: Forest, p: Process, depth: nat): Row {
    var hasChildren := Children(f, p.pid) != [];
    Row(p, depth, hasChildren, hasChildren && p.pid in f.collapsedPids)
  }

  ghost predicate Members(f: Forest, ps: seq<Process>) {
    forall p | p in ps :: p in f.filtered
  }

  /** The walk from one process; the measure is the set of pids not yet visited. */
  ghost function Visit(f: Forest, p: Process, depth: nat, visited: set<int>): (w: Walk)
    requires p in f.filtered
    ensures visited <= w.visited
    decreases Pids(f.filtered) - visited, 0
  {
    if p.pid in visited then Walk([], visited)
    else
      var row := RowOf(f, p, depth);
      if row.collapsed then Walk([row], visited + {p.pid})
      else
        assert p.pid in Pids(f.filtered) - visited;
        var below := VisitAll(f, Children(f, p.pid), depth + 1, visited + {p.pid});
        Walk([row] + below.rows, below.visited)
  }

  /** The walk from several processes in turn. */
  ghost function VisitAll(f: Forest, ps: seq<Process>, depth: nat, visited: set<int>): (w: Walk)
    requires Members(f, ps)
    ensures visited <= w.visited
    decreases Pids(f.filtered) - visited, |ps| + 1
  {
    if ps == [] then Walk([], visited)
    else
      var front := VisitAll(f, ps[..|ps| - 1], depth, visited);
      assert front.visited == visited || Pids(f.filtered) - front.visited <= Pids(f.filtered) - visited;
      var last := Visit(f, ps[|ps| - 1], depth, front.visited);
      Walk(front.rows + last.rows, last.visited)
  }

  ghost function RootWalk(f: Forest): Walk {
    VisitAll(f, Roots(f), 0, {})
  }

  ghost function SweepWalk(f: Forest): Walk {
    VisitAll(f, f.filtered, 0, RootWalk(f).visited)
  }

  /** All rows: first from the roots, then the sweep over everything not yet reached. */
  ghost function TreeRows(f: Forest): seq<Row> {
    RootWalk(f).rows + SweepWalk(f).rows
  }

  // ----- the walk as the program runs it -----

  class TreeBuilder {
    ghost const forest: Forest
    const collapsedPids: set<int>
    const children: map<int, seq<Process>>
    var rows: seq<Row>
    var visited: set<int>

    constructor (ghost forest: Forest, collapsedPids: set<int>, children: map<int, seq<Process>>)
      requires collapsedPids == forest.collapsedPids && ChildrenMap(forest, children)
      ensures this.forest == forest && rows == [] && visited == {} && Valid()
    {
      this.forest, this.collapsedPids, this.children := forest, collapsedPids, children;
      rows, visited := [], {};
    }

    ghost predicate Valid() {
      collapsedPids == forest.collapsedPids && ChildrenMap(forest, children)
    }

    method Dfs(process: Process, depth: nat)
      requires Valid() && process in forest.filtered
      modifies this
      ensures var w := Visit(forest, process, depth, old(visited));
              rows == old(rows) + w.rows && visited == w.visited
      decreases Pids(forest.filtered) - visited, 0
    {
      if process.pid in visited {
        return;
      }
      assert process.pid in Pids(forest.filtered) - visited;
      visited := visited + {process.pid};
      var known := process.pid in children;
      var hasChildren := known && children[process.pid] != [];
      var collapsed := hasChildren && process.pid in collapsedPids;
      assert Row(process, depth, hasChildren, collapsed) == RowOf(forest, process, depth);
      VisitOpens(forest, process, depth, old(visited));
      hide Visit, VisitAll, RowOf, Children;
      rows := rows + [Row(process, depth, hasChildren, collapsed)];
      if collapsed {
        return;
      }
      if !known {
        assert old(rows) + [RowOf(forest, process, depth)] ==
               old(rows) + ([RowOf(forest, process, depth)] + []);
        return;
      }
      DfsEach(children[process.pid], depth + 1);
      Associate(old(rows), [RowOf(forest, process, depth)],
                VisitAll(forest, Children(forest, process.pid), depth + 1, old(visited) + {process.pid}).rows);
    }

    /** The loop over a list of processes. */
    method DfsEach(ps: seq<Process>, depth: nat)
      requires Valid() && Members(forest, ps)
      modifies this
      ensures var w := VisitAll(forest, ps, depth, old(visited));
              rows == old(rows) + w.rows && visited == w.visited
      decreases Pids(forest.filtered) - visited, |ps| + 1
    {
      VisitNone(forest, depth, old(visited));
      hide Visit, VisitAll;
      var i := 0;
      assert ps[..0] == [];
      while i < |ps|
        invariant 0 <= i <= |ps|
        invariant Members(forest, ps[..i])
        invariant old(visited) <= visited
        invariant var w := VisitAll(forest, ps[..i], depth, old(visited));
                  rows == old(rows) + w.rows && visited == w.visited
      {
        VisitNext(forest, ps, i, depth, old(visited));
        assert Pids(forest.filtered) - visited <= Pids(forest.filtered) - old(visited);
        Dfs(ps[i], depth);
        Associate(old(rows), VisitAll(forest, ps[..i], depth, old(visited)).rows,
                  Visit(forest, ps[i], depth, VisitAll(forest, ps[..i], depth, old(visited)).visited).rows);
        i := i + 1;
      }
      assert ps[..|ps|] == ps;
    }
  }

  lemma VisitOpens(f: Forest, p: Process, depth: nat, visited: set<int>)
    requires p in f.filtered && p.pid !in visited
    ensures var row := RowOf(f, p, depth);
            Visit(f, p, depth, visited) ==
            if row.collapsed || Children(f, p.pid) == [] then Walk([row], visited + {p.pid})
            else var below := VisitAll(f, Children(f, p.pid), depth + 1, visited + {p.pid});
                 Walk([row] + below.rows, below.visited)
  {
  }

  lemma VisitNone(f: Forest, depth: nat, visited: set<int>)
    ensures VisitAll(f, [], depth, visited) == Walk([], visited)
  {
  }

  lemma VisitNext(f: Forest, ps: seq<Process>, i: nat, depth: nat, visited: set<int>)
    requires Members(f, ps) && i < |ps|
    ensures Members(f, ps[..i]) && Members(f, ps[..i + 1])
    ensures var front := VisitAll(f, ps[..i], depth, visited);
            var last := Visit(f, ps[i], depth, front.visited);
            VisitAll(f, ps[..i + 1], depth, visited) == Walk(front.rows + last.rows, last.visited)
  {
    assert ps[..i + 1][..i] == ps[..i];
  }

  /** The map the program builds: a pid is a key when it is some process's parent. */
  ghost predicate ChildrenMap(f: Forest, children: map<int, seq<Process>>) {
    forall pid :: (pid in children ==> children[pid] == Children(f, pid)) &&
                  (pid !in children ==> Children(f, pid) == [])
  }

  /** The children of every pid, in sampled order: the map before its entries are sorted. */
  ghost predicate PushedMap(s: seq<Process>, pushed: map<int, seq<Process>>) {
    forall pid :: (if pid in pushed then pushed[pid] else []) == WithParent(s, pid)
  }

  method CollectChildren(s: seq<Process>) returns (pidSet: set<int>, pushed: map<int, seq<Process>>)
    ensures pidSet == Pids(s) && PushedMap(s, pushed)
  {
    pidSet, pushed := {}, map[];
    var i := 0;
    while i < |s|
      invariant 0 <= i <= |s|
      invariant pidSet == Pids(s[..i])
      invariant PushedMap(s[..i], pushed)
    {
      assert s[..i + 1][..i] == s[..i];
      assert s[..i + 1] == s[..i] + [s[i]];
      pidSet := pidSet + {s[i].pid};
      pushed := pushed[s[i].parentPid := (if s[i].parentPid in pushed then pushed[s[i].parentPid] else []) + [s[i]]];
      i := i + 1;
    }
    assert s[..|s|] == s;
  }

  method CollectRoots(f: Forest, pidSet: set<int>) returns (roots: seq<Process>)
    requires pidSet == Pids(f.filtered)
    ensures roots == RootsOf(f, f.filtered)
  {
    roots := [];
    var i := 0;
    while i < |f.filtered|
      invariant 0 <= i <= |f.filtered|
      invariant roots == RootsOf(f, f.filtered[..i])
    {
      var p := f.filtered[i];
      assert f.filtered[..i + 1][..i] == f.filtered[..i];
      if p.parentPid <= 0 || p.parentPid == p.pid || p.parentPid !in pidSet {
        roots := roots + [p];
      }
      i := i + 1;
    }
    assert f.filtered[..|f.filtered|] == f.filtered;
  }

  /** The tree branch of the row builder computes TreeRows. */
  method BuildTreeRows(f: Forest) returns (rows: seq<Row>)
    ensures rows == TreeRows(f)
  {
    hide Visit, VisitAll, WithParent, RootsOf, Sort;
    var pidSet, pushed := CollectChildren(f.filtered);
    var children := map pid | pid in pushed :: Sort(f.less, pushed[pid]);
    SortedEmpty(f.less);
    assert ChildrenMap(f, children);
    var roots := CollectRoots(f, pidSet);
    roots := Sort(f.less, roots);
    assert roots == Roots(f);
    var builder := new TreeBuilder(f, f.collapsedPids, children);
    builder.DfsEach(roots, 0);
    builder.DfsEach(f.filtered, 0);
    rows := builder.rows;
  }

  lemma SortedEmpty(less: (Process, Process) -> bool)
    ensures Sort(less, []) == []
  {
  }
}
