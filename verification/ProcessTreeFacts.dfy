/** What the tree rows are, for any parent links and any collapsed pids. */
module ProcessTreeFacts {
  import opened Snapshots
  import opened Sorting
  import opened ProcessTree

  function RowPids(rows: seq<Row>): set<int> {
    set r | r in rows :: r.process.pid
  }

  function RowProcesses(rows: seq<Row>): (ps: seq<Process>)
    ensures |ps| == |rows| && forall i | 0 <= i < |rows| :: ps[i] == rows[i].process
  {
    seq(|rows|, i requires 0 <= i < |rows| => rows[i].process)
  }

  ghost predicate PidsOnce(rows: seq<Row>) {
    forall i, j | 0 <= i < j < |rows| :: rows[i].process.pid != rows[j].process.pid
  }

  // ----- every process exactly once -----

  /** A stretch of the walk: new pids only, each once, all of them filtered processes with honest flags. */
  ghost predicate Fresh(f: Forest, before: set<int>, w: Walk) {
    && w.visited == before + RowPids(w.rows)
    && RowPids(w.rows) !! before
    && PidsOnce(w.rows)
    && (forall r | r in w.rows :: r.process in f.filtered && r == RowOf(f, r.process, r.depth))
  }

  lemma FreshAppend(f: Forest, before: set<int>, a: Walk, b: Walk)
    requires Fresh(f, before, a) && Fresh(f, a.visited, b)
    ensures Fresh(f, before, Walk(a.rows + b.rows, b.visited))
  {
    hide RowOf;
    var rows := a.rows + b.rows;
    assert RowPids(rows) == RowPids(a.rows) + RowPids(b.rows);
    forall i, j | 0 <= i < j < |rows|
      ensures rows[i].process.pid != rows[j].process.pid
    {
      if i < |a.rows| <= j {
        assert rows[i].process.pid in RowPids(a.rows);
        assert rows[j] == b.rows[j - |a.rows|] && rows[j].process.pid in RowPids(b.rows);
      }
    }
  }

  lemma FreshOne(f: Forest, before: set<int>, row: Row)
    requires row.process in f.filtered && row.process.pid !in before && row == RowOf(f, row.process, row.depth)
    ensures Fresh(f, before, Walk([row], before + {row.process.pid}))
  {
    hide RowOf;
    assert RowPids([row]) == {row.process.pid};
  }

  lemma {:induction false} VisitFresh(f: Forest, p: Process, depth: nat, visited: set<int>)
    requires p in f.filtered
    ensures Fresh(f, visited, Visit(f, p, depth, visited))
    ensures p.pid in Visit(f, p, depth, visited).visited
    decreases Pids(f.filtered) - visited, 0
  {
    if p.pid !in visited {
      var row := RowOf(f, p, depth);
      var v := visited + {p.pid};
      VisitOpens(f, p, depth, visited);
      FreshOne(f, visited, row);
      if !row.collapsed && Children(f, p.pid) != [] {
        assert p.pid in Pids(f.filtered) - visited;
        VisitAllFresh(f, Children(f, p.pid), depth + 1, v);
        FreshAppend(f, visited, Walk([row], v), VisitAll(f, Children(f, p.pid), depth + 1, v));
      }
    } else {
      assert RowPids([]) == {};
    }
  }

  lemma {:induction false} VisitAllFresh(f: Forest, ps: seq<Process>, depth: nat, visited: set<int>)
    requires Members(f, ps)
    ensures Fresh(f, visited, VisitAll(f, ps, depth, visited))
    ensures Pids(ps) <= VisitAll(f, ps, depth, visited).visited
    decreases Pids(f.filtered) - visited, |ps| + 1
  {
    hide Fresh, Visit, VisitAll;
    VisitNone(f, depth, visited);
    if ps == [] {
      FreshNone(f, visited);
    } else {
      var n := |ps| - 1;
      assert ps[..n + 1] == ps;
      VisitNext(f, ps, n, depth, visited);
      var front := VisitAll(f, ps[..n], depth, visited);
      VisitAllFresh(f, ps[..n], depth, visited);
      assert Pids(f.filtered) - front.visited <= Pids(f.filtered) - visited;
      VisitFresh(f, ps[n], depth, front.visited);
      FreshAppend(f, visited, front, Visit(f, ps[n], depth, front.visited));
      PidsFront(ps);
    }
  }

  lemma FreshNone(f: Forest, visited: set<int>)
    ensures Fresh(f, visited, Walk([], visited))
  {
    assert RowPids([]) == {};
  }

  lemma PidsFront(ps: seq<Process>)
    requires ps != []
    ensures Pids(ps) == Pids(ps[..|ps| - 1]) + {ps[|ps| - 1].pid}
  {
    assert ps == ps[..|ps| - 1] + [ps[|ps| - 1]];
  }

  /** Tree mode emits the pid of every filtered process exactly once, whatever the links and collapsed pids. */
  lemma EveryPidOnce(f: Forest)
    ensures PidsOnce(TreeRows(f)) && RowPids(TreeRows(f)) == Pids(f.filtered)
    ensures forall r | r in TreeRows(f) :: r.process in f.filtered && r == RowOf(f, r.process, r.depth)
  {
    VisitAllFresh(f, Roots(f), 0, {});
    VisitAllFresh(f, f.filtered, 0, RootWalk(f).visited);
    FreshAppend(f, {}, RootWalk(f), SweepWalk(f));
  }

  ghost predicate DistinctPids(s: seq<Process>) {
    forall i, j | 0 <= i < j < |s| :: s[i].pid != s[j].pid
  }

  lemma {:induction false} OnceInMultiset(s: seq<Process>, p: Process)
    requires DistinctPids(s)
    ensures multiset(s)[p] == if p in s then 1 else 0
  {
    if s != [] {
      var front, last := s[..|s| - 1], s[|s| - 1];
      assert s == front + [last];
      OnceInMultiset(front, p);
      if p == last {
        assert p !in front;
      }
    }
  }

  /** With distinct pids the rows are a permutation of the filtered processes. */
  lemma EveryProcessOnce(f: Forest)
    requires DistinctPids(f.filtered)
    ensures multiset(RowProcesses(TreeRows(f))) == multiset(f.filtered)
  {
    var rows := TreeRows(f);
    var ps := RowProcesses(rows);
    EveryPidOnce(f);
    hide TreeRows, RowOf;
    forall p
      ensures p in ps <==> p in f.filtered
    {
      if p in ps {
        var i :| 0 <= i < |ps| && ps[i] == p;
        assert rows[i] in rows;
      }
      if p in f.filtered {
        assert p.pid in RowPids(rows);
        var r :| r in rows && r.process.pid == p.pid;
        var i :| 0 <= i < |rows| && rows[i] == r;
        assert ps[i] == r.process == p;
      }
    }
    forall p
      ensures multiset(ps)[p] == multiset(f.filtered)[p]
    {
      OnceInMultiset(ps, p);
      OnceInMultiset(f.filtered, p);
    }
  }

  // ----- preorder -----

  /** Row j is drawn as the parent of row i: one level up, nothing shallower between, and it is open. */
  ghost predicate IsParentRow(rows: seq<Row>, j: int, i: int) {
    && 0 <= j < i < |rows|
    && rows[j].depth + 1 == rows[i].depth
    && rows[j].process.pid == rows[i].process.parentPid
    && !rows[j].collapsed && rows[j].hasChildren
    && forall k | j < k < i :: rows[k].depth >= rows[i].depth
  }

  ghost predicate HasParentRow(rows: seq<Row>, i: int) {
    exists j :: IsParentRow(rows, j, i)
  }

  /** Every row below the base level has its parent row. */
  ghost predicate Nested(rows: seq<Row>, base: nat) {
    && (forall i | 0 <= i < |rows| :: rows[i].depth >= base)
    && (forall i | 0 <= i < |rows| && rows[i].depth > base :: HasParentRow(rows, i))
  }

  lemma ParentRowShift(front: seq<Row>, rows: seq<Row>, back: seq<Row>, j: int, i: int)
    requires IsParentRow(rows, j, i)
    ensures IsParentRow(front + rows + back, j + |front|, i + |front|)
  {
    var all := front + rows + back;
    assert forall k | 0 <= k < |rows| :: all[k + |front|] == rows[k];
    forall k | j + |front| < k < i + |front|
      ensures all[k].depth >= all[i + |front|].depth
    {
      assert all[k] == rows[k - |front|];
    }
  }

  lemma NestedAppend(a: seq<Row>, b: seq<Row>, base: nat)
    requires Nested(a, base) && Nested(b, base)
    ensures Nested(a + b, base)
  {
    hide IsParentRow;
    var rows := a + b;
    forall i | 0 <= i < |rows| && rows[i].depth > base
      ensures HasParentRow(rows, i)
    {
      if i < |a| {
        var j :| IsParentRow(a, j, i);
        ParentRowShift([], a, b, j, i);
        assert [] + a + b == rows;
      } else {
        var j :| IsParentRow(b, j, i - |a|);
        ParentRowShift(a, b, [], j, i - |a|);
        assert a + b + [] == rows;
      }
    }
  }

  lemma FirstRowIsParent(row: Row, below: seq<Row>, i: int)
    requires 0 < i <= |below| && below[i - 1].depth == row.depth + 1 && !row.collapsed && row.hasChildren
    requires below[i - 1].process.parentPid == row.process.pid
    requires forall k | 0 <= k < |below| :: below[k].depth > row.depth
    ensures IsParentRow([row] + below, 0, i)
  {
    var rows := [row] + below;
    assert forall k | 0 < k < |rows| :: rows[k] == below[k - 1];
  }

  lemma NestedBelow(row: Row, below: seq<Row>)
    requires Nested(below, row.depth + 1) && !row.collapsed && row.hasChildren
    requires forall r | r in below && r.depth == row.depth + 1 :: r.process.parentPid == row.process.pid
    ensures Nested([row] + below, row.depth)
  {
    hide IsParentRow;
    var rows := [row] + below;
    assert rows == [row] + below + [];
    forall i | 0 <= i < |rows| && rows[i].depth > row.depth
      ensures HasParentRow(rows, i)
    {
      assert rows[i] == below[i - 1] && below[i - 1] in below;
      if rows[i].depth == row.depth + 1 {
        FirstRowIsParent(row, below, i);
      } else {
        var j :| IsParentRow(below, j, i - 1);
        ParentRowShift([row], below, [], j, i - 1);
      }
    }
  }

  /** Rows at the base level come from the list that was walked. */
  ghost predicate BaseFrom(rows: seq<Row>, base: nat, ps: seq<Process>) {
    forall r | r in rows && r.depth == base :: r.process in ps
  }

  ghost predicate StartsAtBase(rows: seq<Row>, base: nat) {
    rows != [] ==> rows[0].depth == base && forall i | 0 < i < |rows| :: rows[i].depth > base
  }

  lemma {:induction false} VisitNested(f: Forest, p: Process, depth: nat, visited: set<int>)
    requires p in f.filtered
    ensures var rows := Visit(f, p, depth, visited).rows;
            Nested(rows, depth) && StartsAtBase(rows, depth) && BaseFrom(rows, depth, [p])
    decreases Pids(f.filtered) - visited, 0
  {
    if p.pid !in visited {
      var row := RowOf(f, p, depth);
      VisitOpens(f, p, depth, visited);
      if !row.collapsed && Children(f, p.pid) != [] {
        assert p.pid in Pids(f.filtered) - visited;
        VisitAllNested(f, Children(f, p.pid), depth + 1, visited + {p.pid});
        NestedBelow(row, VisitAll(f, Children(f, p.pid), depth + 1, visited + {p.pid}).rows);
      }
    }
  }

  lemma {:induction false} VisitAllNested(f: Forest, ps: seq<Process>, depth: nat, visited: set<int>)
    requires Members(f, ps)
    ensures var rows := VisitAll(f, ps, depth, visited).rows;
            Nested(rows, depth) && BaseFrom(rows, depth, ps)
    decreases Pids(f.filtered) - visited, |ps| + 1
  {
    if ps != [] {
      var n := |ps| - 1;
      assert ps[..n + 1] == ps;
      VisitNext(f, ps, n, depth, visited);
      var front := VisitAll(f, ps[..n], depth, visited);
      assert Pids(f.filtered) - front.visited <= Pids(f.filtered) - visited;
      VisitAllNested(f, ps[..n], depth, visited);
      VisitNested(f, ps[n], depth, front.visited);
      NestedAppend(front.rows, Visit(f, ps[n], depth, front.visited).rows, depth);
    }
  }

  /** The rows are a preorder: every indented row has its parent row above it, one level up. */
  lemma RowsArePreorder(f: Forest)
    ensures forall i | 0 <= i < |TreeRows(f)| && TreeRows(f)[i].depth > 0 :: HasParentRow(TreeRows(f), i)
  {
    VisitAllNested(f, Roots(f), 0, {});
    VisitAllNested(f, f.filtered, 0, RootWalk(f).visited);
    NestedAppend(RootWalk(f).rows, SweepWalk(f).rows, 0);
  }

  /** A row shows children exactly when some filtered process names it as its parent, and it is collapsed exactly
      when it also stands in the collapsed set. */
  lemma RowFlags(f: Forest, i: nat)
    requires i < |TreeRows(f)|
    ensures var r := TreeRows(f)[i];
            && (r.hasChildren <==> exists p :: p in f.filtered && p.parentPid == r.process.pid)
            && (r.collapsed <==> r.hasChildren && r.process.pid in f.collapsedPids)
  {
    EveryPidOnce(f);
    hide TreeRows;
    var r := TreeRows(f)[i];
    assert r in TreeRows(f);
    var children := Children(f, r.process.pid);
    if children != [] {
      assert children[0] in children;
    }
    hide Children;
    assert (exists p :: p in f.filtered && p.parentPid == r.process.pid) ==> children != [];
  }

  /** Directly below a process in the collapsed set nothing is indented under it. */
  lemma NothingBelowCollapsed(f: Forest, i: nat)
    requires i + 1 < |TreeRows(f)| && TreeRows(f)[i].process.pid in f.collapsedPids
    ensures TreeRows(f)[i + 1].depth <= TreeRows(f)[i].depth
  {
    RowsArePreorder(f);
    RowFlags(f, i);
    hide TreeRows;
    var rows := TreeRows(f);
    if rows[i + 1].depth > 0 {
      var j :| IsParentRow(rows, j, i + 1);
    }
  }

  /** Collapsing hides nothing: the same pids are shown for any collapsed set. */
  lemma CollapsingHidesNothing(f: Forest, collapsedPids: set<int>)
    ensures RowPids(TreeRows(f.(collapsedPids := collapsedPids))) == RowPids(TreeRows(f))
  {
    hide TreeRows;
    EveryPidOnce(f);
    EveryPidOnce(f.(collapsedPids := collapsedPids));
  }

  /** Instead, every child of a process in the collapsed set is drawn at depth zero. */
  lemma ChildrenOfCollapsedAtTop(f: Forest, k: nat)
    requires k < |TreeRows(f)| && TreeRows(f)[k].process.parentPid in f.collapsedPids
    ensures TreeRows(f)[k].depth == 0
  {
    RowsArePreorder(f);
    hide TreeRows;
    var rows := TreeRows(f);
    if rows[k].depth > 0 {
      var j :| IsParentRow(rows, j, k);
      RowFlags(f, j);
    }
  }

  // ----- siblings -----

  /** Rows i and k are siblings: same level, nothing shallower between them. */
  ghost predicate Siblings(rows: seq<Row>, i: int, k: int) {
    && 0 <= i < k < |rows| && rows[i].depth == rows[k].depth
    && forall m | i < m < k :: rows[m].depth >= rows[i].depth
  }

  ghost predicate SiblingsOrdered(f: Forest, rows: seq<Row>, base: nat) {
    forall i, k | Siblings(rows, i, k) && rows[i].depth > base :: !f.less(rows[k].process, rows[i].process)
  }

  ghost predicate BaseOrdered(f: Forest, rows: seq<Row>, base: nat) {
    forall i, k | 0 <= i < k < |rows| && rows[i].depth == rows[k].depth == base ::
      !f.less(rows[k].process, rows[i].process)
  }

  lemma SiblingsShift(front: seq<Row>, rows: seq<Row>, back: seq<Row>, i: int, k: int)
    requires Siblings(front + rows + back, i + |front|, k + |front|) && 0 <= i && k < |rows|
    ensures Siblings(rows, i, k)
  {
    var all := front + rows + back;
    forall m | i < m < k
      ensures rows[m].depth >= rows[i].depth
    {
      assert all[m + |front|] == rows[m] && all[i + |front|] == rows[i];
    }
    assert all[i + |front|] == rows[i] && all[k + |front|] == rows[k];
  }

  /** A row at the base level separates what stands before and after it. */
  lemma SeparatedSiblings(a: seq<Row>, b: seq<Row>, base: nat, i: int, k: int)
    requires Siblings(a + b, i, k) && i < |a| <= k && b != [] && b[0].depth == base
    ensures (a + b)[i].depth <= base
  {
    assert (a + b)[|a|] == b[0];
  }

  lemma OrderedAppend(f: Forest, a: seq<Row>, b: seq<Row>, base: nat)
    requires SiblingsOrdered(f, a, base) && SiblingsOrdered(f, b, base)
    requires b != [] ==> b[0].depth == base
    ensures SiblingsOrdered(f, a + b, base)
  {
    var rows := a + b;
    assert [] + a + b == rows && a + b + [] == rows;
    forall i, k | Siblings(rows, i, k) && rows[i].depth > base
      ensures !f.less(rows[k].process, rows[i].process)
    {
      assert 0 <= i < k < |rows|;
      hide Siblings;
      if k < |a| {
        SiblingsShift([], a, b, i, k);
      } else if |a| <= i {
        SiblingsShift(a, b, [], i - |a|, k - |a|);
      } else {
        SeparatedSiblings(a, b, base, i, k);
      }
    }
  }

  lemma OrderedBelow(f: Forest, row: Row, below: seq<Row>)
    requires SiblingsOrdered(f, below, row.depth + 1) && BaseOrdered(f, below, row.depth + 1)
    ensures SiblingsOrdered(f, [row] + below, row.depth)
  {
    var rows := [row] + below;
    forall i, k | Siblings(rows, i, k) && rows[i].depth > row.depth
      ensures !f.less(rows[k].process, rows[i].process)
    {
      assert [row] + below + [] == rows;
      SiblingsShift([row], below, [], i - 1, k - 1);
    }
  }

  lemma {:induction false} VisitOrdered(f: Forest, p: Process, depth: nat, visited: set<int>)
    requires p in f.filtered && StrictWeakOn(f.less, f.filtered)
    ensures SiblingsOrdered(f, Visit(f, p, depth, visited).rows, depth)
    decreases Pids(f.filtered) - visited, 0
  {
    if p.pid !in visited {
      var row, ps := RowOf(f, p, depth), Children(f, p.pid);
      VisitOpens(f, p, depth, visited);
      if !row.collapsed && ps != [] {
        assert p.pid in Pids(f.filtered) - visited;
        ChildrenSorted(f, p.pid);
        VisitAllOrdered(f, ps, depth + 1, visited + {p.pid});
        OrderedBelow(f, row, VisitAll(f, ps, depth + 1, visited + {p.pid}).rows);
      }
    }
  }

  lemma ChildrenSorted(f: Forest, pid: int)
    requires StrictWeakOn(f.less, f.filtered)
    ensures Sorted(f.less, Children(f, pid))
  {
    WeakOnFewer(f.less, f.filtered, WithParent(f.filtered, pid));
    SortSorts(f.less, WithParent(f.filtered, pid));
  }

  lemma RootsSorted(f: Forest)
    requires StrictWeakOn(f.less, f.filtered)
    ensures Sorted(f.less, Roots(f))
  {
    WeakOnFewer(f.less, f.filtered, RootsOf(f, f.filtered));
    SortSorts(f.less, RootsOf(f, f.filtered));
  }

  lemma {:induction false} VisitAllOrdered(f: Forest, ps: seq<Process>, depth: nat, visited: set<int>)
    requires Members(f, ps) && StrictWeakOn(f.less, f.filtered)
    ensures SiblingsOrdered(f, VisitAll(f, ps, depth, visited).rows, depth)
    ensures Sorted(f.less, ps) ==> BaseOrdered(f, VisitAll(f, ps, depth, visited).rows, depth)
    decreases Pids(f.filtered) - visited, |ps| + 1
  {
    if ps != [] {
      var n := |ps| - 1;
      assert ps[..n + 1] == ps;
      VisitNext(f, ps, n, depth, visited);
      var front := VisitAll(f, ps[..n], depth, visited);
      var last := Visit(f, ps[n], depth, front.visited);
      assert Pids(f.filtered) - front.visited <= Pids(f.filtered) - visited;
      VisitAllOrdered(f, ps[..n], depth, visited);
      VisitOrdered(f, ps[n], depth, front.visited);
      VisitAllNested(f, ps[..n], depth, visited);
      VisitNested(f, ps[n], depth, front.visited);
      OrderedAppend(f, front.rows, last.rows, depth);
      if Sorted(f.less, ps) {
        BaseAppend(f, front.rows, last.rows, depth, ps);
      }
    }
  }

  lemma BaseAppend(f: Forest, a: seq<Row>, b: seq<Row>, base: nat, ps: seq<Process>)
    requires ps != [] && Sorted(f.less, ps) && BaseOrdered(f, a, base)
    requires BaseFrom(a, base, ps[..|ps| - 1]) && BaseFrom(b, base, [ps[|ps| - 1]]) && StartsAtBase(b, base)
    ensures BaseOrdered(f, a + b, base)
  {
    var rows := a + b;
    forall i, k | 0 <= i < k < |rows| && rows[i].depth == rows[k].depth == base
      ensures !f.less(rows[k].process, rows[i].process)
    {
      if |a| <= k {
        assert k == |a| && rows[k] == b[0] && b[0] in b && rows[i] == a[i] && a[i] in a;
      }
    }
  }

  /** Siblings stand in the table's order; so do the true roots among themselves. */
  lemma SiblingsInTableOrder(f: Forest)
    requires StrictWeakOn(f.less, f.filtered)
    ensures SiblingsOrdered(f, TreeRows(f), 0)
    ensures BaseOrdered(f, RootWalk(f).rows, 0)
  {
    RootsSorted(f);
    VisitAllOrdered(f, Roots(f), 0, {});
    VisitAllOrdered(f, f.filtered, 0, RootWalk(f).visited);
    SweepStartsAtBase(f, f.filtered, RootWalk(f).visited);
    OrderedAppend(f, RootWalk(f).rows, SweepWalk(f).rows, 0);
  }

  lemma {:induction false} SweepStartsAtBase(f: Forest, ps: seq<Process>, visited: set<int>)
    requires Members(f, ps)
    ensures var rows := VisitAll(f, ps, 0, visited).rows; rows != [] ==> rows[0].depth == 0
    decreases |ps|
  {
    if ps != [] {
      var n := |ps| - 1;
      assert ps[..n + 1] == ps;
      VisitNext(f, ps, n, 0, visited);
      SweepStartsAtBase(f, ps[..n], visited);
      VisitNested(f, ps[n], 0, VisitAll(f, ps[..n], 0, visited).visited);
    }
  }

  // ----- depth -----

  /** Every process reached on the way has all its children reached, unless it is collapsed. */
  ghost predicate Closed(f: Forest, before: set<int>, after: set<int>) {
    forall c | c in f.filtered && c.parentPid in after - before && c.parentPid !in f.collapsedPids :: c.pid in after
  }

  lemma {:induction false} VisitClosed(f: Forest, p: Process, depth: nat, visited: set<int>)
    requires p in f.filtered
    ensures Closed(f, visited, Visit(f, p, depth, visited).visited)
    decreases Pids(f.filtered) - visited, 0
  {
    if p.pid !in visited {
      var row, ps := RowOf(f, p, depth), Children(f, p.pid);
      VisitOpens(f, p, depth, visited);
      assert forall c | c in f.filtered && c.parentPid == p.pid :: c in ps;
      if !row.collapsed && ps != [] {
        assert p.pid in Pids(f.filtered) - visited;
        VisitAllClosed(f, ps, depth + 1, visited + {p.pid});
        VisitAllFresh(f, ps, depth + 1, visited + {p.pid});
        var after := VisitAll(f, ps, depth + 1, visited + {p.pid}).visited;
        forall c | c in f.filtered && c.parentPid in after - visited && c.parentPid !in f.collapsedPids
          ensures c.pid in after
        {
          if c.parentPid == p.pid {
            assert c in ps && c.pid in Pids(ps);
          }
        }
      }
    }
  }

  lemma {:induction false} VisitAllClosed(f: Forest, ps: seq<Process>, depth: nat, visited: set<int>)
    requires Members(f, ps)
    ensures Closed(f, visited, VisitAll(f, ps, depth, visited).visited)
    decreases Pids(f.filtered) - visited, |ps| + 1
  {
    if ps != [] {
      var n := |ps| - 1;
      assert ps[..n + 1] == ps;
      VisitNext(f, ps, n, depth, visited);
      var front := VisitAll(f, ps[..n], depth, visited);
      assert Pids(f.filtered) - front.visited <= Pids(f.filtered) - visited;
      VisitAllClosed(f, ps[..n], depth, visited);
      VisitClosed(f, ps[n], depth, front.visited);
    }
  }

  /** Following the links of processes that are not roots ends: rank decreases towards the parent. */
  ghost predicate Acyclic(f: Forest, rank: int -> nat) {
    forall p | p in f.filtered && !IsRoot(f, p) :: rank(p.parentPid) < rank(p.pid)
  }

  ghost function ParentOf(f: Forest, p: Process): (q: Process)
    requires !IsRoot(f, p)
    ensures q in f.filtered && q.pid == p.parentPid
  {
    var q :| q in f.filtered && q.pid == p.parentPid;
    q
  }

  /** The length of the unbroken chain of parents that pass the filter: it stops at the first one that does not. */
  ghost function PassingChain(f: Forest, rank: int -> nat, p: Process): nat
    requires Acyclic(f, rank) && p in f.filtered
    decreases rank(p.pid)
  {
    if IsRoot(f, p) then 0 else 1 + PassingChain(f, rank, ParentOf(f, p))
  }

  /** No process on that chain is collapsed. */
  ghost predicate OpenChain(f: Forest, rank: int -> nat, p: Process)
    requires Acyclic(f, rank) && p in f.filtered
    decreases rank(p.pid)
  {
    IsRoot(f, p) || (ParentOf(f, p).pid !in f.collapsedPids && OpenChain(f, rank, ParentOf(f, p)))
  }

  lemma {:induction false} ReachedFromRoots(f: Forest, rank: int -> nat, p: Process)
    requires Acyclic(f, rank) && p in f.filtered && OpenChain(f, rank, p)
    ensures p.pid in RootWalk(f).visited
    decreases rank(p.pid)
  {
    VisitAllFresh(f, Roots(f), 0, {});
    if IsRoot(f, p) {
      assert p.pid in Pids(Roots(f));
    } else {
      ReachedFromRoots(f, rank, ParentOf(f, p));
      VisitAllClosed(f, Roots(f), 0, {});
    }
  }

  ghost predicate PositivePids(f: Forest) {
    forall p | p in f.filtered :: p.pid > 0
  }

  /** A pid reached from the roots has its row among theirs. */
  lemma RowOfRootWalk(f: Forest, i: nat)
    requires i < |TreeRows(f)| && TreeRows(f)[i].process.pid in RootWalk(f).visited
    ensures i < |RootWalk(f).rows| && TreeRows(f)[i] == RootWalk(f).rows[i]
  {
    VisitAllFresh(f, Roots(f), 0, {});
    EveryPidOnce(f);
    hide VisitAll, Visit, RowOf, Roots, SweepWalk;
    RowInFront(RootWalk(f).rows, SweepWalk(f).rows, i);
  }

  lemma RowInFront(a: seq<Row>, b: seq<Row>, i: nat)
    requires PidsOnce(a + b) && i < |a + b| && (a + b)[i].process.pid in RowPids(a)
    ensures i < |a|
  {
    var r :| r in a && r.process.pid == (a + b)[i].process.pid;
    var j :| 0 <= j < |a| && a[j] == r;
    assert (a + b)[j] == r;
  }

  lemma RootWalkBase(f: Forest, i: nat)
    requires i < |RootWalk(f).rows| && RootWalk(f).rows[i].depth == 0
    ensures IsRoot(f, RootWalk(f).rows[i].process)
  {
    VisitAllNested(f, Roots(f), 0, {});
    assert RootWalk(f).rows[i] in RootWalk(f).rows;
  }

  /** A process under a parent row is no root. */
  lemma UnderAParent(f: Forest, i: nat)
    requires i < |TreeRows(f)| && PositivePids(f)
    ensures HasParentRow(TreeRows(f), i) ==> !IsRoot(f, TreeRows(f)[i].process)
  {
    EveryPidOnce(f);
    hide TreeRows, RowOf;
    var rows := TreeRows(f);
    if HasParentRow(rows, i) {
      var j :| IsParentRow(rows, j, i);
      assert rows[i] in rows && rows[j] in rows;
      assert rows[j].process.pid in Pids(f.filtered);
    }
  }

  /** With positive pids the rows that the walk from the roots draws at depth zero are exactly those of the
      processes without a parent: none named, themselves named, or none shown with that pid. */
  lemma DrawnAsRootIff(f: Forest, i: nat)
    requires i < |TreeRows(f)| && PositivePids(f)
    ensures var p := TreeRows(f)[i].process;
            i < |RootWalk(f).rows| && TreeRows(f)[i].depth == 0 <==>
            p.parentPid <= 0 || p.parentPid == p.pid || forall q | q in f.filtered :: q.pid != p.parentPid
  {
    var row := TreeRows(f)[i];
    EveryPidOnce(f);
    assert row in TreeRows(f);
    assert IsRoot(f, row.process) <==>
           row.process.parentPid <= 0 || row.process.parentPid == row.process.pid ||
           forall q | q in f.filtered :: q.pid != row.process.parentPid;
    RowsArePreorder(f);
    if IsRoot(f, row.process) {
      VisitAllFresh(f, Roots(f), 0, {});
      assert row.process.pid in Pids(Roots(f));
      RowOfRootWalk(f, i);
      UnderAParent(f, i);
    }
    if i < |RootWalk(f).rows| && row.depth == 0 {
      assert row == RootWalk(f).rows[i];
      RootWalkBase(f, i);
    }
  }

  lemma {:induction false} WalkGrows(f: Forest, ps: seq<Process>, k: nat)
    requires Members(f, ps) && k <= |ps|
    ensures Members(f, ps[..k]) && VisitAll(f, ps[..k], 0, {}).rows <= VisitAll(f, ps, 0, {}).rows
  {
    hide Visit;
    if k < |ps| {
      var n := |ps| - 1;
      assert ps[..n][..k] == ps[..k];
      WalkGrows(f, ps[..n], k);
    } else {
      assert ps[..k] == ps;
    }
  }

  /** The rows drawn from the first k + 1 roots. */
  ghost function FrontRows(f: Forest, k: nat): seq<Row>
    requires k < |Roots(f)|
  {
    VisitAll(f, Roots(f)[..k + 1], 0, {}).rows
  }

  lemma FrontRowsAre(f: Forest, k: nat)
    requires k < |Roots(f)|
    ensures FrontRows(f, k) <= RootWalk(f).rows <= TreeRows(f) && Roots(f)[k].pid in RowPids(FrontRows(f, k))
    ensures forall r | r in FrontRows(f, k) && r.depth == 0 :: r.process in Roots(f)[..k + 1]
  {
    var ps := Roots(f);
    var front := ps[..k + 1];
    WalkGrows(f, ps, k + 1);
    VisitAllFresh(f, front, 0, {});
    VisitAllNested(f, front, 0, {});
    hide VisitAll, RowOf, Roots;
    assert front[k] == ps[k] && ps[k].pid in Pids(front);
  }

  lemma NotBehind(f: Forest, k: nat, q: Process)
    requires StrictWeakOn(f.less, f.filtered) && k < |Roots(f)| && q in Roots(f)[..k + 1]
    ensures !f.less(Roots(f)[k], q)
  {
    RootsSorted(f);
    var ps := Roots(f);
    hide Roots, IsRoot;
    var m :| 0 <= m < k + 1 && ps[..k + 1][m] == q;
    assert ps[k] in ps && ps[k] in f.filtered;
  }

  /** For any pids: a process without a parent, in the sense above, has its row among those of the roots, and no row
      at depth zero above it belongs behind it in the table's order. */
  lemma RootsInTableOrder(f: Forest, i: nat, z: nat)
    requires StrictWeakOn(f.less, f.filtered) && z <= i < |TreeRows(f)| && TreeRows(f)[z].depth == 0
    requires var p := TreeRows(f)[i].process;
             p.parentPid <= 0 || p.parentPid == p.pid || forall q | q in f.filtered :: q.pid != p.parentPid
    ensures i < |RootWalk(f).rows| && !f.less(TreeRows(f)[i].process, TreeRows(f)[z].process)
  {
    var p, ps := TreeRows(f)[i].process, Roots(f);
    EveryPidOnce(f);
    assert TreeRows(f)[i] in TreeRows(f);
    assert IsRoot(f, p) && p in ps;
    hide TreeRows, RootWalk, RowOf, Roots, IsRoot, FrontRows, StrictWeakOn;
    var k :| 0 <= k < |ps| && ps[k] == p;
    FrontRowsAre(f, k);
    var rows := FrontRows(f, k);
    var more := TreeRows(f)[|rows|..];
    assert TreeRows(f) == rows + more;
    RowInFront(rows, more, i);
    assert rows[z] == TreeRows(f)[z] && rows[z] in rows;
    NotBehind(f, k, rows[z].process);
  }

  /** With acyclic links and positive distinct pids, depth is at most the length of that chain, and it is the length
      exactly when nothing on the chain is collapsed. */
  lemma {:induction false} DepthIsPassingChainIff(f: Forest, rank: int -> nat, i: nat)
    requires Acyclic(f, rank) && PositivePids(f) && PidsIdentify(f.filtered)
    requires i < |TreeRows(f)|
    ensures var row := TreeRows(f)[i];
            && row.process in f.filtered
            && row.depth <= PassingChain(f, rank, row.process)
            && (row.depth == PassingChain(f, rank, row.process) <==> OpenChain(f, rank, row.process))
  {
    hide TreeRows, Acyclic, Nested, RootWalk;
    var row := TreeRows(f)[i];
    EveryPidOnce(f);
    assert row in TreeRows(f);
    if row.depth == 0 {
      if OpenChain(f, rank, row.process) {
        ReachedFromRoots(f, rank, row.process);
        RowOfRootWalk(f, i);
        RootWalkBase(f, i);
      }
    } else {
      RowsArePreorder(f);
      var j :| IsParentRow(TreeRows(f), j, i);
      var parent := TreeRows(f)[j];
      assert parent in TreeRows(f);
      assert parent.process.pid in Pids(f.filtered);
      DepthIsPassingChainIff(f, rank, j);
      RowFlags(f, j);
      assert ParentOf(f, row.process) == parent.process;
    }
  }
}
