/** The process table around the tree: filtering, the flat list, paging, selection and search. */
module ProcessView {
  import opened Wrappers
  import opened Arithmetic
  import opened Text
  import opened Snapshots
  import opened Sorting
  import opened ProcessOrder
  import opened ProcessTree
  import opened ProcessTreeFacts

  predicate ProcessMatchesQuery(p: Process, query: string) {
    query == "" ||
    (var needle := Lower(query);
     Contains(Lower(p.user), needle) || Contains(Lower(p.name), needle) || Contains(Lower(p.command), needle))
  }

  /** Equal, or the same ASCII letter in the other case. */
  predicate SameLetter(a: char, b: char) {
    a == b || ('A' <= a <= 'Z' && b as int == a as int + 32) || ('A' <= b <= 'Z' && a as int == b as int + 32)
  }

  /** The query stands in the text at i, but for the case of letters. */
  predicate FindsAt(text: string, query: string, i: nat) {
    i + |query| <= |text| && forall k | 0 <= k < |query| :: SameLetter(text[i + k], query[k])
  }

  lemma ContainsIff(text: string, query: string)
    ensures Contains(Lower(text), Lower(query)) <==> exists i: nat :: FindsAt(text, query, i)
  {
    var t, q := Lower(text), Lower(query);
    forall i: nat | i <= |t|
      ensures q <= t[i..] <==> FindsAt(text, query, i)
    {
      FoundAt(text, query, i);
    }
  }

  lemma FoundAt(text: string, query: string, i: nat)
    requires i <= |text|
    ensures Lower(query) <= Lower(text)[i..] <==> FindsAt(text, query, i)
  {
    var t, q := Lower(text), Lower(query);
    if i + |query| <= |text| {
      assert forall k | 0 <= k < |query| :: t[i..][k] == ToLower(text[i + k]) && q[k] == ToLower(query[k]);
      assert q <= t[i..] <==> forall k | 0 <= k < |q| :: q[k] == t[i..][k];
    }
  }

  /** A process passes the filter exactly when the query stands, in any case, in its user, name or command. */
  lemma MatchesIff(p: Process, query: string)
    ensures ProcessMatchesQuery(p, query) <==>
            exists text, i: nat :: (text == p.user || text == p.name || text == p.command) && FindsAt(text, query, i)
  {
    ContainsIff(p.user, query);
    ContainsIff(p.name, query);
    ContainsIff(p.command, query);
    hide Contains, Lower;
    if query == "" {
      assert FindsAt(p.user, query, 0);
    }
    hide FindsAt;
    forall text, i: nat | (text == p.user || text == p.name || text == p.command) && FindsAt(text, query, i)
      ensures ProcessMatchesQuery(p, query)
    {
    }
  }

  function Filtered(s: seq<Process>, query: string): (r: seq<Process>)
    ensures forall p :: p in r <==> p in s && ProcessMatchesQuery(p, query)
  {
    if s == [] then []
    else
      var front := Filtered(s[..|s| - 1], query);
      if ProcessMatchesQuery(s[|s| - 1], query) then front + [s[|s| - 1]] else front
  }

  function FlatRows(ps: seq<Process>): (rows: seq<Row>)
    ensures |rows| == |ps| && forall i | 0 <= i < |ps| :: rows[i] == Row(ps[i], 0, false, false)
  {
    seq(|ps|, i requires 0 <= i < |ps| => Row(ps[i], 0, false, false))
  }

  /** The rows of the table, as a tree or as a flat sorted list. */
  method BuildProcessRows(strtod: Strtod, processes: seq<Process>, filter: string, mode: SortMode,
                          direction: int, treeMode: bool, collapsedPids: set<int>) returns (rows: seq<Row>)
    ensures var less := Comparator(strtod, mode, direction);
            var filtered := Filtered(processes, filter);
            rows == if treeMode then TreeRows(Forest(filtered, less, collapsedPids))
                    else FlatRows(Sort(less, filtered))
  {
    var filtered: seq<Process> := [];
    var i := 0;
    while i < |processes|
      invariant 0 <= i <= |processes|
      invariant filtered == Filtered(processes[..i], filter)
    {
      assert processes[..i + 1][..i] == processes[..i];
      if ProcessMatchesQuery(processes[i], filter) {
        filtered := filtered + [processes[i]];
      }
      i := i + 1;
    }
    assert processes[..|processes|] == processes;
    var less := Comparator(strtod, mode, direction);
    if !treeMode {
      var sorted := Sort(less, filtered);
      rows := [];
      i := 0;
      while i < |sorted|
        invariant 0 <= i <= |sorted|
        invariant rows == FlatRows(sorted[..i])
      {
        rows := rows + [Row(sorted[i], 0, false, false)];
        assert FlatRows(sorted[..i + 1]) == FlatRows(sorted[..i]) + [Row(sorted[i], 0, false, false)];
        i := i + 1;
      }
      assert sorted[..|sorted|] == sorted;
      return;
    }
    rows := BuildTreeRows(Forest(filtered, less, collapsedPids));
  }

  /** Tree and flat mode show the same processes: the filtered ones, once each. */
  lemma BothModesShowTheSame(strtod: Strtod, filtered: seq<Process>, mode: SortMode, direction: int, collapsed: set<int>)
    requires ProcessTreeFacts.DistinctPids(filtered)
    ensures var less := Comparator(strtod, mode, direction);
            multiset(RowProcesses(TreeRows(Forest(filtered, less, collapsed)))) ==
            multiset(RowProcesses(FlatRows(Sort(less, filtered)))) == multiset(filtered)
  {
    var less := Comparator(strtod, mode, direction);
    EveryProcessOnce(Forest(filtered, less, collapsed));
    SortPermutes(less, filtered);
    assert RowProcesses(FlatRows(Sort(less, filtered))) == Sort(less, filtered);
  }

  lemma {:induction false} FilteredCount(s: seq<Process>, query: string, p: Process)
    ensures multiset(Filtered(s, query))[p] == if ProcessMatchesQuery(p, query) then multiset(s)[p] else 0
  {
    hide ProcessMatchesQuery;
    if s != [] {
      var front, last := s[..|s| - 1], s[|s| - 1];
      assert s == front + [last];
      FilteredCount(front, query, p);
    }
  }

  lemma FilteredIgnoresOrder(a: seq<Process>, b: seq<Process>, query: string)
    requires multiset(a) == multiset(b)
    ensures multiset(Filtered(a, query)) == multiset(Filtered(b, query))
  {
    hide ProcessMatchesQuery, Filtered;
    forall p
      ensures multiset(Filtered(a, query))[p] == multiset(Filtered(b, query))[p]
    {
      FilteredCount(a, query, p);
      FilteredCount(b, query, p);
    }
  }

  /** The flat table does not depend on the order in which the processes were sampled. */
  lemma FlatTableIgnoresSampleOrder(strtod: Strtod, a: seq<Process>, b: seq<Process>, query: string,
                                    mode: SortMode, direction: int)
    requires multiset(a) == multiset(b) && PidsIdentify(a) && AllComparable(a, mode)
    ensures var less := Comparator(strtod, mode, direction);
            FlatRows(Sort(less, Filtered(a, query))) == FlatRows(Sort(less, Filtered(b, query)))
  {
    hide ProcessMatchesQuery, Comparator, Sort, Comparable;
    FilteredIgnoresOrder(a, b, query);
    OrderOfSamplesIrrelevant(strtod, Filtered(a, query), Filtered(b, query), mode, direction);
  }

  /** In the tree, too, siblings stand in the order of the chosen sort mode, and so do the rows at depth zero
      that the walk from the roots drew. */
  lemma TreeSiblingsInSortOrder(strtod: Strtod, filtered: seq<Process>, mode: SortMode, direction: int,
                                collapsed: set<int>, i: int, k: int)
    requires PidsIdentify(filtered) && AllComparable(filtered, mode)
    requires 0 <= i < k < |TreeRows(Forest(filtered, Comparator(strtod, mode, direction), collapsed))|
    requires var rows := TreeRows(Forest(filtered, Comparator(strtod, mode, direction), collapsed));
             if rows[i].depth > 0 then Siblings(rows, i, k)
             else k < |RootWalk(Forest(filtered, Comparator(strtod, mode, direction), collapsed)).rows| &&
                  rows[k].depth == 0
    ensures var rows := TreeRows(Forest(filtered, Comparator(strtod, mode, direction), collapsed));
            ProcessSortLess(strtod, rows[i].process, rows[k].process, mode, direction)
  {
    hide ProcessSortLess, RowOf, Comparable, RootWalk, SweepWalk;
    var less := Comparator(strtod, mode, direction);
    var f := Forest(filtered, less, collapsed);
    assert forall m | 0 <= m < |RootWalk(f).rows| :: TreeRows(f)[m] == RootWalk(f).rows[m];
    TotalOrderIff(strtod, filtered, mode, direction);
    TotalIsWeak(less, filtered);
    SiblingsInTableOrder(f);
    EveryPidOnce(f);
    var rows := TreeRows(f);
    assert rows[i] in rows && rows[k] in rows;
    assert rows[i].process.pid != rows[k].process.pid;
    assert less(rows[i].process, rows[k].process);
  }

  // ----- selection -----

  /** The first row of a pid, or -1. */
  function RowIndex(rows: seq<Row>, pid: int): (i: int)
    ensures -1 <= i < |rows|
    ensures i >= 0 ==> rows[i].process.pid == pid && forall k | 0 <= k < i :: rows[k].process.pid != pid
    ensures i == -1 ==> forall k | 0 <= k < |rows| :: rows[k].process.pid != pid
  {
    if rows == [] then -1
    else if rows[0].process.pid == pid then 0
    else
      var i := RowIndex(rows[1..], pid);
      if i < 0 then -1 else i + 1
  }

  function SelectedIndex(rows: seq<Row>, selected: Option<int>): int {
    if selected.None? then -1 else RowIndex(rows, selected.value)
  }

  datatype Metrics = Metrics(pageRows: nat, rowCount: nat, pageCount: nat, selectedIndex: int)

  /** How many rows after `current` row k comes in a cyclic search; the current row itself comes last. */
  function CyclicDistance(n: nat, current: int, k: nat): (d: nat)
    requires -1 <= current < n && k < n
    ensures d < n
  {
    (k - current - 1 + n) % n
  }

  class UiState {
    var tablePage: int
    var selectedPid: Option<int>
    var search: string
    var searchPending: bool
    var statusMessage: string

    constructor ()
      ensures tablePage == 0 && selectedPid == None && search == "" && !searchPending && statusMessage == ""
    {
      tablePage, selectedPid := 0, None;
      search, searchPending, statusMessage := "", false, "";
    }

    method SelectedProcessIndex(rows: seq<Row>) returns (index: int)
      ensures index == SelectedIndex(rows, selectedPid)
    {
      if selectedPid.None? {
        return -1;
      }
      var i := 0;
      while i < |rows|
        invariant 0 <= i <= |rows|
        invariant forall k | 0 <= k < i :: rows[k].process.pid != selectedPid.value
      {
        if rows[i].process.pid == selectedPid.value {
          return i;
        }
        i := i + 1;
      }
      return -1;
    }

    /** The page is in range and shows the selected row; it only moves when it has to. */
    method CalculateProcessMetrics(rows: seq<Row>, windowHeight: int) returns (m: Metrics)
      modifies this`tablePage, this`selectedPid
      ensures m.pageRows == Max(1, windowHeight - 3) && m.rowCount == |rows| && m.pageCount >= 1
      ensures 0 <= tablePage < m.pageCount
      ensures rows == [] ==> selectedPid == None && m.selectedIndex == -1 && m.pageCount == 1
      ensures rows != [] ==> selectedPid == old(selectedPid) && m.selectedIndex == SelectedIndex(rows, selectedPid)
      ensures rows != [] ==> (m.pageCount - 1) * m.pageRows < |rows| <= m.pageCount * m.pageRows
      ensures m.selectedIndex >= 0 ==> tablePage * m.pageRows <= m.selectedIndex < (tablePage + 1) * m.pageRows
      ensures rows != [] ==>
                var kept := Clamp(old(tablePage), 0, m.pageCount - 1);
                m.selectedIndex < 0 || kept * m.pageRows <= m.selectedIndex < (kept + 1) * m.pageRows
                ==> tablePage == kept
    {
      var pageRows := Max(1, windowHeight - 3);
      if rows == [] {
        tablePage := 0;
        selectedPid := None;
        return Metrics(pageRows, 0, 1, -1);
      }
      var selectedIndex := SelectedProcessIndex(rows);
      var pageCount := Max(1, (|rows| + pageRows - 1) / pageRows);
      PageCount(|rows|, pageRows);
      tablePage := Clamp(tablePage, 0, pageCount - 1);
      if selectedIndex >= 0 &&
         (selectedIndex < tablePage * pageRows || selectedIndex >= (tablePage + 1) * pageRows) {
        PageOf(selectedIndex, |rows|, pageRows);
        tablePage := selectedIndex / pageRows;
      }
      m := Metrics(pageRows, |rows|, pageCount, selectedIndex);
    }

    /** The search looks at every row once, starting after the current row, and takes the first match. */
    method ApplySearchRequest(rows: seq<Row>)
      modifies this`searchPending, this`selectedPid, this`statusMessage
      ensures !searchPending
      ensures !old(searchPending) || search == "" || rows == [] ==>
                selectedPid == old(selectedPid) && statusMessage == old(statusMessage)
      ensures old(searchPending) && search != "" &&
              (forall k | 0 <= k < |rows| :: !ProcessMatchesQuery(rows[k].process, search)) ==>
                selectedPid == old(selectedPid) &&
                (rows != [] ==> statusMessage == "No search match: " + search)
      ensures old(searchPending) && search != "" &&
              (exists k | 0 <= k < |rows| :: ProcessMatchesQuery(rows[k].process, search)) ==>
                exists k | 0 <= k < |rows| ::
                  IsNextMatch(rows, SelectedIndex(rows, old(selectedPid)), search, k) &&
                  selectedPid == Some(rows[k].process.pid) && statusMessage == old(statusMessage)
    {
      if !searchPending {
        return;
      }
      searchPending := false;
      if search == "" || rows == [] {
        return;
      }
      var current := SelectedProcessIndex(rows);
      var n := |rows|;
      var offset := 1;
      while offset <= n
        invariant 1 <= offset <= n + 1
        invariant forall k | 0 <= k < n && CyclicDistance(n, current, k) < offset - 1 ::
                    !ProcessMatchesQuery(rows[k].process, search)
        invariant !searchPending && selectedPid == old(selectedPid) && statusMessage == old(statusMessage)
      {
        var index := (current + offset + n) % n;
        ProbeDistance(n, current, offset, index);
        if ProcessMatchesQuery(rows[index].process, search) {
          selectedPid := Some(rows[index].process.pid);
          assert IsNextMatch(rows, current, search, index);
          return;
        }
        forall k | 0 <= k < n && CyclicDistance(n, current, k) == offset - 1
          ensures k == index
        {
          SameDistance(n, current, k, index);
        }
        offset := offset + 1;
      }
      assert forall k | 0 <= k < n :: CyclicDistance(n, current, k) < n;
      statusMessage := "No search match: " + search;
    }
  }

  /** Row k matches, and no match is closer in cyclic order after the current row. */
  ghost predicate IsNextMatch(rows: seq<Row>, current: int, query: string, k: nat)
    requires -1 <= current < |rows| && k < |rows|
  {
    && ProcessMatchesQuery(rows[k].process, query)
    && forall j | 0 <= j < |rows| && ProcessMatchesQuery(rows[j].process, query) ::
         CyclicDistance(|rows|, current, k) <= CyclicDistance(|rows|, current, j)
  }

  lemma PageCount(count: nat, pageRows: nat)
    requires count > 0 && pageRows > 0
    ensures var pages := (count + pageRows - 1) / pageRows;
            pages >= 1 && (pages - 1) * pageRows < count <= pages * pageRows
  {
    var pages := (count + pageRows - 1) / pageRows;
    assert pages * pageRows + (count + pageRows - 1) % pageRows == count + pageRows - 1;
  }

  lemma PageOf(index: nat, count: nat, pageRows: nat)
    requires index < count && pageRows > 0
    ensures var page := index / pageRows;
            0 <= page < (count + pageRows - 1) / pageRows && page * pageRows <= index < (page + 1) * pageRows
  {
    var page := index / pageRows;
    assert page * pageRows + index % pageRows == index;
    PageCount(count, pageRows);
    var pages := (count + pageRows - 1) / pageRows;
    MulOrder(pages, page, pageRows);
  }

  /** The probe at a given offset is the row at distance offset - 1. */
  lemma ProbeDistance(n: nat, current: int, offset: nat, index: int)
    requires n > 0 && -1 <= current < n && 1 <= offset <= n && index == (current + offset + n) % n
    ensures 0 <= index < n && CyclicDistance(n, current, index) == offset - 1
  {
    var x := current + offset;
    if x < n {
      DivModIs(x + n, n, 1, x);
    } else {
      DivModIs(x + n, n, 2, x - n);
    }
    DistanceIs(n, current, index);
  }

  /** Different rows have different distances, so no row is probed twice. */
  lemma SameDistance(n: nat, current: int, j: nat, k: nat)
    requires -1 <= current < n && j < n && k < n
    requires CyclicDistance(n, current, j) == CyclicDistance(n, current, k)
    ensures j == k
  {
    DistanceIs(n, current, j);
    DistanceIs(n, current, k);
  }

  lemma DistanceIs(n: nat, current: int, k: nat)
    requires -1 <= current < n && k < n
    ensures CyclicDistance(n, current, k) == if k > current then k - current - 1 else k - current - 1 + n
  {
    var d := k - current - 1;
    if k > current {
      DivModIs(d + n, n, 1, d);
    } else {
      DivModIs(d + n, n, 0, d + n);
    }
  }
}
