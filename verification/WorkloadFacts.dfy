/** What grouping keeps: partition, conservation, kinds, representatives and keys. */
module WorkloadFacts {
  import opened Wrappers
  import opened Text
  import opened Numbers
  import opened FiniteSets
  import opened Snapshots
  import opened Sorting
  import opened WorkloadDetector
  import opened WorkloadModel

  // ----- the key string is injective -----

  lemma ColonSplits(a: string, b: string, c: string, d: string)
    requires ':' !in a && ':' !in c && a + (":" + b) == c + (":" + d)
    ensures a == c && b == d
  {
    var s := a + (":" + b);
    assert s[|a|] == ':' && s[|c|] == ':';
    assert forall i | 0 <= i < |a| :: s[i] == a[i];
    assert forall i | 0 <= i < |c| :: s[i] == c[i];
    assert |a| == |c|;
    assert a == s[..|a|] == c;
    assert b == s[|a| + 1..] == d;
  }

  lemma KindNamesDiffer(k: WorkloadKind, l: WorkloadKind)
    requires KindName(k) == KindName(l)
    ensures k == l
  {
    KindInitials(k);
    KindInitials(l);
    hide KindName;
  }

  /** Kind names hold no colon; their first letter and length tell them apart. */
  lemma KindInitials(k: WorkloadKind)
    ensures ':' !in KindName(k) && KindName(k) != ""
    ensures (KindName(k)[0], |KindName(k)|) ==
            match k
            case Ollama => ('o', 6)
            case LlamaCpp => ('l', 9)
            case Mlx => ('m', 3)
            case PythonInference => ('p', 16)
            case LmStudio => ('l', 9)
            case ComfyUi => ('c', 7)
            case GenericModel => ('g', 13)
            case UnknownKind => ('u', 7)
    ensures k == LlamaCpp ==> KindName(k)[1] == 'l'
    ensures k == LmStudio ==> KindName(k)[1] == 'm'
  {
  }

  lemma TagNamesDiffer(t: Tag, u: Tag)
    ensures ':' !in TagName(t)
    ensures TagName(t) == TagName(u) ==> t == u
  {
    assert TagName(t)[1] == match t case ManagerTag => 'a' case ParentTag => 'a' case ModelTag => 'o' case PidTag => 'i';
    assert TagName(u)[1] == match u case ManagerTag => 'a' case ParentTag => 'a' case ModelTag => 'o' case PidTag => 'i';
    assert TagName(ManagerTag)[0] == 'm' && TagName(ParentTag)[0] == 'p';
  }

  /** The key string determines kind, tag and payload, even when a model hint contains colons. */
  lemma KeyTextInjective(a: Key, b: Key)
    requires KeyText(a) == KeyText(b)
    ensures a == b
  {
    KindInitials(a.kind);
    KindInitials(b.kind);
    TagNamesDiffer(a.tag, b.tag);
    TagNamesDiffer(b.tag, a.tag);
    ColonSplits(KindName(a.kind), TagName(a.tag) + (":" + a.payload),
                KindName(b.kind), TagName(b.tag) + (":" + b.payload));
    ColonSplits(TagName(a.tag), a.payload, TagName(b.tag), b.payload);
    KindNamesDiffer(a.kind, b.kind);
  }

  /** Hence items of one group share their kind. */
  lemma SameKeySameKind(x: Detected, y: Detected, byPid: map<int, Detected>)
    requires GroupingKey(x, byPid) == GroupingKey(y, byPid)
    ensures x.detection.kind == y.detection.kind
  {
    hide KeyText;
    KeyTextInjective(KeyOf(x, byPid), KeyOf(y, byPid));
  }

  // ----- Ollama runners and their manager -----

  ghost predicate DistinctItemPids(items: seq<Detected>) {
    forall x, y | x in items && y in items && x.process.pid == y.process.pid :: x == y
  }

  /** A non-manager Ollama process shares a workload with its parent manager exactly when the manager's own
      parent is not a detected Ollama manager with a smaller pid. */
  lemma RunnerJoinsManager(items: seq<Detected>, runner: Detected, manager: Detected)
    requires DistinctItemPids(items) && runner in items && manager in items
    requires runner.detection.kind == Ollama && !IsOllamaManager(runner) && IsOllamaManager(manager)
    requires runner.process.parentPid == manager.process.pid
    ensures var byPid := ByPid(items);
            GroupingKey(runner, byPid) == GroupingKey(manager, byPid) <==>
            !exists g | g in items :: IsOllamaManager(g) && g.process.pid == manager.process.parentPid &&
                                       g.process.pid < manager.process.pid
  {
    hide KeyText, ByPid, DecimalInt;
    var byPid := ByPid(items);
    var pid, grandPid := manager.process.pid, manager.process.parentPid;
    assert byPid[pid] == manager && byPid[runner.process.pid] == runner;
    assert ManagerPids(runner, byPid) == {pid};
    var ms := ManagerPids(manager, byPid);
    assert pid in ms;
    assert forall x | x in ms :: x == pid || x == grandPid;
    assert grandPid in ms <==> grandPid == pid || (grandPid in byPid && IsOllamaManager(byPid[grandPid]));
    assert KeyOf(runner, byPid) == WorkloadModel.Key(Ollama, ManagerTag, DecimalInt(pid));
    assert KeyOf(manager, byPid) == WorkloadModel.Key(Ollama, ManagerTag, DecimalInt(Least(ms)));
    if Least(ms) != pid && GroupingKey(runner, byPid) == GroupingKey(manager, byPid) {
      KeyTextInjective(KeyOf(runner, byPid), KeyOf(manager, byPid));
      DecimalIntInjective(Least(ms), pid);
    }
  }

  // ----- representatives -----

  /** Within a kind the role rules never disagree with the confidences. */
  lemma BetterIsMoreConfident(c: Detected, d: Detected)
    requires Producible(c.detection) && Producible(d.detection) && c.detection.kind == d.detection.kind
    ensures BetterRepresentative(c, Some(d)) <==> c.detection.confidence > d.detection.confidence
  {
  }

  ghost predicate OfOneKind(members: seq<Detected>) {
    forall x, y | x in members && y in members ::
      Producible(x.detection) && x.detection.kind == y.detection.kind
  }

  /** The first member with the highest confidence. */
  ghost predicate IsFirstBest(members: seq<Detected>, i: int) {
    && 0 <= i < |members|
    && (forall j | 0 <= j < |members| :: members[j].detection.confidence <= members[i].detection.confidence)
    && (forall j | 0 <= j < i :: members[j].detection.confidence < members[i].detection.confidence)
  }

  ghost predicate SomeHint(members: seq<Detected>) {
    exists i | 0 <= i < |members| :: members[i].detection.modelHint != ""
  }

  lemma SomeHintAppend(members: seq<Detected>, item: Detected)
    ensures SomeHint(members + [item]) <==> SomeHint(members) || item.detection.modelHint != ""
  {
    var all := members + [item];
    assert all[|members|] == item;
    if SomeHint(members) {
      var i :| 0 <= i < |members| && members[i].detection.modelHint != "";
      assert all[i].detection.modelHint != "";
    }
    if SomeHint(all) && item.detection.modelHint == "" {
      var i :| 0 <= i < |all| && all[i].detection.modelHint != "";
      assert members[i].detection.modelHint != "";
    }
  }

  lemma FirstBestAppend(members: seq<Detected>, item: Detected, i: int)
    requires IsFirstBest(members, i)
    ensures item.detection.confidence > members[i].detection.confidence ==>
              IsFirstBest(members + [item], |members|)
    ensures item.detection.confidence <= members[i].detection.confidence ==>
              IsFirstBest(members + [item], i)
  {
  }

  /** What the accumulation knows about its representative, name and hint. */
  ghost predicate Represented(g: Group, members: seq<Detected>) {
    && g.representative.Some?
    && (exists i :: IsFirstBest(members, i) && g.representative.value == members[i])
    && g.workload.name == (if g.representative.value.detection.title == "" then g.representative.value.process.name
                           else g.representative.value.detection.title)
    && (g.representative.value.detection.modelHint != "" ==>
          g.workload.modelHint == g.representative.value.detection.modelHint)
    && (g.workload.modelHint != "" <==> SomeHint(members))
    && g.workload.kind == members[0].detection.kind
    && |g.workload.processes| == |members|
  }

  lemma FirstMember(item: Detected)
    ensures Represented(GroupOf([item]), [item])
  {
    hide Contains, FirstAvailableSignal;
    FirstOfGroup(item);
    assert [item][..0] == [];
    assert IsFirstBest([item], 0);
    SomeHintAppend([], item);
    assert [] + [item] == [item];
    AccountKeepsTexts(Describe(EMPTY_WORKLOAD, item), item);
  }

  lemma NextMember(g: Group, front: seq<Detected>, item: Detected)
    requires front != [] && OfOneKind(front + [item]) && Represented(g, front)
    ensures Represented(AddMember(g, item), front + [item])
  {
    hide Producible, BetterRepresentative, Contains, FirstAvailableSignal, Account, SomeHint;
    SomeHintAppend(front, item);
    var w := Describe(g.workload, item);
    AccountKeepsTexts(w, item);
    var i :| IsFirstBest(front, i) && g.representative.value == front[i];
    IndexOfBest(front, i);
    FirstBestAppend(front, item, i);
    assert front[i] in front + [item] && item in front + [item];
    BetterIsMoreConfident(item, front[i]);
    assert (front + [item])[|front|] == item && (front + [item])[i] == front[i];
  }

  lemma IndexOfBest(members: seq<Detected>, i: int)
    requires IsFirstBest(members, i)
    ensures 0 <= i < |members|
  {
  }

  /** A workload is named by its first member with the highest confidence; its hint is that member's when there
      is one, and there is a hint exactly when some member has one. */
  lemma {:induction false} RepresentativeIsFirstBest(members: seq<Detected>)
    requires members != [] && OfOneKind(members)
    ensures Represented(GroupOf(members), members)
  {
    hide Represented, Producible, AddMember;
    var front, item := members[..|members| - 1], members[|members| - 1];
    assert members == front + [item];
    if front == [] {
      FirstMember(item);
      assert members == [item];
    } else {
      RepresentativeIsFirstBest(front);
      NextMember(GroupOf(front), front, item);
    }
  }

  lemma AccountKeepsTexts(w: Workload, item: Detected)
    ensures var v := Account(w, item);
            v.kind == w.kind && v.name == w.name && v.modelHint == w.modelHint &&
            v.processes == w.processes + [RefOf(item)]
  {
  }

  lemma FirstOfGroup(item: Detected)
    ensures GroupOf([]) == EMPTY_GROUP && BetterRepresentative(item, None)
  {
  }

  // ----- totals -----

  /** What is conserved: the members, the byte sums and whether the GPU is in use. */
  datatype Totals = Totals(refs: multiset<ProcessRef>, resident: U64, virt: U64, gpu: bool)

  const NOTHING := Totals(multiset{}, 0, 0, false)

  function Plus(a: Totals, b: Totals): Totals {
    Totals(a.refs + b.refs, Add64(a.resident, b.resident), Add64(a.virt, b.virt), a.gpu || b.gpu)
  }

  function TotalsOfItem(item: Detected): Totals {
    Totals(multiset{RefOf(item)}, item.process.residentBytes, item.process.virtualBytes, item.process.gpuActive)
  }

  function TotalsOfWorkload(w: Workload): Totals {
    Totals(multiset(w.processes), w.residentBytes, w.virtualBytes, w.gpuActive)
  }

  function ItemTotals(items: seq<Detected>): Totals {
    if items == [] then NOTHING else Plus(ItemTotals(items[..|items| - 1]), TotalsOfItem(items[|items| - 1]))
  }

  function WorkloadTotals(ws: seq<Workload>): Totals {
    if ws == [] then NOTHING else Plus(TotalsOfWorkload(ws[0]), WorkloadTotals(ws[1..]))
  }

  lemma Add64Is(a: U64, b: U64)
    ensures Add64(a, b) == if a + b < TWO_TO_THE_64 then a + b else a + b - TWO_TO_THE_64
  {
  }

  lemma Add64Laws(a: U64, b: U64, c: U64)
    ensures Add64(a, b) == Add64(b, a)
    ensures Add64(Add64(a, b), c) == Add64(a, Add64(b, c))
    ensures Add64(a, 0) == a
  {
    hide Add64;
    Add64Is(a, b);
    Add64Is(b, a);
    Add64Is(b, c);
    Add64Is(Add64(a, b), c);
    Add64Is(a, Add64(b, c));
    Add64Is(a, 0);
  }

  lemma PlusLaws(a: Totals, b: Totals, c: Totals)
    ensures Plus(a, b) == Plus(b, a)
    ensures Plus(Plus(a, b), c) == Plus(a, Plus(b, c))
    ensures Plus(a, NOTHING) == a && Plus(NOTHING, a) == a
  {
    Add64Laws(a.resident, b.resident, c.resident);
    Add64Laws(a.virt, b.virt, c.virt);
    Add64Laws(a.resident, 0, 0);
    Add64Laws(a.virt, 0, 0);
    Add64Laws(0, a.resident, 0);
    Add64Laws(0, a.virt, 0);
    hide Add64;
    assert (a.refs + b.refs) + c.refs == a.refs + (b.refs + c.refs);
    assert a.refs + multiset{} == a.refs && multiset{} + a.refs == a.refs;
  }

  /** A group's workload carries exactly the totals of its members. */
  lemma {:induction false} GroupConserves(members: seq<Detected>)
    ensures TotalsOfWorkload(GroupOf(members).workload) == ItemTotals(members)
  {
    if members != [] {
      var front, item := members[..|members| - 1], members[|members| - 1];
      GroupConserves(front);
      StepConserves(GroupOf(front), item);
    }
  }

  lemma StepConserves(g: Group, item: Detected)
    ensures TotalsOfWorkload(AddMember(g, item).workload) == Plus(TotalsOfWorkload(g.workload), TotalsOfItem(item))
  {
    hide Contains, FirstAvailableSignal, BetterRepresentative, TitleOf, Add64, DoubleAdd;
    assert multiset(g.workload.processes + [RefOf(item)]) ==
           multiset(g.workload.processes) + multiset{RefOf(item)};
  }

  lemma FinishConserves(w: Workload)
    ensures TotalsOfWorkload(Finish(w)) == TotalsOfWorkload(w)
  {
    SortPermutes(RefLess, w.processes);
    hide MakeId, Sort;
  }

  /** The totals of the groups of some keys. */
  function KeyTotals(items: seq<Detected>, byPid: map<int, Detected>, keys: seq<string>): Totals {
    if keys == [] then NOTHING
    else Plus(ItemTotals(MembersOf(items, byPid, keys[0])), KeyTotals(items, byPid, keys[1..]))
  }

  lemma {:induction false} OtherKeysUnchanged(items: seq<Detected>, item: Detected, byPid: map<int, Detected>, keys: seq<string>)
    requires GroupingKey(item, byPid) !in keys
    ensures KeyTotals(items + [item], byPid, keys) == KeyTotals(items, byPid, keys)
  {
    hide GroupingKey, MembersOf, Plus, ItemTotals;
    if keys != [] {
      MembersAppend(items, item, byPid, keys[0]);
      assert MembersOf(items, byPid, keys[0]) + [] == MembersOf(items, byPid, keys[0]);
      OtherKeysUnchanged(items, item, byPid, keys[1..]);
    }
  }

  lemma ItemTotalsAppend(members: seq<Detected>, item: Detected)
    ensures ItemTotals(members + [item]) == Plus(ItemTotals(members), TotalsOfItem(item))
  {
    assert (members + [item])[..|members|] == members;
  }

  /** A further item adds its totals to exactly one key. */
  lemma {:induction false} OneKeyGrows(items: seq<Detected>, item: Detected, byPid: map<int, Detected>, keys: seq<string>)
    requires Distinct(keys) && GroupingKey(item, byPid) in keys
    ensures KeyTotals(items + [item], byPid, keys) == Plus(KeyTotals(items, byPid, keys), TotalsOfItem(item))
  {
    hide GroupingKey, MembersOf, Plus, ItemTotals, TotalsOfItem;
    var key := keys[0];
    var members, rest := MembersOf(items, byPid, key), KeyTotals(items, byPid, keys[1..]);
    var t := TotalsOfItem(item);
    MembersAppend(items, item, byPid, key);
    if GroupingKey(item, byPid) == key {
      OtherKeysUnchanged(items, item, byPid, keys[1..]);
      ItemTotalsAppend(members, item);
      PlusLaws(ItemTotals(members), t, rest);
      PlusLaws(ItemTotals(members), rest, t);
      PlusLaws(t, rest, NOTHING);
    } else {
      assert members + [] == members;
      OneKeyGrows(items, item, byPid, keys[1..]);
      PlusLaws(ItemTotals(members), rest, t);
    }
  }

  lemma {:induction false} NoItemsNoTotals(byPid: map<int, Detected>, keys: seq<string>)
    ensures KeyTotals([], byPid, keys) == NOTHING
  {
    if keys != [] {
      NoItemsNoTotals(byPid, keys[1..]);
      PlusLaws(NOTHING, NOTHING, NOTHING);
    }
  }

  /** Together the groups carry the totals of all items. */
  lemma {:induction false} KeysConserve(items: seq<Detected>, byPid: map<int, Detected>, keys: seq<string>)
    requires Distinct(keys) && forall item | item in items :: GroupingKey(item, byPid) in keys
    ensures KeyTotals(items, byPid, keys) == ItemTotals(items)
  {
    hide GroupingKey, MembersOf, Plus;
    if items == [] {
      NoItemsNoTotals(byPid, keys);
    } else {
      var front, item := items[..|items| - 1], items[|items| - 1];
      assert items == front + [item];
      KeysConserve(front, byPid, keys);
      OneKeyGrows(front, item, byPid, keys);
    }
  }

  lemma {:induction false} WorkloadTotalsAppend(ws: seq<Workload>, w: Workload)
    ensures WorkloadTotals(ws + [w]) == Plus(WorkloadTotals(ws), TotalsOfWorkload(w))
  {
    hide Plus, TotalsOfWorkload;
    if ws == [] {
      assert ws + [w] == [w] && [w][1..] == [];
      PlusLaws(TotalsOfWorkload(w), NOTHING, NOTHING);
    } else {
      assert (ws + [w])[1..] == ws[1..] + [w];
      WorkloadTotalsAppend(ws[1..], w);
      PlusLaws(TotalsOfWorkload(ws[0]), WorkloadTotals(ws[1..]), TotalsOfWorkload(w));
    }
  }

  lemma {:induction false} KeyTotalsAppend(items: seq<Detected>, byPid: map<int, Detected>, keys: seq<string>, key: string)
    ensures KeyTotals(items, byPid, keys + [key]) ==
            Plus(KeyTotals(items, byPid, keys), ItemTotals(MembersOf(items, byPid, key)))
  {
    hide Plus, MembersOf, ItemTotals;
    var t := ItemTotals(MembersOf(items, byPid, key));
    if keys == [] {
      assert keys + [key] == [key] && [key][1..] == [];
      PlusLaws(t, NOTHING, NOTHING);
    } else {
      assert (keys + [key])[1..] == keys[1..] + [key];
      KeyTotalsAppend(items, byPid, keys[1..], key);
      PlusLaws(ItemTotals(MembersOf(items, byPid, keys[0])), KeyTotals(items, byPid, keys[1..]), t);
    }
  }

  lemma {:induction false} FinishedConserve(items: seq<Detected>, byPid: map<int, Detected>, keys: seq<string>)
    ensures WorkloadTotals(FinishedOf(items, byPid, keys)) == KeyTotals(items, byPid, keys)
  {
    hide Plus, MembersOf, ItemTotals, GroupOf, Finish, TotalsOfWorkload;
    if keys != [] {
      var front, key := keys[..|keys| - 1], keys[|keys| - 1];
      var members := MembersOf(items, byPid, key);
      assert keys == front + [key];
      FinishedConserve(items, byPid, front);
      GroupConserves(members);
      FinishConserves(GroupOf(members).workload);
      FinishedAppend(items, byPid, front, key);
      WorkloadTotalsAppend(FinishedOf(items, byPid, front), Finish(GroupOf(members).workload));
      KeyTotalsAppend(items, byPid, front, key);
    }
  }

  lemma {:induction false} TotalsWithout(ws: seq<Workload>, i: nat)
    requires i < |ws|
    ensures WorkloadTotals(ws) == Plus(TotalsOfWorkload(ws[i]), WorkloadTotals(ws[..i] + ws[i + 1..]))
  {
    hide Plus, TotalsOfWorkload;
    if i == 0 {
      assert ws[..0] + ws[1..] == ws[1..];
    } else {
      var rest := ws[1..];
      TotalsWithout(rest, i - 1);
      assert (ws[..i] + ws[i + 1..])[1..] == rest[..i - 1] + rest[i..];
      assert (ws[..i] + ws[i + 1..])[0] == ws[0] && rest[i - 1] == ws[i];
      var a, b, c := TotalsOfWorkload(ws[0]), TotalsOfWorkload(ws[i]), WorkloadTotals(rest[..i - 1] + rest[i..]);
      PlusLaws(a, b, c);
      PlusLaws(b, a, c);
    }
  }

  /** The order of the workloads does not matter for their totals. */
  lemma {:induction false} TotalsIgnoreOrder(a: seq<Workload>, b: seq<Workload>)
    requires multiset(a) == multiset(b)
    ensures WorkloadTotals(a) == WorkloadTotals(b)
  {
    hide Plus, TotalsOfWorkload;
    SameElements(a, b);
    if a != [] {
      assert a[0] in a;
      assert a[0] in b;
      var j :| 0 <= j < |b| && b[j] == a[0];
      TotalsWithout(b, j);
      RemoveMatching(a, b, j);
      TotalsIgnoreOrder(a[1..], b[..j] + b[j + 1..]);
    }
  }

  /** Main result: over all workloads together, every detected process is a member exactly as often as it was
      detected and nothing else is; resident and virtual bytes add up modulo 2^64; the GPU is in use iff a member uses it. */
  lemma GroupingConserves(workloads: seq<Workload>, items: seq<Detected>)
    requires IsWorkloadList(workloads, items, ByPid(items))
    ensures WorkloadTotals(workloads) == ItemTotals(items)
  {
    hide Plus, TotalsOfWorkload, MembersOf, GroupingKey, GroupOf, Finish, ItemTotals, WorkloadLess, FinishedOf;
    var byPid := ByPid(items);
    var keys :|
      && Distinct(keys)
      && (forall item | item in items :: GroupingKey(item, byPid) in keys)
      && (forall key | key in keys :: MembersOf(items, byPid, key) != [])
      && multiset(workloads) == multiset(FinishedOf(items, byPid, keys));
    TotalsIgnoreOrder(workloads, FinishedOf(items, byPid, keys));
    FinishedConserve(items, byPid, keys);
    KeysConserve(items, byPid, keys);
  }

  lemma {:induction false} RefsComeFromItems(items: seq<Detected>, r: ProcessRef)
    requires r in ItemTotals(items).refs
    ensures exists x | x in items :: RefOf(x) == r
  {
    hide Add64;
    var front, last := items[..|items| - 1], items[|items| - 1];
    assert items == front + [last];
    if r == RefOf(last) {
      assert last in items;
    } else {
      RefsComeFromItems(front, r);
      var x :| x in front && RefOf(x) == r;
      assert x in items;
    }
  }

  lemma LastIsNew(front: seq<Detected>, last: Detected)
    requires forall x | x in front :: x.process.pid != last.process.pid
    ensures RefOf(last) !in ItemTotals(front).refs
  {
    hide ItemTotals;
    forall r | r in ItemTotals(front).refs
      ensures r.pid != last.process.pid
    {
      RefsComeFromItems(front, r);
    }
  }

  ghost predicate EachPidOnce(items: seq<Detected>) {
    forall i, j | 0 <= i < j < |items| :: items[i].process.pid != items[j].process.pid
  }

  /** With distinct pids every detected process counts exactly once among the members of all workloads. */
  lemma {:induction false} EachItemOnce(items: seq<Detected>, item: Detected)
    requires item in items && EachPidOnce(items)
    ensures ItemTotals(items).refs[RefOf(item)] == 1
  {
    var front, last := items[..|items| - 1], items[|items| - 1];
    assert items == front + [last];
    FrontPids(items);
    LastIsNew(front, last);
    if item in front {
      EachItemOnce(front, item);
    }
    hide Add64, EachPidOnce;
    assert ItemTotals(items).refs == ItemTotals(front).refs + multiset{RefOf(last)};
  }

  lemma FrontPids(items: seq<Detected>)
    requires items != [] && EachPidOnce(items)
    ensures EachPidOnce(items[..|items| - 1])
    ensures forall x | x in items[..|items| - 1] :: x.process.pid != items[|items| - 1].process.pid
  {
  }

  ghost predicate DistinctPids(processes: seq<Process>) {
    forall i, j | 0 <= i < j < |processes| :: processes[i].pid != processes[j].pid
  }

  lemma NoItems()
    ensures EachPidOnce([])
  {
  }

  lemma {:induction false} DetectAllDistinct(processes: seq<Process>)
    requires DistinctPids(processes)
    ensures EachPidOnce(DetectAll(processes))
  {
    hide DetectWorkloadProcess, EachPidOnce;
    NoItems();
    if processes != [] {
      var front, last := processes[..|processes| - 1], processes[|processes| - 1];
      DetectAllDistinct(front);
      var items := DetectAll(front);
      forall k | 0 <= k < |items|
        ensures items[k].process.pid != last.pid
      {
        assert items[k] in items && items[k].process in front;
        var i :| 0 <= i < |front| && front[i] == items[k].process;
        assert processes[i] == items[k].process;
      }
      AppendDistinct(items, Detected(last, DetectWorkloadProcess(last)));
    }
  }

  lemma AppendDistinct(items: seq<Detected>, item: Detected)
    requires EachPidOnce(items) && forall i | 0 <= i < |items| :: items[i].process.pid != item.process.pid
    ensures EachPidOnce(items + [item])
  {
  }

  lemma {:induction false} DetectAllFinds(processes: seq<Process>, p: Process)
    requires p in processes && DetectWorkloadProcess(p).confidence >= 0.60
    ensures Detected(p, DetectWorkloadProcess(p)) in DetectAll(processes)
  {
    hide DetectWorkloadProcess;
    var front, last := processes[..|processes| - 1], processes[|processes| - 1];
    assert processes == front + [last];
    if p in front {
      DetectAllFinds(front, p);
    }
  }

  lemma {:induction false} NoneHolds(ws: seq<Workload>, r: ProcessRef)
    requires r !in WorkloadTotals(ws).refs
    ensures forall k | 0 <= k < |ws| :: r !in ws[k].processes
  {
    hide Add64;
    if ws != [] {
      NoneHolds(ws[1..], r);
      assert forall k | 1 <= k < |ws| :: ws[k] == ws[1..][k - 1];
    }
  }

  /** Workload k holds the reference once and no other workload holds it. */
  ghost predicate OnlyIn(ws: seq<Workload>, r: ProcessRef, k: int) {
    0 <= k < |ws| && multiset(ws[k].processes)[r] == 1 &&
    forall j | 0 <= j < |ws| && j != k :: r !in ws[j].processes
  }

  lemma {:induction false} OneHolds(ws: seq<Workload>, r: ProcessRef)
    requires WorkloadTotals(ws).refs[r] == 1
    ensures exists k :: OnlyIn(ws, r, k)
  {
    hide Add64;
    if ws != [] {
      assert forall j | 1 <= j < |ws| :: ws[j] == ws[1..][j - 1];
      if r in ws[0].processes {
        NoneHolds(ws[1..], r);
        assert OnlyIn(ws, r, 0);
      } else {
        OneHolds(ws[1..], r);
        var k :| OnlyIn(ws[1..], r, k);
        assert OnlyIn(ws, r, k + 1);
      }
    }
  }

  /** Main result: with distinct pids a process detected with confidence 0.60 or more is a member of exactly one
      workload, once, and no workload holds the pid of any other process. */
  lemma DetectedIffInOneWorkload(workloads: seq<Workload>, processes: seq<Process>, p: Process)
    requires IsWorkloadList(workloads, DetectAll(processes), ByPid(DetectAll(processes)))
    requires DistinctPids(processes) && p in processes
    ensures var d := DetectWorkloadProcess(p);
            if d.confidence >= 0.60 then
              exists k :: OnlyIn(workloads, ProcessRef(p.pid, p.parentPid, d.role, d.confidence, p.command), k)
            else forall k, r | 0 <= k < |workloads| && r in workloads[k].processes :: r.pid != p.pid
  {
    hide DetectWorkloadProcess, IsWorkloadList, ItemTotals, WorkloadTotals;
    var items, d := DetectAll(processes), DetectWorkloadProcess(p);
    GroupingConserves(workloads, items);
    if d.confidence >= 0.60 {
      DetectAllDistinct(processes);
      DetectAllFinds(processes, p);
      EachItemOnce(items, Detected(p, d));
      OneHolds(workloads, RefOf(Detected(p, d)));
    } else {
      forall k, r | 0 <= k < |workloads| && r in workloads[k].processes
        ensures r.pid != p.pid
      {
        if r !in WorkloadTotals(workloads).refs {
          NoneHolds(workloads, r);
        }
        RefsComeFromItems(items, r);
        var x :| x in items && RefOf(x) == r;
        SamePidSameProcess(processes, x.process, p);
      }
    }
  }

  lemma SamePidSameProcess(processes: seq<Process>, p: Process, q: Process)
    requires DistinctPids(processes) && p in processes && q in processes
    ensures p.pid == q.pid ==> p == q
  {
  }

  lemma FinishedAt(items: seq<Detected>, byPid: map<int, Detected>, keys: seq<string>, w: Workload)
    requires w in FinishedOf(items, byPid, keys)
    ensures exists i | 0 <= i < |keys| :: FinishedGroup(items, byPid, keys[i]) == w
  {
    hide FinishedGroup;
  }

  lemma DetectedAreProducible(processes: seq<Process>)
    ensures forall item | item in DetectAll(processes) :: Producible(item.detection)
  {
    hide Producible, DetectAll;
    forall item | item in DetectAll(processes)
      ensures Producible(item.detection)
    {
      DetectionIsProducible(item.process);
    }
  }

  /** Each finished workload is the group of one key: never empty, of one kind, named by its first best member. */
  lemma WorkloadIsOneGroup(workloads: seq<Workload>, processes: seq<Process>, w: Workload)
    requires IsWorkloadList(workloads, DetectAll(processes), ByPid(DetectAll(processes))) && w in workloads
    ensures var items := DetectAll(processes);
            exists key :: IsGroupWorkload(w, MembersOf(items, ByPid(items), key))
  {
    hide TotalsOfWorkload, GroupingKey, WorkloadLess, FinishedOf, FinishedGroup, Represented, Producible,
         IsGroupWorkload, Sorted, Distinct, DetectAll, MembersOf, GroupOf;
    var items := DetectAll(processes);
    DetectedAreProducible(processes);
    var byPid := ByPid(items);
    var keys :|
      && Distinct(keys)
      && (forall item | item in items :: GroupingKey(item, byPid) in keys)
      && (forall key | key in keys :: MembersOf(items, byPid, key) != [])
      && multiset(workloads) == multiset(FinishedOf(items, byPid, keys));
    SameElements(workloads, FinishedOf(items, byPid, keys));
    FinishedAt(items, byPid, keys, w);
    var i :| 0 <= i < |keys| && FinishedGroup(items, byPid, keys[i]) == w;
    assert keys[i] in keys;
    OneGroup(items, byPid, keys[i]);
  }

  lemma OneGroup(items: seq<Detected>, byPid: map<int, Detected>, key: string)
    requires MembersOf(items, byPid, key) != []
    requires forall item | item in items :: Producible(item.detection)
    ensures IsGroupWorkload(FinishedGroup(items, byPid, key), MembersOf(items, byPid, key))
  {
    hide TotalsOfWorkload, GroupingKey, Represented, Producible, GroupOf, Finish, ItemTotals;
    var members := MembersOf(items, byPid, key);
    forall x, y | x in members && y in members
      ensures x.detection.kind == y.detection.kind
    {
      SameKeySameKind(x, y, byPid);
    }
    RepresentativeIsFirstBest(members);
    GroupConserves(members);
    FinishConserves(GroupOf(members).workload);
  }

  /** The workload that some members make up. */
  ghost predicate IsGroupWorkload(w: Workload, members: seq<Detected>) {
    && members != [] && OfOneKind(members)
    && w == Finish(GroupOf(members).workload)
    && Represented(GroupOf(members), members)
    && TotalsOfWorkload(w) == ItemTotals(members)
  }
}
