/** Which processes share a workload, and how the list of workloads reads. */
module WorkloadPartition {
  import opened Wrappers
  import opened Text
  import opened Numbers
  import opened Snapshots
  import opened Sorting
  import opened FiniteSets
  import opened WorkloadDetector
  import opened WorkloadModel
  import opened WorkloadFacts
  import ProcessView
  import ConfigFacts

  // ----- who is a manager -----

  /** The command of a process holds these words, but for the case of letters. */
  ghost predicate Mentions(text: string, words: string) {
    exists i: nat :: ProcessView.FindsAt(text, words, i)
  }

  lemma MentionsIs(text: string, words: string)
    requires Lower(words) == words
    ensures Contains(Lower(text), words) <==> Mentions(text, words)
  {
    ProcessView.ContainsIff(text, words);
    hide Contains, Lower, ProcessView.FindsAt;
  }

  /** A process is an Ollama manager exactly when that is its name, in any case, or it serves; among the others it is
      an Ollama runner exactly when a process of that name runs, or its command names the model store or a run. */
  lemma OllamaIff(p: Process)
    ensures var d := DetectWorkloadProcess(p);
            var manager := Lower(p.name) == "ollama" || Mentions(p.command, "ollama serve");
            var runner := (Mentions(p.name, "ollama") && Mentions(p.command, "runner")) ||
                          Mentions(p.command, ".ollama") || Mentions(p.command, "ollama run");
            && (d.kind == Ollama && d.role == Manager <==> manager)
            && (d.kind == Ollama <==> manager || runner)
            && (d.kind == Ollama && !manager ==> d.role == Runner)
  {
    PlainWords();
    MentionsIs(p.command, "ollama serve");
    MentionsIs(p.command, "runner");
    MentionsIs(p.command, ".ollama");
    MentionsIs(p.command, "ollama run");
    MentionsIs(p.name, "ollama");
    OtherFamilies(p);
    hide Mentions, Contains, Lower, DetectLlamaCpp, DetectMlx, DetectApps, DetectPython, DetectGeneric, ModelFlagHint;
  }

  lemma PlainWords()
    ensures Lower("ollama serve") == "ollama serve" && Lower("runner") == "runner" && Lower(".ollama") == ".ollama"
    ensures Lower("ollama run") == "ollama run" && Lower("ollama") == "ollama"
  {
    ConfigFacts.LowerPlain("ollama serve");
    ConfigFacts.LowerPlain("runner");
    ConfigFacts.LowerPlain(".ollama");
    ConfigFacts.LowerPlain("ollama run");
    ConfigFacts.LowerPlain("ollama");
  }

  /** No other family of the cascade gives the kind Ollama. */
  lemma OtherFamilies(p: Process)
    ensures var name, command := Lower(p.name), Lower(p.command);
            var text := name + " " + command;
            && (DetectLlamaCpp(p, name, command, text).Some? ==> DetectLlamaCpp(p, name, command, text).value.kind != Ollama)
            && (DetectMlx(p, name, command, text).Some? ==> DetectMlx(p, name, command, text).value.kind != Ollama)
            && (DetectApps(p, name, command, text).Some? ==> DetectApps(p, name, command, text).value.kind != Ollama)
            && (DetectPython(p, name, command).Some? ==> DetectPython(p, name, command).value.kind != Ollama)
            && DetectGeneric(p).kind != Ollama
  {
    hide Lower, Contains, ModelFlagHint, GenericModelHint;
  }

  // ----- who belongs together -----

  /** An Ollama manager that is the item's parent or the item itself. */
  ghost predicate IsManagerOf(items: seq<Detected>, m: Detected, x: Detected) {
    && m in items && m.detection.kind == Ollama && m.detection.role == Manager && x.detection.kind == Ollama
    && (x.process.parentPid == m.process.pid || x.process.pid == m.process.pid)
  }

  ghost predicate Managed(items: seq<Detected>, x: Detected) {
    exists m :: IsManagerOf(items, m, x)
  }

  /** The one with the smallest pid decides. */
  ghost predicate IsFirstManagerOf(items: seq<Detected>, m: Detected, x: Detected) {
    IsManagerOf(items, m, x) && forall n | IsManagerOf(items, n, x) :: m.process.pid <= n.process.pid
  }

  /** The item's parent was detected as an item of the same kind. */
  ghost predicate HasKinParent(items: seq<Detected>, x: Detected) {
    exists g :: g in items && g.process.pid == x.process.parentPid && g.detection.kind == x.detection.kind
  }

  /** Two items belong together under one manager, or, away from managers, under one parent of their kind or by
      the same model hint. */
  ghost predicate Together(items: seq<Detected>, x: Detected, y: Detected) {
    if Managed(items, x) || Managed(items, y) then
      exists m :: IsFirstManagerOf(items, m, x) && IsFirstManagerOf(items, m, y)
    else
      && x.detection.kind == y.detection.kind
      && (|| (HasKinParent(items, x) && HasKinParent(items, y) && x.process.parentPid == y.process.parentPid)
          || (!HasKinParent(items, x) && !HasKinParent(items, y) && x.detection.modelHint != "" &&
              x.detection.modelHint == y.detection.modelHint)
          || x == y)
  }

  // ----- the key of an item -----

  lemma ManagerPidsAre(items: seq<Detected>, x: Detected)
    requires DistinctItemPids(items) && x.detection.kind == Ollama
    ensures forall pid :: pid in ManagerPids(x, ByPid(items)) <==>
              exists m :: IsManagerOf(items, m, x) && m.process.pid == pid
  {
    hide ByPid;
    var byPid := ByPid(items);
    forall m | IsManagerOf(items, m, x)
      ensures m.process.pid in ManagerPids(x, byPid)
    {
      assert m.process.pid in byPid && byPid[m.process.pid] == m;
    }
    forall pid | pid in ManagerPids(x, byPid)
      ensures exists m :: IsManagerOf(items, m, x) && m.process.pid == pid
    {
      assert IsManagerOf(items, byPid[pid], x) && byPid[pid].process.pid == pid;
    }
  }

  lemma KinParentIs(items: seq<Detected>, x: Detected)
    requires DistinctItemPids(items)
    ensures var byPid := ByPid(items);
            HasKinParent(items, x) <==>
            x.process.parentPid in byPid && byPid[x.process.parentPid].detection.kind == x.detection.kind
  {
    hide ByPid;
    var byPid := ByPid(items);
    if HasKinParent(items, x) {
      var g :| g in items && g.process.pid == x.process.parentPid && g.detection.kind == x.detection.kind;
      assert byPid[g.process.pid] == g;
    }
  }

  /** The key of an unmanaged item. */
  lemma UnmanagedKey(items: seq<Detected>, x: Detected)
    requires DistinctItemPids(items) && !Managed(items, x)
    ensures KeyOf(x, ByPid(items)) ==
            if HasKinParent(items, x) then WorkloadModel.Key(x.detection.kind, ParentTag, DecimalInt(x.process.parentPid))
            else if x.detection.modelHint != "" then WorkloadModel.Key(x.detection.kind, ModelTag, x.detection.modelHint)
            else WorkloadModel.Key(x.detection.kind, PidTag, DecimalInt(x.process.pid))
  {
    hide ByPid, DecimalInt, IsManagerOf;
    KinParentIs(items, x);
    if x.detection.kind == Ollama {
      ManagerPidsAre(items, x);
      assert ManagerPids(x, ByPid(items)) == {};
    }
  }

  /** The key of a managed item names its first manager. */
  lemma ManagedKey(items: seq<Detected>, x: Detected)
    requires DistinctItemPids(items) && Managed(items, x)
    ensures exists m :: IsFirstManagerOf(items, m, x) &&
              KeyOf(x, ByPid(items)) == WorkloadModel.Key(Ollama, ManagerTag, DecimalInt(m.process.pid))
  {
    hide ByPid, DecimalInt, ManagerPids;
    ManagerPidsAre(items, x);
    var pids := ManagerPids(x, ByPid(items));
    var n :| IsManagerOf(items, n, x);
    assert n.process.pid in pids;
    var least := Least(pids);
    assert IsLeast(least, pids);
    var m :| IsManagerOf(items, m, x) && m.process.pid == least;
    hide IsManagerOf;
    forall k | IsManagerOf(items, k, x)
      ensures m.process.pid <= k.process.pid
    {
      assert k.process.pid in pids;
    }
    assert IsFirstManagerOf(items, m, x);
  }

  lemma FirstManagerUnique(items: seq<Detected>, x: Detected, m: Detected, n: Detected)
    requires DistinctItemPids(items) && IsFirstManagerOf(items, m, x) && IsFirstManagerOf(items, n, x)
    ensures m == n
  {
  }

  /** Items share a key exactly when they belong together. */
  lemma SameKeyIffTogether(items: seq<Detected>, x: Detected, y: Detected)
    requires DistinctItemPids(items) && x in items && y in items
    ensures GroupingKey(x, ByPid(items)) == GroupingKey(y, ByPid(items)) <==> Together(items, x, y)
  {
    var a, b := KeyOf(x, ByPid(items)), KeyOf(y, ByPid(items));
    SameTextSameKey(a, b);
    if Managed(items, x) {
      ManagedKey(items, x);
    } else {
      UnmanagedKey(items, x);
    }
    if Managed(items, y) {
      ManagedKey(items, y);
    } else {
      UnmanagedKey(items, y);
    }
    hide ByPid, KeyText, KeyOf, HasKinParent, DecimalInt, IsFirstManagerOf;
    if Managed(items, x) && Managed(items, y) {
      SameManagerIff(items, x, y);
    } else if Managed(items, x) || Managed(items, y) {
      OnlyManagedHaveManagers(items, x);
      OnlyManagedHaveManagers(items, y);
    } else {
      DecimalIntsAgree(x.process.parentPid, y.process.parentPid);
      DecimalIntsAgree(x.process.pid, y.process.pid);
    }
  }

  lemma SameTextSameKey(a: WorkloadModel.Key, b: WorkloadModel.Key)
    ensures KeyText(a) == KeyText(b) <==> a == b
  {
    if KeyText(a) == KeyText(b) {
      KeyTextInjective(a, b);
    }
  }

  lemma DecimalIntsAgree(a: int, b: int)
    ensures DecimalInt(a) == DecimalInt(b) <==> a == b
  {
    if DecimalInt(a) == DecimalInt(b) {
      DecimalIntInjective(a, b);
    }
  }

  lemma OnlyManagedHaveManagers(items: seq<Detected>, x: Detected)
    ensures !Managed(items, x) ==> forall m :: !IsFirstManagerOf(items, m, x)
  {
  }

  lemma SameManagerIff(items: seq<Detected>, x: Detected, y: Detected)
    requires DistinctItemPids(items) && Managed(items, x) && Managed(items, y)
    ensures KeyOf(x, ByPid(items)) == KeyOf(y, ByPid(items)) <==>
            exists m :: IsFirstManagerOf(items, m, x) && IsFirstManagerOf(items, m, y)
  {
    ManagedKey(items, x);
    ManagedKey(items, y);
    hide ByPid, KeyOf, DecimalInt, Managed;
    var m :| IsFirstManagerOf(items, m, x) &&
      KeyOf(x, ByPid(items)) == WorkloadModel.Key(Ollama, ManagerTag, DecimalInt(m.process.pid));
    var n :| IsFirstManagerOf(items, n, y) &&
      KeyOf(y, ByPid(items)) == WorkloadModel.Key(Ollama, ManagerTag, DecimalInt(n.process.pid));
    DecimalIntsAgree(m.process.pid, n.process.pid);
    SamePidSameItem(items, m, n);
    forall k | IsFirstManagerOf(items, k, x) && IsFirstManagerOf(items, k, y)
      ensures m == n
    {
      FirstManagerUnique(items, x, m, k);
      FirstManagerUnique(items, y, n, k);
    }
  }

  lemma SamePidSameItem(items: seq<Detected>, m: Detected, n: Detected)
    requires DistinctItemPids(items) && m in items && n in items
    ensures m.process.pid == n.process.pid ==> m == n
  {
  }

  // ----- the finished list -----

  lemma MembersAreHeld(items: seq<Detected>, byPid: map<int, Detected>, key: string, x: Detected)
    requires DistinctItemPids(items) && x in items
    ensures RefOf(x) in FinishedGroup(items, byPid, key).processes <==> GroupingKey(x, byPid) == key
  {
    var members := MembersOf(items, byPid, key);
    GroupConserves(members);
    FinishConserves(GroupOf(members).workload);
    hide GroupingKey, GroupOf, Finish, ItemTotals, MembersOf;
    var w := FinishedGroup(items, byPid, key);
    assert multiset(w.processes) == ItemTotals(members).refs;
    assert RefOf(x) in w.processes <==> RefOf(x) in ItemTotals(members).refs;
    if x in members {
      MemberCounts(members, x);
    }
    if RefOf(x) in ItemTotals(members).refs {
      RefsComeFromItems(members, RefOf(x));
      var y :| y in members && RefOf(y) == RefOf(x);
      SamePidSameItem(items, x, y);
    }
  }

  lemma {:induction false} MemberCounts(members: seq<Detected>, x: Detected)
    requires x in members
    ensures RefOf(x) in ItemTotals(members).refs
  {
    hide Add64;
    var front, last := members[..|members| - 1], members[|members| - 1];
    assert members == front + [last];
    if x in front {
      MemberCounts(front, x);
    }
  }

  /** Some workload holds both. */
  ghost predicate ShareWorkload(ws: seq<Workload>, x: Detected, y: Detected) {
    exists w :: w in ws && RefOf(x) in w.processes && RefOf(y) in w.processes
  }

  /** A workload of the list holds the items of one key. */
  ghost predicate HoldsKey(items: seq<Detected>, w: Workload, key: string) {
    forall x | x in items :: RefOf(x) in w.processes <==> GroupingKey(x, ByPid(items)) == key
  }

  lemma FinishedHoldsKey(items: seq<Detected>, key: string)
    requires DistinctItemPids(items)
    ensures HoldsKey(items, FinishedGroup(items, ByPid(items), key), key)
  {
    hide GroupingKey, FinishedGroup, ByPid;
    forall x | x in items
      ensures RefOf(x) in FinishedGroup(items, ByPid(items), key).processes <==> GroupingKey(x, ByPid(items)) == key
    {
      MembersAreHeld(items, ByPid(items), key, x);
    }
  }

  lemma EveryWorkloadHoldsAKey(workloads: seq<Workload>, items: seq<Detected>, w: Workload)
    requires IsWorkloadList(workloads, items, ByPid(items)) && DistinctItemPids(items) && w in workloads
    ensures exists key :: HoldsKey(items, w, key)
  {
    hide GroupingKey, WorkloadLess, FinishedGroup, MembersOf, Sorted, Distinct, FinishedOf, ByPid, HoldsKey;
    var keys :|
      && Distinct(keys)
      && (forall item | item in items :: GroupingKey(item, ByPid(items)) in keys)
      && (forall key | key in keys :: MembersOf(items, ByPid(items), key) != [])
      && multiset(workloads) == multiset(FinishedOf(items, ByPid(items), keys));
    SameElements(workloads, FinishedOf(items, ByPid(items), keys));
    FinishedAt(items, ByPid(items), keys, w);
    var i :| 0 <= i < |keys| && FinishedGroup(items, ByPid(items), keys[i]) == w;
    FinishedHoldsKey(items, keys[i]);
  }

  lemma EveryKeyIsHeld(workloads: seq<Workload>, items: seq<Detected>, x: Detected)
    requires IsWorkloadList(workloads, items, ByPid(items)) && DistinctItemPids(items) && x in items
    ensures exists w :: w in workloads && HoldsKey(items, w, GroupingKey(x, ByPid(items)))
  {
    hide GroupingKey, WorkloadLess, FinishedGroup, MembersOf, Sorted, Distinct, FinishedOf, ByPid, HoldsKey;
    var keys :|
      && Distinct(keys)
      && (forall item | item in items :: GroupingKey(item, ByPid(items)) in keys)
      && (forall key | key in keys :: MembersOf(items, ByPid(items), key) != [])
      && multiset(workloads) == multiset(FinishedOf(items, ByPid(items), keys));
    SameElements(workloads, FinishedOf(items, ByPid(items), keys));
    var key := GroupingKey(x, ByPid(items));
    var i :| 0 <= i < |keys| && keys[i] == key;
    FinishedIs(items, ByPid(items), keys, i);
    FinishedHoldsKey(items, key);
    assert FinishedGroup(items, ByPid(items), key) in workloads;
  }

  /** Main result: two detected processes share a workload exactly when they belong together. */
  lemma ShareIffTogether(workloads: seq<Workload>, items: seq<Detected>, x: Detected, y: Detected)
    requires IsWorkloadList(workloads, items, ByPid(items))
    requires DistinctItemPids(items) && x in items && y in items
    ensures ShareWorkload(workloads, x, y) <==> Together(items, x, y)
  {
    SameKeyIffTogether(items, x, y);
    EveryKeyIsHeld(workloads, items, x);
    hide GroupingKey, Together, ByPid, IsWorkloadList, DistinctItemPids, RefOf;
    if ShareWorkload(workloads, x, y) {
      var w :| w in workloads && RefOf(x) in w.processes && RefOf(y) in w.processes;
      EveryWorkloadHoldsAKey(workloads, items, w);
    }
  }

  lemma FinishedIs(items: seq<Detected>, byPid: map<int, Detected>, keys: seq<string>, i: nat)
    requires i < |keys|
    ensures FinishedGroup(items, byPid, keys[i]) in FinishedOf(items, byPid, keys)
  {
    hide FinishedGroup;
    assert FinishedOf(items, byPid, keys)[i] == FinishedGroup(items, byPid, keys[i]);
  }

  // ----- how the list reads -----

  /** Larger workloads come first, and equally large ones in alphabetical order of their names. */
  lemma LargestFirst(workloads: seq<Workload>, items: seq<Detected>, i: nat, j: nat)
    requires IsWorkloadList(workloads, items, ByPid(items)) && i < j < |workloads|
    ensures workloads[i].residentBytes >= workloads[j].residentBytes
    ensures workloads[i].residentBytes == workloads[j].residentBytes ==>
              !Alphabetical(workloads[j].name, workloads[i].name)
  {
    hide FinishedOf, MembersOf, GroupingKey, Distinct, StringLess, Alphabetical, ByPid;
    StringLessIsAlphabetical(workloads[j].name, workloads[i].name);
    assert !WorkloadLess(workloads[j], workloads[i]);
  }

  /** Within a workload the processes stand by pid; its id is its kind with its hint or else its smallest pid. */
  lemma MembersByPid(workloads: seq<Workload>, items: seq<Detected>, w: Workload)
    requires IsWorkloadList(workloads, items, ByPid(items)) && w in workloads
    ensures forall i, j | 0 <= i < j < |w.processes| :: w.processes[i].pid <= w.processes[j].pid
    ensures w.processes != [] ==>
              w.id == KindName(w.kind) + ":" + if w.modelHint != "" then w.modelHint else DecimalInt(w.processes[0].pid)
  {
    hide WorkloadLess, MembersOf, GroupingKey, Distinct, ByPid, Finish, GroupOf, FinishedOf, Sorted;
    var byPid := ByPid(items);
    var keys :|
      && Distinct(keys)
      && (forall item | item in items :: GroupingKey(item, byPid) in keys)
      && (forall key | key in keys :: MembersOf(items, byPid, key) != [])
      && multiset(workloads) == multiset(FinishedOf(items, byPid, keys));
    SameElements(workloads, FinishedOf(items, byPid, keys));
    FinishedAt(items, byPid, keys, w);
    var i :| 0 <= i < |keys| && FinishedGroup(items, byPid, keys[i]) == w;
    FinishedStands(GroupOf(MembersOf(items, byPid, keys[i])).workload);
  }

  lemma FinishedStands(v: Workload)
    ensures var w := Finish(v);
            && (forall i, j | 0 <= i < j < |w.processes| :: w.processes[i].pid <= w.processes[j].pid)
            && (w.processes != [] ==>
                  w.id == KindName(w.kind) + ":" +
                          if w.modelHint != "" then w.modelHint else DecimalInt(w.processes[0].pid))
  {
    hide KindName, DecimalInt, Sort;
    assert StrictWeakOn(RefLess, v.processes);
    SortSorts(RefLess, v.processes);
  }

  // ----- sums and signals -----

  ghost predicate NoSignal(s: string) {
    s in ["", "-", "n/a", "root", "wait", "stale", "parse", "denied"]
  }

  /** The first text that is a signal; when there is none the result is no signal either. */
  ghost predicate IsFirstSignal(s: string, texts: seq<string>) {
    if forall i | 0 <= i < |texts| :: NoSignal(texts[i]) then NoSignal(s)
    else exists i | 0 <= i < |texts| :: s == texts[i] && !NoSignal(s) && forall j | 0 <= j < i :: NoSignal(texts[j])
  }

  function IoTexts(members: seq<Detected>): (r: seq<string>)
    ensures |r| == |members| && forall i | 0 <= i < |r| :: r[i] == members[i].process.io
  {
    seq(|members|, i requires 0 <= i < |members| => members[i].process.io)
  }

  function PowerTexts(members: seq<Detected>): (r: seq<string>)
    ensures |r| == |members| && forall i | 0 <= i < |r| :: r[i] == members[i].process.power
  {
    seq(|members|, i requires 0 <= i < |members| => members[i].process.power)
  }

  lemma NextSignal(s: string, texts: seq<string>, next: string)
    requires IsFirstSignal(s, texts)
    ensures IsFirstSignal(FirstAvailableSignal(s, next), texts + [next])
  {
    hide NoSignal;
    var all := texts + [next];
    SignalStep(s, next);
    assert all[|texts|] == next && forall i | 0 <= i < |texts| :: all[i] == texts[i];
  }

  lemma SignalStep(s: string, next: string)
    ensures !NoSignal(s) ==> FirstAvailableSignal(s, next) == s
    ensures NoSignal(s) && !NoSignal(next) ==> FirstAvailableSignal(s, next) == next
    ensures NoSignal(s) && NoSignal(next) ==> NoSignal(FirstAvailableSignal(s, next))
  {
  }

  lemma OneSignal(s: string)
    ensures IsFirstSignal(s, [s])
  {
    hide NoSignal;
    if !NoSignal(s) {
      assert [s][0] == s;
    }
  }

  /** The I/O and power texts of a group are those of the first member that has any. */
  lemma {:induction false} GroupSignals(members: seq<Detected>)
    requires members != []
    ensures IsFirstSignal(GroupOf(members).workload.io, IoTexts(members))
    ensures IsFirstSignal(GroupOf(members).workload.power, PowerTexts(members))
  {
    hide FirstAvailableSignal, IsFirstSignal, AddMember;
    var front, item := members[..|members| - 1], members[|members| - 1];
    GroupIsNotEmpty(front);
    SignalsStep(GroupOf(front), item);
    assert GroupOf(members) == AddMember(GroupOf(front), item);
    hide GroupOf;
    if front == [] {
      OneSignal(item.process.io);
      OneSignal(item.process.power);
      assert IoTexts(members) == [item.process.io] && PowerTexts(members) == [item.process.power];
    } else {
      GroupSignals(front);
      NextSignal(GroupOf(front).workload.io, IoTexts(front), item.process.io);
      NextSignal(GroupOf(front).workload.power, PowerTexts(front), item.process.power);
      assert IoTexts(members) == IoTexts(front) + [item.process.io];
      assert PowerTexts(members) == PowerTexts(front) + [item.process.power];
    }
  }

  lemma {:induction false} GroupIsNotEmpty(members: seq<Detected>)
    ensures |GroupOf(members).workload.processes| == |members|
  {
    if members != [] {
      GroupIsNotEmpty(members[..|members| - 1]);
      hide Contains, FirstAvailableSignal, BetterRepresentative, TitleOf, DoubleAdd, Add64;
    }
  }

  lemma SignalsStep(g: Group, item: Detected)
    ensures var v := AddMember(g, item).workload;
            && v.io == (if g.workload.processes == [] then item.process.io
                        else FirstAvailableSignal(g.workload.io, item.process.io))
            && v.power == (if g.workload.processes == [] then item.process.power
                           else FirstAvailableSignal(g.workload.power, item.process.power))
            && v.cpuPercent == DoubleAdd(g.workload.cpuPercent, item.process.cpuPercent)
            && v.memoryPercent == DoubleAdd(g.workload.memoryPercent, item.process.memoryPercent)
  {
    hide Contains, FirstAvailableSignal, BetterRepresentative, TitleOf, DoubleAdd, Add64;
  }

  ghost predicate PercentagesFinite(members: seq<Detected>) {
    forall m | m in members :: m.process.cpuPercent.Finite? && m.process.memoryPercent.Finite?
  }

  /** The sum of the members' CPU percentages, and of their memory percentages. */
  ghost function PercentSums(members: seq<Detected>): (real, real)
    requires PercentagesFinite(members)
  {
    if members == [] then (0.0, 0.0)
    else
      var (cpu, memory) := PercentSums(members[..|members| - 1]);
      var p := members[|members| - 1].process;
      (cpu + Signed(p.cpuPercent), memory + Signed(p.memoryPercent))
  }

  ghost function Signed(d: Double): real
    requires d.Finite?
  {
    if d.negative then 0.0 - d.magnitude else d.magnitude
  }

  /** A group adds up its members' percentages, apart from rounding. */
  lemma {:induction false} GroupPercentages(members: seq<Detected>)
    requires PercentagesFinite(members)
    ensures var w := GroupOf(members).workload;
            && w.cpuPercent.Finite? && w.memoryPercent.Finite?
            && (Signed(w.cpuPercent), Signed(w.memoryPercent)) == PercentSums(members)
  {
    if members != [] {
      var front, item := members[..|members| - 1], members[|members| - 1];
      GroupPercentages(front);
      SignalsStep(GroupOf(front), item);
      hide AddMember, FirstAvailableSignal;
      var w := GroupOf(front).workload;
      AddsSigned(w.cpuPercent, item.process.cpuPercent);
      AddsSigned(w.memoryPercent, item.process.memoryPercent);
    }
  }

  lemma AddsSigned(a: Double, b: Double)
    requires a.Finite? && b.Finite?
    ensures DoubleAdd(a, b).Finite? && Signed(DoubleAdd(a, b)) == Signed(a) + Signed(b)
  {
  }

  // ----- reasons and core mixes -----

  /** A reason that starts with that of member i and mentions that of every member since then. */
  predicate Mentioned(reason: string, members: seq<Detected>, i: nat) {
    && i < |members| && members[i].detection.reason <= reason
    && forall j | i <= j < |members| :: Contains(reason, members[j].detection.reason)
  }

  /** The reason is one from the representative on. */
  ghost predicate Reasoned(g: Group, members: seq<Detected>) {
    exists i: nat :: IsFirstBest(members, i) && g.representative == Some(members[i]) &&
      Mentioned(g.workload.status.reason, members, i)
  }

  lemma ReasonStep(g: Group, item: Detected)
    requires g.workload.processes != []
    ensures var v := AddMember(g, item);
            && v.representative == (if BetterRepresentative(item, g.representative) then Some(item) else g.representative)
            && (if BetterRepresentative(item, g.representative) then v.workload.status.reason == item.detection.reason
                else if Contains(g.workload.status.reason, item.detection.reason) then
                  v.workload.status.reason == g.workload.status.reason
                else v.workload.status.reason == g.workload.status.reason + "; " + item.detection.reason)
            && v.workload.coreMix == (if g.workload.coreMix == "" || g.workload.coreMix == "-" then item.process.coreMix
                                      else g.workload.coreMix)
  {
    hide Contains, FirstAvailableSignal, BetterRepresentative, TitleOf, DoubleAdd, Add64;
  }

  lemma FirstStep(item: Detected)
    ensures var v := AddMember(EMPTY_GROUP, item);
            && v.representative == Some(item) && v.workload.status.reason == item.detection.reason
            && v.workload.coreMix == item.process.coreMix
  {
    hide Contains, FirstAvailableSignal, TitleOf, DoubleAdd, Add64;
  }

  lemma LongerContains(reason: string, more: string, x: string)
    requires Contains(reason, x)
    ensures Contains(reason + more, x)
  {
    ContainsIffStands(reason, x);
    hide Contains;
    var a, b :| reason == a + (x + b);
    assert reason + more == a + (x + (b + more));
    ContainsMiddle(a, x, b + more);
  }

  lemma EndsContained(reason: string, more: string)
    ensures Contains(reason + "; " + more, more)
  {
    ContainsMiddle(reason + "; ", more, "");
    assert reason + "; " + more == (reason + "; ") + (more + "");
  }

  lemma MentionedLonger(reason: string, members: seq<Detected>, i: nat, item: Detected)
    requires Mentioned(reason, members, i)
    ensures Contains(reason, item.detection.reason) ==> Mentioned(reason, members + [item], i)
    ensures Mentioned(reason + "; " + item.detection.reason, members + [item], i)
  {
    hide Contains;
    var all, longer := members + [item], reason + "; " + item.detection.reason;
    assert longer == reason + ("; " + item.detection.reason);
    EndsContained(reason, item.detection.reason);
    forall j | i <= j < |members|
      ensures Contains(longer, all[j].detection.reason)
    {
      LongerContains(reason, "; " + item.detection.reason, members[j].detection.reason);
    }
  }

  lemma ContainsItself(s: string)
    ensures Contains(s, s)
  {
    assert s[0..] == s;
  }

  lemma NextReason(g: Group, front: seq<Detected>, item: Detected)
    requires front != [] && OfOneKind(front + [item]) && Reasoned(g, front) && g.workload.processes != []
    ensures Reasoned(AddMember(g, item), front + [item])
  {
    ReasonStep(g, item);
    hide AddMember, Contains, BetterRepresentative, Producible, Mentioned;
    var all := front + [item];
    var i: nat :| IsFirstBest(front, i) && g.representative == Some(front[i]) &&
      Mentioned(g.workload.status.reason, front, i);
    FirstBestAppend(front, item, i);
    assert front[i] in all && item in all;
    BetterIsMoreConfident(item, front[i]);
    MentionedLonger(g.workload.status.reason, front, i, item);
    OwnReason(front, item);
    hide IsFirstBest;
    assert all[|front|] == item && all[i] == front[i];
  }

  lemma OwnReason(front: seq<Detected>, item: Detected)
    ensures Mentioned(item.detection.reason, front + [item], |front|)
  {
    ContainsItself(item.detection.reason);
    hide Contains;
  }

  /** The reason of a group, and its core mix: that of the first member that has one, else the last one's. */
  lemma {:induction false} GroupReasons(members: seq<Detected>)
    requires members != [] && OfOneKind(members)
    ensures Reasoned(GroupOf(members), members)
    ensures var mix := GroupOf(members).workload.coreMix;
            if forall j | 0 <= j < |members| :: NoMix(members[j]) then mix == members[|members| - 1].process.coreMix
            else exists i | 0 <= i < |members| :: mix == members[i].process.coreMix && !NoMix(members[i]) &&
                   forall j | 0 <= j < i :: NoMix(members[j])
  {
    hide AddMember, Reasoned, Producible;
    var front, item := members[..|members| - 1], members[|members| - 1];
    assert members == front + [item];
    assert GroupOf(members) == AddMember(GroupOf(front), item);
    GroupIsNotEmpty(front);
    if front == [] {
      FirstStep(item);
      OneReason(GroupOf(members), item);
      assert members == [item];
    } else {
      assert forall j | 0 <= j < |front| :: members[j] == front[j];
      GroupReasons(front);
      NextReason(GroupOf(front), front, item);
      ReasonStep(GroupOf(front), item);
    }
  }

  predicate NoMix(m: Detected) {
    m.process.coreMix == "" || m.process.coreMix == "-"
  }

  lemma OneReason(g: Group, item: Detected)
    requires g.representative == Some(item) && g.workload.status.reason == item.detection.reason
    ensures Reasoned(g, [item])
  {
    OwnReason([], item);
    hide Mentioned;
    assert [] + [item] == [item];
    assert IsFirstBest([item], 0);
  }
}
