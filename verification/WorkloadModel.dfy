/** Grouping detected processes into workloads. */
module WorkloadModel {
  import opened Wrappers
  import opened Text
  import opened Numbers
  import opened Snapshots
  import opened Sorting
  import opened FiniteSets
  import opened WorkloadDetector

  datatype Detected = Detected(process: Process, detection: Detection)

  // ----- detection -----

  function DetectAll(processes: seq<Process>): (items: seq<Detected>)
    ensures forall item | item in items ::
              item.process in processes && item.detection == DetectWorkloadProcess(item.process) &&
              item.detection.confidence >= 0.60
  {
    if processes == [] then []
    else
      var front, p := DetectAll(processes[..|processes| - 1]), processes[|processes| - 1];
      var d := DetectWorkloadProcess(p);
      if d.confidence < 0.60 then front else front + [Detected(p, d)]
  }

  /** The later of two items with the same pid wins. */
  function ByPid(items: seq<Detected>): (m: map<int, Detected>)
    ensures forall pid | pid in m :: m[pid] in items && m[pid].process.pid == pid
    ensures forall item | item in items :: item.process.pid in m
  {
    if items == [] then map[]
    else ByPid(items[..|items| - 1])[items[|items| - 1].process.pid := items[|items| - 1]]
  }

  // ----- the grouping key -----

  datatype Tag = ManagerTag | ParentTag | ModelTag | PidTag

  function TagName(tag: Tag): string {
    match tag
    case ManagerTag => "manager"
    case ParentTag => "parent"
    case ModelTag => "model"
    case PidTag => "pid"
  }

  /** What the key string encodes. */
  datatype Key = Key(kind: WorkloadKind, tag: Tag, payload: string)

  function KeyText(key: Key): string {
    KindName(key.kind) + (":" + (TagName(key.tag) + (":" + key.payload)))
  }

  predicate IsOllamaManager(item: Detected) {
    item.detection.kind == Ollama && item.detection.role == Manager
  }

  /** The pids whose process is a manager that is the item's parent or the item itself. */
  function ManagerPids(item: Detected, byPid: map<int, Detected>): set<int> {
    set pid | pid in byPid && IsOllamaManager(byPid[pid]) &&
              (item.process.parentPid == byPid[pid].process.pid || item.process.pid == byPid[pid].process.pid)
  }

  function KeyOf(item: Detected, byPid: map<int, Detected>): Key {
    var p, d := item.process, item.detection;
    var managers := ManagerPids(item, byPid);
    if d.kind == Ollama && managers != {} then Key(d.kind, ManagerTag, DecimalInt(Least(managers)))
    else if p.parentPid in byPid && byPid[p.parentPid].detection.kind == d.kind then
      Key(d.kind, ParentTag, DecimalInt(byPid[p.parentPid].process.pid))
    else if d.modelHint != "" then Key(d.kind, ModelTag, d.modelHint)
    else Key(d.kind, PidTag, DecimalInt(p.pid))
  }

  function GroupingKey(item: Detected, byPid: map<int, Detected>): string {
    KeyText(KeyOf(item, byPid))
  }

  // ----- accumulation -----

  predicate BetterRepresentative(candidate: Detected, current: Option<Detected>) {
    current.None? ||
    (candidate.detection.role == Manager && current.value.detection.role != Manager) ||
    (candidate.detection.role == Server && current.value.detection.role != Manager &&
     current.value.detection.role != Server) ||
    candidate.detection.confidence > current.value.detection.confidence
  }

  function FirstAvailableSignal(current: string, next: string): string {
    if current in ["", "-", "n/a", "root", "wait", "stale", "parse", "denied"] then
      if next == "" then current else next
    else current
  }

  function RefOf(item: Detected): ProcessRef {
    ProcessRef(item.process.pid, item.process.parentPid, item.detection.role, item.detection.confidence,
               item.process.command)
  }

  function TitleOf(item: Detected): string {
    if item.detection.title == "" then item.process.name else item.detection.title
  }

  const ZERO := Finite(false, 0.0)
  const EMPTY_WORKLOAD := Workload("", "", UnknownKind, "", [], ZERO, ZERO, 0, 0, false, "-", "-", "-",
                                   MetricStatus(Unavailable, "", 0))

  datatype Group = Group(workload: Workload, representative: Option<Detected>)

  const EMPTY_GROUP := Group(EMPTY_WORKLOAD, None)

  /** The texts of a workload after one more member. */
  function Describe(w: Workload, item: Detected): Workload {
    var p, d := item.process, item.detection;
    if w.processes == [] then
      w.(kind := d.kind, modelHint := d.modelHint, name := TitleOf(item), coreMix := p.coreMix, io := p.io,
         power := p.power, status := w.status.(availability := Available, reason := d.reason))
    else
      w.(modelHint := if w.modelHint == "" then d.modelHint else w.modelHint,
         io := FirstAvailableSignal(w.io, p.io), power := FirstAvailableSignal(w.power, p.power),
         coreMix := if w.coreMix == "" || w.coreMix == "-" then p.coreMix else w.coreMix,
         status := if Contains(w.status.reason, d.reason) then w.status
                   else w.status.(reason := w.status.reason + "; " + d.reason))
  }

  /** The members and sums of a workload after one more member. */
  function Account(w: Workload, item: Detected): Workload {
    var p := item.process;
    w.(processes := w.processes + [RefOf(item)],
       cpuPercent := DoubleAdd(w.cpuPercent, p.cpuPercent),
       memoryPercent := DoubleAdd(w.memoryPercent, p.memoryPercent),
       residentBytes := Add64(w.residentBytes, p.residentBytes),
       virtualBytes := Add64(w.virtualBytes, p.virtualBytes),
       gpuActive := w.gpuActive || p.gpuActive)
  }

  /** A new representative renames the workload. */
  function Represent(g: Group, item: Detected): Group {
    if !BetterRepresentative(item, g.representative) then g
    else
      var w := g.workload;
      Group(w.(name := TitleOf(item),
               modelHint := if item.detection.modelHint != "" then item.detection.modelHint else w.modelHint,
               status := w.status.(reason := item.detection.reason)),
            Some(item))
  }

  function AddMember(g: Group, item: Detected): Group {
    Represent(Group(Account(Describe(g.workload, item), item), g.representative), item)
  }

  /** The group that a list of members builds up, in order. */
  function GroupOf(members: seq<Detected>): Group {
    if members == [] then EMPTY_GROUP
    else AddMember(GroupOf(members[..|members| - 1]), members[|members| - 1])
  }

  function MembersOf(items: seq<Detected>, byPid: map<int, Detected>, key: string): (r: seq<Detected>)
    ensures forall item :: item in r <==> item in items && GroupingKey(item, byPid) == key
  {
    if items == [] then []
    else
      var front, item := MembersOf(items[..|items| - 1], byPid, key), items[|items| - 1];
      if GroupingKey(item, byPid) == key then front + [item] else front
  }

  // ----- the finished list -----

  predicate RefLess(l: ProcessRef, r: ProcessRef) {
    l.pid < r.pid
  }

  function MakeId(w: Workload): string {
    KindName(w.kind) + ":" +
    (if w.modelHint != "" then w.modelHint
     else if w.processes != [] then DecimalInt(w.processes[0].pid)
     else "unknown")
  }

  function Finish(w: Workload): Workload {
    var sorted := w.(processes := Sort(RefLess, w.processes));
    sorted.(id := MakeId(sorted))
  }

  predicate WorkloadLess(l: Workload, r: Workload) {
    if l.residentBytes != r.residentBytes then l.residentBytes > r.residentBytes else StringLess(l.name, r.name)
  }

  function FinishedGroup(items: seq<Detected>, byPid: map<int, Detected>, key: string): Workload {
    Finish(GroupOf(MembersOf(items, byPid, key)).workload)
  }

  function FinishedOf(items: seq<Detected>, byPid: map<int, Detected>, keys: seq<string>): (ws: seq<Workload>)
    ensures |ws| == |keys|
  {
    seq(|keys|, i requires 0 <= i < |keys| => FinishedGroup(items, byPid, keys[i]))
  }

  lemma FinishedAppend(items: seq<Detected>, byPid: map<int, Detected>, keys: seq<string>, key: string)
    ensures FinishedOf(items, byPid, keys + [key]) ==
            FinishedOf(items, byPid, keys) + [FinishedGroup(items, byPid, key)]
  {
    hide FinishedGroup;
  }

  /** One workload for each key that occurs, sorted by size and name; equals may stand in any order. */
  ghost predicate IsWorkloadList(workloads: seq<Workload>, items: seq<Detected>, byPid: map<int, Detected>) {
    Sorted(WorkloadLess, workloads) &&
    exists keys: seq<string> ::
      && Distinct(keys)
      && (forall item | item in items :: GroupingKey(item, byPid) in keys)
      && (forall key | key in keys :: MembersOf(items, byPid, key) != [])
      && multiset(workloads) == multiset(FinishedOf(items, byPid, keys))
  }

  // ----- the program's loops -----

  lemma ByPidStart()
    ensures ByPid([]) == map[]
  {
  }

  lemma ByPidAppend(items: seq<Detected>, item: Detected)
    ensures ByPid(items + [item]) == ByPid(items)[item.process.pid := item]
  {
    assert (items + [item])[..|items|] == items;
  }

  method DetectProcesses(processes: seq<Process>) returns (items: seq<Detected>, byPid: map<int, Detected>)
    ensures items == DetectAll(processes) && byPid == ByPid(items)
  {
    hide DetectWorkloadProcess, ByPid;
    ByPidStart();
    items, byPid := [], map[];
    var i := 0;
    while i < |processes|
      invariant 0 <= i <= |processes|
      invariant items == DetectAll(processes[..i]) && byPid == ByPid(items)
    {
      assert processes[..i + 1][..i] == processes[..i];
      var detection := DetectWorkloadProcess(processes[i]);
      i := i + 1;
      if detection.confidence < 0.60 {
        continue;
      }
      var item := Detected(processes[i - 1], detection);
      ByPidAppend(items, item);
      byPid := byPid[processes[i - 1].pid := item];
      items := items + [item];
    }
    assert processes[..|processes|] == processes;
  }

  /** The map holds exactly the keys that occur, each with the group its members build up. */
  ghost predicate GroupedMap(grouped: map<string, Group>, items: seq<Detected>, byPid: map<int, Detected>) {
    forall key ::
      && (key in grouped <==> MembersOf(items, byPid, key) != [])
      && (key in grouped ==> grouped[key] == GroupOf(MembersOf(items, byPid, key)))
  }

  lemma MembersAppend(items: seq<Detected>, item: Detected, byPid: map<int, Detected>, key: string)
    ensures MembersOf(items + [item], byPid, key) ==
            MembersOf(items, byPid, key) + if GroupingKey(item, byPid) == key then [item] else []
  {
    assert (items + [item])[..|items|] == items;
  }

  lemma GroupAppend(members: seq<Detected>, item: Detected)
    ensures GroupOf(members + [item]) == AddMember(GroupOf(members), item)
  {
    assert (members + [item])[..|members|] == members;
  }

  lemma GroupedMapAppend(grouped: map<string, Group>, items: seq<Detected>, item: Detected, byPid: map<int, Detected>)
    requires GroupedMap(grouped, items, byPid)
    ensures var key := GroupingKey(item, byPid);
            var g := if key in grouped then grouped[key] else EMPTY_GROUP;
            GroupedMap(grouped[key := AddMember(g, item)], items + [item], byPid)
  {
    hide GroupingKey, AddMember, GroupOf, MembersOf;
    var own := GroupingKey(item, byPid);
    var g := if own in grouped then grouped[own] else EMPTY_GROUP;
    var members := MembersOf(items, byPid, own);
    NoMembers();
    assert g == GroupOf(members);
    GroupAppend(members, item);
    forall key
      ensures MembersOf(items + [item], byPid, key) ==
              MembersOf(items, byPid, key) + if own == key then [item] else []
    {
      MembersAppend(items, item, byPid, key);
    }
    var after := grouped[own := AddMember(g, item)];
    forall key
      ensures key in after <==> MembersOf(items + [item], byPid, key) != []
      ensures key in after ==> after[key] == GroupOf(MembersOf(items + [item], byPid, key))
    {
      if key == own {
        assert MembersOf(items + [item], byPid, key) == members + [item];
      } else {
        assert MembersOf(items + [item], byPid, key) == MembersOf(items, byPid, key);
      }
    }
  }

  lemma NoMembers()
    ensures GroupOf([]) == EMPTY_GROUP
  {
  }

  method GroupItems(items: seq<Detected>, byPid: map<int, Detected>) returns (grouped: map<string, Group>)
    ensures GroupedMap(grouped, items, byPid)
  {
    hide AddMember, GroupingKey;
    grouped := map[];
    var i := 0;
    while i < |items|
      invariant 0 <= i <= |items|
      invariant GroupedMap(grouped, items[..i], byPid)
    {
      var key := GroupingKey(items[i], byPid);
      var g := if key in grouped then grouped[key] else EMPTY_GROUP;
      GroupedMapAppend(grouped, items[..i], items[i], byPid);
      assert items[..i + 1] == items[..i] + [items[i]];
      grouped := grouped[key := AddMember(g, items[i])];
      i := i + 1;
    }
    assert items[..|items|] == items;
  }

  /** Finishes the groups in any order of their keys. */
  method FinishGroups(grouped: map<string, Group>, ghost items: seq<Detected>, ghost byPid: map<int, Detected>)
    returns (workloads: seq<Workload>, ghost keys: seq<string>)
    requires GroupedMap(grouped, items, byPid)
    ensures workloads == FinishedOf(items, byPid, keys) && Distinct(keys)
    ensures forall key :: key in keys <==> key in grouped
  {
    hide Finish, GroupOf, MembersOf;
    workloads, keys := [], [];
    var pending := grouped.Keys;
    while pending != {}
      invariant pending <= grouped.Keys && Distinct(keys)
      invariant forall key :: key in keys <==> key in grouped && key !in pending
      invariant workloads == FinishedOf(items, byPid, keys)
      decreases pending
    {
      HasElement(pending);
      var key :| key in pending;
      FinishedAppend(items, byPid, keys, key);
      workloads := workloads + [Finish(grouped[key].workload)];
      keys := keys + [key];
      pending := pending - {key};
    }
  }

  /** The whole of build_workloads. */
  method BuildWorkloads(processes: seq<Process>) returns (workloads: seq<Workload>)
    ensures var items := DetectAll(processes); IsWorkloadList(workloads, items, ByPid(items))
  {
    var items, byPid := DetectProcesses(processes);
    var grouped := GroupItems(items, byPid);
    ghost var keys;
    workloads, keys := FinishGroups(grouped, items, byPid);
    SortPermutes(WorkloadLess, workloads);
    WorkloadLessIsWeak(workloads);
    SortSorts(WorkloadLess, workloads);
    hide Finish, GroupOf, MembersOf, GroupingKey, WorkloadLess, Sort, FinishedOf;
    forall item | item in items
      ensures GroupingKey(item, byPid) in keys
    {
      assert item in MembersOf(items, byPid, GroupingKey(item, byPid));
    }
    workloads := Sort(WorkloadLess, workloads);
  }

  lemma WorkloadLessIsWeak(ws: seq<Workload>)
    ensures StrictWeakOn(WorkloadLess, ws)
  {
    forall x | x in ws
      ensures !WorkloadLess(x, x)
    {
      StringLessTotal(x.name, x.name);
    }
    forall x, y, z | x in ws && y in ws && z in ws && WorkloadLess(x, y) && WorkloadLess(y, z)
      ensures WorkloadLess(x, z)
    {
      WorkloadLessTransitive(x, y, z);
    }
    forall x, y, z | x in ws && y in ws && z in ws && WorkloadLess(x, z)
      ensures WorkloadLess(x, y) || WorkloadLess(y, z)
    {
      WorkloadLessSplits(x, y, z);
    }
  }

  lemma WorkloadLessTransitive(x: Workload, y: Workload, z: Workload)
    requires WorkloadLess(x, y) && WorkloadLess(y, z)
    ensures WorkloadLess(x, z)
  {
    hide StringLess;
    if x.residentBytes == y.residentBytes == z.residentBytes {
      StringLessTransitive(x.name, y.name, z.name);
    }
  }

  lemma WorkloadLessSplits(x: Workload, y: Workload, z: Workload)
    requires WorkloadLess(x, z)
    ensures WorkloadLess(x, y) || WorkloadLess(y, z)
  {
    hide StringLess;
    StringLessTotal(x.name, y.name);
    if StringLess(y.name, x.name) && StringLess(x.name, z.name) {
      StringLessTransitive(y.name, x.name, z.name);
    }
  }
}
