/** What a reader finds in the parsed output: each named field holds the sampled value. */
module DocumentFields {
  import opened Wrappers
  import opened Text
  import opened Numbers
  import opened Json
  import JsonParser
  import opened JsonWriting
  import opened Snapshots
  import opened SnapshotJson
  import opened SnapshotSession

  /** An object with this member. */
  ghost predicate Has(v: Value, name: string, field: Value) {
    v.Obj? && Member(name, field) in v.members
  }

  ghost predicate HasCount(v: Value, name: string, n: nat) {
    Has(v, name, Num(false, n, 0))
  }

  ghost predicate HasInt(v: Value, name: string, i: int) {
    Has(v, name, Num(i < 0, if i < 0 then 0 - i else i, 0))
  }

  /** Three decimals within half a thousandth of the sampled number; 0.000 when there is none. */
  ghost predicate HasReal(v: Value, name: string, d: Double) {
    exists c: nat ::
      if d.Finite? then Has(v, name, Num(d.negative, c, -3)) && -0.0005 <= c as real / 1000.0 - d.magnitude <= 0.0005
      else Has(v, name, Num(false, c, -3)) && c == 0
  }

  ghost predicate HasText(v: Value, name: string, s: string) {
    Has(v, name, Str(s))
  }

  ghost predicate HasFlag(v: Value, name: string, b: bool) {
    Has(v, name, Bool(b))
  }

  /** A status object. */
  ghost predicate IsStatus(v: Value, status: MetricStatus) {
    && HasText(v, "availability", AvailabilityLabel(status.availability))
    && HasText(v, "reason", status.reason) && HasCount(v, "age_ms", status.ageMs)
  }

  ghost predicate HasStatus(v: Value, name: string, status: MetricStatus) {
    exists field :: Has(v, name, field) && IsStatus(field, status)
  }

  // ----- members as the program lists them -----

  lemma RealListed(v: Value, name: string, d: Double)
    requires v.Obj? && D(name, d) in v.members
    ensures HasReal(v, name, d)
  {
    var c := DoubleOf(d).coefficient;
    if d.Finite? {
      DoubleOfIsClose(d);
    }
    hide DoubleOf;
  }

  lemma StatusListed(v: Value, name: string, status: MetricStatus)
    requires v.Obj? && St(name, status) in v.members
    ensures HasStatus(v, name, status)
  {
    StatusIs(status);
    hide IsStatus, StatusValue;
    assert Has(v, name, StatusValue(status));
  }

  lemma StatusIs(status: MetricStatus)
    ensures IsStatus(StatusValue(status), status)
  {
  }

  // ----- the sections -----

  lemma HostFields(s: SystemSnapshot)
    ensures var v := Obj(HostMembers(s));
            && HasText(v, "macos_version", s.macosVersion) && HasText(v, "soc_name", s.socName)
            && HasInt(v, "cpu_core_count", s.cpuCoreCount) && HasInt(v, "gpu_core_count", s.gpuCoreCount)
            && HasCount(v, "memory_total_bytes", s.memory.total)
  {
    hide StatusValue, DoubleOf;
  }

  lemma CapabilityFields(c: Capabilities)
    ensures var v := Obj(CapabilityMembers(c));
            && HasFlag(v, "root_mode", c.rootMode) && HasStatus(v, "gpu_total_status", c.gpuTotal)
            && HasStatus(v, "gpu_process_status", c.gpuProcess) && HasStatus(v, "thermal_status", c.thermal)
            && HasStatus(v, "ane_status", c.ane) && HasStatus(v, "root_process_status", c.rootProcess)
  {
    StatusListed(Obj(CapabilityMembers(c)), "gpu_total_status", c.gpuTotal);
    StatusListed(Obj(CapabilityMembers(c)), "gpu_process_status", c.gpuProcess);
    StatusListed(Obj(CapabilityMembers(c)), "thermal_status", c.thermal);
    StatusListed(Obj(CapabilityMembers(c)), "ane_status", c.ane);
    StatusListed(Obj(CapabilityMembers(c)), "root_process_status", c.rootProcess);
    hide StatusValue, HasStatus, DoubleOf;
  }

  lemma CoreFields(core: CpuCore)
    ensures var v := Obj(CoreMembers(core));
            && HasInt(v, "cpu_id", core.cpuId) && HasText(v, "cluster_type", core.clusterType)
            && HasText(v, "label", core.shortLabel) && HasReal(v, "utilization_percent", core.utilization)
  {
    RealListed(Obj(CoreMembers(core)), "utilization_percent", core.utilization);
    hide StatusValue, HasReal, DoubleOf;
  }

  lemma ClusterFieldsA(c: CpuCluster)
    ensures var v := Obj(ClusterMembers(c));
            && HasText(v, "name", c.name) && HasText(v, "label", [c.shortLabel])
            && HasInt(v, "core_count", c.coreCount) && HasReal(v, "utilization_percent", c.utilization)
  {
    RealListed(Obj(ClusterMembers(c)), "utilization_percent", c.utilization);
    hide StatusValue, HasReal, DoubleOf;
  }

  lemma ClusterFieldsB(c: CpuCluster)
    ensures var v := Obj(ClusterMembers(c));
            && HasInt(v, "frequency_mhz", c.frequencyMhz) && HasFlag(v, "frequency_available", c.frequencyAvailable)
            && HasReal(v, "power_watts", c.powerWatts) && HasFlag(v, "power_available", c.powerAvailable)
  {
    RealListed(Obj(ClusterMembers(c)), "power_watts", c.powerWatts);
    hide StatusValue, HasReal, DoubleOf;
  }

  lemma MemoryFieldsA(m: Memory)
    ensures var v := Obj(MemoryMembers(m));
            && HasCount(v, "total_bytes", m.total) && HasCount(v, "used_bytes", m.used)
            && HasCount(v, "wired_bytes", m.wired) && HasCount(v, "active_bytes", m.active)
  {
    hide StatusValue, PressureLabel, DoubleOf;
  }

  lemma MemoryFieldsB(m: Memory)
    ensures var v := Obj(MemoryMembers(m));
            && HasCount(v, "inactive_bytes", m.inactive) && HasCount(v, "compressed_bytes", m.compressed)
            && HasCount(v, "purgeable_bytes", m.purgeable) && HasCount(v, "speculative_bytes", m.speculative)
  {
    hide StatusValue, PressureLabel, DoubleOf;
  }

  lemma MemoryFieldsC(m: Memory)
    ensures var v := Obj(MemoryMembers(m));
            && HasCount(v, "swap_total_bytes", m.swapTotal) && HasCount(v, "swap_used_bytes", m.swapUsed)
            && HasCount(v, "swapins_bytes_per_sec", m.swapInRate)
            && HasCount(v, "swapouts_bytes_per_sec", m.swapOutRate)
  {
    hide StatusValue, PressureLabel, DoubleOf;
  }

  lemma MemoryFieldsD(m: Memory)
    ensures var v := Obj(MemoryMembers(m));
            && HasText(v, "pressure_level", PressureLabel(m.pressure))
            && HasStatus(v, "pressure_status", m.pressureStatus)
  {
    StatusListed(Obj(MemoryMembers(m)), "pressure_status", m.pressureStatus);
    hide StatusValue, HasStatus, PressureLabel, DoubleOf;
  }

  lemma GpuFieldsA(s: SystemSnapshot)
    ensures var v := Obj(GpuMembers(s));
            && HasReal(v, "utilization_percent", s.gpu.utilization)
            && HasCount(v, "memory_used_bytes", s.gpu.memoryUsed)
            && HasCount(v, "memory_total_bytes", s.gpu.memoryTotal)
  {
    RealListed(Obj(GpuMembers(s)), "utilization_percent", s.gpu.utilization);
    hide StatusValue, HasReal, DoubleOf;
  }

  lemma GpuFieldsB(s: SystemSnapshot)
    ensures var v := Obj(GpuMembers(s));
            && HasReal(v, "power_watts", s.gpu.powerWatts) && HasInt(v, "frequency_mhz", s.gpu.frequencyMhz)
            && HasStatus(v, "status", s.capabilities.gpuTotal)
  {
    RealListed(Obj(GpuMembers(s)), "power_watts", s.gpu.powerWatts);
    StatusListed(Obj(GpuMembers(s)), "status", s.capabilities.gpuTotal);
    hide StatusValue, HasReal, HasStatus, DoubleOf;
  }

  lemma DiskFields(io: DiskIo)
    ensures var v := Obj(DiskMembers(io));
            && HasCount(v, "read_bytes_per_sec", io.readRate) && HasCount(v, "write_bytes_per_sec", io.writeRate)
            && HasStatus(v, "status", io.status)
  {
    StatusListed(Obj(DiskMembers(io)), "status", io.status);
    hide StatusValue, HasStatus, DoubleOf;
  }

  lemma PagingFields(io: PagingIo)
    ensures var v := Obj(PagingMembers(io));
            && HasCount(v, "pageins_bytes_per_sec", io.pageIns) && HasCount(v, "pageouts_bytes_per_sec", io.pageOuts)
            && HasCount(v, "swapins_bytes_per_sec", io.swapIns) && HasCount(v, "swapouts_bytes_per_sec", io.swapOuts)
            && HasStatus(v, "status", io.status)
  {
    StatusListed(Obj(PagingMembers(io)), "status", io.status);
    hide StatusValue, HasStatus, DoubleOf;
  }

  lemma NetworkFields(io: NetworkIo)
    ensures var v := Obj(NetworkMembers(io));
            && HasCount(v, "rx_bytes_per_sec", io.rxRate) && HasCount(v, "tx_bytes_per_sec", io.txRate)
            && HasStatus(v, "status", io.status)
  {
    StatusListed(Obj(NetworkMembers(io)), "status", io.status);
    hide StatusValue, HasStatus, DoubleOf;
  }

  lemma RiskFieldsA(risk: MemoryRisk)
    ensures var v := Obj(RiskMembers(risk));
            && HasText(v, "level", RiskName(risk.level)) && HasText(v, "reason", risk.reason)
            && HasCount(v, "estimated_headroom_bytes", risk.headroom)
            && HasCount(v, "reclaimable_bytes", risk.reclaimable)
  {
    hide StatusValue, RiskName, DoubleOf;
  }

  lemma RiskFieldsB(risk: MemoryRisk)
    ensures var v := Obj(RiskMembers(risk));
            && HasCount(v, "compressed_bytes", risk.compressed) && HasCount(v, "swap_used_bytes", risk.swapUsed)
            && HasCount(v, "swap_rate_bytes_per_sec", risk.swapRate)
  {
    hide StatusValue, RiskName, DoubleOf;
  }

  lemma RefFields(p: ProcessRef)
    ensures var v := Obj(RefMembers(p));
            && HasInt(v, "pid", p.pid) && HasInt(v, "ppid", p.parentPid) && HasText(v, "role", RoleName(p.role))
            && HasReal(v, "detection_confidence", FromReal(p.confidence)) && HasText(v, "command", p.command)
  {
    RealListed(Obj(RefMembers(p)), "detection_confidence", FromReal(p.confidence));
    hide StatusValue, HasReal, RoleName, FromReal, DoubleOf;
  }

  lemma WorkloadFieldsA(w: Workload)
    ensures var v := Obj(WorkloadMembers(w));
            && HasText(v, "id", w.id) && HasText(v, "name", w.name) && HasText(v, "kind", KindName(w.kind))
            && HasText(v, "kind_label", KindLabel(w.kind))
  {
    hide StatusValue, KindName, KindLabel, RefMembers, DoubleOf;
  }

  lemma WorkloadFieldsB(w: Workload)
    ensures var v := Obj(WorkloadMembers(w));
            && HasText(v, "model_hint", w.modelHint) && HasReal(v, "cpu_percent", w.cpuPercent)
            && HasReal(v, "memory_percent", w.memoryPercent) && HasCount(v, "resident_bytes", w.residentBytes)
  {
    RealListed(Obj(WorkloadMembers(w)), "cpu_percent", w.cpuPercent);
    RealListed(Obj(WorkloadMembers(w)), "memory_percent", w.memoryPercent);
    hide StatusValue, HasReal, KindName, KindLabel, RefMembers, DoubleOf;
  }

  lemma WorkloadFieldsC(w: Workload)
    ensures var v := Obj(WorkloadMembers(w));
            && HasCount(v, "virtual_bytes", w.virtualBytes) && HasFlag(v, "gpu_active", w.gpuActive)
            && HasText(v, "core_mix", w.coreMix) && HasText(v, "io", w.io)
  {
    hide StatusValue, KindName, KindLabel, RefMembers, DoubleOf;
  }

  lemma WorkloadFieldsD(w: Workload)
    ensures var v := Obj(WorkloadMembers(w));
            && HasText(v, "power", w.power) && HasStatus(v, "detection_status", w.status)
  {
    StatusListed(Obj(WorkloadMembers(w)), "detection_status", w.status);
    hide StatusValue, HasStatus, KindName, KindLabel, RefMembers, DoubleOf;
  }

  lemma ProcessFieldsA(p: Process)
    ensures var v := Obj(ProcessMembers(p));
            && HasInt(v, "pid", p.pid) && HasInt(v, "ppid", p.parentPid) && HasText(v, "name", p.name)
            && HasText(v, "command", p.command)
  {
    hide StatusValue, DoubleOf;
  }

  lemma ProcessFieldsB(p: Process)
    ensures var v := Obj(ProcessMembers(p));
            && HasText(v, "user", p.user) && HasText(v, "state", [p.state]) && HasReal(v, "cpu_percent", p.cpuPercent)
            && HasReal(v, "memory_percent", p.memoryPercent)
  {
    RealListed(Obj(ProcessMembers(p)), "cpu_percent", p.cpuPercent);
    RealListed(Obj(ProcessMembers(p)), "memory_percent", p.memoryPercent);
    hide StatusValue, HasReal, DoubleOf;
  }

  lemma ProcessFieldsC(p: Process)
    ensures var v := Obj(ProcessMembers(p));
            && HasCount(v, "resident_bytes", p.residentBytes) && HasCount(v, "virtual_bytes", p.virtualBytes)
            && HasFlag(v, "gpu_active", p.gpuActive) && HasText(v, "core_mix", p.coreMix)
  {
    hide StatusValue, DoubleOf;
  }

  lemma ProcessFieldsD(p: Process)
    ensures var v := Obj(ProcessMembers(p));
            && HasText(v, "io", p.io) && HasText(v, "power", p.power)
  {
    hide StatusValue, DoubleOf;
  }

  // ----- the document -----

  /** An array whose items stand for the elements, one by one and in order. */
  ghost predicate HasList(v: Value, name: string, items: seq<Value>) {
    Has(v, name, Arr(items))
  }

  /** The head of the document. */
  lemma HeadFields(s: SystemSnapshot, options: Options)
    ensures var v := Obj(HeadMembers(s, options));
            && HasInt(v, "schema_version", if options.includeV2 then 2 else 1)
            && (options.includeV2 ==> HasText(v, "view_profile", ProfileName(options.profile)))
            && HasCount(v, "timestamp_unix_ms", s.timestampMs) && HasCount(v, "sample_interval_ms", s.intervalMs)
  {
    hide ProfileName;
  }

  /** Its sections, each under its name. */
  lemma BodyFields(s: SystemSnapshot)
    ensures var v := Obj(BodyMembers(s));
            && Has(v, "host", Obj(HostMembers(s))) && Has(v, "capabilities", Obj(CapabilityMembers(s.capabilities)))
            && Has(v, "cpu", Obj(CpuMembers(s))) && Has(v, "memory", Obj(MemoryMembers(s.memory)))
            && Has(v, "gpu", Obj(GpuMembers(s))) && Has(v, "ane", Obj(AneMembers(s))) && Has(v, "io", Obj(IoMembers(s)))
            && exists items :: HasList(v, "processes", items) && |items| == |s.processes| &&
                 forall i | 0 <= i < |items| :: items[i] == Obj(ProcessMembers(s.processes[i]))
  {
    hide HostMembers, CapabilityMembers, CpuMembers, MemoryMembers, GpuMembers, AneMembers, IoMembers, ProcessMembers;
    assert HasList(Obj(BodyMembers(s)), "processes", MapValues(p => Obj(ProcessMembers(p)), s.processes));
  }

  lemma SubsectionFields(s: SystemSnapshot)
    ensures var io, ane := Obj(IoMembers(s)), Obj(AneMembers(s));
            && Has(io, "disk", Obj(DiskMembers(s.diskIo))) && Has(io, "paging", Obj(PagingMembers(s.pagingIo)))
            && Has(io, "network", Obj(NetworkMembers(s.networkIo)))
            && HasText(ane, "summary", s.ane) && HasStatus(ane, "status", s.capabilities.ane)
  {
    StatusListed(Obj(AneMembers(s)), "status", s.capabilities.ane);
    hide DiskMembers, PagingMembers, NetworkMembers, StatusValue, HasStatus;
  }

  /** Each list has one item for each element, in order. */
  lemma CpuLists(s: SystemSnapshot)
    ensures exists items :: HasList(Obj(CpuMembers(s)), "per_core_utilization", items) && |items| == |s.cpuCores| &&
              forall i | 0 <= i < |items| :: items[i] == Obj(CoreMembers(s.cpuCores[i]))
    ensures exists items :: HasList(Obj(CpuMembers(s)), "cluster_summary", items) && |items| == |s.cpuClusters| &&
              forall i | 0 <= i < |items| :: items[i] == Obj(ClusterMembers(s.cpuClusters[i]))
  {
    hide CoreMembers, ClusterMembers;
    assert HasList(Obj(CpuMembers(s)), "per_core_utilization", MapValues(core => Obj(CoreMembers(core)), s.cpuCores));
    assert HasList(Obj(CpuMembers(s)), "cluster_summary", MapValues(c => Obj(ClusterMembers(c)), s.cpuClusters));
  }

  lemma PidAndProcessLists(s: SystemSnapshot, w: Workload)
    ensures exists items :: HasList(Obj(GpuMembers(s)), "active_pids", items) && |items| == |s.gpu.activePids| &&
              forall i | 0 <= i < |items| :: items[i] == IntOf(s.gpu.activePids[i])
    ensures exists items :: HasList(Obj(WorkloadMembers(w)), "processes", items) && |items| == |w.processes| &&
              forall i | 0 <= i < |items| :: items[i] == Obj(RefMembers(w.processes[i]))
  {
    hide RefMembers, StatusValue, DoubleOf, IntOf, KindName, KindLabel;
    assert HasList(Obj(GpuMembers(s)), "active_pids", MapValues(pid => IntOf(pid), s.gpu.activePids));
    assert HasList(Obj(WorkloadMembers(w)), "processes", MapValues(p => Obj(RefMembers(p)), w.processes));
  }

  lemma TailFields(options: Options)
    ensures var v := Obj(TailMembers(options));
            && Has(v, "memory_risk", Obj(RiskMembers(options.risk)))
            && exists items :: HasList(v, "workloads", items) && |items| == |options.workloads| &&
                 forall i | 0 <= i < |items| :: items[i] == Obj(WorkloadMembers(options.workloads[i]))
  {
    hide RiskMembers, WorkloadMembers;
    assert HasList(Obj(TailMembers(options)), "workloads", MapValues(w => Obj(WorkloadMembers(w)), options.workloads));
  }

  /** Main result: the document is read back as one object that holds exactly the members of head and body, and of
      the tail when it is asked for, in this order. */
  lemma DocumentHolds(s: SystemSnapshot, options: Options, name: string, field: Value)
    ensures var document := JsonParser.Parse(TextOf(Obj(DocumentMembers(s, options))));
            && document.Some?
            && (Has(document.value, name, field) <==>
                || Has(Obj(HeadMembers(s, options)), name, field) || Has(Obj(BodyMembers(s)), name, field)
                || (options.includeV2 && Has(Obj(TailMembers(options)), name, field)))
  {
    DocumentReadsBack(s, options);
    hide HeadMembers, BodyMembers, TailMembers, TextOf, JsonParser.Parse;
  }

  // ----- the events of a session -----

  /** What the three events of a session hold. */
  lemma EventFields(session: Session, endedMs: U64, document: Value)
    ensures var start, snapshot, end := StartEvent(session), SnapshotEvent(document), EndEvent(session, endedMs);
            && HasText(start, "event", "session_start") && HasText(snapshot, "event", "snapshot")
            && HasText(end, "event", "session_end") && HasCount(start, "schema_version", 2)
            && HasText(start, "session_id", session.id) && HasText(start, "label", session.sessionName)
            && HasCount(start, "started_unix_ms", session.startedMs) && Has(snapshot, "snapshot", document)
            && HasText(end, "session_id", session.id) && HasCount(end, "ended_unix_ms", endedMs)
            && HasCount(end, "duration_ms", if endedMs < session.startedMs then 0 else endedMs - session.startedMs)
  {
  }

  /** A session is named after its start, and its first line carries that name and the label. */
  lemma SessionIs(options: RunOptions, world: World)
    ensures var session := SessionOf(options, world);
            && session.sessionName == options.sessionName && session.startedMs == world.startedMs
            && exists digits :: session.id == "mtop-" + digits && AllDigits(digits) && ValueOf(digits) == world.startedMs
  {
    ValueOfDecimal(world.startedMs);
    assert SessionOf(options, world).id == "mtop-" + Decimal(world.startedMs);
  }
}
