/** The snapshot document: the value tree it stands for and the writer runs that produce it. */
module SnapshotJson {
  import opened Wrappers
  import opened Text
  import opened Numbers
  import opened Json
  import opened JsonParser
  import opened JsonRoundTrip
  import opened JsonWriting
  import opened Snapshots

  datatype Options = Options(profile: ViewProfile, includeV2: bool, workloads: seq<Workload>, risk: MemoryRisk)

  // ----- the document as a value -----

  function U(name: string, n: U64): Member { Member(name, UIntOf(n)) }
  function I(name: string, i: int): Member { Member(name, IntOf(i)) }
  function D(name: string, d: Double): Member { Member(name, DoubleOf(d)) }
  function S(name: string, s: string): Member { Member(name, Str(s)) }
  function B(name: string, b: bool): Member { Member(name, Bool(b)) }
  function St(name: string, status: MetricStatus): Member { Member(name, StatusValue(status)) }

  function MapValues<T>(f: T -> Value, xs: seq<T>): (values: seq<Value>)
    ensures |values| == |xs| && forall i | 0 <= i < |xs| :: values[i] == f(xs[i])
  {
    seq(|xs|, i requires 0 <= i < |xs| => f(xs[i]))
  }

  function StatusMembers(status: MetricStatus): seq<Member> {
    [S("availability", AvailabilityLabel(status.availability)),
     S("reason", status.reason),
     U("age_ms", status.ageMs)]
  }

  function StatusValue(status: MetricStatus): Value {
    Obj(StatusMembers(status))
  }

  function CoreMembers(core: CpuCore): seq<Member> {
    [I("cpu_id", core.cpuId), S("cluster_type", core.clusterType),
     S("label", core.shortLabel), D("utilization_percent", core.utilization)]
  }

  function ClusterMembers(cluster: CpuCluster): seq<Member> {
    [S("name", cluster.name), S("label", [cluster.shortLabel]), I("core_count", cluster.coreCount),
     D("utilization_percent", cluster.utilization), I("frequency_mhz", cluster.frequencyMhz),
     B("frequency_available", cluster.frequencyAvailable), D("power_watts", cluster.powerWatts),
     B("power_available", cluster.powerAvailable)]
  }

  function CpuMembers(s: SystemSnapshot): seq<Member> {
    [Member("per_core_utilization", Arr(MapValues(core => Obj(CoreMembers(core)), s.cpuCores))),
     Member("cluster_summary", Arr(MapValues(cluster => Obj(ClusterMembers(cluster)), s.cpuClusters)))]
  }

  function MemoryMembers(m: Memory): seq<Member> {
    [U("total_bytes", m.total), U("used_bytes", m.used), U("wired_bytes", m.wired),
     U("active_bytes", m.active), U("inactive_bytes", m.inactive), U("compressed_bytes", m.compressed),
     U("purgeable_bytes", m.purgeable), U("speculative_bytes", m.speculative),
     U("swap_total_bytes", m.swapTotal), U("swap_used_bytes", m.swapUsed),
     U("swapins_bytes_per_sec", m.swapInRate), U("swapouts_bytes_per_sec", m.swapOutRate),
     S("pressure_level", PressureLabel(m.pressure)), St("pressure_status", m.pressureStatus)]
  }

  function GpuMembers(s: SystemSnapshot): seq<Member> {
    [D("utilization_percent", s.gpu.utilization), U("memory_used_bytes", s.gpu.memoryUsed),
     U("memory_total_bytes", s.gpu.memoryTotal), D("power_watts", s.gpu.powerWatts),
     I("frequency_mhz", s.gpu.frequencyMhz),
     Member("active_pids", Arr(MapValues(pid => IntOf(pid), s.gpu.activePids))),
     St("status", s.capabilities.gpuTotal)]
  }

  function DiskMembers(io: DiskIo): seq<Member> {
    [U("read_bytes_per_sec", io.readRate), U("write_bytes_per_sec", io.writeRate), St("status", io.status)]
  }

  function PagingMembers(io: PagingIo): seq<Member> {
    [U("pageins_bytes_per_sec", io.pageIns), U("pageouts_bytes_per_sec", io.pageOuts),
     U("swapins_bytes_per_sec", io.swapIns), U("swapouts_bytes_per_sec", io.swapOuts), St("status", io.status)]
  }

  function NetworkMembers(io: NetworkIo): seq<Member> {
    [U("rx_bytes_per_sec", io.rxRate), U("tx_bytes_per_sec", io.txRate), St("status", io.status)]
  }

  function IoMembers(s: SystemSnapshot): seq<Member> {
    [Member("disk", Obj(DiskMembers(s.diskIo))), Member("paging", Obj(PagingMembers(s.pagingIo))),
     Member("network", Obj(NetworkMembers(s.networkIo)))]
  }

  function RiskMembers(risk: MemoryRisk): seq<Member> {
    [S("level", RiskName(risk.level)), S("reason", risk.reason),
     U("estimated_headroom_bytes", risk.headroom), U("reclaimable_bytes", risk.reclaimable),
     U("compressed_bytes", risk.compressed), U("swap_used_bytes", risk.swapUsed),
     U("swap_rate_bytes_per_sec", risk.swapRate)]
  }

  function RefMembers(p: ProcessRef): seq<Member> {
    [I("pid", p.pid), I("ppid", p.parentPid), S("role", RoleName(p.role)),
     D("detection_confidence", FromReal(p.confidence)), S("command", p.command)]
  }

  function WorkloadMembers(w: Workload): seq<Member> {
    [S("id", w.id), S("name", w.name), S("kind", KindName(w.kind)), S("kind_label", KindLabel(w.kind)),
     S("model_hint", w.modelHint), D("cpu_percent", w.cpuPercent), D("memory_percent", w.memoryPercent),
     U("resident_bytes", w.residentBytes), U("virtual_bytes", w.virtualBytes), B("gpu_active", w.gpuActive),
     S("core_mix", w.coreMix), S("io", w.io), S("power", w.power), St("detection_status", w.status),
     Member("processes", Arr(MapValues(p => Obj(RefMembers(p)), w.processes)))]
  }

  function ProcessMembers(p: Process): seq<Member> {
    [I("pid", p.pid), I("ppid", p.parentPid), S("name", p.name), S("command", p.command), S("user", p.user),
     S("state", [p.state]), D("cpu_percent", p.cpuPercent), D("memory_percent", p.memoryPercent),
     U("resident_bytes", p.residentBytes), U("virtual_bytes", p.virtualBytes), B("gpu_active", p.gpuActive),
     S("core_mix", p.coreMix), S("io", p.io), S("power", p.power)]
  }

  function HostMembers(s: SystemSnapshot): seq<Member> {
    [S("macos_version", s.macosVersion), S("soc_name", s.socName), I("cpu_core_count", s.cpuCoreCount),
     I("gpu_core_count", s.gpuCoreCount), U("memory_total_bytes", s.memory.total)]
  }

  function CapabilityMembers(c: Capabilities): seq<Member> {
    [B("root_mode", c.rootMode), St("gpu_total_status", c.gpuTotal), St("gpu_process_status", c.gpuProcess),
     St("thermal_status", c.thermal), St("ane_status", c.ane), St("root_process_status", c.rootProcess)]
  }

  function AneMembers(s: SystemSnapshot): seq<Member> {
    [S("summary", s.ane), St("status", s.capabilities.ane)]
  }

  function HeadMembers(s: SystemSnapshot, options: Options): seq<Member> {
    [I("schema_version", if options.includeV2 then 2 else 1)] +
    (if options.includeV2 then [S("view_profile", ProfileName(options.profile))] else []) +
    [U("timestamp_unix_ms", s.timestampMs), U("sample_interval_ms", s.intervalMs)]
  }

  function BodyMembers(s: SystemSnapshot): seq<Member> {
    [Member("host", Obj(HostMembers(s))), Member("capabilities", Obj(CapabilityMembers(s.capabilities))),
     Member("cpu", Obj(CpuMembers(s))), Member("memory", Obj(MemoryMembers(s.memory))),
     Member("gpu", Obj(GpuMembers(s))), Member("ane", Obj(AneMembers(s))),
     Member("io", Obj(IoMembers(s))),
     Member("processes", Arr(MapValues(p => Obj(ProcessMembers(p)), s.processes)))]
  }

  function TailMembers(options: Options): seq<Member> {
    [Member("workloads", Arr(MapValues(w => Obj(WorkloadMembers(w)), options.workloads))),
     Member("memory_risk", Obj(RiskMembers(options.risk)))]
  }

  function DocumentMembers(s: SystemSnapshot, options: Options): seq<Member> {
    HeadMembers(s, options) + BodyMembers(s) + if options.includeV2 then TailMembers(options) else []
  }

  // ----- the document as a writer run -----

  /** Key and value calls for each member in turn. */
  method WriteMembers(json: JsonWriter, members: seq<Member>)
    requires json.Valid() && json.context.InObject?
    modifies json
    ensures json.Valid() && json.context == InObject(old(json.context.members) + members, old(json.context.below))
  {
    MembersCallsAttach(json.context.members, members, json.context.below);
    hide Play, MembersCalls, JsonWriter.Valid;
    PlayCalls(json, MembersCalls(members));
  }

  /** The whole document is the text of its value tree. */
  method SnapshotToJson(s: SystemSnapshot, options: Options) returns (text: string)
    ensures text == TextOf(Obj(DocumentMembers(s, options)))
  {
    hide JsonWriter.Valid, WellFormed, HeadMembers, BodyMembers, TailMembers, TextOf;
    var json := new JsonWriter();
    json.BeginObject();
    WriteMembers(json, HeadMembers(s, options));
    WriteMembers(json, BodyMembers(s));
    if options.includeV2 {
      WriteMembers(json, TailMembers(options));
    }
    assert json.context.members == DocumentMembers(s, options);
    json.EndObject();
    text := json.ToString();
  }

  /** Any legal sequence of calls on a fresh writer that closes what it opened leaves a text that reads back. */
  method FinishedRunReadsBack(calls: seq<Call>) returns (text: string)
    requires Play(Start, calls).Some? && Play(Start, calls).value.Finished?
    ensures Parse(text) == Some(Play(Start, calls).value.value)
  {
    var json := new JsonWriter();
    hide Play, Parse, TextOf, JsonWriter.Valid;
    PlayCalls(json, calls);
    text := json.ToString();
    ParseTextOf(json.context.value);
  }

  /** Every snapshot document is one line that a parser reads back to the document's value. */
  lemma DocumentReadsBack(s: SystemSnapshot, options: Options)
    ensures var text := TextOf(Obj(DocumentMembers(s, options)));
            Parse(text) == Some(Obj(DocumentMembers(s, options))) && NoNewline(text) && text[0] == '{'
  {
    hide DocumentMembers, Parse, NoNewline;
    ParseTextOf(Obj(DocumentMembers(s, options)));
    TextIsOneLine(Obj(DocumentMembers(s, options)));
  }
}
