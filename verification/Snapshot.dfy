/** The sample the program passes from sampling to display and output, with its derived records. */
module Snapshots {
  import opened Numbers

  const TWO_TO_THE_64 := 0x1_0000_0000_0000_0000

  /** An unsigned 64-bit counter. */
  type U64 = n: int | 0 <= n < TWO_TO_THE_64

  /** 64-bit addition wraps around. */
  function Add64(a: U64, b: U64): U64 {
    (a + b) % TWO_TO_THE_64
  }

  datatype Availability =
    | Available | RequiresRoot | UnsupportedHardware | UnsupportedOS | PermissionDenied
    | Waiting | Stale | ParseFailed | Unavailable

  datatype MetricStatus = MetricStatus(availability: Availability, reason: string, ageMs: U64)

  datatype PressureLevel = UnknownPressure | Normal | PressureWarn | PressureCritical

  datatype RiskLevel = UnknownRisk | Ok | Watch | Warn | Critical

  datatype ViewProfile = Alpha | Beta

  datatype WorkloadKind =
    | Ollama | LlamaCpp | Mlx | PythonInference | LmStudio | ComfyUi | GenericModel | UnknownKind

  datatype Role = Manager | Server | Runner | Worker | Frontend | UnknownRole

  datatype CpuCore = CpuCore(cpuId: int, clusterType: string, shortLabel: string, utilization: Double)

  datatype CpuCluster = CpuCluster(
    name: string, shortLabel: char, coreCount: int, utilization: Double,
    frequencyMhz: int, frequencyAvailable: bool, powerWatts: Double, powerAvailable: bool)

  datatype DiskIo = DiskIo(readRate: U64, writeRate: U64, status: MetricStatus)

  datatype PagingIo = PagingIo(pageIns: U64, pageOuts: U64, swapIns: U64, swapOuts: U64, status: MetricStatus)

  datatype NetworkIo = NetworkIo(rxRate: U64, txRate: U64, status: MetricStatus)

  datatype Process = Process(
    pid: int, parentPid: int, name: string, command: string, user: string, state: char,
    cpuPercent: Double, memoryPercent: Double, residentBytes: U64, virtualBytes: U64,
    totalCpuTimeNs: U64, gpuActive: bool, coreMix: string, io: string, power: string)

  /** No two different processes have the same pid. */
  ghost predicate PidsIdentify(s: seq<Process>) {
    forall x, y | x in s && y in s && x.pid == y.pid :: x == y
  }

  datatype Capabilities = Capabilities(
    rootMode: bool, gpuTotal: MetricStatus, gpuProcess: MetricStatus,
    thermal: MetricStatus, ane: MetricStatus, rootProcess: MetricStatus)

  datatype Memory = Memory(
    total: U64, used: U64, wired: U64, active: U64, inactive: U64, compressed: U64,
    purgeable: U64, speculative: U64, swapTotal: U64, swapUsed: U64,
    swapInRate: U64, swapOutRate: U64, pressure: PressureLevel, pressureStatus: MetricStatus)

  datatype Gpu = Gpu(
    utilization: Double, memoryUsed: U64, memoryTotal: U64, powerWatts: Double,
    frequencyMhz: int, activePids: seq<int>)

  datatype SystemSnapshot = SystemSnapshot(
    timestampMs: U64, intervalMs: U64, macosVersion: string, socName: string,
    cpuCoreCount: int, gpuCoreCount: int, capabilities: Capabilities,
    cpuCores: seq<CpuCore>, cpuClusters: seq<CpuCluster>, memory: Memory, gpu: Gpu, ane: string,
    diskIo: DiskIo, pagingIo: PagingIo, networkIo: NetworkIo, processes: seq<Process>)

  datatype ProcessRef = ProcessRef(pid: int, parentPid: int, role: Role, confidence: real, command: string)

  datatype Workload = Workload(
    id: string, name: string, kind: WorkloadKind, modelHint: string, processes: seq<ProcessRef>,
    cpuPercent: Double, memoryPercent: Double, residentBytes: U64, virtualBytes: U64,
    gpuActive: bool, coreMix: string, io: string, power: string, status: MetricStatus)

  datatype MemoryRisk = MemoryRisk(
    level: RiskLevel, reason: string, headroom: U64, reclaimable: U64,
    compressed: U64, swapUsed: U64, swapRate: U64)

  function AvailabilityLabel(a: Availability): string {
    match a
    case Available => "ok"
    case RequiresRoot => "root"
    case UnsupportedHardware => "hw"
    case UnsupportedOS => "os"
    case PermissionDenied => "denied"
    case Waiting => "wait"
    case Stale => "stale"
    case ParseFailed => "parse"
    case Unavailable => "n/a"
  }

  function PressureLabel(level: PressureLevel): string {
    match level
    case UnknownPressure => "Unknown"
    case Normal => "Normal"
    case PressureWarn => "Warn"
    case PressureCritical => "Critical"
  }

  function RiskName(level: RiskLevel): string {
    match level
    case UnknownRisk => "unknown"
    case Ok => "ok"
    case Watch => "watch"
    case Warn => "warn"
    case Critical => "critical"
  }

  function ProfileName(profile: ViewProfile): string {
    match profile
    case Alpha => "alpha"
    case Beta => "beta"
  }

  function KindName(kind: WorkloadKind): string {
    match kind
    case Ollama => "ollama"
    case LlamaCpp => "llama_cpp"
    case Mlx => "mlx"
    case PythonInference => "python_inference"
    case LmStudio => "lm_studio"
    case ComfyUi => "comfyui"
    case GenericModel => "generic_model"
    case UnknownKind => "unknown"
  }

  function KindLabel(kind: WorkloadKind): string {
    match kind
    case Ollama => "Ollama"
    case LlamaCpp => "llama.cpp"
    case Mlx => "MLX"
    case PythonInference => "Python"
    case LmStudio => "LM Studio"
    case ComfyUi => "ComfyUI"
    case GenericModel => "Model"
    case UnknownKind => "Unknown"
  }

  function RoleName(role: Role): string {
    match role
    case Manager => "manager"
    case Server => "server"
    case Runner => "runner"
    case Worker => "worker"
    case Frontend => "frontend"
    case UnknownRole => "unknown"
  }
}
