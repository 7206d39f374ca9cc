/**
 * The values that travel between the collector, the store, the /metrics
 * handler and the dashboard. Go's uint64 byte counts are natural numbers
 * and float64 percentages and load averages are reals.
 */
module Records {
  import opened Wrappers

  /** The smaller of two integers: how many entries a bounded slice keeps. */
  function Min(a: int, b: int): int {
    if a < b then a else b
  }

  /** The memory read: total and used bytes and the used percentage. */
  datatype MemStat = MemStat(total: nat, used: nat, usedPercent: real)

  /** The read of the root filesystem: total and used bytes and the used percentage. */
  datatype DiskStat = DiskStat(total: nat, used: nat, usedPercent: real)

  /** The three load averages of a sample. */
  datatype LoadAvg = LoadAvg(load1: real, load5: real, load15: real)

  /** One sample of host-wide metrics, as the /metrics handler decodes it from the store. */
  datatype DataPoint = DataPoint(
    timestamp: int,
    cpuPercent: real,
    memTotal: nat,
    memUsed: nat,
    diskTotal: nat,
    diskUsed: nat,
    loadAvg: LoadAvg,
    memPercent: real,
    diskPercent: real)

  /** One ranked process: the entries of `top_processes`. */
  datatype ProcInfo = ProcInfo(pid: int, cpu: real, memory: nat, command: string)

  /**
   * What the process library yields for one process handle: each read is
   * its own call and may fail (None).
   */
  datatype ProcRead = ProcRead(pid: int, cpu: Option<real>, rss: Option<nat>, name: Option<string>)

  /**
   * The body of a /metrics response. A field that is None was encoded as
   * JSON `null` (a Go nil slice), or, as the browser sees it, is not an array.
   */
  datatype MetricsResponse = MetricsResponse(
    dataPoints: Option<seq<DataPoint>>,
    topProcesses: Option<seq<ProcInfo>>)

  /** A cell of the process table. */
  datatype Cell = PidCell(pid: int) | CpuCell(cpu: real) | MemoryCell(bytes: nat) | CommandCell(command: string)
}
