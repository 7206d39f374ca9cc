/**
 * The pure display rules of static/assets/main.js: the byte-size unit
 * choice of `formatBytes`, the OS line of `formatOS`, and the order of the
 * two metric columns that both `fixTableHeaders` and the row builder follow.
 * Digit rendering (`toLocaleString`, `toFixed`) is not modelled: a display
 * is the exact scaled value together with its unit.
 */
module Format {
  import opened Wrappers
  import opened Records
  import Text

  datatype Unit = B | KB | MB | GB

  /** A formatted byte count: the value shown and the unit after it. */
  datatype ByteDisplay = ByteDisplay(scaled: real, unit: Unit)

  const KiB: int := 1024
  const MiB: int := 1024 * 1024
  const GiB: int := 1024 * 1024 * 1024

  /** How many bytes one of the unit is. */
  function UnitBytes(u: Unit): int {
    match u
    case B => 1
    case KB => KiB
    case MB => MiB
    case GB => GiB
  }

  /**
   * `formatBytes`: the largest binary unit up to GB that keeps the shown
   * value at least 1, bytes below 1024 staying in B.
   */
  function FormatBytes(bytes: int): (d: ByteDisplay)
    ensures d.unit == B <==> bytes < KiB
    ensures d.unit == KB <==> KiB <= bytes < MiB
    ensures d.unit == MB <==> MiB <= bytes < GiB
    ensures d.unit == GB <==> GiB <= bytes
    ensures d.scaled * (UnitBytes(d.unit) as real) == bytes as real
    ensures d.unit != B ==> 1.0 <= d.scaled
    ensures d.unit == KB || d.unit == MB ==> d.scaled < 1024.0
  {
    if bytes < KiB then ByteDisplay(bytes as real, B)
    else if bytes < MiB then ByteDisplay(bytes as real / 1024.0, KB)
    else if bytes < GiB then ByteDisplay(bytes as real / (MiB as real), MB)
    else ByteDisplay(bytes as real / (GiB as real), GB)
  }

  /** The boundaries: 1023 stays in bytes, and 1024, 1024² and 1024³ each show as 1 of the next unit. */
  lemma FormatBytesBoundaries()
    ensures FormatBytes(1023) == ByteDisplay(1023.0, B)
    ensures FormatBytes(1024) == ByteDisplay(1.0, KB)
    ensures FormatBytes(1024 * 1024) == ByteDisplay(1.0, MB)
    ensures FormatBytes(1024 * 1024 * 1024) == ByteDisplay(1.0, GB)
  {
  }

  /**
   * `formatOS`: Linux shows the platform with its first letter upper-cased,
   * the version and the kernel; Darwin shows "MacOS", the version, two
   * spaces and the kernel; any other OS shows the four raw fields.
   */
  function FormatOS(os: string, platform: string, platformVersion: string, kernelVersion: string): (r: string)
    ensures os == "linux" ==>
              r == Text.Capitalize(platform) + " " + platformVersion + " (kernel " + kernelVersion + ")"
    ensures os == "darwin" ==>
              r == "MacOS " + platformVersion + "  (kernel " + kernelVersion + ")"
    ensures os != "linux" && os != "darwin" ==>
              r == os + " " + platform + " " + platformVersion + " " + kernelVersion
  {
    if os == "linux" then
      Text.Capitalize(platform) + " " + platformVersion + " (kernel " + kernelVersion + ")"
    else if os == "darwin" then
      "MacOS" + " " + platformVersion + "  (kernel " + kernelVersion + ")"
    else
      os + " " + platform + " " + platformVersion + " " + kernelVersion
  }

  /** On Linux the platform is kept apart from its first letter, which is upper-cased. */
  lemma FormatOSLinuxPlatform(platform: string, platformVersion: string, kernelVersion: string)
    requires platform != []
    ensures var r := FormatOS("linux", platform, platformVersion, kernelVersion);
            && |r| == |platform| + |platformVersion| + |kernelVersion| + 11
            && r[0] == Text.UpperAscii(platform[0])
            && r[1..|platform|] == platform[1..]
            && r[|platform|] == ' '
  {
    var r := FormatOS("linux", platform, platformVersion, kernelVersion);
    var c := Text.Capitalize(platform);
    assert r[..|platform|] == c;
  }

  /** On Darwin the platform is never shown and the kernel closes the line. */
  lemma FormatOSDarwinKernel(platform: string, platformVersion: string, kernelVersion: string)
    ensures var r := FormatOS("darwin", platform, platformVersion, kernelVersion);
            && r[..6] == "MacOS "
            && r[|r| - |kernelVersion| - 1..] == kernelVersion + ")"
            && |r| == |platformVersion| + |kernelVersion| + 17
  {
  }

  /** The two metric columns of the process table. */
  datatype Column = CpuColumn | MemoryColumn

  /** Columns 2 and 3: memory first exactly when the sort key is "memory". */
  function MetricColumns(sortBy: string): (cols: (Column, Column))
    ensures cols.0 != cols.1
    ensures cols.0 == MemoryColumn <==> sortBy == "memory"
  {
    if sortBy == "memory" then (MemoryColumn, CpuColumn) else (CpuColumn, MemoryColumn)
  }

  function ColumnLabel(c: Column): string {
    match c
    case CpuColumn => "CPU"
    case MemoryColumn => "Memory"
  }

  /** `fixTableHeaders`: the texts of header cells 2 and 3. */
  function HeaderLabels(sortBy: string): (labels: (string, string))
    ensures sortBy == "memory" ==> labels == ("Memory", "CPU")
    ensures sortBy != "memory" ==> labels == ("CPU", "Memory")
  {
    var cols := MetricColumns(sortBy);
    (ColumnLabel(cols.0), ColumnLabel(cols.1))
  }

  /** The cell of one metric column for a process. */
  function MetricCell(c: Column, p: ProcInfo): Cell {
    match c
    case CpuColumn => CpuCell(p.cpu)
    case MemoryColumn => MemoryCell(p.memory)
  }

  /** The column a cell belongs to, if it is a metric cell. */
  function CellColumn(c: Cell): Option<Column> {
    match c
    case CpuCell(_) => Some(CpuColumn)
    case MemoryCell(_) => Some(MemoryColumn)
    case _ => None
  }

  /** One table row: PID, the two metric cells in the key's order, command. */
  function Row(p: ProcInfo, sortBy: string): (row: seq<Cell>)
    ensures |row| == 4 && row[0] == PidCell(p.pid) && row[3] == CommandCell(p.command)
  {
    var cols := MetricColumns(sortBy);
    [PidCell(p.pid), MetricCell(cols.0, p), MetricCell(cols.1, p), CommandCell(p.command)]
  }

  /** The row's metric cells sit under the headers that name them. */
  ghost predicate RowUnderHeaders(row: seq<Cell>, headers: (string, string)) {
    && |row| == 4
    && CellColumn(row[1]).Some? && ColumnLabel(CellColumn(row[1]).value) == headers.0
    && CellColumn(row[2]).Some? && ColumnLabel(CellColumn(row[2]).value) == headers.1
  }

  /**
   * Header labels and row cells agree for every key: "memory" puts the
   * memory cell in column 2 and CPU in column 3, any other key the reverse,
   * and the row still carries both of the process's figures.
   */
  lemma RowMatchesHeaders(p: ProcInfo, sortBy: string)
    ensures RowUnderHeaders(Row(p, sortBy), HeaderLabels(sortBy))
    ensures sortBy == "memory" ==> Row(p, sortBy)[1] == MemoryCell(p.memory) && Row(p, sortBy)[2] == CpuCell(p.cpu)
    ensures sortBy != "memory" ==> Row(p, sortBy)[1] == CpuCell(p.cpu) && Row(p, sortBy)[2] == MemoryCell(p.memory)
  {
  }
}
