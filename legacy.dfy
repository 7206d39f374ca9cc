/**
 * The earlier page script (static/js/main.js): /metrics answered with a
 * bare array of samples, each carrying its own process list; the charts are
 * redrawn from the array and the table from the last sample's processes,
 * always in the column order PID, CPU, memory, command.
 */
module LegacyDashboard {
  import opened Wrappers
  import opened Records
  import Format

  /** A sample as that server sent it: the process list rides on each sample. */
  datatype LegacyPoint = LegacyPoint(
    timestamp: int,
    cpuPercent: real,
    memPercent: real,
    loadAvg: LoadAvg,
    topProcesses: Option<seq<ProcInfo>>)

  /** A poll's outcome: failed, or a JSON body that is an array of samples (Some) or not (None). */
  datatype LegacyFetched = LegacyFailed | LegacyReceived(points: Option<seq<LegacyPoint>>)

  /** The three charts and the table. The load chart holds whole load-average triples. */
  datatype LegacyView = LegacyView(
    cpuLabels: seq<int>, cpuValues: seq<real>,
    memLabels: seq<int>, memValues: seq<real>,
    loadLabels: seq<int>, loadValues: seq<LoadAvg>,
    rows: seq<seq<Cell>>)

  predicate Usable(r: LegacyFetched) {
    r.LegacyReceived? && r.points.Some? && |r.points.value| > 0
  }

  function Labels(ps: seq<LegacyPoint>): seq<int> {
    seq(|ps|, i requires 0 <= i < |ps| => ps[i].timestamp)
  }

  /** The fixed row: PID, CPU, memory, command. */
  function LegacyRow(p: ProcInfo): seq<Cell> {
    [PidCell(p.pid), CpuCell(p.cpu), MemoryCell(p.memory), CommandCell(p.command)]
  }

  /**
   * The apply part of `fetchAndUpdate`: nothing for an unusable body;
   * otherwise the charts, a cleared table, and one row per process of the
   * last sample. A `null` list throws after the clear, leaving it empty.
   */
  function Applied(v: LegacyView, r: LegacyFetched): LegacyView {
    if !Usable(r) then v
    else
      var ps := r.points.value;
      var last := ps[|ps| - 1];
      LegacyView(
        Labels(ps), seq(|ps|, i requires 0 <= i < |ps| => ps[i].cpuPercent),
        Labels(ps), seq(|ps|, i requires 0 <= i < |ps| => ps[i].memPercent),
        Labels(ps), seq(|ps|, i requires 0 <= i < |ps| => ps[i].loadAvg),
        if last.topProcesses.None? then []
        else seq(|last.topProcesses.value|, i requires 0 <= i < |last.topProcesses.value| => LegacyRow(last.topProcesses.value[i])))
  }

  class LegacyPage {
    var cpuLabels: seq<int>
    var cpuValues: seq<real>
    var memLabels: seq<int>
    var memValues: seq<real>
    var loadLabels: seq<int>
    var loadValues: seq<LoadAvg>
    var rows: seq<seq<Cell>>

    function State(): LegacyView
      reads this
    {
      LegacyView(cpuLabels, cpuValues, memLabels, memValues, loadLabels, loadValues, rows)
    }

    /** The page after load: empty charts and table. */
    constructor()
      ensures State() == LegacyView([], [], [], [], [], [], [])
    {
      cpuLabels, cpuValues := [], [];
      memLabels, memValues := [], [];
      loadLabels, loadValues := [], [];
      rows := [];
    }

    /** One poll's response applied to the page. */
    method Apply(r: LegacyFetched)
      modifies this
      ensures State() == Applied(old(State()), r)
    {
      if r.LegacyFailed? || r.points.None? || |r.points.value| == 0 {
        return;
      }
      var ps := r.points.value;
      cpuLabels := Labels(ps);
      cpuValues := seq(|ps|, i requires 0 <= i < |ps| => ps[i].cpuPercent);
      memLabels := Labels(ps);
      memValues := seq(|ps|, i requires 0 <= i < |ps| => ps[i].memPercent);
      loadLabels := Labels(ps);
      loadValues := seq(|ps|, i requires 0 <= i < |ps| => ps[i].loadAvg);
      rows := [];
      var last := ps[|ps| - 1];
      if last.topProcesses.None? {
        return;
      }
      var procs := last.topProcesses.value;
      var built: seq<seq<Cell>> := [];
      for i := 0 to |procs|
        invariant |built| == i
        invariant forall k :: 0 <= k < i ==> built[k] == LegacyRow(procs[k])
      {
        built := built + [LegacyRow(procs[i])];
      }
      rows := built;
    }
  }

  /** An unusable body leaves the page as it was; a usable one redraws every chart. */
  lemma UnusableIsNoOp(v: LegacyView, r: LegacyFetched)
    ensures !Usable(r) ==> Applied(v, r) == v
    ensures Usable(r) ==> |Applied(v, r).cpuLabels| == |r.points.value| > 0
  {
  }

  /** Each chart gets one label and one value per sample, index-aligned; the load chart the whole triple. */
  lemma ChartsAligned(v: LegacyView, r: LegacyFetched)
    requires Usable(r)
    ensures var ps := r.points.value;
            var w := Applied(v, r);
            && |w.cpuLabels| == |w.cpuValues| == |w.memLabels| == |w.memValues| == |ps|
            && |w.loadLabels| == |w.loadValues| == |ps|
            && forall i :: 0 <= i < |ps| ==>
                 && w.cpuLabels[i] == w.memLabels[i] == w.loadLabels[i] == ps[i].timestamp
                 && w.cpuValues[i] == ps[i].cpuPercent
                 && w.memValues[i] == ps[i].memPercent
                 && w.loadValues[i] == ps[i].loadAvg
  {
  }

  /**
   * The table holds exactly one row per process of the last sample, in
   * order, PID, CPU, memory and command; earlier samples' lists play no part.
   */
  lemma RowsFromLastSample(v: LegacyView, r: LegacyFetched)
    requires Usable(r)
    ensures var ps := r.points.value;
            var last := ps[|ps| - 1];
            var w := Applied(v, r);
            && (last.topProcesses.None? ==> w.rows == [])
            && (last.topProcesses.Some? ==>
                  && |w.rows| == |last.topProcesses.value|
                  && forall i :: 0 <= i < |w.rows| ==>
                       var p := last.topProcesses.value[i];
                       w.rows[i] == [PidCell(p.pid), CpuCell(p.cpu), MemoryCell(p.memory), CommandCell(p.command)])
    ensures forall r2: LegacyFetched :: Usable(r2) && r2.points.value[|r2.points.value| - 1] == r.points.value[|r.points.value| - 1]
              ==> Applied(v, r2).rows == Applied(v, r).rows
  {
  }

  /** The fixed order is the newer page's order for any key but "memory". */
  lemma LegacyOrderIsCpuOrder(p: ProcInfo, sortBy: string)
    requires sortBy != "memory"
    ensures LegacyRow(p) == Format.Row(p, sortBy)
    ensures Format.RowUnderHeaders(LegacyRow(p), ("CPU", "Memory"))
  {
  }
}
