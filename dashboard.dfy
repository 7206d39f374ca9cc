/**
 * The display state of the dashboard page (static/assets/main.js): the sort
 * key and its stored copy, the loading flag, the visibility of the loading
 * and data table bodies, the header labels, the three charts, the table rows
 * and the summary readouts. The browser's DOM, Chart.js and localStorage are
 * this state; a poll's response arrives as a value.
 */
module Dashboard {
  import opened Wrappers
  import opened Records
  import Format
  import Metrics

  /** A line chart's label and value arrays. A label is the sample's Unix second. */
  datatype Chart<V> = Chart(labels: seq<int>, values: seq<V>)

  /** The readouts taken from one sample. */
  datatype Summary = Summary(
    cpuPercent: real,
    load: LoadAvg,
    memUsed: Format.ByteDisplay,
    memTotal: Format.ByteDisplay,
    diskUsed: Format.ByteDisplay,
    diskTotal: Format.ByteDisplay)

  /**
   * What one poll of /metrics hands to the page: a failure (a non-2xx
   * status, a network error or a body that is not JSON) or a decoded body.
   */
  datatype Fetched = FetchFailed | Received(body: MetricsResponse)

  /** Everything the page shows or keeps, as one value. */
  datatype View = View(
    sortBy: string,
    stored: Option<string>,
    isLoadingProcs: bool,
    loadingHidden: bool,
    dataHidden: bool,
    headers: (string, string),
    cpuChart: Chart<real>,
    memChart: Chart<real>,
    loadChart: Chart<real>,
    rows: seq<seq<Cell>>,
    summary: Option<Summary>)

  /** The sort key on page load: the stored one unless it is missing or empty (both falsy), else "cpu". */
  function InitialSortBy(stored: Option<string>): (s: string)
    ensures stored.Some? && stored.value != "" ==> s == stored.value
    ensures stored.None? || stored.value == "" ==> s == "cpu"
  {
    if stored.Some? && stored.value != "" then stored.value else "cpu"
  }

  /** The page right after load: empty charts and table, the loading flag set, headers fixed. */
  function Initial(stored: Option<string>, loadingHidden: bool, dataHidden: bool): View {
    var sortBy := InitialSortBy(stored);
    View(sortBy, stored, true, loadingHidden, dataHidden, Format.HeaderLabels(sortBy),
         Chart([], []), Chart([], []), Chart([], []), [], None)
  }

  /** The query the poll sends: the current key as `sortProcessesBy`. */
  function Query(v: View): Option<string> {
    Some(v.sortBy)
  }

  /** The sort-select handler: store the key, raise the flag, empty the table, show the placeholder. */
  function SortChanged(v: View, value: string): View {
    v.(sortBy := value, stored := Some(value), isLoadingProcs := true, rows := [],
       loadingHidden := false, dataHidden := true, headers := Format.HeaderLabels(value))
  }

  /** A response the page applies: its samples are an array with at least one element. */
  predicate Usable(r: Fetched) {
    r.Received? && r.body.dataPoints.Some? && |r.body.dataPoints.value| > 0
  }

  function Labels(ps: seq<DataPoint>): seq<int> {
    seq(|ps|, i requires 0 <= i < |ps| => ps[i].timestamp)
  }

  function CpuValues(ps: seq<DataPoint>): seq<real> {
    seq(|ps|, i requires 0 <= i < |ps| => ps[i].cpuPercent)
  }

  function MemValues(ps: seq<DataPoint>): seq<real> {
    seq(|ps|, i requires 0 <= i < |ps| => ps[i].memPercent)
  }

  function Load1Values(ps: seq<DataPoint>): seq<real> {
    seq(|ps|, i requires 0 <= i < |ps| => ps[i].loadAvg.load1)
  }

  function SummaryOf(p: DataPoint): Summary {
    Summary(p.cpuPercent, p.loadAvg, Format.FormatBytes(p.memUsed), Format.FormatBytes(p.memTotal),
            Format.FormatBytes(p.diskUsed), Format.FormatBytes(p.diskTotal))
  }

  /** One row per process, in the order given, columns as `sortBy` orders them. */
  function Rows(procs: seq<ProcInfo>, sortBy: string): seq<seq<Cell>> {
    seq(|procs|, i requires 0 <= i < |procs| => Format.Row(procs[i], sortBy))
  }

  /**
   * The apply part of `fetchAndUpdate`. An unusable response changes
   * nothing. Otherwise the charts, the table (cleared) and the readouts are
   * set; a `null` process list then throws inside `forEach`, which the
   * `catch` swallows, so the rows stay empty and the flag stays as it was.
   */
  function Applied(v: View, r: Fetched): View {
    if !Usable(r) then v
    else
      var ps := r.body.dataPoints.value;
      var drawn := v.(cpuChart := Chart(Labels(ps), CpuValues(ps)),
                      memChart := Chart(Labels(ps), MemValues(ps)),
                      loadChart := Chart(Labels(ps), Load1Values(ps)),
                      rows := [],
                      summary := Some(SummaryOf(ps[|ps| - 1])));
      match r.body.topProcesses
      case None => drawn
      case Some(procs) =>
        var filled := drawn.(rows := Rows(procs, v.sortBy));
        if v.isLoadingProcs then filled.(loadingHidden := true, dataHidden := false, isLoadingProcs := false)
        else filled
  }

  /**
   * What the page keeps true: headers name the current key's columns, each
   * row's metric cells sit under the headers that name them, and once the
   * flag is down the data body shows and the placeholder does not.
   */
  ghost predicate Consistent(v: View) {
    && v.headers == Format.HeaderLabels(v.sortBy)
    && (forall i :: 0 <= i < |v.rows| ==> Format.RowUnderHeaders(v.rows[i], v.headers))
    && (!v.isLoadingProcs ==> v.loadingHidden && !v.dataHidden)
  }

  class Page {
    var sortBy: string
    var stored: Option<string>
    var isLoadingProcs: bool
    var loadingHidden: bool
    var dataHidden: bool
    var headers: (string, string)
    var cpuChart: Chart<real>
    var memChart: Chart<real>
    var loadChart: Chart<real>
    var rows: seq<seq<Cell>>
    var summary: Option<Summary>

    function State(): View
      reads this
    {
      View(sortBy, stored, isLoadingProcs, loadingHidden, dataHidden, headers,
           cpuChart, memChart, loadChart, rows, summary)
    }

    /** Page load: the key from storage, the flag raised, headers fixed; visibility as the markup sets it. */
    constructor(storedKey: Option<string>, loadingHidden0: bool, dataHidden0: bool)
      ensures State() == Initial(storedKey, loadingHidden0, dataHidden0)
      ensures Consistent(State())
    {
      sortBy := if storedKey.Some? && storedKey.value != "" then storedKey.value else "cpu";
      stored := storedKey;
      isLoadingProcs := true;
      loadingHidden := loadingHidden0;
      dataHidden := dataHidden0;
      cpuChart := Chart([], []);
      memChart := Chart([], []);
      loadChart := Chart([], []);
      rows := [];
      summary := None;
      new;
      FixTableHeaders();
    }

    /** `fixTableHeaders`: relabel header cells 2 and 3 for the current key. */
    method FixTableHeaders()
      modifies this
      ensures State() == old(State()).(headers := Format.HeaderLabels(sortBy))
    {
      if sortBy == "memory" {
        headers := ("Memory", "CPU");
      } else {
        headers := ("CPU", "Memory");
      }
    }

    /** The change handler of the sort select. */
    method OnSortChange(value: string)
      modifies this
      ensures State() == SortChanged(old(State()), value)
    {
      sortBy := value;
      stored := Some(value);
      isLoadingProcs := true;
      rows := [];
      loadingHidden := false;
      dataHidden := true;
      FixTableHeaders();
    }

    /** One poll's response applied to the page. */
    method Apply(r: Fetched)
      modifies this
      ensures State() == Applied(old(State()), r)
    {
      if r.FetchFailed? || r.body.dataPoints.None? || |r.body.dataPoints.value| == 0 {
        return;
      }
      var ps := r.body.dataPoints.value;
      cpuChart := Chart(Labels(ps), CpuValues(ps));
      memChart := Chart(Labels(ps), MemValues(ps));
      loadChart := Chart(Labels(ps), Load1Values(ps));
      rows := [];
      summary := Some(SummaryOf(ps[|ps| - 1]));
      if r.body.topProcesses.None? {
        return;
      }
      var procs := r.body.topProcesses.value;
      var key := sortBy;
      var built: seq<seq<Cell>> := [];
      for i := 0 to |procs|
        invariant |built| == i
        invariant forall k :: 0 <= k < i ==> built[k] == Format.Row(procs[k], key)
      {
        built := built + [Format.Row(procs[i], key)];
      }
      rows := built;
      if isLoadingProcs {
        loadingHidden := true;
        dataHidden := false;
        isLoadingProcs := false;
      }
    }
  }

  /** The stored key survives a reload unless it was empty. */
  lemma StoredKeyReloads(v: View, value: string, loadingHidden: bool, dataHidden: bool)
    ensures var w := Initial(SortChanged(v, value).stored, loadingHidden, dataHidden);
            && (value != "" ==> w.sortBy == value)
            && (value == "" ==> w.sortBy == "cpu")
            && w.headers == Format.HeaderLabels(w.sortBy)
  {
  }

  /** A response without a non-empty sample array leaves the page exactly as it was, and a usable one draws. */
  lemma UnusableIsNoOp(v: View, r: Fetched)
    ensures !Usable(r) ==> Applied(v, r) == v
    ensures Usable(r) ==> Applied(v, r).summary.Some? && |Applied(v, r).cpuChart.labels| > 0
  {
  }

  /** Each chart gets one label and one value per sample, index-aligned. */
  lemma ChartsAligned(v: View, r: Fetched)
    requires Usable(r)
    ensures var ps := r.body.dataPoints.value;
            var w := Applied(v, r);
            && |w.cpuChart.labels| == |w.cpuChart.values| == |ps|
            && |w.memChart.labels| == |w.memChart.values| == |ps|
            && |w.loadChart.labels| == |w.loadChart.values| == |ps|
            && forall i :: 0 <= i < |ps| ==>
                 && w.cpuChart.labels[i] == w.memChart.labels[i] == w.loadChart.labels[i] == ps[i].timestamp
                 && w.cpuChart.values[i] == ps[i].cpuPercent
                 && w.memChart.values[i] == ps[i].memPercent
                 && w.loadChart.values[i] == ps[i].loadAvg.load1
  {
  }

  /**
   * The table gets exactly one row per listed process, in server order:
   * row i carries process i's PID, CPU, memory and command, the two figures
   * under the headers that name them.
   */
  lemma RowsInServerOrder(v: View, r: Fetched)
    requires Usable(r) && r.body.topProcesses.Some?
    requires Consistent(v)
    ensures var procs := r.body.topProcesses.value;
            var w := Applied(v, r);
            && |w.rows| == |procs|
            && forall i :: 0 <= i < |procs| ==>
                 && w.rows[i][0] == PidCell(procs[i].pid)
                 && w.rows[i][3] == CommandCell(procs[i].command)
                 && multiset{w.rows[i][1], w.rows[i][2]} == multiset{CpuCell(procs[i].cpu), MemoryCell(procs[i].memory)}
                 && Format.RowUnderHeaders(w.rows[i], w.headers)
  {
    var procs := r.body.topProcesses.value;
    var w := Applied(v, r);
    forall i | 0 <= i < |procs|
      ensures multiset{w.rows[i][1], w.rows[i][2]} == multiset{CpuCell(procs[i].cpu), MemoryCell(procs[i].memory)}
      ensures Format.RowUnderHeaders(w.rows[i], w.headers)
    {
      Format.RowMatchesHeaders(procs[i], v.sortBy);
    }
  }

  /** The readouts come from the last sample alone: responses ending in the same sample give the same readouts. */
  lemma SummaryFromLastSample(v: View, r1: Fetched, r2: Fetched)
    requires Usable(r1) && Usable(r2)
    requires var a := r1.body.dataPoints.value; var b := r2.body.dataPoints.value; a[|a| - 1] == b[|b| - 1]
    ensures var a := r1.body.dataPoints.value;
            && Applied(v, r1).summary == Applied(v, r2).summary
            && Applied(v, r1).summary.value.cpuPercent == a[|a| - 1].cpuPercent
            && Applied(v, r1).summary.value.memUsed == Format.FormatBytes(a[|a| - 1].memUsed)
  {
  }

  /**
   * A `null` process list: charts and readouts are drawn, the table is left
   * empty and the loading flag and visibility do not move.
   */
  lemma NullProcessesKeepLoading(v: View, r: Fetched)
    requires Usable(r) && r.body.topProcesses.None?
    ensures var w := Applied(v, r);
            && w.rows == []
            && w.isLoadingProcs == v.isLoadingProcs
            && w.loadingHidden == v.loadingHidden && w.dataHidden == v.dataHidden
            && w.summary.Some?
  {
  }

  /**
   * A sort change empties the table and shows the placeholder; the next
   * response with a process list hides it, shows the data and lowers the
   * flag; any later response leaves the visibility alone.
   */
  lemma SortChangeThenPolls(v: View, value: string, r1: Fetched, r2: Fetched)
    requires Usable(r1) && r1.body.topProcesses.Some?
    ensures var v1 := SortChanged(v, value);
            && v1.isLoadingProcs && !v1.loadingHidden && v1.dataHidden && v1.rows == []
            && v1.headers == Format.HeaderLabels(value) && v1.stored == Some(value)
    ensures var v2 := Applied(SortChanged(v, value), r1);
            && v2.loadingHidden && !v2.dataHidden && !v2.isLoadingProcs
    ensures var v2 := Applied(SortChanged(v, value), r1);
            var v3 := Applied(v2, r2);
            && v3.loadingHidden == v2.loadingHidden && v3.dataHidden == v2.dataHidden
            && !v3.isLoadingProcs
  {
  }

  /**
   * Responses are applied in the order they arrive, whatever order they
   * were issued in: after A is applied, the charts, rows and readouts are
   * A's, whether or not another response B was applied just before it.
   */
  lemma LastAppliedWins(v: View, earlier: Fetched, last: Fetched)
    requires Usable(last)
    ensures var a := Applied(v, last);
            var b := Applied(Applied(v, earlier), last);
            && b.cpuChart == a.cpuChart && b.memChart == a.memChart && b.loadChart == a.loadChart
            && b.rows == a.rows && b.summary == a.summary
    ensures Consistent(v) && last.body.topProcesses.Some? ==>
              var b := Applied(Applied(v, earlier), last);
              b.loadingHidden && !b.dataHidden && !b.isLoadingProcs
  {
    var w := Applied(v, earlier);
    assert w.sortBy == v.sortBy;
    DrawnIgnoresPage(v, w, last);
    if Consistent(v) && last.body.topProcesses.Some? {
      ConsistentPreserved(v, v.sortBy, earlier, v.stored, v.loadingHidden, v.dataHidden);
    }
  }

  /** What a usable response draws depends on the page only through its sort key. */
  lemma DrawnIgnoresPage(v: View, w: View, last: Fetched)
    requires Usable(last) && w.sortBy == v.sortBy
    ensures var a := Applied(v, last);
            var b := Applied(w, last);
            && b.cpuChart == a.cpuChart && b.memChart == a.memChart && b.loadChart == a.loadChart
            && b.rows == a.rows && b.summary == a.summary
  {
    var ps := last.body.dataPoints.value;
    var a := Applied(v, last);
    var b := Applied(w, last);
    assert a.cpuChart == b.cpuChart == Chart(Labels(ps), CpuValues(ps));
    assert a.memChart == b.memChart == Chart(Labels(ps), MemValues(ps));
    assert a.loadChart == b.loadChart == Chart(Labels(ps), Load1Values(ps));
    assert a.summary == b.summary == Some(SummaryOf(ps[|ps| - 1]));
    if last.body.topProcesses.None? {
      assert a.rows == b.rows == [];
    } else {
      var procs := last.body.topProcesses.value;
      assert a.rows == b.rows == Rows(procs, v.sortBy);
    }
  }

  /** Loading, sort changes and applied responses all keep the page consistent. */
  lemma {:induction false} ConsistentPreserved(v: View, value: string, r: Fetched, stored: Option<string>, lh: bool, dh: bool)
    ensures Consistent(Initial(stored, lh, dh))
    ensures Consistent(v) ==> Consistent(SortChanged(v, value))
    ensures Consistent(v) ==> Consistent(Applied(v, r))
  {
    if Consistent(v) && Usable(r) && r.body.topProcesses.Some? {
      RowsInServerOrder(v, r);
    }
  }

  /** How a handler outcome reaches the page: only a 200 carries a body. */
  function Deliver(h: Metrics.HandlerResult): Fetched {
    match h
    case Ok(body) => Received(body)
    case _ => FetchFailed
  }

  /**
   * A key the server refuses (anything but "cpu" or "memory", which a stored
   * value can be) freezes the page after a sort change: every poll is
   * answered 400, so the table stays empty behind the placeholder.
   */
  lemma RefusedKeyFreezesTable(v: View, value: string, bucket: Option<seq<Metrics.Entry>>, historyLimit: int,
                               procs: Option<seq<ProcRead>>, procLimit: int)
    requires value != "cpu" && value != "memory"
    ensures var v1 := SortChanged(v, value);
            var w := Applied(v1, Deliver(Metrics.HandlerSpec(Query(v1), bucket, historyLimit, procs, procLimit)));
            && w == v1 && w.rows == [] && !w.loadingHidden && w.dataHidden
  {
  }
}
