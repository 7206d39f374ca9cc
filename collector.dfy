/**
 * One tick of the sampling loop `Run` in internal/collector/collector.go,
 * with every library read (CPU, memory, disk, load, process list, per-process
 * reads, hostname) given as an input and the store as a map from key to record.
 */
module Collector {
  import opened Wrappers
  import opened Records
  import opened Keys
  import Sorting

  /** The host-wide reads of one tick, each None when the library call fails. */
  datatype HostReads = HostReads(
    cpuPercents: Option<seq<real>>,
    vm: Option<MemStat>,
    disk: Option<DiskStat>,
    load: Option<LoadAvg>,
    processes: Option<seq<ProcRead>>,
    hostname: Option<string>)

  /** The JSON record a tick stores: the sample, the hostname and ten process slots. */
  datatype Record = Record(hostname: string, point: DataPoint, topProcesses: seq<ProcInfo>)

  datatype TickOutcome = Skipped | Written(key: seq<Byte>, record: Record)

  /** The store: one record per key. */
  type Store = map<seq<Byte>, Record>

  const TopCount: nat := 10

  /** The zero value of a process slot. */
  const ZeroSlot: ProcInfo := ProcInfo(0, 0.0, 0, "")

  /** The key the tick sorts processes by: the process's CPU read. */
  function CpuKey(p: ProcRead): Option<real> {
    p.cpu
  }

  /** The slot a process fills: its reads when all three succeed, the zero value otherwise. */
  function Slot(p: ProcRead): (s: ProcInfo)
    ensures p.cpu.Some? && p.rss.Some? && p.name.Some? ==>
              s.pid == p.pid && s.cpu == p.cpu.value && s.memory == p.rss.value && s.command == p.name.value
    ensures p.cpu.None? || p.rss.None? || p.name.None? ==> s == ZeroSlot
  {
    if p.cpu.Some? && p.rss.Some? && p.name.Some?
    then ProcInfo(p.pid, p.cpu.value, p.rss.value, p.name.value)
    else ZeroSlot
  }

  /**
   * `topProcesses[:10]` as written. Go bounds a slice expression by the
   * slice's capacity, not its length: below ten the slice panics; otherwise
   * it yields ten handles, those past the length being nil (None).
   */
  datatype TopSlice = SliceOutOfRange | TopSlice(handles: seq<Option<ProcRead>>)

  function TopTenAsWritten(sorted: seq<ProcRead>, capacity: nat): (r: TopSlice)
    requires |sorted| <= capacity
    ensures r.SliceOutOfRange? <==> capacity < TopCount
    ensures r.TopSlice? ==>
              && |r.handles| == TopCount
              && (forall i :: 0 <= i < |sorted| && i < TopCount ==> r.handles[i] == Some(sorted[i]))
              && (forall i :: |sorted| <= i < TopCount ==> r.handles[i].None?)
  {
    if capacity < TopCount then SliceOutOfRange
    else TopSlice(seq(TopCount, i requires 0 <= i < TopCount => if i < |sorted| then Some(sorted[i]) else None))
  }

  /** How the rest of a tick goes as written, after the slice. */
  datatype TailOutcome = TailPanics | HostnameSkipped | Filled(slots: seq<ProcInfo>)

  /**
   * The slice, the hostname read, then the slot loop, whose first call on a
   * nil handle panics.
   */
  function TickTailAsWritten(sorted: seq<ProcRead>, capacity: nat, hostname: Option<string>): TailOutcome
    requires |sorted| <= capacity
  {
    match TopTenAsWritten(sorted, capacity)
    case SliceOutOfRange => TailPanics
    case TopSlice(handles) =>
      if hostname.None? then HostnameSkipped
      else if exists i :: 0 <= i < |handles| && handles[i].None? then TailPanics
      else Filled(seq(|handles|, i requires 0 <= i < |handles| => Slot(handles[i].value)))
  }

  /**
   * As written, a host with fewer than ten processes panics the tick, and
   * with it the whole server: at the slice when the capacity is below ten,
   * otherwise in the slot loop, unless the hostname read fails first. With
   * ten or more processes the tick fills the slots the corrected slice does.
   */
  lemma {:induction false} TopTenAsWrittenPanics(procs: seq<ProcRead>, capacity: nat, hostname: Option<string>)
    requires |procs| <= capacity
    ensures |Sorting.SortDesc(CpuKey, procs)| == |procs|
    ensures var out := TickTailAsWritten(Sorting.SortDesc(CpuKey, procs), capacity, hostname);
            && (out.TailPanics? <==> capacity < TopCount || (|procs| < TopCount && hostname.Some?))
            && (out.HostnameSkipped? <==> capacity >= TopCount && hostname.None?)
            && (out.Filled? ==>
                  var top := TopTen(Sorting.SortDesc(CpuKey, procs));
                  |out.slots| == |top| && forall i :: 0 <= i < |top| ==> out.slots[i] == Slot(top[i]))
  {
    var sorted := Sorting.SortDesc(CpuKey, procs);
    assert |sorted| == |procs| by {
      assert |multiset(sorted)| == |multiset(procs)|;
    }
    var r := TopTenAsWritten(sorted, capacity);
    if r.TopSlice? && hostname.Some? && |procs| < TopCount {
      assert r.handles[|procs|].None?;
    }
  }

  /** The busiest processes, at most ten of them. */
  function TopTen(sorted: seq<ProcRead>): (r: seq<ProcRead>)
    ensures |r| == Min(|sorted|, TopCount)
    ensures r == sorted[..|r|]
  {
    if |sorted| < TopCount then sorted else sorted[..TopCount]
  }

  /** When every CPU read succeeds, the kept processes are sorted and none dropped is busier. */
  lemma TopTenChoosesBusiest(procs: seq<ProcRead>)
    requires Sorting.AllKeyed(CpuKey, procs)
    ensures var sorted := Sorting.SortDesc(CpuKey, procs);
            var top := TopTen(sorted);
            && |top| == Min(|procs|, TopCount)
            && multiset(top) + multiset(sorted[|top|..]) == multiset(procs)
            && Sorting.Sorted(CpuKey, top)
            && forall a, b :: a in top && b in sorted[|top|..] ==> a.cpu.Some? && b.cpu.Some? && b.cpu.value <= a.cpu.value
  {
    var sorted := Sorting.SortDesc(CpuKey, procs);
    assert |sorted| == |procs| by {
      assert |multiset(sorted)| == |multiset(procs)|;
    }
    Sorting.SortDescSorted(CpuKey, procs);
    var top := TopTen(sorted);
    assert sorted == top + sorted[|top|..];
    Sorting.PrefixDominates(CpuKey, sorted, |top|);
    assert Sorting.Sorted(CpuKey, top) by {
      forall i, j | 0 <= i < j < |top| ensures !Sorting.Before(CpuKey, top[j], top[i]) {
        assert top[i] == sorted[i] && top[j] == sorted[j];
      }
    }
  }

  /** One tick: read, rank, fill ten slots, build the record and its key. */
  method Tick(host: HostReads, now: Int64) returns (outcome: TickOutcome)
    ensures outcome.Skipped? <==>
              || host.cpuPercents.None? || |host.cpuPercents.value| == 0
              || host.vm.None? || host.disk.None? || host.load.None?
              || host.processes.None? || host.hostname.None?
    ensures outcome.Written? ==>
              var top := TopTen(Sorting.SortDesc(CpuKey, host.processes.value));
              && outcome.key == Encode(now)
              && outcome.record.hostname == host.hostname.value
              && outcome.record.point == DataPoint(
                   now, host.cpuPercents.value[0],
                   host.vm.value.total, host.vm.value.used,
                   host.disk.value.total, host.disk.value.used,
                   host.load.value, host.vm.value.usedPercent, host.disk.value.usedPercent)
              && |outcome.record.topProcesses| == |top|
              && forall i :: 0 <= i < |top| ==> outcome.record.topProcesses[i] == Slot(top[i])
  {
    if host.cpuPercents.None? || |host.cpuPercents.value| == 0 {
      return Skipped;
    }
    if host.vm.None? {
      return Skipped;
    }
    if host.disk.None? {
      return Skipped;
    }
    if host.load.None? {
      return Skipped;
    }
    if host.processes.None? {
      return Skipped;
    }
    var top := TopTen(Sorting.SortDesc(CpuKey, host.processes.value));
    if host.hostname.None? {
      return Skipped;
    }
    var slots := new ProcInfo[|top|](_ => ZeroSlot);
    for i := 0 to |top|
      invariant forall k :: 0 <= k < i ==> slots[k] == Slot(top[k])
      invariant forall k :: i <= k < |top| ==> slots[k] == ZeroSlot
    {
      var p := top[i];
      if p.cpu.None? {
        continue;
      }
      if p.rss.None? {
        continue;
      }
      if p.name.None? {
        continue;
      }
      slots[i] := ProcInfo(p.pid, p.cpu.value, p.rss.value, p.name.value);
    }
    var vm, disk := host.vm.value, host.disk.value;
    var point := DataPoint(
      now, host.cpuPercents.value[0], vm.total, vm.used, disk.total, disk.used,
      host.load.value, vm.usedPercent, disk.usedPercent);
    var key := Itob(now);
    outcome := Written(key[..], Record(host.hostname.value, point, slots[..]));
  }

  /** `b.Put(itob(now.Unix()), record)`: a skipped tick writes nothing. */
  function Put(store: Store, outcome: TickOutcome): (s: Store)
    ensures outcome.Skipped? ==> s == store
    ensures outcome.Written? ==> outcome.key in s && s[outcome.key] == outcome.record
    ensures outcome.Written? ==> forall k :: k in store && k != outcome.key ==> k in s && s[k] == store[k]
  {
    match outcome
    case Skipped => store
    case Written(key, record) => store[key := record]
  }

  /** Ticks in different seconds write different keys, so neither overwrites the other. */
  lemma DistinctSecondsDistinctKeys(a: Int64, b: Int64)
    requires a != b
    ensures Encode(a) != Encode(b)
  {
    ItobRoundTrip(a);
    ItobRoundTrip(b);
  }

  /** Two records written in the same second share a key: only the later one survives. */
  lemma SameSecondOverwrites(store: Store, now: Int64, first: Record, second: Record)
    ensures var s := Put(Put(store, Written(Encode(now), first)), Written(Encode(now), second));
            s[Encode(now)] == second && |s.Keys| == |(store[Encode(now) := second]).Keys|
  {
    assert Put(Put(store, Written(Encode(now), first)), Written(Encode(now), second))
        == store[Encode(now) := second];
  }
}
