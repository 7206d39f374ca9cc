/**
 * The /metrics handler of internal/metrics/metrics.go: process ranking
 * (`GetTopProcesses`) and the history window read back from the store.
 * The store's bucket is the sequence of its entries in key order, which is
 * what a bbolt cursor walks; the process library's reads are inputs.
 */
module Metrics {
  import opened Wrappers
  import opened Records
  import opened Keys
  import Sorting

  /** A stored value as `json.Unmarshal` into a DataPoint sees it. */
  datatype Blob = Decoded(point: DataPoint) | Malformed

  datatype Entry = Entry(key: seq<Byte>, value: Blob)

  /**
   * What `GetTopProcesses` ends in: the process list failed to read, the
   * `[:limit]` slice panicked on a negative limit, or the ranked entries,
   * None standing for a nil slice (JSON `null`).
   */
  datatype TopResult = ListFailed | LimitPanic | Top(infos: Option<seq<ProcInfo>>)

  /** The response status and body: 400, 500, a recovered panic (500), or 200. */
  datatype HandlerResult = BadRequest | InternalError | Panicked | Ok(response: MetricsResponse)

  /** The value processes are ranked by: memory for "memory", CPU for anything else. */
  function RankValue(p: ProcInfo, sortBy: string): real {
    if sortBy == "memory" then p.memory as real else p.cpu
  }

  function RankKey(sortBy: string): ProcInfo -> Option<real> {
    p => Some(RankValue(p, sortBy))
  }

  /**
   * The entry a process contributes. With "cpu" a failed CPU read drops the
   * process and a failed memory read counts as RSS 0; with any other key a
   * failed memory read drops it and a failed CPU read counts as 0. A failed
   * name read gives the empty name.
   */
  function Admit(p: ProcRead, sortBy: string): (r: Option<ProcInfo>)
    ensures sortBy == "cpu" ==> (r.None? <==> p.cpu.None?)
    ensures sortBy != "cpu" ==> (r.None? <==> p.rss.None?)
    ensures r.Some? ==> r.value == ProcInfo(p.pid, p.cpu.GetOr(0.0), p.rss.GetOr(0), p.name.GetOr(""))
  {
    if sortBy == "cpu" then
      if p.cpu.None? then None else Some(ProcInfo(p.pid, p.cpu.value, p.rss.GetOr(0), p.name.GetOr("")))
    else
      if p.rss.None? then None else Some(ProcInfo(p.pid, p.cpu.GetOr(0.0), p.rss.value, p.name.GetOr("")))
  }

  /** The entries of the admitted processes, in process order. */
  function Collect(procs: seq<ProcRead>, sortBy: string): (infos: seq<ProcInfo>)
    ensures |infos| <= |procs|
  {
    if procs == [] then []
    else
      var rest := Collect(procs[..|procs| - 1], sortBy);
      match Admit(procs[|procs| - 1], sortBy)
      case None => rest
      case Some(info) => rest + [info]
  }

  lemma {:induction false} CollectMembers(procs: seq<ProcRead>, sortBy: string)
    ensures forall x :: x in Collect(procs, sortBy) <==>
              exists i :: 0 <= i < |procs| && Admit(procs[i], sortBy) == Some(x)
  {
    if procs != [] {
      var init := procs[..|procs| - 1];
      CollectMembers(init, sortBy);
      forall x ensures x in Collect(procs, sortBy) <==>
                       exists i :: 0 <= i < |procs| && Admit(procs[i], sortBy) == Some(x) {
        if x in Collect(init, sortBy) {
          var i :| 0 <= i < |init| && Admit(init[i], sortBy) == Some(x);
          assert procs[i] == init[i];
        }
        if exists i :: 0 <= i < |procs| && Admit(procs[i], sortBy) == Some(x) {
          var i :| 0 <= i < |procs| && Admit(procs[i], sortBy) == Some(x);
          if i < |init| { assert init[i] == procs[i]; }
        }
      }
    }
  }

  /** What `GetTopProcesses(sortBy, limit)` returns for the given process reads. */
  function TopSpec(sortBy: string, procs: Option<seq<ProcRead>>, limit: int): TopResult {
    if procs.None? then ListFailed
    else
      var infos := Collect(procs.value, sortBy);
      var ranked := Sorting.SortDesc(RankKey(sortBy), infos);
      if |ranked| > limit then
        if limit < 0 then LimitPanic else Top(Some(ranked[..limit]))
      else
        Top(if infos == [] then None else Some(ranked))
  }

  /** `GetTopProcesses`: collect, sort in descending rank, truncate to `limit`. */
  method GetTopProcesses(sortBy: string, procs: Option<seq<ProcRead>>, limit: int) returns (result: TopResult)
    ensures result == TopSpec(sortBy, procs, limit)
  {
    if procs.None? {
      return ListFailed;
    }
    var ps := procs.value;
    var infos: seq<ProcInfo> := [];
    for i := 0 to |ps|
      invariant infos == Collect(ps[..i], sortBy)
    {
      assert ps[..i + 1][..i] == ps[..i];
      var p := ps[i];
      var cpuPct: real;
      var rss: nat;
      if sortBy == "cpu" {
        if p.cpu.None? {
          continue;
        }
        cpuPct := p.cpu.value;
        rss := if p.rss.Some? then p.rss.value else 0;
      } else {
        if p.rss.None? {
          continue;
        }
        rss := p.rss.value;
        cpuPct := if p.cpu.Some? then p.cpu.value else 0.0;
      }
      var name := p.name.GetOr("");
      infos := infos + [ProcInfo(p.pid, cpuPct, rss, name)];
    }
    assert ps[..|ps|] == ps;
    var isNil := infos == [];
    infos := Sorting.SortDesc(RankKey(sortBy), infos);
    if |infos| > limit {
      if limit < 0 {
        return LimitPanic;
      }
      infos := infos[..limit];
    }
    result := Top(if isNil then None else Some(infos));
  }

  /**
   * The ranked list holds at most `limit` entries, all taken from the
   * admitted processes, in non-increasing rank, and none left out outranks
   * one kept. It is null exactly when no process was admitted.
   */
  lemma TopRanked(sortBy: string, procs: seq<ProcRead>, limit: int)
    requires 0 <= limit
    ensures TopSpec(sortBy, Some(procs), limit).Top?
    ensures var infos := Collect(procs, sortBy);
            var r := TopSpec(sortBy, Some(procs), limit).infos;
            && (r.None? <==> infos == [])
            && (r.Some? ==>
                  && |r.value| == Min(|infos|, limit)
                  && multiset(r.value) <= multiset(infos)
                  && (forall i, j :: 0 <= i < j < |r.value| ==>
                        RankValue(r.value[j], sortBy) <= RankValue(r.value[i], sortBy))
                  && (forall a, b :: a in r.value && b in multiset(infos) - multiset(r.value) ==>
                        RankValue(b, sortBy) <= RankValue(a, sortBy)))
  {
    var infos := Collect(procs, sortBy);
    var ranked := Sorting.SortDesc(RankKey(sortBy), infos);
    var n := Min(|infos|, limit);
    KeptRanked(sortBy, infos, n);
    var r := TopSpec(sortBy, Some(procs), limit).infos;
    if |ranked| > limit {
      assert r == Some(ranked[..limit]);
    } else {
      assert ranked[..n] == ranked;
      assert r == if infos == [] then None else Some(ranked);
    }
  }

  /** The first `n` of the ranked entries: non-increasing, drawn from the entries, none left out ranking higher. */
  lemma KeptRanked(sortBy: string, infos: seq<ProcInfo>, n: int)
    requires 0 <= n <= |infos|
    ensures |Sorting.SortDesc(RankKey(sortBy), infos)| == |infos|
    ensures var kept := Sorting.SortDesc(RankKey(sortBy), infos)[..n];
            && multiset(kept) <= multiset(infos)
            && (forall i, j :: 0 <= i < j < |kept| ==> RankValue(kept[j], sortBy) <= RankValue(kept[i], sortBy))
            && (forall a, b :: a in kept && b in multiset(infos) - multiset(kept) ==>
                  RankValue(b, sortBy) <= RankValue(a, sortBy))
  {
    var key := RankKey(sortBy);
    var ranked := Sorting.SortDesc(key, infos);
    assert |ranked| == |infos| by {
      assert |multiset(ranked)| == |multiset(infos)|;
    }
    assert Sorting.AllKeyed(key, infos);
    Sorting.SortDescSorted(key, infos);
    var kept := ranked[..n];
    assert ranked == kept + ranked[n..];
    assert multiset(ranked) == multiset(kept) + multiset(ranked[n..]);
    Sorting.PrefixDominates(key, ranked, n);
    forall i, j | 0 <= i < j < |kept| ensures RankValue(kept[j], sortBy) <= RankValue(kept[i], sortBy) {
      assert kept[i] == ranked[i] && kept[j] == ranked[j];
      assert !Sorting.Before(key, ranked[j], ranked[i]);
    }
    forall a, b | a in kept && b in multiset(infos) - multiset(kept)
      ensures RankValue(b, sortBy) <= RankValue(a, sortBy)
    {
      assert b in multiset(ranked[n..]);
      assert b in ranked[n..];
      assert a in ranked[..n];
    }
  }

  /** A negative limit panics on `infos[:limit]`, whatever the processes. */
  lemma NegativeLimitPanics(sortBy: string, procs: seq<ProcRead>, limit: int)
    requires limit < 0
    ensures TopSpec(sortBy, Some(procs), limit) == LimitPanic
  {
    var ranked := Sorting.SortDesc(RankKey(sortBy), Collect(procs, sortBy));
    assert |ranked| >= 0 > limit;
  }

  /** The `sortProcessesBy` query parameter, "cpu" when absent. */
  function SortParam(query: Option<string>): string {
    query.GetOr("cpu")
  }

  /** The newest `historyLimit` entries (all of them if fewer), in key order. */
  function Window(entries: seq<Entry>, historyLimit: int): (w: seq<Entry>)
    ensures |w| == Min(|entries|, if historyLimit < 0 then 0 else historyLimit)
    ensures w == entries[|entries| - |w|..]
  {
    var m := if historyLimit <= 0 then 0 else Min(|entries|, historyLimit);
    entries[|entries| - m..]
  }

  ghost predicate AllDecoded(es: seq<Entry>) {
    forall i :: 0 <= i < |es| ==> es[i].value.Decoded?
  }

  function PointsOf(es: seq<Entry>): (ps: seq<DataPoint>)
    requires AllDecoded(es)
    ensures |ps| == |es|
    ensures forall i :: 0 <= i < |es| ==> es[i].value == Decoded(ps[i])
  {
    seq(|es|, i requires 0 <= i < |es| => es[i].value.point)
  }

  /** The sort keys the handler accepts. */
  predicate KnownSort(sortBy: string) {
    sortBy == "cpu" || sortBy == "memory"
  }

  /** The response of the /metrics handler for one request. */
  ghost function HandlerSpec(query: Option<string>, bucket: Option<seq<Entry>>, historyLimit: int,
                             procs: Option<seq<ProcRead>>, procLimit: int): HandlerResult
  {
    var sortBy := SortParam(query);
    if !KnownSort(sortBy) then BadRequest
    else Served(sortBy, if bucket.None? then [] else bucket.value, historyLimit, procs, procLimit)
  }

  /** The response to a request with an accepted key: never a 400. */
  ghost function Served(sortBy: string, entries: seq<Entry>, historyLimit: int,
                        procs: Option<seq<ProcRead>>, procLimit: int): (r: HandlerResult)
    ensures r != BadRequest
  {
    var window := Window(entries, historyLimit);
    if !AllDecoded(window) then InternalError
    else Respond(PointsOf(window), TopSpec(sortBy, procs, procLimit))
  }

  /** The response once the samples are in hand; no samples encode as `null`. */
  function Respond(points: seq<DataPoint>, top: TopResult): HandlerResult {
    match top
    case ListFailed => InternalError
    case LimitPanic => Panicked
    case Top(infos) => Ok(MetricsResponse(if points == [] then None else Some(points), infos))
  }

  /**
   * The cursor loop of `Handler`: from the last key backwards, decode one
   * sample per entry until `historyLimit` samples are held or the keys run
   * out. None when a value fails to decode (the request then fails with 500).
   * The samples come out newest first.
   */
  method CollectNewest(entries: seq<Entry>, historyLimit: int) returns (r: Option<seq<DataPoint>>)
    ensures var w := Window(entries, historyLimit);
            && (r.None? <==> !AllDecoded(w))
            && (r.Some? ==> |r.value| == |w|)
            && (r.Some? ==> forall m :: 0 <= m < |w| ==> w[|w| - 1 - m].value == Decoded(r.value[m]))
  {
    var points: seq<DataPoint> := [];
    var k := |entries| - 1;
    while k >= 0 && |points| < historyLimit
      invariant -1 <= k < |entries|
      invariant |points| == |entries| - 1 - k
      invariant |points| == 0 || |points| <= historyLimit
      invariant forall m :: 0 <= m < |points| ==> entries[|entries| - 1 - m].value == Decoded(points[m])
    {
      var v := entries[k].value;
      if v.Malformed? {
        MalformedInWindow(entries, historyLimit, k);
        return None;
      }
      points := points + [v.point];
      k := k - 1;
    }
    NewestIsWindow(entries, historyLimit, points);
    r := Some(points);
  }

  /** An undecodable entry among the newest `historyLimit` makes the window undecodable. */
  lemma MalformedInWindow(entries: seq<Entry>, historyLimit: int, k: int)
    requires 0 <= k < |entries| && entries[k].value.Malformed?
    requires |entries| - k <= historyLimit
    ensures !AllDecoded(Window(entries, historyLimit))
  {
    var w := Window(entries, historyLimit);
    assert w[k - (|entries| - |w|)] == entries[k];
  }

  /** Samples decoded from the newest entries backwards, as many as the window holds, are the window reversed. */
  lemma NewestIsWindow(entries: seq<Entry>, historyLimit: int, points: seq<DataPoint>)
    requires |points| == |Window(entries, historyLimit)|
    requires forall m :: 0 <= m < |points| ==> entries[|entries| - 1 - m].value == Decoded(points[m])
    ensures var w := Window(entries, historyLimit);
            && AllDecoded(w)
            && forall m :: 0 <= m < |w| ==> w[|w| - 1 - m].value == Decoded(points[m])
  {
    var w := Window(entries, historyLimit);
    forall m | 0 <= m < |w| ensures w[|w| - 1 - m].value == Decoded(points[m]) {
      assert w[|w| - 1 - m] == entries[|entries| - 1 - m];
    }
    forall i | 0 <= i < |w| ensures w[i].value.Decoded? {
      var m := |w| - 1 - i;
      assert w[i] == entries[|entries| - 1 - m];
      assert entries[|entries| - 1 - m].value == Decoded(points[m]);
    }
  }

  /** The two-pointer swap loop of `Handler`: reverses `points`. */
  method ReverseInPlace(points: seq<DataPoint>) returns (r: seq<DataPoint>)
    ensures |r| == |points|
    ensures forall m :: 0 <= m < |points| ==> r[m] == points[|points| - 1 - m]
  {
    r := points;
    var i, j := 0, |r| - 1;
    while i < j
      invariant 0 <= i <= |r| && j == |r| - 1 - i && |r| == |points|
      invariant forall m :: 0 <= m < i ==> r[m] == points[|r| - 1 - m]
      invariant forall m :: 0 <= m < i ==> r[|r| - 1 - m] == points[m]
      invariant forall m :: i <= m <= j ==> r[m] == points[m]
    {
      r := r[i := r[j]][j := r[i]];
      i, j := i + 1, j - 1;
    }
  }

  /**
   * `Handler`: check the sort key, collect the newest samples, put them in
   * ascending key order, rank the processes.
   */
  method Handler(query: Option<string>, bucket: Option<seq<Entry>>, historyLimit: int,
                 procs: Option<seq<ProcRead>>, procLimit: int) returns (result: HandlerResult)
    ensures result == HandlerSpec(query, bucket, historyLimit, procs, procLimit)
  {
    var sortBy := query.GetOr("cpu");
    if sortBy != "cpu" && sortBy != "memory" {
      return BadRequest;
    }
    var entries: seq<Entry> := if bucket.Some? then bucket.value else [];
    var window := Window(entries, historyLimit);
    var newest := CollectNewest(entries, historyLimit);
    if newest.None? {
      return InternalError;
    }
    var points := ReverseInPlace(newest.value);
    assert points == PointsOf(window) by {
      forall m | 0 <= m < |points| ensures points[m] == PointsOf(window)[m] {
        assert points[m] == newest.value[|points| - 1 - m];
        assert window[|window| - 1 - (|points| - 1 - m)] == window[m];
      }
    }
    var top := GetTopProcesses(sortBy, procs, procLimit);
    result := Respond(points, top);
  }

  /** A missing sort parameter means "cpu"; any value but "cpu" or "memory" is a 400 with no data. */
  lemma SortParamRule(query: Option<string>, bucket: Option<seq<Entry>>, historyLimit: int,
                      procs: Option<seq<ProcRead>>, procLimit: int)
    ensures HandlerSpec(None, bucket, historyLimit, procs, procLimit)
         == HandlerSpec(Some("cpu"), bucket, historyLimit, procs, procLimit)
    ensures HandlerSpec(query, bucket, historyLimit, procs, procLimit) == BadRequest
        <==> query.Some? && query.value != "cpu" && query.value != "memory"
  {
  }

  /** The store is in key order: bbolt keeps keys sorted by `bytes.Compare`. */
  ghost predicate KeysAscending(entries: seq<Entry>) {
    forall i, j :: 0 <= i < j < |entries| ==> LexLess(entries[i].key, entries[j].key)
  }

  /** Every record sits under `itob` of its own non-negative timestamp, as the collector writes it. */
  ghost predicate KeyedByTimestamp(entries: seq<Entry>) {
    forall i :: 0 <= i < |entries| ==>
      && entries[i].value.Decoded?
      && 0 <= entries[i].value.point.timestamp < 0x8000_0000_0000_0000
      && entries[i].key == Encode(entries[i].value.point.timestamp)
  }

  /** A window of decodable entries is decodable, and its samples are the entries' samples. */
  lemma WindowPoints(entries: seq<Entry>, historyLimit: int)
    requires AllDecoded(entries)
    ensures AllDecoded(Window(entries, historyLimit))
    ensures var w := Window(entries, historyLimit);
            var n := |entries| - |w|;
            forall i :: 0 <= i < |w| ==> PointsOf(w)[i] == entries[n + i].value.point
  {
    var w := Window(entries, historyLimit);
    var n := |entries| - |w|;
    forall i | 0 <= i < |w| ensures w[i] == entries[n + i] {
    }
  }

  /** Decodable entries whose samples are in strictly increasing time order. */
  ghost predicate Chronological(entries: seq<Entry>) {
    && AllDecoded(entries)
    && forall i, j :: 0 <= i < j < |entries| ==>
         entries[i].value.point.timestamp < entries[j].value.point.timestamp
  }

  /** A store the collector filled is chronological. */
  lemma StoreChronological(entries: seq<Entry>)
    requires KeysAscending(entries) && KeyedByTimestamp(entries)
    ensures Chronological(entries)
  {
    forall i, j | 0 <= i < j < |entries|
      ensures entries[i].value.point.timestamp < entries[j].value.point.timestamp
    {
      StoredPairOrder(entries, i, j);
    }
  }

  /** Two records of such a store: the one under the smaller key is the older. */
  lemma StoredPairOrder(entries: seq<Entry>, i: int, j: int)
    requires KeysAscending(entries) && KeyedByTimestamp(entries)
    requires 0 <= i < j < |entries|
    ensures entries[i].value.point.timestamp < entries[j].value.point.timestamp
  {
    var a: Int64 := entries[i].value.point.timestamp;
    var b: Int64 := entries[j].value.point.timestamp;
    assert LexLess(Encode(a), Encode(b));
    ItobOrder(a, b);
  }

  /** The samples of any window of a chronological store are in strictly increasing time order. */
  lemma WindowChronological(entries: seq<Entry>, historyLimit: int)
    requires Chronological(entries)
    ensures AllDecoded(Window(entries, historyLimit))
    ensures var ps := PointsOf(Window(entries, historyLimit));
            forall i, j :: 0 <= i < j < |ps| ==> ps[i].timestamp < ps[j].timestamp
  {
    var w := Window(entries, historyLimit);
    SuffixChronological(entries, |entries| - |w|);
    PointsChronological(w);
  }

  /** A suffix of a chronological store is chronological. */
  lemma SuffixChronological(entries: seq<Entry>, n: int)
    requires Chronological(entries) && 0 <= n <= |entries|
    ensures Chronological(entries[n..])
  {
    var s := entries[n..];
    forall i | 0 <= i < |s| ensures s[i] == entries[n + i] {
    }
  }

  /** The samples of a chronological store, in order, have strictly increasing timestamps. */
  lemma PointsChronological(es: seq<Entry>)
    requires Chronological(es)
    ensures var ps := PointsOf(es);
            forall i, j :: 0 <= i < j < |ps| ==> ps[i].timestamp < ps[j].timestamp
  {
    var ps := PointsOf(es);
    forall i, j | 0 <= i < j < |ps| ensures ps[i].timestamp < ps[j].timestamp {
      assert es[i].value == Decoded(ps[i]) && es[j].value == Decoded(ps[j]);
    }
  }

  /**
   * For a chronological store (which `StoreChronological` shows the
   * collector's store to be), a successful response carries the newest
   * `historyLimit` samples in strictly increasing time order, ending with
   * the newest sample stored; with no sample to send it is `null`.
   */
  lemma HistoryIsChronological(query: Option<string>, entries: seq<Entry>, historyLimit: int,
                               procs: Option<seq<ProcRead>>, procLimit: int)
    requires Chronological(entries)
    requires HandlerSpec(query, Some(entries), historyLimit, procs, procLimit).Ok?
    ensures var data := HandlerSpec(query, Some(entries), historyLimit, procs, procLimit).response.dataPoints;
            && (data.None? <==> entries == [] || historyLimit <= 0)
            && (data.Some? ==> |data.value| == Min(|entries|, historyLimit))
            && (data.Some? ==> data.value[|data.value| - 1] == entries[|entries| - 1].value.point)
            && (data.Some? ==> forall i, j :: 0 <= i < j < |data.value| ==>
                                 data.value[i].timestamp < data.value[j].timestamp)
  {
    HandlerData(query, entries, historyLimit, procs, procLimit);
    SamplesOfWindow(entries, historyLimit);
  }

  /** The samples of a window over such a store: how many, which is last, and their order. */
  lemma SamplesOfWindow(entries: seq<Entry>, historyLimit: int)
    requires Chronological(entries)
    ensures AllDecoded(Window(entries, historyLimit))
    ensures var ps := PointsOf(Window(entries, historyLimit));
            && (ps == [] <==> entries == [] || historyLimit <= 0)
            && (ps != [] ==> |ps| == Min(|entries|, historyLimit))
            && (ps != [] ==> ps[|ps| - 1] == entries[|entries| - 1].value.point)
            && (forall i, j :: 0 <= i < j < |ps| ==> ps[i].timestamp < ps[j].timestamp)
  {
    WindowChronological(entries, historyLimit);
    WindowPoints(entries, historyLimit);
    var w := Window(entries, historyLimit);
    var ps := PointsOf(w);
    if ps != [] {
      assert ps[|ps| - 1] == entries[|entries| - |w| + (|w| - 1)].value.point;
    }
  }

  /** The samples field of a successful response: the window's samples, `null` when there are none. */
  lemma HandlerData(query: Option<string>, entries: seq<Entry>, historyLimit: int,
                    procs: Option<seq<ProcRead>>, procLimit: int)
    requires AllDecoded(entries)
    requires HandlerSpec(query, Some(entries), historyLimit, procs, procLimit).Ok?
    ensures AllDecoded(Window(entries, historyLimit))
    ensures var ps := PointsOf(Window(entries, historyLimit));
            HandlerSpec(query, Some(entries), historyLimit, procs, procLimit).response.dataPoints
              == if ps == [] then None else Some(ps)
  {
    WindowPoints(entries, historyLimit);
    var ps := PointsOf(Window(entries, historyLimit));
    var top := TopSpec(SortParam(query), procs, procLimit);
    var r := HandlerSpec(query, Some(entries), historyLimit, procs, procLimit);
    assert r == Respond(ps, top);
    assert top.Top?;
  }
}
