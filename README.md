# moni dashboard: a verified model of its data shaping and display state

moni is a small host monitor with three parts.

- A Go collector samples CPU, memory, disk, load and the busiest processes once per tick. It stores each sample in a bbolt bucket under an 8-byte big-endian key made from the Unix second.
- A `/metrics` handler returns the newest samples in time order, together with a freshly ranked process list. An `/info` handler describes the host.
- A browser page draws three charts, a process table and summary readouts from each poll. It keeps the chosen sort key in local storage and has an info modal.

This project models the parts of moni that shape that data and the state it is displayed in. Library reads, the store and the browser's DOM are given as values, a failed read as `None`. The decisions the page and the handlers make from those values are modelled, including the failure paths; what is not modelled is listed under "Left out".

| file | module | what it models |
|---|---|---|
| `wrappers.dfy` | `Wrappers` | `Option`, for reads that may fail and JSON fields that may be `null` |
| `text.dfy` | `Text` | decimal rendering of naturals (`%d`) and first-letter upper-casing |
| `records.dfy` | `Records` | samples, process entries, process reads, the `/metrics` body, table cells |
| `sorting.dfy` | `Sorting` | a descending sort by an optional key, with the comparator Go's code uses |
| `keys.dfy` | `Keys` | `itob`, big-endian decoding, and `bytes.Compare` order |
| `collector.dfy` | `Collector` | one tick of `Run`: skip rules, top-ten choice, slot filling, the write |
| `metrics.dfy` | `Metrics` | `GetTopProcesses` and `Handler`, including the backward cursor walk and the in-place reversal |
| `info.dfy` | `Info` | `getPrimaryIP`, plus the hostname fallback and CPU string of the `/info` handler |
| `format.dfy` | `Format` | `formatBytes`, `formatOS`, the header labels, and the column order of table rows |
| `dashboard.dfy` | `Dashboard` | the page state: sort key, loading flag, visibility, charts, rows, readouts |
| `modal.dfy` | `Modal` | the info modal's class set, pending frame callbacks and `transitionend` listeners |
| `legacy.dfy` | `LegacyDashboard` | the earlier page script, whose `/metrics` answer was a bare array of samples |

Where the source changes state step by step, the model does too:

- `Keys.Itob` fills a fresh array.
- `Collector.Tick` fills its slot array in a loop.
- `Metrics.GetTopProcesses` collects in a loop and then truncates.
- `Metrics.CollectNewest` walks a cursor backwards, and `Metrics.ReverseInPlace` swaps from both ends.
- `Info.PrimaryIP` runs nested loops with `continue` and an early return.
- The page (`Dashboard.Page`), the older page (`LegacyDashboard.LegacyPage`) and the modal (`Modal.InfoModal`) are classes. Their methods update fields.

Each of these is proved against a function of its inputs or its old state, and the properties are proved about those functions.

## Model

| member | source | states |
|---|---|---|
| Keys.U64 | internal/collector/collector.go:36 | `uint64(v)` keeps a non-negative `v` and adds 2^64 to a negative one; the result is below 2^64 |
| Keys.Itob | internal/collector/collector.go:34-38 | returns a fresh 8-byte buffer whose byte i is byte i of `uint64(v)`, most significant first |
| Keys.ItobRoundTrip | internal/collector/collector.go:34-38 | the key is always 8 bytes, and decoding it big-endian gives back `uint64(v)` |
| Keys.BigEndianRoundTrip | internal/collector/collector.go:36 | decoding n big-endian bytes of u gives u modulo 256^n |
| Keys.BigEndianOrder | internal/collector/collector.go:36 | byte-wise comparison of two n-byte encodings agrees with the numeric order of the values modulo 256^n |
| Keys.ItobOrder | internal/collector/collector.go:34-38 | for non-negative timestamps, `bytes.Compare` order of the keys is exactly time order; this is the order the `/metrics` cursor relies on |
| Keys.NegativeSortsLast | internal/collector/collector.go:36 | the order needs non-negative keys: the key of -1 sorts after the key of 0 |
| Sorting.Insert | internal/collector/collector.go:70-82 | inserting one element gives a permutation of the input plus that element |
| Sorting.SortDesc | internal/metrics/metrics.go:64-72 | the sort only permutes its input (same multiset), for every key, including keys whose reads fail |
| Sorting.InsertSorted | internal/collector/collector.go:70-82 | inserting an element whose key is present into a list sorted descending keeps the list sorted |
| Sorting.SortDescSorted | internal/metrics/metrics.go:64-72 | when every key is present, the result is in non-increasing key order |
| Sorting.PrefixDominates | internal/metrics/metrics.go:74-76 | in a list sorted descending, every element of a prefix has a key at least that of every element after it |
| Collector.Slot | internal/collector/collector.go:99-126 | a slot carries the process's pid, CPU, RSS and name when all three reads succeed, and the zero value otherwise |
| Collector.TopTenAsWritten | internal/collector/collector.go:84 | `topProcesses[:10]` as written, bounded by capacity: it panics iff the capacity is below ten; otherwise it yields ten handles, the sorted processes first and nil handles past the length |
| Collector.TopTenAsWrittenPanics | internal/collector/collector.go:70-126 | after the sort, the tick as written panics iff the capacity is below ten, or fewer than ten processes exist and the hostname read succeeds (the slot loop then calls a method on a nil handle); it is skipped iff the capacity suffices and the hostname read fails; when it fills slots they are those of the corrected slice |
| Collector.TopTen | internal/collector/collector.go:84 | the intended slice: the first min(n, 10) processes |
| Collector.TopTenChoosesBusiest | internal/collector/collector.go:70-84 | when every CPU read succeeds, the kept processes number min(n, 10) and are sorted by CPU descending; kept plus dropped is the input; no dropped process is busier than a kept one |
| Collector.Tick | internal/collector/collector.go:44-178 | a tick is skipped iff the CPU, memory, disk, load, process-list or hostname read fails, or the CPU list is empty; otherwise the key is `itob(now)`, the record holds the hostname and the sample fields, and slot i is `Slot` of the i-th busiest process |
| Collector.Put | internal/collector/collector.go:175-178 | a skipped tick leaves the store alone; a written one stores its record under its key and leaves every other key as it was |
| Collector.DistinctSecondsDistinctKeys | internal/collector/collector.go:177 | ticks in different seconds write under different keys |
| Collector.SameSecondOverwrites | internal/collector/collector.go:177 | two records written in the same second share one key, and only the later survives |
| Metrics.Admit | internal/metrics/metrics.go:35-61 | with "cpu", a process is dropped iff its CPU read fails, and a failed memory read gives RSS 0; with any other key, it is dropped iff its memory read fails, and a failed CPU read gives 0; a failed name read gives "" |
| Metrics.Collect | internal/metrics/metrics.go:26-62 | no more entries than processes |
| Metrics.CollectMembers | internal/metrics/metrics.go:26-62 | an entry is collected iff some process admits to exactly that entry |
| Metrics.GetTopProcesses | internal/metrics/metrics.go:20-79 | the loop, sort and truncation compute `TopSpec`: a failed process list is an error; a negative limit panics; otherwise the result is the ranked entries cut to `limit`, and a nil slice when nothing was admitted |
| Metrics.TopRanked | internal/metrics/metrics.go:64-78 | for limit >= 0 the result is null iff nothing was admitted; it holds min(n, limit) entries drawn from the admitted ones, in non-increasing memory (for "memory") or CPU order; no entry left out outranks a kept one |
| Metrics.KeptRanked | internal/metrics/metrics.go:64-76 | the first n ranked entries are a sub-multiset of the entries, non-increasing in rank, and outrank every entry left out |
| Metrics.NegativeLimitPanics | internal/metrics/metrics.go:74-75 | a negative limit always takes the `[:limit]` branch and panics |
| Metrics.Window | internal/metrics/metrics.go:118 | the samples a request wants: the last min(n, historyLimit) entries (none if historyLimit <= 0), as a suffix of the store |
| Metrics.PointsOf | internal/metrics/metrics.go:119-123 | one decoded sample per entry, index for index |
| Metrics.Served | internal/metrics/metrics.go:111-148 | a request with an accepted sort key never gets a 400 |
| Metrics.CollectNewest | internal/metrics/metrics.go:111-129 | the cursor loop fails (500) iff some entry in the newest-historyLimit window does not decode; otherwise it yields exactly that window's samples, newest first |
| Metrics.MalformedInWindow | internal/metrics/metrics.go:118-122 | an undecodable entry among the newest historyLimit entries makes the request fail |
| Metrics.NewestIsWindow | internal/metrics/metrics.go:118-124 | samples collected backwards from the last key, as many as the window holds, are the window reversed |
| Metrics.ReverseInPlace | internal/metrics/metrics.go:131-133 | the two-pointer swap loop leaves element m equal to the old element n-1-m |
| Metrics.Handler | internal/metrics/metrics.go:102-149 | the handler computes `HandlerSpec`: 400 for a bad key; 500 for an undecodable sample or a failed process list; a recovered panic for a negative process limit; otherwise 200 with the window's samples in key order (`null` when none) and the ranked processes |
| Metrics.SortParamRule | internal/metrics/metrics.go:104-109 | a missing `sortProcessesBy` behaves as "cpu"; the response is 400 iff the parameter is present and is neither "cpu" nor "memory" |
| Metrics.StoredPairOrder | internal/metrics/metrics.go:117-118 | in a store keyed by `itob` of non-negative timestamps and kept in key order, the record under the smaller key is the older one |
| Metrics.StoreChronological | internal/metrics/metrics.go:117-118 | such a store lists its samples in strictly increasing time order |
| Metrics.SuffixChronological | internal/metrics/metrics.go:118 | every suffix of a time-ordered store is time-ordered |
| Metrics.PointsChronological | internal/metrics/metrics.go:119-123 | the samples of a time-ordered store have strictly increasing timestamps |
| Metrics.WindowPoints | internal/metrics/metrics.go:118-123 | the window of a decodable store decodes, and sample i of the window is the sample of entry n - |window| + i |
| Metrics.WindowChronological | internal/metrics/metrics.go:118-133 | the samples of any window of a time-ordered store have strictly increasing timestamps |
| Metrics.SamplesOfWindow | internal/metrics/metrics.go:118-133 | a window of a time-ordered store is empty iff the store is empty or historyLimit <= 0; otherwise it holds min(n, historyLimit) samples, ends with the newest one stored, and is strictly increasing in time |
| Metrics.HandlerData | internal/metrics/metrics.go:143-148 | a 200 response carries the window's samples, and `null` when there are none |
| Metrics.HistoryIsChronological | internal/metrics/metrics.go:111-148 | for a time-ordered store, `data_points` is `null` iff the store is empty or historyLimit <= 0; otherwise it holds the newest min(n, historyLimit) samples in strictly increasing time order and ends with the newest one |
| Info.FirstInAddrsIsFirst | internal/info/info.go:43-59 | the address found is the first in list order that is non-nil, non-loopback and IPv4; nothing is found iff no address qualifies |
| Info.FirstIPv4IsFirst | internal/info/info.go:34-61 | a found address is the first qualifying one in interface order, then address order; its interface is up, not loopback, and has a readable address list |
| Info.FirstIPv4None | internal/info/info.go:34-61 | nothing is found iff no address of any usable interface qualifies |
| Info.PrimaryIP | internal/info/info.go:29-62 | the nested loop returns "unknown" when listing the interfaces fails, and otherwise returns the first qualifying IPv4 address, or "unknown" if none qualifies |
| Info.NewHandler | internal/info/info.go:64-69 | the hostname falls back to "unknown" when it cannot be read; the IP is chosen once, by the same rule |
| Info.CoresText | internal/info/info.go:89 | the CPU field is a decimal numeral with no leading zero that reads back as the core count, followed by " cores" |
| Info.Serve | internal/info/info.go:71-94 | a request panics (500 through gin's recovery) iff the memory or the disk read fails, since their errors are discarded and the nil result is dereferenced; otherwise it reports the hostname and IP fixed when the handler was built, the OS, the architecture, the core count, and the used and total memory and disk bytes |
| Text.Decimal | internal/info/info.go:89 | `%d` of a natural number: a non-empty string of digits with no leading zero |
| Text.DecimalRoundTrip | internal/info/info.go:89 | reading the digits back gives the number |
| Text.Capitalize | static/assets/main.js:84 | `charAt(0).toUpperCase() + slice(1)`: the same length, the first character upper-cased, the rest unchanged |
| Format.FormatBytes | static/assets/main.js:60-80 | the unit is B below 1024, KB below 1024², MB below 1024³, else GB; the shown value times the unit's size is the byte count; above B the value is at least 1, and for KB and MB it is below 1024 |
| Format.FormatBytesBoundaries | static/assets/main.js:67-79 | 1023 stays 1023 B; 1024, 1024² and 1024³ show as 1 KB, 1 MB and 1 GB |
| Format.FormatOS | static/assets/main.js:82-93 | Linux gives the capitalised platform, the version and "(kernel k)"; Darwin gives "MacOS", the version, two spaces and "(kernel k)"; any other OS gives the four raw fields joined by single spaces |
| Format.FormatOSLinuxPlatform | static/assets/main.js:83-86 | on Linux the line starts with the platform, its first letter upper-cased and the rest kept, followed by a space; its length is the fields' lengths plus 11 |
| Format.FormatOSDarwinKernel | static/assets/main.js:88-90 | on Darwin the line starts with "MacOS ", ends with the kernel and ")", and never shows the platform |
| Format.MetricColumns | static/assets/main.js:240-250 | the two metric columns differ, and memory comes first iff the key is "memory" |
| Format.HeaderLabels | static/assets/main.js:9-17 | "memory" labels header cells 2 and 3 "Memory" and "CPU"; any other key labels them "CPU" and "Memory" |
| Format.Row | static/assets/main.js:252-256 | a row is four cells: the PID first and the command last |
| Format.RowMatchesHeaders | static/assets/main.js:9-17 | for every key, each row's metric cells sit under the headers that name them, with memory first iff the key is "memory" |
| Dashboard.InitialSortBy | static/assets/main.js:2 | the stored key is used unless it is missing or empty; otherwise the key is "cpu" |
| Dashboard.Page.constructor | static/assets/main.js:2-4 | page load: the stored key (or "cpu"), the loading flag raised, empty charts and table, headers fixed for the key, and a consistent page |
| Dashboard.Page.FixTableHeaders | static/assets/main.js:9-17 | only the header labels change, to those of the current key |
| Dashboard.Page.OnSortChange | static/assets/main.js:95-106 | the key is set and stored, the flag raised, the rows emptied, the placeholder shown and the data hidden, and the headers relabelled |
| Dashboard.Page.Apply | static/assets/main.js:175-268 | the page becomes `Applied(old page, response)`; the loop appends one row per process |
| Dashboard.StoredKeyReloads | static/assets/main.js:2 | a chosen key survives a reload, except the empty key, which reloads as "cpu" |
| Dashboard.UnusableIsNoOp | static/assets/main.js:178-180 | a failed fetch, or a body whose `data_points` is not a non-empty array, leaves the whole page unchanged; a usable one draws the charts and readouts |
| Dashboard.ChartsAligned | static/assets/main.js:182-201 | each chart gets exactly one label and one value per sample, index-aligned: CPU %, memory % and load1 |
| Dashboard.RowsInServerOrder | static/assets/main.js:207-258 | the table gets exactly one row per listed process, in server order; row i carries process i's PID, command, CPU and memory, with the figures under the headers that name them |
| Dashboard.SummaryFromLastSample | static/assets/main.js:210-230 | the readouts come from the last sample alone: two responses that end in the same sample give the same readouts |
| Dashboard.NullProcessesKeepLoading | static/assets/main.js:207-264 | a `null` process list still draws the charts and readouts, leaves the table empty, and does not move the flag or the visibility |
| Dashboard.SortChangeThenPolls | static/assets/main.js:95-264 | a sort change shows the placeholder over an empty table; the next response with a process list hides it, shows the data and clears the flag; later responses leave the visibility alone |
| Dashboard.LastAppliedWins | static/assets/main.js:175-268 | after a usable response A is applied, the charts, rows and readouts are A's, whatever response was applied before it; when A has a process list and the page was consistent, the placeholder is hidden, the data shown and the flag down |
| Dashboard.DrawnIgnoresPage | static/assets/main.js:182-258 | the charts, rows and readouts a usable response draws depend on the page only through its sort key |
| Dashboard.ConsistentPreserved | static/assets/main.js:9-264 | page load, sort changes and applied responses all keep the headers matching the key, every row under its headers, and the data shown once the flag is down |
| Dashboard.RefusedKeyFreezesTable | static/assets/main.js:177 | after a change to a key the server refuses, every poll gets a 400, so the page stays as the change left it: empty table, placeholder shown |
| Modal.OpenThenFrameShows | static/assets/main.js:21-28 | opening and then the next frame leaves the modal laid out and fully opaque, whatever its state before |
| Modal.CloseThenTransitionHides | static/assets/main.js:30-38 | closing fades out at once without hiding; once the transition ends the modal is hidden and the listener is gone |
| Modal.CloseTwiceSameAsOnce | static/assets/main.js:30-38 | closing twice and then finishing the transition gives the same state as closing once |
| Modal.ClickAndKeyRules | static/assets/main.js:44-58 | a click closes iff its target is the modal element itself; a key closes iff it is Escape |
| Modal.OpenCloseCycle | static/assets/main.js:21-38 | opening, a frame, closing and the end of the transition bring the modal back to exactly its closed state |
| Modal.EscapeWhileClosedHidesNextOpen | static/assets/main.js:30-58 | as written, Escape on a closed modal changes its state, and the next open is hidden again as soon as its fade-in ends |
| Modal.ClosedIgnoresClose | static/assets/main.js:30-58 | with a close that acts only on a shown modal, every close trigger on a closed modal does nothing, and the next open stays visible |
| Modal.CloseIfShownAgrees | static/assets/main.js:30-38 | on a shown modal, that close behaves exactly like the one written |
| Modal.InfoModal.OpenInfoModal | static/assets/main.js:21-28 | `hidden` is removed and one more frame callback is pending |
| Modal.InfoModal.CloseInfoModal | static/assets/main.js:30-38 | `opacity-100` is swapped for `opacity-0`, and one more listener is registered |
| Modal.InfoModal.RunAnimationFrame | static/assets/main.js:24-27 | the pending callbacks swap `opacity-0` for `opacity-100` |
| Modal.InfoModal.OnTransitionEnd | static/assets/main.js:34-37 | every registered listener adds `hidden` and removes itself |
| Modal.InfoModal.Dispatch | static/assets/main.js:40-58 | each event runs its handler as the page wires it |
| LegacyDashboard.LegacyPage.Apply | static/js/main.js:68-120 | the page becomes `Applied(old page, response)`; the loop appends one row per process of the last sample |
| LegacyDashboard.UnusableIsNoOp | static/js/main.js:71-73 | a failed fetch, or a body that is not a non-empty array, leaves the page unchanged |
| LegacyDashboard.ChartsAligned | static/js/main.js:75-94 | each chart gets one label and one value per sample, index-aligned; the load chart gets the whole load-average triple |
| LegacyDashboard.RowsFromLastSample | static/js/main.js:101-116 | the table is one row per process of the last sample, in order, PID, CPU, memory and command, and no earlier sample plays a part; a `null` list leaves it empty |
| LegacyDashboard.LegacyOrderIsCpuOrder | static/js/main.js:109-114 | the fixed column order is the newer page's order for any key other than "memory" |

## Left out

- Digit rendering is left out: `toLocaleString`, `toFixed`, `toLocaleTimeString`, `%.1f` and `Duration.String`. Chart labels are the samples' Unix seconds. A byte display is the exact scaled value together with its unit. The percent readouts (used / total × 100), the CPU and load readouts, and the memory cell's megabytes are not rendered.
- Floating-point numbers are modelled as reals, so NaN and infinities are not modelled. Examples: a zero total in a percent readout; `json.Marshal` refusing a NaN and skipping the tick.
- Timers and asynchrony are not modelled. This covers `setInterval`, `requestAnimationFrame` scheduling and overlapping fetches. Responses are applied one at a time, in arrival order (`Dashboard.LastAppliedWins`).
- The info panel's text fields and `updateIntervalMs` are not modelled, apart from `formatOS` and `formatBytes`. That assignment only changes the displayed text: the timer stays armed at 1000 ms.
- The DOM, Chart.js and local storage are modelled as fields: label and value sequences, rows, visibility flags, and a stored key. `chart.update()` is not modelled.
- Modal.Closed: the modal's starting classes (`hidden`, `opacity-0`) are taken as given, because the page markup is not part of this model. `Modal.InfoModal.constructor` takes them as a parameter.
- Dashboard.Page.constructor: the initial visibility of the two table bodies is a parameter, because the page markup is not part of this model.
- Dashboard.Query: the sort key is sent as it is. URL encoding is not modelled, so a key containing `&` or `#` would reach the server differently.
- gopsutil, bbolt, gin and `net` are foreign libraries, and their results are inputs:
  - process reads are `Option`s;
  - the bucket is its list of entries in key order, and a missing bucket is `None`;
  - a stored value is either decoded or malformed;
  - the IP predicates `IsLoopback` and `To4` are fields.
- Entries with a nil value, which nested buckets have, are not modelled.
- A failed `db.Update` in the collector is not modelled.
- Sorting.SortDesc: Go's `sort.Slice` is an unspecified, unstable sort. It is modelled by one insertion sort with the same comparator. Properties are stated for any result of that sort: a permutation always, and sorted when every key is present. The order among equal keys is not modelled.
- Collector.TopTenChoosesBusiest: the order is proved only when every CPU read succeeds. A failed read makes the Go comparator inconsistent, and the result of `sort.Slice` is then unspecified.
- Collector.Tick: each process's CPU read is taken once per tick. The source calls `CPUPercent` again in the comparator and in the slot loop, and those calls could disagree.
- Collector.Tick uses the corrected `TopTen`. The slice as written, and the rest of the tick after it, is modelled by `Collector.TopTenAsWritten` and `Collector.TickTailAsWritten` (see Findings). The capacity of the slice the process library returns is an input.
- Modal.InfoModal: `transitionend` events that bubble up from the modal's children are not modelled. `TransitionEnd` is the end of the modal's own opacity transition.
- Text.UpperAscii: only a–z are upper-cased. JavaScript's `toUpperCase` also maps other letters, some of them to two characters.
- Int widths: `pid`, `historyLimit` and `procLimit` are unbounded integers. Only `itob`'s 64-bit conversion is written out.
- main.go and cmd/moni/main.go are not part of this model. They hold environment defaults and server wiring, and their calls do not match the handlers' signatures.
- The `/info` fields the page reads are not produced by internal/info/info.go. Examples: `platform`, `update_interval`, `interface`. The page is modelled against its own inputs.
- The server that answered the older page with a bare array of samples is not part of this model. `LegacyDashboard.LegacyPoint` is the shape that page reads.

Where the code and what the page evidently intends differ, the model follows the code:

- The poll timer is never re-armed with the host's update interval. static/assets/main.js:285 stores `info.update_interval` in `updateIntervalMs` and shows it, but the timer was already armed with 1000 ms at :297, before the info fetch resolves, and nothing re-arms it.
- A `null` process list is not a no-op. static/assets/main.js:180 checks only `data_points`, so the charts and readouts are redrawn and the table is cleared (:207-208) before `forEach` throws at :232.
- Escape on a closed modal is not a no-op (see Findings). The key handler at static/assets/main.js:54-58 calls `closeInfoModal` without checking whether the modal is shown.

## Findings

| source | as written | input that shows it | evidently intended | confidence | as-written member | corrected member |
|---|---|---|---|---|---|---|
| internal/collector/collector.go:84 | with fewer than ten processes, `topProcesses[:10]` panics when the slice's capacity is below ten; otherwise it succeeds with nil handles, and the slot loop panics at :100 on the first nil one (unless the hostname read at :86-90 fails first); a panic in the collector goroutine ends the server | a host with one process, the process library returning a slice of capacity 1 | keep the first min(n, 10) processes | high; not executed | Collector.TopTenAsWrittenPanics | Collector.TopTenChoosesBusiest |
| static/assets/main.js:30-58 | Escape calls `closeInfoModal` even when the modal is closed; with no transition running, the `transitionend` listener it registers stays attached | Escape on the closed modal, then open it: once the fade-in ends, the stale listener adds `hidden` again | close only a modal that is shown, so Escape on a closed modal does nothing | medium: assumes the stylesheet gives the modal an opacity transition, and that the fade-in starts one even though `hidden` is removed and the opacity class swapped within the same frame (a browser may coalesce both into one style change out of `display: none`, and then no `transitionend` fires); not executed | Modal.EscapeWhileClosedHidesNextOpen | Modal.ClosedIgnoresClose |
