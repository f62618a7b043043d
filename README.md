# pbm-exporter: the status-to-gauge projection

pbm-exporter is a Prometheus exporter for Percona Backup for MongoDB. On every scrape
it reads the backup tool's control collections and writes ten gauges:
- `pbm_snapshots_total`, `pbm_snapshots` and `pbm_last_snapshot`, labelled by backup status;
- `pbm_last_snapshot_error` and `pbm_last_snapshot_since_seconds`;
- `pbm_nodes_total` and `pbm_nodes`;
- `pbm_pitr_chunks_total`, `pbm_pitr_error` and `pbm_last_pitr_chunk_since_seconds`.

The collections it reads are pbmConfig, pbmBackups, pbmAgents, pbmLock, pbmLockOp (the Go
and TypeScript variants only) and pbmPITRChunks. The exporter also remembers every backup
status it has seen since start-up.
On each poll it first sets the series of those statuses to 0. Then it writes the series of
what it fetched.

The projection exists in three variants, and each is modelled as imperative Dafny:
- `updateMetrics` of the Go exporter;
- `updateStatus` of the TypeScript exporter;
- `updateStatus` of the older JavaScript exporter.

How the model is built:
- The gauges are fields of one `Registry` object. A labelled gauge is a map from its label
  tuple to a value. An unlabelled gauge is an optional value, `None` while it has no series.
- The remembered status set is a `set` field of each variant's exporter class.
- Every loop of the source is a `while` loop with its invariants.
- Each method is proved against a pure function of the gauges it starts from: `GoPoll`,
  `TsPoll` or `JsPoll` for a whole poll, and `...After` functions for each pass.
- Lemmas about those functions state what the gauges mean after a poll. They also show
  that repeating a poll settles and how the three variants agree.

Files:
- `pbm.dfy`: the records read from the database and the values derived from them, namely
  node status, PITR staleness, lock lookup and fallback, the newest chunk and `Math.round`.
- `series.dfy`: what the pre-zero and write loops make of each labelled gauge, with
  the counting lemmas.
- `gauges.dfy`: the registry and the whole-state functions.
- `projection.dfy`: the loops the variants share.
- `main_go.dfy`, `prometheus_ts.dfy`, `index_js.dfy`: one module per variant.
- `properties.dfy`: properties of whole polls.

Three behaviours of the code are worth noting:
- The last PITR chunk is the one with the greatest `start_ts`, because that is what
  the query sorts on. A timestamp compares by its seconds and then by its increment
  (`Pbm.IncrementBreaksTies`). It is not the one with the greatest `end_ts`.
- Node series are pre-zeroed only for the agents of the current fetch.
  Node identities are not remembered between polls.
- Detail series (`pbm_snapshots{name,status}`) are pre-zeroed only for statuses known
  before the poll. So the first repetition of a poll can still add series that read 0
  (`Properties.FirstRepeatAddsZeroSeries`). The "last" gauge behaves alike: a status
  first seen in a poll, and not the newest, gets its `pbm_last_snapshot` series only in the
  next poll (`Properties.FirstRepeatAddsLastSeries`). From the second repetition on, a
  poll is a no-op (`GoPollStabilises` and its two siblings).

## Model

| member | source | states |
|---|---|---|
| GoExporter.PbmExporter.constructor | main.go:148-160 | a new exporter keeps its URI and has seen no status |
| GoExporter.PbmExporter.UpdateMetrics | main.go:190-336 | the gauges, the remembered statuses and the returned error after one poll are exactly those of `GoPoll`; the registry keeps tracking the remembered statuses |
| GoExporter.GoPoll | main.go:197-333 | a failed backup read returns its error before any write; otherwise the status set grows by the fetched statuses; a failed agent read returns its error; success exactly when both reads succeed; the status set never shrinks; PITR gauges untouched unless PITR is enabled and the poll reaches it; tracking preserved |
| GoExporter.GoLastError | main.go:239-246 | with no backups the flag is untouched; otherwise it is set, and reads 1 exactly when the newest status is exactly "error" |
| GoExporter.GoLastSince | main.go:247-252 | untouched with no backups or when the newest name does not parse; otherwise the parsed time plus the value is `now` |
| GoExporter.GoChunkSince | main.go:321-332 | untouched when the chunk query fails or finds nothing; otherwise `now - end` of a chunk whose start timestamp, compared by seconds then increment, is the greatest |
| GoExporter.BackupPass | main.go:217-253 | the backup pass moves the state to `GoBackupsWritten` and adds the fetched statuses to the known set |
| GoExporter.SeriesPass | main.go:217-236 | pre-zero, count and `Set` leave the whole state as `BackupSeriesCounted` |
| GoExporter.LastPass | main.go:238-253 | the newest backup's "last" series is marked, and the error flag and the age follow `GoLastError` and `GoLastSince`; nothing else changes |
| GoExporter.SeriesWrites | main.go:217-236 | the three status-labelled gauges become `TotalsAfter`, `DetailAfter` and the zeroed "last" map |
| GoExporter.SetLastSnapshot | main.go:238-253 | field by field: the "last" series of the newest status is set to 1 and the flag and age are written, all untouched with no backups |
| GoExporter.CountBackupSeries | main.go:226-236 | the loop over the backups leaves the totals as the old ones overwritten by the exact per-status counts, marks each fetched (name, status) series 1 and adds every status to the known set |
| GoExporter.SetSnapshotTotals | main.go:234-236 | after `Set` of every entry of the count map, in any order, the totals are the old ones overwritten by the map |
| GoExporter.NodePass | main.go:268-293 | the node pass moves the state to `NodeSeriesAfter` |
| GoExporter.NodeWrites | main.go:268-293 | the two node gauges become `NodeTotalsAfter` and `NodesAfter` |
| GoExporter.CountNodeSeries | main.go:277-293 | the loop over the agents leaves the node totals as the old ones overwritten by the exact per-status counts and marks each agent's series for its status 1 |
| GoExporter.CountAgent | main.go:286 | `nodeStatusCounts[nodeStatus]++` for agent `i` turns the count map of the first `i` agents into that of the first `i + 1` |
| GoExporter.SetNodeTotals | main.go:291-293 | after `Set` of every counted node status, the totals are the old ones overwritten by the count map |
| GoExporter.PitrEnabled | main.go:296 | the PITR pass runs exactly when a configuration was read and has PITR enabled; a missing configuration reads as disabled |
| GoExporter.GoPitrWritten | main.go:295-333 | only the three PITR gauges change; the error reads 1 exactly when the looked-up lock is stale, else 0; the count is set only when counting succeeds; the age follows `GoChunkSince` |
| GoExporter.PitrPass | main.go:295-333 | the PITR pass moves the state to `GoPitrWritten` |
| GoExporter.PitrWrites | main.go:298-332 | the error gauge reads 1 exactly when the looked-up lock is stale; the count is set only when counting succeeds; the age follows `GoChunkSince` |
| TsExporter.TsPoll | server/prometheus.ts:87-149 | without a configuration nothing changes and the poll fails with the message of the source; otherwise success, the status set grows by the fetched statuses, PITR gauges untouched unless PITR is enabled, tracking preserved |
| TsExporter.TsPitrLock | server/prometheus.ts:128-134 | a lookup happens exactly when PITR is enabled; it finds no lock exactly when both collections have none; pbmLock's lock wins |
| TsExporter.Exporter.constructor | server/prometheus.ts:64 | the status set starts empty |
| TsExporter.Exporter.UpdateStatus | server/prometheus.ts:82-155 | the gauges, the remembered statuses and the outcome after one call are exactly those of `TsPoll` |
| JsExporter.JsPoll | server/index.js:85-141 | the status set always grows by the fetched statuses; the poll fails exactly when the configuration is missing; PITR gauges untouched unless PITR is enabled; tracking preserved |
| JsExporter.JsPitrLock | server/index.js:125-126 | a lookup happens exactly when PITR is enabled; it finds no lock exactly when pbmLock has none |
| JsExporter.JsIgnoresLockOp | server/index.js:125-126 | the JavaScript exporter's lock does not depend on pbmLockOp |
| JsExporter.Exporter.constructor | server/index.js:60 | the status set starts empty |
| JsExporter.Exporter.UpdateStatus | server/index.js:79-145 | the gauges, the remembered statuses and the outcome after one call are exactly those of `JsPoll` |
| Gauges.Registry.Go | main.go:24-100 | the Go client exposes empty labelled gauges and 0 on every unlabelled gauge |
| Gauges.Registry.PromClient | server/prometheus.ts:16-62 | prom-client exposes empty labelled gauges, no series on the two error gauges declared with a label, and 0 on the unlabelled ones |
| Gauges.BackupSeriesAfter | main.go:217-241 | if the status-labelled series belonged to known statuses before, they belong to the known statuses plus the fetched ones after |
| Projection.ZeroSnapshotSeries | main.go:217-224 | for every known status, its total, its "last" series and its detail series for every fetched name read 0; nothing else changes |
| Projection.ZeroStatusSeries | main.go:218-223 | one status's series zeroed on top of those already done |
| Projection.ZeroDetailOfStatus | main.go:221-223 | the detail series of one status for every fetched name read 0 |
| Projection.MarkBackup | main.go:231 | writing 1 for backup `i` extends the marked prefix by one backup |
| Projection.IncBackupTotal | server/prometheus.ts:101 | `inc(1)` for backup `i` extends the incremented prefix by one backup |
| Projection.IncBackupSeries | server/prometheus.ts:98-103 | the totals are the old ones incremented once per fetched backup, each fetched (name, status) series reads 1 and the status set grows by the fetched statuses |
| Projection.ZeroNodeSeries | main.go:268-275 | both node totals, and both status series of every fetched agent, read 0 |
| Projection.ZeroNodesOfStatus | main.go:270-274 | one status's series of every fetched agent read 0 |
| Projection.MarkAgent | main.go:287-288 | writing 1 for agent `i` extends the marked prefix by one agent |
| Projection.IncAgentTotal | server/prometheus.ts:123 | `inc(1)` for agent `i` extends the incremented prefix by one agent |
| Projection.IncNodeSeries | server/prometheus.ts:121-125 | the node totals are incremented once per agent under its derived status, and each agent's series for that status reads 1 |
| Projection.MarkLastSnapshot | server/prometheus.ts:104-109 | with backups, the newest status's "last" series reads 1 and the flag and age follow `PromLastSnapshot`; with none, all three are untouched |
| Projection.PromLastSnapshot | server/prometheus.ts:104-109 | with no backups nothing changes; otherwise only the flag and the age change: the flag reads 1 exactly on an "error" status; the age is NaN exactly when the name does not parse, else the millisecond difference rounded half up to seconds |
| Projection.PromPitr | server/prometheus.ts:136-148 | only the three PITR gauges change; the error reads 1 exactly when the lock is stale at the rounded clock, else 0; the count is set; the age is untouched without chunks, else the rounded clock minus the end of a chunk whose start timestamp, compared by seconds then increment, is the greatest |
| Projection.PromSeriesWrites | server/prometheus.ts:91-103 | pre-zero then `inc` leave the totals as `TotalsAfter` and the details as `DetailAfter`, the same maps the Go counting leaves |
| Projection.PromNodeWrites | server/prometheus.ts:115-125 | pre-zero then `inc` leave the node gauges as `NodeTotalsAfter` and `NodesAfter` |
| Projection.PromPitrWrites | server/prometheus.ts:136-148 | field by field: the error flag is 1 exactly when the lock is stale, the count is set, and the age of the newest-started chunk is written when one exists |
| Projection.PromBackupPass | server/prometheus.ts:90-109 | the backup pass moves the state to `PromLastSnapshot` of `BackupSeriesAfter` and grows the status set |
| Projection.PromSeriesPass | server/prometheus.ts:91-103 | pre-zero and `inc` leave the whole state as `BackupSeriesCounted` |
| Projection.PromLastPass | server/prometheus.ts:104-109 | marking the newest backup and writing the flag and age leave the state as `PromLastSnapshot` of `NewestMarked` |
| Projection.PromNodePass | server/prometheus.ts:115-125 | the node pass moves the state to `NodeSeriesAfter` |
| Projection.PromPitrPass | server/prometheus.ts:136-148 | the PITR pass moves the state to `PromPitr` |
| Pbm.LastIsNewest | main.go:204-205 | the backup the "last" gauges describe, the first of a fetch sorted by name descending, has the greatest name |
| Pbm.NodeStatus | main.go:280-285 | a node is "ok" exactly when all three sub-health flags are set, and "error" otherwise |
| Pbm.PitrStale | main.go:305-306 | with a lock, stale exactly when its heartbeat is more than 30 seconds older than the clock; with no lock (a failed lookup), stale |
| Pbm.StaleStaysStale | main.go:306 | a stale lock stays stale as the clock advances |
| Pbm.GraceWindowBoundary | main.go:305-306 | a heartbeat 30 seconds old is fresh, one 31 seconds old is stale, no lock is stale |
| Pbm.GoPitrLock | main.go:298-303 | a lock is found exactly when pbmLock has one, or pbmLock has no document and pbmLockOp has one; pbmLock's lock wins |
| Pbm.FallbackLock | server/prometheus.ts:129-134 | no lock exactly when both lookups give null; pbmLock wins, pbmLockOp otherwise |
| Pbm.GoLockIsFallback | main.go:298-303 | when neither lookup fails, the Go lookup and the TypeScript fallback pick the same lock |
| Pbm.FailedLookupIsStale | main.go:299-306 | a pbmLock lookup that fails other than by finding nothing makes PITR stale |
| Pbm.LatestChunk | main.go:322-328 | none exactly when there are no chunks; otherwise a chunk of the list whose start timestamp is the greatest, comparing seconds and then increments |
| Pbm.IncrementBreaksTies | main.go:322 | of two chunks started in the same second, the one with the greater increment is the latest, in either input order |
| Pbm.RoundMillis | server/prometheus.ts:136 | `Math.round(ms / 1000)` is the whole number of seconds within half a second below and strictly less than half above |
| Pbm.RoundMillisUnique | server/prometheus.ts:108 | those bounds determine the rounded value |
| Series.Tallies | main.go:227-230 | the count map has an entry exactly for each fetched status, and it is that status's number of occurrences, at least 1 |
| Series.TalliesSnoc | main.go:230 | `statusCounts[s]++` on the map of a prefix gives the map of the prefix one longer |
| Series.Tally | main.go:230 | a count never exceeds the number of labels and is 0 exactly when the label is absent |
| Series.TallyIsOccurrences | main.go:227-230 | the count of a label is the number of positions holding it |
| Series.TallyCountsBackups | main.go:227-230 | the count of a status is the number of fetched backups with that status |
| Series.TallyCountsAgents | main.go:278-286 | the count of a node status is the number of agents with that derived status |
| Series.TallyTwoLabels | main.go:291-292 | when every label is one of two, their counts add up to the number of labels |
| Series.IncrementAfterZeroIsSet | server/prometheus.ts:91-101 | `inc` once per label on series pre-zeroed for every known label equals overwriting with the exact counts, which is what Go's `Set` does |
| Series.CountedAll | main.go:227-230 | the count map built by the loop up to `i` is the count map of the first `i` labels |
| Series.RememberedAll | main.go:229 | the status set built by the loop up to `i` is the old set plus the first `i` statuses |
| Series.TotalsExact | main.go:217-236 | after a poll the totals have exactly the known and fetched statuses; each reads its count among the fetched backups; a known status no longer fetched reads 0 |
| Series.DetailExact | main.go:221-231 | every fetched backup's own detail series reads 1; every (fetched name, known status) series exists and reads 1 exactly when a fetched backup has that name and status, else 0; every series carries a known or fetched status; series of names not fetched keep their value |
| Series.LastOneHot | main.go:218-241 | every known status keeps a "last" series, and every series carries a known or fetched status; the series are one-hot: with backups the newest status reads 1 and every other 0; without backups all read 0 |
| Series.LastAfter | main.go:217-241 | the "last" series after a poll are the old ones plus one for every known status and, with backups, one for the newest status |
| Series.NodeTotalsExact | main.go:268-293 | both node totals exist, count the healthy and the unhealthy agents, add up to the number of agents; other totals keep their value |
| Series.NodeSeriesOf | main.go:269-288 | for one fetched agent and either status, the series exists, reads 1 exactly when an agent with the same labels has that status, and reads 0 or 1 |
| Series.NodesExact | main.go:268-289 | every agent's series for its own status reads 1; its series for each status reads 1 exactly when an agent with the same labels has that status, else 0; nodes not fetched keep their series |
| Series.TotalsSettle | main.go:217-236 | once every fetched status is known, a second poll of the same backups leaves the totals as they are |
| Series.DetailSettles | main.go:221-231 | a second poll of the same backups leaves the detail series as they are |
| Series.LastSettles | main.go:218-241 | a second poll of the same backups leaves the "last" series as they are |
| Series.NodesSettle | main.go:268-293 | a second poll of the same agents leaves both node gauges as they are |
| Properties.TotalsCountBackups | main.go:217-236 | each total reads the number of fetched backups with its status; a known status no backup has any more reads 0 |
| Properties.NodeTotalsCountAgents | main.go:277-293 | the "ok" total counts agents with all three flags set, "error" the others, and together all agents |
| Properties.BackupSeriesFootprint | main.go:217-241 | the backup series pass touches only the status-labelled gauges, and their new values depend only on their old ones |
| Properties.NodeSeriesFootprint | main.go:268-293 | the node pass touches only the node gauges, and their new values depend only on their old ones |
| Properties.GoPitrFootprint | main.go:295-333 | the Go PITR pass touches only the PITR gauges, depends only on their old values, and running it twice is running it once |
| Properties.PromLastFootprint | server/prometheus.ts:104-109 | the flag and age writes touch nothing else, depend only on their old values, and are idempotent |
| Properties.PromPitrFootprint | server/prometheus.ts:128-148 | the prom-client PITR pass of the TypeScript and JavaScript exporters touches only the PITR gauges, depends only on their old values, and is idempotent |
| Properties.GoWrittenShape | main.go:217-333 | after a Go poll that read the backups, each gauge is the one its own pass leaves; a missing agent read leaves node and PITR gauges untouched |
| Properties.PromWrittenShape | server/prometheus.ts:90-125 | after the backup and node passes, each gauge is the one its own pass leaves and the PITR gauges are untouched |
| Properties.PromPolledShape | server/prometheus.ts:90-149 | after the PITR pass too, the PITR gauges are `PromPitr` of the old ones when the pass runs, else untouched |
| Properties.BackupSeriesSettles | main.go:217-241 | once every fetched status is known, the backup series pass is idempotent |
| Properties.NodeSeriesSettles | main.go:268-293 | the node pass is idempotent |
| Properties.GoWrittenSettles | main.go:217-333 | once every fetched status is known, writing the Go gauges again from the same reads and clock changes nothing |
| Properties.GoPollWithKnownStatuses | main.go:204-333 | a Go poll that meets no new status keeps the status set and returns the agent-read outcome |
| Properties.GoPollSettles | main.go:190-336 | once every fetched status is known, a repeated Go poll with the same reads changes nothing |
| Properties.GoPollStabilises | main.go:190-336 | from the second repetition on, a Go poll with the same reads and clock changes nothing |
| Properties.FirstRepeatAddsZeroSeries | main.go:218-231 | a status first seen in one poll is pre-zeroed for every fetched name in the next, so a series reading 0 appears |
| Properties.FirstRepeatAddsLastSeries | main.go:218-241 | a status first seen in one poll and not the newest has no "last" series after it and one reading 0 after the next |
| Properties.PromPolledSettles | server/prometheus.ts:90-149 | once every fetched status is known, running the prom-client passes of the TypeScript and JavaScript exporters again changes nothing |
| Properties.TsPollWithKnownStatuses | server/prometheus.ts:87-149 | a TypeScript poll with a configuration that meets no new status keeps the status set and succeeds |
| Properties.JsPollWithKnownStatuses | server/index.js:85-141 | a JavaScript poll that meets no new status keeps the status set, failing exactly when the configuration is missing |
| Properties.TsPollSettles | server/prometheus.ts:82-155 | once every fetched status is known, a repeated TypeScript poll changes nothing |
| Properties.JsPollSettles | server/index.js:79-145 | once every fetched status is known, a repeated JavaScript poll changes nothing |
| Properties.TsPollStabilises | server/prometheus.ts:82-155 | from the second repetition on, a TypeScript poll changes nothing |
| Properties.JsPollStabilises | server/index.js:79-145 | from the second repetition on, a JavaScript poll changes nothing |
| Properties.GoAgreesWithTs | main.go:226-236 | on the same database, Go's count-then-`Set` and TypeScript's pre-zero-then-`inc` leave the same status-labelled and node gauges, error flag, status set and outcome |
| Properties.RoundWholeSeconds | server/prometheus.ts:136 | on a whole second, rounding the millisecond clock gives the clock in seconds |
| Properties.PitrPassesAgree | main.go:298-332 | the Go and TypeScript PITR passes agree when the lookups do not fail and the clocks read the same second |
| Properties.GoAgreesWithTsOnPitr | main.go:295-333 | on the same database and clock, the PITR gauges of Go and TypeScript agree |
| Properties.TsAgreesWithJs | server/index.js:124-131 | with a configuration, the TypeScript and JavaScript exporters differ only when pbmLock has no PITR lock and pbmLockOp has one |
| Properties.MissingConfig | server/prometheus.ts:87-88 | without a configuration TypeScript changes nothing and throws, while JavaScript writes the backup and node gauges as with PITR disabled, then throws |
| Properties.GoToleratesMissingConfig | main.go:197-202 | Go treats a missing configuration as PITR disabled, succeeds and leaves the PITR gauges untouched |
| Properties.TwoBackupsFetched | main.go:205 | the example fetch is sorted by name descending and within the limit |
| Properties.TwoBackupsLast | main.go:238-246 | with newest backup "error": its "last" series reads 1, "done" reads 0, and the flag is 1 |
| Properties.TwoBackupsTally | main.go:227-230 | each of the two statuses counts once |
| Properties.TwoBackupsTotals | main.go:226-236 | each of the two totals reads 1 |
| Properties.FourNodesTotals | main.go:277-293 | of four agents with one failed storage check, three are "ok" and one is "error" |
| Properties.FourAgentKeys | main.go:287-288 | the label tuples of the four agents with their derived status |
| Properties.FourNodesSeries | main.go:268-289 | only the failing node's "error" series reads 1; the other three "error" series read 0 |

## Left out

- Database access is left out: connecting, pinging, the one retry after a second, and closing
  (main.go:163-187, server/prometheus.ts:66-80, server/index.js:62-77). Every read is an
  input: a `GoReads` or `PromReads` value.
- The query options are left out. Sorting by name descending and the 10000 limit are the
  predicate `Pbm.FetchedBackups`, which `Pbm.LastIsNewest` requires; every other member holds
  for backups in any order. The chunk query's sort on `start_ts`, descending with a limit of
  1, is `Pbm.LatestChunk` over all chunks. The agents' sort on `n` has no effect the model needs.
- Pbm.LatestChunk: between chunks whose start timestamps are equal in both words, the first in
  input order is chosen; the database's order among such chunks is unspecified.
- The count of PITR chunks is an input. In Go it is absent when `EstimatedDocumentCount` fails.
- The metric libraries are left out: Prometheus client registration and the text exposition
  (`register.metrics()`, `promhttp`). The registry is plain maps and optional values.
- HTTP serving, routing, status codes, signal handling and shutdown are left out. They are I/O
  plumbing (main.go:339-426, server/prometheus.ts:157-185, server/index.js:147-181,
  server/index.ts).
- Logging and `debug` calls are left out.
- Time is a parameter, not a clock. Parsing a backup name is a function `parseTime` in Go
  (RFC 3339) and `dateMillis` in JavaScript (`Date`), each returning an optional integer.
  The clock is a parameter read once per poll.
- Go's fractional seconds are left out: `GoExporter.GoLastSince` is the age in whole seconds.
  The floating-point value of `time.Since(...).Seconds()` is not modelled.
- The model leaves out the 64-bit integers of timestamps and counts, and their `float64`
  conversion. Values are unbounded integers.
- Concurrent scrapes interleaving at `await` points are left out, and so is a rejection of an
  awaited read other than a missing configuration. Each poll runs alone, and every read succeeds.
- Map iteration order is left out. Go's `range` over maps and an iteration over a set
  become a choice of any remaining key, and the proofs hold for every order.
- version.go and eslint.config.mjs contain no projection logic and are not part of this model.
