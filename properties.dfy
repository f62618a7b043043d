/** Properties of whole polls: what the gauges mean after one, that repeating a poll
    settles, and how the three exporters agree and differ. */
module Properties {
  import opened Pbm
  import opened Series
  import opened Gauges
  import opened Projection
  import opened GoExporter
  import opened TsExporter
  import opened JsExporter

  // ------------------------------------------------------------------------------------
  // What the backup and node gauges read after a poll

  /** Every status ever seen has a total; it reads the number of fetched backups with that
      status, so a status no fetched backup has any more reads exactly 0 */
  lemma TotalsCountBackups(v: Values, known: set<string>, backups: seq<Backup>)
    requires Tracked(v, known)
    ensures var totals := BackupSeriesAfter(v, known, backups).snapshotsTotal;
      && totals.Keys == known + Statuses(backups)
      && (forall s :: s in totals ==> totals[s] == |set i | 0 <= i < |backups| && backups[i].status == s|)
      && (forall s :: s in known && s !in Statuses(backups) ==> totals[s] == 0)
  {
    TotalsExact(v.snapshotsTotal, known, backups);
    forall s | s in known + Statuses(backups) {
      TallyCountsBackups(backups, s);
    }
  }

  /** The "ok" total reads the number of agents with all three flags set, the "error"
      total the number of the others, and together they count every agent */
  lemma NodeTotalsCountAgents(v: Values, agents: seq<Agent>)
    ensures var totals := NodeSeriesAfter(v, agents).nodesTotal;
      && OkStatus in totals && ErrorStatus in totals
      && totals[OkStatus] == |set i | 0 <= i < |agents| && agents[i].pbmsOk && agents[i].nodesOk && agents[i].storsOk|
      && totals[ErrorStatus] == |set i | 0 <= i < |agents| && !(agents[i].pbmsOk && agents[i].nodesOk && agents[i].storsOk)|
      && totals[OkStatus] + totals[ErrorStatus] == |agents|
  {
    NodeTotalsExact(v.nodesTotal, agents);
    TallyCountsAgents(agents, OkStatus);
    TallyCountsAgents(agents, ErrorStatus);
    assert (set i | 0 <= i < |agents| && NodeStatus(agents[i]) == OkStatus)
        == (set i | 0 <= i < |agents| && agents[i].pbmsOk && agents[i].nodesOk && agents[i].storsOk);
    assert (set i | 0 <= i < |agents| && NodeStatus(agents[i]) == ErrorStatus)
        == (set i | 0 <= i < |agents| && !(agents[i].pbmsOk && agents[i].nodesOk && agents[i].storsOk));
  }

  // ------------------------------------------------------------------------------------
  // Which gauges each pass writes, and from what

  /** Two states agree on the three status-labelled backup gauges */
  predicate SameBackupSeries(v: Values, w: Values)
  {
    v.snapshotsTotal == w.snapshotsTotal && v.snapshots == w.snapshots && v.lastSnapshot == w.lastSnapshot
  }

  /** Two states agree on the error flag and the age of the newest backup */
  predicate SameLastSnapshot(v: Values, w: Values)
  {
    v.lastSnapshotError == w.lastSnapshotError && v.lastSnapshotSince == w.lastSnapshotSince
  }

  /** Two states agree on the two node gauges */
  predicate SameNodes(v: Values, w: Values)
  {
    v.nodesTotal == w.nodesTotal && v.nodes == w.nodes
  }

  lemma SameGauges(v: Values, w: Values)
    requires SameBackupSeries(v, w) && SameLastSnapshot(v, w) && SameNodes(v, w) && SamePitr(v, w)
    ensures v == w
  {
  }

  /** The pre-zero and per-backup writes touch only the status-labelled gauges, and what
      they leave there depends only on what was there */
  lemma BackupSeriesFootprint(v: Values, w: Values, known: set<string>, backups: seq<Backup>)
    ensures var r := BackupSeriesAfter(v, known, backups);
      SameLastSnapshot(r, v) && SameNodes(r, v) && SamePitr(r, v)
    ensures SameBackupSeries(v, w) ==>
      SameBackupSeries(BackupSeriesAfter(v, known, backups), BackupSeriesAfter(w, known, backups))
  {
  }

  /** The node pass touches only the node gauges, and what it leaves there depends only
      on what was there */
  lemma NodeSeriesFootprint(v: Values, w: Values, agents: seq<Agent>)
    ensures var r := NodeSeriesAfter(v, agents);
      SameBackupSeries(r, v) && SameLastSnapshot(r, v) && SamePitr(r, v)
    ensures SameNodes(v, w) ==> SameNodes(NodeSeriesAfter(v, agents), NodeSeriesAfter(w, agents))
  {
  }

  /** The Go PITR pass touches only the PITR gauges; what it leaves there depends only on
      what was there, and running it twice leaves what running it once does */
  lemma GoPitrFootprint(v: Values, w: Values, db: GoReads, now: int)
    ensures var r := GoPitrWritten(v, db, now);
      SameBackupSeries(r, v) && SameLastSnapshot(r, v) && SameNodes(r, v)
    ensures SamePitr(v, w) ==> SamePitr(GoPitrWritten(v, db, now), GoPitrWritten(w, db, now))
    ensures SamePitr(GoPitrWritten(GoPitrWritten(v, db, now), db, now), GoPitrWritten(v, db, now))
  {
  }

  /** The same for the error flag and age writes of the prom-client exporters */
  lemma PromLastFootprint(v: Values, w: Values, backups: seq<Backup>, dateMillis: string -> Option<int>, nowMillis: int)
    ensures var r := PromLastSnapshot(v, backups, dateMillis, nowMillis);
      SameBackupSeries(r, v) && SameNodes(r, v) && SamePitr(r, v)
    ensures SameLastSnapshot(v, w) ==>
      SameLastSnapshot(PromLastSnapshot(v, backups, dateMillis, nowMillis), PromLastSnapshot(w, backups, dateMillis, nowMillis))
    ensures var once := PromLastSnapshot(v, backups, dateMillis, nowMillis);
      SameLastSnapshot(PromLastSnapshot(once, backups, dateMillis, nowMillis), once)
  {
  }

  /** The same for the PITR pass of the prom-client exporters */
  lemma PromPitrFootprint(v: Values, w: Values, lock: Option<Lock>, chunkCount: nat, chunks: seq<Chunk>, nowMillis: int)
    ensures var r := PromPitr(v, lock, chunkCount, chunks, nowMillis);
      SameBackupSeries(r, v) && SameLastSnapshot(r, v) && SameNodes(r, v)
    ensures SamePitr(v, w) ==>
      SamePitr(PromPitr(v, lock, chunkCount, chunks, nowMillis), PromPitr(w, lock, chunkCount, chunks, nowMillis))
    ensures var once := PromPitr(v, lock, chunkCount, chunks, nowMillis);
      SamePitr(PromPitr(once, lock, chunkCount, chunks, nowMillis), once)
  {
    if SamePitr(v, w) {
      PromPitrCongruent(v, w, lock, chunkCount, chunks, nowMillis);
    }
    PromPitrIdempotent(v, lock, chunkCount, chunks, nowMillis);
  }

  lemma PromPitrCongruent(v: Values, w: Values, lock: Option<Lock>, chunkCount: nat, chunks: seq<Chunk>, nowMillis: int)
    requires SamePitr(v, w)
    ensures SamePitr(PromPitr(v, lock, chunkCount, chunks, nowMillis), PromPitr(w, lock, chunkCount, chunks, nowMillis))
  {
  }

  lemma PromPitrIdempotent(v: Values, lock: Option<Lock>, chunkCount: nat, chunks: seq<Chunk>, nowMillis: int)
    ensures var once := PromPitr(v, lock, chunkCount, chunks, nowMillis);
      SamePitr(PromPitr(once, lock, chunkCount, chunks, nowMillis), once)
  {
  }

  // ------------------------------------------------------------------------------------
  // A poll, gauge by gauge

  /** The Go gauges after a poll that read the backups: which pass leaves each gauge */
  lemma GoWrittenShape(v: Values, known: set<string>, db: GoReads, parseTime: string -> Option<int>, now: int)
    requires db.backups.Fetched?
    ensures var r, b := GoWritten(v, known, db, parseTime, now), db.backups.items;
      && SameBackupSeries(r, BackupSeriesAfter(v, known, b))
      && r.lastSnapshotError == GoLastError(v.lastSnapshotError, b)
      && r.lastSnapshotSince == GoLastSince(v.lastSnapshotSince, b, parseTime, now)
      && SameNodes(r, if db.agents.Fetched? then NodeSeriesAfter(v, db.agents.items) else v)
      && SamePitr(r, if db.agents.Fetched? && PitrEnabled(db.config) then GoPitrWritten(v, db, now) else v)
  {
    var b := db.backups.items;
    var written := GoBackupsWritten(v, known, b, parseTime, now);
    BackupSeriesFootprint(v, v, known, b);
    if db.agents.Fetched? {
      var nodes := NodeSeriesAfter(written, db.agents.items);
      NodeSeriesFootprint(written, v, db.agents.items);
      if PitrEnabled(db.config) {
        GoPitrFootprint(nodes, v, db, now);
      }
    }
  }

  /** The gauges of the prom-client exporters after the backup and node passes */
  lemma PromWrittenShape(v: Values, known: set<string>, backups: seq<Backup>, agents: seq<Agent>,
                         dateMillis: string -> Option<int>, nowMillis: int)
    ensures var w := PromWritten(v, known, backups, agents, dateMillis, nowMillis);
      && SameBackupSeries(w, BackupSeriesAfter(v, known, backups))
      && SameLastSnapshot(w, PromLastSnapshot(v, backups, dateMillis, nowMillis))
      && SameNodes(w, NodeSeriesAfter(v, agents))
      && SamePitr(w, v)
  {
    var series := BackupSeriesAfter(v, known, backups);
    var last := PromLastSnapshot(series, backups, dateMillis, nowMillis);
    BackupSeriesFootprint(v, v, known, backups);
    PromLastFootprint(series, v, backups, dateMillis, nowMillis);
    NodeSeriesFootprint(last, v, agents);
  }

  /** ... and after the PITR pass, when it runs */
  lemma PromPolledShape(v: Values, known: set<string>, db: PromReads, pitrLock: Option<Option<Lock>>,
                        dateMillis: string -> Option<int>, nowMillis: int)
    ensures var r, b := PromPolled(v, known, db, pitrLock, dateMillis, nowMillis), db.backups;
      && SameBackupSeries(r, BackupSeriesAfter(v, known, b))
      && SameLastSnapshot(r, PromLastSnapshot(v, b, dateMillis, nowMillis))
      && SameNodes(r, NodeSeriesAfter(v, db.agents))
      && SamePitr(r, if pitrLock.Some? then PromPitr(v, pitrLock.value, db.chunkCount, db.chunks, nowMillis) else v)
  {
    var w := PromWritten(v, known, db.backups, db.agents, dateMillis, nowMillis);
    PromWrittenShape(v, known, db.backups, db.agents, dateMillis, nowMillis);
    if pitrLock.Some? {
      PromPitrFootprint(w, v, pitrLock.value, db.chunkCount, db.chunks, nowMillis);
    }
  }

  // ------------------------------------------------------------------------------------
  // Repeating a poll

  lemma BackupSeriesSettles(v: Values, known: set<string>, backups: seq<Backup>)
    requires Statuses(backups) <= known
    ensures BackupSeriesAfter(BackupSeriesAfter(v, known, backups), known, backups) == BackupSeriesAfter(v, known, backups)
  {
    TotalsSettle(v.snapshotsTotal, known, backups);
    DetailSettles(v.snapshots, known, backups);
    LastSettles(v.lastSnapshot, known, backups);
  }

  lemma NodeSeriesSettles(v: Values, agents: seq<Agent>)
    ensures NodeSeriesAfter(NodeSeriesAfter(v, agents), agents) == NodeSeriesAfter(v, agents)
  {
    NodesSettle(v.nodesTotal, v.nodes, agents);
  }

  /** Once every fetched status is known, writing the Go gauges again from the same reads
      and the same clock leaves them as they are */
  lemma GoWrittenSettles(v: Values, known: set<string>, db: GoReads, parseTime: string -> Option<int>, now: int)
    requires db.backups.Fetched? && Statuses(db.backups.items) <= known
    ensures var x := GoWritten(v, known, db, parseTime, now);
      GoWritten(x, known, db, parseTime, now) == x
  {
    var b, x := db.backups.items, GoWritten(v, known, db, parseTime, now);
    GoWrittenShape(v, known, db, parseTime, now);
    GoWrittenShape(x, known, db, parseTime, now);
    BackupSeriesFootprint(x, BackupSeriesAfter(v, known, b), known, b);
    BackupSeriesSettles(v, known, b);
    if db.agents.Fetched? {
      NodeSeriesFootprint(x, NodeSeriesAfter(v, db.agents.items), db.agents.items);
      NodeSeriesSettles(v, db.agents.items);
      if PitrEnabled(db.config) {
        GoPitrFootprint(x, GoPitrWritten(v, db, now), db, now);
        GoPitrFootprint(v, v, db, now);
      }
    }
    SameGauges(GoWritten(x, known, db, parseTime, now), x);
  }

  /** A Go poll that read the backups and meets no new status */
  lemma GoPollWithKnownStatuses(v: Values, known: set<string>, db: GoReads, parseTime: string -> Option<int>, now: int)
    requires db.backups.Fetched? && Statuses(db.backups.items) <= known
    ensures GoPoll(v, known, db, parseTime, now) ==
      Poll(GoWritten(v, known, db, parseTime, now), known,
           if db.agents.Fetched? then Success
           else Failure(if db.agents.FindFailed? then FindAgentsFailed else DecodeAgentsFailed))
  {
    assert known + Statuses(db.backups.items) == known;
  }

  /** Once every fetched status is known, a Go poll with the same reads and the same
      clock changes nothing */
  lemma GoPollSettles(v: Values, known: set<string>, db: GoReads, parseTime: string -> Option<int>, now: int)
    requires db.backups.Fetched? ==> Statuses(db.backups.items) <= known
    ensures var first := GoPoll(v, known, db, parseTime, now);
      GoPoll(first.values, first.known, db, parseTime, now) == first
  {
    if db.backups.Fetched? {
      var x := GoWritten(v, known, db, parseTime, now);
      GoPollWithKnownStatuses(v, known, db, parseTime, now);
      GoPollWithKnownStatuses(x, known, db, parseTime, now);
      GoWrittenSettles(v, known, db, parseTime, now);
    }
  }

  /** From the second repetition on, a poll with unchanged reads and clock is a no-op */
  lemma GoPollStabilises(v: Values, known: set<string>, db: GoReads, parseTime: string -> Option<int>, now: int)
    ensures var first := GoPoll(v, known, db, parseTime, now);
      var second := GoPoll(first.values, first.known, db, parseTime, now);
      GoPoll(second.values, second.known, db, parseTime, now) == second
  {
    var first := GoPoll(v, known, db, parseTime, now);
    GoPollSettles(first.values, first.known, db, parseTime, now);
  }

  /** The first repetition is not yet a no-op: a status first seen in the first poll is
      pre-zeroed for every fetched name in the second, which adds series that read 0 */
  lemma FirstRepeatAddsZeroSeries()
    ensures var backups := [Backup("b", ErrorStatus), Backup("a", "done")];
      var first := DetailAfter(map[], {}, backups);
      var second := DetailAfter(first, Statuses(backups), backups);
      ("b", "done") !in first && ("b", "done") in second && second[("b", "done")] == 0
  {
    var backups := [Backup("b", ErrorStatus), Backup("a", "done")];
    assert backups[1] in backups;
    assert "done" in Statuses(backups);
    assert ("b", "done") in DetailKeys(backups, Statuses(backups)) by {
      assert backups[0] in backups;
    }
    assert ("b", "done") !in BackupKeys(backups);
  }

  /** The "last" gauge behaves alike: a status first seen in a poll that is not the newest
      backup's gets its series, reading 0, only from the next poll's pre-zero on */
  lemma FirstRepeatAddsLastSeries()
    ensures var backups := [Backup("b", ErrorStatus), Backup("a", "done")];
      var first := LastAfter(map[], {}, backups);
      var second := LastAfter(first, Statuses(backups), backups);
      "done" in Statuses(backups) && "done" !in first && "done" in second && second["done"] == 0
  {
    var backups := [Backup("b", ErrorStatus), Backup("a", "done")];
    assert backups[1] in backups;
    assert "done" != ErrorStatus by {
      assert |"done"| != |ErrorStatus|;
    }
    ZeroedAt(LastAfter(map[], {}, backups), Statuses(backups));
  }

  /** Once every fetched status is known, the passes of the prom-client exporters leave
      the gauges as they are when run again on the same reads and clock */
  lemma PromPolledSettles(v: Values, known: set<string>, db: PromReads, pitrLock: Option<Option<Lock>>,
                          dateMillis: string -> Option<int>, nowMillis: int)
    requires Statuses(db.backups) <= known
    ensures var x := PromPolled(v, known, db, pitrLock, dateMillis, nowMillis);
      PromPolled(x, known, db, pitrLock, dateMillis, nowMillis) == x
  {
    var b, x := db.backups, PromPolled(v, known, db, pitrLock, dateMillis, nowMillis);
    PromPolledShape(v, known, db, pitrLock, dateMillis, nowMillis);
    PromPolledShape(x, known, db, pitrLock, dateMillis, nowMillis);
    BackupSeriesFootprint(x, BackupSeriesAfter(v, known, b), known, b);
    BackupSeriesSettles(v, known, b);
    PromLastFootprint(x, PromLastSnapshot(v, b, dateMillis, nowMillis), b, dateMillis, nowMillis);
    PromLastFootprint(v, v, b, dateMillis, nowMillis);
    NodeSeriesFootprint(x, NodeSeriesAfter(v, db.agents), db.agents);
    NodeSeriesSettles(v, db.agents);
    if pitrLock.Some? {
      var lock := pitrLock.value;
      PromPitrFootprint(x, PromPitr(v, lock, db.chunkCount, db.chunks, nowMillis), lock, db.chunkCount, db.chunks, nowMillis);
      PromPitrFootprint(v, v, lock, db.chunkCount, db.chunks, nowMillis);
    }
    SameGauges(PromPolled(x, known, db, pitrLock, dateMillis, nowMillis), x);
  }

  /** A prometheus.ts poll with a configuration document that meets no new status */
  lemma TsPollWithKnownStatuses(v: Values, known: set<string>, db: PromReads, dateMillis: string -> Option<int>, nowMillis: int)
    requires db.config.Some? && Statuses(db.backups) <= known
    ensures TsPoll(v, known, db, dateMillis, nowMillis) ==
      Poll(PromPolled(v, known, db, TsPitrLock(db), dateMillis, nowMillis), known, Success)
  {
    assert known + Statuses(db.backups) == known;
  }

  /** An index.js poll that meets no new status */
  lemma JsPollWithKnownStatuses(v: Values, known: set<string>, db: PromReads, dateMillis: string -> Option<int>, nowMillis: int)
    requires Statuses(db.backups) <= known
    ensures JsPoll(v, known, db, dateMillis, nowMillis) ==
      Poll(PromPolled(v, known, db, JsPitrLock(db), dateMillis, nowMillis), known,
           if db.config.None? then Failure(NullConfigMessage) else Success)
  {
    assert known + Statuses(db.backups) == known;
  }

  /** Once every fetched status is known, a prometheus.ts poll with the same reads and
      the same clock changes nothing */
  lemma TsPollSettles(v: Values, known: set<string>, db: PromReads, dateMillis: string -> Option<int>, nowMillis: int)
    requires Statuses(db.backups) <= known
    ensures var first := TsPoll(v, known, db, dateMillis, nowMillis);
      TsPoll(first.values, first.known, db, dateMillis, nowMillis) == first
  {
    if db.config.Some? {
      var x := PromPolled(v, known, db, TsPitrLock(db), dateMillis, nowMillis);
      TsPollWithKnownStatuses(v, known, db, dateMillis, nowMillis);
      TsPollWithKnownStatuses(x, known, db, dateMillis, nowMillis);
      PromPolledSettles(v, known, db, TsPitrLock(db), dateMillis, nowMillis);
    }
  }

  /** ... and so does an index.js poll */
  lemma JsPollSettles(v: Values, known: set<string>, db: PromReads, dateMillis: string -> Option<int>, nowMillis: int)
    requires Statuses(db.backups) <= known
    ensures var first := JsPoll(v, known, db, dateMillis, nowMillis);
      JsPoll(first.values, first.known, db, dateMillis, nowMillis) == first
  {
    var x := PromPolled(v, known, db, JsPitrLock(db), dateMillis, nowMillis);
    JsPollWithKnownStatuses(v, known, db, dateMillis, nowMillis);
    JsPollWithKnownStatuses(x, known, db, dateMillis, nowMillis);
    PromPolledSettles(v, known, db, JsPitrLock(db), dateMillis, nowMillis);
  }

  lemma TsPollStabilises(v: Values, known: set<string>, db: PromReads, dateMillis: string -> Option<int>, nowMillis: int)
    ensures var first := TsPoll(v, known, db, dateMillis, nowMillis);
      var second := TsPoll(first.values, first.known, db, dateMillis, nowMillis);
      TsPoll(second.values, second.known, db, dateMillis, nowMillis) == second
  {
    var first := TsPoll(v, known, db, dateMillis, nowMillis);
    if db.config.Some? {
      TsPollSettles(first.values, first.known, db, dateMillis, nowMillis);
    }
  }

  lemma JsPollStabilises(v: Values, known: set<string>, db: PromReads, dateMillis: string -> Option<int>, nowMillis: int)
    ensures var first := JsPoll(v, known, db, dateMillis, nowMillis);
      var second := JsPoll(first.values, first.known, db, dateMillis, nowMillis);
      JsPoll(second.values, second.known, db, dateMillis, nowMillis) == second
  {
    var first := JsPoll(v, known, db, dateMillis, nowMillis);
    JsPollSettles(first.values, first.known, db, dateMillis, nowMillis);
  }

  // ------------------------------------------------------------------------------------
  // How the three exporters compare

  /** Go's reads and the prom-client exporters' reads of the same database, with no read
      failing */
  predicate SameDatabase(g: GoReads, p: PromReads)
  {
    && g.config == p.config
    && g.backups == Fetched(p.backups)
    && g.agents == Fetched(p.agents)
    && !g.pbmLock.Failed? && !g.pbmLockOp.Failed?
    && AsNullable(g.pbmLock) == p.pbmLock && AsNullable(g.pbmLockOp) == p.pbmLockOp
    && g.chunkCount == Some(p.chunkCount)
    && g.chunks == Some(p.chunks)
  }

  /** With a configuration document, counting and `Set` (Go) and pre-zeroing and `inc`
      (prometheus.ts) leave the same status-labelled and node gauges, the same error flag
      and the same known statuses */
  lemma GoAgreesWithTs(v: Values, known: set<string>, g: GoReads, p: PromReads,
                       parseTime: string -> Option<int>, now: int,
                       dateMillis: string -> Option<int>, nowMillis: int)
    requires SameDatabase(g, p) && p.config.Some?
    ensures var go, ts := GoPoll(v, known, g, parseTime, now), TsPoll(v, known, p, dateMillis, nowMillis);
      && go.known == ts.known && go.outcome == ts.outcome
      && SameBackupSeries(go.values, ts.values)
      && go.values.lastSnapshotError == ts.values.lastSnapshotError
      && SameNodes(go.values, ts.values)
  {
    GoWrittenShape(v, known, g, parseTime, now);
    PromPolledShape(v, known, p, TsPitrLock(p), dateMillis, nowMillis);
  }

  /** On a whole second, Math.round of the millisecond clock is the clock in seconds */
  lemma RoundWholeSeconds(now: int)
    ensures RoundMillis(now * 1000) == now
  {
    RoundMillisUnique(now * 1000, now);
  }

  /** The two PITR passes agree when both clocks read the same whole second */
  lemma PitrPassesAgree(v: Values, g: GoReads, lock: Option<Lock>, chunkCount: nat, chunks: seq<Chunk>, now: int)
    requires !g.pbmLock.Failed? && !g.pbmLockOp.Failed?
    requires lock == FallbackLock(AsNullable(g.pbmLock), AsNullable(g.pbmLockOp))
    requires g.chunkCount == Some(chunkCount) && g.chunks == Some(chunks)
    ensures SamePitr(GoPitrWritten(v, g, now), PromPitr(v, lock, chunkCount, chunks, now * 1000))
  {
    RoundWholeSeconds(now);
    GoLockIsFallback(g.pbmLock, g.pbmLockOp);
  }

  /** With the same clock, the PITR gauges of the Go exporter and of prometheus.ts agree */
  lemma GoAgreesWithTsOnPitr(v: Values, known: set<string>, g: GoReads, p: PromReads,
                             parseTime: string -> Option<int>, now: int, dateMillis: string -> Option<int>)
    requires SameDatabase(g, p) && p.config.Some?
    ensures SamePitr(GoPoll(v, known, g, parseTime, now).values, TsPoll(v, known, p, dateMillis, now * 1000).values)
  {
    GoWrittenShape(v, known, g, parseTime, now);
    PromPolledShape(v, known, p, TsPitrLock(p), dateMillis, now * 1000);
    if p.config.value.pitrEnabled {
      PitrPassesAgree(v, g, FallbackLock(p.pbmLock, p.pbmLockOp), p.chunkCount, p.chunks, now);
    }
  }

  /** The two prom-client exporters (TypeScript and JavaScript) differ only when the
      configuration is missing, or when pbmLock has no PITR lock and pbmLockOp has one */
  lemma TsAgreesWithJs(v: Values, known: set<string>, db: PromReads, dateMillis: string -> Option<int>, nowMillis: int)
    requires db.config.Some? && (db.pbmLock.Some? || db.pbmLockOp.None?)
    ensures TsPoll(v, known, db, dateMillis, nowMillis) == JsPoll(v, known, db, dateMillis, nowMillis)
  {
  }

  /** Without a configuration document prometheus.ts changes nothing, while index.js
      writes the backup and node gauges as a poll with PITR disabled does before it throws */
  lemma MissingConfig(v: Values, known: set<string>, db: PromReads, dateMillis: string -> Option<int>, nowMillis: int)
    requires db.config.None?
    ensures TsPoll(v, known, db, dateMillis, nowMillis) == Poll(v, known, Failure(NoConfigMessage))
    ensures var disabled := db.(config := Some(Config(false)));
      JsPoll(v, known, db, dateMillis, nowMillis)
        == JsPoll(v, known, disabled, dateMillis, nowMillis).(outcome := Failure(NullConfigMessage))
  {
  }

  /** The Go exporter treats a missing configuration as PITR disabled and does not fail */
  lemma GoToleratesMissingConfig(v: Values, known: set<string>, db: GoReads, parseTime: string -> Option<int>, now: int)
    requires db.config.None? && db.backups.Fetched? && db.agents.Fetched?
    ensures GoPoll(v, known, db, parseTime, now) == GoPoll(v, known, db.(config := Some(Config(false))), parseTime, now)
    ensures GoPoll(v, known, db, parseTime, now).outcome == Success
    ensures SamePitr(GoPoll(v, known, db, parseTime, now).values, v)
  {
  }

  // ------------------------------------------------------------------------------------
  // Worked examples

  /** Two backups, the newer one failed */
  function TwoBackups(): seq<Backup>
  {
    [Backup("b", ErrorStatus), Backup("a", "done")]
  }

  lemma TwoBackupsFetched()
    ensures FetchedBackups(TwoBackups())
  {
  }

  /** With both statuses seen before, the "error" series is the last one, the "done"
      series reads 0, and the error flag is raised */
  lemma TwoBackupsLast(last: map<string, int>, flag: Option<int>)
    requires last.Keys <= {"done", ErrorStatus}
    ensures var l := LastAfter(last, {"done", ErrorStatus}, TwoBackups());
      && l.Keys == {"done", ErrorStatus} && l["done"] == 0 && l[ErrorStatus] == 1
      && GoLastError(flag, TwoBackups()) == Some(1)
  {
    assert "done" != ErrorStatus by {
      assert |"done"| != |ErrorStatus|;
    }
  }

  lemma TwoBackupsTally()
    ensures Tally(StatusLabels(TwoBackups()), "done") == 1 && Tally(StatusLabels(TwoBackups()), ErrorStatus) == 1
  {
    var labels := StatusLabels(TwoBackups());
    assert labels == [ErrorStatus] + ["done"];
    assert [ErrorStatus] == [] + [ErrorStatus];
    TallySnoc([], ErrorStatus, "done");
    TallySnoc([], ErrorStatus, ErrorStatus);
    TallySnoc([ErrorStatus], "done", "done");
    TallySnoc([ErrorStatus], "done", ErrorStatus);
  }

  /** Each of the two statuses counts one backup */
  lemma TwoBackupsTotals(totals: map<string, int>)
    requires totals.Keys == {"done", ErrorStatus}
    ensures var t := TotalsAfter(totals, {"done", ErrorStatus}, TwoBackups());
      t.Keys == {"done", ErrorStatus} && t["done"] == 1 && t[ErrorStatus] == 1
  {
    var backups := TwoBackups();
    var labels := StatusLabels(backups);
    assert "done" != ErrorStatus by {
      assert |"done"| != |ErrorStatus|;
    }
    TwoBackupsTally();
    assert Statuses(backups) == {"done", ErrorStatus} by {
      assert backups[0] in backups && backups[1] in backups;
    }
    TotalsExact(totals, {"done", ErrorStatus}, backups);
  }

  /** Four agents, one of them with a failed storage check */
  function FourAgents(): seq<Agent>
  {
    [Agent("rs0", "a", true, true, true), Agent("rs0", "b", true, true, false),
     Agent("rs1", "c", true, true, true), Agent("rs1", "d", true, true, true)]
  }

  /** Three of the four report "ok" and one "error" */
  lemma FourNodesTotals(totals: map<string, int>)
    ensures var t := NodeTotalsAfter(totals, FourAgents());
      OkStatus in t && t[OkStatus] == 3 && ErrorStatus in t && t[ErrorStatus] == 1
  {
    var labels := NodeLabels(FourAgents());
    assert Tally(labels, OkStatus) == 3 by {
      assert labels == [OkStatus, ErrorStatus, OkStatus] + [OkStatus];
      TallySnoc([OkStatus, ErrorStatus, OkStatus], OkStatus, OkStatus);
      assert [OkStatus, ErrorStatus, OkStatus] == [OkStatus, ErrorStatus] + [OkStatus];
      TallySnoc([OkStatus, ErrorStatus], OkStatus, OkStatus);
      assert [OkStatus, ErrorStatus] == [OkStatus] + [ErrorStatus];
      TallySnoc([OkStatus], ErrorStatus, OkStatus);
      assert [OkStatus] == [] + [OkStatus];
      TallySnoc([], OkStatus, OkStatus);
    }
    NodeTotalsExact(totals, FourAgents());
  }

  /** The label tuples of the four agents with their derived status */
  lemma FourAgentKeys()
    ensures AgentKeys(FourAgents()) == {("rs0", "rs0/a", OkStatus), ("rs0", "rs0/b", ErrorStatus),
                                        ("rs1", "rs1/c", OkStatus), ("rs1", "rs1/d", OkStatus)}
  {
    var agents := FourAgents();
    assert Host(agents[0]) == "rs0/a" && Host(agents[1]) == "rs0/b";
    assert Host(agents[2]) == "rs1/c" && Host(agents[3]) == "rs1/d";
    assert agents == [agents[0], agents[1], agents[2], agents[3]];
  }

  /** Two strings that differ at one position are different */
  lemma DiffersAt(s: string, t: string, i: nat)
    requires i < |s| && i < |t| && s[i] != t[i]
    ensures s != t
  {
  }

  /** The failed node's "error" series is the only one of the four that reads 1 */
  lemma FourNodesSeries(nodes: map<NodeKey, int>)
    ensures var n := NodesAfter(nodes, FourAgents());
      && ("rs0", "rs0/b", ErrorStatus) in n && n[("rs0", "rs0/b", ErrorStatus)] == 1
      && ("rs0", "rs0/a", ErrorStatus) in n && n[("rs0", "rs0/a", ErrorStatus)] == 0
      && ("rs1", "rs1/c", ErrorStatus) in n && n[("rs1", "rs1/c", ErrorStatus)] == 0
      && ("rs1", "rs1/d", ErrorStatus) in n && n[("rs1", "rs1/d", ErrorStatus)] == 0
  {
    var agents := FourAgents();
    var a, b, c, d := ("rs0", "rs0/a", ErrorStatus), ("rs0", "rs0/b", ErrorStatus),
                      ("rs1", "rs1/c", ErrorStatus), ("rs1", "rs1/d", ErrorStatus);
    var zeroKeys := NodeKeys(agents, {OkStatus, ErrorStatus});
    FourAgentKeys();
    assert a in zeroKeys && c in zeroKeys && d in zeroKeys by {
      assert Host(agents[0]) == "rs0/a" && Host(agents[2]) == "rs1/c" && Host(agents[3]) == "rs1/d";
      assert agents[0] in agents && agents[2] in agents && agents[3] in agents;
    }
    var ka, kb, kc, kd := ("rs0", "rs0/a", OkStatus), ("rs0", "rs0/b", ErrorStatus),
                          ("rs1", "rs1/c", OkStatus), ("rs1", "rs1/d", OkStatus);
    assert AgentKeys(agents) == {ka, kb, kc, kd};
    assert OkStatus != ErrorStatus by {
      assert |OkStatus| != |ErrorStatus|;
    }
    assert "rs0" != "rs1" by {
      DiffersAt("rs0", "rs1", 2);
    }
    assert a !in AgentKeys(agents) by {
      assert a != kb by {
        DiffersAt("rs0/a", "rs0/b", 4);
      }
      assert a != ka && a != kc && a != kd;
    }
    assert c !in AgentKeys(agents) by {
      assert c != kd by {
        DiffersAt("rs1/c", "rs1/d", 4);
      }
      assert c != ka && c != kb && c != kc;
    }
    assert d !in AgentKeys(agents) by {
      assert d != kc by {
        DiffersAt("rs1/d", "rs1/c", 4);
      }
      assert d != ka && d != kb && d != kd;
    }
    ZeroedAt(nodes, zeroKeys);
    MarkedAt(Zeroed(nodes, zeroKeys), AgentKeys(agents));
  }
}
