/** The Go exporter (main.go): one poll of updateMetrics writes the gauges from what it
    reads. Unlike the JavaScript exporters it counts statuses in local maps and then
    `Set`s every total, it fetches the configuration without insisting on it, and it
    returns early when the backups or the agents cannot be read. */
module GoExporter {
  import opened Pbm
  import opened Series
  import opened Gauges
  import opened Projection

  class PbmExporter {
    const mongoUri: string
    /** Every backup status seen since start-up, in the order-free form of a set */
    var snapshotStatuses: set<string>

    /** NewPBMExporter: no status seen yet */
    constructor (mongoUri: string)
      ensures this.mongoUri == mongoUri && snapshotStatuses == {}
    {
      this.mongoUri := mongoUri;
      snapshotStatuses := {};
    }

    /** One poll of updateMetrics: the gauges, the known statuses and the returned error
        are those of GoPoll, and the status-labelled series keep tracking the statuses */
    method UpdateMetrics(reg: Registry, db: GoReads, parseTime: string -> Option<int>, now: int)
      returns (outcome: Outcome)
      requires reg.Tracks(snapshotStatuses)
      modifies this, reg
      ensures var after := GoPoll(old(reg.Exposed()), old(snapshotStatuses), db, parseTime, now);
        && reg.Exposed() == after.values
        && snapshotStatuses == after.known
        && outcome == after.outcome
      ensures reg.Tracks(snapshotStatuses)
    {
      if !db.backups.Fetched? {
        outcome := Failure(if db.backups.FindFailed? then FindBackupsFailed else DecodeBackupsFailed);
      } else {
        snapshotStatuses := BackupPass(reg, snapshotStatuses, db.backups.items, parseTime, now);
        if !db.agents.Fetched? {
          outcome := Failure(if db.agents.FindFailed? then FindAgentsFailed else DecodeAgentsFailed);
        } else {
          NodePass(reg, db.agents.items);
          if PitrEnabled(db.config) {
            PitrPass(reg, db, now);
          }
          outcome := Success;
        }
      }
    }
  }

  /** What one poll makes of the gauges and of the known statuses. A failed backup read
      returns before any write; a failed agent read returns after the backup pass; the
      PITR pass runs only when PITR is enabled. */
  function GoPoll(v: Values, known: set<string>, db: GoReads, parseTime: string -> Option<int>, now: int)
    : (after: Poll)
    ensures !db.backups.Fetched? ==>
      after == Poll(v, known, Failure(if db.backups.FindFailed? then FindBackupsFailed else DecodeBackupsFailed))
    ensures db.backups.Fetched? ==> after.known == known + Statuses(db.backups.items)
    ensures db.backups.Fetched? && !db.agents.Fetched? ==>
      after.outcome == Failure(if db.agents.FindFailed? then FindAgentsFailed else DecodeAgentsFailed)
    ensures after.outcome == Success <==> db.backups.Fetched? && db.agents.Fetched?
    ensures known <= after.known
    ensures !(db.backups.Fetched? && db.agents.Fetched? && PitrEnabled(db.config)) ==> SamePitr(after.values, v)
    ensures Tracked(v, known) ==> Tracked(after.values, after.known)
  {
    if !db.backups.Fetched? then
      Poll(v, known, Failure(if db.backups.FindFailed? then FindBackupsFailed else DecodeBackupsFailed))
    else
      Poll(GoWritten(v, known, db, parseTime, now), known + Statuses(db.backups.items),
           if !db.agents.Fetched? then Failure(if db.agents.FindFailed? then FindAgentsFailed else DecodeAgentsFailed)
           else Success)
  }

  /** The gauges after a poll that read the backups: the backup pass, and the node and
      PITR passes as far as the poll gets */
  function GoWritten(v: Values, known: set<string>, db: GoReads, parseTime: string -> Option<int>, now: int): Values
    requires db.backups.Fetched?
  {
    var written := GoBackupsWritten(v, known, db.backups.items, parseTime, now);
    if !db.agents.Fetched? then written
    else
      var nodes := NodeSeriesAfter(written, db.agents.items);
      if PitrEnabled(db.config) then GoPitrWritten(nodes, db, now) else nodes
  }

  /** The gauges after the backup pass */
  function GoBackupsWritten(v: Values, known: set<string>, backups: seq<Backup>,
                            parseTime: string -> Option<int>, now: int): Values
  {
    BackupSeriesAfter(v, known, backups).(
      lastSnapshotError := GoLastError(v.lastSnapshotError, backups),
      lastSnapshotSince := GoLastSince(v.lastSnapshotSince, backups, parseTime, now))
  }

  /** The gauges after the PITR pass */
  function GoPitrWritten(v: Values, db: GoReads, now: int): (r: Values)
    ensures r == v.(pitrError := r.pitrError, pitrChunksTotal := r.pitrChunksTotal,
                    lastPitrChunkSince := r.lastPitrChunkSince)
    ensures r.pitrError == Some(1) <==> PitrStale(GoPitrLock(db.pbmLock, db.pbmLockOp), now)
    ensures r.pitrError == Some(0) || r.pitrError == Some(1)
    ensures db.chunkCount.None? ==> r.pitrChunksTotal == v.pitrChunksTotal
    ensures db.chunkCount.Some? ==> r.pitrChunksTotal == Some(db.chunkCount.value)
    ensures r.lastPitrChunkSince == GoChunkSince(v.lastPitrChunkSince, db.chunks, now)
  {
    v.(pitrError := Some(if PitrStale(GoPitrLock(db.pbmLock, db.pbmLockOp), now) then 1 else 0),
       pitrChunksTotal := if db.chunkCount.Some? then Some(db.chunkCount.value) else v.pitrChunksTotal,
       lastPitrChunkSince := GoChunkSince(v.lastPitrChunkSince, db.chunks, now))
  }

  /** pitr.enabled of the configuration; a missing or unreadable document decodes into
      the zero value, which reads as disabled */
  predicate PitrEnabled(config: Option<Config>)
    ensures PitrEnabled(config) <==> config == Some(Config(true))
  {
    config.Some? && config.value.pitrEnabled
  }

  /** `pbm_last_snapshot_error` after the backup pass: whether the newest backup failed */
  function GoLastError(old_: Option<int>, backups: seq<Backup>): (r: Option<int>)
    ensures backups == [] ==> r == old_
    ensures backups != [] ==> r.Some? && (r.value == 1 <==> backups[0].status == ErrorStatus)
    ensures r == old_ || r == Some(0) || r == Some(1)
  {
    if backups == [] then old_
    else Some(if backups[0].status == ErrorStatus then 1 else 0)
  }

  /** `pbm_last_snapshot_since_seconds` after the backup pass: the age of the newest
      backup when its name parses as a time, else the value it had */
  function GoLastSince(old_: Option<Reading>, backups: seq<Backup>, parseTime: string -> Option<int>, now: int)
    : (r: Option<Reading>)
    ensures backups == [] || parseTime(backups[0].name).None? ==> r == old_
    ensures backups != [] && parseTime(backups[0].name).Some? ==>
      r.Some? && r.value.Value? && r.value.seconds + parseTime(backups[0].name).value == now
  {
    if backups == [] then old_
    else match parseTime(backups[0].name)
      case Some(t) => Some(Value(now - t))
      case None => old_
  }

  /** `pbm_last_pitr_chunk_since_seconds` after the PITR pass */
  function GoChunkSince(old_: Option<int>, chunks: Option<seq<Chunk>>, now: int): (r: Option<int>)
    ensures chunks.None? || chunks.value == [] ==> r == old_
    ensures chunks.Some? && chunks.value != [] ==>
      exists c :: c in chunks.value && r == Some(now - c.endHigh) &&
        forall d :: d in chunks.value ==> StartsNoLater(d, c)
  {
    if chunks.None? then old_
    else match LatestChunk(chunks.value)
      case Some(c) => Some(now - c.endHigh)
      case None => old_
  }

  /** The backup pass, as a change of the whole gauge state */
  method BackupPass(reg: Registry, known: set<string>, backups: seq<Backup>,
                    parseTime: string -> Option<int>, now: int) returns (known': set<string>)
    modifies reg
    ensures known' == known + Statuses(backups)
    ensures reg.Exposed() == GoBackupsWritten(old(reg.Exposed()), known, backups, parseTime, now)
  {
    ghost var v := reg.Exposed();
    known' := SeriesPass(reg, known, backups);
    LastPass(reg, backups, parseTime, now);
    assert NewestMarked(BackupSeriesCounted(v, known, backups), backups) == BackupSeriesAfter(v, known, backups);
  }

  /** Pre-zero, count and write the backup series, as a change of the whole gauge state */
  method SeriesPass(reg: Registry, known: set<string>, backups: seq<Backup>) returns (known': set<string>)
    modifies reg
    ensures known' == known + Statuses(backups)
    ensures reg.Exposed() == BackupSeriesCounted(old(reg.Exposed()), known, backups)
  {
    known' := SeriesWrites(reg, known, backups);
  }

  /** The last-snapshot gauges, as a change of the whole gauge state */
  method LastPass(reg: Registry, backups: seq<Backup>, parseTime: string -> Option<int>, now: int)
    modifies reg
    ensures reg.Exposed() == NewestMarked(old(reg.Exposed()), backups).(
      lastSnapshotError := GoLastError(old(reg.lastSnapshotError), backups),
      lastSnapshotSince := GoLastSince(old(reg.lastSnapshotSince), backups, parseTime, now))
  {
    SetLastSnapshot(reg, backups, parseTime, now);
  }

  /** Pre-zero and then count and `Set` the backup series; the "last" series are left
      zeroed */
  method SeriesWrites(reg: Registry, known: set<string>, backups: seq<Backup>) returns (known': set<string>)
    modifies reg`snapshotsTotal, reg`snapshots, reg`lastSnapshot
    ensures known' == known + Statuses(backups)
    ensures reg.snapshotsTotal == TotalsAfter(old(reg.snapshotsTotal), known, backups)
    ensures reg.snapshots == DetailAfter(old(reg.snapshots), known, backups)
    ensures reg.lastSnapshot == Zeroed(old(reg.lastSnapshot), known)
  {
    ZeroSnapshotSeries(reg, known, backups);
    known' := CountBackupSeries(reg, known, backups);
  }

  /** The newest backup's status series reads 1, the error flag says whether that status
      is exactly "error", and the since gauge reads the backup's age when its name parses
      as a time; without backups the three are not written */
  method SetLastSnapshot(reg: Registry, backups: seq<Backup>, parseTime: string -> Option<int>, now: int)
    modifies reg`lastSnapshot, reg`lastSnapshotError, reg`lastSnapshotSince
    ensures reg.lastSnapshot == if backups == [] then old(reg.lastSnapshot)
                                else old(reg.lastSnapshot)[backups[0].status := 1]
    ensures reg.lastSnapshotError == GoLastError(old(reg.lastSnapshotError), backups)
    ensures reg.lastSnapshotSince == GoLastSince(old(reg.lastSnapshotSince), backups, parseTime, now)
  {
    if |backups| > 0 {
      var lastBackup := backups[0];
      reg.lastSnapshot := reg.lastSnapshot[lastBackup.status := 1];
      if lastBackup.status == ErrorStatus {
        reg.lastSnapshotError := Some(1);
      } else {
        reg.lastSnapshotError := Some(0);
      }
      var backupTime := parseTime(lastBackup.name);
      if backupTime.Some? {
        reg.lastSnapshotSince := Some(Value(now - backupTime.value));
      }
    }
  }

  /** Count the statuses in a local map while marking each backup's detail series, then
      `Set` every counted total */
  method CountBackupSeries(reg: Registry, known: set<string>, backups: seq<Backup>) returns (known': set<string>)
    modifies reg`snapshotsTotal, reg`snapshots
    ensures known' == known + Statuses(backups)
    ensures reg.snapshotsTotal == old(reg.snapshotsTotal) + Tallies(StatusLabels(backups))
    ensures reg.snapshots == Marked(old(reg.snapshots), BackupKeys(backups))
  {
    ghost var labels := StatusLabels(backups);
    known' := known;
    var statusCounts: map<string, int> := map[];
    var i := 0;
    assert labels[..0] == [];
    assert backups[..0] == [];
    while i < |backups|
      invariant 0 <= i <= |backups|
      invariant known' == Remembered(known, backups, i)
      invariant statusCounts == Counted(labels, i)
      invariant reg.snapshots == Marked(old(reg.snapshots), BackupKeys(backups[..i]))
      invariant reg.snapshotsTotal == old(reg.snapshotsTotal)
    {
      var backup := backups[i];
      known' := known' + {backup.status};
      statusCounts := statusCounts[backup.status := Current(statusCounts, backup.status) + 1];
      MarkBackup(reg, old(reg.snapshots), backups, i);
      i := i + 1;
    }
    RememberedAll(known, backups, i);
    CountedAll(labels, i);
    assert backups[..i] == backups;
    assert labels[..i] == labels;
    SetSnapshotTotals(reg, statusCounts);
  }

  /** `Set(count)` on the total of every status in the count map, in any order */
  method SetSnapshotTotals(reg: Registry, counts: map<string, int>)
    modifies reg`snapshotsTotal
    ensures reg.snapshotsTotal == old(reg.snapshotsTotal) + counts
  {
    var pending := counts.Keys;
    while pending != {}
      invariant pending <= counts.Keys
      invariant reg.snapshotsTotal == old(reg.snapshotsTotal) + Restricted(counts, counts.Keys - pending)
      decreases pending
    {
      var status :| status in pending;
      SetOneMore(old(reg.snapshotsTotal), counts, counts.Keys - pending, status);
      assert counts.Keys - (pending - {status}) == counts.Keys - pending + {status};
      reg.snapshotsTotal := reg.snapshotsTotal[status := counts[status]];
      pending := pending - {status};
    }
    assert Restricted(counts, counts.Keys - pending) == counts;
  }

  /** The node pass, as a change of the whole gauge state */
  method NodePass(reg: Registry, agents: seq<Agent>)
    modifies reg
    ensures reg.Exposed() == NodeSeriesAfter(old(reg.Exposed()), agents)
  {
    NodeWrites(reg, agents);
  }

  /** Pre-zero both node statuses, then count and write the node series */
  method NodeWrites(reg: Registry, agents: seq<Agent>)
    modifies reg`nodesTotal, reg`nodes
    ensures reg.nodesTotal == NodeTotalsAfter(old(reg.nodesTotal), agents)
    ensures reg.nodes == NodesAfter(old(reg.nodes), agents)
  {
    ZeroNodeSeries(reg, agents);
    CountNodeSeries(reg, agents);
  }

  /** Count the derived node statuses in a local map while marking each agent's series,
      then `Set` every counted total */
  method CountNodeSeries(reg: Registry, agents: seq<Agent>)
    modifies reg`nodesTotal, reg`nodes
    ensures reg.nodesTotal == old(reg.nodesTotal) + Tallies(NodeLabels(agents))
    ensures reg.nodes == Marked(old(reg.nodes), AgentKeys(agents))
  {
    ghost var labels := NodeLabels(agents);
    var nodeStatusCounts: map<string, int> := map[];
    var i := 0;
    assert labels[..0] == [];
    assert agents[..0] == [];
    while i < |agents|
      invariant 0 <= i <= |agents|
      invariant nodeStatusCounts == Counted(labels, i)
      invariant reg.nodes == Marked(old(reg.nodes), AgentKeys(agents[..i]))
      invariant reg.nodesTotal == old(reg.nodesTotal)
    {
      nodeStatusCounts := CountAgent(nodeStatusCounts, agents, i);
      MarkAgent(reg, old(reg.nodes), agents, i);
      i := i + 1;
    }
    CountedAll(labels, i);
    assert agents[..i] == agents;
    assert labels[..i] == labels;
    SetNodeTotals(reg, nodeStatusCounts);
  }

  /** `nodeStatusCounts[nodeStatus]++` for agent `i`: the count map of the first `i`
      agents becomes that of the first `i + 1` */
  method CountAgent(counts: map<string, int>, agents: seq<Agent>, i: nat) returns (counts': map<string, int>)
    requires i < |agents| && counts == Counted(NodeLabels(agents), i)
    ensures counts' == Counted(NodeLabels(agents), i + 1)
  {
    var nodeStatus := NodeStatus(agents[i]);
    CountedAgentStep(agents, i);
    counts' := counts[nodeStatus := Current(counts, nodeStatus) + 1];
  }

  /** `Set(count)` on the total of every node status in the count map, in any order */
  method SetNodeTotals(reg: Registry, counts: map<string, int>)
    modifies reg`nodesTotal
    ensures reg.nodesTotal == old(reg.nodesTotal) + counts
  {
    var pending := counts.Keys;
    while pending != {}
      invariant pending <= counts.Keys
      invariant reg.nodesTotal == old(reg.nodesTotal) + Restricted(counts, counts.Keys - pending)
      decreases pending
    {
      var status :| status in pending;
      SetOneMore(old(reg.nodesTotal), counts, counts.Keys - pending, status);
      assert counts.Keys - (pending - {status}) == counts.Keys - pending + {status};
      reg.nodesTotal := reg.nodesTotal[status := counts[status]];
      pending := pending - {status};
    }
    assert Restricted(counts, counts.Keys - pending) == counts;
  }

  /** The PITR pass: staleness of the lock found (pbmLockOp only when pbmLock has no
      document), the chunk count when counting succeeds, and the age of the newest chunk
      when the chunk query succeeds and finds one */
  method PitrPass(reg: Registry, db: GoReads, now: int)
    modifies reg
    ensures reg.Exposed() == GoPitrWritten(old(reg.Exposed()), db, now)
  {
    PitrWrites(reg, db, now);
  }

  /** The writes of the PITR pass */
  method PitrWrites(reg: Registry, db: GoReads, now: int)
    modifies reg`pitrError, reg`pitrChunksTotal, reg`lastPitrChunkSince
    ensures reg.pitrError == Some(if PitrStale(GoPitrLock(db.pbmLock, db.pbmLockOp), now) then 1 else 0)
    ensures reg.pitrChunksTotal == (if db.chunkCount.Some? then Some(db.chunkCount.value) else old(reg.pitrChunksTotal))
    ensures reg.lastPitrChunkSince == GoChunkSince(old(reg.lastPitrChunkSince), db.chunks, now)
  {
    var found := db.pbmLock;
    if found.NoDocuments? {
      found := db.pbmLockOp;
    }
    var pitrStale := !found.Found? || found.lock.hbHigh + GraceSeconds < now;
    if pitrStale {
      reg.pitrError := Some(1);
    } else {
      reg.pitrError := Some(0);
    }
    if db.chunkCount.Some? {
      reg.pitrChunksTotal := Some(db.chunkCount.value);
    }
    if db.chunks.Some? {
      var lastChunk := LatestChunk(db.chunks.value);
      if lastChunk.Some? {
        reg.lastPitrChunkSince := Some(now - lastChunk.value.endHigh);
      }
    }
  }
}
