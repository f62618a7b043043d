/** The write passes of the projection that the three exporters share: the pre-zero
    passes over the backup and node series, and the `inc` passes and the last-snapshot
    writes of the two prom-client exporters (TypeScript and JavaScript). */
module Projection {
  import opened Pbm
  import opened Series
  import opened Gauges

  // ------------------------------------------------------------------------------------
  // One labelled write inside a per-backup or per-agent loop, stated against the value
  // the gauge had when the loop began

  /** `set(1)` on the detail series of backup `i` */
  method MarkBackup(reg: Registry, ghost d: map<DetailKey, int>, backups: seq<Backup>, i: nat)
    requires i < |backups|
    requires reg.snapshots == Marked(d, BackupKeys(backups[..i]))
    modifies reg`snapshots
    ensures reg.snapshots == Marked(d, BackupKeys(backups[..i + 1]))
  {
    var b := backups[i];
    TakeOneMore(backups, i);
    BackupsSnoc(backups[..i], b, {}, b.status);
    MarkedOneMore(d, BackupKeys(backups[..i]), (b.name, b.status));
    reg.snapshots := reg.snapshots[(b.name, b.status) := 1];
  }

  /** `inc(1)` on the status total of backup `i` */
  method IncBackupTotal(reg: Registry, ghost t: map<string, int>, backups: seq<Backup>, i: nat)
    requires i < |backups|
    requires reg.snapshotsTotal == Incremented(t, StatusLabels(backups)[..i])
    modifies reg`snapshotsTotal
    ensures reg.snapshotsTotal == Incremented(t, StatusLabels(backups)[..i + 1])
  {
    var status := backups[i].status;
    IncrementedStep(t, StatusLabels(backups), i);
    reg.snapshotsTotal := reg.snapshotsTotal[status := Current(reg.snapshotsTotal, status) + 1];
  }

  /** `set(1)` on the series of agent `i` under its derived status */
  method MarkAgent(reg: Registry, ghost n: map<NodeKey, int>, agents: seq<Agent>, i: nat)
    requires i < |agents|
    requires reg.nodes == Marked(n, AgentKeys(agents[..i]))
    modifies reg`nodes
    ensures reg.nodes == Marked(n, AgentKeys(agents[..i + 1]))
  {
    var agent := agents[i];
    var nodeStatus := NodeStatus(agent);
    TakeOneMore(agents, i);
    AgentsSnoc(agents[..i], agent, nodeStatus);
    MarkedOneMore(n, AgentKeys(agents[..i]), (agent.rs, Host(agent), nodeStatus));
    reg.nodes := reg.nodes[(agent.rs, Host(agent), nodeStatus) := 1];
  }

  /** `inc(1)` on the node total of agent `i`'s derived status */
  method IncAgentTotal(reg: Registry, ghost t: map<string, int>, agents: seq<Agent>, i: nat)
    requires i < |agents|
    requires reg.nodesTotal == Incremented(t, NodeLabels(agents)[..i])
    modifies reg`nodesTotal
    ensures reg.nodesTotal == Incremented(t, NodeLabels(agents)[..i + 1])
  {
    var nodeStatus := NodeStatus(agents[i]);
    IncrementedStep(t, NodeLabels(agents), i);
    reg.nodesTotal := reg.nodesTotal[nodeStatus := Current(reg.nodesTotal, nodeStatus) + 1];
  }

  /** For every status known before the poll: `set(0)` on its total and its "last"
      series, and on its detail series for every fetched backup name */
  method ZeroSnapshotSeries(reg: Registry, known: set<string>, backups: seq<Backup>)
    modifies reg`snapshotsTotal, reg`lastSnapshot, reg`snapshots
    ensures reg.snapshotsTotal == Zeroed(old(reg.snapshotsTotal), known)
    ensures reg.lastSnapshot == Zeroed(old(reg.lastSnapshot), known)
    ensures reg.snapshots == Zeroed(old(reg.snapshots), DetailKeys(backups, known))
  {
    var pending := known;
    ghost var done: set<string> := {};
    assert DetailKeys(backups, {}) == {};
    while pending != {}
      invariant pending <= known && done == known - pending
      invariant reg.snapshotsTotal == Zeroed(old(reg.snapshotsTotal), done)
      invariant reg.lastSnapshot == Zeroed(old(reg.lastSnapshot), done)
      invariant reg.snapshots == Zeroed(old(reg.snapshots), DetailKeys(backups, done))
      decreases pending
    {
      var s :| s in pending;
      ZeroStatusSeries(reg, backups, old(reg.snapshotsTotal), old(reg.lastSnapshot), old(reg.snapshots), done, s);
      pending := pending - {s};
      done := done + {s};
    }
    assert done == known;
  }

  /** `set(0)` on the total, the "last" series and the detail series of one more status */
  method ZeroStatusSeries(reg: Registry, backups: seq<Backup>, ghost t: map<string, int>, ghost l: map<string, int>,
                          ghost d: map<DetailKey, int>, ghost done: set<string>, s: string)
    requires reg.snapshotsTotal == Zeroed(t, done)
    requires reg.lastSnapshot == Zeroed(l, done)
    requires reg.snapshots == Zeroed(d, DetailKeys(backups, done))
    modifies reg`snapshotsTotal, reg`lastSnapshot, reg`snapshots
    ensures reg.snapshotsTotal == Zeroed(t, done + {s})
    ensures reg.lastSnapshot == Zeroed(l, done + {s})
    ensures reg.snapshots == Zeroed(d, DetailKeys(backups, done + {s}))
  {
    ZeroStatusStep(t, l, d, backups, done, s);
    reg.snapshotsTotal := reg.snapshotsTotal[s := 0];
    reg.lastSnapshot := reg.lastSnapshot[s := 0];
    ZeroDetailOfStatus(reg, backups, s);
  }

  /** `set(0)` on the detail series of one status for every fetched backup name */
  method ZeroDetailOfStatus(reg: Registry, backups: seq<Backup>, s: string)
    modifies reg`snapshots
    ensures reg.snapshots == Zeroed(old(reg.snapshots), DetailKeys(backups, {s}))
  {
    var j := 0;
    while j < |backups|
      invariant 0 <= j <= |backups|
      invariant reg.snapshots == Zeroed(old(reg.snapshots), DetailKeys(backups[..j], {s}))
    {
      var backup := backups[j];
      TakeOneMore(backups, j);
      BackupsSnoc(backups[..j], backup, {s}, s);
      ZeroedOneMore(old(reg.snapshots), DetailKeys(backups[..j], {s}), (backup.name, s));
      reg.snapshots := reg.snapshots[(backup.name, s) := 0];
      j := j + 1;
    }
    assert backups[..j] == backups;
  }

  /** For every fetched backup: remember its status, `inc(1)` its status total and
      `set(1)` its detail series (prometheus.ts and index.js) */
  method IncBackupSeries(reg: Registry, known: set<string>, backups: seq<Backup>) returns (known': set<string>)
    modifies reg`snapshotsTotal, reg`snapshots
    ensures known' == known + Statuses(backups)
    ensures reg.snapshotsTotal == Incremented(old(reg.snapshotsTotal), StatusLabels(backups))
    ensures reg.snapshots == Marked(old(reg.snapshots), BackupKeys(backups))
  {
    ghost var labels := StatusLabels(backups);
    known' := known;
    var i := 0;
    while i < |backups|
      invariant 0 <= i <= |backups|
      invariant known' == Remembered(known, backups, i)
      invariant reg.snapshotsTotal == Incremented(old(reg.snapshotsTotal), labels[..i])
      invariant reg.snapshots == Marked(old(reg.snapshots), BackupKeys(backups[..i]))
    {
      var b := backups[i];
      known' := known' + {b.status};
      IncBackupTotal(reg, old(reg.snapshotsTotal), backups, i);
      MarkBackup(reg, old(reg.snapshots), backups, i);
      i := i + 1;
    }
    RememberedAll(known, backups, i);
    assert backups[..i] == backups;
    assert labels[..i] == labels;
  }

  /** The newest backup's status series reads 1, the error flag says whether that
      status is exactly "error", and the since gauge reads Math.round of the
      milliseconds since the date its name parses to (NaN when it does not parse);
      without backups the three are not written (prometheus.ts and index.js) */
  method MarkLastSnapshot(reg: Registry, backups: seq<Backup>, dateMillis: string -> Option<int>, nowMillis: int)
    modifies reg`lastSnapshot, reg`lastSnapshotError, reg`lastSnapshotSince
    ensures reg.lastSnapshot == if backups == [] then old(reg.lastSnapshot)
                                else old(reg.lastSnapshot)[backups[0].status := 1]
    ensures backups == [] ==> unchanged(reg`lastSnapshotError, reg`lastSnapshotSince)
    ensures backups != [] ==>
      && reg.lastSnapshotError == Some(if backups[0].status == ErrorStatus then 1 else 0)
      && reg.lastSnapshotSince == match dateMillis(backups[0].name)
                                  case Some(t) => Some(Value(RoundMillis(nowMillis - t)))
                                  case None => Some(NaN)
  {
    if |backups| > 0 {
      var lastBackup := backups[0];
      reg.lastSnapshot := reg.lastSnapshot[lastBackup.status := 1];
      reg.lastSnapshotError := Some(if lastBackup.status == ErrorStatus then 1 else 0);
      match dateMillis(lastBackup.name) {
        case Some(t) => reg.lastSnapshotSince := Some(Value(RoundMillis(nowMillis - t)));
        case None => reg.lastSnapshotSince := Some(NaN);
      }
    }
  }

  /** For both node statuses: `set(0)` on its total and on its series for every
      fetched agent */
  method ZeroNodeSeries(reg: Registry, agents: seq<Agent>)
    modifies reg`nodesTotal, reg`nodes
    ensures reg.nodesTotal == Zeroed(old(reg.nodesTotal), {OkStatus, ErrorStatus})
    ensures reg.nodes == Zeroed(old(reg.nodes), NodeKeys(agents, {OkStatus, ErrorStatus}))
  {
    var statuses := [OkStatus, ErrorStatus];
    var k := 0;
    assert LabelSet(statuses[..0]) == {};
    while k < |statuses|
      invariant 0 <= k <= |statuses|
      invariant reg.nodesTotal == Zeroed(old(reg.nodesTotal), LabelSet(statuses[..k]))
      invariant reg.nodes == Zeroed(old(reg.nodes), NodeKeys(agents, LabelSet(statuses[..k])))
    {
      var st := statuses[k];
      ZeroNodeStatusStep(old(reg.nodesTotal), old(reg.nodes), agents, statuses, k);
      reg.nodesTotal := reg.nodesTotal[st := 0];
      ZeroNodesOfStatus(reg, agents, st);
      k := k + 1;
    }
    assert statuses[..k] == statuses;
    assert LabelSet(statuses) == {OkStatus, ErrorStatus};
  }

  /** `set(0)` on the series of one node status for every fetched agent */
  method ZeroNodesOfStatus(reg: Registry, agents: seq<Agent>, st: string)
    modifies reg`nodes
    ensures reg.nodes == Zeroed(old(reg.nodes), NodeKeys(agents, {st}))
  {
    var j := 0;
    while j < |agents|
      invariant 0 <= j <= |agents|
      invariant reg.nodes == Zeroed(old(reg.nodes), NodeKeys(agents[..j], {st}))
    {
      var agent := agents[j];
      TakeOneMore(agents, j);
      AgentsSnoc(agents[..j], agent, st);
      ZeroedOneMore(old(reg.nodes), NodeKeys(agents[..j], {st}), (agent.rs, Host(agent), st));
      reg.nodes := reg.nodes[(agent.rs, Host(agent), st) := 0];
      j := j + 1;
    }
    assert agents[..j] == agents;
  }

  /** For every fetched agent: `inc(1)` the total of its derived status and `set(1)` its
      series for that status (prometheus.ts and index.js) */
  method IncNodeSeries(reg: Registry, agents: seq<Agent>)
    modifies reg`nodesTotal, reg`nodes
    ensures reg.nodesTotal == Incremented(old(reg.nodesTotal), NodeLabels(agents))
    ensures reg.nodes == Marked(old(reg.nodes), AgentKeys(agents))
  {
    ghost var labels := NodeLabels(agents);
    var i := 0;
    while i < |agents|
      invariant 0 <= i <= |agents|
      invariant reg.nodesTotal == Incremented(old(reg.nodesTotal), labels[..i])
      invariant reg.nodes == Marked(old(reg.nodes), AgentKeys(agents[..i]))
    {
      IncAgentTotal(reg, old(reg.nodesTotal), agents, i);
      MarkAgent(reg, old(reg.nodes), agents, i);
      i := i + 1;
    }
    assert agents[..i] == agents;
    assert labels[..i] == labels;
  }

  // ------------------------------------------------------------------------------------
  // The three prom-client passes, shared by prometheus.ts and index.js

  /** The error flag and the since gauge after the backup pass: whether the newest backup
      failed, and Math.round of the seconds since the date its name parses to, NaN when
      it does not parse; without backups neither is written */
  function PromLastSnapshot(v: Values, backups: seq<Backup>, dateMillis: string -> Option<int>, nowMillis: int)
    : (r: Values)
    ensures backups == [] ==> r == v
    ensures backups != [] ==>
      && r == v.(lastSnapshotError := r.lastSnapshotError, lastSnapshotSince := r.lastSnapshotSince)
      && r.lastSnapshotError.Some? && (r.lastSnapshotError.value == 1 <==> backups[0].status == ErrorStatus)
      && (r.lastSnapshotError.value == 0 || r.lastSnapshotError.value == 1)
      && r.lastSnapshotSince.Some?
      && (r.lastSnapshotSince.value.NaN? <==> dateMillis(backups[0].name).None?)
      && (r.lastSnapshotSince.value.Value? ==>
            var ms := nowMillis - dateMillis(backups[0].name).value;
            r.lastSnapshotSince.value.seconds * 1000 - 500 <= ms < r.lastSnapshotSince.value.seconds * 1000 + 500)
  {
    if backups == [] then v
    else
      v.(lastSnapshotError := Some(if backups[0].status == ErrorStatus then 1 else 0),
         lastSnapshotSince := match dateMillis(backups[0].name)
                              case Some(t) => Some(Value(RoundMillis(nowMillis - t)))
                              case None => Some(NaN))
  }

  /** The gauges after the backup pass and the node pass, which both prom-client exporters
      run in this order */
  function PromWritten(v: Values, known: set<string>, backups: seq<Backup>, agents: seq<Agent>,
                       dateMillis: string -> Option<int>, nowMillis: int): Values
  {
    NodeSeriesAfter(PromLastSnapshot(BackupSeriesAfter(v, known, backups), backups, dateMillis, nowMillis), agents)
  }

  /** The gauges after the backup and node passes and then, when `pitrLock` holds the
      lock the PITR pass looks at, the PITR pass */
  function PromPolled(v: Values, known: set<string>, db: PromReads, pitrLock: Option<Option<Lock>>,
                      dateMillis: string -> Option<int>, nowMillis: int): Values
  {
    var written := PromWritten(v, known, db.backups, db.agents, dateMillis, nowMillis);
    match pitrLock
    case None => written
    case Some(lock) => PromPitr(written, lock, db.chunkCount, db.chunks, nowMillis)
  }

  /** The three PITR gauges after the PITR pass, `now` being the clock rounded to seconds */
  function PromPitr(v: Values, lock: Option<Lock>, chunkCount: nat, chunks: seq<Chunk>, nowMillis: int)
    : (r: Values)
    ensures r == v.(pitrError := r.pitrError, pitrChunksTotal := r.pitrChunksTotal,
                    lastPitrChunkSince := r.lastPitrChunkSince)
    ensures r.pitrError == Some(1) <==> PitrStale(lock, RoundMillis(nowMillis))
    ensures r.pitrError == Some(0) || r.pitrError == Some(1)
    ensures r.pitrChunksTotal == Some(chunkCount)
    ensures chunks == [] ==> r.lastPitrChunkSince == v.lastPitrChunkSince
    ensures chunks != [] ==>
      exists c :: c in chunks && r.lastPitrChunkSince == Some(RoundMillis(nowMillis) - c.endHigh) &&
        forall d :: d in chunks ==> StartsNoLater(d, c)
  {
    var now := RoundMillis(nowMillis);
    v.(pitrError := Some(if PitrStale(lock, now) then 1 else 0),
       pitrChunksTotal := Some(chunkCount),
       lastPitrChunkSince := match LatestChunk(chunks)
                             case Some(c) => Some(now - c.endHigh)
                             case None => v.lastPitrChunkSince)
  }

  /** Pre-zero and then `inc`/`set(1)` per backup; the "last" series are left zeroed */
  method PromSeriesWrites(reg: Registry, known: set<string>, backups: seq<Backup>) returns (known': set<string>)
    requires reg.Tracks(known)
    modifies reg`snapshotsTotal, reg`snapshots, reg`lastSnapshot
    ensures known' == known + Statuses(backups)
    ensures reg.snapshotsTotal == TotalsAfter(old(reg.snapshotsTotal), known, backups)
    ensures reg.snapshots == DetailAfter(old(reg.snapshots), known, backups)
    ensures reg.lastSnapshot == Zeroed(old(reg.lastSnapshot), known)
  {
    ZeroSnapshotSeries(reg, known, backups);
    known' := IncBackupSeries(reg, known, backups);
    IncrementAfterZeroIsSet(old(reg.snapshotsTotal), known, StatusLabels(backups));
  }

  /** The node pass: pre-zero both statuses, then `inc`/`set(1)` per agent */
  method PromNodeWrites(reg: Registry, agents: seq<Agent>)
    modifies reg`nodesTotal, reg`nodes
    ensures reg.nodesTotal == NodeTotalsAfter(old(reg.nodesTotal), agents)
    ensures reg.nodes == NodesAfter(old(reg.nodes), agents)
  {
    ZeroNodeSeries(reg, agents);
    IncNodeSeries(reg, agents);
    IncrementAfterZeroIsSet(old(reg.nodesTotal), {OkStatus, ErrorStatus}, NodeLabels(agents));
  }

  /** The PITR pass, run when PITR is enabled */
  method PromPitrWrites(reg: Registry, lock: Option<Lock>, chunkCount: nat, chunks: seq<Chunk>, nowMillis: int)
    modifies reg`pitrError, reg`pitrChunksTotal, reg`lastPitrChunkSince
    ensures reg.pitrError == Some(if PitrStale(lock, RoundMillis(nowMillis)) then 1 else 0)
    ensures reg.pitrChunksTotal == Some(chunkCount)
    ensures reg.lastPitrChunkSince == match LatestChunk(chunks)
                                      case Some(c) => Some(RoundMillis(nowMillis) - c.endHigh)
                                      case None => old(reg.lastPitrChunkSince)
  {
    var now := RoundMillis(nowMillis);
    var pitrStale := lock.None? || lock.value.hbHigh + GraceSeconds < now;
    reg.pitrError := Some(if pitrStale then 1 else 0);
    reg.pitrChunksTotal := Some(chunkCount);
    var lastChunk := LatestChunk(chunks);
    if lastChunk.Some? {
      reg.lastPitrChunkSince := Some(now - lastChunk.value.endHigh);
    }
  }

  /** The backup pass, as a change of the whole gauge state */
  method PromBackupPass(reg: Registry, known: set<string>, backups: seq<Backup>,
                        dateMillis: string -> Option<int>, nowMillis: int) returns (known': set<string>)
    requires reg.Tracks(known)
    modifies reg
    ensures known' == known + Statuses(backups)
    ensures reg.Exposed() == PromLastSnapshot(BackupSeriesAfter(old(reg.Exposed()), known, backups),
                                             backups, dateMillis, nowMillis)
  {
    ghost var v := reg.Exposed();
    known' := PromSeriesPass(reg, known, backups);
    PromLastPass(reg, backups, dateMillis, nowMillis);
    assert NewestMarked(BackupSeriesCounted(v, known, backups), backups) == BackupSeriesAfter(v, known, backups);
  }

  /** Pre-zero and then `inc`/`set(1)` per backup, as a change of the whole gauge state.
      The status-labelled gauges it leaves are the ones the Go exporter's counting
      leaves. */
  method PromSeriesPass(reg: Registry, known: set<string>, backups: seq<Backup>) returns (known': set<string>)
    requires reg.Tracks(known)
    modifies reg
    ensures known' == known + Statuses(backups)
    ensures reg.Exposed() == BackupSeriesCounted(old(reg.Exposed()), known, backups)
  {
    known' := PromSeriesWrites(reg, known, backups);
  }

  /** The last-snapshot gauges, as a change of the whole gauge state */
  method PromLastPass(reg: Registry, backups: seq<Backup>, dateMillis: string -> Option<int>, nowMillis: int)
    modifies reg
    ensures reg.Exposed() == PromLastSnapshot(NewestMarked(old(reg.Exposed()), backups), backups, dateMillis, nowMillis)
  {
    MarkLastSnapshot(reg, backups, dateMillis, nowMillis);
  }

  /** The node pass, as a change of the whole gauge state */
  method PromNodePass(reg: Registry, agents: seq<Agent>)
    modifies reg
    ensures reg.Exposed() == NodeSeriesAfter(old(reg.Exposed()), agents)
  {
    PromNodeWrites(reg, agents);
  }

  /** The PITR pass, as a change of the whole gauge state */
  method PromPitrPass(reg: Registry, lock: Option<Lock>, chunkCount: nat, chunks: seq<Chunk>, nowMillis: int)
    modifies reg
    ensures reg.Exposed() == PromPitr(old(reg.Exposed()), lock, chunkCount, chunks, nowMillis)
  {
    PromPitrWrites(reg, lock, chunkCount, chunks, nowMillis);
  }
}
