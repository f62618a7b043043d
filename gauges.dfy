/** The ten gauges the exporter registers, as one registry object whose fields the
    projection overwrites in place. A labelled gauge is a map from its label tuple to
    the value of that series; an unlabelled gauge holds one optional value, None while
    it exposes no series. */
module Gauges {
  import opened Pbm
  import opened Series

  /** A sample of `pbm_last_snapshot_since_seconds`: JavaScript's arithmetic on a date
      it cannot parse yields NaN, which the gauge stores as it is */
  datatype Reading = Value(seconds: int) | NaN

  /** What the ten gauges expose at one moment */
  datatype Values = Values(
    snapshotsTotal: map<string, int>,
    snapshots: map<DetailKey, int>,
    lastSnapshot: map<string, int>,
    lastSnapshotError: Option<int>,
    lastSnapshotSince: Option<Reading>,
    nodesTotal: map<string, int>,
    nodes: map<NodeKey, int>,
    pitrChunksTotal: Option<int>,
    pitrError: Option<int>,
    lastPitrChunkSince: Option<int>)

  /** The gauges after one poll, the statuses known after it, and how it ended */
  datatype Poll = Poll(values: Values, known: set<string>, outcome: Outcome)

  /** The status-labelled series are those of the statuses seen so far: every known
      status has a total, and no other status label carries a series */
  predicate Tracked(v: Values, known: set<string>)
  {
    && v.snapshotsTotal.Keys == known
    && v.lastSnapshot.Keys <= known
    && (forall k :: k in v.snapshots ==> k.1 in known)
  }

  /** The three PITR gauges hold the same values in both states */
  predicate SamePitr(v: Values, w: Values)
  {
    v.pitrError == w.pitrError && v.pitrChunksTotal == w.pitrChunksTotal && v.lastPitrChunkSince == w.lastPitrChunkSince
  }

  /** The three status-labelled backup gauges after the pre-zero pass and the per-backup
      writes, with the newest backup marked as last */
  function BackupSeriesAfter(v: Values, known: set<string>, backups: seq<Backup>): (r: Values)
    ensures Tracked(v, known) ==> Tracked(r, known + Statuses(backups))
  {
    var r := v.(snapshotsTotal := TotalsAfter(v.snapshotsTotal, known, backups),
                snapshots := DetailAfter(v.snapshots, known, backups),
                lastSnapshot := LastAfter(v.lastSnapshot, known, backups));
    assert Tracked(v, known) ==> Tracked(r, known + Statuses(backups)) by {
      if Tracked(v, known) {
        AfterKeys(v.snapshotsTotal, v.snapshots, v.lastSnapshot, known, backups);
      }
    }
    r
  }

  /** The three status-labelled backup gauges after the pre-zero pass and the per-backup
      writes, before the newest backup is marked as last */
  function BackupSeriesCounted(v: Values, known: set<string>, backups: seq<Backup>): Values
  {
    v.(snapshotsTotal := TotalsAfter(v.snapshotsTotal, known, backups),
       snapshots := DetailAfter(v.snapshots, known, backups),
       lastSnapshot := Zeroed(v.lastSnapshot, known))
  }

  /** `pbm_last_snapshot` of the newest backup's status set to 1, when there are backups */
  function NewestMarked(v: Values, backups: seq<Backup>): Values
  {
    if backups == [] then v else v.(lastSnapshot := v.lastSnapshot[backups[0].status := 1])
  }

  /** The two node gauges after the pre-zero pass and the per-agent writes */
  function NodeSeriesAfter(v: Values, agents: seq<Agent>): Values
  {
    v.(nodesTotal := NodeTotalsAfter(v.nodesTotal, agents), nodes := NodesAfter(v.nodes, agents))
  }

  class Registry {
    var snapshotsTotal: map<string, int>        // pbm_snapshots_total{status}
    var snapshots: map<DetailKey, int>          // pbm_snapshots{name, status}
    var lastSnapshot: map<string, int>          // pbm_last_snapshot{status}
    var lastSnapshotError: Option<int>          // pbm_last_snapshot_error
    var lastSnapshotSince: Option<Reading>      // pbm_last_snapshot_since_seconds
    var nodesTotal: map<string, int>            // pbm_nodes_total{status}
    var nodes: map<NodeKey, int>                // pbm_nodes{rs, host, status}
    var pitrChunksTotal: Option<int>            // pbm_pitr_chunks_total
    var pitrError: Option<int>                  // pbm_pitr_error
    var lastPitrChunkSince: Option<int>         // pbm_last_pitr_chunk_since_seconds

    /** The Go client library: a labelled gauge starts without series, an unlabelled
        one exposes 0 from the start */
    constructor Go()
      ensures snapshotsTotal == map[] && snapshots == map[] && lastSnapshot == map[]
      ensures nodesTotal == map[] && nodes == map[]
      ensures lastSnapshotError == Some(0) && lastSnapshotSince == Some(Value(0))
      ensures pitrChunksTotal == Some(0) && pitrError == Some(0) && lastPitrChunkSince == Some(0)
    {
      snapshotsTotal, snapshots, lastSnapshot := map[], map[], map[];
      nodesTotal, nodes := map[], map[];
      lastSnapshotError, lastSnapshotSince := Some(0), Some(Value(0));
      pitrChunksTotal, pitrError, lastPitrChunkSince := Some(0), Some(0), Some(0);
    }

    /** prom-client: the same, except that pbm_last_snapshot_error and pbm_pitr_error
        are declared with a `status` label and so start without series */
    constructor PromClient()
      ensures snapshotsTotal == map[] && snapshots == map[] && lastSnapshot == map[]
      ensures nodesTotal == map[] && nodes == map[]
      ensures lastSnapshotError == None && lastSnapshotSince == Some(Value(0))
      ensures pitrChunksTotal == Some(0) && pitrError == None && lastPitrChunkSince == Some(0)
    {
      snapshotsTotal, snapshots, lastSnapshot := map[], map[], map[];
      nodesTotal, nodes := map[], map[];
      lastSnapshotError, lastSnapshotSince := None, Some(Value(0));
      pitrChunksTotal, pitrError, lastPitrChunkSince := Some(0), None, Some(0);
    }

    function Exposed(): Values
      reads this
    {
      Values(snapshotsTotal, snapshots, lastSnapshot, lastSnapshotError, lastSnapshotSince,
             nodesTotal, nodes, pitrChunksTotal, pitrError, lastPitrChunkSince)
    }

    ghost predicate Tracks(known: set<string>)
      reads this
    {
      Tracked(Exposed(), known)
    }
  }
}
