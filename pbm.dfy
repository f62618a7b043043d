/** The records the exporter reads from the backup tool's control collections
    (pbmConfig, pbmBackups, pbmAgents, pbmLock, pbmLockOp, pbmPITRChunks), and the
    values the projection derives from them: the status of a node, the staleness of
    the PITR heartbeat, the lock lookup with its fallback, the newest PITR chunk and
    JavaScript's Math.round on a millisecond difference. */
module Pbm {

  datatype Option<T> = None | Some(value: T)

  /** pitr.enabled of the configuration document; a missing pitr field reads as false */
  datatype Config = Config(pitrEnabled: bool)

  datatype Backup = Backup(name: string, status: string)

  /** One pbmAgents document: replica set, node, and the three sub-health flags */
  datatype Agent = Agent(rs: string, n: string, pbmsOk: bool, nodesOk: bool, storsOk: bool)

  /** A lock document; only the high word of its heartbeat timestamp is read */
  datatype Lock = Lock(hbHigh: int)

  /** A PITR chunk: both words of its start timestamp (the seconds and the increment),
      which the chunk query sorts on, and the seconds of its end timestamp, which the
      age is computed from */
  datatype Chunk = Chunk(startHigh: int, startLow: int, endHigh: int)

  /** What the Go driver's FindOne(...).Decode gives back */
  datatype Lookup = Found(lock: Lock) | NoDocuments | Failed

  /** What a find(...) followed by reading the cursor gives back in the Go exporter:
      the documents, or a failure of the query or of decoding its results */
  datatype Fetch<T> = Fetched(items: T) | FindFailed | DecodeFailed

  /** Everything one poll of the Go exporter reads, in the order it reads it. The
      configuration is None when there is no document or it cannot be read; the chunks
      are None when the chunk query or its decoding fails. */
  datatype GoReads = GoReads(config: Option<Config>, backups: Fetch<seq<Backup>>,
                             agents: Fetch<seq<Agent>>, pbmLock: Lookup, pbmLockOp: Lookup,
                             chunkCount: Option<nat>, chunks: Option<seq<Chunk>>)

  /** Everything one poll of the JavaScript exporters reads; findOne gives null (None)
      when no document matches */
  datatype PromReads = PromReads(config: Option<Config>, backups: seq<Backup>, agents: seq<Agent>,
                                 pbmLock: Option<Lock>, pbmLockOp: Option<Lock>,
                                 chunkCount: nat, chunks: seq<Chunk>)

  /** How one poll ends: normally, or with the error returned (Go) or thrown (JavaScript) */
  datatype Outcome = Success | Failure(message: string)

  const FindBackupsFailed := "failed to find backups"
  const DecodeBackupsFailed := "failed to decode backups"
  const FindAgentsFailed := "failed to find agents"
  const DecodeAgentsFailed := "failed to decode agents"
  /** prometheus.ts checks for the configuration document before anything else */
  const NoConfigMessage := "no PBM config found in database"
  /** index.js reads `pitr` of a null configuration after the backup and node passes */
  const NullConfigMessage := "Cannot read properties of null (reading 'pitr')"

  /** The find() limit on pbmBackups and pbmAgents */
  const MaxRecords := 10000
  /** The grace window of the PITR heartbeat, in seconds */
  const GraceSeconds := 30
  const OkStatus := "ok"
  const ErrorStatus := "error"

  /** Byte-wise lexicographic order on names, as the database sorts them */
  predicate NameAtMost(a: string, b: string)
  {
    if a == [] then true
    else if b == [] then false
    else if a[0] != b[0] then a[0] < b[0]
    else NameAtMost(a[1..], b[1..])
  }

  /** What `sort({ name: -1 })` delivers: names in descending order */
  predicate SortedNewestFirst(backups: seq<Backup>)
  {
    forall i, j :: 0 <= i < j < |backups| ==> NameAtMost(backups[j].name, backups[i].name)
  }

  /** What one poll may read from pbmBackups */
  predicate FetchedBackups(backups: seq<Backup>)
  {
    |backups| <= MaxRecords && SortedNewestFirst(backups)
  }

  lemma {:induction false} NameAtMostReflexive(a: string)
    ensures NameAtMost(a, a)
  {
    if a != [] {
      NameAtMostReflexive(a[1..]);
    }
  }

  /** The backup the "last snapshot" gauges describe, the first one fetched, carries the
      greatest name of all fetched backups */
  lemma LastIsNewest(backups: seq<Backup>)
    requires FetchedBackups(backups) && backups != []
    ensures forall b :: b in backups ==> NameAtMost(b.name, backups[0].name)
  {
    forall b | b in backups ensures NameAtMost(b.name, backups[0].name) {
      var j :| 0 <= j < |backups| && backups[j] == b;
      if j == 0 {
        NameAtMostReflexive(b.name);
      }
    }
  }

  /** The status of every backup, in fetch order */
  function StatusLabels(backups: seq<Backup>): seq<string>
  {
    seq(|backups|, i requires 0 <= i < |backups| => backups[i].status)
  }

  /** The distinct statuses of the backups */
  function Statuses(backups: seq<Backup>): set<string>
  {
    set b | b in backups :: b.status
  }

  lemma StatusesAreLabels(backups: seq<Backup>)
    ensures Statuses(backups) == set l | l in StatusLabels(backups)
  {
    var labels := StatusLabels(backups);
    forall l | l in labels ensures l in Statuses(backups) {
      var i :| 0 <= i < |labels| && labels[i] == l;
      assert backups[i] in backups;
    }
    forall l | l in Statuses(backups) ensures l in labels {
      var b :| b in backups && b.status == l;
      var i :| 0 <= i < |backups| && backups[i] == b;
      assert labels[i] == l;
    }
  }

  /** The host label of an agent's node series */
  function Host(a: Agent): string
  {
    a.rs + "/" + a.n
  }

  /** A node is "ok" only when all three of its sub-health flags are set */
  function NodeStatus(a: Agent): (status: string)
    ensures status == OkStatus <==> a.pbmsOk && a.nodesOk && a.storsOk
    ensures status == OkStatus || status == ErrorStatus
  {
    if a.pbmsOk && a.nodesOk && a.storsOk then OkStatus else ErrorStatus
  }

  /** The derived status of every agent, in fetch order */
  function NodeLabels(agents: seq<Agent>): seq<string>
  {
    seq(|agents|, i requires 0 <= i < |agents| => NodeStatus(agents[i]))
  }

  /** The PITR operation is stale when there is no heartbeat at all, or when the
      heartbeat plus the grace window lies before now */
  predicate PitrStale(lock: Option<Lock>, now: int)
    ensures lock.None? ==> PitrStale(lock, now)
    ensures lock.Some? ==> (PitrStale(lock, now) <==> now - lock.value.hbHigh > GraceSeconds)
  {
    lock.None? || lock.value.hbHigh + GraceSeconds < now
  }

  /** As the clock advances, a stale PITR operation stays stale until a new heartbeat */
  lemma StaleStaysStale(lock: Option<Lock>, now: int, later: int)
    requires now <= later
    ensures PitrStale(lock, now) ==> PitrStale(lock, later)
  {
  }

  /** The staleness rule at its boundary: a heartbeat exactly 30 seconds old is fresh,
      one 31 seconds old is stale */
  lemma GraceWindowBoundary(now: int)
    ensures !PitrStale(Some(Lock(now - 29)), now)
    ensures !PitrStale(Some(Lock(now - 30)), now)
    ensures PitrStale(Some(Lock(now - 31)), now)
    ensures PitrStale(None, now)
  {
  }

  /** Go: look in pbmLock; only when that finds no document, look in pbmLockOp.
      Any other failure of the first lookup is final. */
  function GoPitrLock(pbmLock: Lookup, pbmLockOp: Lookup): (lock: Option<Lock>)
    ensures lock.Some? <==> pbmLock.Found? || (pbmLock.NoDocuments? && pbmLockOp.Found?)
    ensures pbmLock.Found? ==> lock == Some(pbmLock.lock)
    ensures pbmLock.NoDocuments? && pbmLockOp.Found? ==> lock == Some(pbmLockOp.lock)
  {
    var found := if pbmLock.NoDocuments? then pbmLockOp else pbmLock;
    if found.Found? then Some(found.lock) else None
  }

  /** TypeScript: look in pbmLock; when it gives null, look in pbmLockOp */
  function FallbackLock(pbmLock: Option<Lock>, pbmLockOp: Option<Lock>): (lock: Option<Lock>)
    ensures lock.None? <==> pbmLock.None? && pbmLockOp.None?
    ensures pbmLock.Some? ==> lock == pbmLock
    ensures pbmLock.None? ==> lock == pbmLockOp
  {
    if pbmLock.Some? then pbmLock else pbmLockOp
  }

  /** A Go lookup as the JavaScript driver reports a lookup that does not fail */
  function AsNullable(found: Lookup): Option<Lock>
  {
    if found.Found? then Some(found.lock) else None
  }

  /** When neither lookup fails, the Go exporter and prometheus.ts pick the same lock */
  lemma GoLockIsFallback(pbmLock: Lookup, pbmLockOp: Lookup)
    requires !pbmLock.Failed? && !pbmLockOp.Failed?
    ensures GoPitrLock(pbmLock, pbmLockOp) == FallbackLock(AsNullable(pbmLock), AsNullable(pbmLockOp))
  {
  }

  /** In Go, a failing first lookup makes the PITR operation stale whatever the
      heartbeat in pbmLockOp says */
  lemma FailedLookupIsStale(pbmLockOp: Lookup, now: int)
    ensures PitrStale(GoPitrLock(Failed, pbmLockOp), now)
  {
  }

  /** Timestamps compare by their seconds and then by their increment */
  predicate StartsNoLater(c: Chunk, d: Chunk)
  {
    c.startHigh < d.startHigh || (c.startHigh == d.startHigh && c.startLow <= d.startLow)
  }

  /** The chunk `find().sort({ start_ts: -1 }).limit(1)` returns: one with the greatest
      start timestamp (the first such one in the given order), none when there are no chunks */
  function LatestChunk(chunks: seq<Chunk>): (latest: Option<Chunk>)
    ensures latest.None? <==> chunks == []
    ensures latest.Some? ==> latest.value in chunks
    ensures latest.Some? ==> forall c :: c in chunks ==> StartsNoLater(c, latest.value)
  {
    if chunks == [] then None
    else
      match LatestChunk(chunks[1..])
      case None => Some(chunks[0])
      case Some(c) =>
        assert forall d :: d in chunks ==> d == chunks[0] || d in chunks[1..];
        if StartsNoLater(c, chunks[0]) then Some(chunks[0]) else Some(c)
  }

  /** Two chunks started in the same second: the one with the greater increment is the
      latest, whichever comes first */
  lemma IncrementBreaksTies()
    ensures LatestChunk([Chunk(100, 1, 150), Chunk(100, 2, 160)]) == Some(Chunk(100, 2, 160))
    ensures LatestChunk([Chunk(100, 2, 160), Chunk(100, 1, 150)]) == Some(Chunk(100, 2, 160))
  {
    assert [Chunk(100, 1, 150), Chunk(100, 2, 160)][1..] == [Chunk(100, 2, 160)];
    assert [Chunk(100, 2, 160), Chunk(100, 1, 150)][1..] == [Chunk(100, 1, 150)];
  }

  /** Math.round(ms / 1000): the nearest whole number of seconds, a half rounded up */
  function RoundMillis(ms: int): (seconds: int)
    ensures seconds * 1000 - 500 <= ms < seconds * 1000 + 500
  {
    (ms + 500) / 1000
  }

  /** The bounds above determine the rounded value */
  lemma RoundMillisUnique(ms: int, seconds: int)
    requires seconds * 1000 - 500 <= ms < seconds * 1000 + 500
    ensures seconds == RoundMillis(ms)
  {
  }
}
