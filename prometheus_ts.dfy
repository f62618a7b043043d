/** The TypeScript exporter (server/prometheus.ts): one call of updateStatus. It insists
    on a configuration document before writing anything, counts with `inc` on pre-zeroed
    series, and falls back from pbmLock to pbmLockOp when the first lookup finds nothing. */
module TsExporter {
  import opened Pbm
  import opened Series
  import opened Gauges
  import opened Projection

  /** What one call of updateStatus makes of the gauges and of the known statuses */
  function TsPoll(v: Values, known: set<string>, db: PromReads, dateMillis: string -> Option<int>, nowMillis: int)
    : (after: Poll)
    ensures db.config.None? ==> after == Poll(v, known, Failure(NoConfigMessage))
    ensures db.config.Some? ==> after.outcome == Success && after.known == known + Statuses(db.backups)
    ensures known <= after.known
    ensures !(db.config.Some? && db.config.value.pitrEnabled) ==> SamePitr(after.values, v)
    ensures Tracked(v, known) ==> Tracked(after.values, after.known)
  {
    if db.config.None? then Poll(v, known, Failure(NoConfigMessage))
    else
      Poll(PromPolled(v, known, db, TsPitrLock(db), dateMillis, nowMillis), known + Statuses(db.backups), Success)
  }

  /** The lock the PITR pass looks at, when it runs: pbmLock, or pbmLockOp when pbmLock
      gives null */
  function TsPitrLock(db: PromReads): (lock: Option<Option<Lock>>)
    ensures lock.Some? <==> db.config.Some? && db.config.value.pitrEnabled
    ensures lock.Some? ==> (lock.value.None? <==> db.pbmLock.None? && db.pbmLockOp.None?)
    ensures lock.Some? && db.pbmLock.Some? ==> lock.value == db.pbmLock
  {
    if db.config.Some? && db.config.value.pitrEnabled then Some(FallbackLock(db.pbmLock, db.pbmLockOp)) else None
  }

  class Exporter {
    /** The module-level `snapshotStatuses` set: every backup status seen since start-up */
    var snapshotStatuses: set<string>

    constructor ()
      ensures snapshotStatuses == {}
    {
      snapshotStatuses := {};
    }

    /** One call of updateStatus, from the configuration lookup to the last PITR write */
    method UpdateStatus(reg: Registry, db: PromReads, dateMillis: string -> Option<int>, nowMillis: int)
      returns (outcome: Outcome)
      requires reg.Tracks(snapshotStatuses)
      modifies this, reg
      ensures var after := TsPoll(old(reg.Exposed()), old(snapshotStatuses), db, dateMillis, nowMillis);
        && reg.Exposed() == after.values
        && snapshotStatuses == after.known
        && outcome == after.outcome
      ensures reg.Tracks(snapshotStatuses)
    {
      if db.config.None? {
        outcome := Failure(NoConfigMessage);
      } else {
        snapshotStatuses := PromBackupPass(reg, snapshotStatuses, db.backups, dateMillis, nowMillis);
        PromNodePass(reg, db.agents);
        if db.config.value.pitrEnabled {
          var lock := db.pbmLock;
          if lock.None? {
            lock := db.pbmLockOp;
          }
          PromPitrPass(reg, lock, db.chunkCount, db.chunks, nowMillis);
        }
        outcome := Success;
      }
    }
  }
}
