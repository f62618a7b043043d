/** The JavaScript exporter (server/index.js): one call of updateStatus. It does not check
    for a configuration document: without one it writes the backup and node gauges and
    then throws when it reads `pitr` of null. It looks for the PITR lock in pbmLock only. */
module JsExporter {
  import opened Pbm
  import opened Series
  import opened Gauges
  import opened Projection

  /** What one call of updateStatus makes of the gauges and of the known statuses */
  function JsPoll(v: Values, known: set<string>, db: PromReads, dateMillis: string -> Option<int>, nowMillis: int)
    : (after: Poll)
    ensures after.known == known + Statuses(db.backups)
    ensures after.outcome == if db.config.None? then Failure(NullConfigMessage) else Success
    ensures known <= after.known
    ensures !(db.config.Some? && db.config.value.pitrEnabled) ==> SamePitr(after.values, v)
    ensures Tracked(v, known) ==> Tracked(after.values, after.known)
  {
    Poll(PromPolled(v, known, db, JsPitrLock(db), dateMillis, nowMillis), known + Statuses(db.backups),
         if db.config.None? then Failure(NullConfigMessage) else Success)
  }

  /** The lock the PITR pass looks at, when it runs: pbmLock only */
  function JsPitrLock(db: PromReads): (lock: Option<Option<Lock>>)
    ensures lock.Some? <==> db.config.Some? && db.config.value.pitrEnabled
    ensures lock.Some? ==> (lock.value.None? <==> db.pbmLock.None?)
  {
    if db.config.Some? && db.config.value.pitrEnabled then Some(db.pbmLock) else None
  }

  /** pbmLockOp is never consulted: whatever it holds, the PITR pass sees the same lock */
  lemma JsIgnoresLockOp(db: PromReads, pbmLockOp: Option<Lock>)
    ensures JsPitrLock(db.(pbmLockOp := pbmLockOp)) == JsPitrLock(db)
  {
  }

  class Exporter {
    /** The module-level `snapshotStatuses` set: every backup status seen since start-up */
    var snapshotStatuses: set<string>

    constructor ()
      ensures snapshotStatuses == {}
    {
      snapshotStatuses := {};
    }

    /** One call of updateStatus, from the configuration lookup to the last PITR write */
    method UpdateStatus(reg: Registry, db: PromReads, dateMillis: string -> Option<int>, nowMillis: int)
      returns (outcome: Outcome)
      requires reg.Tracks(snapshotStatuses)
      modifies this, reg
      ensures var after := JsPoll(old(reg.Exposed()), old(snapshotStatuses), db, dateMillis, nowMillis);
        && reg.Exposed() == after.values
        && snapshotStatuses == after.known
        && outcome == after.outcome
      ensures reg.Tracks(snapshotStatuses)
    {
      snapshotStatuses := PromBackupPass(reg, snapshotStatuses, db.backups, dateMillis, nowMillis);
      PromNodePass(reg, db.agents);
      if db.config.None? {
        outcome := Failure(NullConfigMessage);
      } else {
        if db.config.value.pitrEnabled {
          PromPitrPass(reg, db.pbmLock, db.chunkCount, db.chunks, nowMillis);
        }
        outcome := Success;
      }
    }
  }
}
