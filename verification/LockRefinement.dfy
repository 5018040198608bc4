/** Every interleaving of lock-granular transactions has the effect of a serial history of legal
    operations. */
module LockRefinement {
  import opened Model
  import opened RowOps
  import opened TokenBucket
  import opened Database
  import opened SerialRuns
  import opened Locks

  /** A change of the committed state that a transaction does not notice: its rows and buckets are
      as it saw them, no path it counted has more running rows, and its reserved keys are free. */
  ghost predicate Unnoticed(before: Db, after: Db, tx: Tx) {
    && before.rows.Keys <= after.rows.Keys
    && (forall i | i in tx.locked && i in before.rows :: after.rows[i] == before.rows[i])
    && (forall p | p in tx.buckets ::
          (p in before.buckets <==> p in after.buckets)
          && (p in before.buckets ==> before.buckets[p] == after.buckets[p]))
    && (forall p | p in tx.counted :: |RunningOf(after.rows, p)| <= |RunningOf(before.rows, p)|)
    && (forall k, i | k in tx.reserved && KeyFree(before.rows, i, Some(k)) :: KeyFree(after.rows, i, Some(k)))
  }

  lemma UnnoticedKeepsTx(limits: Limits, before: Db, after: Db, tx: Tx)
    requires TxOk(limits, before, tx) && Unnoticed(before, after, tx)
    ensures TxOk(limits, after, tx)
  {
    if tx.job.ClaimJob? {
      assert forall p :: OfPath(after.rows, tx.locked, p) == OfPath(before.rows, tx.locked, p);
    }
  }

  lemma FewerRunningAllowMore(b: Bucket, p: Policy, now: int, fewer: int, more: int, n: int)
    requires fewer <= more && n <= Allowance(b, p, now, more, n)
    ensures n <= Allowance(b, p, now, fewer, n)
  {
  }

  lemma ClaimIsLegal(limits: Limits, db: Db, tx: Tx)
    requires TxOk(limits, db, tx) && tx.job.ClaimJob?
    ensures Legal(limits, db, OpOf(tx))
  {
    forall p | p in tx.buckets
      ensures LegalPoll(limits, db, tx.locked, p, tx.job.now)
    {
      if p in tx.counted {
        var n := |OfPath(db.rows, tx.locked, p)|;
        if n > 0 {
          FewerRunningAllowMore(tx.buckets[p], limits[p], tx.job.now, |RunningOf(db.rows, p)|, tx.counted[p], n);
        }
      } else {
        assert OfPath(db.rows, tx.locked, p) == {};
      }
    }
  }

  /** A claim that commits writes what the atomic claim would. */
  lemma ClaimCommits(limits: Limits, db: Db, tx: Tx)
    requires TxOk(limits, db, tx) && tx.job.ClaimJob? && tx.buf.Keys == tx.locked
    ensures Committed(limits, db, tx) == RunOp(limits, db, OpOf(tx))
  {
    hide Claimed, Polled, Due, Allowance;
    assert forall p :: OfPath(tx.view, tx.locked, p) == OfPath(db.rows, tx.locked, p);
    assert db.rows + tx.buf == ClaimedRows(db.rows, tx.locked, tx.job.w, tx.job.now);
  }

  lemma ReapCommits(limits: Limits, db: Db, tx: Tx)
    requires TxOk(limits, db, tx) && tx.job.ReapJob? && tx.buf.Keys == tx.locked
    ensures Legal(limits, db, OpOf(tx))
    ensures Committed(limits, db, tx) == RunOp(limits, db, OpOf(tx))
  {
    hide Reaped, Stale;
    assert db.rows + tx.buf == ReapedRows(db.rows, tx.delays, tx.job.now);
  }

  lemma SingleCommits(limits: Limits, db: Db, tx: Tx)
    requires TxOk(limits, db, tx) && tx.job.Single? && tx.buf.Keys == tx.locked && tx.locked != {}
    ensures Legal(limits, db, OpOf(tx))
    ensures Committed(limits, db, tx) == RunOp(limits, db, OpOf(tx))
  {
    var op := tx.job.op;
    var id := op.id;
    assert tx.locked == {id};
    assert tx.buf == map[id := RowAfter(db.rows[id], op)];
    RowAfterKeepsKey(db.rows[id], op);
    assert !Conflicts(db.rows, id, tx.buf[id]);
    assert db.rows + tx.buf == Written(db.rows, id, tx.buf[id]);
  }

  /** The write that the unique index turns away is, at that moment, the operation itself. */
  lemma TurnedAwayIsOperation(limits: Limits, db: Db, tx: Tx, id: Id)
    requires TxOk(limits, db, tx) && id in tx.view && TurnedAway(db, tx, id)
    ensures Legal(limits, db, OpOf(tx))
    ensures RunOp(limits, db, OpOf(tx)) == db
  {
    assert id == tx.job.op.id;
    assert Conflicts(db.rows, id, RowAfter(db.rows[id], tx.job.op));
  }

  // ---- What the others see of a commit ----

  predicate NoneActivated(before: Rows, after: Rows) {
    && before.Keys == after.Keys
    && forall i | i in before ::
         after[i].uniqueKey == before[i].uniqueKey && (Active(after[i]) ==> Active(before[i]))
  }

  lemma OpActivatesNone(limits: Limits, db: Db, op: Op)
    requires Legal(limits, db, op) && !op.Create? && !op.Requeue? && !op.Release?
    ensures NoneActivated(db.rows, RunOp(limits, db, op).rows)
  {
    hide PolledBuckets, LegalPoll, RowAfter, Conflicts;
    if !op.Claim? && !op.Reap? && op.id in db.rows {
      RowAfterKeepsKey(db.rows[op.id], op);
      RowAfterActivates(db.rows[op.id], op);
    }
  }

  lemma KeysStayFree(before: Rows, after: Rows, i: Id, key: Option<string>)
    requires NoneActivated(before, after) && KeyFree(before, i, key)
    ensures KeyFree(after, i, key)
  {
  }

  /** A claim changes its locked rows and its buckets, all of whose paths it polled. */
  lemma ClaimChanges(limits: Limits, db: Db, tx: Tx)
    requires TxOk(limits, db, tx) && tx.job.ClaimJob?
    ensures var after := RunOp(limits, db, OpOf(tx));
            && after.rows.Keys == db.rows.Keys
            && (forall i | i in db.rows && i !in tx.locked :: after.rows[i] == db.rows[i])
            && (forall p | p !in tx.buckets :: p in after.buckets <==> p in db.buckets)
            && (forall p | p !in tx.buckets && p in db.buckets :: after.buckets[p] == db.buckets[p])
    ensures forall p | p in limits && p !in tx.buckets :: OfPath(db.rows, tx.locked, p) == {}
  {
    hide Claimed, Polled, Due, Allowance;
  }

  lemma ClaimUnnoticed(limits: Limits, db: Db, tx: Tx, u: Tx)
    requires TxOk(limits, db, tx) && TxOk(limits, db, u) && Apart(tx, u) && tx.job.ClaimJob?
    ensures Unnoticed(db, RunOp(limits, db, OpOf(tx)), u)
  {
    ClaimIsLegal(limits, db, tx);
    ClaimChanges(limits, db, tx);
    hide TxOk, RunOp, Legal, KeyFree;
    var after := RunOp(limits, db, OpOf(tx));
    OpActivatesNone(limits, db, OpOf(tx));
    forall p | p in u.counted
      ensures |RunningOf(after.rows, p)| <= |RunningOf(db.rows, p)|
    {
      OpRunning(limits, db, OpOf(tx), p);
    }
    forall k, i | k in u.reserved && KeyFree(db.rows, i, Some(k))
      ensures KeyFree(after.rows, i, Some(k))
    {
      KeysStayFree(db.rows, after.rows, i, Some(k));
    }
  }

  lemma ReapUnnoticed(limits: Limits, db: Db, tx: Tx, u: Tx)
    requires TxOk(limits, db, tx) && TxOk(limits, db, u) && Apart(tx, u)
    requires tx.job.ReapJob? && tx.buf.Keys == tx.locked
    ensures Unnoticed(db, RunOp(limits, db, OpOf(tx)), u)
  {
    hide Reaped, Stale, Legal, KeyFree;
    ReapCommits(limits, db, tx);
    var after := RunOp(limits, db, OpOf(tx));
    OpActivatesNone(limits, db, OpOf(tx));
    forall p | p in u.counted
      ensures |RunningOf(after.rows, p)| <= |RunningOf(db.rows, p)|
    {
      OpRunning(limits, db, OpOf(tx), p);
    }
    forall k, i | k in u.reserved && KeyFree(db.rows, i, Some(k))
      ensures KeyFree(after.rows, i, Some(k))
    {
      KeysStayFree(db.rows, after.rows, i, Some(k));
    }
  }

  /** What the transaction that locked one row alone changes: any key it activates, it reserved. */
  lemma SingleChanges(limits: Limits, db: Db, tx: Tx)
    requires TxOk(limits, db, tx) && tx.job.Single? && tx.buf.Keys == tx.locked && tx.locked != {}
    ensures var id, after := tx.job.op.id, RunOp(limits, db, OpOf(tx));
            && tx.locked == {id} && Legal(limits, db, OpOf(tx))
            && after.rows == db.rows[id := tx.buf[id]] && tx.buf[id].uniqueKey == db.rows[id].uniqueKey
            && (Activates(db.rows[id], tx.buf[id]) && tx.buf[id].uniqueKey.Some? ==>
                  tx.buf[id].uniqueKey.value in tx.reserved)
            && after.buckets.Keys == db.buckets.Keys
            && forall p | p in db.buckets && (Refunds(tx) ==> p != tx.job.op.path) ::
                 after.buckets[p] == db.buckets[p]
  {
    SingleCommits(limits, db, tx);
    hide RunOp, RowAfter, ClaimOk, Stale;
    var id := tx.job.op.id;
    assert tx.locked == {id};
    RowAfterKeepsKey(db.rows[id], tx.job.op);
    assert tx.buf == map[id := tx.buf[id]];
  }

  lemma OneRowUnnoticed(limits: Limits, db: Db, op: Op, id: Id, r: Row, u: Tx)
    requires Legal(limits, db, op) && !op.Claim? && id in db.rows && id !in u.locked
    requires RunOp(limits, db, op).rows == db.rows[id := r] && r.uniqueKey == db.rows[id].uniqueKey
    requires Activates(db.rows[id], r) && r.uniqueKey.Some? ==> r.uniqueKey.value !in u.reserved
    requires forall p | p in u.buckets ::
      var after := RunOp(limits, db, op);
      (p in db.buckets <==> p in after.buckets) && (p in db.buckets ==> db.buckets[p] == after.buckets[p])
    ensures Unnoticed(db, RunOp(limits, db, op), u)
  {
    hide RunOp, Legal;
    forall p | p in u.counted
      ensures |RunningOf(RunOp(limits, db, op).rows, p)| <= |RunningOf(db.rows, p)|
    {
      OpRunning(limits, db, op, p);
    }
  }

  lemma SingleUnnoticed(limits: Limits, db: Db, tx: Tx, u: Tx)
    requires TxOk(limits, db, tx) && TxOk(limits, db, u) && Apart(tx, u)
    requires tx.job.Single? && tx.buf.Keys == tx.locked && tx.locked != {}
    requires Refunds(tx) && tx.job.op.path in db.buckets ==> tx.job.op.path !in u.buckets
    ensures Unnoticed(db, RunOp(limits, db, OpOf(tx)), u)
  {
    SingleChanges(limits, db, tx);
    var id := tx.job.op.id;
    assert id in tx.locked && id in tx.buf && id in db.rows;
    hide TxOk, RunOp, Legal, Refunds, Unnoticed;
    OneRowUnnoticed(limits, db, OpOf(tx), id, tx.buf[id], u);
  }

  /** A single UPDATE of a row nobody has locked, or an insert of a key nobody reserved. */
  lemma StatementUnnoticed(limits: Limits, db: Db, op: Op, u: Tx)
    requires TxOk(limits, db, u)
    requires OneStatement(op) ==> op.id !in u.locked
    requires OneStatement(op) || (op.Create? && Legal(limits, db, op)
               && (op.row.uniqueKey.Some? ==> op.row.uniqueKey.value !in u.reserved))
    ensures Unnoticed(db, RunOp(limits, db, op), u)
  {
    hide RowAfter, TxOk;
    var after := RunOp(limits, db, op);
    forall p | p in u.counted
      ensures |RunningOf(after.rows, p)| <= |RunningOf(db.rows, p)|
    {
      OpRunning(limits, db, op, p);
    }
    if OneStatement(op) {
      OpActivatesNone(limits, db, op);
      forall k, i | k in u.reserved && KeyFree(db.rows, i, Some(k))
        ensures KeyFree(after.rows, i, Some(k))
      {
        KeysStayFree(db.rows, after.rows, i, Some(k));
      }
    }
  }

  // ---- Moves inside one transaction ----

  /** Replacing one transaction by an updated one keeps the locks in order. */
  lemma SwapTx(limits: Limits, s: System, t: TxId, tx: Tx)
    requires LocksOk(limits, s) && TxOk(limits, s.db, tx)
    requires forall u | u in s.txs && u != t :: Apart(tx, s.txs[u])
    ensures LocksOk(limits, s.(txs := s.txs[t := tx]))
  {
    hide TxOk;
  }

  lemma BucketKeepsTx(limits: Limits, db: Db, tx: Tx, p: Path)
    requires TxOk(limits, db, tx) && tx.job.ClaimJob? && p in limits && p !in tx.buckets
    ensures TxOk(limits, db, WithBucket(limits, db, tx, p))
  {
    hide Due, Claimed, Polled;
  }

  lemma CountKeepsTx(limits: Limits, db: Db, tx: Tx, p: Path)
    requires TxOk(limits, db, tx) && p in tx.buckets && p !in tx.counted
    ensures TxOk(limits, db, WithCount(db, tx, p))
  {
    hide Due, Claimed, Polled;
    assert OfPath(db.rows, tx.locked, p) == {};
  }

  lemma OneMoreOfPath(rows: Rows, ids: set<Id>, id: Id, p: Path)
    requires id in rows && id !in ids
    ensures |OfPath(rows, ids + {id}, p)| == |OfPath(rows, ids, p)| + (if rows[id].path == p then 1 else 0)
  {
    assert OfPath(rows, ids + {id}, p) == OfPath(rows, ids, p) + (if rows[id].path == p then {id} else {});
  }

  lemma LockKeepsClaim(limits: Limits, db: Db, tx: Tx, id: Id)
    requires TxOk(limits, db, tx) && tx.job.ClaimJob?
    requires id in db.rows && id !in tx.locked && Picks(limits, tx, db.rows, id)
    ensures ClaimOk(limits, db, WithLock(tx, id))
  {
    hide Due, Claimed, Polled, Allowance, OfPath;
    forall p: Path
      ensures |OfPath(db.rows, tx.locked + {id}, p)|
           == |OfPath(db.rows, tx.locked, p)| + (if db.rows[id].path == p then 1 else 0)
    {
      OneMoreOfPath(db.rows, tx.locked, id, p);
    }
  }

  lemma LockKeepsTx(limits: Limits, db: Db, tx: Tx, id: Id)
    requires TxOk(limits, db, tx)
    requires id in db.rows && id !in tx.locked && Picks(limits, tx, db.rows, id)
    ensures TxOk(limits, db, WithLock(tx, id))
  {
    hide Due, Claimed, Polled, Allowance, Reaped, RowAfter, Stale;
    if tx.job.ClaimJob? {
      LockKeepsClaim(limits, db, tx, id);
    }
  }

  lemma ViewKeepsTx(limits: Limits, db: Db, tx: Tx, id: Id)
    requires TxOk(limits, db, tx) && id in tx.locked
    ensures TxOk(limits, db, WithView(db, tx, id))
  {
    hide Due, Claimed, Polled, Allowance, Reaped, RowAfter, Stale;
  }

  /** A batch only ever writes rows that are active already, so it reserves no key. */
  lemma BatchRowsAreActive(limits: Limits, db: Db, tx: Tx, id: Id)
    requires TxOk(limits, db, tx) && id in tx.view && !tx.job.Single?
    ensures Active(tx.view[id])
  {
    assert id in tx.locked;
  }

  lemma ClaimOkIgnoresWrites(limits: Limits, db: Db, tx: Tx, tx': Tx)
    requires tx.job.ClaimJob? && ClaimOk(limits, db, tx)
    requires tx' == tx.(buf := tx'.buf, delays := tx'.delays, reserved := tx'.reserved)
    ensures ClaimOk(limits, db, tx')
  {
    hide Due, Allowance, BucketOf;
  }

  lemma OnlyReapsDelay(job: Job, r: Row, delay: int)
    ensures !job.ReapJob? ==> NewRow(job, r, delay) == NewRow(job, r, 0)
  {
  }

  lemma WriteBuffers(tx: Tx, id: Id, delay: int)
    requires id in tx.view && Active(tx.view[id])
    ensures WithWrite(tx, id, delay)
         == tx.(buf := tx.buf[id := NewRow(tx.job, tx.view[id], delay)],
                delays := if tx.job.ReapJob? then tx.delays[id := delay] else tx.delays)
  {
    hide NewRow;
  }

  lemma ClaimWriteKeepsTx(limits: Limits, db: Db, tx: Tx, id: Id, delay: int)
    requires TxOk(limits, db, tx) && id in tx.view && id !in tx.buf && tx.job.ClaimJob?
    ensures TxOk(limits, db, WithWrite(tx, id, delay))
  {
    BatchRowsAreActive(limits, db, tx, id);
    OnlyReapsDelay(tx.job, tx.view[id], delay);
    WriteBuffers(tx, id, delay);
    hide ClaimOk, NewRow, WithWrite, Active;
    ClaimOkIgnoresWrites(limits, db, tx, WithWrite(tx, id, delay));
  }

  lemma ReapWriteKeepsTx(limits: Limits, db: Db, tx: Tx, id: Id, delay: int)
    requires TxOk(limits, db, tx) && id in tx.view && id !in tx.buf && tx.job.ReapJob?
    ensures TxOk(limits, db, WithWrite(tx, id, delay))
  {
    BatchRowsAreActive(limits, db, tx, id);
    WriteBuffers(tx, id, delay);
    hide TxOk, WithWrite, Active;
    ReapBufferKeepsTx(limits, db, tx, WithWrite(tx, id, delay), id, delay);
  }

  lemma ReapBufferKeepsTx(limits: Limits, db: Db, tx: Tx, tx': Tx, id: Id, delay: int)
    requires TxOk(limits, db, tx) && id in tx.view && tx.job.ReapJob?
    requires tx' == tx.(buf := tx.buf[id := NewRow(tx.job, tx.view[id], delay)], delays := tx.delays[id := delay])
    ensures TxOk(limits, db, tx')
  {
    hide Stale, NewRow, ClaimOk, SingleOk;
  }

  lemma SingleWriteKeepsTx(limits: Limits, db: Db, tx: Tx, id: Id, delay: int)
    requires TxOk(limits, db, tx) && id in tx.view && id !in tx.buf && tx.job.Single?
    requires !TurnedAway(db, tx, id)
    ensures TxOk(limits, db, WithWrite(tx, id, delay))
  {
    hide RowAfter;
    assert id == tx.job.op.id && tx.buf == map[];
  }

  lemma WriteKeepsTx(limits: Limits, db: Db, tx: Tx, id: Id, delay: int)
    requires TxOk(limits, db, tx) && id in tx.view && id !in tx.buf && !TurnedAway(db, tx, id)
    ensures TxOk(limits, db, WithWrite(tx, id, delay))
  {
    hide TxOk, WithWrite, TurnedAway;
    if tx.job.Single? {
      SingleWriteKeepsTx(limits, db, tx, id, delay);
    } else if tx.job.ClaimJob? {
      ClaimWriteKeepsTx(limits, db, tx, id, delay);
    } else {
      ReapWriteKeepsTx(limits, db, tx, id, delay);
    }
  }

  /** Every move that only changes an open transaction. */
  predicate Internal(s: System, m: Move) {
    match m
    case LockBucket(_, _) => true
    case CountRunning(_, _) => true
    case LockRow(_, _) => true
    case ReadRow(_, _) => true
    case WriteRow(t, id, _) => t in s.txs && id in s.txs[t].view && !TurnedAway(s.db, s.txs[t], id)
    case _ => false
  }

  lemma InternalKeepsTx(limits: Limits, s: System, m: Move)
    requires LocksOk(limits, s) && CanMove(limits, s, m) && Internal(s, m)
    ensures var s' := Do(limits, s, m);
      && TxOk(limits, s.db, s'.txs[m.t])
      && s' == s.(txs := s.txs[m.t := s'.txs[m.t]])
  {
    hide TxOk, Picks, TurnedAway, BucketOf;
    match m
    case LockBucket(t, p) => BucketKeepsTx(limits, s.db, s.txs[t], p);
    case CountRunning(t, p) => CountKeepsTx(limits, s.db, s.txs[t], p);
    case LockRow(t, id) => LockKeepsTx(limits, s.db, s.txs[t], id);
    case ReadRow(t, id) => ViewKeepsTx(limits, s.db, s.txs[t], id);
    case WriteRow(t, id, delay) => WriteKeepsTx(limits, s.db, s.txs[t], id, delay);
  }

  lemma InternalStaysApart(limits: Limits, s: System, m: Move, u: TxId)
    requires LocksOk(limits, s) && CanMove(limits, s, m) && Internal(s, m) && u in s.txs && u != m.t
    ensures Apart(Do(limits, s, m).txs[m.t], s.txs[u])
  {
    hide TxOk, Picks, TurnedAway, BucketOf, RowAfter, Claimed, Reaped;
    assert Apart(s.txs[m.t], s.txs[u]);
    if m.WriteRow? {
      WriteReserves(s.txs[m.t], m.id, m.delay);
    }
  }

  /** A write reserves at most the key of its row, and only if it activates the row. */
  lemma WriteReserves(tx: Tx, id: Id, delay: int)
    requires id in tx.view
    ensures var tx' := WithWrite(tx, id, delay);
      && tx'.locked == tx.locked && tx'.buckets == tx.buckets
      && tx'.reserved <= tx.reserved + (if tx.view[id].uniqueKey.Some? then {tx.view[id].uniqueKey.value} else {})
      && (tx'.reserved != tx.reserved ==> Activates(tx.view[id], NewRow(tx.job, tx.view[id], 0)))
  {
    if tx.job.Single? {
      RowAfterKeepsKey(tx.view[id], tx.job.op);
    }
  }

  lemma InternalKeepsLocks(limits: Limits, s: System, m: Move)
    requires LocksOk(limits, s) && CanMove(limits, s, m) && Internal(s, m)
    ensures LocksOk(limits, Do(limits, s, m))
  {
    hide TxOk, Picks, TurnedAway, BucketOf, CanMove, Do;
    InternalKeepsTx(limits, s, m);
    var tx := Do(limits, s, m).txs[m.t];
    forall u | u in s.txs && u != m.t
      ensures Apart(tx, s.txs[u])
    {
      InternalStaysApart(limits, s, m, u);
    }
    SwapTx(limits, s, m.t, tx);
  }

  // ---- Moves that reach the committed state ----

  lemma CommitKeepsLocks(limits: Limits, s: System, t: TxId)
    requires LocksOk(limits, s) && CanMove(limits, s, Commit(t))
    ensures LocksOk(limits, Do(limits, s, Commit(t)))
    ensures Legal(limits, s.db, OpOf(s.txs[t]))
    ensures Committed(limits, s.db, s.txs[t]) == RunOp(limits, s.db, OpOf(s.txs[t]))
  {
    hide TxOk, Committed, RunOp, Legal, OpOf, Unnoticed;
    var tx := s.txs[t];
    match tx.job {
      case ClaimJob(_, _, _) =>
        ClaimIsLegal(limits, s.db, tx);
        ClaimCommits(limits, s.db, tx);
      case ReapJob(_, _) => ReapCommits(limits, s.db, tx);
      case Single(_) => SingleCommits(limits, s.db, tx);
    }
    forall u | u in s.txs && u != t
      ensures TxOk(limits, Committed(limits, s.db, tx), s.txs[u])
    {
      match tx.job {
        case ClaimJob(_, _, _) => ClaimUnnoticed(limits, s.db, tx, s.txs[u]);
        case ReapJob(_, _) => ReapUnnoticed(limits, s.db, tx, s.txs[u]);
        case Single(_) => SingleUnnoticed(limits, s.db, tx, s.txs[u]);
      }
      UnnoticedKeepsTx(limits, s.db, Committed(limits, s.db, tx), s.txs[u]);
    }
  }

  lemma StatementKeepsLocks(limits: Limits, s: System, op: Op)
    requires LocksOk(limits, s) && CanMove(limits, s, Statement(op))
    ensures LocksOk(limits, Do(limits, s, Statement(op)))
    ensures Legal(limits, s.db, op)
  {
    hide TxOk, RunOp, Unnoticed;
    forall u | u in s.txs
      ensures TxOk(limits, RunOp(limits, s.db, op), s.txs[u])
    {
      StatementUnnoticed(limits, s.db, op, s.txs[u]);
      UnnoticedKeepsTx(limits, s.db, RunOp(limits, s.db, op), s.txs[u]);
    }
  }

  lemma BeginIsOk(limits: Limits, db: Db, job: Job)
    requires (job.ClaimJob? ==> job.w != "") && (job.Single? ==> LockFirst(job.op))
    ensures TxOk(limits, db, Tx(job, {}, map[], map[], map[], map[], map[], {}))
  {
  }

  lemma MoveKeepsLocksAndSerial(limits: Limits, start: Db, s: System, m: Move)
    requires LocksOk(limits, s) && Serial(limits, start, s) && CanMove(limits, s, m)
    ensures LocksOk(limits, Do(limits, s, m)) && Serial(limits, start, Do(limits, s, m))
  {
    hide TxOk, Picks, TurnedAway, BucketOf, Committed, RunOp, Legal, OpOf;
    if Internal(s, m) {
      InternalKeepsLocks(limits, s, m);
      InternalKeepsTx(limits, s, m);
    } else {
      match m
      case Begin(t, job) => BeginIsOk(limits, s.db, job);
      case Commit(t) =>
        CommitKeepsLocks(limits, s, t);
        RunOpsSnoc(limits, start, s.log, OpOf(s.txs[t]));
      case WriteRow(t, id, _) =>
        TurnedAwayIsOperation(limits, s.db, s.txs[t], id);
        RunOpsSnoc(limits, start, s.log, OpOf(s.txs[t]));
      case Abort(t) =>
      case Statement(op) =>
        StatementKeepsLocks(limits, s, op);
        RunOpsSnoc(limits, start, s.log, op);
    }
  }

  // ---- What locks exclude ----

  /** The interleavings leave nothing out: any number of transactions may be open, and each can lock
      any row that it asks for and that no other holds; a claim and a reap ask for what their filter
      names. */
  lemma OnlyLocksExclude(limits: Limits, s: System, t: TxId, id: Id)
    requires t in s.txs && id in s.db.rows
    ensures var r, job := s.db.rows[id], s.txs[t].job;
            CanMove(limits, s, LockRow(t, id)) <==>
              && (forall u | u in s.txs :: id !in s.txs[u].locked)
              && match job
                 case ClaimJob(_, now, queues) =>
                   && r.status == Ready && r.queue in queues && r.runAfter <= now
                   && (r.path in limits ==> Picks(limits, s.txs[t], s.db.rows, id))
                 case ReapJob(staleBefore, _) =>
                   r.status == Running && r.lastHeartbeatAt.Some? && r.lastHeartbeatAt.value < staleBefore
                 case Single(op) =>
                   && (op.MarkRunning? || op.MarkFailed? || op.Cancel? || op.Requeue? || op.Release?)
                   && op.id == id
    ensures forall u, job: Job | u !in s.txs && (job.ClaimJob? ==> job.w != "")
                                 && (job.Single? ==> LockFirst(job.op)) :: CanMove(limits, s, Begin(u, job))
    ensures id in s.txs[t].locked ==> CanMove(limits, s, ReadRow(t, id))
    ensures (&& id in s.txs[t].view && id !in s.txs[t].buf
             && s.txs[t].view[id] == s.db.rows[id] && s.db.rows[id].uniqueKey.None?) ==>
              forall delay :: CanMove(limits, s, WriteRow(t, id, delay))
    ensures !s.txs[t].job.Single? && s.txs[t].buf.Keys == s.txs[t].locked ==> CanMove(limits, s, Commit(t))
    ensures CanMove(limits, s, Abort(t))
    ensures forall p | p in limits && s.txs[t].job.ClaimJob? ::
              CanMove(limits, s, LockBucket(t, p)) <==> forall u | u in s.txs :: p !in s.txs[u].buckets
    ensures forall w, attempt :: CanMove(limits, s, Statement(Op.Ack(id, w, attempt)))
                            <==> forall u | u in s.txs :: id !in s.txs[u].locked
  {
    hide Allowance, OfPath;
  }

  // ---- Every interleaving ----

  ghost predicate Interleaving(limits: Limits, start: Db, ss: seq<System>, ms: seq<Move>) {
    && |ss| == |ms| + 1 && ss[0] == System(start, map[], [])
    && forall k | 0 <= k < |ms| :: CanMove(limits, ss[k], ms[k]) && ss[k + 1] == Do(limits, ss[k], ms[k])
  }

  lemma {:induction false} InterleavingKeepsLocks(limits: Limits, start: Db, ss: seq<System>, ms: seq<Move>, k: nat)
    requires Interleaving(limits, start, ss, ms) && k <= |ms|
    ensures LocksOk(limits, ss[k]) && Serial(limits, start, ss[k])
  {
    hide CanMove, Do, LocksOk, Serial;
    if k > 0 {
      InterleavingKeepsLocks(limits, start, ss, ms, k - 1);
      MoveKeepsLocksAndSerial(limits, start, ss[k - 1], ms[k - 1]);
    } else {
      NothingOpen(limits, start);
    }
  }

  lemma NothingOpen(limits: Limits, start: Db)
    ensures LocksOk(limits, System(start, map[], [])) && Serial(limits, start, System(start, map[], []))
  {
  }

  /** Serializability: at every point of every interleaving of claims, reaps, locked updates and
      single statements, the committed rows and buckets are what a serial history of legal atomic
      operations makes of the initial database, in the order the operations took effect. */
  lemma EveryInterleavingIsSerial(limits: Limits, start: Db, ss: seq<System>, ms: seq<Move>, k: nat)
    requires Interleaving(limits, start, ss, ms) && k <= |ms|
    ensures ss[k].db == RunOps(limits, start, ss[k].log) && LegalOps(limits, start, ss[k].log)
  {
    InterleavingKeepsLocks(limits, start, ss, ms, k);
  }

  /** The cluster-wide concurrency cap and the unique index hold at every point of every
      interleaving, although other rows finish between a claim's count and its commit. */
  lemma CapHoldsUnderInterleaving(limits: Limits, start: Db, ss: seq<System>, ms: seq<Move>, k: nat)
    requires Interleaving(limits, start, ss, ms) && k <= |ms|
    requires UniqueActive(start.rows) && Capped(limits, start)
    ensures UniqueActive(ss[k].db.rows) && Capped(limits, ss[k].db)
  {
    EveryInterleavingIsSerial(limits, start, ss, ms, k);
    HistoryKeepsUniqueAndCap(limits, start, ss[k].log);
  }

  /** The rate bound at lock granularity: from any poll in the history of effects on, whatever was
      interleaved. */
  lemma RateBoundUnderInterleaving(limits: Limits, start: Db, ss: seq<System>, ms: seq<Move>, k: nat, m: nat, p: Path)
    requires Interleaving(limits, start, ss, ms) && k <= |ms| && RateLimited(limits, p)
    requires p in start.buckets ==> start.buckets[p].tokens >= 0.0
    requires m < |ss[k].log| && Polls(ss[k].log[m], p)
    ensures var first, rest := ss[k].log[m], ss[k].log[m + 1..];
            var before := RunOps(limits, start, ss[k].log[..m]);
            var next := RunOp(limits, before, first);
            && ss[k].db == RunOps(limits, next, rest)
            && (Net(before, first, p) + TotalNet(limits, next, rest, p)) as real
                 <= Capacity(limits[p]) + limits[p].rate.value * TotalGap(limits, next, rest, p)
  {
    hide RunOp, Legal, CanMove, Do, Polls, Net, TotalNet, TotalGap;
    EveryInterleavingIsSerial(limits, start, ss, ms, k);
    var log := ss[k].log;
    RunOpsSplit(limits, start, log, m);
    RunOpsSplit(limits, start, log, m + 1);
    RunOpsSnoc(limits, start, log[..m], log[m]);
    assert log[..m + 1] == log[..m] + [log[m]];
    TokensStayInRange(limits, start, log[..m], p);
    RateBound(limits, RunOps(limits, start, log[..m]), log[m], log[m + 1..], p);
  }
}
