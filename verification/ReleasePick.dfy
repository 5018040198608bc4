/** Claiming a batch and handing every item of it back is a poll that took nothing. */
module ReleasePick {
  import opened Model
  import opened RowOps
  import opened TokenBucket
  import opened Database

  function Elements(s: seq<Id>): set<Id> {
    set i | i in s
  }

  /** Each id once, in any order. */
  predicate Enumerates(order: seq<Id>, ids: set<Id>) {
    Elements(order) == ids && forall i, j | 0 <= i < j < |order| :: order[i] != order[j]
  }

  function Releases(rows: Rows, order: seq<Id>, w: string): seq<Op>
    requires forall i | i in order :: i in rows
  {
    seq(|order|, k requires 0 <= k < |order| =>
      Release(order[k], rows[order[k]].path, w, rows[order[k]].attempts + 1))
  }

  function BackAgain(r: Row, w: string, now: int): Row {
    Released(Claimed(r, w, now), w, r.attempts + 1)
  }

  ghost predicate RowsPartlyReleased(rows: Rows, ids: set<Id>, done: set<Id>, w: string, now: int, mid: Rows) {
    && mid.Keys == rows.Keys
    && (forall i | i in rows :: mid[i] ==
          if i in done then BackAgain(rows[i], w, now)
          else if i in ids then Claimed(rows[i], w, now) else rows[i])
  }

  ghost predicate BucketsPartlyRefunded(limits: Limits, db: Db, ids: set<Id>, done: set<Id>, polled: set<Path>,
                                        now: int, mid: map<Path, Bucket>) {
    forall p | p in polled && p in limits :: p in mid &&
      mid[p] == RefundedBy(
        Polled(BucketOf(db.buckets, p, limits[p], now), limits[p], now, |OfPath(db.rows, ids, p)|),
        |OfPath(db.rows, done, p)|)
  }

  /** The database when the items in `done` have been handed back. */
  ghost predicate PartlyReleased(limits: Limits, db: Db, ids: set<Id>, done: set<Id>, polled: set<Path>,
                                 w: string, now: int, mid: Db) {
    && RowsPartlyReleased(db.rows, ids, done, w, now, mid.rows)
    && BucketsPartlyRefunded(limits, db, ids, done, polled, now, mid.buckets)
  }

  /** Releasing a row that was just claimed always goes through. */
  lemma ReleaseClaimed(limits: Limits, mid: Db, i: Id, path: Path, r: Row, w: string, now: int)
    requires i in mid.rows && mid.rows[i] == Claimed(r, w, now)
    ensures RunOp(limits, mid, Release(i, path, w, r.attempts + 1))
         == Db(mid.rows[i := BackAgain(r, w, now)],
               if path in mid.buckets then mid.buckets[path := Refunded(mid.buckets[path])] else mid.buckets)
  {
    assert Holds(mid.rows[i], w, r.attempts + 1);
  }

  lemma OneRefund(limits: Limits, db: Db, ids: set<Id>, done: set<Id>, polled: set<Path>, now: int,
                  mid: map<Path, Bucket>, i: Id)
    requires i in db.rows && i !in done
    requires BucketsPartlyRefunded(limits, db, ids, done, polled, now, mid)
    ensures var path := db.rows[i].path;
      BucketsPartlyRefunded(limits, db, ids, done + {i}, polled, now,
                            if path in mid then mid[path := Refunded(mid[path])] else mid)
  {
    hide Polled, BucketOf;
    forall p: Path
      ensures |OfPath(db.rows, done + {i}, p)|
           == |OfPath(db.rows, done, p)| + (if p == db.rows[i].path then 1 else 0)
    {
      assert OfPath(db.rows, done + {i}, p)
          == OfPath(db.rows, done, p) + if p == db.rows[i].path then {i} else {};
    }
  }

  lemma OneRelease(limits: Limits, db: Db, ids: set<Id>, done: set<Id>, polled: set<Path>,
                   w: string, now: int, mid: Db, i: Id)
    requires w != "" && ids <= db.rows.Keys && done <= ids && i in ids - done
    requires PartlyReleased(limits, db, ids, done, polled, w, now, mid)
    ensures PartlyReleased(limits, db, ids, done + {i}, polled, w, now,
                           RunOp(limits, mid, Release(i, db.rows[i].path, w, db.rows[i].attempts + 1)))
  {
    hide RunOp, Claimed, BackAgain, BucketsPartlyRefunded;
    ReleaseClaimed(limits, mid, i, db.rows[i].path, db.rows[i], w, now);
    OneRefund(limits, db, ids, done, polled, now, mid.buckets, i);
  }

  lemma {:induction false} ReleaseMany(limits: Limits, db: Db, ids: set<Id>, polled: set<Path>, w: string,
                                       now: int, order: seq<Id>, start: Db)
    requires w != "" && ids <= db.rows.Keys
    requires Elements(order) <= ids && forall i, j | 0 <= i < j < |order| :: order[i] != order[j]
    requires PartlyReleased(limits, db, ids, {}, polled, w, now, start)
    ensures PartlyReleased(limits, db, ids, Elements(order), polled, w, now,
                           RunOps(limits, start, Releases(db.rows, order, w)))
  {
    hide RunOp, PartlyReleased;
    if order != [] {
      var front, last := order[..|order| - 1], order[|order| - 1];
      assert last !in front;
      assert Elements(order) == Elements(front) + {last};
      assert Releases(db.rows, order, w)[..|order| - 1] == Releases(db.rows, front, w);
      ReleaseMany(limits, db, ids, polled, w, now, front, start);
      OneRelease(limits, db, ids, Elements(front), polled, w, now,
                 RunOps(limits, start, Releases(db.rows, front, w)), last);
    } else {
      assert Elements(order) == {};
    }
  }

  /** Releasing a whole pick, in any order: every row is as before up to its last attempt time
      (exactly when it has a start time if and only if it was attempted before), and each
      rate-limited bucket is what an empty poll at the same moment leaves. */
  lemma PickThenReleaseAll(limits: Limits, db: Db, ids: set<Id>, polled: set<Path>, w: string, now: int,
                           order: seq<Id>)
    requires Legal(limits, db, Claim(ids, polled, w, now)) && Enumerates(order, ids)
    requires forall i | i in ids :: Unheld(db.rows[i])
    ensures var claimed := RunOp(limits, db, Claim(ids, polled, w, now));
      var back := RunOps(limits, claimed, Releases(db.rows, order, w));
      && back.rows.Keys == db.rows.Keys
      && (forall i | i in db.rows - ids :: back.rows[i] == db.rows[i])
      && (forall i | i in ids :: SameButLastAttempt(back.rows[i], db.rows[i])
            <==> (db.rows[i].attempts == 0 <==> db.rows[i].startedAt.None?))
      && (forall p | p in polled && limits[p].rate.Some? :: p in back.buckets &&
            back.buckets[p] == RunOp(limits, db, Claim({}, polled, w, now)).buckets[p])
  {
    var claimed := RunOp(limits, db, Claim(ids, polled, w, now));
    assert forall p :: OfPath(db.rows, {}, p) == {};
    ReleaseMany(limits, db, ids, polled, w, now, order, claimed);
    forall i | i in ids
      ensures SameButLastAttempt(BackAgain(db.rows[i], w, now), db.rows[i])
         <==> (db.rows[i].attempts == 0 <==> db.rows[i].startedAt.None?)
    {
      ClaimReleaseRoundTrip(db.rows[i], w, now);
    }
    forall p | p in polled && limits[p].rate.Some?
      ensures RefundedBy(Polled(BucketOf(db.buckets, p, limits[p], now), limits[p], now, |OfPath(db.rows, ids, p)|),
                         |OfPath(db.rows, ids, p)|)
           == RunOp(limits, db, Claim({}, polled, w, now)).buckets[p]
    {
      RefundUndoesPick(BucketOf(db.buckets, p, limits[p], now), limits[p], now, |OfPath(db.rows, ids, p)|);
    }
  }
}
