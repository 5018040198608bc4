/** The loop invariant of a claim, and that one more path keeps it. */
module ClaimLoop {
  import opened Model
  import opened RowOps
  import opened TokenBucket
  import opened Database
  import opened Ranking
  import opened ClaimSpec

  predicate Ordered(limits: Limits, order: seq<Path>) {
    SortedDistinct(order) && forall p | p in order :: p in limits
  }

  /** The rows taken so far: they are due and belong to the paths visited, and each of these got
      its share. */
  ghost predicate RowsSoFar(limits: Limits, db: Db, req: Request, order: seq<Path>, i: nat, ids: set<Id>)
    requires Ordered(limits, order) && i <= |order|
  {
    && |ids| == req.limit - Room(limits, db, req, order, i)
    && ids <= DueRows(db.rows, req)
    && (forall j | j in ids :: db.rows[j].path in order[..i])
    && (forall j | 0 <= j < i :: PathServed(limits, db, req, order, ids, j))
  }

  ghost predicate Progress(limits: Limits, db: Db, req: Request, order: seq<Path>, i: nat, ids: set<Id>,
                           hint: Option<real>, polled: set<Path>, buckets: map<Path, Bucket>)
    requires Ordered(limits, order) && i <= |order|
  {
    && RowsSoFar(limits, db, req, order, i, ids)
    && hint == Hint(limits, db, req, order, i)
    && polled == PolledPaths(limits, db, req, order, i)
    && buckets == PolledBuckets(limits, db, ids, polled, req.now)
  }

  /** What a visit of a path returned. */
  ghost predicate Visited(limits: Limits, db: Db, req: Request, path: Path, room: nat, part: set<Id>,
                          wait: Option<real>)
    requires path in limits
  {
    && FirstK(Ranks(db.rows), DueOf(db.rows, req, path), Share(limits, db, req, path, room), part)
    && wait == WaitOf(limits, db, req, path, room)
  }

  /** A new part of one more path, beside rows of earlier paths only. */
  lemma NewPart(rows: Rows, order: seq<Path>, i: nat, ids: set<Id>, part: set<Id>)
    requires SortedDistinct(order) && i < |order| && ids <= rows.Keys && part <= rows.Keys
    requires forall j | j in ids :: rows[j].path in order[..i]
    requires forall j | j in part :: rows[j].path == order[i]
    ensures ids !! part && |ids + part| == |ids| + |part|
    ensures forall p | p in order[..i] :: OfPath(rows, ids + part, p) == OfPath(rows, ids, p)
    ensures OfPath(rows, ids + part, order[i]) == part == OfPath(rows, part, order[i])
    ensures forall j | j in ids + part :: rows[j].path in order[..i + 1]
  {
    DistinctFromEarlier(order, i);
    assert ids !! part;
    assert order[..i + 1] == order[..i] + [order[i]];
  }

  lemma AdvanceRows(limits: Limits, db: Db, req: Request, order: seq<Path>, i: nat, ids: set<Id>, part: set<Id>)
    requires Ordered(limits, order) && i < |order| && RowsSoFar(limits, db, req, order, i, ids)
    requires FirstK(Ranks(db.rows), DueOf(db.rows, req, order[i]),
                    Share(limits, db, req, order[i], Room(limits, db, req, order, i)), part)
    ensures RowsSoFar(limits, db, req, order, i + 1, ids + part)
    ensures ids !! part && OfPath(db.rows, part, order[i]) == part
    ensures forall p | p in order[..i] :: OfPath(db.rows, ids + part, p) == OfPath(db.rows, ids, p)
    ensures OfPath(db.rows, ids + part, order[i]) == part
  {
    hide Share, Due, OfPath, FirstK;
    var room := Room(limits, db, req, order, i);
    PartIsDue(limits, db, req, order[i], room, part);
    NewPart(db.rows, order, i, ids, part);
    assert Room(limits, db, req, order, i + 1) == room - |part|;
    forall j | 0 <= j < i + 1
      ensures PathServed(limits, db, req, order, ids + part, j)
    {
      if j < i {
        assert order[j] in order[..i];
        assert PathServed(limits, db, req, order, ids, j);
      }
    }
  }

  lemma PartIsDue(limits: Limits, db: Db, req: Request, path: Path, room: nat, part: set<Id>)
    requires path in limits
    requires FirstK(Ranks(db.rows), DueOf(db.rows, req, path), Share(limits, db, req, path, room), part)
    ensures |part| == Share(limits, db, req, path, room)
    ensures part <= DueRows(db.rows, req) && forall j | j in part :: db.rows[j].path == path
  {
    ShareIsAtMostDue(limits, db, req, path, room);
  }

  lemma ShareIsAtMostDue(limits: Limits, db: Db, req: Request, path: Path, room: nat)
    requires path in limits
    ensures Share(limits, db, req, path, room) <= |DueOf(db.rows, req, path)|
  {
  }

  /** Where a visit leaves the buckets. */
  function BucketsAfter(limits: Limits, db: Db, req: Request, path: Path, part: set<Id>,
                        buckets: map<Path, Bucket>): map<Path, Bucket>
    requires path in limits
  {
    if Skipped(db, req, path) then buckets
    else buckets[path := Polled(BucketOf(db.buckets, path, limits[path], req.now), limits[path], req.now, |part|)]
  }

  lemma AdvancePolled(limits: Limits, db: Db, req: Request, order: seq<Path>, i: nat)
    requires Ordered(limits, order) && i < |order| && Room(limits, db, req, order, i) > 0
    ensures PolledPaths(limits, db, req, order, i + 1)
         == PolledPaths(limits, db, req, order, i) + (if Skipped(db, req, order[i]) then {} else {order[i]})
    ensures order[i] !in PolledPaths(limits, db, req, order, i)
    ensures forall p | p in PolledPaths(limits, db, req, order, i) :: p in order[..i]
  {
    hide Room;
    DistinctFromEarlier(order, i);
  }

  lemma AdvanceBuckets(limits: Limits, db: Db, req: Request, order: seq<Path>, i: nat, ids: set<Id>,
                       polled: set<Path>, part: set<Id>)
    requires Ordered(limits, order) && i < |order| && order[i] !in polled
    requires forall p | p in polled :: p in order[..i]
    requires forall p | p in order[..i] :: OfPath(db.rows, ids + part, p) == OfPath(db.rows, ids, p)
    requires OfPath(db.rows, ids + part, order[i]) == part
    ensures PolledBuckets(limits, db, ids + part,
              polled + (if Skipped(db, req, order[i]) then {} else {order[i]}), req.now)
         == BucketsAfter(limits, db, req, order[i], part, PolledBuckets(limits, db, ids, polled, req.now))
  {
    hide Polled, OfPath;
  }

  lemma Advance(limits: Limits, db: Db, req: Request, order: seq<Path>, i: nat, ids: set<Id>,
                hint: Option<real>, polled: set<Path>, buckets: map<Path, Bucket>, part: set<Id>, wait: Option<real>)
    requires Ordered(limits, order) && i < |order| && Room(limits, db, req, order, i) > 0
    requires Progress(limits, db, req, order, i, ids, hint, polled, buckets)
    requires Visited(limits, db, req, order[i], Room(limits, db, req, order, i), part, wait)
    ensures Progress(limits, db, req, order, i + 1, ids + part, Sooner(hint, wait),
                     polled + (if Skipped(db, req, order[i]) then {} else {order[i]}),
                     BucketsAfter(limits, db, req, order[i], part, buckets))
    ensures ids !! part
  {
    hide Share, FirstK, RowsSoFar, PolledBuckets, PolledPaths, BucketsAfter, WaitOf;
    AdvanceRows(limits, db, req, order, i, ids, part);
    AdvancePolled(limits, db, req, order, i);
    AdvanceBuckets(limits, db, req, order, i, ids, polled, part);
  }

  lemma NoRoomNoShare(limits: Limits, db: Db, req: Request, path: Path)
    requires path in limits
    ensures Share(limits, db, req, path, 0) == 0 && WaitOf(limits, db, req, path, 0) == None
    ensures FirstK(Ranks(db.rows), DueOf(db.rows, req, path), 0, {})
  {
  }

  lemma NothingPolled(limits: Limits, db: Db, req: Request, order: seq<Path>, i: nat)
    requires Ordered(limits, order) && i < |order| && Room(limits, db, req, order, i) == 0
    ensures PolledPaths(limits, db, req, order, i + 1) == PolledPaths(limits, db, req, order, i)
    ensures Hint(limits, db, req, order, i + 1) == Hint(limits, db, req, order, i)
  {
    hide Skipped, Share, Room;
    NoRoomNoShare(limits, db, req, order[i]);
  }

  lemma NothingForOne(limits: Limits, db: Db, req: Request, order: seq<Path>, i: nat, ids: set<Id>,
                      hint: Option<real>, polled: set<Path>, buckets: map<Path, Bucket>)
    requires Ordered(limits, order) && i < |order| && Room(limits, db, req, order, i) == 0
    requires Progress(limits, db, req, order, i, ids, hint, polled, buckets)
    ensures Progress(limits, db, req, order, i + 1, ids, hint, polled, buckets)
  {
    hide PolledBuckets, DueOf, Share, WaitOf, FirstK, RowsSoFar, Skipped, OfPath, Room, Hint, PolledPaths;
    NoRoomNoShare(limits, db, req, order[i]);
    NothingPolled(limits, db, req, order, i);
    AdvanceRows(limits, db, req, order, i, ids, {});
    assert ids + {} == ids;
  }

  /** Once the room is used up, the remaining paths get nothing. */
  lemma {:induction false} NothingLeft(limits: Limits, db: Db, req: Request, order: seq<Path>, i: nat, k: nat,
                                       ids: set<Id>, hint: Option<real>, polled: set<Path>, buckets: map<Path, Bucket>)
    requires Ordered(limits, order) && i <= k <= |order| && Room(limits, db, req, order, i) == 0
    requires Progress(limits, db, req, order, i, ids, hint, polled, buckets)
    ensures Room(limits, db, req, order, k) == 0 && Progress(limits, db, req, order, k, ids, hint, polled, buckets)
  {
    hide Progress, Allowed, Skipped, DueOf;
    if i < k {
      NothingLeft(limits, db, req, order, i, k - 1, ids, hint, polled, buckets);
      NothingForOne(limits, db, req, order, k - 1, ids, hint, polled, buckets);
    }
  }

  /** What one visit does to the buckets, given the bucket it finds. */
  ghost predicate VisitedFrom(limits: Limits, rows: Rows, found: map<Path, Bucket>, req: Request, path: Path,
                              room: nat, locked: bool, part: set<Id>, wait: Option<real>, after: map<Path, Bucket>)
    requires path in limits
  {
    var policy, due := limits[path], DueOf(rows, req, path);
    var b := BucketOf(found, path, policy, req.now);
    var allowed := Allowance(b, policy, req.now, |RunningOf(rows, path)|, room);
    var n := if locked || Min(allowed, |due|) <= 0 then 0 else Min(allowed, |due|);
    && FirstK(Ranks(rows), due, n, part)
    && after == (if locked then found else found[path := Polled(b, policy, req.now, n)])
    && wait == if locked then None else WaitHint(Polled(b, policy, req.now, n), policy, allowed, room)
  }

  /** A path not yet polled has the bucket it had before the claim. */
  lemma VisitOfUntouched(limits: Limits, db: Db, req: Request, ids: set<Id>, polled: set<Path>, path: Path,
                         room: nat, part: set<Id>, wait: Option<real>, after: map<Path, Bucket>)
    requires path in limits && path !in polled && room > 0
    requires var found := PolledBuckets(limits, db, ids, polled, req.now);
      VisitedFrom(limits, db.rows, found, req, path, room, path in req.lockedBuckets && path in found,
                  part, wait, after)
    ensures Visited(limits, db, req, path, room, part, wait)
    ensures after == BucketsAfter(limits, db, req, path, part, PolledBuckets(limits, db, ids, polled, req.now))
    ensures path in PolledBuckets(limits, db, ids, polled, req.now) <==> path in db.buckets
  {
    hide Allowance, WaitHint, Polled, Due;
    var found := PolledBuckets(limits, db, ids, polled, req.now);
    assert path in found <==> path in db.buckets;
    assert BucketOf(found, path, limits[path], req.now) == BucketOf(db.buckets, path, limits[path], req.now);
  }

  lemma NoProgress(limits: Limits, db: Db, req: Request, order: seq<Path>)
    requires Ordered(limits, order)
    ensures Progress(limits, db, req, order, 0, {}, None, {}, db.buckets)
  {
  }

  lemma RoomUsedUp(limits: Limits, db: Db, req: Request, order: seq<Path>, i: nat, ids: set<Id>,
                   hint: Option<real>, polled: set<Path>, buckets: map<Path, Bucket>)
    requires Ordered(limits, order) && i <= |order| && |ids| >= req.limit
    requires Progress(limits, db, req, order, i, ids, hint, polled, buckets)
    ensures Room(limits, db, req, order, i) == 0
  {
  }

  // ---- The end of the claim ----

  lemma RestIsApart(limits: Limits, rows: Rows, req: Request, ids: set<Id>, rest: set<Id>)
    requires ids <= rows.Keys && (forall i | i in ids :: rows[i].path in limits)
    requires rest <= Unlimited(limits, rows, DueRows(rows, req))
    ensures forall p | p in limits :: OfPath(rows, ids + rest, p) == OfPath(rows, ids, p)
    ensures Unlimited(limits, rows, ids + rest) == rest && rest <= DueRows(rows, req)
  {
  }

  /** The rows of limited paths and the rest, put together, satisfy the selection rule. */
  lemma PartsAreSelected(limits: Limits, db: Db, req: Request, order: seq<Path>, ids: set<Id>, rest: set<Id>)
    requires Ordered(limits, order) && RowsSoFar(limits, db, req, order, |order|, ids)
    requires forall p :: p in order <==> p in WaitingPaths(limits, db.rows, req)
    requires FirstK(Ranks(db.rows), Unlimited(limits, db.rows, DueRows(db.rows, req)),
                    Room(limits, db, req, order, |order|), rest)
    ensures Selected(limits, db, req, order, ids + rest)
    ensures forall p | p in limits :: OfPath(db.rows, ids + rest, p) == OfPath(db.rows, ids, p)
  {
    assert order[..|order|] == order;
    assert rest <= Unlimited(limits, db.rows, DueRows(db.rows, req));
    assert ids <= db.rows.Keys;
    hide Share, Due, Room, FirstK, OfPath, Unlimited, DueRows, WaitingPaths;
    RestIsApart(limits, db.rows, req, ids, rest);
    forall i | 0 <= i < |order|
      ensures PathServed(limits, db, req, order, ids + rest, i)
    {
      assert PathServed(limits, db, req, order, ids, i);
      assert order[i] in limits;
    }
  }

  /** Everything a finished claim promises. */
  lemma ClaimIsDone(limits: Limits, db: Db, req: Request, order: seq<Path>, ids: set<Id>, hint: Option<real>,
                    polled: set<Path>, buckets: map<Path, Bucket>, rest: set<Id>)
    requires Ordered(limits, order) && Progress(limits, db, req, order, |order|, ids, hint, polled, buckets)
    requires forall p :: p in order <==> p in WaitingPaths(limits, db.rows, req)
    requires FirstK(Ranks(db.rows), Unlimited(limits, db.rows, DueRows(db.rows, req)),
                    if |ids| < req.limit then req.limit - |ids| else 0, rest)
    requires req.w != ""
    ensures var all := ids + rest;
      && all <= db.rows.Keys && Selected(limits, db, req, order, all)
      && Legal(limits, db, Op.Claim(all, polled, req.w, req.now))
      && Db(ClaimedRows(db.rows, all, req.w, req.now), buckets)
         == RunOp(limits, db, Op.Claim(all, polled, req.w, req.now))
  {
    hide Share, Due, FirstK, OfPath, Unlimited, WaitingPaths, Legal, Polled, ClaimedRows, Selected, PolledPaths, Hint;
    PartsAreSelected(limits, db, req, order, ids, rest);
    SelectedIsLegal(limits, db, req, order, ids + rest);
    SelectedAreRows(limits, db, req, order, ids + rest);
    SamePolledBuckets(limits, db, ids, ids + rest, polled, req.now);
  }

  lemma SelectedAreRows(limits: Limits, db: Db, req: Request, order: seq<Path>, ids: set<Id>)
    requires Selected(limits, db, req, order, ids)
    ensures ids <= db.rows.Keys
  {
  }

  lemma SamePolledBuckets(limits: Limits, db: Db, a: set<Id>, b: set<Id>, polled: set<Path>, now: int)
    requires forall p | p in limits :: OfPath(db.rows, a, p) == OfPath(db.rows, b, p)
    ensures PolledBuckets(limits, db, a, polled, now) == PolledBuckets(limits, db, b, polled, now)
  {
  }

  lemma ShareIsAllowed(limits: Limits, db: Db, req: Request, path: Path, room: nat)
    requires path in limits
    ensures var n := Share(limits, db, req, path, room);
      n > 0 ==> room > 0 && !Skipped(db, req, path) && n <= Allowed(limits, db, req, path, n)
  {
  }

  /** What the rule selects is a legal claim. */
  lemma SelectedIsLegal(limits: Limits, db: Db, req: Request, order: seq<Path>, ids: set<Id>)
    requires Selected(limits, db, req, order, ids) && req.w != ""
    ensures Legal(limits, db, Op.Claim(ids, PolledPaths(limits, db, req, order, |order|), req.w, req.now))
  {
    hide Share, Room, Skipped;
    var polled := PolledPaths(limits, db, req, order, |order|);
    forall j | 0 <= j < |order| && OfPath(db.rows, ids, order[j]) != {}
      ensures order[j] in polled && LegalPoll(limits, db, ids, order[j], req.now)
    {
      PartSize(limits, db, req, order, ids, j);
      ShareIsAllowed(limits, db, req, order[j], Room(limits, db, req, order, j));
    }
    forall i | i in ids && db.rows[i].path in limits
      ensures db.rows[i].path in polled
    {
      assert db.rows[i].path in WaitingPaths(limits, db.rows, req);
      assert i in OfPath(db.rows, ids, db.rows[i].path);
    }
  }
}
