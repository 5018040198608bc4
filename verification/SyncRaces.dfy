/** `syncschedules` beside running schedulers. It reads all rows, and later saves each declared row
    whole, also those it found unchanged; whatever was committed to the row in between is undone.
    The declarations are those the rows already agree with. */
module SyncRaces {
  import opened Model
  import opened Schedules
  import opened Firing

  /** What a sync has read and not yet saved, and how many fires there had been. */
  datatype Snapshot = Snapshot(table: Table, mark: nat)

  datatype Race = Race(st: State, seen: Option<Snapshot>)

  datatype Move = Plain(op: Op) | Read | Save(id: Id)

  predicate CanMove(r: Race, m: Move) {
    match m
    case Plain(op) => Legal(r.st, op)
    case Read => true
    case Save(id) => r.seen.Some? && id in r.seen.value.table
  }

  function Do(cron: CronNext, r: Race, m: Move): Race
    requires CanMove(r, m)
  {
    match m
    case Plain(op) => r.(st := RunOp(cron, r.st, op))
    case Read => r.(seen := Some(Snapshot(r.st.table, |r.st.fires|)))
    case Save(id) =>
      var seen := r.seen.value;
      Race(r.st.(table := r.st.table[id := seen.table[id].(enabled := true)]),
           Some(seen.(table := seen.table - {id})))
  }

  /** A move that cannot happen where it stands does not happen. */
  function RunMoves(cron: CronNext, r: Race, ms: seq<Move>): Race {
    if ms == [] then r
    else
      var before := RunMoves(cron, r, ms[..|ms| - 1]);
      if CanMove(before, ms[|ms| - 1]) then Do(cron, before, ms[|ms| - 1]) else before
  }

  /** The first fire of a schedule from position `mark` on. */
  function FirstFrom(fires: seq<Fire>, mark: nat, id: Id): Option<Fire>
    decreases |fires| - mark
  {
    if mark >= |fires| then None
    else if fires[mark].id == id then Some(fires[mark])
    else FirstFrom(fires, mark + 1, id)
  }

  /** The schedule fired between the read and now. */
  predicate FiredSince(r: Race, id: Id) {
    r.seen.Some? && FirstFrom(r.st.fires, r.seen.value.mark, id).Some?
  }

  /** No save of this row comes after a fire that the sync did not see. */
  predicate FreshSaves(cron: CronNext, r: Race, ms: seq<Move>, id: Id) {
    ms == [] ||
    var before, m := RunMoves(cron, r, ms[..|ms| - 1]), ms[|ms| - 1];
    && FreshSaves(cron, r, ms[..|ms| - 1], id)
    && (m == Save(id) && CanMove(before, m) ==> !FiredSince(before, id))
  }

  lemma {:induction false} FirstFromIsFirst(fires: seq<Fire>, mark: nat, id: Id)
    ensures FirstFrom(fires, mark, id).None? ==> forall k | mark <= k < |fires| :: fires[k].id != id
    ensures FirstFrom(fires, mark, id).Some? ==>
              exists k | mark <= k < |fires| :: fires[k].id == id && FirstFrom(fires, mark, id) == Some(fires[k])
    decreases |fires| - mark
  {
    if mark < |fires| && fires[mark].id != id {
      FirstFromIsFirst(fires, mark + 1, id);
    }
  }

  lemma {:induction false} FirstFromSnoc(fires: seq<Fire>, mark: nat, id: Id, f: Fire)
    requires mark <= |fires|
    ensures FirstFrom(fires + [f], mark, id)
         == if FirstFrom(fires, mark, id).Some? then FirstFrom(fires, mark, id)
            else if f.id == id then Some(f) else None
    decreases |fires| - mark
  {
    if mark < |fires| {
      FirstFromSnoc(fires, mark + 1, id, f);
    }
  }

  // ---- Fresh saves are harmless ----

  predicate SnapshotOk(cron: CronNext, r: Race, id: Id)
    requires id in r.st.table
  {
    r.seen.Some? ==>
      var seen := r.seen.value;
      && seen.mark <= |r.st.fires|
      && (id in seen.table ==>
            && SameTiming(seen.table[id], r.st.table[id])
            && forall k | 0 <= k < seen.mark && r.st.fires[k].id == id :: FirePast(cron, seen.table[id], r.st.fires[k]))
  }

  ghost predicate Sound(cron: CronNext, r: Race, id: Id) {
    && id in r.st.table && Advances(cron, r.st.table[id])
    && FiresPast(cron, r.st, id) && FiresApart(r.st, id) && SnapshotOk(cron, r, id)
  }

  lemma PlainGrowsFires(cron: CronNext, st: State, op: Op, id: Id)
    requires id in st.table
    ensures var t := RunOp(cron, st, op);
            && id in t.table && SameTiming(t.table[id], st.table[id])
            && |st.fires| <= |t.fires| && t.fires[..|st.fires|] == st.fires
  {
    hide Skips, IsDue, NextRunAfterFire;
  }

  lemma PlainKeepsSound(cron: CronNext, r: Race, op: Op, id: Id)
    requires Sound(cron, r, id) && Legal(r.st, op)
    ensures Sound(cron, Do(cron, r, Plain(op)), id)
  {
    OpKeepsFires(cron, r.st, op, id);
    PlainGrowsFires(cron, r.st, op, id);
    hide RunOp, Advances, FirePast, FiresApart, FiresPast;
    var t := RunOp(cron, r.st, op);
    forall k | 0 <= k < |r.st.fires| ensures t.fires[k] == r.st.fires[k] {
      assert t.fires[..|r.st.fires|][k] == t.fires[k];
    }
  }

  lemma SaveKeepsSound(cron: CronNext, r: Race, id: Id, saved: Id)
    requires Sound(cron, r, id) && CanMove(r, Save(saved)) && (saved == id ==> !FiredSince(r, id))
    ensures Sound(cron, Do(cron, r, Save(saved)), id)
  {
    var seen := r.seen.value;
    FirstFromIsFirst(r.st.fires, seen.mark, id);
    if saved == id {
      var a, b := r.st.table[id], seen.table[id].(enabled := true);
      AdvancesAlike(cron, a, b);
      hide Advances, NextRunAfterFire;
      forall k | 0 <= k < |r.st.fires| && r.st.fires[k].id == id ensures FirePast(cron, b, r.st.fires[k]) {
        assert FirePast(cron, seen.table[id], r.st.fires[k]);
        PastAlike(cron, seen.table[id], r.st.fires[k]);
      }
    }
  }

  lemma PastAlike(cron: CronNext, s: Schedule, f: Fire)
    ensures FirePast(cron, s, f) <==> FirePast(cron, s.(enabled := true), f)
  {
  }

  lemma AdvancesAlike(cron: CronNext, a: Schedule, b: Schedule)
    requires SameTiming(b, a) && Advances(cron, a)
    ensures Advances(cron, b)
  {
    forall t ensures NextRunAfterFire(cron, b, t) > t {
      assert NextRunAfterFire(cron, a, t) > t;
    }
  }

  lemma {:induction false} FreshSavesKeepSound(cron: CronNext, r: Race, ms: seq<Move>, id: Id)
    requires Sound(cron, r, id) && FreshSaves(cron, r, ms, id)
    ensures Sound(cron, RunMoves(cron, r, ms), id)
  {
    hide Sound, RunOp, FiredSince;
    if ms != [] {
      var before, m := RunMoves(cron, r, ms[..|ms| - 1]), ms[|ms| - 1];
      FreshSavesKeepSound(cron, r, ms[..|ms| - 1], id);
      if CanMove(before, m) {
        match m
        case Plain(op) => PlainKeepsSound(cron, before, op, id);
        case Read => ReadKeepsSound(cron, before, id);
        case Save(saved) => SaveKeepsSound(cron, before, id, saved);
      }
    }
  }

  lemma ReadKeepsSound(cron: CronNext, r: Race, id: Id)
    requires Sound(cron, r, id)
    ensures Sound(cron, Do(cron, r, Read), id)
  {
  }

  lemma SoundSlotsDiffer(cron: CronNext, r: Race, id: Id)
    requires Sound(cron, r, id)
    ensures SlotsDiffer(r.st.fires, id)
  {
    forall j, k | 0 <= j < k < |r.st.fires| && r.st.fires[j].id == id && r.st.fires[k].id == id
      ensures r.st.fires[j].slot != r.st.fires[k].slot
    {
      assert FirePast(cron, r.st.table[id], r.st.fires[j]);
      AdvancesIffPositive(cron, r.st.table[id]);
    }
  }

  // ---- A save that undoes a fire repeats it ----

  /** The stored time that dispatches at these clocks lead to, all of them skipping. */
  function SkippedTo(cron: CronNext, s: Schedule, clocks: seq<int>): int {
    if clocks == [] then s.nextRunAt
    else SkipTo(NextOf(cron, s), NextRunAfterFire(cron, s, SkippedTo(cron, s, clocks[..|clocks| - 1])),
                clocks[|clocks| - 1])
  }

  predicate AllSkip(cron: CronNext, s: Schedule, clocks: seq<int>) {
    clocks == [] ||
    var front, now := clocks[..|clocks| - 1], clocks[|clocks| - 1];
    var at := SkippedTo(cron, s, front);
    AllSkip(cron, s, front) && at <= now && Skips(cron, s.(nextRunAt := at), now)
  }

  /** From what the sync read, some skips lead to the slot of the first fire since, or, as long as
      there was none, to the stored next run. */
  ghost predicate Traced(cron: CronNext, r: Race, id: Id)
    requires id in r.st.table
  {
    r.seen.Some? && id in r.seen.value.table ==>
      var s, first := r.seen.value.table[id], FirstFrom(r.st.fires, r.seen.value.mark, id);
      exists clocks :: AllSkip(cron, s, clocks)
        && SkippedTo(cron, s, clocks) == if first.Some? then first.value.slot else r.st.table[id].nextRunAt
  }

  lemma PlainKeepsTraced(cron: CronNext, r: Race, op: Op, id: Id)
    requires Sound(cron, r, id) && Traced(cron, r, id) && Legal(r.st, op) && id in RunOp(cron, r.st, op).table
    ensures Traced(cron, Do(cron, r, Plain(op)), id)
  {
    if r.seen.Some? && id in r.seen.value.table {
      var seen := r.seen.value;
      var s, fires := seen.table[id], r.st.fires;
      var first := FirstFrom(fires, seen.mark, id);
      var clocks :| AllSkip(cron, s, clocks)
        && SkippedTo(cron, s, clocks) == if first.Some? then first.value.slot else r.st.table[id].nextRunAt;
      if IsFire(cron, r.st, op) {
        FirstFromSnoc(fires, seen.mark, id, Fire(op.id, r.st.table[op.id].nextRunAt, op.now));
      }
      hide Sound, FirePast, SkipTo;
      if Effective(cron, r.st, op) && !IsFire(cron, r.st, op) && op.id == id && first.None? {
        SkipIsTraced(cron, s, r.st.table[id], clocks, op.now);
        var more := clocks + [op.now];
        assert more[..|clocks|] == clocks;
      }
    }
  }

  /** One more skip of the row is one more skip of what the sync read. */
  lemma SkipIsTraced(cron: CronNext, s: Schedule, row: Schedule, clocks: seq<int>, now: int)
    requires SameTiming(s, row) && AllSkip(cron, s, clocks) && SkippedTo(cron, s, clocks) == row.nextRunAt
    requires row.nextRunAt <= now && Skips(cron, row, now)
    ensures AllSkip(cron, s, clocks + [now])
    ensures SkippedTo(cron, s, clocks + [now]) == Dispatched(cron, row, now).nextRunAt
  {
    assert (clocks + [now])[..|clocks|] == clocks;
    SkipToSame(cron, s, row, NextRunAfterFire(cron, row, row.nextRunAt), now);
  }

  lemma {:induction false} FreshSavesKeepTraced(cron: CronNext, r: Race, ms: seq<Move>, id: Id)
    requires Sound(cron, r, id) && r.seen.None? && FreshSaves(cron, r, ms, id)
    ensures Sound(cron, RunMoves(cron, r, ms), id) && Traced(cron, RunMoves(cron, r, ms), id)
  {
    FreshSavesKeepSound(cron, r, ms, id);
    if ms != [] {
      var before, m := RunMoves(cron, r, ms[..|ms| - 1]), ms[|ms| - 1];
      FreshSavesKeepSound(cron, r, ms[..|ms| - 1], id);
      FreshSavesKeepTraced(cron, r, ms[..|ms| - 1], id);
      if CanMove(before, m) {
        match m
        case Plain(op) => PlainKeepsTraced(cron, before, op, id);
        case Read => assert AllSkip(cron, before.st.table[id], []);
        case Save(_) =>
      }
    }
  }

  /** Dispatches at the same clocks skip again. */
  lemma {:induction false} SkipsReplay(cron: CronNext, st: State, id: Id, s: Schedule, clocks: seq<int>)
    returns (ops: seq<Op>)
    requires id in st.table && SameTiming(st.table[id], s) && st.table[id].nextRunAt == s.nextRunAt
    requires AllSkip(cron, s, clocks)
    ensures var t := Run(cron, st, ops);
            && id in t.table && SameTiming(t.table[id], s)
            && t.table[id].nextRunAt == SkippedTo(cron, s, clocks) && t.fires == st.fires
  {
    if clocks == [] {
      ops := [];
    } else {
      var front, now := clocks[..|clocks| - 1], clocks[|clocks| - 1];
      var before := SkipsReplay(cron, st, id, s, front);
      var row := Run(cron, st, before).table[id];
      ops := DispatchNow(cron, st, before, id, now);
      SkipToSame(cron, row, s, NextRunAfterFire(cron, s, row.nextRunAt), now);
    }
  }

  function Plains(ops: seq<Op>): seq<Move> {
    seq(|ops|, k requires 0 <= k < |ops| => Plain(ops[k]))
  }

  lemma {:induction false} PlainsRun(cron: CronNext, r: Race, ops: seq<Op>, id: Id)
    ensures RunMoves(cron, r, Plains(ops)) == r.(st := Run(cron, r.st, ops))
    ensures FreshSaves(cron, r, Plains(ops), id)
  {
    if ops != [] {
      var front := ops[..|ops| - 1];
      assert Plains(ops)[..|ops| - 1] == Plains(front);
      PlainsRun(cron, r, front, id);
    }
  }

  /** In no continuation with fresh saves does a stored time fire twice. */
  ghost predicate NeverTwice(cron: CronNext, r: Race, id: Id) {
    forall more | FreshSaves(cron, r, more, id) :: SlotsDiffer(RunMoves(cron, r, more).st.fires, id)
  }

  lemma UndoneFireRepeats(cron: CronNext, r: Race, id: Id)
    requires Sound(cron, r, id) && Traced(cron, r, id) && CanMove(r, Save(id)) && FiredSince(r, id)
    ensures !NeverTwice(cron, Do(cron, r, Save(id)), id)
  {
    var seen, after := r.seen.value, Do(cron, r, Save(id));
    var s := seen.table[id];
    FirstFromIsFirst(r.st.fires, seen.mark, id);
    var k :| seen.mark <= k < |r.st.fires| && r.st.fires[k].id == id
             && FirstFrom(r.st.fires, seen.mark, id) == Some(r.st.fires[k]);
    var f := r.st.fires[k];
    assert FirePast(cron, r.st.table[id], f);
    var clocks :| AllSkip(cron, s, clocks) && SkippedTo(cron, s, clocks) == f.slot;
    hide Sound, AllSkip, FirstFrom;
    var ops := SkipsReplay(cron, after.st, id, s, clocks);
    var again := FiresAgain(cron, after.st, ops, id, r.st.table[id], k);
    PlainsRun(cron, after, again, id);
  }

  lemma FiresAgain(cron: CronNext, st: State, ops: seq<Op>, id: Id, past: Schedule, k: nat) returns (again: seq<Op>)
    requires k < |st.fires| && st.fires[k].id == id && FirePast(cron, past, st.fires[k])
    requires var t := Run(cron, st, ops);
             && id in t.table && t.table[id].nextRunAt == st.fires[k].slot && SameTiming(t.table[id], past)
             && t.fires == st.fires
    ensures !SlotsDiffer(Run(cron, st, again).fires, id)
  {
    var row, f := Run(cron, st, ops).table[id], st.fires[k];
    assert !Skips(cron, row, f.at);
    again := DispatchNow(cron, st, ops, id, f.at);
    var fires := Run(cron, st, again).fires;
    assert fires[k] == f && fires[|fires| - 1] == f && k < |fires| - 1;
  }

  lemma StartIsSound(cron: CronNext, table: Table, id: Id)
    requires id in table && Advances(cron, table[id])
    ensures Sound(cron, Race(State(table, []), None), id)
  {
  }

  /** While the saves of a row are fresh, none of its stored times fires twice, whatever schedulers
      and syncs do. */
  lemma FreshSavesNeverRepeat(cron: CronNext, table: Table, ms: seq<Move>, id: Id)
    requires id in table && Advances(cron, table[id])
    requires FreshSaves(cron, Race(State(table, []), None), ms, id)
    ensures SlotsDiffer(RunMoves(cron, Race(State(table, []), None), ms).st.fires, id)
  {
    StartIsSound(cron, table, id);
    FreshSavesKeepSound(cron, Race(State(table, []), None), ms, id);
    SoundSlotsDiffer(cron, RunMoves(cron, Race(State(table, []), None), ms), id);
  }

  /** And that is exact: a save lets no stored time fire twice if and only if the row did not fire
      between the read and the save. A dispatch in between that only skipped is skipped again. */
  lemma SaveRepeatsIffFired(cron: CronNext, table: Table, ms: seq<Move>, id: Id)
    requires id in table && Advances(cron, table[id])
    requires FreshSaves(cron, Race(State(table, []), None), ms, id)
    requires CanMove(RunMoves(cron, Race(State(table, []), None), ms), Save(id))
    ensures var r := RunMoves(cron, Race(State(table, []), None), ms);
            NeverTwice(cron, Do(cron, r, Save(id)), id) <==> !FiredSince(r, id)
  {
    var start := Race(State(table, []), None);
    var r := RunMoves(cron, start, ms);
    StartIsSound(cron, table, id);
    FreshSavesKeepTraced(cron, start, ms, id);
    if FiredSince(r, id) {
      UndoneFireRepeats(cron, r, id);
    } else {
      SaveKeepsSound(cron, r, id, id);
      var after := Do(cron, r, Save(id));
      forall more | FreshSaves(cron, after, more, id)
        ensures SlotsDiffer(RunMoves(cron, after, more).st.fires, id)
      {
        FreshSavesKeepSound(cron, after, more, id);
        SoundSlotsDiffer(cron, RunMoves(cron, after, more), id);
      }
    }
  }
}
