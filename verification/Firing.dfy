/** Leasing due schedules and firing them, by any number of schedulers with arbitrary clocks. */
module Firing {
  import opened Model
  import opened Schedules
  import opened Ranking

  type Table = map<Id, Schedule>

  /** One enqueued occurrence: `slot` is the stored `next_run_at` it stands for. */
  datatype Fire = Fire(id: Id, slot: int, at: int)

  datatype State = State(table: Table, fires: seq<Fire>)

  /** `enqueues` is whether the enqueue inside a dispatch succeeds; when it raises, the whole
      dispatch rolls back. */
  datatype Op =
    | Lease(ids: set<Id>, w: string, now: int, staleBefore: int)
    | Dispatch(id: Id, w: string, now: int, enqueues: bool)
    | Enable(id: Id, on: bool)

  predicate IsDue(s: Schedule, now: int) {
    s.enabled && s.nextRunAt <= now
  }

  /** Nobody holds the lease, or its holder has not been heard of for too long. */
  predicate Leasable(s: Schedule, staleBefore: int) {
    s.claimedBy == "" || s.lastHeartbeatAt.None? || s.lastHeartbeatAt.value < staleBefore
  }

  function Leased(s: Schedule, w: string, now: int): Schedule {
    s.(claimedBy := w, lastHeartbeatAt := Some(now))
  }

  predicate MayDispatch(s: Schedule, w: string, now: int) {
    IsDue(s, now) && s.claimedBy == w
  }

  predicate Skips(cron: CronNext, s: Schedule, now: int) {
    !s.catchup && PeriodsBehind(cron, s, now) >= 1
  }

  function Dispatched(cron: CronNext, s: Schedule, now: int): Schedule {
    var free := s.(claimedBy := "", lastHeartbeatAt := None);
    if Skips(cron, s, now) then
      free.(nextRunAt := SkipTo(NextOf(cron, s), NextRunAfterFire(cron, s, s.nextRunAt), now))
    else
      free.(nextRunAt := NextRunAfterFire(cron, s, Later(s.nextRunAt, now)), lastRunAt := Some(now))
  }

  function Later(a: int, b: int): int {
    if a < b then b else a
  }

  predicate Legal(st: State, op: Op) {
    op.Lease? ==>
      && op.w != ""
      && forall i | i in op.ids :: i in st.table && IsDue(st.table[i], op.now) && Leasable(st.table[i], op.staleBefore)
  }

  /** Whether a dispatch passes its check under the row lock and commits. */
  predicate Effective(cron: CronNext, st: State, op: Op) {
    && op.Dispatch? && op.id in st.table && MayDispatch(st.table[op.id], op.w, op.now)
    && (op.enqueues || Skips(cron, st.table[op.id], op.now))
  }

  predicate IsFire(cron: CronNext, st: State, op: Op) {
    Effective(cron, st, op) && !Skips(cron, st.table[op.id], op.now)
  }

  function RunOp(cron: CronNext, st: State, op: Op): State {
    match op
    case Lease(ids, w, now, _) =>
      st.(table := map i | i in st.table :: if i in ids then Leased(st.table[i], w, now) else st.table[i])
    case Dispatch(id, _, now, _) =>
      if !Effective(cron, st, op) then st
      else State(st.table[id := Dispatched(cron, st.table[id], now)],
                 if IsFire(cron, st, op) then st.fires + [Fire(id, st.table[id].nextRunAt, now)] else st.fires)
    case Enable(id, on) =>
      if id in st.table then st.(table := st.table[id := st.table[id].(enabled := on)]) else st
  }

  /** A run; an operation that is not legal where it stands does not happen. */
  function Run(cron: CronNext, st: State, ops: seq<Op>): State {
    if ops == [] then st
    else
      var before := Run(cron, st, ops[..|ops| - 1]);
      if Legal(before, ops[|ops| - 1]) then RunOp(cron, before, ops[|ops| - 1]) else before
  }

  // ---- One dispatch ----

  /** A dispatch that commits moves the schedule beyond its own clock and gives up the lease,
      provided every occurrence lies after the last. */
  lemma DispatchAdvances(cron: CronNext, st: State, op: Op)
    requires Effective(cron, st, op) && Advances(cron, st.table[op.id])
    ensures var s := RunOp(cron, st, op).table[op.id];
            && s.nextRunAt > op.now >= st.table[op.id].nextRunAt
            && s.claimedBy == "" && s.lastHeartbeatAt.None?
  {
    var s := st.table[op.id];
    assert NextRunAfterFire(cron, s, Later(s.nextRunAt, op.now)) > op.now;
    if Skips(cron, s, op.now) {
      SkipPassesNow(cron, s, NextRunAfterFire(cron, s, s.nextRunAt), op.now);
    }
  }

  lemma {:induction false} SkipPassesNow(cron: CronNext, s: Schedule, candidate: int, now: int)
    requires Advances(cron, s)
    ensures SkipTo(NextOf(cron, s), candidate, now) > now
    decreases now - candidate
  {
    if candidate <= now {
      assert NextRunAfterFire(cron, s, candidate) > candidate;
      SkipPassesNow(cron, s, NextRunAfterFire(cron, s, candidate), now);
    }
  }

  /** For an interval schedule that is exactly when the interval is positive: at zero seconds
      or none it stays due, and is leased and fired again at once. */
  lemma IntervalAdvancesIffPositive(cron: CronNext, st: State, op: Op)
    requires Effective(cron, st, op) && st.table[op.id].kind.Interval?
    ensures RunOp(cron, st, op).table[op.id].nextRunAt > op.now <==> Step(st.table[op.id]) > 0
  {
    var s := st.table[op.id];
    AdvancesIffPositive(cron, s);
    if Step(s) > 0 {
      DispatchAdvances(cron, st, op);
    }
  }

  /** Skipping and firing a strictly-next cron schedule store the same next run. */
  lemma SkipAndFireAgree(cron: CronNext, s: Schedule, now: int)
    requires s.nextRunAt <= now && StrictlyNext(NextOf(cron, s))
    ensures Dispatched(cron, s, now).nextRunAt == NextOf(cron, s)(now)
  {
    if Skips(cron, s, now) {
      SkipByOccurrence(NextOf(cron, s), s.nextRunAt, now);
    }
  }

  // ---- Over whole runs ----

  /** How far apart fires of the schedule are at least: its interval, or just apart for cron. */
  function Spacing(s: Schedule): int {
    if s.kind.Interval? then Step(s) else 1
  }

  predicate FirePast(cron: CronNext, s: Schedule, f: Fire) {
    && f.slot <= f.at
    && f.at + Spacing(s) <= s.nextRunAt
    && (!s.catchup ==> f.at < NextRunAfterFire(cron, s, f.slot))
  }

  /** All fires of a schedule lie behind its next run. */
  predicate FiresPast(cron: CronNext, st: State, id: Id)
    requires id in st.table
  {
    forall k | 0 <= k < |st.fires| && st.fires[k].id == id :: FirePast(cron, st.table[id], st.fires[k])
  }

  /** Each fire of a schedule stands for a time well after the previous fire. */
  predicate FiresApart(st: State, id: Id)
    requires id in st.table
  {
    forall j, k | 0 <= j < k < |st.fires| && st.fires[j].id == id && st.fires[k].id == id ::
      st.fires[j].at + Spacing(st.table[id]) <= st.fires[k].slot
  }

  predicate SameTiming(a: Schedule, b: Schedule) {
    a == b.(enabled := a.enabled, nextRunAt := a.nextRunAt, lastRunAt := a.lastRunAt,
            claimedBy := a.claimedBy, lastHeartbeatAt := a.lastHeartbeatAt)
  }

  /** Nothing an operation does moves a schedule back or changes how it is timed. */
  predicate Forward(a: Schedule, b: Schedule) {
    SameTiming(b, a) && a.nextRunAt <= b.nextRunAt
  }

  lemma OpGoesForward(cron: CronNext, st: State, op: Op, id: Id)
    requires id in st.table && Advances(cron, st.table[id])
    ensures id in RunOp(cron, st, op).table && Forward(st.table[id], RunOp(cron, st, op).table[id])
  {
    if Effective(cron, st, op) && op.id == id {
      DispatchAdvances(cron, st, op);
    }
  }

  lemma ForwardKeepsTiming(cron: CronNext, a: Schedule, b: Schedule)
    requires Forward(a, b)
    ensures Advances(cron, a) ==> Advances(cron, b)
    ensures forall f | FirePast(cron, a, f) :: FirePast(cron, b, f)
    ensures Spacing(a) == Spacing(b)
  {
    if Advances(cron, a) {
      forall t ensures NextRunAfterFire(cron, b, t) > t {
        assert NextRunAfterFire(cron, a, t) > t;
      }
    }
  }

  lemma FireIsSpaced(cron: CronNext, st: State, op: Op)
    requires IsFire(cron, st, op) && Advances(cron, st.table[op.id])
    ensures FirePast(cron, RunOp(cron, st, op).table[op.id], Fire(op.id, st.table[op.id].nextRunAt, op.now))
  {
    var s := st.table[op.id];
    DispatchAdvances(cron, st, op);
    assert NextRunAfterFire(cron, s, s.nextRunAt) > s.nextRunAt;
  }

  lemma OpKeepsFires(cron: CronNext, st: State, op: Op, id: Id)
    requires id in st.table && Advances(cron, st.table[id]) && FiresPast(cron, st, id) && FiresApart(st, id)
    ensures var t := RunOp(cron, st, op);
            id in t.table && Advances(cron, t.table[id]) && FiresPast(cron, t, id) && FiresApart(t, id)
  {
    hide NextRunAfterFire, Spacing, Advances;
    var t := RunOp(cron, st, op);
    OpGoesForward(cron, st, op, id);
    ForwardKeepsTiming(cron, st.table[id], t.table[id]);
    if IsFire(cron, st, op) && op.id == id {
      FireIsSpaced(cron, st, op);
      forall j | 0 <= j < |st.fires| && st.fires[j].id == id
        ensures st.fires[j].at + Spacing(t.table[id]) <= st.table[id].nextRunAt
      {
        assert FirePast(cron, st.table[id], st.fires[j]);
      }
    }
  }

  /** Over every run, for a schedule whose occurrences advance: its next fire stands for a time at
      least one interval after the clock of the previous one; and without catch-up, a fire is less
      than one occurrence late. */
  lemma {:induction false} EveryRunFiresApart(cron: CronNext, table: Table, ops: seq<Op>, id: Id)
    requires id in table && Advances(cron, table[id])
    ensures var t := Run(cron, State(table, []), ops);
            id in t.table && Advances(cron, t.table[id]) && FiresPast(cron, t, id) && FiresApart(t, id)
  {
    hide RunOp, Advances, Legal;
    if ops != [] {
      EveryRunFiresApart(cron, table, ops[..|ops| - 1], id);
      OpKeepsFires(cron, Run(cron, State(table, []), ops[..|ops| - 1]), ops[|ops| - 1], id);
    }
  }

  /** Each stored `next_run_at` fires at most once, and fires of an interval schedule are at least
      one interval apart, measured from clock to clock and from clock to slot. */
  lemma NoSlotFiresTwice(cron: CronNext, table: Table, ops: seq<Op>, id: Id, j: nat, k: nat)
    requires id in table && Advances(cron, table[id])
    requires var fires := Run(cron, State(table, []), ops).fires;
             j < k < |fires| && fires[j].id == fires[k].id == id
    ensures var t := Run(cron, State(table, []), ops);
            var (a, b) := (t.fires[j], t.fires[k]);
            && a.slot <= a.at < b.slot <= b.at
            && id in t.table
            && (t.table[id].kind.Interval? ==>
                  && t.table[id].intervalSeconds.Some?
                  && b.at - a.at >= b.slot - a.at >= t.table[id].intervalSeconds.value * 1_000_000 > 0)
  {
    EveryRunFiresApart(cron, table, ops, id);
    var t := Run(cron, State(table, []), ops);
    assert FirePast(cron, t.table[id], t.fires[j]) && FirePast(cron, t.table[id], t.fires[k]);
    AdvancesIffPositive(cron, t.table[id]);
  }

  /** No two fires of the schedule stand for the same stored time. */
  predicate SlotsDiffer(fires: seq<Fire>, id: Id) {
    forall j, k | 0 <= j < k < |fires| && fires[j].id == id && fires[k].id == id :: fires[j].slot != fires[k].slot
  }

  /** For an interval schedule the condition is exact: in every run each stored time fires at most
      once if and only if the interval is positive. */
  lemma SlotsDifferIffPositive(cron: CronNext, table: Table, id: Id)
    requires id in table && table[id].kind.Interval?
    ensures (forall ops :: SlotsDiffer(Run(cron, State(table, []), ops).fires, id))
       <==> table[id].intervalSeconds.Some? && table[id].intervalSeconds.value > 0
  {
    AdvancesIffPositive(cron, table[id]);
    if Step(table[id]) > 0 {
      forall ops ensures SlotsDiffer(Run(cron, State(table, []), ops).fires, id) {
        SlotsDifferWhenAdvancing(cron, table, ops, id);
      }
    } else {
      var st := State(table, []);
      var now := table[id].nextRunAt;
      var once := DispatchNow(cron, st, [], id, now);
      var twice := DispatchNow(cron, st, once, id, now);
      var fires := Run(cron, st, twice).fires;
      assert fires[0].id == id && fires[1].id == id && fires[0].slot == fires[1].slot;
      assert !SlotsDiffer(fires, id);
    }
  }

  lemma SlotsDifferWhenAdvancing(cron: CronNext, table: Table, ops: seq<Op>, id: Id)
    requires id in table && Advances(cron, table[id])
    ensures SlotsDiffer(Run(cron, State(table, []), ops).fires, id)
  {
    var fires := Run(cron, State(table, []), ops).fires;
    forall j, k | 0 <= j < k < |fires| && fires[j].id == id && fires[k].id == id
      ensures fires[j].slot != fires[k].slot
    {
      NoSlotFiresTwice(cron, table, ops, id, j, k);
    }
  }

  /** Continues any run by enabling, leasing and dispatching a schedule at a clock that finds it
      due, whoever holds its lease. */
  lemma DispatchNow(cron: CronNext, st: State, ops: seq<Op>, id: Id, now: int) returns (more: seq<Op>)
    requires var s := Run(cron, st, ops); id in s.table && s.table[id].nextRunAt <= now
    ensures var s, t := Run(cron, st, ops), Run(cron, st, more);
            var row := s.table[id];
            && id in t.table && SameTiming(t.table[id], row)
            && t.table[id].nextRunAt
                 == (if Skips(cron, row, now) then
                       SkipTo(NextOf(cron, row), NextRunAfterFire(cron, row, row.nextRunAt), now)
                     else NextRunAfterFire(cron, row, Later(row.nextRunAt, now)))
            && t.fires == (if Skips(cron, row, now) then s.fires else s.fires + [Fire(id, row.nextRunAt, now)])
  {
    var s := Run(cron, st, ops);
    var row := s.table[id];
    var cutoff := if row.lastHeartbeatAt.Some? then row.lastHeartbeatAt.value + 1 else 0;
    var enable, lease, dispatch := Enable(id, true), Lease({id}, "w", now, cutoff), Dispatch(id, "w", now, true);
    RunSnoc(cron, st, ops, enable);
    RunSnoc(cron, st, ops + [enable], lease);
    RunSnoc(cron, st, ops + [enable] + [lease], dispatch);
    more := ops + [enable] + [lease] + [dispatch];
    var held := Run(cron, st, ops + [enable] + [lease]).table[id];
    assert held == row.(enabled := true, claimedBy := "w", lastHeartbeatAt := Some(now));
    SkipToSame(cron, held, row, NextRunAfterFire(cron, row, row.nextRunAt), now);
  }

  lemma RunSnoc(cron: CronNext, st: State, ops: seq<Op>, op: Op)
    ensures var before := Run(cron, st, ops);
            Run(cron, st, ops + [op]) == if Legal(before, op) then RunOp(cron, before, op) else before
  {
    assert (ops + [op])[..|ops|] == ops;
  }

  /** Schedules that are timed alike skip alike. */
  lemma {:induction false} SkipToSame(cron: CronNext, a: Schedule, b: Schedule, candidate: int, now: int)
    requires SameTiming(a, b)
    ensures SkipTo(NextOf(cron, a), candidate, now) == SkipTo(NextOf(cron, b), candidate, now)
    decreases now - candidate
  {
    if candidate <= now && NextRunAfterFire(cron, a, candidate) > candidate {
      SkipToSame(cron, a, b, NextRunAfterFire(cron, a, candidate), now);
    }
  }

  lemma {:induction false} NextRunNeverGoesBack(cron: CronNext, st: State, ops: seq<Op>, id: Id)
    requires id in st.table && Advances(cron, st.table[id])
    ensures var t := Run(cron, st, ops).table;
            id in t && Forward(st.table[id], t[id]) && Advances(cron, t[id])
  {
    hide RunOp, Advances, Legal;
    if ops != [] {
      var before := Run(cron, st, ops[..|ops| - 1]);
      NextRunNeverGoesBack(cron, st, ops[..|ops| - 1], id);
      OpGoesForward(cron, before, ops[|ops| - 1], id);
      ForwardKeepsTiming(cron, before.table[id], RunOp(cron, before, ops[|ops| - 1]).table[id]);
    }
  }

  /** The clock of the last fire of a schedule, or `start` if it never fired. */
  function LastFireAt(fires: seq<Fire>, id: Id, start: Option<int>): Option<int> {
    if fires == [] then start
    else if fires[|fires| - 1].id == id then Some(fires[|fires| - 1].at)
    else LastFireAt(fires[..|fires| - 1], id, start)
  }

  /** `last_run_at` is the clock of the last fire; skipping an occurrence leaves it alone. */
  lemma {:induction false} LastRunIsLastFire(cron: CronNext, table: Table, ops: seq<Op>, id: Id)
    requires id in table
    ensures var t := Run(cron, State(table, []), ops);
            id in t.table && t.table[id].lastRunAt == LastFireAt(t.fires, id, table[id].lastRunAt)
  {
    hide Legal, RunOp, LastFireAt;
    if ops == [] {
      NoLastFire(id, table[id].lastRunAt);
    } else {
      LastRunIsLastFire(cron, table, ops[..|ops| - 1], id);
      OpKeepsLastRun(cron, Run(cron, State(table, []), ops[..|ops| - 1]), ops[|ops| - 1], id, table[id].lastRunAt);
    }
  }

  lemma NoLastFire(id: Id, start: Option<int>)
    ensures LastFireAt([], id, start) == start
  {
  }

  lemma OpKeepsLastRun(cron: CronNext, st: State, op: Op, id: Id, start: Option<int>)
    requires id in st.table && st.table[id].lastRunAt == LastFireAt(st.fires, id, start)
    ensures var t := RunOp(cron, st, op);
            id in t.table && t.table[id].lastRunAt == LastFireAt(t.fires, id, start)
  {
    hide Skips, IsDue, NextRunAfterFire;
    if IsFire(cron, st, op) {
      var f := Fire(op.id, st.table[op.id].nextRunAt, op.now);
      assert (st.fires + [f])[..|st.fires|] == st.fires;
    }
  }

  // ---- Disabled schedules ----

  lemma DisabledIsLeftAlone(cron: CronNext, st: State, op: Op, id: Id)
    requires id in st.table && !st.table[id].enabled && op != Enable(id, true)
    ensures var t := RunOp(cron, st, op);
            && (Legal(st, op) ==> id in t.table && t.table[id] == st.table[id])
            && |st.fires| <= |t.fires| && t.fires[..|st.fires|] == st.fires
            && forall k | |st.fires| <= k < |t.fires| :: t.fires[k].id != id
  {
    hide Skips, NextRunAfterFire, Leasable;
  }

  /** A disabled schedule neither fires nor changes, whatever its lease says, until it is enabled. */
  lemma {:induction false} DisabledStaysPut(cron: CronNext, st: State, ops: seq<Op>, id: Id)
    requires id in st.table && !st.table[id].enabled
    requires forall k | 0 <= k < |ops| :: ops[k] != Enable(id, true)
    ensures var t := Run(cron, st, ops);
            && id in t.table && t.table[id] == st.table[id]
            && |st.fires| <= |t.fires| && t.fires[..|st.fires|] == st.fires
            && forall k | |st.fires| <= k < |t.fires| :: t.fires[k].id != id
  {
    hide RunOp, Legal;
    if ops != [] {
      var before := Run(cron, st, ops[..|ops| - 1]);
      DisabledStaysPut(cron, st, ops[..|ops| - 1], id);
      DisabledIsLeftAlone(cron, before, ops[|ops| - 1], id);
    }
  }

  // ---- Leases ----

  predicate LeasesTo(op: Op, id: Id, w: string) {
    op.Lease? && id in op.ids && op.w == w
  }

  /** Once a scheduler's lease has passed to another or been given up, nothing it dispatches has
      any effect, at any later time and whatever its clock says, until it leases the row anew. */
  lemma {:induction false} LapsedLeaseIsDead(cron: CronNext, st: State, ops: seq<Op>, id: Id, w: string,
                                             now: int, enqueues: bool)
    requires id in st.table && st.table[id].claimedBy != w && w != ""
    requires forall k | 0 <= k < |ops| :: !LeasesTo(ops[k], id, w)
    ensures var t := Run(cron, st, ops);
            && id in t.table && t.table[id].claimedBy != w
            && RunOp(cron, t, Dispatch(id, w, now, enqueues)) == t
  {
    if ops != [] {
      LapsedLeaseIsDead(cron, st, ops[..|ops| - 1], id, w, now, enqueues);
    }
  }

  function Leases(ops: seq<Op>, id: Id): nat {
    if ops == [] then 0
    else Leases(ops[..|ops| - 1], id) + (if ops[|ops| - 1].Lease? && id in ops[|ops| - 1].ids then 1 else 0)
  }

  function FiresOf(fires: seq<Fire>, id: Id): nat {
    if fires == [] then 0
    else FiresOf(fires[..|fires| - 1], id) + (if fires[|fires| - 1].id == id then 1 else 0)
  }

  function HeldCount(st: State, id: Id): nat {
    if id in st.table && st.table[id].claimedBy != "" then 1 else 0
  }

  /** Every fire uses up a lease of its own: one lease never fires twice, takeovers included. */
  lemma {:induction false} FiresAreLeased(cron: CronNext, st: State, ops: seq<Op>, id: Id)
    requires forall k | 0 <= k < |ops| :: ops[k].Dispatch? ==> ops[k].w != ""
    ensures var t := Run(cron, st, ops);
            FiresOf(t.fires, id) + HeldCount(t, id) <= FiresOf(st.fires, id) + HeldCount(st, id) + Leases(ops, id)
  {
    hide Dispatched, IsDue, Leasable, Skips;
    if ops != [] {
      var before := Run(cron, st, ops[..|ops| - 1]);
      FiresAreLeased(cron, st, ops[..|ops| - 1], id);
      OneFirePerLease(cron, before, ops[|ops| - 1], id);
    }
  }

  lemma OneFirePerLease(cron: CronNext, st: State, op: Op, id: Id)
    requires op.Dispatch? ==> op.w != ""
    ensures var t := RunOp(cron, st, op);
            FiresOf(t.fires, id) + HeldCount(t, id)
              <= FiresOf(st.fires, id) + HeldCount(st, id) + (if op.Lease? && id in op.ids then 1 else 0)
  {
    if op.Dispatch? && IsFire(cron, st, op) {
      var f := Fire(op.id, st.table[op.id].nextRunAt, op.now);
      assert (st.fires + [f])[..|st.fires|] == st.fires;
    }
  }

  // ---- The table object ----

  function NextRanks(table: Table): map<Id, Rank> {
    map i | i in table :: Rank(table[i].nextRunAt, 0)
  }

  function LeaseCandidates(table: Table, now: int, staleBefore: int, locked: set<Id>): set<Id> {
    set i | i in table && i !in locked && IsDue(table[i], now) && Leasable(table[i], staleBefore)
  }

  // ---- In columns ----

  /** Leased are enabled schedules whose time has come and that nobody holds or whose holder was not
      heard of for longer than `timeout`; at most as many as asked for, all of them if there are no
      more, and none left out is due earlier. */
  ghost predicate LeasesTheEarliest(table: Table, limit: nat, now: int, timeout: int, locked: set<Id>, ids: set<Id>) {
    var free := set i | i in table && i !in locked && table[i].enabled && table[i].nextRunAt <= now
                        && (table[i].claimedBy == "" || table[i].lastHeartbeatAt.None?
                            || table[i].lastHeartbeatAt.value < now - timeout);
    && ids <= free && |ids| <= limit && (|ids| < limit ==> ids == free)
    && forall i, j | i in ids && j in free && j !in ids :: table[i].nextRunAt <= table[j].nextRunAt
  }

  lemma LeasedAreEarliest(table: Table, limit: nat, now: int, timeout: int, locked: set<Id>, ids: set<Id>)
    requires FirstK(NextRanks(table), LeaseCandidates(table, now, now - timeout, locked), limit, ids)
    ensures LeasesTheEarliest(table, limit, now, timeout, locked, ids)
  {
    var free := LeaseCandidates(table, now, now - timeout, locked);
    if |ids| < limit {
      assert free == ids + (free - ids);
    }
    forall i, j | i in ids && j in free && j !in ids ensures table[i].nextRunAt <= table[j].nextRunAt {
      assert !Before(NextRanks(table)[j], NextRanks(table)[i]);
    }
  }

  lemma LeasedAreLegal(st: State, limit: nat, w: string, now: int, timeout: int, locked: set<Id>, ids: set<Id>)
    requires FirstK(NextRanks(st.table), LeaseCandidates(st.table, now, now - timeout, locked), limit, ids) && w != ""
    ensures Legal(st, Lease(ids, w, now, now - timeout))
  {
  }

  /** The next time after `t`: the cron library's, in the schedule's zone or else UTC, or `t` plus the
      interval's seconds, none counting as zero. */
  function Following(cron: CronNext, s: Schedule, t: int): int {
    if s.kind == Cron then cron(s.cronExpression, if s.timezone == "" then "UTC" else s.timezone, t)
    else t + (match s.intervalSeconds case Some(n) => n * 1_000_000 case None => 0)
  }

  ghost predicate EnumeratesInstants(cron: CronNext, s: Schedule) {
    forall t :: Following(cron, s, t) > t
      && forall u | t <= u < Following(cron, s, t) :: Following(cron, s, u) == Following(cron, s, t)
  }

  /** What a dispatch does. Without catch-up, a schedule that missed a whole occurrence skips: to the
      instant within one interval after `now` that keeps the phase, or to the next cron occurrence.
      Any other fires for its stored time, and its next run follows the later of that and `now`. */
  ghost predicate DispatchInColumns(cron: CronNext, before: State, id: Id, w: string, now: int, enqueues: bool,
                                    after: State) {
    if !(id in before.table && before.table[id].enabled && before.table[id].claimedBy == w
         && before.table[id].nextRunAt <= now) then after == before
    else
      var s := before.table[id];
      var following, free := Following(cron, s, s.nextRunAt), s.(claimedBy := "", lastHeartbeatAt := None);
      if !s.catchup && s.nextRunAt < following <= now then
        && after.fires == before.fires && id in after.table
        && var next := after.table[id].nextRunAt;
           && after.table == before.table[id := free.(nextRunAt := next)]
           && (s.kind == Interval ==>
                 var step := following - s.nextRunAt;
                 now < next <= now + step && (next - s.nextRunAt) % step == 0)
           && (s.kind == Cron && EnumeratesInstants(cron, s) ==> next == Following(cron, s, now))
      else if !enqueues then after == before
      else
        && after.fires == before.fires + [Fire(id, s.nextRunAt, now)]
        && after.table == before.table[id := free.(
             lastRunAt := Some(now),
             nextRunAt := Following(cron, s, if s.nextRunAt < now then now else s.nextRunAt))]
  }

  lemma FollowingIsNext(cron: CronNext, s: Schedule)
    ensures forall t :: Following(cron, s, t) == NextRunAfterFire(cron, s, t)
    ensures EnumeratesInstants(cron, s) ==> StrictlyNext(NextOf(cron, s))
  {
    if EnumeratesInstants(cron, s) {
      forall t ensures NextOf(cron, s)(t) > t
        && forall u | t <= u < NextOf(cron, s)(t) :: NextOf(cron, s)(u) == NextOf(cron, s)(t)
      {
        assert Following(cron, s, t) == NextOf(cron, s)(t);
        forall u | t <= u < NextOf(cron, s)(t) ensures NextOf(cron, s)(u) == NextOf(cron, s)(t) {
          assert Following(cron, s, u) == NextOf(cron, s)(u);
        }
      }
    }
  }

  lemma SkipsInColumns(cron: CronNext, s: Schedule, now: int)
    requires Skips(cron, s, now)
    ensures var next := SkipTo(NextOf(cron, s), NextRunAfterFire(cron, s, s.nextRunAt), now);
            && (s.kind == Interval ==>
                  var step := Following(cron, s, s.nextRunAt) - s.nextRunAt;
                  step > 0 && now < next <= now + step && (next - s.nextRunAt) % step == 0)
            && (s.kind == Cron && EnumeratesInstants(cron, s) ==> next == Following(cron, s, now))
  {
    FollowingIsNext(cron, s);
    if s.kind == Interval {
      SkipByInterval(NextOf(cron, s), s.nextRunAt, 1, Step(s), now);
      OnGridIsUnique(s.nextRunAt, Step(s), now, 1);
    } else if EnumeratesInstants(cron, s) {
      SkipByOccurrence(NextOf(cron, s), s.nextRunAt, now);
    }
  }

  lemma DispatchIsInColumns(cron: CronNext, st: State, id: Id, w: string, now: int, enqueues: bool)
    ensures DispatchInColumns(cron, st, id, w, now, enqueues, RunOp(cron, st, Dispatch(id, w, now, enqueues)))
  {
    if id in st.table && MayDispatch(st.table[id], w, now) {
      FollowingIsNext(cron, st.table[id]);
      if Skips(cron, st.table[id], now) {
        SkipsInColumns(cron, st.table[id], now);
      }
    }
  }

  class ScheduleStore {
    var table: Table
    var fires: seq<Fire>

    ghost function Contents(): State
      reads this
    {
      State(table, fires)
    }

    constructor ()
      ensures Contents() == State(map[], [])
    {
      table, fires := map[], [];
    }

    /** Leases the `limit` earliest due schedules among those free and not locked by another. */
    method ClaimDueSchedules(limit: nat, w: string, now: int, timeout: int, locked: set<Id>) returns (ids: set<Id>)
      requires w != ""
      modifies this`table
      ensures FirstK(NextRanks(old(table)), LeaseCandidates(old(table), now, now - timeout, locked), limit, ids)
      ensures var op := Lease(ids, w, now, now - timeout);
              Legal(old(Contents()), op) && forall cron :: Contents() == RunOp(cron, old(Contents()), op)
      ensures LeasesTheEarliest(old(table), limit, now, timeout, locked, ids)
      ensures table == map i | i in old(table) ::
                if i in ids then old(table)[i].(claimedBy := w, lastHeartbeatAt := Some(now)) else old(table)[i]
    {
      hide LeasesTheEarliest, FirstK, NextRanks, LeaseCandidates;
      ids := PickLeases(limit, now, timeout, locked);
      LeasedAreEarliest(table, limit, now, timeout, locked, ids);
      LeasedAreLegal(Contents(), limit, w, now, timeout, locked, ids);
      hide Legal;
      table := map i | i in table ::
        if i in ids then table[i].(claimedBy := w, lastHeartbeatAt := Some(now)) else table[i];
    }

    method PickLeases(limit: nat, now: int, timeout: int, locked: set<Id>) returns (ids: set<Id>)
      ensures FirstK(NextRanks(table), LeaseCandidates(table, now, now - timeout, locked), limit, ids)
    {
      ids := PickFirst(NextRanks(table), LeaseCandidates(table, now, now - timeout, locked), limit);
    }

    method DispatchSync(cron: CronNext, id: Id, w: string, now: int, enqueues: bool)
      modifies this
      ensures Contents() == RunOp(cron, old(Contents()), Dispatch(id, w, now, enqueues))
      ensures DispatchInColumns(cron, old(Contents()), id, w, now, enqueues, Contents())
    {
      DispatchIsInColumns(cron, Contents(), id, w, now, enqueues);
      hide DispatchInColumns;
      if id !in table || !(table[id].enabled && table[id].claimedBy == w && table[id].nextRunAt <= now) {
        return;
      }
      var task := table[id];
      if !task.catchup && PeriodsBehind(cron, task, now) >= 1 {
        var next := SkipMissed(cron, task, now);
        table := table[id := task.(nextRunAt := next, claimedBy := "", lastHeartbeatAt := None)];
        return;
      }
      if !enqueues {
        return;
      }
      fires := fires + [Fire(id, task.nextRunAt, now)];
      var next := NextRunAfterFire(cron, task, if task.nextRunAt < now then now else task.nextRunAt);
      table := table[id := table[id].(nextRunAt := next, lastRunAt := Some(now),
                                      claimedBy := "", lastHeartbeatAt := None)];
    }
  }
}
