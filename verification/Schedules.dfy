/** Periodic schedules: when a schedule runs next, and the loop that skips missed occurrences. */
module Schedules {
  import opened Model

  datatype Kind = Cron | Interval

  /** A row of the schedule table. */
  datatype Schedule = Schedule(
    taskPath: Path,
    args: seq<string>,
    kwargs: map<string, string>,
    kind: Kind,
    cronExpression: string,
    intervalSeconds: Option<nat>,
    timezone: string,
    queue: string,
    priority: int,
    catchup: bool,
    enabled: bool,
    nextRunAt: int,
    lastRunAt: Option<int>,
    claimedBy: string,
    lastHeartbeatAt: Option<int>)

  /** The cron library: expression, time zone and an instant to the next occurrence. */
  type CronNext = (string, string, int) -> int

  const SECOND := 1_000_000

  function Step(s: Schedule): int {
    if s.intervalSeconds.Some? then s.intervalSeconds.value * SECOND else 0
  }

  function NextRunAfterFire(cron: CronNext, s: Schedule, firedAt: int): int {
    match s.kind
    case Cron => cron(s.cronExpression, if s.timezone == "" then "UTC" else s.timezone, firedAt)
    case Interval => firedAt + Step(s)
  }

  /** The first run of a schedule created or changed at `now`. */
  function NextRunAfterSync(cron: CronNext, s: Schedule, now: int): int {
    NextRunAfterFire(cron, s, now)
  }

  function NextOf(cron: CronNext, s: Schedule): int -> int {
    t => NextRunAfterFire(cron, s, t)
  }

  /** What is asked of a cron library: nothing lies between an instant and its next occurrence. */
  ghost predicate StrictlyNext(next: int -> int) {
    forall t :: next(t) > t && forall u | t <= u < next(t) :: next(u) == next(t)
  }

  /** `next` gives the least instant after its argument that `occurs`. */
  ghost predicate LeastAfter(next: int -> int, occurs: int -> bool) {
    forall t :: next(t) > t && occurs(next(t)) && forall o | t < o < next(t) :: !occurs(o)
  }

  /** The instants that `next` enumerates. */
  function Marks(next: int -> int): int -> bool {
    o => next(o - 1) == o
  }

  /** The functions we call strictly-next are exactly those that enumerate a set of instants. */
  lemma StrictlyNextEnumerates(next: int -> int)
    ensures StrictlyNext(next) <==> LeastAfter(next, Marks(next))
    ensures forall occurs :: LeastAfter(next, occurs) ==> StrictlyNext(next)
  {
    forall occurs | LeastAfter(next, occurs) ensures StrictlyNext(next) {
      forall t, u | t <= u < next(t) ensures next(u) == next(t) {
        assert occurs(next(u)) && occurs(next(t));
      }
    }
    if StrictlyNext(next) {
      forall t ensures next(t) > t && next(next(t) - 1) == next(t) {
        assert t <= next(t) - 1 < next(t);
      }
      forall t, o | t < o < next(t) ensures !Marks(next)(o) {
        assert next(o - 1) == next(t);
      }
    }
  }

  /** Every fire time lies after its argument: true of a strictly-next cron function, and of an
      interval if and only if it is positive. */
  ghost predicate Advances(cron: CronNext, s: Schedule) {
    forall t :: NextRunAfterFire(cron, s, t) > t
  }

  lemma AdvancesIffPositive(cron: CronNext, s: Schedule)
    ensures s.kind.Interval? ==> (Advances(cron, s) <==> s.intervalSeconds.Some? && s.intervalSeconds.value > 0)
    ensures StrictlyNext(NextOf(cron, s)) ==> Advances(cron, s)
  {
    if StrictlyNext(NextOf(cron, s)) {
      forall t ensures NextRunAfterFire(cron, s, t) > t {
        assert NextOf(cron, s)(t) > t;
      }
    }
    if s.kind.Interval? && Step(s) == 0 {
      assert NextRunAfterFire(cron, s, 0) == 0;
    }
  }

  /** Whether at least one whole occurrence was missed; a degenerate schedule is never behind. */
  function PeriodsBehind(cron: CronNext, s: Schedule, now: int): int {
    var nextFire := NextRunAfterFire(cron, s, s.nextRunAt);
    if nextFire <= s.nextRunAt then 0 else if nextFire <= now then 1 else 0
  }

  // ---- Skipping missed occurrences ----

  /** Occurrence after occurrence from `candidate` on, up to the first after `now`, or up to one
      that fails to advance. */
  function SkipTo(next: int -> int, candidate: int, now: int): int
    decreases now - candidate
  {
    if candidate > now then candidate
    else if next(candidate) <= candidate then next(candidate)
    else SkipTo(next, next(candidate), now)
  }

  /** The number of whole steps from `start` to `now`, plus one, added to `start`. */
  function OnGrid(start: int, step: int, now: int): int
    requires step > 0
  {
    start + step * ((now - start) / step + 1)
  }

  /** `OnGrid` is the one instant that keeps the phase and lies within a step after `now`. */
  lemma OnGridIsUnique(start: int, step: int, now: int, k: int)
    requires step > 0
    ensures now < OnGrid(start, step, now) <= now + step
    ensures (OnGrid(start, step, now) - start) % step == 0
    ensures now < start + step * k <= now + step ==> start + step * k == OnGrid(start, step, now)
  {
    var q := (now - start) / step;
    assert now - start == step * q + (now - start) % step;
    assert OnGrid(start, step, now) == start + step * q + step;
    MultipleOf(step, q + 1);
    if now < start + step * k <= now + step {
      if k <= q { assert step * k <= step * q by { Monotone(step, k, q); } }
      if k >= q + 2 { assert step * k >= step * (q + 2) by { Monotone(step, q + 2, k); } }
    }
  }

  lemma Monotone(step: int, a: int, b: int)
    requires step > 0 && a <= b
    ensures step * a <= step * b
  {
  }

  lemma MultipleOf(step: int, q: int)
    requires step > 0
    ensures (step * q) % step == 0
  {
    var m := step * q;
    assert m == step * (m / step) + m % step;
    var d := q - m / step;
    assert step * d == m % step;
    if d >= 1 { Monotone(step, 1, d); }
    if d <= -1 { Monotone(step, d, -1); }
  }

  lemma {:induction false} SkipByInterval(next: int -> int, start: int, k: int, step: int, now: int)
    requires step > 0 && forall t :: next(t) == t + step
    requires start + step * k <= now + step
    ensures SkipTo(next, start + step * k, now) == OnGrid(start, step, now)
    decreases now - step * k - start + step
  {
    var candidate := start + step * k;
    if candidate > now {
      OnGridIsUnique(start, step, now, k);
    } else {
      assert candidate + step == start + step * (k + 1);
      SkipByInterval(next, start, k + 1, step, now);
    }
  }

  lemma {:induction false} SkipByOccurrence(next: int -> int, before: int, now: int)
    requires StrictlyNext(next) && before <= now
    ensures SkipTo(next, next(before), now) == next(now)
    decreases now - before
  {
    if next(before) <= now {
      SkipByOccurrence(next, next(before), now);
    }
  }

  /** The catch-up loop. For an interval it meets the closed form, keeping the phase; for a
      strictly-next cron function it gives what one call at `now` gives. */
  method SkipMissed(cron: CronNext, s: Schedule, now: int) returns (next: int)
    requires PeriodsBehind(cron, s, now) >= 1
    ensures next == SkipTo(NextOf(cron, s), NextRunAfterFire(cron, s, s.nextRunAt), now)
    ensures s.kind.Interval? ==> Step(s) > 0 && next == OnGrid(s.nextRunAt, Step(s), now)
    ensures StrictlyNext(NextOf(cron, s)) ==> next == NextRunAfterFire(cron, s, now)
    ensures Advances(cron, s) ==> next > now
  {
    ghost var all := SkipTo(NextOf(cron, s), NextRunAfterFire(cron, s, s.nextRunAt), now);
    var at := s.nextRunAt;
    var candidate := NextRunAfterFire(cron, s, at);
    while candidate <= now
      invariant SkipTo(NextOf(cron, s), candidate, now) == all
      decreases now - candidate
    {
      at := candidate;
      candidate := NextRunAfterFire(cron, s, at);
      if candidate <= at {
        break;  // degenerate schedule
      }
    }
    assert candidate == all;
    next := candidate;
    if s.kind.Interval? {
      SkipByInterval(NextOf(cron, s), s.nextRunAt, 1, Step(s), now);
    }
    if StrictlyNext(NextOf(cron, s)) {
      SkipByOccurrence(NextOf(cron, s), s.nextRunAt, now);
    }
  }
}
