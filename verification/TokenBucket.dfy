/** The token bucket of a rate-limited task path: refill, spend, refund and the wait hint. */
module TokenBucket {
  import opened Model

  const MICROS_PER_SECOND := 1000000.0
  const CONCURRENCY_RECHECK_INTERVAL := 1.0

  function Min(a: int, b: int): int {
    if a <= b then a else b
  }

  function MinReal(a: real, b: real): real {
    if a <= b then a else b
  }

  /** A burst that is missing or zero counts as one token. */
  function Capacity(p: Policy): real {
    if p.rateCapacity.Some? && p.rateCapacity.value != 0.0 then p.rateCapacity.value else 1.0
  }

  function Fresh(p: Policy, now: int): Bucket {
    Bucket(Capacity(p), now)
  }

  /** The bucket row of a path, inserted full when it does not exist yet. */
  function BucketOf(buckets: map<Path, Bucket>, path: Path, p: Policy, now: int): Bucket {
    if path in buckets then buckets[path] else Fresh(p, now)
  }

  /** Seconds since the last update; a clock that went backwards counts as no time. */
  function Elapsed(b: Bucket, now: int): real {
    if now > b.updatedAt then (now - b.updatedAt) as real / MICROS_PER_SECOND else 0.0
  }

  function Refilled(b: Bucket, p: Policy, now: int): Bucket {
    if p.rate.None? then b
    else Bucket(MinReal(Capacity(p), b.tokens + Elapsed(b, now) * p.rate.value), now)
  }

  /** The bucket after a poll that took n items. */
  function Polled(b: Bucket, p: Policy, now: int, n: int): Bucket {
    if p.rate.None? then b
    else var f := Refilled(b, p, now); f.(tokens := f.tokens - n as real)
  }

  /** How many items the policy lets a poll take, given how many of the path are running. */
  function Allowance(b: Bucket, p: Policy, now: int, running: int, limit: int): int {
    var byRate := if p.rate.Some? then Min(limit, Refilled(b, p, now).tokens.Floor) else limit;
    if p.concurrency.Some? then Min(byRate, p.concurrency.value - running) else byRate
  }

  function Refunded(b: Bucket): Bucket {
    b.(tokens := b.tokens + 1.0)
  }

  function RefundedBy(b: Bucket, n: nat): Bucket {
    b.(tokens := b.tokens + n as real)
  }

  /** Seconds to wait before polling again, when the poll may have been held back. `b` is the
      bucket after the poll. */
  function WaitHint(b: Bucket, p: Policy, allowed: int, limit: int): Option<real> {
    if allowed >= limit then None
    else if p.rate.Some? && p.rate.value != 0.0 && b.tokens < 1.0 then
      Some((1.0 - b.tokens) / p.rate.value)
    else Some(CONCURRENCY_RECHECK_INTERVAL)
  }

  /** The rate lets a poll take k items. */
  predicate Opens(b: Bucket, p: Policy, later: int, k: nat) {
    Refilled(b, p, later).tokens.Floor >= k
  }

  /** x times the rate reaches y exactly when x reaches y over the rate. */
  lemma DivideByRate(x: real, y: real, rate: real)
    requires rate > 0.0
    ensures x * rate >= y <==> x >= y / rate
  {
    var q := y / rate;
    assert q * rate == y;
    if x >= q {
      assert (x - q) * rate >= 0.0;
    } else {
      assert (q - x) * rate > 0.0;
    }
  }

  /** The microseconds that passed, in seconds; none if the clock went back. */
  function Seconds(from: int, to: int): real {
    if to > from then (to - from) as real / 1000000.0 else 0.0
  }

  /** A poll may take k whole items, k at least one, if and only if they fit the burst and the time
      since the last update, at the policy's rate, makes up for what the bucket lacks. */
  lemma OpensIffWaited(b: Bucket, p: Policy, later: int, k: nat)
    requires p.rate.Some? && p.rate.value > 0.0 && k >= 1
    ensures Opens(b, p, later, k)
       <==> k as real <= Capacity(p) && Seconds(b.updatedAt, later) >= (k as real - b.tokens) / p.rate.value
  {
    OpensIffRefilled(b, p, later, k);
    hide Opens, Elapsed;
    assert Elapsed(b, later) == Seconds(b.updatedAt, later) by { SecondsElapse(b, later); }
    DivideByRate(Elapsed(b, later), k as real - b.tokens, p.rate.value);
  }

  lemma SecondsElapse(b: Bucket, later: int)
    ensures Elapsed(b, later) == Seconds(b.updatedAt, later)
  {
  }

  lemma OpensIffRefilled(b: Bucket, p: Policy, later: int, k: nat)
    requires p.rate.Some?
    ensures Opens(b, p, later, k)
       <==> k as real <= Capacity(p) && Elapsed(b, later) * p.rate.value >= k as real - b.tokens
  {
  }

  /** What a policy lets a poll take, in its own terms: k items, k at least one, if and only if the
      poll asks for as many, the rate has made up for them, and that many slots are free. */
  lemma AllowanceIff(b: Bucket, p: Policy, now: int, running: int, limit: int, k: nat)
    requires ValidPolicy(p) && k >= 1
    ensures Allowance(b, p, now, running, limit) >= k <==>
              && k <= limit
              && (p.rate.Some? ==>
                    && k as real <= (if p.rateCapacity.Some? then p.rateCapacity.value else 1.0)
                    && Seconds(b.updatedAt, now) >= (k as real - b.tokens) / p.rate.value)
              && (p.concurrency.Some? ==> running + k <= p.concurrency.value)
  {
    if p.rate.Some? {
      OpensIffWaited(b, p, now, k);
    }
  }

  /** What an earlier state of the bucket says about a later poll. */
  predicate AllowsFrom(b: Bucket, p: Policy, later: int, running: int, limit: int, k: nat)
    requires ValidPolicy(p) && p.rate.Some?
  {
    && k <= limit
    && k as real <= (if p.rateCapacity.Some? then p.rateCapacity.value else 1.0)
    && Seconds(b.updatedAt, later) >= (k as real - b.tokens) / p.rate.value
    && (p.concurrency.Some? ==> running + k <= p.concurrency.value)
  }

  /** A bucket that opens like an earlier one allows what the earlier one would by then. */
  lemma AllowanceFrom(b: Bucket, b': Bucket, p: Policy, later: int, running: int, limit: int, k: nat)
    requires ValidPolicy(p) && p.rate.Some? && k >= 1
    requires k as real <= Capacity(p) ==> (Opens(b', p, later, k) <==> Opens(b, p, later, k))
    ensures Allowance(b', p, later, running, limit) >= k <==> AllowsFrom(b, p, later, running, limit, k)
  {
    OpensIffWaited(b, p, later, k);
    OpensIffWaited(b', p, later, k);
    AllowanceIff(b', p, later, running, limit, k);
    hide Opens, Allowance, Seconds;
  }

  /** The hint is exact: a path left with less than one token can be claimed at a later poll
      if and only if the poll comes at least the hinted time later. */
  lemma HintIsExact(b: Bucket, p: Policy, now: int, n: nat, running: nat, limit: int, later: int)
    requires ValidPolicy(p) && p.rate.Some? && Capacity(p) >= 1.0
    requires var after := Polled(b, p, now, n);
             && after.tokens < 1.0
             && Allowance(b, p, now, running, limit) < limit
    requires later >= now
    ensures var after := Polled(b, p, now, n);
            var hint := WaitHint(after, p, Allowance(b, p, now, running, limit), limit);
            && hint.Some? && hint.value > 0.0
            && (Opens(after, p, later, 1) <==> (later - now) as real / 1000000.0 >= hint.value)
  {
    var after := Polled(b, p, now, n);
    assert Seconds(after.updatedAt, later) == (later - now) as real / 1000000.0;
    hide Opens, Polled, Elapsed, Allowance, WaitHint, Capacity, Seconds;
    OpensIffWaited(after, p, later, 1);
    HintIsQuotient(after, p, Allowance(b, p, now, running, limit), limit);
  }

  lemma HintIsQuotient(b: Bucket, p: Policy, allowed: int, limit: int)
    requires p.rate.Some? && p.rate.value > 0.0 && b.tokens < 1.0 && allowed < limit
    ensures WaitHint(b, p, allowed, limit) == Some((1.0 - b.tokens) / p.rate.value)
    ensures (1.0 - b.tokens) / p.rate.value > 0.0
  {
    DivideByRate(0.0, 1.0 - b.tokens, p.rate.value);
  }

  /** The bucket after polls that take nothing, the last of them last. */
  function PolledEmpty(b: Bucket, p: Policy, clocks: seq<int>): Bucket {
    if clocks == [] then b else Polled(PolledEmpty(b, p, clocks[..|clocks| - 1]), p, clocks[|clocks| - 1], 0)
  }

  predicate InOrder(start: int, clocks: seq<int>, end: int) {
    && start <= end
    && (forall i | 0 <= i < |clocks| :: start <= clocks[i] <= end)
    && (forall i, j | 0 <= i < j < |clocks| :: clocks[i] <= clocks[j])
  }

  /** A poll that takes nothing does not change when the rate has made up for k items. */
  lemma EmptyPollKeepsOpening(b: Bucket, p: Policy, mid: int, later: int, k: nat)
    requires ValidPolicy(p) && p.rate.Some? && k as real <= Capacity(p) && b.updatedAt <= mid <= later
    ensures Opens(Polled(b, p, mid, 0), p, later, k) <==> Opens(b, p, later, k)
    ensures Polled(b, p, mid, 0).updatedAt == mid
  {
    var rate := p.rate.value;
    var x, y := Elapsed(b, mid), Elapsed(Polled(b, p, mid, 0), later);
    assert Elapsed(b, later) == x + y;
    assert (x + y) * rate == x * rate + y * rate;
    assert y * rate >= 0.0;
  }

  lemma {:induction false} EmptyPollsKeepOpening(b: Bucket, p: Policy, clocks: seq<int>, later: int, k: nat)
    requires ValidPolicy(p) && p.rate.Some? && k as real <= Capacity(p) && InOrder(b.updatedAt, clocks, later)
    ensures Opens(PolledEmpty(b, p, clocks), p, later, k) <==> Opens(b, p, later, k)
    ensures PolledEmpty(b, p, clocks).updatedAt == if clocks == [] then b.updatedAt else clocks[|clocks| - 1]
  {
    hide Opens, Polled;
    if clocks != [] {
      var front := clocks[..|clocks| - 1];
      EmptyPollsKeepOpening(b, p, front, later, k);
      EmptyPollKeepsOpening(PolledEmpty(b, p, front), p, clocks[|clocks| - 1], later, k);
    }
  }

  /** The hint is exact whoever polls in between: after any number of polls that take nothing, by
      clocks in order, the path opens if and only if the hinted time has passed. */
  lemma HintIsExactThroughPolls(b: Bucket, p: Policy, now: int, n: nat, running: nat, limit: int,
                                clocks: seq<int>, later: int)
    requires ValidPolicy(p) && p.rate.Some? && Capacity(p) >= 1.0
    requires Polled(b, p, now, n).tokens < 1.0 && Allowance(b, p, now, running, limit) < limit
    requires InOrder(now, clocks, later)
    ensures var after := Polled(b, p, now, n);
            var hint := WaitHint(after, p, Allowance(b, p, now, running, limit), limit);
            && hint.Some? && hint.value > 0.0
            && (Opens(PolledEmpty(after, p, clocks), p, later, 1)
                <==> (later - now) as real / 1000000.0 >= hint.value)
  {
    HintIsExact(b, p, now, n, running, limit, later);
    EmptyPollsKeepOpening(Polled(b, p, now, n), p, clocks, later, 1);
  }

  /** With a burst below one token, which `parse_rate` accepts ("0.5/m"), no poll ever opens the
      path; with a burst of at least one, some poll does. So the path can run if and only if its
      capacity reaches one. */
  lemma OpensEventuallyIffCapacity(b: Bucket, p: Policy)
    requires ValidPolicy(p) && p.rate.Some? && b.tokens >= 0.0
    ensures (exists later :: Opens(b, p, later, 1)) <==> Capacity(p) >= 1.0
  {
    var rate := p.rate.value;
    if Capacity(p) >= 1.0 {
      var seconds := 1.0 / rate;
      var later := b.updatedAt + (seconds * MICROS_PER_SECOND).Floor + 1;
      assert Elapsed(b, later) >= seconds;
      DivideByRate(Elapsed(b, later), 1.0, rate);
      assert Opens(b, p, later, 1);
    } else {
      forall later ensures !Opens(b, p, later, 1) {
      }
    }
  }

  /** Giving back a whole pick leaves the bucket as a poll that took nothing would have. */
  lemma RefundUndoesPick(b: Bucket, p: Policy, now: int, n: nat)
    requires p.rate.Some?
    ensures RefundedBy(Polled(b, p, now, n), n) == Polled(b, p, now, 0)
  {
  }

  /** A poll within its allowance never overdraws the bucket and leaves at most the burst. */
  lemma PollStaysInRange(b: Bucket, p: Policy, now: int, running: int, limit: int, n: nat)
    requires ValidPolicy(p) && p.rate.Some? && b.tokens >= 0.0
    requires n == 0 || n <= Allowance(b, p, now, running, limit)
    ensures 0.0 <= Polled(b, p, now, n).tokens <= Capacity(p) - n as real
  {
    assert Elapsed(b, now) * p.rate.value >= 0.0;
    var f := Refilled(b, p, now);
    assert f.tokens.Floor as real <= f.tokens;
  }

  /** What `parse_rate` makes of "0.5/m" is such a policy: a full bucket never opens. */
  lemma HalfARunNeverOpens(now: int, later: int)
    ensures var p := Policy(Some(0.5 / 60.0), Some(0.5), None);
            ValidPolicy(p) && !Opens(Fresh(p, now), p, later, 1)
  {
    var p := Policy(Some(0.5 / 60.0), Some(0.5), None);
    if Opens(Fresh(p, now), p, later, 1) {
      OpensEventuallyIffCapacity(Fresh(p, now), p);
    }
  }
}
