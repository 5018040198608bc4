/** The stored records: task rows, rate-limit buckets and their policies.

    A clock reading is a count of microseconds. Task ids (UUIDs) are numbers, and
    arguments, return values and error records are opaque strings. */
module Model {
  datatype Option<+T> = None | Some(value: T)

  type Id = nat
  type Path = string

  datatype Status = Ready | Running | Successful | Failed

  datatype Delivery = AtLeastOnce | AtMostOnce

  /** One row of the task table. `claimedBy` is the empty string when nobody holds it. */
  datatype Row = Row(
    path: Path,
    queue: string,
    priority: int,
    status: Status,
    runAfter: int,
    startedAt: Option<int>,
    lastAttemptedAt: Option<int>,
    finishedAt: Option<int>,
    attempts: int,
    maxRetries: nat,
    delivery: Delivery,
    errors: seq<string>,
    returnValue: Option<string>,
    workerIds: seq<string>,
    claimedBy: string,
    claimedAt: Option<int>,
    lastHeartbeatAt: Option<int>,
    cancelRequestedAt: Option<int>,
    uniqueKey: Option<string>)

  /** What a worker gets for each row it claimed. */
  datatype ClaimedItem = ClaimedItem(id: Id, queue: string, path: Path, attempt: int, maxRetries: nat)

  /** The limits of one task path; `rate` is in tokens per second. */
  datatype Policy = Policy(rate: Option<real>, rateCapacity: Option<real>, concurrency: Option<int>)

  /** What the decorators accept: a positive rate and burst, a concurrency of at least one. */
  predicate ValidPolicy(p: Policy) {
    && (p.rate.Some? ==> p.rate.value > 0.0)
    && (p.rateCapacity.Some? ==> p.rateCapacity.value > 0.0)
    && (p.concurrency.Some? ==> p.concurrency.value >= 1)
  }

  datatype Bucket = Bucket(tokens: real, updatedAt: int)

  type Rows = map<Id, Row>
  type Limits = map<Path, Policy>

  predicate Active(r: Row) {
    r.status.Ready? || r.status.Running?
  }

  predicate Terminal(r: Row) {
    !Active(r)
  }
}
