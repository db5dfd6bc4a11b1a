/** Webhook deliveries: the rows, the claim, mark and purge statements, and runs of any number of
    workers that may stall, crash or resume between a claim and its mark. */
module Webhooks {
  import opened Basics

  // ----- Rows --------------------------------------------------------------------------

  datatype DeliveryStatus = Pending | Delivering | Succeeded | Failed

  datatype Delivery = Delivery(
    subscription: Id, event: Id, status: DeliveryStatus, count: int, max: int, nextAt: Time,
    lockedUntil: Option<Time>, token: Option<Id>, lastAttemptAt: Option<Time>, deliveredAt: Option<Time>,
    createdAt: Time, updatedAt: Time)

  /** What a worker read when it claimed a row. It may act on this at any later time, or never. */
  datatype Held = Held(id: Id, token: Id, count: int, max: int, claimedAt: Time, lockedUntil: Time)

  /** A claim of one row, or a mark that found its row. */
  datatype Occurrence =
    | Claimed(held: Held)
    | Marked(held: Held, delivered: bool, attemptedAt: Time, next: Time)

  /** The stored rows, with the identifiers handed out so far and a record of what happened to them:
      the last two are history, read by no statement. */
  datatype Queue = Queue(rows: map<Id, Delivery>, used: set<Id>, log: seq<Occurrence>)

  const EMPTY := Queue(map[], {}, [])

  // ----- Durations ---------------------------------------------------------------------

  const TIMEOUT: Time := 10 * SECOND
  const BUFFER: Time := TIMEOUT
  const LOCK_TTL: Time := 2 * MINUTE
  const INT32_MAX: int := 0x7fff_ffff
  const TWO_64: int := 0x1_0000_0000_0000_0000

  /** Two's complement wrap-around of a 64-bit signed result. */
  function Wrap64(n: int): int {
    (n + TWO_63) % TWO_64 - TWO_63
  }

  function ClaimLockTTL(limit: int): Time {
    var batch := Wrap64(Wrap64(limit * TIMEOUT) + BUFFER);
    if batch > LOCK_TTL then batch else LOCK_TTL
  }

  function Pow2(n: nat): nat {
    if n == 0 then 1 else 2 * Pow2(n - 1)
  }

  function Backoff(count: int): Time {
    var k := if count < 1 then 1 else if count > 6 then 6 else count;
    Pow2(k - 1) * MINUTE
  }

  // ----- Claiming ----------------------------------------------------------------------

  predicate Claimable(d: Delivery, active: set<Id>, now: Time) {
    && d.subscription in active
    && (d.status == Pending || d.status == Delivering)
    && d.count < d.max && d.nextAt <= now
    && (d.status != Delivering || d.lockedUntil.None? || d.lockedUntil.value <= now)
  }

  function ClaimableRows(q: Queue, active: set<Id>, now: Time): set<Id> {
    set id | id in q.rows && Claimable(q.rows[id], active, now)
  }

  /** The oldest rows of `items`, up to the limit; ties and the order of return are left open. */
  predicate Oldest(q: Queue, items: set<Id>, limit: nat, chosen: seq<Id>)
    requires items <= q.rows.Keys
  {
    && Distinct(chosen) && (forall id :: id in chosen ==> id in items)
    && |chosen| == (if |items| < limit then |items| else limit)
    && forall x, y :: x in items && x !in chosen && y in chosen && y in q.rows ==> q.rows[y].createdAt <= q.rows[x].createdAt
  }

  function Take(q: Queue, id: Id, token: Id, now: Time, until: Time, at: Time): Queue
    requires id in q.rows
  {
    var d := q.rows[id];
    q.(rows := q.rows[id := d.(status := Delivering, lockedUntil := Some(until), token := Some(token), updatedAt := at)],
       log := q.log + [Claimed(Held(id, token, d.count, d.max, now, until))])
  }

  function TakeAll(q: Queue, chosen: seq<Id>, token: Id, now: Time, until: Time, at: Time): (r: Queue)
    requires forall id :: id in chosen ==> id in q.rows
    ensures r.rows.Keys == q.rows.Keys
  {
    if chosen == [] then q
    else
      var n := |chosen| - 1;
      Take(TakeAll(q, chosen[..n], token, now, until, at), chosen[n], token, now, until, at)
  }

  // ----- Marking -----------------------------------------------------------------------

  /** The WHERE clause of both marks. */
  predicate Matches(q: Queue, h: Held) {
    h.id in q.rows && q.rows[h.id].token == Some(h.token) && q.rows[h.id].status == Delivering
  }

  function Settle(q: Queue, h: Held, delivered: bool, attemptedAt: Time, next: Time, at: Time): Queue
    requires h.id in q.rows
  {
    var d := q.rows[h.id];
    var marked :=
      if delivered then d.(status := Succeeded, deliveredAt := Some(attemptedAt))
      else d.(status := if h.count + 1 >= d.max then Failed else Pending, nextAt := next);
    q.(rows := q.rows[h.id := marked.(count := h.count + 1, lockedUntil := None, lastAttemptAt := Some(attemptedAt), updatedAt := at)],
       log := q.log + [Marked(h, delivered, attemptedAt, next)])
  }

  // ----- Steps and runs ----------------------------------------------------------------

  predicate Terminal(d: Delivery) {
    d.status == Succeeded || d.status == Failed
  }

  /** A failed mark reads the clock twice: for `attemptedAt`, then for the base of the backoff. */
  datatype Step =
    | Enqueue(id: Id, subscription: Id, event: Id, max: int)
    | Claim(token: Id, now: Time, limit: int, active: set<Id>, locked: set<Id>, chosen: seq<Id>)
    | Succeed(held: Held, attemptedAt: Time)
    | Fail(held: Held, attemptedAt: Time, nextFrom: Time)
    | Purge(cutoff: Time)

  /** A step and the instant at which its statement runs. */
  datatype Tick = Tick(at: Time, step: Step)

  /** The trigger's insert: a fresh row, one per subscription and event. */
  predicate CanEnqueue(q: Queue, id: Id, subscription: Id, event: Id, max: int) {
    && id !in q.used && id !in q.rows && max > 0
    && forall other :: other in q.rows ==> q.rows[other].subscription != subscription || q.rows[other].event != event
  }

  predicate FreshToken(q: Queue, token: Id) {
    forall o :: o in q.log ==> o.held.token != token
  }

  predicate CanClaim(q: Queue, step: Step)
    requires step.Claim?
  {
    && 0 < step.limit <= INT32_MAX && FreshToken(q, step.token)
    && Oldest(q, ClaimableRows(q, step.active, step.now) - step.locked, step.limit, step.chosen)
  }

  /** A mark is issued by a worker that holds the row, and changes a row only where it matches. */
  predicate CanMark(q: Queue, h: Held) {
    Claimed(h) in q.log && Matches(q, h)
  }

  function Next(step: Step): Time
    requires step.Fail?
  {
    step.nextFrom + Backoff(step.held.count + 1)
  }

  function Apply(q: Queue, tick: Tick): Queue {
    match tick.step
    case Enqueue(id, subscription, event, max) =>
      if !CanEnqueue(q, id, subscription, event, max) then q
      else Queue(q.rows[id := Delivery(subscription, event, Pending, 0, max, tick.at, None, None, None, None, tick.at, tick.at)],
                 q.used + {id}, q.log)
    case Claim(token, now, limit, active, locked, chosen) =>
      if !CanClaim(q, tick.step) then q
      else TakeAll(q, chosen, token, now, now + ClaimLockTTL(limit), tick.at)
    case Succeed(h, attemptedAt) =>
      if !CanMark(q, h) then q else Settle(q, h, true, attemptedAt, attemptedAt, tick.at)
    case Fail(h, attemptedAt, _) =>
      if !CanMark(q, h) then q else Settle(q, h, false, attemptedAt, Next(tick.step), tick.at)
    case Purge(cutoff) =>
      q.(rows := map id | id in q.rows && !(Terminal(q.rows[id]) && q.rows[id].updatedAt < cutoff) :: q.rows[id])
  }

  function Run(q: Queue, ticks: seq<Tick>): Queue {
    if ticks == [] then q else Apply(Run(q, ticks[..|ticks| - 1]), ticks[|ticks| - 1])
  }
}
