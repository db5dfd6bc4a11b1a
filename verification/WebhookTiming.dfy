/** Webhook deliveries against the clock: lock windows, the lock time of a batch, and the backoff
    schedule. */
module WebhookTiming {
  import opened Basics
  import opened Webhooks
  import opened WebhookTheorems

  // ----- Lock windows ------------------------------------------------------------------

  /** Clocks agree: steps run in order of time, and a claim compares with an instant it has
      already read. */
  ghost predicate Clocked(ticks: seq<Tick>) {
    && (forall i, j :: 0 <= i < j < |ticks| ==> ticks[i].at <= ticks[j].at)
    && (forall i :: 0 <= i < |ticks| && ticks[i].step.Claim? ==> ticks[i].step.now <= ticks[i].at)
  }

  /** A mark of `h` took effect. */
  ghost predicate Done(log: seq<Occurrence>, h: Held) {
    exists o :: o in log && o.Marked? && o.held == h
  }

  /** A claim still owns its row, was marked, or has outlived its lock. */
  ghost predicate Accounted(log: seq<Occurrence>, h: Held, now: Time) {
    Last(log, h.id) == Some(Claimed(h)) || Done(log, h) || h.lockedUntil <= now
  }

  ghost predicate Windowed(q: Queue, now: Time) {
    forall o :: o in q.log && o.Claimed? ==> Accounted(q.log, o.held, now)
  }

  lemma {:induction false} AccountedAppend(log: seq<Occurrence>, o: Occurrence, h: Held, now: Time, later: Time)
    requires Accounted(log, h, now) && now <= later
    requires o.held.id == h.id && Last(log, h.id) == Some(Claimed(h)) ==> (o.Marked? && o.held == h) || h.lockedUntil <= later
    ensures Accounted(log + [o], h, later)
  {
    LastAppend(log, o, h.id);
    if Done(log, h) {
      var m :| m in log && m.Marked? && m.held == h;
      assert m in log + [o];
    }
    assert o in log + [o];
  }

  lemma {:induction false} TakeKeepsWindows(q: Queue, id: Id, token: Id, now: Time, until: Time, was: Time, at: Time)
    requires Sound(q) && Windowed(q, was) && was <= at && now <= at
    requires Unlocked(q, id, now)
    ensures Windowed(Take(q, id, token, now, until, at), at)
  {
    var o := Claimed(Held(id, token, q.rows[id].count, q.rows[id].max, now, until));
    LastAppend(q.log, o, id);
    assert RowAgrees(q, id);
    forall p | p in q.log && p.Claimed? ensures Accounted(q.log + [o], p.held, at) {
      AccountedAppend(q.log, o, p.held, was, at);
    }
  }

  predicate Unlocked(q: Queue, id: Id, now: Time) {
    id in q.rows && (q.rows[id].status == Delivering ==> q.rows[id].lockedUntil.GetOr(now) <= now)
  }

  lemma {:induction false} TakeAllKeepsWindows(q: Queue, chosen: seq<Id>, token: Id, now: Time, until: Time, was: Time, at: Time)
    requires Sound(q) && Windowed(q, was) && was <= at && now <= at && Distinct(chosen)
    requires forall id :: id in chosen ==> id in q.rows && CanTake(q, id, token) && Unlocked(q, id, now)
    ensures Windowed(TakeAll(q, chosen, token, now, until, at), at)
  {
    hide Sound, Windowed, CanTake;
    if chosen == [] {
      WindowsOnlyClose(q, was, at);
    } else {
      var n := |chosen| - 1;
      TakeAllKeepsWindows(q, chosen[..n], token, now, until, was, at);
      TakeAllKeepsSound(q, chosen[..n], token, now, until, at);
      StillUnlocked(q, chosen, token, now, until, at);
      TakeKeepsWindows(TakeAll(q, chosen[..n], token, now, until, at), chosen[n], token, now, until, at, at);
    }
  }

  lemma {:induction false} StillUnlocked(q: Queue, chosen: seq<Id>, token: Id, now: Time, until: Time, at: Time)
    requires chosen != [] && Distinct(chosen) && forall id :: id in chosen ==> id in q.rows && Unlocked(q, id, now)
    ensures Unlocked(TakeAll(q, chosen[..|chosen| - 1], token, now, until, at), chosen[|chosen| - 1], now)
  {
    TakeAllSparesOthers(q, chosen[..|chosen| - 1], token, now, until, at, chosen[|chosen| - 1]);
    assert Unlocked(q, chosen[|chosen| - 1], now);
  }

  lemma {:induction false} SettleKeepsWindows(q: Queue, h: Held, delivered: bool, attemptedAt: Time, next: Time, was: Time, at: Time)
    requires Sound(q) && Windowed(q, was) && was <= at && CanMark(q, h)
    ensures Windowed(Settle(q, h, delivered, attemptedAt, next, at), at)
  {
    HolderMatches(q, h);
    var o := Marked(h, delivered, attemptedAt, next);
    forall p | p in q.log && p.Claimed? ensures Accounted(q.log + [o], p.held, at) {
      AccountedAppend(q.log, o, p.held, was, at);
    }
  }

  lemma {:induction false} ChosenAreFree(q: Queue, step: Step)
    requires step.Claim? && CanClaim(q, step)
    ensures forall id :: id in step.chosen ==> id in q.rows && Unlocked(q, id, step.now) && Due(q, id, step.now)
  {
  }

  lemma {:induction false} ClaimKeepsWindows(q: Queue, tick: Tick, was: Time)
    requires Sound(q) && Windowed(q, was) && was <= tick.at
    requires tick.step.Claim? && tick.step.now <= tick.at && CanClaim(q, tick.step)
    ensures Windowed(Apply(q, tick), tick.at)
  {
    hide Sound, Windowed, CanTake, TakeAll, Unlocked, ClaimLockTTL;
    var c := tick.step;
    ChosenCanBeTaken(q, c);
    ChosenAreFree(q, c);
    TakeAllKeepsWindows(q, c.chosen, c.token, c.now, c.now + ClaimLockTTL(c.limit), was, tick.at);
  }

  lemma {:induction false} StepKeepsWindows(q: Queue, tick: Tick, was: Time)
    requires Sound(q) && Windowed(q, was) && was <= tick.at
    requires tick.step.Claim? ==> tick.step.now <= tick.at
    ensures Windowed(Apply(q, tick), tick.at)
  {
    hide Sound, CanMark, CanClaim, TakeAll, Settle;
    WindowsOnlyClose(q, was, tick.at);
    match tick.step {
      case Claim(_, _, _, _, _, _) => if CanClaim(q, tick.step) { ClaimKeepsWindows(q, tick, was); }
      case Succeed(h, at) => if CanMark(q, h) { SettleKeepsWindows(q, h, true, at, at, was, tick.at); }
      case Fail(h, at, _) => if CanMark(q, h) { SettleKeepsWindows(q, h, false, at, Next(tick.step), was, tick.at); }
      case _ =>
    }
  }

  lemma {:induction false} RunKeepsWindows(ticks: seq<Tick>, now: Time)
    requires Clocked(ticks) && forall i :: 0 <= i < |ticks| ==> ticks[i].at <= now
    ensures Windowed(Run(EMPTY, ticks), now)
  {
    if ticks != [] {
      var n := |ticks| - 1;
      var q := Run(EMPTY, ticks[..n]);
      RunKeepsWindows(ticks[..n], ticks[n].at);
      ReachableQueues(ticks[..n]);
      hide Sound, Apply;
      StepKeepsWindows(q, ticks[n], ticks[n].at);
      WindowsOnlyClose(Run(EMPTY, ticks), ticks[n].at, now);
    }
  }

  lemma {:induction false} WindowsOnlyClose(q: Queue, was: Time, now: Time)
    requires Windowed(q, was) && was <= now
    ensures Windowed(q, now)
  {
    forall o | o in q.log && o.Claimed? ensures Accounted(q.log, o.held, now) { assert Accounted(q.log, o.held, was); }
  }

  /** Before `locked_until`, a claim that was not marked still owns its row: its mark finds it. */
  lemma {:induction false} LockWindow(ticks: seq<Tick>, h: Held, now: Time)
    requires Clocked(ticks) && forall i :: 0 <= i < |ticks| ==> ticks[i].at <= now
    requires Claimed(h) in Run(EMPTY, ticks).log && now < h.lockedUntil && !Done(Run(EMPTY, ticks).log, h)
    ensures Matches(Run(EMPTY, ticks), h)
  {
    RunKeepsWindows(ticks, now);
    ReachableQueues(ticks);
    var q := Run(EMPTY, ticks);
    hide Run, Sound;
    assert Accounted(q.log, Claimed(h).held, now);
    HolderMatches(q, h);
  }

  /** No two claims of one delivery are both unmarked and within their locks. */
  lemma {:induction false} OneHolderAtATime(ticks: seq<Tick>, h: Held, h': Held, now: Time)
    requires Clocked(ticks) && forall i :: 0 <= i < |ticks| ==> ticks[i].at <= now
    requires Claimed(h) in Run(EMPTY, ticks).log && now < h.lockedUntil && !Done(Run(EMPTY, ticks).log, h)
    requires Claimed(h') in Run(EMPTY, ticks).log && now < h'.lockedUntil && !Done(Run(EMPTY, ticks).log, h')
    requires h.id == h'.id
    ensures h == h'
  {
    RunKeepsWindows(ticks, now);
    var q := Run(EMPTY, ticks);
    hide Run;
    assert Accounted(q.log, Claimed(h).held, now) && Accounted(q.log, Claimed(h').held, now);
  }

  // ----- The lock time of a batch ------------------------------------------------------

  /** The largest batch limit whose lock time does not overflow 64 bits. */
  const MAX_SAFE_LIMIT := 922_337_202

  /** For every limit a worker can have, the lock lasts for that many sends at the full timeout
      plus the buffer exactly when the product does not overflow. */
  lemma {:induction false} LockCoversBatch(limit: int)
    requires 0 < limit <= INT32_MAX
    ensures ClaimLockTTL(limit) >= limit * TIMEOUT + BUFFER <==> limit <= MAX_SAFE_LIMIT
    ensures limit <= MAX_SAFE_LIMIT && limit * TIMEOUT + BUFFER > LOCK_TTL ==> ClaimLockTTL(limit) == limit * TIMEOUT + BUFFER
    ensures limit > MAX_SAFE_LIMIT && limit * TIMEOUT + BUFFER < TWO_64 ==> ClaimLockTTL(limit) == LOCK_TTL
    ensures ClaimLockTTL(limit) >= LOCK_TTL
  {
    var full := limit * TIMEOUT + BUFFER;
    WrapAbsorbs(limit * TIMEOUT, BUFFER);
    if full < TWO_63 {
      WrapShifts(full, 0);
    } else if full < TWO_63 + TWO_64 {
      WrapShifts(full, 1);
    }
  }

  lemma {:induction false} WrapShifts(n: int, k: int)
    requires k * TWO_64 - TWO_63 <= n < k * TWO_64 + TWO_63
    ensures Wrap64(n) == n - k * TWO_64
  {
  }

  lemma {:induction false} WrapAbsorbs(n: int, m: int)
    ensures Wrap64(Wrap64(n) + m) == Wrap64(n + m)
  {
    var k := (n + TWO_63) / TWO_64;
    assert Wrap64(n) == n - k * TWO_64;
  }

  function Sum(list: seq<Time>): Time {
    if list == [] then 0 else Sum(list[..|list| - 1]) + list[|list| - 1]
  }

  /** `sends[i]` and `work[i]`: how long the i-th send and everything else in its turn took. */
  ghost predicate InTime(sends: seq<Time>, work: seq<Time>) {
    && |sends| == |work|
    && (forall i :: 0 <= i < |sends| ==> 0 <= sends[i] <= TIMEOUT)
    && (forall i :: 0 <= i < |work| ==> 0 <= work[i])
    && Sum(work) < BUFFER
  }

  lemma {:induction false} SendsFit(sends: seq<Time>, n: nat)
    requires n <= |sends| && forall i :: 0 <= i < |sends| ==> 0 <= sends[i] <= TIMEOUT
    ensures Sum(sends[..n]) <= n * TIMEOUT
  {
    if n > 0 {
      assert sends[..n][..n - 1] == sends[..n - 1];
      SendsFit(sends, n - 1);
    }
  }

  lemma {:induction false} WorkFits(work: seq<Time>, n: nat)
    requires n <= |work| && forall i :: 0 <= i < |work| ==> 0 <= work[i]
    ensures Sum(work[..n]) <= Sum(work)
    decreases |work| - n
  {
    if n == |work| {
      assert work[..n] == work;
    } else {
      assert work[..n + 1][..n] == work[..n];
      WorkFits(work, n + 1);
    }
  }

  /** The lock of a claim with this limit lasts for `n` sends at the full timeout plus the buffer. */
  predicate LockCovers(limit: int, n: nat) {
    n * TIMEOUT + BUFFER <= ClaimLockTTL(limit)
  }

  /** A limit that does not overflow covers every batch it allows; any limit covers eleven sends. */
  lemma {:induction false} BatchIsCovered(limit: int, n: nat)
    requires 0 < limit <= INT32_MAX && n <= limit
    ensures limit <= MAX_SAFE_LIMIT || n <= 11 ==> LockCovers(limit, n)
  {
    LockCoversBatch(limit);
    assert n * TIMEOUT <= limit * TIMEOUT;
  }

  /** With sends within the timeout and all other work under the buffer, every mark of a batch that
      the lock covers runs before the lock ends. */
  lemma {:induction false} MarksLandInTime(limit: int, claimedAt: Time, sends: seq<Time>, work: seq<Time>, i: nat)
    requires LockCovers(limit, |sends|) && InTime(sends, work) && i < |sends|
    ensures claimedAt + Sum(sends[..i + 1]) + Sum(work[..i + 1]) < claimedAt + ClaimLockTTL(limit)
  {
    SendsFit(sends, i + 1);
    WorkFits(work, i + 1);
    assert (i + 1) * TIMEOUT <= |sends| * TIMEOUT;
  }

  // ----- Backoff -----------------------------------------------------------------------

  /** The delays after the first `n` failures together. */
  function TotalBackoff(n: nat): Time {
    if n == 0 then 0 else TotalBackoff(n - 1) + Backoff(n)
  }

  /** 1, 2, 4, 8, 16, then 32 minutes each time. */
  lemma {:induction false} TotalBackoffMinutes(n: nat)
    ensures n <= 6 ==> TotalBackoff(n) == (Pow2(n) - 1) * MINUTE
    ensures n > 6 ==> TotalBackoff(n) == (63 + 32 * (n - 6)) * MINUTE
  {
    if n > 0 {
      TotalBackoffMinutes(n - 1);
      assert Pow2(6) == 64 && Pow2(5) == 32;
    }
  }

  /** A worker reads its clock in order: claim, attempt, base of the backoff. */
  ghost predicate InOrder(tick: Tick) {
    tick.step.Fail? ==> tick.step.held.claimedAt <= tick.step.attemptedAt <= tick.step.nextFrom
  }

  /** When the first failed mark of a delivery said it was attempted. */
  function FirstFailure(log: seq<Occurrence>, id: Id): Option<Time> {
    if log == [] then None
    else
      var first := FirstFailure(log[..|log| - 1], id);
      var o := log[|log| - 1];
      if first.None? && o.Marked? && !o.delivered && o.held.id == id then Some(o.attemptedAt) else first
  }

  lemma {:induction false} FirstFailureAppend(log: seq<Occurrence>, o: Occurrence, id: Id)
    ensures FirstFailure(log + [o], id) ==
            if FirstFailure(log, id).None? && o.Marked? && !o.delivered && o.held.id == id then Some(o.attemptedAt)
            else FirstFailure(log, id)
  {
    assert (log + [o])[..|log|] == log;
  }

  /** `t` is no earlier than the first failure plus the delays after the first `count` failures. */
  ghost predicate Waited(log: seq<Occurrence>, id: Id, count: int, t: Time) {
    count > 0 ==> FirstFailure(log, id).Some? && FirstFailure(log, id).value + TotalBackoff(count) <= t
  }

  ghost predicate Scheduled(q: Queue) {
    && (forall o :: o in q.log && o.Claimed? ==> Waited(q.log, o.held.id, o.held.count, o.held.claimedAt))
    && (forall id :: id in q.rows && !Terminal(q.rows[id]) ==> Waited(q.log, id, q.rows[id].count, q.rows[id].nextAt))
  }

  lemma {:induction false} WaitedAppend(log: seq<Occurrence>, o: Occurrence, id: Id, count: int, t: Time)
    requires Waited(log, id, count, t)
    ensures Waited(log + [o], id, count, t)
  {
    FirstFailureAppend(log, o, id);
  }

  lemma {:induction false} TakeKeepsSchedule(q: Queue, id: Id, token: Id, now: Time, until: Time, at: Time)
    requires Scheduled(q) && id in q.rows && !Terminal(q.rows[id]) && q.rows[id].nextAt <= now
    ensures Scheduled(Take(q, id, token, now, until, at))
  {
    var o := Claimed(Held(id, token, q.rows[id].count, q.rows[id].max, now, until));
    var q' := Take(q, id, token, now, until, at);
    assert Waited(q.log, id, q.rows[id].count, now);
    WaitedAppend(q.log, o, id, q.rows[id].count, now);
    forall p | p in q.log && p.Claimed? ensures Waited(q'.log, p.held.id, p.held.count, p.held.claimedAt) {
      WaitedAppend(q.log, o, p.held.id, p.held.count, p.held.claimedAt);
    }
    forall x | x in q'.rows && !Terminal(q'.rows[x]) ensures Waited(q'.log, x, q'.rows[x].count, q'.rows[x].nextAt) {
      WaitedAppend(q.log, o, x, q.rows[x].count, q.rows[x].nextAt);
    }
  }

  predicate Due(q: Queue, id: Id, now: Time) {
    id in q.rows && !Terminal(q.rows[id]) && q.rows[id].nextAt <= now
  }

  lemma {:induction false} TakeAllKeepsSchedule(q: Queue, chosen: seq<Id>, token: Id, now: Time, until: Time, at: Time)
    requires Scheduled(q) && Distinct(chosen) && forall id :: id in chosen ==> id in q.rows && Due(q, id, now)
    ensures Scheduled(TakeAll(q, chosen, token, now, until, at))
  {
    if chosen != [] {
      var n := |chosen| - 1;
      TakeAllKeepsSchedule(q, chosen[..n], token, now, until, at);
      TakeAllSparesOthers(q, chosen[..n], token, now, until, at, chosen[n]);
      assert Due(q, chosen[n], now);
      hide Scheduled;
      TakeKeepsSchedule(TakeAll(q, chosen[..n], token, now, until, at), chosen[n], token, now, until, at);
    }
  }

  /** A failed mark adds its own delay to the wait. */
  lemma {:induction false} FailureExtendsWait(q: Queue, h: Held, attemptedAt: Time, nextFrom: Time)
    requires Scheduled(q) && Claimed(h) in q.log && h.count >= 0
    requires h.claimedAt <= attemptedAt <= nextFrom
    requires h.count > 0 || FirstFailure(q.log, h.id).None?
    ensures var next := nextFrom + Backoff(h.count + 1);
            Waited(q.log + [Marked(h, false, attemptedAt, next)], h.id, h.count + 1, next)
  {
    var next := nextFrom + Backoff(h.count + 1);
    FirstFailureAppend(q.log, Marked(h, false, attemptedAt, next), h.id);
    assert Waited(q.log, Claimed(h).held.id, h.count, h.claimedAt);
    assert TotalBackoff(h.count + 1) == TotalBackoff(h.count) + Backoff(h.count + 1);
  }

  lemma {:induction false} NoMarksNoFailure(log: seq<Occurrence>, id: Id)
    requires CountMarks(log, id) == 0
    ensures FirstFailure(log, id).None?
  {
    if log != [] {
      NoMarksNoFailure(log[..|log| - 1], id);
    }
  }

  lemma {:induction false} MarkKeepsSchedule(q: Queue, tick: Tick)
    requires Sound(q) && Scheduled(q) && InOrder(tick) && (tick.step.Succeed? || tick.step.Fail?) && CanMark(q, tick.step.held)
    ensures Scheduled(Apply(q, tick))
  {
    var h := tick.step.held;
    HolderMatches(q, h);
    assert RowAgrees(q, h.id);
    var q' := Apply(q, tick);
    var o := q'.log[|q.log|];
    if tick.step.Fail? {
      if h.count == 0 { NoMarksNoFailure(q.log, h.id); }
      FailureExtendsWait(q, h, tick.step.attemptedAt, tick.step.nextFrom);
    }
    hide FirstFailure, TotalBackoff, Backoff, Last, CountMarks;
    forall p | p in q.log && p.Claimed? ensures Waited(q'.log, p.held.id, p.held.count, p.held.claimedAt) {
      WaitedAppend(q.log, o, p.held.id, p.held.count, p.held.claimedAt);
    }
    forall x | x in q'.rows && !Terminal(q'.rows[x]) ensures Waited(q'.log, x, q'.rows[x].count, q'.rows[x].nextAt) {
      if x != h.id { WaitedAppend(q.log, o, x, q.rows[x].count, q.rows[x].nextAt); }
    }
  }

  lemma {:induction false} ClaimKeepsSchedule(q: Queue, tick: Tick)
    requires Scheduled(q) && tick.step.Claim? && CanClaim(q, tick.step)
    ensures Scheduled(Apply(q, tick))
  {
    hide Scheduled, TakeAll, ClaimLockTTL, Due, Unlocked;
    var c := tick.step;
    ChosenAreFree(q, c);
    TakeAllKeepsSchedule(q, c.chosen, c.token, c.now, c.now + ClaimLockTTL(c.limit), tick.at);
  }

  lemma {:induction false} StepKeepsSchedule(q: Queue, tick: Tick)
    requires Sound(q) && Scheduled(q) && InOrder(tick)
    ensures Scheduled(Apply(q, tick))
  {
    hide Sound, CanMark, CanClaim, CanEnqueue, TakeAll, Settle, InOrder, TotalBackoff;
    if tick.step.Claim? {
      if CanClaim(q, tick.step) { ClaimKeepsSchedule(q, tick); }
    } else if tick.step.Succeed? || tick.step.Fail? {
      if CanMark(q, tick.step.held) { MarkKeepsSchedule(q, tick); }
    }
  }

  lemma {:induction false} RunKeepsSchedule(ticks: seq<Tick>)
    requires forall i :: 0 <= i < |ticks| ==> InOrder(ticks[i])
    ensures Scheduled(Run(EMPTY, ticks))
  {
    if ticks != [] {
      var n := |ticks| - 1;
      RunKeepsSchedule(ticks[..n]);
      ReachableQueues(ticks[..n]);
      hide Sound, Apply, Scheduled, InOrder;
      StepKeepsSchedule(Run(EMPTY, ticks[..n]), ticks[n]);
    }
  }

  /** A claim made after `h.count` failures comes no earlier than the first failure plus all the
      delays in between. */
  lemma {:induction false} BackoffSchedule(ticks: seq<Tick>, h: Held)
    requires forall i :: 0 <= i < |ticks| ==> InOrder(ticks[i])
    requires Claimed(h) in Run(EMPTY, ticks).log && h.count > 0
    ensures FirstFailure(Run(EMPTY, ticks).log, h.id).Some?
    ensures h.claimedAt >= FirstFailure(Run(EMPTY, ticks).log, h.id).value + TotalBackoff(h.count)
  {
    RunKeepsSchedule(ticks);
    var q := Run(EMPTY, ticks);
    hide Run, TotalBackoff;
    assert Waited(q.log, Claimed(h).held.id, h.count, h.claimedAt);
  }

  /** A delivery that failed for good after `max` failures was last claimed no earlier than its
      first failure plus the delays after the first `max - 1` of them. */
  lemma {:induction false} ExhaustedSchedule(ticks: seq<Tick>, id: Id)
    requires forall i :: 0 <= i < |ticks| ==> InOrder(ticks[i])
    requires id in Run(EMPTY, ticks).rows && Run(EMPTY, ticks).rows[id].status == Failed && Run(EMPTY, ticks).rows[id].max > 1
    ensures var q := Run(EMPTY, ticks);
            && Last(q.log, id).Some? && Last(q.log, id).value.Marked? && FirstFailure(q.log, id).Some?
            && Last(q.log, id).value.held.claimedAt >= FirstFailure(q.log, id).value + TotalBackoff(q.rows[id].max - 1)
  {
    ReachableQueues(ticks);
    var q := Run(EMPTY, ticks);
    LastIsLogged(q.log, id);
    hide Run, TotalBackoff, FirstFailure, Last, CountMarks;
    assert RowAgrees(q, id);
    BackoffSchedule(ticks, Last(q.log, id).value.held);
  }
}
