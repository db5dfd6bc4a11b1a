/** The delivery table as a mutable object, and the worker that claims a batch and marks it row by
    row while other workers take steps in between. */
module WebhookWorker {
  import opened Basics
  import opened Webhooks
  import opened WebhookTheorems
  import opened WebhookTiming
  import Ordering

  // ----- Statements --------------------------------------------------------------------

  function CreatedAt(q: Queue): Id -> Time {
    id => if id in q.rows then q.rows[id].createdAt else 0
  }

  lemma {:induction false} SmallestAreOldest(q: Queue, items: set<Id>, limit: nat, list: seq<Id>)
    requires items <= q.rows.Keys && Ordering.Smallest(items, CreatedAt(q), limit, list)
    ensures Oldest(q, items, limit, list)
  {
    var key := CreatedAt(q);
    forall x, y | x in items && x !in list && y in list && y in q.rows ensures q.rows[y].createdAt <= q.rows[x].createdAt {
      assert key(y) <= key(x);
    }
  }

  function HeldRow(q: Queue, id: Id, token: Id, now: Time, until: Time): Held
    requires id in q.rows
  {
    Held(id, token, q.rows[id].count, q.rows[id].max, now, until)
  }

  /** What RETURNING hands to the worker. */
  function Holds(q: Queue, chosen: seq<Id>, token: Id, now: Time, until: Time): (batch: seq<Held>)
    requires forall id :: id in chosen ==> id in q.rows
    ensures |batch| == |chosen| && forall i :: 0 <= i < |batch| ==> batch[i] == HeldRow(q, chosen[i], token, now, until)
  {
    if chosen == [] then []
    else
      var n := |chosen| - 1;
      Holds(q, chosen[..n], token, now, until) + [HeldRow(q, chosen[n], token, now, until)]
  }

  lemma {:induction false} ClaimTakes(q: Queue, claim: Step, at: Time)
    requires claim.Claim? && CanClaim(q, claim)
    ensures Distinct(claim.chosen) && forall id :: id in claim.chosen ==> id in q.rows
    ensures Apply(q, Tick(at, claim)) ==
            TakeAll(q, claim.chosen, claim.token, claim.now, claim.now + ClaimLockTTL(claim.limit), at)
  {
    hide TakeAll, ClaimLockTTL;
    ChosenCanBeTaken(q, claim);
  }

  lemma {:induction false} ClaimElse(q: Queue, claim: Step, at: Time)
    requires claim.Claim?
    ensures !CanClaim(q, claim) ==> Apply(q, Tick(at, claim)) == q
  {
    hide CanClaim, TakeAll, ClaimLockTTL;
  }

  class DeliveryStore {
    var rows: map<Id, Delivery>
    var used: set<Id>
    var log: seq<Occurrence>

    function View(): Queue
      reads this
    {
      Queue(rows, used, log)
    }

    constructor ()
      ensures View() == EMPTY
    {
      rows, used, log := map[], {}, [];
    }

    method Enqueue(id: Id, subscription: Id, event: Id, max: int, at: Time)
      modifies this
      ensures View() == Apply(old(View()), Tick(at, Webhooks.Enqueue(id, subscription, event, max)))
    {
      if CanEnqueue(View(), id, subscription, event, max) {
        rows := rows[id := Delivery(subscription, event, Pending, 0, max, at, None, None, None, None, at, at)];
        used := used + {id};
      }
    }

    /** The UPDATE part of the claim, row by row. */
    method TakeRows(chosen: seq<Id>, token: Id, now: Time, until: Time, at: Time) returns (batch: seq<Held>)
      requires Distinct(chosen) && forall id :: id in chosen ==> id in rows
      modifies this
      ensures View() == TakeAll(old(View()), chosen, token, now, until, at)
      ensures batch == Holds(old(View()), chosen, token, now, until)
    {
      batch := [];
      for i := 0 to |chosen|
        invariant rows.Keys == old(rows).Keys
        invariant View() == TakeAll(old(View()), chosen[..i], token, now, until, at)
        invariant batch == Holds(old(View()), chosen[..i], token, now, until)
      {
        var id := chosen[i];
        assert chosen[..i + 1][..i] == chosen[..i];
        TakeAllSparesOthers(old(View()), chosen[..i], token, now, until, at, id);
        var d := rows[id];
        rows := rows[id := d.(status := Delivering, lockedUntil := Some(until), token := Some(token), updatedAt := at)];
        var h := Held(id, token, d.count, d.max, now, until);
        log := log + [Claimed(h)];
        batch := batch + [h];
      }
      assert chosen[..|chosen|] == chosen;
    }

    /** The candidates of the claim. */
    method SelectPending(token: Id, now: Time, limit: int, active: set<Id>, locked: set<Id>) returns (list: seq<Id>)
      requires 0 < limit <= INT32_MAX && FreshToken(View(), token)
      ensures CanClaim(View(), Claim(token, now, limit, active, locked, list))
    {
      hide Ordering.Smallest, Oldest, FreshToken;
      var items := ClaimableRows(View(), active, now) - locked;
      list := Ordering.FirstBy(items, CreatedAt(View()), limit);
      SmallestAreOldest(View(), items, limit, list);
    }

    method ClaimPending(token: Id, now: Time, limit: int, active: set<Id>, locked: set<Id>, at: Time)
      returns (batch: seq<Held>, ghost chosen: seq<Id>)
      requires 0 < limit <= INT32_MAX && FreshToken(View(), token)
      modifies this
      ensures CanClaim(old(View()), Claim(token, now, limit, active, locked, chosen))
      ensures View() == Apply(old(View()), Tick(at, Claim(token, now, limit, active, locked, chosen)))
      ensures batch == Holds(old(View()), chosen, token, now, now + ClaimLockTTL(limit))
    {
      hide CanClaim, FreshToken, Apply, TakeAll, Holds, ClaimLockTTL;
      var list := SelectPending(token, now, limit, active, locked);
      chosen := list;
      ClaimTakes(View(), Claim(token, now, limit, active, locked, chosen), at);
      batch := TakeRows(list, token, now, now + ClaimLockTTL(limit), at);
    }

    method MarkSucceeded(h: Held, attemptedAt: Time, at: Time) returns (found: bool)
      requires Claimed(h) in log
      modifies this
      ensures View() == Apply(old(View()), Tick(at, Succeed(h, attemptedAt)))
      ensures found <==> Matches(old(View()), h)
    {
      found := h.id in rows && rows[h.id].token == Some(h.token) && rows[h.id].status == Delivering;
      if found {
        rows := rows[h.id := rows[h.id].(status := Succeeded, count := h.count + 1, lockedUntil := None,
                                         lastAttemptAt := Some(attemptedAt), deliveredAt := Some(attemptedAt), updatedAt := at)];
        log := log + [Marked(h, true, attemptedAt, attemptedAt)];
      }
    }

    method MarkFailed(h: Held, attemptedAt: Time, nextFrom: Time, at: Time) returns (found: bool)
      requires Claimed(h) in log
      modifies this
      ensures View() == Apply(old(View()), Tick(at, Fail(h, attemptedAt, nextFrom)))
      ensures found <==> Matches(old(View()), h)
    {
      found := h.id in rows && rows[h.id].token == Some(h.token) && rows[h.id].status == Delivering;
      if found {
        var next := nextFrom + Backoff(h.count + 1);
        var status := if h.count + 1 >= rows[h.id].max then Failed else Pending;
        rows := rows[h.id := rows[h.id].(status := status, count := h.count + 1, lockedUntil := None,
                                         lastAttemptAt := Some(attemptedAt), nextAt := next, updatedAt := at)];
        log := log + [Marked(h, false, attemptedAt, next)];
      }
    }

    method DeleteTerminal(cutoff: Time, at: Time) returns (deleted: nat)
      modifies this
      ensures View() == Apply(old(View()), Tick(at, Purge(cutoff)))
      ensures deleted == |old(rows)| - |rows|
    {
      var kept := map id | id in rows && !(Terminal(rows[id]) && rows[id].updatedAt < cutoff) :: rows[id];
      assert kept.Keys + (rows.Keys - kept.Keys) == rows.Keys;
      deleted := |rows.Keys - kept.Keys|;
      rows := kept;
    }

    method ExecuteClaim(tick: Tick)
      requires tick.step.Claim?
      modifies this
      ensures View() == Apply(old(View()), tick)
    {
      hide CanClaim, Apply, TakeAll, Holds, ClaimLockTTL;
      var c := tick.step;
      ClaimElse(View(), c, tick.at);
      if CanClaim(View(), c) {
        ClaimTakes(View(), c, tick.at);
        var _ := TakeRows(c.chosen, c.token, c.now, c.now + ClaimLockTTL(c.limit), tick.at);
      }
    }

    /** A step of any worker. */
    method Execute(tick: Tick)
      modifies this
      ensures View() == Apply(old(View()), tick)
    {
      hide CanClaim, TakeAll, Settle, Next, CanEnqueue;
      match tick.step {
        case Enqueue(id, subscription, event, max) => Enqueue(id, subscription, event, max, tick.at);
        case Claim(_, _, _, _, _, _) => ExecuteClaim(tick);
        case Succeed(h, attemptedAt) =>
          if Claimed(h) in log { var _ := MarkSucceeded(h, attemptedAt, tick.at); }
        case Fail(h, attemptedAt, nextFrom) =>
          if Claimed(h) in log { var _ := MarkFailed(h, attemptedAt, nextFrom, tick.at); }
        case Purge(cutoff) => var _ := DeleteTerminal(cutoff, tick.at);
      }
    }

    method ExecuteAll(ticks: seq<Tick>)
      modifies this
      ensures View() == Run(old(View()), ticks)
    {
      hide Apply;
      for i := 0 to |ticks|
        invariant View() == Run(old(View()), ticks[..i])
      {
        Execute(ticks[i]);
        assert ticks[..i + 1][..i] == ticks[..i];
      }
      assert ticks[..|ticks|] == ticks;
    }
  }

  // ----- One run of the worker ---------------------------------------------------------

  /** A turn of the loop: what others do during the send, how the send ended, what the clock
      showed for the mark, and when the mark ran. */
  datatype Turn = Turn(others: seq<Tick>, delivered: bool, attemptedAt: Time, nextFrom: Time, at: Time)

  datatype RunResult = RunResult(claimed: nat, succeeded: nat, failed: nat, retried: nat, lost: nat)

  function MarkTick(h: Held, turn: Turn): Tick {
    Tick(turn.at, if turn.delivered then Succeed(h, turn.attemptedAt) else Fail(h, turn.attemptedAt, turn.nextFrom))
  }

  function BatchTicks(batch: seq<Held>, turns: nat -> Turn, n: nat): seq<Tick>
    requires n <= |batch|
  {
    if n == 0 then [] else BatchTicks(batch, turns, n - 1) + turns(n - 1).others + [MarkTick(batch[n - 1], turns(n - 1))]
  }

  /** Counts a mark by what it did to the row. */
  function Tallied(r: RunResult, before: Queue, after: Queue, id: Id): RunResult {
    if after == before then r.(lost := r.lost + 1)
    else if id in after.rows && after.rows[id].status == Succeeded then r.(succeeded := r.succeeded + 1)
    else if id in after.rows && after.rows[id].status == Failed then r.(failed := r.failed + 1)
    else r.(retried := r.retried + 1)
  }

  /** The queue just before the n-th mark. */
  function BeforeMark(q: Queue, batch: seq<Held>, turns: nat -> Turn, n: nat): Queue
    requires n < |batch|
  {
    Run(q, BatchTicks(batch, turns, n) + turns(n).others)
  }

  function Tally(q: Queue, batch: seq<Held>, turns: nat -> Turn, n: nat): RunResult
    requires n <= |batch|
  {
    if n == 0 then RunResult(|batch|, 0, 0, 0, 0)
    else
      var before := BeforeMark(q, batch, turns, n - 1);
      Tallied(Tally(q, batch, turns, n - 1), before, Apply(before, MarkTick(batch[n - 1], turns(n - 1))), batch[n - 1].id)
  }

  lemma {:induction false} TallyAddsUp(q: Queue, batch: seq<Held>, turns: nat -> Turn, n: nat)
    requires n <= |batch|
    ensures var r := Tally(q, batch, turns, n);
            r.claimed == |batch| && r.succeeded + r.failed + r.retried + r.lost == n
  {
    hide Run, Apply;
    if n > 0 { TallyAddsUp(q, batch, turns, n - 1); }
  }

  lemma {:induction false} RunEndsWith(q: Queue, ticks: seq<Tick>, tick: Tick)
    ensures Run(q, ticks + [tick]) == Apply(Run(q, ticks), tick)
  {
    hide Apply;
    assert (ticks + [tick])[..|ticks|] == ticks;
  }

  lemma {:induction false} StepKeepsLog(q: Queue, tick: Tick)
    ensures q.log <= Apply(q, tick).log
  {
    hide CanClaim;
    if tick.step.Claim? && CanClaim(q, tick.step) {
      var c := tick.step;
      ChosenCanBeTaken(q, c);
      TakeAllKeepsLog(q, c.chosen, c.token, c.now, c.now + ClaimLockTTL(c.limit), tick.at);
    }
  }

  /** The log records what the worker was handed, and nothing is lost from it. */
  lemma {:induction false} TakeAllKeepsLog(q: Queue, chosen: seq<Id>, token: Id, now: Time, until: Time, at: Time)
    requires Distinct(chosen) && forall id :: id in chosen ==> id in q.rows
    ensures q.log <= TakeAll(q, chosen, token, now, until, at).log
    ensures forall h :: h in Holds(q, chosen, token, now, until) ==> Claimed(h) in TakeAll(q, chosen, token, now, until, at).log
    ensures forall o :: o in TakeAll(q, chosen, token, now, until, at).log && o.Marked? ==> o in q.log
  {
    if chosen != [] {
      var n := |chosen| - 1;
      TakeAllKeepsLog(q, chosen[..n], token, now, until, at);
      TakeAllSparesOthers(q, chosen[..n], token, now, until, at, chosen[n]);
    }
  }

  lemma {:induction false} RunKeepsLog(q: Queue, ticks: seq<Tick>)
    ensures q.log <= Run(q, ticks).log
  {
    hide Apply;
    if ticks != [] {
      RunKeepsLog(q, ticks[..|ticks| - 1]);
      StepKeepsLog(Run(q, ticks[..|ticks| - 1]), ticks[|ticks| - 1]);
    }
  }

  /** How the loop counts a mark, from the result of the statement and what was read at claim time. */
  function Counted(so: RunResult, h: Held, delivered: bool, found: bool): RunResult {
    if !found then so.(lost := so.lost + 1)
    else if delivered then so.(succeeded := so.succeeded + 1)
    else if h.count + 1 >= h.max then so.(failed := so.failed + 1)
    else so.(retried := so.retried + 1)
  }

  /** "Exhausted", decided from the counts read at claim time, agrees with the row. */
  lemma {:induction false} CountedByEffect(q: Queue, h: Held, turn: Turn, so: RunResult)
    requires Sound(q) && Claimed(h) in q.log
    ensures Counted(so, h, turn.delivered, Matches(q, h)) == Tallied(so, q, Apply(q, MarkTick(h, turn)), h.id)
  {
    HolderMatches(q, h);
    hide Sound;
    var q' := Apply(q, MarkTick(h, turn));
    if Matches(q, h) { assert |q'.log| == |q.log| + 1; }
  }

  method MarkOne(db: DeliveryStore, h: Held, turn: Turn, so: RunResult) returns (r: RunResult)
    requires Sound(db.View()) && Claimed(h) in db.log
    modifies db
    ensures db.View() == Apply(old(db.View()), MarkTick(h, turn)) && Sound(db.View())
    ensures r == Tallied(so, old(db.View()), db.View(), h.id)
  {
    hide Sound, Apply, Matches, Tallied;
    CountedByEffect(db.View(), h, turn, so);
    StepKeepsSound(db.View(), MarkTick(h, turn));
    if turn.delivered {
      var found := db.MarkSucceeded(h, turn.attemptedAt, turn.at);
      if !found {
        return so.(lost := so.lost + 1);
      }
      return so.(succeeded := so.succeeded + 1);
    }
    var found := db.MarkFailed(h, turn.attemptedAt, turn.nextFrom, turn.at);
    if !found {
      return so.(lost := so.lost + 1);
    }
    var exhausted := h.count + 1 >= h.max;
    r := if exhausted then so.(failed := so.failed + 1) else so.(retried := so.retried + 1);
  }

  /** The loop over the claimed deliveries. */
  method MarkBatch(db: DeliveryStore, batch: seq<Held>, turns: nat -> Turn) returns (r: RunResult)
    requires Sound(db.View()) && forall h :: h in batch ==> Claimed(h) in db.log
    modifies db
    ensures db.View() == Run(old(db.View()), BatchTicks(batch, turns, |batch|))
    ensures r == Tally(old(db.View()), batch, turns, |batch|)
  {
    hide Apply, Sound, Tallied, MarkTick;
    ghost var q := db.View();
    r := RunResult(|batch|, 0, 0, 0, 0);
    for i := 0 to |batch|
      invariant db.View() == Run(q, BatchTicks(batch, turns, i)) && Sound(db.View()) && q.log <= db.log
      invariant r == Tally(q, batch, turns, i)
    {
      ghost var done := BatchTicks(batch, turns, i);
      RunSplits(q, done, turns(i).others);
      RunKeepsSound(db.View(), turns(i).others);
      RunKeepsLog(db.View(), turns(i).others);
      db.ExecuteAll(turns(i).others);
      RunEndsWith(q, done + turns(i).others, MarkTick(batch[i], turns(i)));
      StepKeepsLog(db.View(), MarkTick(batch[i], turns(i)));
      assert Claimed(batch[i]) in q.log;
      r := MarkOne(db, batch[i], turns(i), r);
    }
  }

  /** `WebhookWorker.RunOnce`. Every claimed delivery is counted once, by what its mark did to the
      row at that moment. */
  method RunOnce(db: DeliveryStore, token: Id, now: Time, limit: int, active: set<Id>, locked: set<Id>, at: Time,
                 turns: nat -> Turn)
    returns (r: RunResult, ghost chosen: seq<Id>)
    requires Sound(db.View()) && 0 < limit <= INT32_MAX && FreshToken(db.View(), token)
    modifies db
    ensures CanClaim(old(db.View()), Claim(token, now, limit, active, locked, chosen))
    ensures var claim := Claim(token, now, limit, active, locked, chosen);
            var batch := Holds(old(db.View()), chosen, token, now, Until(claim));
            var q := Apply(old(db.View()), Tick(at, claim));
            && db.View() == Run(q, BatchTicks(batch, turns, |batch|))
            && r == Tally(q, batch, turns, |batch|)
            && r.claimed == |chosen| && r.claimed == r.succeeded + r.failed + r.retried + r.lost
  {
    hide Apply, Sound, Run, BatchTicks, Tally, ClaimLockTTL, FreshToken;
    ghost var start := db.View();
    var batch;
    batch, chosen := db.ClaimPending(token, now, limit, active, locked, at);
    ghost var claim := Tick(at, Claim(token, now, limit, active, locked, chosen));
    StepKeepsSound(start, claim);
    HoldsAreLogged(start, claim);
    ghost var q := db.View();
    r := MarkBatch(db, batch, turns);
    TallyAddsUp(q, batch, turns, |batch|);
  }

  function Until(claim: Step): Time
    requires claim.Claim?
  {
    claim.now + ClaimLockTTL(claim.limit)
  }

  lemma {:induction false} HoldsAreLogged(q: Queue, tick: Tick)
    requires tick.step.Claim? && CanClaim(q, tick.step)
    ensures forall h :: h in Holds(q, tick.step.chosen, tick.step.token, tick.step.now, Until(tick.step)) ==> Claimed(h) in Apply(q, tick).log
  {
    hide CanClaim, Apply, ClaimLockTTL, TakeAll;
    var c := tick.step;
    ClaimTakes(q, c, tick.at);
    TakeAllKeepsLog(q, c.chosen, c.token, c.now, Until(c), tick.at);
  }

  // ----- Ownership of a punctual batch -------------------------------------------------

  /** What the worker was handed by a claim is marked by that worker alone. */
  ghost predicate OwnMarksOnly(batch: seq<Held>, turns: nat -> Turn) {
    forall i, tick, h :: 0 <= i < |batch| && tick in turns(i).others && h in batch ==> !MarkOf(tick.step, h)
  }

  lemma {:induction false} StepMarksOnce(q: Queue, tick: Tick, h: Held)
    requires !Done(q.log, h) && !MarkOf(tick.step, h)
    ensures !Done(Apply(q, tick).log, h)
  {
    hide CanClaim, TakeAll, CanMark, ClaimLockTTL;
    if tick.step.Claim? && CanClaim(q, tick.step) {
      var c := tick.step;
      ClaimTakes(q, c, tick.at);
      TakeAllKeepsLog(q, c.chosen, c.token, c.now, c.now + ClaimLockTTL(c.limit), tick.at);
    }
  }

  lemma {:induction false} RunMarksOnce(q: Queue, ticks: seq<Tick>, h: Held)
    requires !Done(q.log, h) && forall tick :: tick in ticks ==> !MarkOf(tick.step, h)
    ensures !Done(Run(q, ticks).log, h)
  {
    hide Apply, Done, MarkOf;
    if ticks != [] {
      RunMarksOnce(q, ticks[..|ticks| - 1], h);
      StepMarksOnce(Run(q, ticks[..|ticks| - 1]), ticks[|ticks| - 1], h);
    }
  }

  lemma {:induction false} EarlierTurnsMarkOthers(batch: seq<Held>, turns: nat -> Turn, n: nat, k: nat)
    requires n <= k < |batch| && OwnMarksOnly(batch, turns) && Distinct(batch)
    ensures forall tick :: tick in BatchTicks(batch, turns, n) ==> !MarkOf(tick.step, batch[k])
  {
    if n > 0 {
      EarlierTurnsMarkOthers(batch, turns, n - 1, k);
      assert batch[k] in batch && batch[n - 1] != batch[k];
      assert !MarkOf(MarkTick(batch[n - 1], turns(n - 1)).step, batch[k]);
    }
  }

  lemma {:induction false} BatchPrefix(batch: seq<Held>, turns: nat -> Turn, n: nat, m: nat)
    requires n <= m <= |batch|
    ensures BatchTicks(batch, turns, n) <= BatchTicks(batch, turns, m)
  {
    if n < m { BatchPrefix(batch, turns, n, m - 1); }
  }

  lemma {:induction false} ClockedPrefix(ticks: seq<Tick>, more: seq<Tick>, tick: Tick)
    requires ticks + [tick] <= more && Clocked(more)
    ensures Clocked(ticks) && forall i :: 0 <= i < |ticks| ==> ticks[i].at <= tick.at
  {
    assert more[|ticks|] == tick;
    forall i | 0 <= i < |ticks| ensures ticks[i] == more[i] { }
  }

  /** The rows of `batch` were claimed in the run `base` with locks until `until`, and not marked. */
  ghost predicate Handed(base: seq<Tick>, batch: seq<Held>, until: Time) {
    && Distinct(batch)
    && forall h :: h in batch ==>
         Claimed(h) in Run(EMPTY, base).log && !Done(Run(EMPTY, base).log, h) && h.lockedUntil == until
  }

  lemma {:induction false} HoldsAreDistinct(q: Queue, chosen: seq<Id>, token: Id, now: Time, until: Time)
    requires Distinct(chosen) && forall id :: id in chosen ==> id in q.rows
    ensures Distinct(Holds(q, chosen, token, now, until))
    ensures forall h :: h in Holds(q, chosen, token, now, until) ==> h.lockedUntil == until && h.token == token
  {
  }

  lemma {:induction false} ClaimsAreFresh(q: Queue, claim: Step)
    requires claim.Claim? && CanClaim(q, claim)
    ensures FreshToken(q, claim.token)
  {
    hide Oldest, FreshToken;
  }

  lemma {:induction false} FreshIsUnmarked(q: Queue, h: Held, log: seq<Occurrence>)
    requires FreshToken(q, h.token) && forall o :: o in log && o.Marked? ==> o in q.log
    ensures !Done(log, h)
  {
  }

  ghost function BatchOf(ticks: seq<Tick>, claim: Tick): (batch: seq<Held>)
    requires claim.step.Claim? && CanClaim(Run(EMPTY, ticks), claim.step)
    ensures |batch| <= claim.step.limit
  {
    Holds(Run(EMPTY, ticks), claim.step.chosen, claim.step.token, claim.step.now, Until(claim.step))
  }

  lemma {:induction false} ClaimHands(ticks: seq<Tick>, claim: Tick)
    requires claim.step.Claim? && CanClaim(Run(EMPTY, ticks), claim.step)
    ensures Handed(ticks + [claim], BatchOf(ticks, claim), Until(claim.step))
  {
    hide CanClaim, TakeAll, Apply, ClaimLockTTL, Run, Holds, FreshToken, Done;
    var c, q := claim.step, Run(EMPTY, ticks);
    ClaimsAreFresh(q, c);
    RunEndsWith(EMPTY, ticks, claim);
    ClaimTakes(q, c, claim.at);
    TakeAllKeepsLog(q, c.chosen, c.token, c.now, Until(c), claim.at);
    HoldsAreDistinct(q, c.chosen, c.token, c.now, Until(c));
    var log := Run(EMPTY, ticks + [claim]).log;
    forall h | h in BatchOf(ticks, claim) ensures !Done(log, h) {
      FreshIsUnmarked(q, h, log);
    }
  }

  /** A mark that runs before the lock ends finds its row. */
  lemma {:induction false} PunctualMarkFinds(base: seq<Tick>, batch: seq<Held>, until: Time, turns: nat -> Turn, n: nat)
    requires Handed(base, batch, until) && OwnMarksOnly(batch, turns) && n < |batch|
    requires Clocked(base + BatchTicks(batch, turns, |batch|)) && turns(n).at < until
    ensures var q := BeforeMark(Run(EMPTY, base), batch, turns, n);
            Claimed(batch[n]) in q.log && Matches(q, batch[n])
  {
    var q, h := Run(EMPTY, base), batch[n];
    var mine := BatchTicks(batch, turns, n) + turns(n).others;
    EarlierTurnsMarkOthers(batch, turns, n, n);
    assert h in batch;
    hide Run, Done, Clocked, Matches, MarkOf;
    RunMarksOnce(q, mine, h);
    RunKeepsLog(q, mine);
    RunSplits(EMPTY, base, mine);
    BatchPrefix(batch, turns, n + 1, |batch|);
    ClockedPrefix(base + mine, base + BatchTicks(batch, turns, |batch|), MarkTick(h, turns(n)));
    LockWindow(base + mine, h, turns(n).at);
  }

  lemma {:induction false} FoundIsNotLost(q: Queue, h: Held, turn: Turn, so: RunResult)
    requires Claimed(h) in q.log && Matches(q, h)
    ensures Tallied(so, q, Apply(q, MarkTick(h, turn)), h.id).lost == so.lost
  {
    assert |Apply(q, MarkTick(h, turn)).log| == |q.log| + 1;
  }

  /** If every mark of a batch runs before the lock ends, none is lost, whatever others do. */
  lemma {:induction false} NoLostOwnership(base: seq<Tick>, batch: seq<Held>, until: Time, turns: nat -> Turn, n: nat)
    requires Handed(base, batch, until) && OwnMarksOnly(batch, turns) && n <= |batch|
    requires Clocked(base + BatchTicks(batch, turns, |batch|)) && forall i :: 0 <= i < |batch| ==> turns(i).at < until
    ensures Tally(Run(EMPTY, base), batch, turns, n).lost == 0
  {
    hide Run, Apply, Matches, Tallied, Clocked, OwnMarksOnly, Handed, BatchTicks;
    if n > 0 {
      NoLostOwnership(base, batch, until, turns, n - 1);
      PunctualMarkFinds(base, batch, until, turns, n - 1);
      var q := Run(EMPTY, base);
      FoundIsNotLost(BeforeMark(q, batch, turns, n - 1), batch[n - 1], turns(n - 1), Tally(q, batch, turns, n - 1));
    }
  }

  /** Clocks agree, what the claim handed out is marked by its worker alone, each send keeps to the
      timeout, everything else in the batch takes less than the buffer, and each mark runs when
      its turn's sends and work are done. */
  ghost predicate Punctual(ticks: seq<Tick>, claim: Tick, turns: nat -> Turn, sends: seq<Time>, work: seq<Time>)
    requires claim.step.Claim? && CanClaim(Run(EMPTY, ticks), claim.step)
  {
    var batch := BatchOf(ticks, claim);
    && Clocked(ticks + [claim] + BatchTicks(batch, turns, |batch|)) && OwnMarksOnly(batch, turns)
    && InTime(sends, work) && |sends| == |batch|
    && forall i :: 0 <= i < |sends| ==> turns(i).at <= claim.step.now + Sum(sends[..i + 1]) + Sum(work[..i + 1])
  }

  /** A punctual run whose batch the lock covers never loses ownership. */
  lemma {:induction false} PunctualBatch(ticks: seq<Tick>, claim: Tick, turns: nat -> Turn, sends: seq<Time>, work: seq<Time>)
    requires claim.step.Claim? && CanClaim(Run(EMPTY, ticks), claim.step)
    requires Punctual(ticks, claim, turns, sends, work) && LockCovers(claim.step.limit, |BatchOf(ticks, claim)|)
    ensures Tally(Run(EMPTY, ticks + [claim]), BatchOf(ticks, claim), turns, |BatchOf(ticks, claim)|).lost == 0
  {
    hide CanClaim, Run, Clocked, OwnMarksOnly, Tally, ClaimLockTTL;
    forall i | 0 <= i < |sends| ensures turns(i).at < Until(claim.step) {
      MarksLandInTime(claim.step.limit, claim.step.now, sends, work, i);
    }
    ClaimHands(ticks, claim);
    NoLostOwnership(ticks + [claim], BatchOf(ticks, claim), Until(claim.step), turns, |sends|);
  }

  /** The worker itself, in any reachable queue: when its sends, its other work and the clocks keep
      to these bounds, it reports no lost ownership. */
  method RunPunctually(db: DeliveryStore, ghost ticks: seq<Tick>, token: Id, now: Time, limit: int, active: set<Id>, locked: set<Id>,
                       at: Time, turns: nat -> Turn, ghost sends: seq<Time>, ghost work: seq<Time>)
    returns (r: RunResult, ghost chosen: seq<Id>)
    requires db.View() == Run(EMPTY, ticks) && 0 < limit <= INT32_MAX && FreshToken(db.View(), token)
    modifies db
    ensures var claim := Tick(at, Claim(token, now, limit, active, locked, chosen));
            && CanClaim(Run(EMPTY, ticks), claim.step)
            && r.claimed == |BatchOf(ticks, claim)| == r.succeeded + r.failed + r.retried + r.lost
            && (Punctual(ticks, claim, turns, sends, work) && LockCovers(limit, r.claimed) ==> r.lost == 0)
            && (limit <= MAX_SAFE_LIMIT || r.claimed <= 11 ==> LockCovers(limit, r.claimed))
  {
    ReachableQueues(ticks);
    hide Run, Sound, FreshToken, CanClaim, Apply, Tally, ClaimLockTTL, BatchTicks;
    r, chosen := RunOnce(db, token, now, limit, active, locked, at, turns);
    ghost var claim := Tick(at, Claim(token, now, limit, active, locked, chosen));
    RunEndsWith(EMPTY, ticks, claim);
    BatchIsCovered(limit, |BatchOf(ticks, claim)|);
    if Punctual(ticks, claim, turns, sends, work) && LockCovers(limit, r.claimed) {
      PunctualBatch(ticks, claim, turns, sends, work);
    }
  }
}
