/** What holds of webhook deliveries in every run. */
module WebhookTheorems {
  import opened Basics
  import opened Webhooks

  // ----- The history determines the rows -----------------------------------------------

  /** The last thing that happened to a delivery. */
  function Last(log: seq<Occurrence>, id: Id): Option<Occurrence> {
    if log == [] then None
    else if log[|log| - 1].held.id == id then Some(log[|log| - 1])
    else Last(log[..|log| - 1], id)
  }

  /** How many marks of a delivery found their row. */
  function CountMarks(log: seq<Occurrence>, id: Id): nat {
    if log == [] then 0
    else
      CountMarks(log[..|log| - 1], id)
      + if log[|log| - 1].Marked? && log[|log| - 1].held.id == id then 1 else 0
  }

  function Outcome(delivered: bool, count: int, max: int): DeliveryStatus {
    if delivered then Succeeded else if count == max then Failed else Pending
  }

  /** A row is what the last claim or mark of it says, and counts the marks. */
  ghost predicate RowAgrees(q: Queue, id: Id)
    requires id in q.rows
  {
    var d := q.rows[id];
    && d.count == CountMarks(q.log, id) && d.count <= d.max && 0 < d.max
    && match Last(q.log, id)
       case None => d.status == Pending && d.token.None? && d.lockedUntil.None? && d.count == 0
       case Some(Claimed(h)) =>
         && d.status == Delivering && d.token == Some(h.token) && d.lockedUntil == Some(h.lockedUntil)
         && d.count == h.count < d.max && d.max == h.max
       case Some(Marked(h, delivered, _, _)) =>
         && d.status == Outcome(delivered, d.count, d.max) && d.token == Some(h.token) && d.lockedUntil.None?
         && 0 < d.count == h.count + 1 && d.max == h.max
  }

  /** A delivery that was handed out and is no longer stored was settled for good. */
  ghost predicate Settled(q: Queue, id: Id) {
    match Last(q.log, id)
    case Some(Marked(h, delivered, _, _)) => delivered || h.count + 1 == h.max
    case _ => false
  }

  ghost predicate SameClaim(o: Occurrence, p: Occurrence) {
    o.Claimed? && p.Claimed? && o.held.id == p.held.id && o.held.token == p.held.token
  }

  /** No claim token is used twice for one row, and marks follow claims. */
  ghost predicate LogSound(q: Queue) {
    && (forall i, j :: 0 <= i < j < |q.log| ==> !SameClaim(q.log[i], q.log[j]))
    && (forall o :: o in q.log ==> o.held.id in q.used && Claimed(o.held) in q.log)
  }

  ghost predicate Sound(q: Queue) {
    && LogSound(q)
    && (forall id :: id in q.rows ==> id in q.used && RowAgrees(q, id))
    && (forall id :: id in q.used && id !in q.rows ==> Settled(q, id))
  }

  lemma {:induction false} LastAppend(log: seq<Occurrence>, o: Occurrence, id: Id)
    ensures Last(log + [o], id) == if o.held.id == id then Some(o) else Last(log, id)
    ensures CountMarks(log + [o], id) == CountMarks(log, id) + if o.Marked? && o.held.id == id then 1 else 0
  {
    assert (log + [o])[..|log|] == log;
  }

  lemma {:induction false} LastIsLogged(log: seq<Occurrence>, id: Id)
    ensures Last(log, id).Some? ==> Last(log, id).value in log && Last(log, id).value.held.id == id
  {
    if log != [] && log[|log| - 1].held.id != id {
      LastIsLogged(log[..|log| - 1], id);
    }
  }

  lemma {:induction false} NothingHappened(log: seq<Occurrence>, id: Id)
    requires forall o :: o in log ==> o.held.id != id
    ensures Last(log, id).None? && CountMarks(log, id) == 0
  {
    if log != [] {
      assert log[|log| - 1] in log;
      NothingHappened(log[..|log| - 1], id);
    }
  }

  // ----- Every step keeps it -----------------------------------------------------------

  predicate CanTake(q: Queue, id: Id, token: Id) {
    && id in q.rows && (q.rows[id].status == Pending || q.rows[id].status == Delivering) && q.rows[id].count < q.rows[id].max
    && forall o :: o in q.log ==> o.held.id != id || o.held.token != token
  }

  lemma {:induction false} TakeKeepsSound(q: Queue, id: Id, token: Id, now: Time, until: Time, at: Time)
    requires Sound(q) && CanTake(q, id, token)
    ensures Sound(Take(q, id, token, now, until, at))
  {
    var o := Claimed(Held(id, token, q.rows[id].count, q.rows[id].max, now, until));
    var q' := Take(q, id, token, now, until, at);
    forall x | x in q.used ensures (x in q'.rows ==> RowAgrees(q', x)) && (x !in q'.rows ==> Settled(q', x)) {
      LastAppend(q.log, o, x);
    }
  }

  lemma {:induction false} TakeLeavesOthers(q: Queue, id: Id, token: Id, now: Time, until: Time, at: Time, other: Id)
    requires id in q.rows && other != id && CanTake(q, other, token)
    ensures CanTake(Take(q, id, token, now, until, at), other, token)
  {
  }

  /** The rows of one statement, taken one after the other. */
  lemma {:induction false} TakeAllKeepsSound(q: Queue, chosen: seq<Id>, token: Id, now: Time, until: Time, at: Time)
    requires Sound(q) && Distinct(chosen) && forall id :: id in chosen ==> id in q.rows && CanTake(q, id, token)
    ensures Sound(TakeAll(q, chosen, token, now, until, at))
    ensures forall id :: CanTake(q, id, token) && id !in chosen ==> CanTake(TakeAll(q, chosen, token, now, until, at), id, token)
  {
    hide Sound, CanTake, Take;
    if chosen != [] {
      var n := |chosen| - 1;
      var q' := TakeAll(q, chosen[..n], token, now, until, at);
      assert chosen == chosen[..n] + [chosen[n]];
      TakeAllKeepsSound(q, chosen[..n], token, now, until, at);
      TakeKeepsSound(q', chosen[n], token, now, until, at);
      forall id | CanTake(q, id, token) && id !in chosen
        ensures CanTake(TakeAll(q, chosen, token, now, until, at), id, token) {
        TakeLeavesOthers(q', chosen[n], token, now, until, at, id);
      }
    }
  }

  lemma {:induction false} LastClaimMatches(q: Queue, h: Held)
    requires Sound(q) && Last(q.log, h.id) == Some(Claimed(h))
    ensures Matches(q, h)
  {
    LastIsLogged(q.log, h.id);
    assert !Settled(q, h.id);
  }

  lemma {:induction false} OneClaimPerToken(q: Queue, i: nat, j: nat)
    requires LogSound(q) && i < |q.log| && j < |q.log| && SameClaim(q.log[i], q.log[j])
    ensures i == j
  {
    assert SameClaim(q.log[j], q.log[i]);
  }

  lemma {:induction false} MatchIsLastClaim(q: Queue, h: Held)
    requires Sound(q) && CanMark(q, h)
    ensures Last(q.log, h.id) == Some(Claimed(h))
  {
    LastIsLogged(q.log, h.id);
    assert RowAgrees(q, h.id);
    var i :| 0 <= i < |q.log| && q.log[i] == Last(q.log, h.id).value;
    var j :| 0 <= j < |q.log| && q.log[j] == Claimed(h);
    OneClaimPerToken(q, i, j);
  }

  /** Fencing: a holder's token matches exactly when nothing has happened to the row since its
      claim, and then the count it read is the stored one. */
  lemma {:induction false} HolderMatches(q: Queue, h: Held)
    requires Sound(q) && Claimed(h) in q.log
    ensures Matches(q, h) <==> Last(q.log, h.id) == Some(Claimed(h))
    ensures Matches(q, h) ==> q.rows[h.id].count == h.count && q.rows[h.id].max == h.max
  {
    if Matches(q, h) { MatchIsLastClaim(q, h); }
    if Last(q.log, h.id) == Some(Claimed(h)) {
      LastClaimMatches(q, h);
      assert RowAgrees(q, h.id);
    }
  }

  lemma {:induction false} SettleKeepsSound(q: Queue, h: Held, delivered: bool, attemptedAt: Time, next: Time, at: Time)
    requires Sound(q) && CanMark(q, h)
    ensures Sound(Settle(q, h, delivered, attemptedAt, next, at))
  {
    HolderMatches(q, h);
    var o := Marked(h, delivered, attemptedAt, next);
    var q' := Settle(q, h, delivered, attemptedAt, next, at);
    forall x | x in q.used ensures (x in q'.rows ==> RowAgrees(q', x)) && (x !in q'.rows ==> Settled(q', x)) {
      LastAppend(q.log, o, x);
    }
  }

  lemma {:induction false} EnqueueKeepsSound(q: Queue, tick: Tick)
    requires Sound(q) && tick.step.Enqueue?
    ensures Sound(Apply(q, tick))
  {
    NothingHappenedToFresh(q, tick.step.id);
    var q' := Apply(q, tick);
    assert q'.log == q.log;
    forall x | x in q'.rows ensures RowAgrees(q', x) {
      assert x in q.rows ==> RowAgrees(q, x);
    }
    forall x | x in q'.used && x !in q'.rows ensures Settled(q', x) { assert Settled(q, x); }
  }

  lemma {:induction false} NothingHappenedToFresh(q: Queue, id: Id)
    requires LogSound(q)
    ensures id !in q.used ==> Last(q.log, id).None? && CountMarks(q.log, id) == 0
  {
    if id !in q.used { NothingHappened(q.log, id); }
  }

  lemma {:induction false} PurgeKeepsSound(q: Queue, tick: Tick)
    requires Sound(q) && tick.step.Purge?
    ensures Sound(Apply(q, tick))
  {
    var q' := Apply(q, tick);
    assert q'.log == q.log && q'.used == q.used;
    forall x | x in q'.rows ensures RowAgrees(q', x) { assert RowAgrees(q, x); }
    forall x | x in q'.used && x !in q'.rows ensures Settled(q', x) {
      assert x in q.rows ==> RowAgrees(q, x);
    }
  }

  lemma {:induction false} ChosenCanBeTaken(q: Queue, step: Step)
    requires step.Claim? && CanClaim(q, step)
    ensures Distinct(step.chosen) && forall id :: id in step.chosen ==> id in q.rows && CanTake(q, id, step.token)
  {
  }

  lemma {:induction false} StepKeepsSound(q: Queue, tick: Tick)
    requires Sound(q)
    ensures Sound(Apply(q, tick))
  {
    hide Sound, CanTake, CanClaim, TakeAll, Settle, CanMark, CanEnqueue, ClaimLockTTL, Next;
    match tick.step {
      case Enqueue(_, _, _, _) => EnqueueKeepsSound(q, tick);
      case Claim(token, now, limit, _, _, chosen) =>
        if CanClaim(q, tick.step) {
          ChosenCanBeTaken(q, tick.step);
          TakeAllKeepsSound(q, chosen, token, now, now + ClaimLockTTL(limit), tick.at);
        }
      case Succeed(h, at) => if CanMark(q, h) { SettleKeepsSound(q, h, true, at, at, tick.at); }
      case Fail(h, at, _) => if CanMark(q, h) { SettleKeepsSound(q, h, false, at, Next(tick.step), tick.at); }
      case Purge(_) => PurgeKeepsSound(q, tick);
    }
  }

  lemma {:induction false} RunKeepsSound(q: Queue, ticks: seq<Tick>)
    requires Sound(q)
    ensures Sound(Run(q, ticks))
  {
    hide Sound, Apply;
    if ticks != [] {
      RunKeepsSound(q, ticks[..|ticks| - 1]);
      StepKeepsSound(Run(q, ticks[..|ticks| - 1]), ticks[|ticks| - 1]);
    }
  }

  lemma {:induction false} ReachableQueues(ticks: seq<Tick>)
    ensures Sound(Run(EMPTY, ticks))
  {
    assert Sound(EMPTY);
    RunKeepsSound(EMPTY, ticks);
  }

  // ----- Fencing -----------------------------------------------------------------------

  predicate MarkOf(step: Step, h: Held) {
    (step.Succeed? || step.Fail?) && step.held == h
  }

  /** A mark issued by a holder takes effect exactly when nothing has happened to the row since its
      claim: then it raises the stored count by one and settles that row alone. The mark of a
      stale or repeating worker changes nothing. */
  lemma {:induction false} Fencing(ticks: seq<Tick>, h: Held, mark: Tick)
    requires Claimed(h) in Run(EMPTY, ticks).log && MarkOf(mark.step, h)
    ensures var q := Run(EMPTY, ticks);
            var q' := Apply(q, mark);
            if Last(q.log, h.id) == Some(Claimed(h)) then
              && h.id in q.rows && q'.rows.Keys == q.rows.Keys && q'.rows - {h.id} == q.rows - {h.id}
              && q'.rows[h.id].count == q.rows[h.id].count + 1 <= q.rows[h.id].max
              && q'.rows[h.id].status == Outcome(mark.step.Succeed?, q.rows[h.id].count + 1, q.rows[h.id].max)
            else q' == q
  {
    ReachableQueues(ticks);
    var q := Run(EMPTY, ticks);
    hide Run;
    HolderMatches(q, h);
    if Matches(q, h) { assert RowAgrees(q, h.id); }
  }

  /** Pending and delivering rows have attempts left, failed rows have none, and the count is the
      number of marks that took effect. */
  lemma {:induction false} AttemptsAreBounded(ticks: seq<Tick>, id: Id)
    requires id in Run(EMPTY, ticks).rows
    ensures var q := Run(EMPTY, ticks);
            var d := q.rows[id];
            && d.count == CountMarks(q.log, id)
            && (d.status == Pending || d.status == Delivering ==> 0 <= d.count < d.max)
            && (d.status == Failed ==> d.count == d.max)
            && (d.status == Succeeded ==> 0 < d.count <= d.max)
            && (d.status == Delivering <==> d.lockedUntil.Some?)
  {
    ReachableQueues(ticks);
    var q := Run(EMPTY, ticks);
    hide Run, LogSound, CountMarks;
    assert RowAgrees(q, id);
    hide Sound;
  }

  /** No delivery is stuck, whatever became of its worker: an unsettled row of an active
      subscription is claimable as soon as its backoff and its lock, if any, have passed. */
  lemma {:induction false} UnsettledIsClaimable(ticks: seq<Tick>, id: Id, active: set<Id>, now: Time)
    requires id in Run(EMPTY, ticks).rows
    ensures var d := Run(EMPTY, ticks).rows[id];
            Claimable(d, active, now) <==>
              !Terminal(d) && d.subscription in active && d.nextAt <= now && d.lockedUntil.GetOr(now) <= now
  {
    AttemptsAreBounded(ticks, id);
  }

  // ----- Settled deliveries ------------------------------------------------------------

  /** Settled in `q`, and in `q'` either the same row or purged. */
  ghost predicate StaysSettled(q: Queue, q': Queue, id: Id) {
    id in q'.used && (id in q'.rows ==> id in q.rows && q'.rows[id] == q.rows[id])
  }

  lemma {:induction false} TakeAllSparesOthers(q: Queue, chosen: seq<Id>, token: Id, now: Time, until: Time, at: Time, id: Id)
    requires id !in chosen && forall x :: x in chosen ==> x in q.rows
    ensures id in q.rows ==> TakeAll(q, chosen, token, now, until, at).rows[id] == q.rows[id]
    ensures TakeAll(q, chosen, token, now, until, at).used == q.used
  {
    if chosen != [] {
      TakeAllSparesOthers(q, chosen[..|chosen| - 1], token, now, until, at, id);
    }
  }

  lemma {:induction false} ChosenAreUnsettled(q: Queue, step: Step)
    requires step.Claim? && CanClaim(q, step)
    ensures forall id :: id in step.chosen ==> id in q.rows && !Terminal(q.rows[id])
  {
  }

  lemma {:induction false} ClaimKeepsSettled(q: Queue, tick: Tick, id: Id)
    requires tick.step.Claim? && id in q.used && (id in q.rows ==> Terminal(q.rows[id]))
    ensures StaysSettled(q, Apply(q, tick), id)
  {
    hide CanClaim, TakeAll, ClaimLockTTL;
    var c := tick.step;
    if CanClaim(q, c) {
      ChosenAreUnsettled(q, c);
      TakeAllSparesOthers(q, c.chosen, c.token, c.now, c.now + ClaimLockTTL(c.limit), tick.at, id);
    }
  }

  lemma {:induction false} StepKeepsSettled(q: Queue, tick: Tick, id: Id)
    requires id in q.used && (id in q.rows ==> Terminal(q.rows[id]))
    ensures StaysSettled(q, Apply(q, tick), id)
  {
    hide CanClaim, TakeAll;
    if tick.step.Claim? { ClaimKeepsSettled(q, tick, id); }
  }

  lemma {:induction false} RunKeepsSettled(q: Queue, more: seq<Tick>, id: Id)
    requires id in q.used && (id in q.rows ==> Terminal(q.rows[id]))
    ensures StaysSettled(q, Run(q, more), id)
  {
    if more != [] {
      RunKeepsSettled(q, more[..|more| - 1], id);
      hide Apply;
      StepKeepsSettled(Run(q, more[..|more| - 1]), more[|more| - 1], id);
    }
  }

  lemma {:induction false} RunSplits(q: Queue, ticks: seq<Tick>, more: seq<Tick>)
    ensures Run(q, ticks + more) == Run(Run(q, ticks), more)
  {
    if more == [] {
      assert ticks + more == ticks;
    } else {
      var n := |more| - 1;
      assert (ticks + more)[..|ticks| + n] == ticks + more[..n];
      RunSplits(q, ticks, more[..n]);
    }
  }

  /** Succeeded and failed are never left: the row stays as it is until it is purged, and never
      comes back. */
  lemma {:induction false} SettledForGood(ticks: seq<Tick>, more: seq<Tick>, id: Id)
    requires id in Run(EMPTY, ticks).rows && Terminal(Run(EMPTY, ticks).rows[id])
    ensures StaysSettled(Run(EMPTY, ticks), Run(EMPTY, ticks + more), id)
  {
    ReachableQueues(ticks);
    RunSplits(EMPTY, ticks, more);
    RunKeepsSettled(Run(EMPTY, ticks), more, id);
  }
}
