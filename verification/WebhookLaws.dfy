/** What each step of the delivery queue writes, column by column, and the durations in plain numbers. */
module WebhookLaws {
  import opened Basics
  import opened Webhooks
  import opened WebhookTheorems
  import opened WebhookTiming
  import Graph

  /** A new delivery is due at once; there is one per subscription and event. */
  lemma {:induction false} EnqueueWrites(q: Queue, at: Time, id: Id, subscription: Id, event: Id, max: int)
    ensures var q' := Apply(q, Tick(at, Enqueue(id, subscription, event, max)));
            var taken := exists x :: x in q.rows && q.rows[x].subscription == subscription && q.rows[x].event == event;
            if id in q.used || id in q.rows || max <= 0 || taken then q' == q
            else q' == Queue(q.rows[id := Delivery(subscription, event, Pending, 0, max, at, None, None, None, None, at, at)],
                             q.used + {id}, q.log)
  {
  }

  // ----- Claims ------------------------------------------------------------------------

  /** An active subscription, an unfinished delivery with attempts left, its backoff passed, and no lock
      that is still good. */
  ghost predicate Ready(d: Delivery, active: set<Id>, now: Time) {
    && d.subscription in active && d.status != Succeeded && d.status != Failed
    && d.count < d.max && d.nextAt <= now
    && (d.status == Delivering ==> match d.lockedUntil { case Some(until) => until <= now case None => true })
  }

  /** The claim takes ready, unlocked rows, each once; one that it leaves out is no older than any it takes,
      and means that the limit is reached. */
  lemma {:induction false} ClaimChooses(q: Queue, c: Step)
    requires c.Claim? && CanClaim(q, c)
    ensures forall i, j :: 0 <= i < j < |c.chosen| ==> c.chosen[i] != c.chosen[j]
    ensures forall id :: id in c.chosen ==> id in q.rows && id !in c.locked && Ready(q.rows[id], c.active, c.now)
    ensures forall id :: id in q.rows && id !in c.locked && id !in c.chosen && Ready(q.rows[id], c.active, c.now) ==>
              |c.chosen| == c.limit && forall y :: y in c.chosen ==> y in q.rows && q.rows[y].createdAt <= q.rows[id].createdAt
  {
    var items := ClaimableRows(q, c.active, c.now) - c.locked;
    forall id | id in q.rows && id !in c.locked && id !in c.chosen && Ready(q.rows[id], c.active, c.now)
      ensures |c.chosen| == c.limit && forall y :: y in c.chosen ==> y in q.rows && q.rows[y].createdAt <= q.rows[id].createdAt
    {
      assert id in items;
      LeftOutIsFull(items, c.limit, c.chosen, id);
    }
  }

  lemma {:induction false} LeftOutIsFull(items: set<Id>, limit: int, chosen: seq<Id>, x: Id)
    requires limit > 0 && Distinct(chosen) && (forall id :: id in chosen ==> id in items) && x in items && x !in chosen
    requires |chosen| == if |items| < limit then |items| else limit
    ensures |chosen| == limit
  {
    var taken := set id | id in chosen;
    Graph.DistinctLength(chosen);
    assert taken <= items - {x};
    Graph.SubsetSize(taken, items - {x});
  }

  lemma {:induction false} TakenRows(q: Queue, chosen: seq<Id>, token: Id, now: Time, until: Time, at: Time, id: Id)
    requires Distinct(chosen) && forall x :: x in chosen ==> x in q.rows
    requires id in chosen
    ensures TakeAll(q, chosen, token, now, until, at).rows[id] ==
            q.rows[id].(status := Delivering, lockedUntil := Some(until), token := Some(token), updatedAt := at)
  {
    var n := |chosen| - 1;
    if chosen[n] == id {
      TakeAllSparesOthers(q, chosen[..n], token, now, until, at, id);
    } else {
      assert id in chosen[..n];
      TakenRows(q, chosen[..n], token, now, until, at, id);
    }
  }

  lemma {:induction false} ClaimedRow(q: Queue, chosen: seq<Id>, token: Id, now: Time, until: Time, at: Time, id: Id)
    requires Distinct(chosen) && (forall x :: x in chosen ==> x in q.rows) && id in q.rows
    ensures TakeAll(q, chosen, token, now, until, at).rows[id] ==
            if id in chosen then q.rows[id].(status := Delivering, lockedUntil := Some(until), token := Some(token), updatedAt := at)
            else q.rows[id]
  {
    hide TakeAll, Distinct;
    if id in chosen {
      TakenRows(q, chosen, token, now, until, at, id);
    } else {
      TakeAllSparesOthers(q, chosen, token, now, until, at, id);
    }
  }

  /** A claimed row is delivering under the new token until the lock ends; its count, limit and schedule
      stay. */
  lemma {:induction false} ClaimWrites(q: Queue, at: Time, c: Step)
    requires c.Claim? && CanClaim(q, c)
    ensures var q' := Apply(q, Tick(at, c));
            && q'.rows.Keys == q.rows.Keys && q'.used == q.used
            && forall id :: id in q.rows ==>
                 q'.rows[id] ==
                 if id in c.chosen then
                   q.rows[id].(status := Delivering, lockedUntil := Some(c.now + ClaimLockTTL(c.limit)), token := Some(c.token), updatedAt := at)
                 else q.rows[id]
  {
    hide ClaimLockTTL, TakeAll, CanClaim, Distinct;
    var until := c.now + ClaimLockTTL(c.limit);
    ChosenCanBeTaken(q, c);
    TakeAllUsesNothing(q, c.chosen, c.token, c.now, until, at);
    forall id | id in q.rows
      ensures TakeAll(q, c.chosen, c.token, c.now, until, at).rows[id] ==
              if id in c.chosen then q.rows[id].(status := Delivering, lockedUntil := Some(until), token := Some(c.token), updatedAt := at)
              else q.rows[id]
    {
      ClaimedRow(q, c.chosen, c.token, c.now, until, at, id);
    }
  }

  lemma {:induction false} TakeAllUsesNothing(q: Queue, chosen: seq<Id>, token: Id, now: Time, until: Time, at: Time)
    requires forall x :: x in chosen ==> x in q.rows
    ensures TakeAll(q, chosen, token, now, until, at).used == q.used
  {
    if chosen != [] { TakeAllUsesNothing(q, chosen[..|chosen| - 1], token, now, until, at); }
  }

  // ----- Marks -------------------------------------------------------------------------

  /** A delivered row is settled; a mark that finds no row of its token changes nothing. */
  lemma {:induction false} SucceedWrites(q: Queue, at: Time, h: Held, attemptedAt: Time)
    requires Claimed(h) in q.log
    ensures var q' := Apply(q, Tick(at, Succeed(h, attemptedAt)));
            if h.id !in q.rows || q.rows[h.id].token != Some(h.token) || q.rows[h.id].status != Delivering then q' == q
            else
              && q'.used == q.used
              && q'.rows == q.rows[h.id := q.rows[h.id].(status := Succeeded, count := h.count + 1, lockedUntil := None,
                                                         lastAttemptAt := Some(attemptedAt), deliveredAt := Some(attemptedAt), updatedAt := at)]
  {
  }

  /** Minutes until the next attempt after this many: one, doubling up to 32. */
  function DelayMinutes(attempts: int): int {
    if attempts <= 1 then 1 else if attempts == 2 then 2 else if attempts == 3 then 4
    else if attempts == 4 then 8 else if attempts == 5 then 16 else 32
  }

  /** A failed row waits out the delay for its number of attempts, or has failed for good when they reach
      the limit. */
  lemma {:induction false} FailWrites(q: Queue, at: Time, h: Held, attemptedAt: Time, nextFrom: Time)
    requires Claimed(h) in q.log
    ensures var q' := Apply(q, Tick(at, Fail(h, attemptedAt, nextFrom)));
            if h.id !in q.rows || q.rows[h.id].token != Some(h.token) || q.rows[h.id].status != Delivering then q' == q
            else
              && q'.used == q.used
              && q'.rows == q.rows[h.id := q.rows[h.id].(status := if h.count + 1 < q.rows[h.id].max then Pending else Failed,
                                                         count := h.count + 1, lockedUntil := None, lastAttemptAt := Some(attemptedAt),
                                                         nextAt := nextFrom + DelayMinutes(h.count + 1) * 60 * SECOND, updatedAt := at)]
  {
    DelayInMinutes(h.count + 1);
    hide Backoff, DelayMinutes;
  }

  lemma {:induction false} DelayInMinutes(attempts: int)
    ensures Backoff(attempts) == DelayMinutes(attempts) * 60 * SECOND
  {
    assert Pow2(0) == 1 && Pow2(1) == 2 && Pow2(2) == 4 && Pow2(3) == 8 && Pow2(4) == 16 && Pow2(5) == 32;
  }

  /** The purge removes exactly the settled rows last written before the cutoff. */
  lemma {:induction false} PurgeWrites(q: Queue, at: Time, cutoff: Time)
    ensures var q' := Apply(q, Tick(at, Purge(cutoff)));
            && q'.used == q.used && q'.log == q.log
            && (forall id :: id in q'.rows <==>
                  && id in q.rows
                  && (q.rows[id].status == Pending || q.rows[id].status == Delivering || q.rows[id].updatedAt >= cutoff))
            && (forall id :: id in q'.rows ==> q'.rows[id] == q.rows[id])
  {
  }

  // ----- Durations ---------------------------------------------------------------------

  /** Two minutes for up to eleven deliveries, then ten seconds for each and ten more. */
  lemma {:induction false} LockTimes(limit: int)
    requires 0 < limit <= 922_337_202
    ensures ClaimLockTTL(limit) == (if limit <= 11 then 120 else 10 * (limit + 1)) * SECOND
  {
    LockCoversBatch(limit);
  }
}
