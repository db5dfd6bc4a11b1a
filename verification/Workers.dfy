/** Operations that run statement by statement while other actors take steps in between. The steps
    of the others are a parameter, so what is proved holds for every interleaving. */
module Workers {
  import opened Basics
  import opened Ledger
  import opened LedgerInvariant
  import opened LedgerRuns
  import opened LedgerTheorems
  import opened LedgerRecords
  import opened LedgerDependencies
  import opened Database
  import opened LedgerLaws
  import Services
  import Ordering
  import Webhooks
  import WebhookWorker

  // ----- Other actors ------------------------------------------------------------------

  /** Ends an attempt with its metrics, as one transaction. */
  method EndWith(db: Store, step: Step)
    requires step.Complete? || step.Fail? || step.Block?
    modifies db
    ensures db.View() == Apply(old(db.View()), step)
  {
    if ValidMetrics(step.metrics) {
      var row;
      match step {
        case Complete(a, _, now) => row := db.CompleteAttempt(a, now);
        case Fail(a, _, now) => row := db.FailAttempt(a, now);
        case Block(a, _, now) => row := db.BlockAttempt(a, now);
      }
      if row.Some? {
        db.RecordMetrics(step.attempt, step.metrics);
      }
    }
  }

  /** Takes one step on the stored tables. */
  method Execute(db: Store, step: Step)
    requires DependenciesSound(db.View())
    modifies db
    ensures db.View() == Apply(old(db.View()), step) && DependenciesSound(db.View())
  {
    StepKeepsDependencies(db.View(), step);
    match step {
      case Create(id, r, proposed, now) => var _ := Services.CreateTicket(db, id, r, proposed, now);
      case Decompose(ids, children, batch, now) =>
        if |ids| == |children| {
          var _ := Services.DecomposeTicket(db, ids, children, batch, now);
        }
      case Update(id, patch) => db.UpdateTicket(id, patch);
      case Move(id, op) => var _ := db.TransitionTicket(id, op);
      case Claim(r, locked, ticket, attempt, now) =>
        if CanClaim(db.View(), r, locked, ticket, attempt) {
          db.WriteClaim(r, locked, ticket, attempt, now);
        }
      case Beat(a, now, lease) => db.HeartbeatAttempt(a, now, lease);
      case Note(a, p) => db.CheckpointAttempt(a, p);
      case Complete(_, _, _) => EndWith(db, step);
      case Fail(_, _, _) => EndWith(db, step);
      case Block(_, _, _) => EndWith(db, step);
      case Cancel(a, now) => var _ := db.CancelAttempt(a, now);
      case Expire(a, now, cutoff) => var _ := db.ExpireAttempt(a, now, cutoff);
      case PurgeKeys(now) => var _ := db.DeleteExpiredIdempotencyKeys(now);
    }
  }

  method ExecuteAll(db: Store, steps: seq<Step>)
    requires DependenciesSound(db.View())
    modifies db
    ensures db.View() == Run(old(db.View()), steps) && DependenciesSound(db.View())
  {
    hide Apply, DependenciesSound;
    for i := 0 to |steps|
      invariant db.View() == Run(old(db.View()), steps[..i]) && DependenciesSound(db.View())
    {
      Execute(db, steps[i]);
      assert steps[..i + 1][..i] == steps[..i];
    }
    assert steps[..|steps|] == steps;
  }

  // ----- Claiming ----------------------------------------------------------------------

  /** `ClaimNext`: a lookup, then the claim statement, with the steps `others` of other actors in
      between. Everything but a fresh claim leaves the tables to the others. */
  method ClaimNext(db: Store, r: ClaimRequest, others: seq<Step>, locked: set<Id>, attempt: Id, now: Time)
    returns (outcome: ClaimOutcome)
    requires DependenciesSound(db.View())
    requires attempt !in Run(db.View(), others).attempts
    modifies db
    ensures ClaimAnswers(old(db.View()), r, others, locked, attempt, now, outcome, db.View())
  {
    hide Suits, GoesFirst, Eligible, Run, DependenciesSound, IsCandidate, EligibleTickets;
    if !ValidClaim(r) {
      return Invalid;
    }
    var stored := Lookup(db.View(), r);
    if stored.Some? {
      return stored.value;
    }
    if r.lease > MAX_CLAIM_LEASE {
      return Denied;
    }
    ExecuteAll(db, others);
    outcome := db.ClaimNextTicket(r, locked, attempt, now);
  }

  /** The race on the tables: the lookup of a second caller comes before the first claim, its claim
      statement after it. */
  method ClaimTwice(db: Store, r: ClaimRequest, ticket: Id, first: Id, second: Id, now: Time) returns (outcome: ClaimOutcome)
    requires DependenciesSound(db.View()) && CanClaim(db.View(), r, {}, ticket, first) && r.key != ""
    requires second !in db.attempts && second != first
    modifies db
    ensures outcome == KeyTaken || outcome == NoneClaimable
    ensures db.View() == Apply(old(db.View()), Claim(r, {}, ticket, first, now))
  {
    ghost var s := db.View();
    var claim := Claim(r, {}, ticket, first, now);
    assert [claim][..0] == [] && Run(s, []) == s;
    assert Run(s, [claim]) == Apply(s, claim);
    outcome := ClaimNext(db, r, [claim], {}, second, now);
    RacingRetryIsNotReplayed(s, r, {}, ticket, first, now, {}, second, now, outcome, db.View());
  }

  // ----- Maintenance -------------------------------------------------------------------

  datatype MaintenanceResult = MaintenanceResult(expired: nat, skipped: nat, deletedKeys: nat, deletedDeliveries: nat)

  function Others(others: seq<seq<Step>>, i: nat): seq<Step> {
    if i < |others| then others[i] else []
  }

  /** The interleaving after `n` turns of the loop: before each expiry, whatever others did. */
  function Turns(others: seq<seq<Step>>, listed: seq<Id>, now: Time, n: nat): seq<Step>
    requires n <= |listed|
  {
    if n == 0 then []
    else Turns(others, listed, now, n - 1) + Others(others, n - 1) + [Expire(listed[n - 1], now, now)]
  }

  predicate Expirable(s: State, a: Id, now: Time) {
    CanEnd(s, a) && s.attempts[a].lease < now
  }

  /** How many of the first `n` expiries find their attempt still running on a passed lease. */
  ghost function ExpiredTurns(s: State, others: seq<seq<Step>>, listed: seq<Id>, now: Time, n: nat): (count: nat)
    requires n <= |listed|
    ensures count <= n
  {
    if n == 0 then 0
    else ExpiredTurns(s, others, listed, now, n - 1)
         + (if Expirable(Run(s, Turns(others, listed, now, n - 1) + Others(others, n - 1)), listed[n - 1], now) then 1 else 0)
  }

  lemma {:induction false} NoTurnYet(s: State, others: seq<seq<Step>>, listed: seq<Id>, now: Time)
    ensures Run(s, Turns(others, listed, now, 0)) == s && ExpiredTurns(s, others, listed, now, 0) == 0
  {
  }

  lemma {:induction false} OneTurn(s: State, others: seq<seq<Step>>, listed: seq<Id>, now: Time, i: nat)
    requires i < |listed|
    ensures var before := Run(Run(s, Turns(others, listed, now, i)), Others(others, i));
            && Run(s, Turns(others, listed, now, i + 1)) == Apply(before, Expire(listed[i], now, now))
            && ExpiredTurns(s, others, listed, now, i + 1)
               == ExpiredTurns(s, others, listed, now, i) + (if Expirable(before, listed[i], now) then 1 else 0)
  {
    hide Apply, Expirable;
    var turns := Turns(others, listed, now, i);
    RunSplits(s, turns, Others(others, i));
    RunEndsWith(s, turns + Others(others, i), Expire(listed[i], now, now));
    hide Run;
  }

  /** The loop of the run: one expiry after the other. */
  method ExpireAll(db: Store, list: seq<Id>, now: Time, others: seq<seq<Step>>) returns (expired: nat, skipped: nat)
    requires DependenciesSound(db.View())
    modifies db
    ensures expired + skipped == |list| && expired == ExpiredTurns(old(db.View()), others, list, now, |list|)
    ensures db.View() == Run(old(db.View()), Turns(others, list, now, |list|)) && DependenciesSound(db.View())
  {
    hide Apply, DependenciesSound, Run, Turns, ExpiredTurns, Expirable;
    expired, skipped := 0, 0;
    NoTurnYet(db.View(), others, list, now);
    for i := 0 to |list|
      invariant db.View() == Run(old(db.View()), Turns(others, list, now, i)) && DependenciesSound(db.View())
      invariant expired + skipped == i && expired == ExpiredTurns(old(db.View()), others, list, now, i)
    {
      OneTurn(old(db.View()), others, list, now, i);
      ExecuteAll(db, Others(others, i));
      var row := ExpireOne(db, list[i], now);
      if row {
        expired := expired + 1;
      } else {
        skipped := skipped + 1;
      }
    }
  }

  /** What becomes of the delivery queue: the ticks of others, then the purge, if there is a retention. */
  function PurgedQueue(q: Webhooks.Queue, ticks: seq<Webhooks.Tick>, retention: Time, now: Time, at: Time): Webhooks.Queue {
    var reached := Webhooks.Run(q, ticks);
    if retention > 0 then Webhooks.Apply(reached, Webhooks.Tick(at, Webhooks.Purge(now - retention))) else reached
  }

  /** `MaintenanceWorker.RunOnce`: list, then expire one by one, then purge keys and deliveries, with
      whatever others do in between. Expired and skipped attempts add up to those listed, and each
      was expired exactly when it was still expirable at its turn. */
  method RunMaintenance(db: Store, queue: WebhookWorker.DeliveryStore, now: Time, limit: nat, retention: Time,
                        others: seq<seq<Step>>, purgeAt: Time, ticks: seq<Webhooks.Tick>, at: Time)
    returns (result: MaintenanceResult, ghost listed: seq<Id>)
    requires DependenciesSound(db.View())
    modifies db, queue
    ensures ListsExpired(old(db.View()), now, limit, listed)
    ensures result.expired + result.skipped == |listed|
    ensures result.expired == ExpiredTurns(old(db.View()), others, listed, now, |listed|)
    ensures db.View() ==
            Run(old(db.View()), Turns(others, listed, now, |listed|) + Others(others, |listed|) + [PurgeKeys(purgeAt)])
    ensures result.deletedKeys ==
            |Run(old(db.View()), Turns(others, listed, now, |listed|) + Others(others, |listed|)).idempotency| - |db.idempotency|
    ensures queue.View() == PurgedQueue(old(queue.View()), ticks, retention, now, at)
    ensures result.deletedDeliveries == |Webhooks.Run(old(queue.View()), ticks).rows| - |queue.rows|
  {
    hide Apply, DependenciesSound, Ordering.Smallest, ListsExpired, Run, Turns, ExpiredTurns, PurgedQueue, Webhooks.Run;
    ghost var s := db.View();
    var list := db.ListExpiredRunningAttempts(now, limit);
    listed := list;
    var expired, skipped := ExpireAll(db, list, now, others);
    ghost var turns := Turns(others, list, now, |list|);
    RunSplits(s, turns, Others(others, |list|));
    ExecuteAll(db, Others(others, |list|));
    RunEndsWith(s, turns + Others(others, |list|), PurgeKeys(purgeAt));
    var deletedKeys := PurgeOnce(db, purgeAt);
    var deletedDeliveries := PurgeQueue(queue, ticks, retention, now, at);
    result := MaintenanceResult(expired, skipped, deletedKeys, deletedDeliveries);
  }

  method PurgeQueue(queue: WebhookWorker.DeliveryStore, ticks: seq<Webhooks.Tick>, retention: Time, now: Time, at: Time)
    returns (deleted: nat)
    modifies queue
    ensures queue.View() == PurgedQueue(old(queue.View()), ticks, retention, now, at)
    ensures deleted == |Webhooks.Run(old(queue.View()), ticks).rows| - |queue.rows|
  {
    hide Webhooks.Apply, Webhooks.Run;
    queue.ExecuteAll(ticks);
    deleted := 0;
    if retention > 0 {
      deleted := queue.DeleteTerminal(now - retention, at);
    }
  }

  method ExpireOne(db: Store, a: Id, now: Time) returns (ok: bool)
    requires DependenciesSound(db.View())
    modifies db
    ensures ok <==> Expirable(old(db.View()), a, now)
    ensures db.View() == Apply(old(db.View()), Expire(a, now, now)) && DependenciesSound(db.View())
  {
    StepKeepsDependencies(db.View(), Expire(a, now, now));
    var row := db.ExpireAttempt(a, now, now);
    ok := row.Some?;
  }

  method PurgeOnce(db: Store, now: Time) returns (deleted: nat)
    modifies db
    ensures db.View() == Apply(old(db.View()), PurgeKeys(now))
    ensures deleted == |old(db.idempotency)| - |db.idempotency|
  {
    deleted := db.DeleteExpiredIdempotencyKeys(now);
  }

  lemma {:induction false} ExpiryTouchesOnlyItsAttempt(s: State, a: Id, now: Time)
    ensures var s' := Apply(s, Expire(a, now, now));
            && s'.tickets.Keys == s.tickets.Keys
            && forall b :: b in s.attempts && b != a ==> b in s'.attempts && s'.attempts[b] == s.attempts[b]
  {
  }

  /** The attempts listed from position `n` on are stored unchanged. */
  ghost predicate StillListed(s: State, s': State, listed: seq<Id>, n: nat) {
    && s'.tickets.Keys == s.tickets.Keys
    && forall i :: n <= i < |listed| ==>
         listed[i] in s.attempts && listed[i] in s'.attempts && s'.attempts[listed[i]] == s.attempts[listed[i]]
  }

  lemma {:induction false} ExpiryLeavesTheRest(s: State, s': State, listed: seq<Id>, now: Time, n: nat)
    requires n < |listed| && Distinct(listed) && Expirable(s, listed[n], now) && StillListed(s, s', listed, n)
    ensures Expirable(s', listed[n], now)
    ensures StillListed(s, Apply(s', Expire(listed[n], now, now)), listed, n + 1)
  {
    hide Apply;
    ExpiryTouchesOnlyItsAttempt(s', listed[n], now);
  }

  /** Undisturbed, the attempts still to come are as they were listed. */
  lemma {:induction false} UndisturbedTurns(s: State, listed: seq<Id>, now: Time, n: nat)
    requires n <= |listed| && Distinct(listed)
    requires forall i :: 0 <= i < |listed| ==> Expirable(s, listed[i], now)
    ensures ExpiredTurns(s, [], listed, now, n) == n
    ensures StillListed(s, Run(s, Turns([], listed, now, n)), listed, n)
  {
    hide Apply, Expirable, StillListed;
    if n == 0 {
      NothingTouchedYet(s, listed, now);
    } else {
      UndisturbedTurns(s, listed, now, n - 1);
      var turns := Turns([], listed, now, n - 1);
      assert turns + [] == turns;
      RunEndsWith(s, turns, Expire(listed[n - 1], now, now));
      ExpiryLeavesTheRest(s, Run(s, turns), listed, now, n - 1);
    }
  }

  lemma {:induction false} NothingTouchedYet(s: State, listed: seq<Id>, now: Time)
    requires forall i :: 0 <= i < |listed| ==> Expirable(s, listed[i], now)
    ensures StillListed(s, s, listed, 0)
  {
  }

  /** In a reachable state every attempt belongs to a stored ticket. */
  lemma {:induction false} AttemptsHaveTickets(steps: seq<Step>, a: Id)
    requires a in Run(EMPTY, steps).attempts
    ensures Run(EMPTY, steps).attempts[a].ticket in Run(EMPTY, steps).tickets
  {
    ReachableRows(steps);
    hide TicketInvariant, AttemptInvariant, ClaimTriaged, Run;
  }

  lemma {:induction false} ListedAreExpirable(steps: seq<Step>, listed: seq<Id>, now: Time, limit: nat)
    requires ListsExpired(Run(EMPTY, steps), now, limit, listed)
    ensures Distinct(listed) && forall i :: 0 <= i < |listed| ==> Expirable(Run(EMPTY, steps), listed[i], now)
  {
    hide Run;
    forall i | 0 <= i < |listed| ensures Expirable(Run(EMPTY, steps), listed[i], now) {
      assert listed[i] in listed;
      AttemptsHaveTickets(steps, listed[i]);
    }
  }

  /** With no other actor at work, a maintenance run in any reachable state expires every attempt it
      listed. */
  lemma {:induction false} UndisturbedRunSkipsNothing(steps: seq<Step>, listed: seq<Id>, now: Time, limit: nat)
    requires ListsExpired(Run(EMPTY, steps), now, limit, listed)
    ensures ExpiredTurns(Run(EMPTY, steps), [], listed, now, |listed|) == |listed|
  {
    hide ListsExpired, Run, ExpiredTurns, Expirable;
    ListedAreExpirable(steps, listed, now, limit);
    UndisturbedTurns(Run(EMPTY, steps), listed, now, |listed|);
  }

  /** The attempts listed before position `n` have expired; the others are as they were. */
  ghost predicate ExpiredUpTo(s: State, s': State, listed: seq<Id>, n: nat)
    requires n <= |listed|
  {
    && s'.attempts.Keys == s.attempts.Keys
    && (forall i :: 0 <= i < n ==> listed[i] in s'.attempts && s'.attempts[listed[i]].status == AttemptStatus.Expired)
    && (forall a :: a in s.attempts && a in s'.attempts && a !in listed[..n] ==> s'.attempts[a] == s.attempts[a])
  }

  lemma {:induction false} ExpiryExpires(s: State, s': State, listed: seq<Id>, now: Time, n: nat)
    requires n < |listed| && Distinct(listed) && Expirable(s', listed[n], now) && ExpiredUpTo(s, s', listed, n)
    ensures ExpiredUpTo(s, Apply(s', Expire(listed[n], now, now)), listed, n + 1)
  {
    ExpiryTouchesOnlyItsAttempt(s', listed[n], now);
    assert listed[..n + 1] == listed[..n] + [listed[n]];
    var t := Apply(s', Expire(listed[n], now, now));
    assert t.attempts.Keys == s'.attempts.Keys && t.attempts[listed[n]].status == AttemptStatus.Expired;
    hide Apply;
  }

  lemma {:induction false} UndisturbedExpires(s: State, listed: seq<Id>, now: Time, n: nat)
    requires n <= |listed| && Distinct(listed)
    requires forall i :: 0 <= i < |listed| ==> Expirable(s, listed[i], now)
    ensures ExpiredUpTo(s, Run(s, Turns([], listed, now, n)), listed, n)
  {
    hide Apply, Expirable, StillListed, ExpiredUpTo, Distinct;
    if n == 0 {
      NothingExpiredYet(s, listed);
    } else {
      UndisturbedExpires(s, listed, now, n - 1);
      UndisturbedTurns(s, listed, now, n - 1);
      var turns := Turns([], listed, now, n - 1);
      assert turns + [] == turns;
      RunEndsWith(s, turns, Expire(listed[n - 1], now, now));
      ExpiryLeavesTheRest(s, Run(s, turns), listed, now, n - 1);
      ExpiryExpires(s, Run(s, turns), listed, now, n - 1);
    }
  }

  lemma {:induction false} NothingExpiredYet(s: State, listed: seq<Id>)
    ensures ExpiredUpTo(s, s, listed, 0)
  {
  }

  /** No attempt runs on a lease that had passed at `now`. */
  ghost predicate NoneOverdue(s: State, now: Time) {
    forall a :: a in s.attempts && s.attempts[a].status == Running ==> s.attempts[a].lease >= now
  }

  lemma {:induction false} NoneLeft(s: State, m: State, listed: seq<Id>, now: Time, limit: nat)
    requires ListsExpired(s, now, limit, listed) && |listed| < limit && ExpiredUpTo(s, m, listed, |listed|)
    ensures NoneOverdue(m, now)
  {
    assert listed[..|listed|] == listed;
    forall a | a in m.attempts && m.attempts[a].status == Running ensures m.attempts[a].lease >= now {
      NotListed(listed, m, a);
    }
  }

  lemma {:induction false} NotListed(listed: seq<Id>, m: State, a: Id)
    requires a in m.attempts && m.attempts[a].status == Running
    requires forall i :: 0 <= i < |listed| ==> listed[i] in m.attempts && m.attempts[listed[i]].status == AttemptStatus.Expired
    ensures a !in listed
  {
  }

  /** Expiry is complete: after an undisturbed maintenance run in a reachable state whose list was not
      full, no attempt runs on a lease that had passed. */
  lemma {:induction false} UndisturbedRunLeavesNone(steps: seq<Step>, listed: seq<Id>, now: Time, limit: nat, purgeAt: Time)
    requires ListsExpired(Run(EMPTY, steps), now, limit, listed) && |listed| < limit
    ensures NoneOverdue(Run(EMPTY, steps + (Turns([], listed, now, |listed|) + [PurgeKeys(purgeAt)])), now)
  {
    hide Run, Turns, Expirable, ListsExpired, ExpiredUpTo, Apply, NoneOverdue;
    var s, turns := Run(EMPTY, steps), Turns([], listed, now, |listed|);
    ListedAreExpirable(steps, listed, now, limit);
    UndisturbedExpires(s, listed, now, |listed|);
    NoneLeft(s, Run(s, turns), listed, now, limit);
    RunSplits(EMPTY, steps, turns + [PurgeKeys(purgeAt)]);
    RunEndsWith(s, turns, PurgeKeys(purgeAt));
    PurgeKeepsAttempts(Run(s, turns), purgeAt, now);
  }

  lemma {:induction false} PurgeKeepsAttempts(s: State, purgeAt: Time, now: Time)
    requires NoneOverdue(s, now)
    ensures NoneOverdue(Apply(s, PurgeKeys(purgeAt)), now)
  {
  }
}
