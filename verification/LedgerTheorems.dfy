/** The promises of the ledger, for every interleaving of steps from the empty store. */
module LedgerTheorems {
  import opened Basics
  import opened Ledger
  import opened LedgerInvariant
  import opened LedgerRuns

  function RunningAttempts(s: State, t: Id): set<Id> {
    set a | a in s.attempts && s.attempts[a].ticket == t && s.attempts[a].status == Running
  }

  lemma {:induction false} ReachableRows(steps: seq<Step>)
    ensures RowInvariant(Run(EMPTY, steps))
  {
    RunKeepsRows(EMPTY, steps);
  }

  lemma {:induction false} RunsEvolve(steps: seq<Step>, more: seq<Step>)
    ensures Evolves(Run(EMPTY, steps), Run(EMPTY, steps + more))
  {
    hide Apply, RowInvariant, Evolves;
    ReachableRows(steps);
    RunKeepsRows(Run(EMPTY, steps), more);
    RunSplits(EMPTY, steps, more);
  }

  // ----- Log, ownership and history ----------------------------------------------------

  /** Replaying a ticket's events yields its stored status and its running attempts. */
  lemma {:induction false} LogDeterminesRows(steps: seq<Step>, t: Id)
    requires t in Run(EMPTY, steps).tickets
    ensures var s := Run(EMPTY, steps);
            var v := Replay(s.events, t);
            && v.status == Some(s.tickets[t].status)
            && RunningAttempts(s, t) == match v.running { case None => {} case Some(a) => {a} }
  {
    ReachableRows(steps);
    var s := Run(EMPTY, steps);
    hide Run;
    assert TicketInvariant(s, t);
    forall a | a in RunningAttempts(s, t) ensures Replay(s.events, t).running == Some(a) {
      assert AttemptInvariant(s, a);
    }
  }

  /** In progress means exactly one running attempt; any other status means none. */
  lemma {:induction false} OwnershipIsExclusive(steps: seq<Step>, t: Id)
    requires t in Run(EMPTY, steps).tickets
    ensures var s := Run(EMPTY, steps);
            |RunningAttempts(s, t)| == if s.tickets[t].status == InProgress then 1 else 0
  {
    LogDeterminesRows(steps, t);
    ReachableRows(steps);
    var s := Run(EMPTY, steps);
    hide Run;
    assert TicketInvariant(s, t);
  }

  /** Each attempt has one claimed event, and one ending event exactly when it has ended: no
      attempt completes, fails, blocks, is cancelled or expires twice. */
  lemma {:induction false} AttemptsEndOnce(steps: seq<Step>, a: Id)
    requires a in Run(EMPTY, steps).attempts
    ensures var s := Run(EMPTY, steps);
            CountClaims(s.events, a) == 1 && CountEnds(s.events, a) == if IsRunning(s, a) then 0 else 1
  {
    ReachableRows(steps);
    var s := Run(EMPTY, steps);
    hide Run;
    assert AttemptInvariant(s, a);
  }

  /** A ticket whose first event puts it in backlog is marked ready before any claim of it. */
  lemma {:induction false} TriageBeforeWork(steps: seq<Step>, j: nat)
    requires j < |Run(EMPTY, steps).events| && Run(EMPTY, steps).events[j].kind == Claimed
    requires BornInBacklog(Run(EMPTY, steps).events, Run(EMPTY, steps).events[j].ticket)
    ensures var events := Run(EMPTY, steps).events;
            exists k :: 0 <= k < j && events[k].kind == Ready && events[k].ticket == events[j].ticket
  {
    ReachableRows(steps);
    var events := Run(EMPTY, steps).events;
    hide Run;
    assert ClaimTriaged(events, j);
    var e :| e in events[..j] && e.ticket == events[j].ticket && e.kind == Ready;
    var k :| 0 <= k < j && events[k] == e;
  }

  /** The ticket's first event, once there is one, stays its first. */
  lemma {:induction false} FirstStays(events: seq<Event>, more: seq<Event>, t: Id)
    requires First(events, t).Some?
    ensures First(events + more, t) == First(events, t)
  {
    if more == [] {
      assert events + more == events;
    } else {
      var n := |more| - 1;
      FirstStays(events, more[..n], t);
      assert events + more == events + more[..n] + [more[n]];
      FirstAppend(events + more[..n], more[n], t);
    }
  }

  lemma {:induction false} BornStaysBorn(events: seq<Event>, more: seq<Event>, t: Id)
    requires BornInBacklog(events, t)
    ensures BornInBacklog(events + more, t)
  {
    FirstStays(events, more, t);
  }

  /** The tickets a step puts in backlog: proposals, tickets of an agent without enqueue authority,
      and the children of a decomposition in propose mode. */
  ghost predicate StartsUntriaged(s: State, step: Step, t: Id) {
    match step
    case Create(id, r, proposed, now) =>
      && id == t && CanCreate(s, id, r, proposed, now)
      && (proposed || (CreationRow(r, proposed, now).value.createdBy == Agent && !r.canEnqueue))
    case Decompose(ids, children, batch, now) => t in ids && CanDecompose(s, ids, children, batch, now) && !batch.create
    case _ => false
  }

  lemma {:induction false} ChildrenStartInBacklog(s: State, ids: seq<Id>, children: seq<Child>, batch: Batch, now: Time, t: Id)
    requires |ids| == |children| && !batch.create && First(s.events, t).None?
    requires forall i :: 0 <= i < |children| ==> ChildRow(children[i], batch, now).Ok?
    ensures var events := InsertChildren(s, ids, children, batch, now).events;
            if t in ids then BornInBacklog(events, t) else First(events, t).None?
  {
    hide ChildRow, First;
    if ids != [] {
      var n := |ids| - 1;
      ChildrenStartInBacklog(s, ids[..n], children[..n], batch, now, t);
      var before := InsertChildren(s, ids[..n], children[..n], batch, now);
      FirstAppend(before.events, Event(ids[n], None, Proposed, Some(Backlog)), t);
      assert t in ids <==> t in ids[..n] || t == ids[n];
    }
  }

  lemma {:induction false} UntriagedStartsInBacklog(s: State, step: Step, t: Id)
    requires RowInvariant(s) && StartsUntriaged(s, step, t)
    ensures BornInBacklog(Apply(s, step).events, t)
  {
    assert t !in s.tickets;
    FirstUnseen(s.events, t);
    hide RowInvariant, First, CreationRow, ChildRow;
    if step.Decompose? {
      ChildrenStartInBacklog(s, step.ids, step.children, step.batch, step.now, t);
    } else {
      FirstAppend(s.events, Event(t, None, CreationKind(step.proposed), Some(Backlog)), t);
    }
  }

  /** Whatever follows, no such ticket is claimed before it has been marked ready. */
  lemma {:induction false} UntriagedIsNotClaimed(steps: seq<Step>, step: Step, more: seq<Step>, t: Id, j: nat)
    requires StartsUntriaged(Run(EMPTY, steps), step, t)
    requires var events := Run(EMPTY, steps + [step] + more).events;
             j < |events| && events[j].kind == Claimed && events[j].ticket == t
    ensures var events := Run(EMPTY, steps + [step] + more).events;
            exists k :: 0 <= k < j && events[k].kind == Ready && events[k].ticket == t
  {
    hide Run, Apply, RowInvariant, StartsUntriaged, BornInBacklog, Evolves;
    ReachableRows(steps);
    UntriagedStartsInBacklog(Run(EMPTY, steps), step, t);
    RunEndsWith(EMPTY, steps, step);
    var s, s' := Run(EMPTY, steps + [step]), Run(EMPTY, steps + [step] + more);
    EndedStaysEnded(steps + [step], more);
    assert s'.events == s.events + s'.events[|s.events|..];
    BornStaysBorn(s.events, s'.events[|s.events|..], t);
    TriageBeforeWork(steps + [step] + more, j);
  }

  // ----- Permanence --------------------------------------------------------------------

  /** Archived is for ever, and so is everything about an attempt that has ended. */
  lemma {:induction false} EndedStaysEnded(steps: seq<Step>, more: seq<Step>)
    ensures var s, s' := Run(EMPTY, steps), Run(EMPTY, steps + more);
            && (forall t :: t in s.tickets && s.tickets[t].status == TicketStatus.Archived ==>
                  t in s'.tickets && s'.tickets[t].status == TicketStatus.Archived)
            && (forall a :: a in s.attempts && s.attempts[a].status != Running ==>
                  a in s'.attempts && s'.attempts[a] == s.attempts[a])
            && s.events <= s'.events
  {
    hide Run;
    RunsEvolve(steps, more);
    var s, s' := Run(EMPTY, steps), Run(EMPTY, steps + more);
    forall t | t in s.tickets ensures TicketEvolves(s, s', t) {}
    forall a | a in s.attempts ensures AttemptEvolves(s, s', a) {}
  }

  // ----- Retry budget ------------------------------------------------------------------

  /** Failed, expired and running attempts together never exceed the limit. */
  lemma {:induction false} RetryBudget(steps: seq<Step>, t: Id)
    requires t in Run(EMPTY, steps).tickets
    ensures var s := Run(EMPTY, steps);
            Spent(s, t) + |RunningAttempts(s, t)| <= if MaxAttempts(s.tickets[t]) > 0 then MaxAttempts(s.tickets[t]) else 0
  {
    OwnershipIsExclusive(steps, t);
    ReachableRows(steps);
    var s := Run(EMPTY, steps);
    hide Run;
    assert TicketInvariant(s, t);
  }

  /** Once its budget is spent a ticket is never claimed again, whatever steps follow. */
  lemma {:induction false} ExhaustedIsNeverClaimed(steps: seq<Step>, more: seq<Step>, t: Id)
    requires Exhausted(Run(EMPTY, steps), t)
    ensures var s, s' := Run(EMPTY, steps), Run(EMPTY, steps + more);
            && Exhausted(s', t) && |s.events| <= |s'.events|
            && forall j :: |s.events| <= j < |s'.events| && s'.events[j].ticket == t ==> s'.events[j].kind != Claimed
  {
    hide Run;
    RunsEvolve(steps, more);
    var s, s' := Run(EMPTY, steps), Run(EMPTY, steps + more);
    ExhaustionLasts(s, s', t);
  }

  /** A running attempt's ticket has at least one attempt left in its budget. */
  lemma {:induction false} RunningLeavesBudget(steps: seq<Step>, a: Id)
    requires IsRunning(Run(EMPTY, steps), a)
    ensures var s := Run(EMPTY, steps);
            CanEnd(s, a) && Spent(s, s.attempts[a].ticket) < MaxAttempts(s.tickets[s.attempts[a].ticket])
  {
    ReachableRows(steps);
    var s := Run(EMPTY, steps);
    hide Run;
    assert AttemptInvariant(s, a) && TicketInvariant(s, s.attempts[a].ticket);
  }

  /** The retry-limit arms of `FailAttempt` and `ExpireAttempt` are never taken: a failure ends in
      `failed` exactly when the policy says so outright, and an expiry never does. */
  lemma {:induction false} RetryLimitArmIsDead(steps: seq<Step>, a: Id)
    requires IsRunning(Run(EMPTY, steps), a)
    ensures var s := Run(EMPTY, steps);
            s.attempts[a].ticket in s.tickets &&
            var t := s.tickets[s.attempts[a].ticket];
            var counted := Spent(s, s.attempts[a].ticket);
            && (FailureStatus(t, counted) == TicketStatus.Failed <==> t.policy.onFailure == Some("mark_failed"))
            && (FailureStatus(t, counted) == NeedsReview <==> t.policy.onFailure == Some("needs_review"))
            && ExpiryStatus(t, counted) == Todo
  {
    RunningLeavesBudget(steps, a);
  }

  /** The policy names the status after a failure itself. */
  predicate DecidesFailure(t: Ticket) {
    t.policy.onFailure == Some("mark_failed") || t.policy.onFailure == Some("needs_review")
  }

  /** With the ended attempt counted, as the documents describe, the arm would fire exactly when
      the budget is spent. */
  lemma {:induction false} CountingTheEndedAttempt(s: State, a: Id, ended: AttemptStatus, status: TicketStatus, now: Time)
    requires CanEnd(s, a) && Spends(ended)
    requires Legal(s, End(a, ended, status, now))
    ensures var id := s.attempts[a].ticket;
            var s' := Do(s, End(a, ended, status, now));
            && Spent(s', id) == Spent(s, id) + 1
            && (ExpiryStatus(s.tickets[id], Spent(s', id)) == TicketStatus.Failed <==> Exhausted(s', id))
            && (!DecidesFailure(s.tickets[id]) ==>
                  (FailureStatus(s.tickets[id], Spent(s', id)) == TicketStatus.Failed <==> Exhausted(s', id)))
  {
    EffectSpends(s, End(a, ended, status, now), s.attempts[a].ticket);
  }

  /** `step` ends the running attempt `a` as failed or expired. */
  predicate SpendsAttempt(s: State, step: Step, a: Id) {
    && (step.Fail? || step.Expire?) && step.attempt == a && CanEnd(s, a)
    && (step.Fail? ==> ValidMetrics(step.metrics)) && (step.Expire? ==> s.attempts[a].lease < step.cutoff)
  }

  /** The dead-letter rule: when a ticket's last allowed attempt fails or expires, the ticket ends in
      `failed` if and only if it failed under a policy that says `mark_failed`; where the policy
      decides nothing it goes back to `todo` with nothing left to spend. */
  lemma {:induction false} DeadLetterExactly(steps: seq<Step>, step: Step, a: Id)
    requires var s := Run(EMPTY, steps);
             SpendsAttempt(s, step, a) && Spent(s, s.attempts[a].ticket) == MaxAttempts(s.tickets[s.attempts[a].ticket]) - 1
    ensures var t := Run(EMPTY, steps).attempts[a].ticket;
            var s := Run(EMPTY, steps + [step]);
            && Exhausted(s, t)
            && (s.tickets[t].status == TicketStatus.Failed <==> step.Fail? && s.tickets[t].policy.onFailure == Some("mark_failed"))
            && (s.tickets[t].status == Todo <==> !(step.Fail? && DecidesFailure(s.tickets[t])))
  {
    var s := Run(EMPTY, steps);
    var t := s.attempts[a].ticket;
    RetryLimitArmIsDead(steps, a);
    assert (steps + [step])[..|steps|] == steps;
    hide Run;
    var eff := EndEffect(s, a, if step.Fail? then AttemptStatus.Failed else AttemptStatus.Expired, step.now);
    StepIsEffect(s, step);
    EffectSpends(s, eff, t);
    SpentSameRows(Apply(s, step), Do(s, eff), t);
  }

  /** So a ticket can be stranded for good: no later run ever claims it. */
  lemma {:induction false} LastAttemptStrandsTicket(steps: seq<Step>, step: Step, a: Id, more: seq<Step>)
    requires var s := Run(EMPTY, steps);
             SpendsAttempt(s, step, a) && Spent(s, s.attempts[a].ticket) == MaxAttempts(s.tickets[s.attempts[a].ticket]) - 1
    ensures var t := Run(EMPTY, steps).attempts[a].ticket;
            var s, s' := Run(EMPTY, steps + [step]), Run(EMPTY, steps + [step] + more);
            && |s.events| <= |s'.events|
            && forall j :: |s.events| <= j < |s'.events| && s'.events[j].ticket == t ==> s'.events[j].kind != Claimed
  {
    hide Apply, Run, Exhausted;
    DeadLetterExactly(steps, step, a);
    ExhaustedIsNeverClaimed(steps + [step], more, Run(EMPTY, steps).attempts[a].ticket);
  }

  lemma {:induction false} SpentSameRows(s: State, s': State, t: Id)
    requires SameRows(s, s')
    ensures Spent(s, t) == Spent(s', t)
  {
    assert SpentAttempts(s, t) == SpentAttempts(s', t);
  }

  // A concrete dead letter: one attempt allowed, claimed and failed; the ticket is in `todo`.

  const ONE_TRY := RetryPolicy(Some(1), Some("return_to_todo"), Some(false))
  const CREATE_ONE := CreateRequest(0, 0, "title", "text", "task", "todo", None, {}, {}, {}, 1, 0, 0, 0, 0,
                                    Some(ONE_TRY), [], "human", "", false, false, NO_LINKS)
  const CLAIM_ONE := ClaimRequest(0, 0, "", None, "codex", None, "agent-1", "", SECOND, "", 0)
  const ONE := Ticket(0, 0, "title", "text", "task", Todo, 2, {}, {}, {}, 1, 0, 0, ONE_TRY, Human, 0, NO_LINKS)
  const OPEN := EMPTY.(tickets := map[0 := ONE], events := [Event(0, None, Created, Some(Todo))])

  lemma {:induction false} CreateOne()
    ensures Apply(EMPTY, Create(0, CREATE_ONE, false, 0)) == OPEN
  {
    var none: set<string> := {};
    assert none - {""} == none;
    assert CanCreate(EMPTY, 0, CREATE_ONE, false, 0);
  }

  lemma {:induction false} ClaimOne()
    ensures Apply(OPEN, Claim(CLAIM_ONE, {}, 0, 0, 0)) == StartAttempt(OPEN, 0, ClaimedAttempt(CLAIM_ONE, 0, 0))
  {
    assert SpentAttempts(OPEN, 0) == {};
    assert Eligible(OPEN, CLAIM_ONE, 0);
    assert EligibleTickets(OPEN, CLAIM_ONE) == {0};
  }

  lemma {:induction false} FailOne(s: State)
    requires s == StartAttempt(OPEN, 0, ClaimedAttempt(CLAIM_ONE, 0, 0))
    ensures var s' := Apply(s, Fail(0, None, 0));
            s'.tickets == map[0 := ONE] && Spent(s', 0) == 1
  {
    assert SpentAttempts(s, 0) == {};
    assert SpentAttempts(Apply(s, Fail(0, None, 0)), 0) == {0};
  }

  lemma {:induction false} DeadLetterCounterexample()
    ensures exists steps, t :: DeadLetter(Run(EMPTY, steps), t)
  {
    var steps := [Create(0, CREATE_ONE, false, 0), Claim(CLAIM_ONE, {}, 0, 0, 0), Fail(0, None, 0)];
    CreateOne();
    ClaimOne();
    FailOne(StartAttempt(OPEN, 0, ClaimedAttempt(CLAIM_ONE, 0, 0)));
    hide Apply;
    assert steps[..2][..1] == steps[..1] && steps[..1][..0] == [];
    assert Run(EMPTY, steps[..1]) == OPEN;
    assert Run(EMPTY, steps[..2]) == StartAttempt(OPEN, 0, ClaimedAttempt(CLAIM_ONE, 0, 0));
    assert DeadLetter(Run(EMPTY, steps), 0);
  }

  /** A ticket whose attempts have spent its budget, and which is nevertheless not failed. */
  ghost predicate DeadLetter(s: State, t: Id) {
    Exhausted(s, t) && s.tickets[t].status == Todo && Spent(s, t) > 0
  }
}
