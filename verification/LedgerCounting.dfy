/** The ledger as its documents describe it: the same steps, but the statements that fail or expire an
    attempt count that attempt too. Its dead-letter rule holds in every run. */
module LedgerCounting {
  import opened Basics
  import opened Ledger
  import opened LedgerInvariant
  import opened LedgerRuns
  import opened LedgerTheorems

  function CountedStatus(s: State, a: Id, ended: AttemptStatus): TicketStatus
    requires CanEnd(s, a)
  {
    var id := s.attempts[a].ticket;
    var counted := Spent(s, id) + 1;
    if ended == AttemptStatus.Failed then FailureStatus(s.tickets[id], counted) else ExpiryStatus(s.tickets[id], counted)
  }

  function CountedEnd(s: State, a: Id, ended: AttemptStatus, kind: EventKind, now: Time): State
    requires CanEnd(s, a)
  {
    EndAttempt(s, a, ended, CountedStatus(s, a, ended), kind, now)
  }

  ghost function CountingApply(s: State, step: Step): State {
    match step
    case Fail(a, m, now) =>
      if !CanEnd(s, a) || !ValidMetrics(m) then s
      else RecordMetrics(CountedEnd(s, a, AttemptStatus.Failed, EventKind.Failed, now), a, m)
    case Expire(a, now, cutoff) =>
      if !CanEnd(s, a) || s.attempts[a].lease >= cutoff then s
      else CountedEnd(s, a, AttemptStatus.Expired, EventKind.Expired, now)
    case _ => Apply(s, step)
  }

  ghost function CountingRun(s: State, steps: seq<Step>): State {
    if steps == [] then s else CountingApply(CountingRun(s, steps[..|steps| - 1]), steps[|steps| - 1])
  }

  // ----- The rule ----------------------------------------------------------------------

  /** The last event that moved a ticket. */
  function LastMove(events: seq<Event>, t: Id): Option<Event> {
    if events == [] then None
    else
      var e := events[|events| - 1];
      if e.ticket == t && !ChangesNothing(e.kind) then Some(e) else LastMove(events[..|events| - 1], t)
  }

  /** An attempt of `t` failed or expired, the policy left the status to the count, and nothing has
      moved the ticket since. */
  ghost predicate LeftToCount(s: State, t: Id)
    requires t in s.tickets
  {
    && LastMove(s.events, t).Some?
    && var kind := LastMove(s.events, t).value.kind;
    kind == EventKind.Expired || (kind == EventKind.Failed && !DecidesFailure(s.tickets[t]))
  }

  /** Where such a ticket is: in `failed` once its budget is spent, if the count includes the ended
      attempt; in `todo` in any case, if it does not. */
  ghost predicate Lands(s: State, t: Id, counting: bool)
    requires t in s.tickets
  {
    LeftToCount(s, t) ==> s.tickets[t].status == if counting && Exhausted(s, t) then TicketStatus.Failed else Todo
  }

  lemma {:induction false} LastMoveAppend(events: seq<Event>, e: Event, t: Id)
    ensures LastMove(events + [e], t) == if e.ticket == t && !ChangesNothing(e.kind) then Some(e) else LastMove(events, t)
  {
    assert (events + [e])[..|events|] == events;
  }

  // ----- Every step keeps it -----------------------------------------------------------

  ghost predicate Counts(s: State, eff: Effect, counting: bool) {
    && Legal(s, eff)
    && (eff.End? && Spends(eff.ended) ==>
          var t := s.attempts[eff.attempt].ticket;
          eff.ended == AttemptStatus.Expired || !DecidesFailure(s.tickets[t]) ==>
            eff.status == if counting && Spent(s, t) + 1 >= MaxAttempts(s.tickets[t]) then TicketStatus.Failed else Todo)
  }

  /** An effect moves only its own ticket, and keeps every ticket's policy. */
  lemma {:induction false} EffectOnTicket(s: State, eff: Effect, t: Id)
    requires Legal(s, eff) && t in s.tickets
    ensures t in Do(s, eff).tickets && Do(s, eff).tickets[t].policy == s.tickets[t].policy
    ensures t != Appended(s, eff).ticket || ChangesNothing(Appended(s, eff).kind) ==>
              Do(s, eff).tickets[t].status == s.tickets[t].status
  {
  }

  lemma {:induction false} EndsAsCounted(s: State, eff: Effect, counting: bool)
    requires Counts(s, eff, counting) && eff.End? && Spends(eff.ended)
    ensures var t, s' := s.attempts[eff.attempt].ticket, Do(s, eff);
            && Appended(s, eff).kind == EndKind(eff.ended) && Appended(s, eff).ticket == t
            && (eff.ended == AttemptStatus.Expired || !DecidesFailure(s'.tickets[t]) ==>
                  s'.tickets[t].status == if counting && Exhausted(s', t) then TicketStatus.Failed else Todo)
  {
    EffectSpends(s, eff, s.attempts[eff.attempt].ticket);
    hide Spent;
  }

  /** Only the end of an attempt as failed or expired appends such an event. */
  lemma {:induction false} SpendingEvents(s: State, eff: Effect)
    requires Legal(s, eff)
    ensures Appended(s, eff).kind == EventKind.Failed || Appended(s, eff).kind == EventKind.Expired ==>
              eff.End? && Spends(eff.ended) && Appended(s, eff).kind == EndKind(eff.ended)
    ensures eff.End? && Spends(eff.ended) ==>
              Appended(s, eff).ticket == s.attempts[eff.attempt].ticket && !ChangesNothing(Appended(s, eff).kind)
    ensures Do(s, eff).events == s.events + [Appended(s, eff)]
  {
  }

  lemma {:induction false} EffectKeepsRule(s: State, eff: Effect, t: Id, counting: bool)
    requires Counts(s, eff, counting) && t in Do(s, eff).tickets && (t in s.tickets ==> Lands(s, t, counting))
    requires t !in s.tickets ==> eff.Insert? && eff.id == t
    ensures Lands(Do(s, eff), t, counting)
  {
    var e, s' := Appended(s, eff), Do(s, eff);
    SpendingEvents(s, eff);
    LastMoveAppend(s.events, e, t);
    if e.ticket == t && !ChangesNothing(e.kind) {
      if eff.End? && Spends(eff.ended) { EndsAsCounted(s, eff, counting); }
    } else {
      assert t in s.tickets;
      EffectOnTicket(s, eff, t);
      EffectSpends(s, eff, t);
    }
    hide Do, Appended, Legal, Spent, LastMove;
  }

  ghost predicate RuleHolds(s: State, counting: bool) {
    forall t :: t in s.tickets ==> Lands(s, t, counting)
  }

  lemma {:induction false} EffectKeepsRules(s: State, eff: Effect, counting: bool)
    requires Counts(s, eff, counting) && RuleHolds(s, counting)
    ensures RuleHolds(Do(s, eff), counting)
  {
    hide Lands;
    var s' := Do(s, eff);
    forall t | t in s'.tickets ensures Lands(s', t, counting) {
      EffectInserts(s, eff, t);
      EffectKeepsRule(s, eff, t, counting);
    }
  }

  lemma {:induction false} EffectInserts(s: State, eff: Effect, t: Id)
    requires Legal(s, eff) && t in Do(s, eff).tickets
    ensures t !in s.tickets ==> eff.Insert? && eff.id == t
  {
  }

  lemma {:induction false} SameRowsKeepRule(s: State, s': State, counting: bool)
    requires SameRows(s, s') && RuleHolds(s, counting)
    ensures RuleHolds(s', counting)
  {
    forall t | t in s'.tickets ensures Lands(s', t, counting) {
      assert Lands(s, t, counting);
      SpentSameRows(s, s', t);
    }
  }

  /** What a step of this machine other than a decomposition does to the rows. */
  function CountingEffectOf(s: State, step: Step): Option<Effect>
    requires !step.Decompose?
  {
    match step
    case Fail(a, m, now) =>
      if CanEnd(s, a) && ValidMetrics(m)
      then Some(End(a, AttemptStatus.Failed, CountedStatus(s, a, AttemptStatus.Failed), now)) else None
    case Expire(a, now, cutoff) =>
      if CanEnd(s, a) && s.attempts[a].lease < cutoff
      then Some(End(a, AttemptStatus.Expired, CountedStatus(s, a, AttemptStatus.Expired), now)) else None
    case _ => EffectOf(s, step)
  }

  ghost predicate CountingRefines(s: State, step: Step)
    requires !step.Decompose?
  {
    match CountingEffectOf(s, step)
    case None => SameRows(CountingApply(s, step), s)
    case Some(eff) => Counts(s, eff, true) && SameRows(CountingApply(s, step), Do(s, eff))
  }

  lemma {:induction false} CountedEndIsEffect(s: State, step: Step)
    requires step.Fail? || step.Expire?
    ensures CountingRefines(s, step)
  {
    hide Spent;
  }

  lemma {:induction false} OtherStepCounts(s: State, step: Step)
    requires !step.Decompose? && !step.Fail? && !step.Expire?
    ensures EffectOf(s, step).Some? && EffectOf(s, step).value.End? ==> !Spends(EffectOf(s, step).value.ended)
  {
    hide UpdateTicket, CreationRow, CanCreate, CanClaim;
  }

  lemma {:induction false} CountingStepIsEffect(s: State, step: Step)
    requires !step.Decompose?
    ensures CountingRefines(s, step)
  {
    if step.Fail? || step.Expire? {
      CountedEndIsEffect(s, step);
    } else {
      StepIsEffect(s, step);
      OtherStepCounts(s, step);
      hide EffectOf, Apply, Legal, Do;
    }
  }

  lemma {:induction false} InsertChildrenKeepRule(s: State, ids: seq<Id>, children: seq<Child>, batch: Batch, now: Time,
                                                 counting: bool)
    requires RuleHolds(s, counting) && ChildrenStorable(s, ids, children, batch, now)
    ensures RuleHolds(InsertChildren(s, ids, children, batch, now), counting)
  {
    hide RuleHolds, ChildRow;
    if ids != [] {
      var n := |ids| - 1;
      InsertChildrenKeepRule(s, ids[..n], children[..n], batch, now, counting);
      InsertChildrenFrame(s, ids[..n], children[..n], batch, now);
      var m := InsertChildren(s, ids[..n], children[..n], batch, now);
      var eff := Insert(ids[n], ChildRow(children[n], batch, now).value, CreationKind(!batch.create));
      assert ids[n] !in m.tickets;
      EffectKeepsRules(m, eff, counting);
    }
  }

  lemma {:induction false} CountingStepKeepsRule(s: State, step: Step)
    requires RuleHolds(s, true)
    ensures RuleHolds(CountingApply(s, step), true)
  {
    var s' := CountingApply(s, step);
    if step.Decompose? {
      if CanDecompose(s, step.ids, step.children, step.batch, step.now) {
        InsertChildrenKeepRule(s, step.ids, step.children, step.batch, step.now, true);
        hide RuleHolds, InsertChildren;
        SameRowsKeepRule(InsertChildren(s, step.ids, step.children, step.batch, step.now), s', true);
      }
    } else {
      CountingStepIsEffect(s, step);
      hide RuleHolds, CountingEffectOf, CountingApply, Do;
      match CountingEffectOf(s, step)
      case None => SameRowsKeepRule(s, s', true);
      case Some(eff) =>
        EffectKeepsRules(s, eff, true);
        SameRowsKeepRule(Do(s, eff), s', true);
    }
  }

  lemma {:induction false} CountingRunKeepsRule(steps: seq<Step>)
    ensures RuleHolds(CountingRun(EMPTY, steps), true)
  {
    hide CountingApply;
    if steps != [] {
      CountingRunKeepsRule(steps[..|steps| - 1]);
      CountingStepKeepsRule(CountingRun(EMPTY, steps[..|steps| - 1]), steps[|steps| - 1]);
    }
  }

  /** In every run of the machine that counts the ended attempt, a ticket last moved by a failure or an
      expiry that the policy leaves to the count is in `failed` exactly when its budget is spent, and
      in `todo` otherwise. */
  lemma {:induction false} CountingDeadLetters(steps: seq<Step>, t: Id)
    requires t in CountingRun(EMPTY, steps).tickets && LeftToCount(CountingRun(EMPTY, steps), t)
    ensures var s := CountingRun(EMPTY, steps);
            && (s.tickets[t].status == TicketStatus.Failed <==> Exhausted(s, t))
            && (s.tickets[t].status == Todo <==> !Exhausted(s, t))
  {
    CountingRunKeepsRule(steps);
    hide CountingRun;
    assert Lands(CountingRun(EMPTY, steps), t, true);
  }

  // ----- The ledger as it is -----------------------------------------------------------

  lemma {:induction false} BudgetLeft(s: State, a: Id)
    requires RowInvariant(s) && CanEnd(s, a)
    ensures Spent(s, s.attempts[a].ticket) < MaxAttempts(s.tickets[s.attempts[a].ticket])
  {
    assert AttemptInvariant(s, a) && TicketInvariant(s, s.attempts[a].ticket);
    hide RowInvariant, Replay;
  }

  lemma {:induction false} EndDoesNotCount(s: State, step: Step)
    requires (step.Fail? || step.Expire?) && EffectOf(s, step).Some? && Legal(s, EffectOf(s, step).value)
    requires CanEnd(s, step.attempt) ==>
               Spent(s, s.attempts[step.attempt].ticket) < MaxAttempts(s.tickets[s.attempts[step.attempt].ticket])
    ensures Counts(s, EffectOf(s, step).value, false)
  {
    hide Spent, Legal;
  }

  /** A step of the ledger lands in `todo`, because a running attempt leaves budget. */
  lemma {:induction false} StepDoesNotCount(s: State, step: Step)
    requires RowInvariant(s) && !step.Decompose?
    ensures EffectOf(s, step).Some? ==> Counts(s, EffectOf(s, step).value, false)
  {
    StepIsEffect(s, step);
    hide RowInvariant, Apply, Do, Legal, EffectOf;
    if step.Fail? || step.Expire? {
      if CanEnd(s, step.attempt) { BudgetLeft(s, step.attempt); }
      if EffectOf(s, step).Some? { EndDoesNotCount(s, step); }
    } else {
      OtherStepCounts(s, step);
    }
  }

  lemma {:induction false} StepKeepsTodo(s: State, step: Step)
    requires RowInvariant(s) && RuleHolds(s, false)
    ensures RuleHolds(Apply(s, step), false)
  {
    hide RowInvariant, RuleHolds;
    var s' := Apply(s, step);
    if step.Decompose? {
      if CanDecompose(s, step.ids, step.children, step.batch, step.now) {
        InsertChildrenKeepRule(s, step.ids, step.children, step.batch, step.now, false);
        hide InsertChildren;
        SameRowsKeepRule(InsertChildren(s, step.ids, step.children, step.batch, step.now), s', false);
      }
    } else {
      StepIsEffect(s, step);
      StepDoesNotCount(s, step);
      hide EffectOf, Apply, Do;
      match EffectOf(s, step)
      case None => SameRowsKeepRule(s, s', false);
      case Some(eff) =>
        EffectKeepsRules(s, eff, false);
        SameRowsKeepRule(Do(s, eff), s', false);
    }
  }

  lemma {:induction false} RunKeepsTodo(steps: seq<Step>)
    ensures RuleHolds(Run(EMPTY, steps), false)
  {
    hide Apply, RowInvariant;
    if steps != [] {
      RunKeepsTodo(steps[..|steps| - 1]);
      ReachableRows(steps[..|steps| - 1]);
      StepKeepsTodo(Run(EMPTY, steps[..|steps| - 1]), steps[|steps| - 1]);
    }
  }

  /** In every run of the ledger itself such a ticket is in `todo`, spent or not. */
  lemma {:induction false} LedgerNeverDeadLetters(steps: seq<Step>, t: Id)
    requires t in Run(EMPTY, steps).tickets && LeftToCount(Run(EMPTY, steps), t)
    ensures Run(EMPTY, steps).tickets[t].status == Todo
  {
    RunKeepsTodo(steps);
    hide Run;
    assert Lands(Run(EMPTY, steps), t, false);
  }
}
