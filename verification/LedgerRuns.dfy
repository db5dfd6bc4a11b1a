/** From effects to steps to runs: the invariant in every reachable state, and what no later
    step can undo. */
module LedgerRuns {
  import opened Basics
  import opened Ledger
  import opened LedgerInvariant
  import Graph

  // ----- Steps are effects -------------------------------------------------------------

  /** Two states with the same tickets, attempts and log. */
  ghost predicate SameRows(s: State, s': State) {
    s.tickets == s'.tickets && s.attempts == s'.attempts && s.events == s'.events
  }

  lemma {:induction false} SameRowsKeepInvariant(s: State, s': State)
    requires SameRows(s, s') && RowInvariant(s)
    ensures RowInvariant(s')
  {
    forall t | t in s'.tickets ensures TicketInvariant(s', t) {
      assert TicketInvariant(s, t);
      assert SpentAttempts(s, t) == SpentAttempts(s', t);
    }
    forall a | a in s'.attempts ensures AttemptInvariant(s', a) { assert AttemptInvariant(s, a); }
  }

  function EndEffect(s: State, a: Id, ended: AttemptStatus, now: Time): Effect
    requires CanEnd(s, a)
  {
    var id := s.attempts[a].ticket;
    var t := s.tickets[id];
    var status :=
      match ended
      case Succeeded => SuccessStatus(t)
      case Failed => FailureStatus(t, Spent(s, id))
      case Blocked => TicketStatus.Blocked
      case Expired => ExpiryStatus(t, Spent(s, id))
      case _ => Todo;
    End(a, ended, status, now)
  }

  function EndEffects(s: State, a: Id, ended: AttemptStatus, m: Option<Metrics>, now: Time): Option<Effect> {
    if CanEnd(s, a) && ValidMetrics(m) then Some(EndEffect(s, a, ended, now)) else None
  }

  /** What a step other than a decomposition does to the rows, if anything. */
  function EffectOf(s: State, step: Step): Option<Effect>
    requires !step.Decompose?
  {
    match step
    case Create(id, r, proposed, now) =>
      if CanCreate(s, id, r, proposed, now)
      then Some(Insert(id, CreationRow(r, proposed, now).value, CreationKind(proposed))) else None
    case Update(id, patch) =>
      if id in s.tickets && ValidPatch(patch) then Some(Describe(id, UpdateTicket(s, id, patch).tickets[id])) else None
    case Move(id, op) => if CanTransition(s, id, op) then Some(Moved(id, op)) else None
    case Claim(r, locked, ticket, a, now) =>
      if CanClaim(s, r, locked, ticket, a) then Some(Start(a, ClaimedAttempt(r, ticket, now))) else None
    case Beat(a, now, lease) =>
      if IsRunning(s, a) && lease > 0
      then Some(Renew(a, s.attempts[a].(lease := now + lease, heartbeatAt := now), Heartbeat)) else None
    case Note(a, p) =>
      if IsRunning(s, a) && ValidProgress(p) then Some(Renew(a, Progressed(s.attempts[a], p), Checkpointed)) else None
    case Complete(a, m, now) => EndEffects(s, a, Succeeded, m, now)
    case Fail(a, m, now) => EndEffects(s, a, AttemptStatus.Failed, m, now)
    case Block(a, m, now) => EndEffects(s, a, AttemptStatus.Blocked, m, now)
    case Cancel(a, now) => EndEffects(s, a, AttemptStatus.Cancelled, None, now)
    case Expire(a, now, cutoff) =>
      if CanEnd(s, a) && s.attempts[a].lease < cutoff then Some(EndEffect(s, a, AttemptStatus.Expired, now)) else None
    case PurgeKeys(_) => None
  }

  ghost predicate Refines(s: State, step: Step)
    requires !step.Decompose?
  {
    match EffectOf(s, step)
    case None => SameRows(Apply(s, step), s)
    case Some(eff) => Legal(s, eff) && SameRows(Apply(s, step), Do(s, eff))
  }

  lemma {:induction false} CompletionIsEffect(s: State, step: Step)
    requires step.Complete? || step.Block?
    ensures Refines(s, step)
  {
  }

  lemma {:induction false} FailureIsEffect(s: State, step: Step)
    requires step.Fail?
    ensures Refines(s, step)
  {
  }

  lemma {:induction false} UnreportedEndIsEffect(s: State, step: Step)
    requires step.Cancel? || step.Expire?
    ensures Refines(s, step)
  {
  }

  lemma {:induction false} RenewalIsEffect(s: State, step: Step)
    requires step.Beat? || step.Note?
    ensures Refines(s, step)
  {
  }

  lemma {:induction false} ClaimIsEffect(s: State, step: Step)
    requires step.Claim? || step.PurgeKeys?
    ensures Refines(s, step)
  {
  }

  lemma {:induction false} TicketStepIsEffect(s: State, step: Step)
    requires step.Create? || step.Update? || step.Move?
    ensures Refines(s, step)
  {
  }

  /** Every step but a decomposition has no effect on the rows or exactly one legal effect. */
  lemma {:induction false} StepIsEffect(s: State, step: Step)
    requires !step.Decompose?
    ensures Refines(s, step)
  {
    if step.Complete? || step.Block? { CompletionIsEffect(s, step); }
    else if step.Fail? { FailureIsEffect(s, step); }
    else if step.Cancel? || step.Expire? { UnreportedEndIsEffect(s, step); }
    else if step.Beat? || step.Note? { RenewalIsEffect(s, step); }
    else if step.Claim? || step.PurgeKeys? { ClaimIsEffect(s, step); }
    else { TicketStepIsEffect(s, step); }
  }

  // ----- What no step undoes -----------------------------------------------------------

  /** Fields of a ticket that no statement rewrites. */
  ghost predicate SameTicketIdentity(t: Ticket, t': Ticket) {
    t'.workspace == t.workspace && t'.project == t.project && t'.kind == t.kind && t'.policy == t.policy
    && t'.createdBy == t.createdBy && t'.createdAt == t.createdAt && t'.priority == t.priority
    && t'.harnesses == t.harnesses && t'.capabilities == t.capabilities
  }

  ghost predicate TicketEvolves(s: State, s': State, t: Id)
    requires t in s.tickets
  {
    && t in s'.tickets && SameTicketIdentity(s.tickets[t], s'.tickets[t])
    && (s.tickets[t].status == TicketStatus.Archived ==> s'.tickets[t].status == TicketStatus.Archived)
  }

  ghost predicate AttemptEvolves(s: State, s': State, a: Id)
    requires a in s.attempts
  {
    && a in s'.attempts && s'.attempts[a].ticket == s.attempts[a].ticket
    && (s.attempts[a].status != Running ==> s'.attempts[a] == s.attempts[a])
  }

  ghost predicate Exhausted(s: State, t: Id) {
    t in s.tickets && Spent(s, t) >= MaxAttempts(s.tickets[t])
  }

  /** The log only grows; archived tickets stay archived; ended attempts stay as they are; an
      exhausted ticket is never claimed again. */
  ghost predicate Evolves(s: State, s': State) {
    && s.events <= s'.events
    && (forall t :: t in s.tickets ==> TicketEvolves(s, s', t))
    && (forall a :: a in s.attempts ==> AttemptEvolves(s, s', a))
    && (forall j :: |s.events| <= j < |s'.events| && s'.events[j].kind == Claimed ==> !Exhausted(s, s'.events[j].ticket))
  }

  lemma {:induction false} SpentGrows(s: State, s': State, t: Id)
    requires forall a :: a in s.attempts ==> AttemptEvolves(s, s', a)
    ensures Spent(s, t) <= Spent(s', t)
  {
    forall a | a in SpentAttempts(s, t) ensures a in SpentAttempts(s', t) { assert AttemptEvolves(s, s', a); }
    Graph.SubsetSize(SpentAttempts(s, t), SpentAttempts(s', t));
  }

  lemma {:induction false} ExhaustionLasts(s: State, s': State, t: Id)
    requires Evolves(s, s') && Exhausted(s, t)
    ensures Exhausted(s', t)
  {
    SpentGrows(s, s', t);
    assert TicketEvolves(s, s', t);
  }

  lemma {:induction false} EvolvesTransitively(s: State, m: State, s': State)
    requires Evolves(s, m) && Evolves(m, s')
    ensures Evolves(s, s')
  {
    forall t | t in s.tickets ensures TicketEvolves(s, s', t) {
      assert TicketEvolves(s, m, t) && TicketEvolves(m, s', t);
    }
    forall a | a in s.attempts ensures AttemptEvolves(s, s', a) {
      assert AttemptEvolves(s, m, a) && AttemptEvolves(m, s', a);
    }
    forall j | |s.events| <= j < |s'.events| && s'.events[j].kind == Claimed ensures !Exhausted(s, s'.events[j].ticket) {
      if j < |m.events| {
        assert m.events[j] == s'.events[j];
      } else if Exhausted(s, s'.events[j].ticket) {
        ExhaustionLasts(s, m, s'.events[j].ticket);
      }
    }
  }

  lemma {:induction false} SelfEvolves(s: State)
    ensures Evolves(s, s)
  {
  }

  lemma {:induction false} EffectEvolvesTicket(s: State, eff: Effect, t: Id)
    requires Legal(s, eff) && t in s.tickets
    requires eff.End? ==> AttemptInvariant(s, eff.attempt) && TicketInvariant(s, t)
    ensures TicketEvolves(s, Do(s, eff), t)
  {
  }

  lemma {:induction false} EffectEvolvesAttempt(s: State, eff: Effect, a: Id)
    requires Legal(s, eff) && a in s.attempts
    ensures AttemptEvolves(s, Do(s, eff), a)
  {
  }

  lemma {:induction false} ClaimsAreNotExhausted(s: State, eff: Effect)
    requires Legal(s, eff) && Appended(s, eff).kind == Claimed
    ensures !Exhausted(s, Appended(s, eff).ticket)
  {
  }

  lemma {:induction false} EffectEvolves(s: State, eff: Effect)
    requires RowInvariant(s) && Legal(s, eff)
    ensures Evolves(s, Do(s, eff))
  {
    hide TicketInvariant, AttemptInvariant, TicketEvolves, AttemptEvolves, Exhausted, ClaimTriaged;
    EffectKeepsReferences(s, eff);
    var s' := Do(s, eff);
    forall t | t in s.tickets ensures TicketEvolves(s, s', t) { EffectEvolvesTicket(s, eff, t); }
    forall a | a in s.attempts ensures AttemptEvolves(s, s', a) { EffectEvolvesAttempt(s, eff, a); }
    forall j | |s.events| <= j < |s'.events| && s'.events[j].kind == Claimed ensures !Exhausted(s, s'.events[j].ticket) {
      assert s'.events[j] == Appended(s, eff);
      ClaimsAreNotExhausted(s, eff);
    }
  }

  lemma {:induction false} SameRowsEvolve(s: State, s': State, s'': State)
    requires Evolves(s, s') && SameRows(s', s'')
    ensures Evolves(s, s'')
  {
    forall t | t in s.tickets ensures TicketEvolves(s, s'', t) { assert TicketEvolves(s, s', t); }
    forall a | a in s.attempts ensures AttemptEvolves(s, s'', a) { assert AttemptEvolves(s, s', a); }
  }

  // ----- Steps and runs ----------------------------------------------------------------

  /** The children's rows are added, and nothing else but their events. */
  lemma {:induction false} InsertChildrenFrame(s: State, ids: seq<Id>, children: seq<Child>, batch: Batch, now: Time)
    requires |ids| == |children|
    requires forall i :: 0 <= i < |children| ==> ChildRow(children[i], batch, now).Ok?
    ensures var s' := InsertChildren(s, ids, children, batch, now);
            s'.tickets.Keys == s.tickets.Keys + (set x | x in ids)
            && s' == s.(tickets := s'.tickets, events := s'.events)
  {
    hide ChildRow;
    if ids != [] {
      var n := |ids| - 1;
      InsertChildrenFrame(s, ids[..n], children[..n], batch, now);
      assert ids == ids[..n] + [ids[n]];
    }
  }

  /** Inserting the children of a decomposition one by one. */
  lemma {:induction false} InsertChildrenKeepRows(s: State, ids: seq<Id>, children: seq<Child>, batch: Batch, now: Time)
    requires RowInvariant(s) && ChildrenStorable(s, ids, children, batch, now)
    ensures RowInvariant(InsertChildren(s, ids, children, batch, now))
    ensures Evolves(s, InsertChildren(s, ids, children, batch, now))
  {
    hide RowInvariant, Evolves, ChildRow;
    if ids == [] {
      SelfEvolves(s);
    } else {
      var n := |ids| - 1;
      InsertChildrenKeepRows(s, ids[..n], children[..n], batch, now);
      InsertChildrenFrame(s, ids[..n], children[..n], batch, now);
      var m := InsertChildren(s, ids[..n], children[..n], batch, now);
      var eff := Insert(ids[n], ChildRow(children[n], batch, now).value, CreationKind(!batch.create));
      assert ids[n] !in m.tickets;
      hide InsertTicket;
      EffectKeepsRowInvariant(m, eff);
      EffectEvolves(m, eff);
      EvolvesTransitively(s, m, Do(m, eff));
    }
  }

  lemma {:induction false} StepKeepsRows(s: State, step: Step)
    requires RowInvariant(s)
    ensures RowInvariant(Apply(s, step)) && Evolves(s, Apply(s, step))
  {
    hide RowInvariant, Evolves;
    var s' := Apply(s, step);
    if step.Decompose? {
      SelfEvolves(s);
      if CanDecompose(s, step.ids, step.children, step.batch, step.now) {
        InsertChildrenKeepRows(s, step.ids, step.children, step.batch, step.now);
        var inserted := InsertChildren(s, step.ids, step.children, step.batch, step.now);
        SameRowsKeepInvariant(inserted, s');
        SameRowsEvolve(s, inserted, s');
      }
    } else {
      StepIsEffect(s, step);
      match EffectOf(s, step)
      case None =>
        SelfEvolves(s);
        SameRowsKeepInvariant(s, s');
        SameRowsEvolve(s, s, s');
      case Some(eff) =>
        EffectKeepsRowInvariant(s, eff);
        EffectEvolves(s, eff);
        SameRowsKeepInvariant(Do(s, eff), s');
        SameRowsEvolve(s, Do(s, eff), s');
    }
  }

  lemma {:induction false} RunKeepsRows(s: State, steps: seq<Step>)
    requires RowInvariant(s)
    ensures RowInvariant(Run(s, steps)) && Evolves(s, Run(s, steps))
  {
    if steps != [] {
      var before := steps[..|steps| - 1];
      RunKeepsRows(s, before);
      StepKeepsRows(Run(s, before), steps[|steps| - 1]);
      EvolvesTransitively(s, Run(s, before), Run(s, steps));
    }
  }

  lemma {:induction false} RunSplits(s: State, steps: seq<Step>, more: seq<Step>)
    ensures Run(s, steps + more) == Run(Run(s, steps), more)
    decreases |more|
  {
    hide Apply;
    if more == [] {
      assert steps + more == steps;
    } else {
      var n := |more| - 1;
      assert (steps + more)[..|steps| + n] == steps + more[..n];
      RunSplits(s, steps, more[..n]);
    }
  }

  /** One more step of a run that starts from the empty store. */
  lemma {:induction false} RunPrefix(run: seq<Step>, n: nat)
    requires n < |run|
    ensures Run(EMPTY, run[..n + 1]) == Apply(Run(EMPTY, run[..n]), run[n]) && Run(EMPTY, run[..0]) == EMPTY
  {
    hide Apply;
    assert run[..n + 1][..n] == run[..n];
  }

  lemma {:induction false} RunEndsWith(s: State, steps: seq<Step>, step: Step)
    ensures Run(s, steps + [step]) == Apply(Run(s, steps), step)
  {
    hide Apply;
    assert (steps + [step])[..|steps|] == steps;
  }
}
