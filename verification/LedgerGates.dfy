/** The two gates of the lifecycle over whole runs: work starts only when what it depends on is done, and
    work that requires review is done only by review. */
module LedgerGates {
  import opened Basics
  import opened Ledger
  import opened LedgerInvariant
  import opened LedgerRuns
  import opened LedgerTheorems
  import opened LedgerDependencies
  import opened LedgerClaimability
  import opened LedgerCounting
  import opened LedgerLaws
  import Graph

  // ----- Dependencies before work ------------------------------------------------------

  /** A ticket's dependencies are those it was created with. */
  lemma {:induction false} NoNewDependencies(s: State, step: Step, x: Id, y: Id)
    requires x in s.tickets && (x, y) in Apply(s, step).dependencies
    ensures (x, y) in s.dependencies
  {
    hide Graph.Cyclic;
    if step.Decompose? && CanDecompose(s, step.ids, step.children, step.batch, step.now) {
      InsertChildrenFrame(s, step.ids, step.children, step.batch, step.now);
      ChildRowsStayAcyclic(step.ids, step.children);
      hide ChildDependencyRows, IdsByKey, InsertChildren;
    }
  }

  /** At event `j` of the log, `d` was done. */
  ghost predicate WasDone(events: seq<Event>, j: nat, d: Id)
    requires j < |events|
  {
    Replay(events[..j], d).status == Some(Done)
  }

  ghost predicate ClaimsWaited(s: State) {
    forall j, d: Id :: 0 <= j < |s.events| && s.events[j].kind == EventKind.Claimed && (s.events[j].ticket, d) in s.dependencies
      ==> WasDone(s.events, j, d)
  }

  /** A step that claims a ticket of a reachable state finds each of its dependencies done. */
  lemma {:induction false} ClaimFindsDone(s: State, step: Step, j: nat, d: Id)
    requires RowInvariant(s) && DependenciesSound(s)
    requires |s.events| <= j < |Apply(s, step).events| && Apply(s, step).events[j].kind == EventKind.Claimed
    requires (Apply(s, step).events[j].ticket, d) in s.dependencies
    ensures d in s.tickets && s.tickets[d].status == Done
    ensures step.Claim? && j == |s.events| && s.events <= Apply(s, step).events
  {
    hide RowInvariant, Graph.Cyclic, Eligible, IsCandidate;
    ClaimedByClaim(s, step, j);
    EligibleExactly(s, step.claim, step.ticket);
    hide Suits;
    SuitsDone(s, step.claim, step.ticket, d);
  }

  lemma {:induction false} SuitsDone(s: State, r: ClaimRequest, t: Id, d: Id)
    requires Suits(s, r, t) && d in s.tickets && (t, d) in s.dependencies
    ensures s.tickets[d].status == Done
  {
  }

  lemma {:induction false} OldClaimWaited(s: State, step: Step, j: nat, d: Id)
    requires WellReferenced(s) && ClaimsWaited(s) && s.events <= Apply(s, step).events
    requires j < |s.events| && s.events[j].kind == EventKind.Claimed && (s.events[j].ticket, d) in Apply(s, step).dependencies
    ensures WasDone(Apply(s, step).events, j, d)
  {
    hide Apply, Replay;
    assert Apply(s, step).events[..j] == s.events[..j] && s.events[j] in s.events;
    NoNewDependencies(s, step, s.events[j].ticket, d);
    assert WasDone(s.events, j, d);
  }

  lemma {:induction false} StepKeepsWaiting(s: State, step: Step)
    requires RowInvariant(s) && DependenciesSound(s) && ClaimsWaited(s)
    ensures ClaimsWaited(Apply(s, step))
  {
    var s' := Apply(s, step);
    StepKeepsRows(s, step);
    assert s.events <= s'.events && WellReferenced(s);
    hide Apply, Replay, DependenciesSound, RowInvariant, Evolves, WellReferenced, WasDone;
    forall j, d: Id | 0 <= j < |s'.events| && s'.events[j].kind == EventKind.Claimed && (s'.events[j].ticket, d) in s'.dependencies
      ensures WasDone(s'.events, j, d)
    {
      if j < |s.events| {
        OldClaimWaited(s, step, j, d);
      } else {
        NewClaimWaited(s, step, j, d);
      }
    }
  }

  lemma {:induction false} NewClaimWaited(s: State, step: Step, j: nat, d: Id)
    requires RowInvariant(s) && DependenciesSound(s)
    requires |s.events| <= j < |Apply(s, step).events| && Apply(s, step).events[j].kind == EventKind.Claimed
    requires (Apply(s, step).events[j].ticket, d) in Apply(s, step).dependencies
    ensures WasDone(Apply(s, step).events, j, d)
  {
    hide Apply, Replay, DependenciesSound, RowInvariant, Eligible;
    ClaimedByClaim(s, step, j);
    EligibleIsRevivable(s, step.claim, step.ticket);
    NoNewDependencies(s, step, step.ticket, d);
    ClaimFindsDone(s, step, j, d);
    assert Apply(s, step).events[..j] == s.events;
    StatusIsReplayed(s, d);
  }

  lemma {:induction false} StatusIsReplayed(s: State, t: Id)
    requires RowInvariant(s) && t in s.tickets
    ensures Replay(s.events, t).status == Some(s.tickets[t].status)
  {
    assert TicketInvariant(s, t);
  }

  lemma {:induction false} RunKeepsWaiting(steps: seq<Step>)
    ensures ClaimsWaited(Run(EMPTY, steps))
  {
    hide Apply, RowInvariant, DependenciesSound, ClaimsWaited;
    if steps != [] {
      RunKeepsWaiting(steps[..|steps| - 1]);
      ReachableRows(steps[..|steps| - 1]);
      DependenciesNeverCycle(steps[..|steps| - 1]);
      StepKeepsWaiting(Run(EMPTY, steps[..|steps| - 1]), steps[|steps| - 1]);
    } else {
      NothingClaimed();
    }
  }

  lemma {:induction false} NothingClaimed()
    ensures ClaimsWaited(EMPTY)
  {
  }

  /** In every run, whenever a ticket was claimed, each ticket it depends on was done: so says the log. */
  lemma {:induction false} WorkWaitsForDependencies(steps: seq<Step>, j: nat, d: Id)
    requires j < |Run(EMPTY, steps).events| && Run(EMPTY, steps).events[j].kind == EventKind.Claimed
    requires (Run(EMPTY, steps).events[j].ticket, d) in Run(EMPTY, steps).dependencies
    ensures Replay(Run(EMPTY, steps).events[..j], d).status == Some(Done)
  {
    RunKeepsWaiting(steps);
    hide Run, Replay;
    assert WasDone(Run(EMPTY, steps).events, j, d);
  }

  /** And so say the rows: a step of a run that claims a ticket finds each of its dependencies done. */
  lemma {:induction false} StepClaimsWhenDone(steps: seq<Step>, step: Step, t: Id, d: Id)
    requires ClaimedSince(Run(EMPTY, steps), Apply(Run(EMPTY, steps), step), t) && (t, d) in Run(EMPTY, steps).dependencies
    ensures d in Run(EMPTY, steps).tickets && Run(EMPTY, steps).tickets[d].status == Done
  {
    ReachableRows(steps);
    DependenciesNeverCycle(steps);
    var s := Run(EMPTY, steps);
    hide Run, Apply, RowInvariant, DependenciesSound;
    var s' := Apply(s, step);
    var j :| |s.events| <= j < |s'.events| && s'.events[j].kind == EventKind.Claimed && s'.events[j].ticket == t;
    ClaimFindsDone(s, step, j, d);
  }

  // ----- Review before done ------------------------------------------------------------

  /** A done ticket whose policy requires review was last moved by a review. */
  ghost predicate DoneByReview(s: State, t: Id)
    requires t in s.tickets
  {
    s.tickets[t].status == Done && s.tickets[t].policy.requiresReview == Some(true) ==>
      && LastMove(s.events, t).Some? && LastMove(s.events, t).value.kind == Reviewed
  }

  ghost predicate ReviewHolds(s: State) {
    forall t :: t in s.tickets ==> DoneByReview(s, t)
  }

  /** An end that leaves its ticket done found a policy that requires no review. */
  ghost predicate Heeds(s: State, eff: Effect) {
    && Legal(s, eff)
    && (eff.End? && eff.status == Done ==> s.tickets[s.attempts[eff.attempt].ticket].policy.requiresReview != Some(true))
  }

  lemma {:induction false} MovesToDone(s: State, eff: Effect)
    requires Heeds(s, eff)
    ensures var t, s' := Appended(s, eff).ticket, Do(s, eff);
            && Do(s, eff).events == s.events + [Appended(s, eff)]
            && (!ChangesNothing(Appended(s, eff).kind) && t in s'.tickets && s'.tickets[t].status == Done ==>
                  s'.tickets[t].policy.requiresReview == Some(true) ==> Appended(s, eff).kind == Reviewed)
  {
  }

  lemma {:induction false} EffectKeepsReview(s: State, eff: Effect, t: Id)
    requires Heeds(s, eff) && t in Do(s, eff).tickets && (t in s.tickets ==> DoneByReview(s, t))
    ensures DoneByReview(Do(s, eff), t)
  {
    var e := Appended(s, eff);
    MovesToDone(s, eff);
    LastMoveAppend(s.events, e, t);
    EffectInserts(s, eff, t);
    if t in s.tickets { EffectOnTicket(s, eff, t); }
    if eff.Insert? { InsertMoves(s, eff); }
    hide Do, Appended, Legal, LastMove, ChangesNothing;
  }

  lemma {:induction false} InsertMoves(s: State, eff: Effect)
    requires Legal(s, eff) && eff.Insert?
    ensures Appended(s, eff).ticket == eff.id && !ChangesNothing(Appended(s, eff).kind)
  {
  }

  lemma {:induction false} EndsInDone(s: State, step: Step)
    requires !step.Decompose? && EffectOf(s, step).Some? && EffectOf(s, step).value.End? && EffectOf(s, step).value.status == Done
    ensures CanEnd(s, EffectOf(s, step).value.attempt)
    ensures s.tickets[s.attempts[EffectOf(s, step).value.attempt].ticket].policy.requiresReview != Some(true)
  {
    hide Spent, CreationRow, CanClaim, UpdateTicket;
  }

  lemma {:induction false} StepHeeds(s: State, step: Step)
    requires !step.Decompose? && EffectOf(s, step).Some?
    ensures Heeds(s, EffectOf(s, step).value)
  {
    hide EffectOf, Legal, Do, Apply;
    StepIsEffect(s, step);
    var eff := EffectOf(s, step).value;
    if eff.End? && eff.status == Done { EndsInDone(s, step); }
  }

  lemma {:induction false} EffectKeepsReviews(s: State, eff: Effect)
    requires Heeds(s, eff) && ReviewHolds(s)
    ensures ReviewHolds(Do(s, eff))
  {
    hide DoneByReview, Do, Legal;
    forall t | t in Do(s, eff).tickets ensures DoneByReview(Do(s, eff), t) { EffectKeepsReview(s, eff, t); }
  }

  lemma {:induction false} SameRowsKeepReview(s: State, s': State)
    requires SameRows(s, s') && ReviewHolds(s)
    ensures ReviewHolds(s')
  {
    forall t | t in s'.tickets ensures DoneByReview(s', t) { assert DoneByReview(s, t); }
  }

  lemma {:induction false} InsertChildrenKeepReview(s: State, ids: seq<Id>, children: seq<Child>, batch: Batch, now: Time)
    requires ReviewHolds(s) && ChildrenStorable(s, ids, children, batch, now)
    ensures ReviewHolds(InsertChildren(s, ids, children, batch, now))
  {
    hide ReviewHolds, ChildRow;
    if ids != [] {
      var n := |ids| - 1;
      InsertChildrenKeepReview(s, ids[..n], children[..n], batch, now);
      InsertChildrenFrame(s, ids[..n], children[..n], batch, now);
      var m := InsertChildren(s, ids[..n], children[..n], batch, now);
      var eff := Insert(ids[n], ChildRow(children[n], batch, now).value, CreationKind(!batch.create));
      assert ids[n] !in m.tickets;
      EffectKeepsReviews(m, eff);
    }
  }

  lemma {:induction false} StepKeepsReview(s: State, step: Step)
    requires ReviewHolds(s)
    ensures ReviewHolds(Apply(s, step))
  {
    hide ReviewHolds;
    var s' := Apply(s, step);
    if step.Decompose? {
      if CanDecompose(s, step.ids, step.children, step.batch, step.now) {
        InsertChildrenKeepReview(s, step.ids, step.children, step.batch, step.now);
        hide InsertChildren;
        SameRowsKeepReview(InsertChildren(s, step.ids, step.children, step.batch, step.now), s');
      }
    } else {
      StepIsEffect(s, step);
      hide EffectOf, Apply, Do;
      match EffectOf(s, step)
      case None => SameRowsKeepReview(s, s');
      case Some(eff) =>
        StepHeeds(s, step);
        EffectKeepsReviews(s, eff);
        SameRowsKeepReview(Do(s, eff), s');
    }
  }

  lemma {:induction false} RunKeepsReview(steps: seq<Step>)
    ensures ReviewHolds(Run(EMPTY, steps))
  {
    hide Apply;
    if steps != [] {
      RunKeepsReview(steps[..|steps| - 1]);
      StepKeepsReview(Run(EMPTY, steps[..|steps| - 1]), steps[|steps| - 1]);
    }
  }

  /** In every run a ticket that is done although its policy requires review was last moved by a review. */
  lemma {:induction false} RequiredReviewHappens(steps: seq<Step>, t: Id)
    requires t in Run(EMPTY, steps).tickets
    requires Run(EMPTY, steps).tickets[t].status == Done && Run(EMPTY, steps).tickets[t].policy.requiresReview == Some(true)
    ensures LastMove(Run(EMPTY, steps).events, t).Some? && LastMove(Run(EMPTY, steps).events, t).value.kind == Reviewed
  {
    RunKeepsReview(steps);
    hide Run;
    assert DoneByReview(Run(EMPTY, steps), t);
  }
}
