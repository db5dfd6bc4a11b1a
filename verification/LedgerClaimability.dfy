/** Which tickets some later run can still claim, and which none can. */
module LedgerClaimability {
  import opened Basics
  import opened Graph
  import opened Ledger
  import opened LedgerInvariant
  import opened LedgerRuns
  import opened LedgerTheorems
  import opened LedgerRecords
  import opened LedgerDependencies

  /** `t` depends directly on an archived ticket. */
  ghost predicate WaitsForArchived(s: State, t: Id) {
    exists d :: (t, d) in s.dependencies && d in s.tickets && s.tickets[d].status == TicketStatus.Archived
  }

  /** Not archived, attempts left, and no archived direct dependency. */
  ghost predicate Revivable(s: State, t: Id) {
    t in s.tickets && s.tickets[t].status != TicketStatus.Archived && !Exhausted(s, t) && !WaitsForArchived(s, t)
  }

  /** From `s` to `s'` the log gains a claimed event of `t`. */
  ghost predicate ClaimedSince(s: State, s': State, t: Id) {
    exists j :: |s.events| <= j < |s'.events| && s'.events[j].kind == EventKind.Claimed && s'.events[j].ticket == t
  }

  // ----- Tickets that are lost ---------------------------------------------------------

  lemma {:induction false} DependenciesStay(s: State, steps: seq<Step>)
    ensures s.dependencies <= Run(s, steps).dependencies
  {
    hide Apply;
    if steps != [] {
      DependenciesStay(s, steps[..|steps| - 1]);
      StepAddsDependencies(Run(s, steps[..|steps| - 1]), steps[|steps| - 1]);
    }
  }

  lemma {:induction false} StepAddsDependencies(s: State, step: Step)
    ensures s.dependencies <= Apply(s, step).dependencies
  {
    hide Cyclic;
  }

  lemma {:induction false} ChildrenAreNotClaimed(s: State, ids: seq<Id>, children: seq<Child>, batch: Batch, now: Time, j: nat)
    requires |ids| == |children| && forall i :: 0 <= i < |children| ==> ChildRow(children[i], batch, now).Ok?
    requires |s.events| <= j < |InsertChildren(s, ids, children, batch, now).events|
    ensures InsertChildren(s, ids, children, batch, now).events[j].kind != EventKind.Claimed
  {
    hide ChildRow;
    var n := |ids| - 1;
    if j < |InsertChildren(s, ids[..n], children[..n], batch, now).events| {
      ChildrenAreNotClaimed(s, ids[..n], children[..n], batch, now, j);
    }
  }

  /** Only the claim statement appends claimed events. */
  lemma {:induction false} ClaimedByClaim(s: State, step: Step, j: nat)
    requires |s.events| <= j < |Apply(s, step).events| && Apply(s, step).events[j].kind == EventKind.Claimed
    ensures step.Claim? && step.ticket == Apply(s, step).events[j].ticket && Eligible(s, step.claim, step.ticket)
  {
    if step.Decompose? {
      assert CanDecompose(s, step.ids, step.children, step.batch, step.now);
      ChildrenAreNotClaimed(s, step.ids, step.children, step.batch, step.now, j);
    } else {
      StepIsEffect(s, step);
      if EffectOf(s, step).Some? { assert Apply(s, step).events[j] == Appended(s, EffectOf(s, step).value); }
      assert step.Claim? && CanClaim(s, step.claim, step.locked, step.ticket, step.attempt);
      assert step.ticket in EligibleTickets(s, step.claim);
    }
  }

  /** Before a claimed event of `t` there is a state of the run in which `t` is eligible. */
  lemma {:induction false} EligibleBeforeClaim(s: State, steps: seq<Step>, t: Id, j: nat) returns (n: nat, r: ClaimRequest)
    requires RowInvariant(s) && |s.events| <= j < |Run(s, steps).events|
    requires Run(s, steps).events[j].kind == EventKind.Claimed && Run(s, steps).events[j].ticket == t
    ensures n <= |steps| && Eligible(Run(s, steps[..n]), r, t)
  {
    hide Apply, RowInvariant, Eligible;
    var before := steps[..|steps| - 1];
    var m := Run(s, before);
    RunKeepsRows(s, before);
    StepKeepsRows(m, steps[|steps| - 1]);
    if j < |m.events| {
      assert m.events[j] == Run(s, steps).events[j];
      n, r := EligibleBeforeClaim(s, before, t, j);
      assert before[..n] == steps[..n];
    } else {
      ClaimedByClaim(m, steps[|steps| - 1], j);
      n, r := |steps| - 1, steps[|steps| - 1].claim;
    }
  }

  /** What is archived, exhausted or waits for something archived is so in every later state. */
  lemma {:induction false} LostStaysLost(s: State, steps: seq<Step>, t: Id)
    requires RowInvariant(s) && t in s.tickets && !Revivable(s, t)
    ensures t in Run(s, steps).tickets && !Revivable(Run(s, steps), t)
  {
    RunKeepsRows(s, steps);
    DependenciesStay(s, steps);
    var s' := Run(s, steps);
    hide Run, RowInvariant;
    assert TicketEvolves(s, s', t);
    if Exhausted(s, t) {
      ExhaustionLasts(s, s', t);
    } else if WaitsForArchived(s, t) {
      var d :| (t, d) in s.dependencies && d in s.tickets && s.tickets[d].status == TicketStatus.Archived;
      assert TicketEvolves(s, s', d);
    }
  }

  lemma {:induction false} EligibleIsRevivable(s: State, r: ClaimRequest, t: Id)
    requires Eligible(s, r, t)
    ensures Revivable(s, t)
  {
  }

  lemma {:induction false} LostIsNotClaimed(s: State, steps: seq<Step>, t: Id)
    requires RowInvariant(s) && t in s.tickets && !Revivable(s, t)
    ensures !ClaimedSince(s, Run(s, steps), t)
  {
    hide Apply, RowInvariant, Run, Revivable, Eligible;
    var s' := Run(s, steps);
    forall j | |s.events| <= j < |s'.events| && s'.events[j].kind == EventKind.Claimed && s'.events[j].ticket == t ensures false {
      var n, r := EligibleBeforeClaim(s, steps, t, j);
      EligibleIsRevivable(Run(s, steps[..n]), r, t);
      LostStaysLost(s, steps[..n], t);
    }
  }

  /** A ticket with an archived direct dependency is claimed by no later run. */
  lemma {:induction false} ArchivedDependencyStrands(steps: seq<Step>, more: seq<Step>, t: Id, d: Id)
    requires var s := Run(EMPTY, steps);
             t in s.tickets && (t, d) in s.dependencies && d in s.tickets && s.tickets[d].status == TicketStatus.Archived
    ensures !ClaimedSince(Run(EMPTY, steps), Run(EMPTY, steps + more), t)
  {
    ReachableRows(steps);
    RunSplits(EMPTY, steps, more);
    hide Run, RowInvariant;
    LostIsNotClaimed(Run(EMPTY, steps), more, t);
  }

  // ----- Moving one ticket -------------------------------------------------------------

  /** Only the status of `x` differs, and no attempt was spent. */
  ghost predicate OnlyMoves(s: State, s': State, x: Id, status: TicketStatus)
    requires x in s.tickets
  {
    && s'.tickets == s.tickets[x := s.tickets[x].(status := status)] && s'.dependencies == s.dependencies
    && forall y :: Spent(s', y) == Spent(s, y)
  }

  predicate IsPlain(op: Transition) {
    op == MarkReady || op == Reopen || op == Unblock || op == RequestReview || op == Approve || op == Reject
  }

  lemma {:induction false} RunOne(s: State, step: Step)
    ensures Run(s, [step]) == Apply(s, step)
  {
    hide Apply;
    assert [step][..0] == [];
  }

  lemma {:induction false} PlainMove(s: State, x: Id, op: Transition)
    requires x in s.tickets && IsPlain(op) && s.tickets[x].status in op.Allowed()
    ensures OnlyMoves(s, Run(s, [Move(x, op)]), x, op.Target())
  {
    RunOne(s, Move(x, op));
    hide Run;
    var s' := Apply(s, Move(x, op));
    forall y ensures Spent(s', y) == Spent(s, y) { assert SpentAttempts(s', y) == SpentAttempts(s, y); }
  }

  lemma {:induction false} CancelSpendsNothing(s: State, a: Id)
    requires CanEnd(s, a)
    ensures OnlyMoves(s, Apply(s, Cancel(a, 0)), s.attempts[a].ticket, Todo)
  {
    var s' := Apply(s, Cancel(a, 0));
    forall y ensures Spent(s', y) == Spent(s, y) { assert SpentAttempts(s', y) == SpentAttempts(s, y); }
  }

  lemma {:induction false} RunsSome(s: State, x: Id) returns (a: Id)
    requires RowInvariant(s) && x in s.tickets && s.tickets[x].status == InProgress
    ensures CanEnd(s, a) && s.attempts[a].ticket == x
  {
    assert TicketInvariant(s, x);
    hide RowInvariant, Replay;
    a := Replay(s.events, x).running.value;
  }

  /** The attempt of a ticket in progress can be cancelled. */
  lemma {:induction false} CancelMoves(s: State, x: Id) returns (a: Id)
    requires RowInvariant(s) && x in s.tickets && s.tickets[x].status == InProgress
    ensures OnlyMoves(s, Run(s, [Cancel(a, 0)]), x, Todo)
  {
    hide RowInvariant, Run, Apply, OnlyMoves;
    a := RunsSome(s, x);
    CancelSpendsNothing(s, a);
    RunOne(s, Cancel(a, 0));
  }

  lemma {:induction false} MovesCompose(s: State, first: seq<Step>, next: seq<Step>, x: Id, between: TicketStatus, status: TicketStatus)
    requires x in s.tickets && OnlyMoves(s, Run(s, first), x, between)
    requires OnlyMoves(Run(s, first), Run(Run(s, first), next), x, status)
    ensures OnlyMoves(s, Run(s, first + next), x, status)
  {
    RunSplits(s, first, next);
    hide Run, Spent;
  }

  /** Every ticket that is not archived can be brought back to `todo`. */
  lemma {:induction false} OpenTicket(s: State, x: Id) returns (more: seq<Step>)
    requires RowInvariant(s) && x in s.tickets && s.tickets[x].status != TicketStatus.Archived
    ensures OnlyMoves(s, Run(s, more), x, Todo)
  {
    hide Run, RowInvariant, OnlyMoves;
    match s.tickets[x].status {
      case Backlog => more := [Move(x, MarkReady)]; PlainMove(s, x, MarkReady);
      case Todo => more := []; StayPut(s, x);
      case InProgress => var a := CancelMoves(s, x); more := [Cancel(a, 0)];
      case Blocked => more := [Move(x, Unblock)]; PlainMove(s, x, Unblock);
      case NeedsReview => more := [Move(x, Reject)]; PlainMove(s, x, Reject);
      case Done => more := [Move(x, Reopen)]; PlainMove(s, x, Reopen);
      case Failed => more := [Move(x, Reopen)]; PlainMove(s, x, Reopen);
    }
  }

  lemma {:induction false} StayPut(s: State, x: Id)
    requires x in s.tickets
    ensures OnlyMoves(s, Run(s, []), x, s.tickets[x].status)
  {
  }

  /** ... and from there, by review, to `done`, whatever it depends on. */
  lemma {:induction false} FinishTicket(s: State, x: Id) returns (more: seq<Step>)
    requires RowInvariant(s) && x in s.tickets && s.tickets[x].status != TicketStatus.Archived
    ensures OnlyMoves(s, Run(s, more), x, Done)
  {
    hide Run, Apply, RowInvariant, Spent;
    var first := OpenTicket(s, x);
    var open := Run(s, first);
    assert x in open.tickets && open.tickets[x].status == Todo;
    PlainMove(open, x, RequestReview);
    MovesCompose(s, first, [Move(x, RequestReview)], x, Todo, NeedsReview);
    var second := first + [Move(x, RequestReview)];
    var reviewed := Run(s, second);
    assert x in reviewed.tickets && reviewed.tickets[x].status == NeedsReview;
    PlainMove(reviewed, x, Approve);
    MovesCompose(s, second, [Move(x, Approve)], x, NeedsReview, Done);
    more := second + [Move(x, Approve)];
  }

  // ----- Preparing a claim -------------------------------------------------------------

  /** The tickets in `rest` are done; everything else about tickets, dependencies and spent attempts
      is as before. */
  ghost predicate Prepared(s: State, s': State, rest: set<Id>) {
    && s'.tickets.Keys == s.tickets.Keys && s'.dependencies == s.dependencies
    && (forall y :: Spent(s', y) == Spent(s, y))
    && (forall x :: x in s.tickets ==> if x in rest then s'.tickets[x].status == Done else s'.tickets[x] == s.tickets[x])
  }

  lemma {:induction false} PreparedExtends(s: State, m: State, s': State, rest: set<Id>, x: Id)
    requires Prepared(s, m, rest) && x in s.tickets && x !in rest && OnlyMoves(m, s', x, Done)
    ensures Prepared(s, s', rest + {x})
  {
    hide Spent;
  }

  lemma {:induction false} FinishAll(s: State, rest: set<Id>) returns (more: seq<Step>)
    requires RowInvariant(s) && forall x :: x in rest ==> x in s.tickets && s.tickets[x].status != TicketStatus.Archived
    ensures Prepared(s, Run(s, more), rest)
    decreases |rest|
  {
    hide Apply, RowInvariant, Run, Prepared, OnlyMoves;
    if rest == {} {
      more := [];
      NothingToPrepare(s);
    } else {
      var x :| x in rest;
      var before := FinishAll(s, rest - {x});
      var m := Run(s, before);
      RunKeepsRows(s, before);
      PreparedKeeps(s, m, rest - {x}, x);
      var next := FinishTicket(m, x);
      RunSplits(s, before, next);
      PreparedExtends(s, m, Run(m, next), rest - {x}, x);
      assert rest - {x} + {x} == rest;
      more := before + next;
    }
  }

  lemma {:induction false} NothingToPrepare(s: State)
    ensures Prepared(s, Run(s, []), {})
  {
  }

  lemma {:induction false} Listed(items: set<string>) returns (list: seq<string>)
    ensures forall x :: x in list <==> x in items
    decreases |items|
  {
    list := [];
    if items != {} {
      var x :| x in items;
      var rest := Listed(items - {x});
      list := rest + [x];
    }
  }

  lemma {:induction false} UnusedId(used: set<Id>) returns (id: Id)
    ensures id !in used && forall x :: x in used ==> x < id
    decreases |used|
  {
    id := 0;
    if used != {} {
      var x :| x in used;
      var bound := UnusedId(used - {x});
      id := if x < bound then bound else x + 1;
      forall y | y in used ensures y < id { assert y == x || y in used - {x}; }
    }
  }

  /** No other ticket is in `todo`. */
  ghost predicate AloneInTodo(s: State, t: Id) {
    forall x :: x in s.tickets && x != t ==> s.tickets[x].status != Todo
  }

  /** A request that claims, with no row locked, a ticket alone in `todo` with its dependencies done and
      attempts left. */
  lemma {:induction false} ClaimReady(s: State, t: Id) returns (claim: Step)
    requires t in s.tickets && s.tickets[t].status == Todo && DependenciesDone(s, t) && !Exhausted(s, t)
    requires "" !in s.tickets[t].harnesses && AloneInTodo(s, t)
    ensures claim.Claim? && claim.ticket == t && claim.locked == {} && CanClaim(s, claim.claim, {}, t, claim.attempt)
  {
    var row := s.tickets[t];
    var harness := "any";
    if row.harnesses != {} { harness :| harness in row.harnesses; }
    var capabilities := Listed(row.capabilities);
    var attempt := UnusedId(s.attempts.Keys);
    var r := ClaimRequest(row.workspace, row.project, "", None, harness, Some(capabilities), "agent", "", SECOND, "", 0);
    assert Elements(r.tags) == {} && Elements(r.capabilities) == row.capabilities;
    assert Eligible(s, r, t);
    assert EligibleTickets(s, r) - {} == {t};
    claim := Claim(r, {}, t, attempt, 0);
  }

  lemma {:induction false} ClaimAppends(s: State, claim: Step)
    requires claim.Claim? && CanClaim(s, claim.claim, claim.locked, claim.ticket, claim.attempt)
    ensures Apply(s, claim).events == s.events + [Event(claim.ticket, Some(claim.attempt), EventKind.Claimed, None)]
  {
  }

  /** Everything but `t` that is not archived. */
  ghost function Unarchived(s: State, t: Id): set<Id> {
    set x | x in s.tickets && x != t && s.tickets[x].status != TicketStatus.Archived
  }

  lemma {:induction false} NotItsOwnDependency(s: State, t: Id)
    requires DependenciesSound(s)
    ensures (t, t) !in s.dependencies
  {
    if (t, t) in s.dependencies { assert ClosedWalk(s.dependencies, [t, t]); }
  }

  lemma {:induction false} ReadyAfter(s: State, m: State, s': State, t: Id)
    requires Revivable(s, t) && (t, t) !in s.dependencies
    requires Prepared(s, m, Unarchived(s, t)) && OnlyMoves(m, s', t, Todo)
    ensures t in s'.tickets && s'.tickets[t] == s.tickets[t].(status := Todo)
    ensures DependenciesDone(s', t) && !Exhausted(s', t) && AloneInTodo(s', t)
  {
    hide Spent;
    forall d | d in s'.tickets && (t, d) in s'.dependencies ensures s'.tickets[d].status == Done {
      assert (t, d) in s.dependencies && d in s.tickets;
    }
  }

  /** The run ends in a claim of `t` that takes effect with no row locked. */
  ghost predicate EndsInFreeClaim(s: State, more: seq<Step>, t: Id) {
    && more != [] && var claim := more[|more| - 1];
    && claim.Claim? && claim.ticket == t && claim.locked == {}
    && CanClaim(Run(s, more[..|more| - 1]), claim.claim, {}, t, claim.attempt)
  }

  /** A run that claims a revivable ticket: finish every other ticket that can be finished, open this one,
      claim it. */
  lemma {:induction false} RevivableIsClaimed(s: State, t: Id) returns (more: seq<Step>)
    requires RowInvariant(s) && DependenciesSound(s) && Revivable(s, t)
    ensures ClaimedSince(s, Run(s, more), t) && EndsInFreeClaim(s, more, t)
  {
    NotItsOwnDependency(s, t);
    assert TicketInvariant(s, t);
    hide Apply, RowInvariant, Run, Cyclic, Prepared, OnlyMoves, Exhausted, DependenciesDone, CanClaim, TicketAgrees, WithinBudget, TicketTriaged,
         AloneInTodo, WaitsForArchived;
    var rest := Unarchived(s, t);
    var first := FinishAll(s, rest);
    var m := Run(s, first);
    PreparedKeeps(s, m, rest, t);
    RunKeepsRows(s, first);
    var second := OpenTicket(m, t);
    var ready := Run(m, second);
    RunKeepsRows(m, second);
    ReadyAfter(s, m, ready, t);
    var claim := ClaimReady(ready, t);
    ClaimAppends(ready, claim);
    RunsOn(s, first, second, claim);
    RunSplits(s, first, second);
    more := first + second + [claim];
    assert more[..|more| - 1] == first + second;
    assert Run(s, more).events[|ready.events|].ticket == t;
  }

  lemma {:induction false} PreparedKeeps(s: State, m: State, rest: set<Id>, t: Id)
    requires Prepared(s, m, rest) && t in s.tickets && t !in rest
    ensures t in m.tickets && m.tickets[t] == s.tickets[t]
  {
  }

  lemma {:induction false} RunsOn(s: State, first: seq<Step>, second: seq<Step>, step: Step)
    ensures Run(s, first + second + [step]) == Apply(Run(Run(s, first), second), step)
  {
    hide Apply;
    RunSplits(s, first, second);
    assert (first + second + [step])[..|first + second|] == first + second;
  }

  // ----- The exact conditions ----------------------------------------------------------

  /** A stored ticket can be claimed in some later run if and only if it is not archived, has
      attempts left, and none of its direct dependencies is archived; and then by a claim that no
      lock helps. */
  lemma {:induction false} ClaimableExactly(steps: seq<Step>, t: Id)
    requires t in Run(EMPTY, steps).tickets
    ensures (exists more :: ClaimedSince(Run(EMPTY, steps), Run(EMPTY, steps + more), t)) <==> Revivable(Run(EMPTY, steps), t)
    ensures Revivable(Run(EMPTY, steps), t) ==> exists more :: EndsInFreeClaim(Run(EMPTY, steps), more, t)
  {
    ReachableRows(steps);
    DependenciesNeverCycle(steps);
    var s := Run(EMPTY, steps);
    hide Apply, RowInvariant, DependenciesSound, Run, Revivable, ClaimedSince, EndsInFreeClaim;
    if Revivable(s, t) {
      var more := RevivableIsClaimed(s, t);
      RunSplits(EMPTY, steps, more);
      assert ClaimedSince(s, Run(EMPTY, steps + more), t);
    } else {
      forall more ensures !ClaimedSince(s, Run(EMPTY, steps + more), t) {
        RunSplits(EMPTY, steps, more);
        LostIsNotClaimed(s, more, t);
      }
    }
  }

  /** A stored ticket can be done in some later run if and only if it is not archived: review needs
      no dependency, so an archived ticket strands those that depend on it directly and no others. */
  lemma {:induction false} FinishableExactly(steps: seq<Step>, t: Id)
    requires t in Run(EMPTY, steps).tickets
    ensures (exists more :: IsDone(Run(EMPTY, steps + more), t)) <==> Run(EMPTY, steps).tickets[t].status != TicketStatus.Archived
  {
    ReachableRows(steps);
    var s := Run(EMPTY, steps);
    hide Apply, RowInvariant, Run;
    if s.tickets[t].status != TicketStatus.Archived {
      var more := FinishTicket(s, t);
      RunSplits(EMPTY, steps, more);
      assert IsDone(Run(EMPTY, steps + more), t);
    } else {
      forall more ensures !IsDone(Run(EMPTY, steps + more), t) { EndedStaysEnded(steps, more); }
    }
  }

  ghost predicate IsDone(s: State, t: Id) {
    t in s.tickets && s.tickets[t].status == Done
  }

  /** An archived ticket two dependencies away does not keep a ticket from being claimed. */
  lemma {:induction false} ArchivedFartherOffDoesNotStrand(steps: seq<Step>, t: Id, d: Id, e: Id)
    requires var s := Run(EMPTY, steps);
             Revivable(s, t) && Unmet(s, t, d) && Unmet(s, d, e) && s.tickets[e].status == TicketStatus.Archived
    ensures exists more :: ClaimedSince(Run(EMPTY, steps), Run(EMPTY, steps + more), t)
  {
    ClaimableExactly(steps, t);
  }

  // Such a state: 2 waits for 1, 1 waits for 0, and 0 is archived.

  const CHAIN := [Create(0, CREATE_ONE, false, 0), Create(1, CREATE_ONE.(dependencies := [0]), false, 0),
                  Create(2, CREATE_ONE.(dependencies := [1]), false, 0), Move(0, Archive)]

  lemma {:induction false} CreateWaiting(s: State, id: Id, d: Id)
    requires id !in s.tickets && d in s.tickets && s.tickets[d] == ONE
    ensures var s' := Apply(s, Create(id, CREATE_ONE.(dependencies := [d]), false, 0));
            s'.tickets == s.tickets[id := ONE] && s'.dependencies == s.dependencies + {(id, d)} && s'.attempts == s.attempts
  {
    var none: set<string> := {};
    assert none - {""} == none;
    var r := CREATE_ONE.(dependencies := [d]);
    assert CreationRow(r, false, 0) == Ok(ONE);
    assert DependencyRows(id, [d]) == {(id, d)};
    hide CreationRow;
  }

  lemma {:induction false} ArchiveOne(s: State, id: Id)
    requires id in s.tickets && s.tickets[id] == ONE
    ensures var s' := Apply(s, Move(id, Archive));
            && s'.tickets == s.tickets[id := ONE.(status := TicketStatus.Archived)]
            && s'.dependencies == s.dependencies && s'.attempts == s.attempts
  {
  }

  lemma {:induction false} ChainExample()
    ensures var s := Run(EMPTY, CHAIN);
            && Revivable(s, 2) && Unmet(s, 2, 1) && Unmet(s, 1, 0) && s.tickets[0].status == TicketStatus.Archived
            && exists more :: ClaimedSince(s, Run(EMPTY, CHAIN + more), 2)
  {
    hide Apply, Run, ClaimedSince;
    CreateOne();
    RunPrefix(CHAIN, 0);
    RunPrefix(CHAIN, 1);
    CreateWaiting(Run(EMPTY, CHAIN[..1]), 1, 0);
    RunPrefix(CHAIN, 2);
    CreateWaiting(Run(EMPTY, CHAIN[..2]), 2, 1);
    RunPrefix(CHAIN, 3);
    ArchiveOne(Run(EMPTY, CHAIN[..3]), 0);
    assert CHAIN[..4] == CHAIN;
    var s := Run(EMPTY, CHAIN);
    assert SpentAttempts(s, 2) == {};
    ArchivedFartherOffDoesNotStrand(CHAIN, 2, 1, 0);
  }
}
