/** The stored tables as one mutable object. Each method is one SQL statement, its common table
    expressions written out as table updates, and is proved to take the step of the same name. */
module Database {
  import opened Basics
  import opened Ledger
  import opened LedgerRecords
  import opened LedgerLaws
  import Ordering
  import Graph

  class Store {
    var tickets: map<Id, Ticket>
    var attempts: map<Id, Attempt>
    var dependencies: set<(Id, Id)>
    var idempotency: map<IdempotencyKey, IdempotencyRecord>
    var metrics: map<Id, Metrics>
    var checkpoints: seq<Checkpoint>
    var events: seq<Event>

    /** The contents of all tables: the snapshot a statement reads. */
    function View(): State
      reads this
    {
      State(tickets, attempts, dependencies, idempotency, metrics, checkpoints, events)
    }

    constructor ()
      ensures View() == EMPTY
    {
      tickets, attempts, dependencies := map[], map[], {};
      idempotency, metrics, checkpoints, events := map[], map[], [], [];
    }

    // ----- Ending an attempt ---------------------------------------------------------

    /** The updated_attempt, updated_ticket and event parts common to the five statements. */
    method EndAttempt(id: Id, ended: AttemptStatus, status: TicketStatus, kind: EventKind, now: Time)
      requires id in attempts && attempts[id].ticket in tickets
      modifies this
      ensures View() == Ledger.EndAttempt(old(View()), id, ended, status, kind, now)
    {
      var a := attempts[id];
      attempts := attempts[id := a.(status := ended, completedAt := Some(now))];
      if ended == Succeeded {
        attempts := attempts[id := attempts[id].(progress := 100)];
      }
      tickets := tickets[a.ticket := tickets[a.ticket].(status := status)];
      events := events + [Event(a.ticket, Some(id), kind, Some(status))];
    }

    /** Returns the ticket status the statement selects, or nothing when no row matched. */
    method CompleteAttempt(id: Id, now: Time) returns (row: Option<TicketStatus>)
      modifies this
      ensures View() == Ledger.CompleteAttempt(old(View()), id, now)
      ensures row.Some? <==> CanEnd(old(View()), id)
    {
      if id !in attempts || attempts[id].status != Running || attempts[id].ticket !in tickets {
        return None;
      }
      var status := SuccessStatus(tickets[attempts[id].ticket]);
      EndAttempt(id, Succeeded, status, Completed, now);
      row := Some(status);
    }

    /** The count is taken before any table is written: one snapshot per statement. */
    method FailAttempt(id: Id, now: Time) returns (row: Option<TicketStatus>)
      modifies this
      ensures View() == Ledger.FailAttempt(old(View()), id, now)
      ensures row.Some? <==> CanEnd(old(View()), id)
    {
      if id !in attempts || attempts[id].status != Running || attempts[id].ticket !in tickets {
        return None;
      }
      var ticket := attempts[id].ticket;
      var counted := CountSpent(ticket);
      var status := FailureStatus(tickets[ticket], counted);
      EndAttempt(id, AttemptStatus.Failed, status, EventKind.Failed, now);
      row := Some(status);
    }

    method BlockAttempt(id: Id, now: Time) returns (row: Option<TicketStatus>)
      modifies this
      ensures View() == Ledger.BlockAttempt(old(View()), id, now)
      ensures row.Some? <==> CanEnd(old(View()), id)
    {
      if id !in attempts || attempts[id].status != Running || attempts[id].ticket !in tickets {
        return None;
      }
      EndAttempt(id, AttemptStatus.Blocked, TicketStatus.Blocked, EventKind.Blocked, now);
      row := Some(TicketStatus.Blocked);
    }

    method CancelAttempt(id: Id, now: Time) returns (row: Option<TicketStatus>)
      modifies this
      ensures View() == Ledger.CancelAttempt(old(View()), id, now)
      ensures row.Some? <==> CanEnd(old(View()), id)
    {
      if id !in attempts || attempts[id].status != Running || attempts[id].ticket !in tickets {
        return None;
      }
      EndAttempt(id, AttemptStatus.Cancelled, Todo, EventKind.Cancelled, now);
      row := Some(Todo);
    }

    method ExpireAttempt(id: Id, now: Time, cutoff: Time) returns (row: Option<TicketStatus>)
      modifies this
      ensures View() == Ledger.ExpireAttempt(old(View()), id, now, cutoff)
      ensures row.Some? <==> CanEnd(old(View()), id) && old(attempts)[id].lease < cutoff
    {
      if id !in attempts || attempts[id].status != Running || attempts[id].lease >= cutoff
         || attempts[id].ticket !in tickets {
        return None;
      }
      var ticket := attempts[id].ticket;
      var counted := CountSpent(ticket);
      var status := ExpiryStatus(tickets[ticket], counted);
      EndAttempt(id, AttemptStatus.Expired, status, EventKind.Expired, now);
      row := Some(status);
    }

    /** `SELECT count(*) ... status IN ('failed', 'expired')`, row by row. */
    method CountSpent(ticket: Id) returns (n: nat)
      ensures n == Spent(View(), ticket)
    {
      n := 0;
      var rest := attempts.Keys;
      ghost var counted: set<Id> := {};
      while rest != {}
        invariant rest <= attempts.Keys && n == |counted|
        invariant forall a :: a in counted <==> a in SpentAttempts(View(), ticket) && a !in rest
        decreases |rest|
      {
        var a :| a in rest;
        rest := rest - {a};
        if attempts[a].ticket == ticket && Spends(attempts[a].status) {
          n := n + 1;
          counted := counted + {a};
        }
      }
      assert counted == SpentAttempts(View(), ticket);
    }

    /** The service's end of an attempt with its metrics: one transaction. */
    method RecordMetrics(id: Id, m: Option<Metrics>)
      modifies this`metrics
      ensures View() == Ledger.RecordMetrics(old(View()), id, m)
    {
      if m.Some? {
        metrics := metrics[id := m.value];
      }
    }

    // ----- Renewing an attempt -------------------------------------------------------

    method HeartbeatAttempt(id: Id, now: Time, lease: Time)
      modifies this
      ensures View() == Ledger.HeartbeatAttempt(old(View()), id, now, lease)
    {
      if lease > 0 && id in attempts && attempts[id].status == Running {
        attempts := attempts[id := attempts[id].(lease := now + lease, heartbeatAt := now)];
        events := events + [Event(attempts[id].ticket, Some(id), Heartbeat, None)];
      }
    }

    method CheckpointAttempt(id: Id, p: Progress)
      modifies this
      ensures View() == Ledger.CheckpointAttempt(old(View()), id, p)
    {
      if ValidProgress(p) && id in attempts && attempts[id].status == Running {
        var nextStep := OptionalText(p.nextStep);
        attempts := attempts[id := attempts[id].(progress := p.percent, summary := Some(p.summary), nextStep := nextStep)];
        checkpoints := checkpoints + [Checkpoint(id, attempts[id].ticket, p.summary, p.files, p.commands, nextStep, OptionalText(p.risk))];
        events := events + [Event(attempts[id].ticket, Some(id), Checkpointed, None)];
      }
    }

    // ----- Tickets -------------------------------------------------------------------

    method TransitionTicket(id: Id, op: Transition) returns (ok: bool)
      modifies this
      ensures View() == Ledger.TransitionTicket(old(View()), id, op)
      ensures ok <==> CanTransition(old(View()), id, op)
    {
      ok := id in tickets && op.Admitted(View(), id) && tickets[id].status in op.Allowed();
      if ok {
        tickets := tickets[id := tickets[id].(status := op.Target())];
        events := events + [Event(id, None, op.Kind(), Some(op.Target()))];
      }
    }

    method UpdateTicket(id: Id, patch: Patch)
      modifies this
      ensures View() == Ledger.UpdateTicket(old(View()), id, patch)
    {
      if ValidPatch(patch) && id in tickets {
        var t := tickets[id];
        if patch.title.Some? { t := t.(title := patch.title.value); }
        if patch.description.Some? { t := t.(description := patch.description.value); }
        if patch.tags.Some? { t := t.(tags := patch.tags.value); }
        if patch.acceptance.Some? { t := t.(acceptance := patch.acceptance.value); }
        if patch.verification.Some? { t := t.(verification := patch.verification.value); }
        if patch.paths.Some? { t := t.(paths := patch.paths.value); }
        tickets := tickets[id := t];
        events := events + [Event(id, None, Updated, None)];
      }
    }

    /** `CreateTicket`: one row; its primary key must be new, and its links stored. */
    method InsertTicket(id: Id, row: Ticket) returns (ok: bool)
      modifies this`tickets
      ensures ok <==> id !in old(tickets) && LinksStorable(old(View()), row)
      ensures View() == if ok then old(View()).(tickets := old(tickets)[id := row]) else old(View())
    {
      ok := id !in tickets && LinksStorable(View(), row);
      if ok {
        tickets := tickets[id := row];
      }
    }

    /** `CreateTicketDependency`, with the table's check, foreign keys and primary key. */
    method InsertDependency(id: Id, d: Id) returns (ok: bool)
      requires id in tickets
      modifies this`dependencies
      ensures ok <==> id != d && (id, d) !in old(dependencies)
                      && InScope(View(), tickets[id].workspace, tickets[id].project, d)
      ensures View() == if ok then old(View()).(dependencies := old(dependencies) + {(id, d)}) else old(View())
    {
      ok := id != d && (id, d) !in dependencies && InScope(View(), tickets[id].workspace, tickets[id].project, d);
      if ok {
        dependencies := dependencies + {(id, d)};
      }
    }

    /** `CreateTicketEvent` */
    method InsertEvent(e: Event)
      modifies this`events
      ensures View() == old(View()).(events := old(events) + [e])
    {
      events := events + [e];
    }

    /** ROLLBACK to the state in which the transaction began. */
    method Rollback(saved: State)
      modifies this
      ensures View() == saved
    {
      tickets, attempts, dependencies := saved.tickets, saved.attempts, saved.dependencies;
      idempotency, metrics := saved.idempotency, saved.metrics;
      checkpoints, events := saved.checkpoints, saved.events;
    }

    // ----- Claims --------------------------------------------------------------------

    /** The candidate query: least by priority, then creation time, among eligible unlocked rows. */
    method FindCandidate(r: ClaimRequest, locked: set<Id>) returns (found: Option<Id>)
      ensures found.Some? ==> IsCandidate(View(), r, locked, found.value)
      ensures found.None? ==> EligibleTickets(View(), r) - locked == {}
      ensures match found
              case Some(id) =>
                && Suits(View(), r, id) && id !in locked
                && forall other :: other in tickets && other !in locked && Suits(View(), r, other) ==> GoesFirst(View(), id, other)
              case None => forall other :: other in tickets && Suits(View(), r, other) ==> other in locked
    {
      found := ScanCandidates(r, locked);
      hide Suits, Eligible;
      match found
      case Some(id) => CandidateExactly(View(), r, locked, id);
      case None =>
        forall other | other in tickets && Suits(View(), r, other) ensures other in locked {
          EligibleExactly(View(), r, other);
          assert other in locked || other in EligibleTickets(View(), r) - locked;
        }
    }

    method ScanCandidates(r: ClaimRequest, locked: set<Id>) returns (found: Option<Id>)
      ensures found.Some? ==> IsCandidate(View(), r, locked, found.value)
      ensures found.None? ==> EligibleTickets(View(), r) - locked == {}
    {
      found := None;
      var rest := tickets.Keys;
      while rest != {}
        invariant rest <= tickets.Keys
        invariant found.Some? ==> found.value in EligibleTickets(View(), r) - locked
        invariant found.Some? ==> forall x :: x in EligibleTickets(View(), r) - locked && x !in rest ==> ClaimsNoLater(View(), found.value, x)
        invariant found.None? ==> EligibleTickets(View(), r) - locked <= rest
        decreases |rest|
      {
        var x :| x in rest;
        rest := rest - {x};
        if x !in locked && Eligible(View(), r, x) {
          if found.None? || !ClaimsNoLater(View(), found.value, x) {
            found := Some(x);
          }
        }
      }
    }

    /** The updated_ticket, created_attempt, claimed_event and stored_idempotency parts. */
    method WriteClaim(r: ClaimRequest, ghost locked: set<Id>, ticket: Id, attempt: Id, now: Time)
      requires CanClaim(View(), r, locked, ticket, attempt)
      modifies this
      ensures View() == Ledger.ClaimNextTicket(old(View()), r, locked, ticket, attempt, now)
    {
      tickets := tickets[ticket := tickets[ticket].(status := InProgress)];
      attempts := attempts[attempt := ClaimedAttempt(r, ticket, now)];
      events := events + [Event(ticket, Some(attempt), EventKind.Claimed, None)];
      if r.key != "" {
        idempotency := idempotency[KeyOf(r) := ClaimRecord(r, ticket, attempt, now)];
      }
    }

    /** `ClaimNextTicket`: the ticket, attempt, event and idempotency parts, or none of them. The
        ticket taken is returned; a key that already has a record aborts the statement. */
    method ClaimNextTicket(r: ClaimRequest, locked: set<Id>, attempt: Id, now: Time) returns (outcome: ClaimOutcome)
      requires ValidClaim(r) && r.lease <= MAX_CLAIM_LEASE && attempt !in attempts
      modifies this
      ensures outcome.Claimed? ==>
                && outcome.attempt == attempt && CanClaim(old(View()), r, locked, outcome.ticket, attempt)
                && View() == Ledger.ClaimNextTicket(old(View()), r, locked, outcome.ticket, attempt, now)
      ensures !outcome.Claimed? ==> View() == old(View())
      ensures outcome == NoneClaimable <==> old(EligibleTickets(View(), r)) - locked == {}
      ensures outcome == KeyTaken <==> old(EligibleTickets(View(), r)) - locked != {} && r.key != "" && KeyOf(r) in old(idempotency)
      ensures outcome.Claimed? || outcome == NoneClaimable || outcome == KeyTaken
      ensures outcome.Claimed? ==>
                var s, id := old(View()), outcome.ticket;
                && Suits(s, r, id) && id !in locked
                && forall other :: other in s.tickets && other !in locked && Suits(s, r, other) ==> GoesFirst(s, id, other)
      ensures outcome == NoneClaimable <==>
              forall other :: other in old(tickets) && Suits(old(View()), r, other) ==> other in locked
    {
      hide Suits, Eligible;
      var found := FindCandidate(r, locked);
      if found.None? {
        return NoneClaimable;
      }
      var ticket := found.value;
      assert ticket in EligibleTickets(View(), r) && ticket !in locked;
      if r.key != "" && KeyOf(r) in idempotency {
        return KeyTaken;
      }
      WriteClaim(r, locked, ticket, attempt, now);
      outcome := ClaimOutcome.Claimed(ticket, attempt);
    }

    method DeleteExpiredIdempotencyKeys(now: Time) returns (deleted: nat)
      modifies this`idempotency
      ensures View() == Ledger.DeleteExpiredIdempotencyKeys(old(View()), now)
      ensures deleted == |old(idempotency)| - |idempotency|
    {
      var kept := map k | k in idempotency && idempotency[k].expiresAt >= now :: idempotency[k];
      assert kept.Keys + (idempotency.Keys - kept.Keys) == idempotency.Keys;
      deleted := |idempotency.Keys - kept.Keys|;
      idempotency := kept;
    }

    /** Running attempts whose lease ended before `now`, oldest lease first: all of them, unless the
        limit is reached, and then none that ended later than one left out. */
    method ListExpiredRunningAttempts(now: Time, limit: nat) returns (list: seq<Id>)
      ensures Ordering.Smallest(ExpiredRunning(View(), now), LeaseOf(View()), limit, list)
      ensures ListsExpired(View(), now, limit, list)
    {
      list := Ordering.FirstBy(ExpiredRunning(View(), now), LeaseOf(View()), limit);
      SmallestListsExpired(View(), now, limit, list);
    }
  }

  function ExpiredRunning(s: State, now: Time): set<Id> {
    set a | a in s.attempts && s.attempts[a].status == Running && s.attempts[a].lease < now
  }

  /** The list holds running attempts whose lease has passed, each once; one that it leaves out is no
      older than any it holds, and means that it is full. */
  ghost predicate ListsExpired(s: State, now: Time, limit: nat, list: seq<Id>) {
    && |list| <= limit && (forall i, j :: 0 <= i < j < |list| ==> list[i] != list[j])
    && (forall b :: b in list ==> b in s.attempts && s.attempts[b].status == Running && s.attempts[b].lease < now)
    && (forall a :: a in s.attempts && s.attempts[a].status == Running && s.attempts[a].lease < now && a !in list ==>
          |list| == limit && forall b :: b in list ==> b in s.attempts && s.attempts[b].lease <= s.attempts[a].lease)
  }

  lemma {:induction false} SmallestListsExpired(s: State, now: Time, limit: nat, list: seq<Id>)
    requires Ordering.Smallest(ExpiredRunning(s, now), LeaseOf(s), limit, list)
    ensures ListsExpired(s, now, limit, list)
  {
    var items, key := ExpiredRunning(s, now), LeaseOf(s);
    forall a | a in s.attempts && s.attempts[a].status == Running && s.attempts[a].lease < now && a !in list
      ensures |list| == limit && forall b :: b in list ==> b in s.attempts && s.attempts[b].lease <= s.attempts[a].lease
    {
      assert a in items;
      FullOrComplete(items, key, limit, list, a);
      forall b | b in list ensures b in s.attempts && s.attempts[b].lease <= s.attempts[a].lease { assert key(b) <= key(a); }
    }
  }

  /** A list that leaves out a row is full. */
  lemma {:induction false} FullOrComplete(items: set<Id>, key: Id -> int, limit: nat, list: seq<Id>, a: Id)
    requires Ordering.Smallest(items, key, limit, list) && a in items && a !in list
    ensures |list| == limit
  {
    var listed := set x | x in list;
    Graph.DistinctLength(list);
    assert listed <= items - {a};
    Graph.SubsetSize(listed, items - {a});
  }

  function LeaseOf(s: State): Id -> Time {
    (a: Id) => if a in s.attempts then s.attempts[a].lease else 0
  }
}
