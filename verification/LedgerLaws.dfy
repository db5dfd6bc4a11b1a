/** What each step of the ledger writes, column by column. These laws name no function that decides a
    step, so they can be held against the statements and the service checks directly. */
module LedgerLaws {
  import opened Basics
  import opened Ledger
  import Graph

  // ----- Claims ------------------------------------------------------------------------

  /** The attempts of a ticket that failed or expired. */
  ghost function SpentRows(s: State, id: Id): set<Id> {
    set a | a in s.attempts && s.attempts[a].ticket == id
            && (s.attempts[a].status == AttemptStatus.Failed || s.attempts[a].status == AttemptStatus.Expired)
  }

  /** The limit in a ticket's retry policy; three where it names none. */
  function AttemptLimit(t: Ticket): int {
    match t.policy.maxAttempts
    case Some(n) => n
    case None => 3
  }

  /** What a request asks of a ticket's rows. */
  ghost predicate Suits(s: State, r: ClaimRequest, id: Id) {
    && id in s.tickets
    && var t := s.tickets[id];
    && t.workspace == r.workspace && t.project == r.project && t.status == Todo
    && (r.kind != "" ==> t.kind == r.kind)
    && (r.tags.Some? && r.tags.value != [] ==> exists i :: 0 <= i < |r.tags.value| && r.tags.value[i] in t.tags)
    && (t.harnesses != {} ==> r.harness in t.harnesses)
    && (forall c :: c in t.capabilities ==> r.capabilities.Some? && c in r.capabilities.value)
    && (forall d :: d in s.tickets && (id, d) in s.dependencies ==> s.tickets[d].status == Done)
    && |SpentRows(s, id)| < AttemptLimit(t)
  }

  lemma {:induction false} EligibleExactly(s: State, r: ClaimRequest, id: Id)
    ensures Eligible(s, r, id) <==> Suits(s, r, id)
  {
    assert SpentRows(s, id) == SpentAttempts(s, id);
    if id in s.tickets && r.tags.Some? {
      var t := s.tickets[id];
      if t.tags * Elements(r.tags) != {} {
        var tag :| tag in t.tags * Elements(r.tags);
        assert tag in r.tags.value;
      }
      if r.tags.value != [] {
        assert r.tags.value[0] in Elements(r.tags);
        if exists i :: 0 <= i < |r.tags.value| && r.tags.value[i] in t.tags {
          var i :| 0 <= i < |r.tags.value| && r.tags.value[i] in t.tags;
          assert r.tags.value[i] in t.tags * Elements(r.tags);
        }
      }
    }
  }

  /** Lower numbers are more urgent; among equals the older ticket goes first. */
  ghost predicate GoesFirst(s: State, id: Id, other: Id)
    requires id in s.tickets && other in s.tickets
  {
    var t, u := s.tickets[id], s.tickets[other];
    t.priority <= u.priority && (t.priority == u.priority ==> t.createdAt <= u.createdAt)
  }

  lemma {:induction false} CandidateExactly(s: State, r: ClaimRequest, locked: set<Id>, id: Id)
    ensures IsCandidate(s, r, locked, id) <==>
            && Suits(s, r, id) && id !in locked
            && forall other :: other in s.tickets && other !in locked && Suits(s, r, other) ==> GoesFirst(s, id, other)
  {
    forall x ensures Eligible(s, r, x) <==> Suits(s, r, x) { EligibleExactly(s, r, x); }
    hide Eligible, Suits;
    if IsCandidate(s, r, locked, id) {
      forall other | other in s.tickets && other !in locked && Suits(s, r, other) ensures GoesFirst(s, id, other) {
        assert other in EligibleTickets(s, r) - locked;
      }
    } else if Suits(s, r, id) && id !in locked {
      assert id in EligibleTickets(s, r) - locked;
    }
  }

  predicate KnownKind(kind: string) {
    kind in {"feature", "task", "bug", "documentation", "research", "analysis", "planning", "review", "integration",
             "investigation", "cleanup", "follow_up", "custom"}
  }

  /** Which claim requests are valid; and the longest lease the policy grants is a day. */
  lemma {:induction false} ValidClaimExactly(r: ClaimRequest)
    ensures ValidClaim(r) <==>
            r.agent != "" && r.harness != "" && r.lease > 0 && r.ttl >= 0 && (r.kind == "" || KnownKind(r.kind))
    ensures MAX_CLAIM_LEASE == 24 * 3600 * SECOND
  {
  }

  /** When the claim statement inserts its rows. */
  lemma {:induction false} CanClaimExactly(s: State, r: ClaimRequest, locked: set<Id>, ticket: Id, attempt: Id)
    ensures CanClaim(s, r, locked, ticket, attempt) <==>
            && r.agent != "" && r.harness != "" && (r.kind == "" || KnownKind(r.kind))
            && 0 < r.lease <= 24 * 3600 * SECOND && r.ttl >= 0
            && IsCandidate(s, r, locked, ticket) && attempt !in s.attempts
            && (r.key == "" || IdempotencyKey(r.workspace, r.agent, r.key) !in s.idempotency)
  {
    hide IsCandidate;
  }

  /** The rows of a claim. The lease runs from the claim; a keyed claim is remembered for its own
      lifetime, or a day. */
  lemma {:induction false} ClaimWrites(s: State, r: ClaimRequest, locked: set<Id>, ticket: Id, attempt: Id, now: Time)
    requires CanClaim(s, r, locked, ticket, attempt)
    ensures ticket in s.tickets
    ensures var s' := Apply(s, Claim(r, locked, ticket, attempt, now));
            && s'.tickets == s.tickets[ticket := s.tickets[ticket].(status := InProgress)]
            && s'.attempts == s.attempts[attempt := Attempt(ticket, r.agent, r.harness, Running, now + r.lease, now, 0, None, None, None)]
            && s'.events == s.events + [Event(ticket, Some(attempt), Claimed, None)]
            && s'.dependencies == s.dependencies && s'.metrics == s.metrics && s'.checkpoints == s.checkpoints
            && (r.key == "" ==> s'.idempotency == s.idempotency)
            && (r.key != "" ==>
                  var record := IdempotencyRecord(
                    ClaimPayload(r.workspace, r.project, r.kind, r.tags, r.harness, r.capabilities, r.agent, r.model, r.lease / SECOND),
                    ticket, attempt, now + (if r.ttl == 0 then 24 * 3600 * SECOND else r.ttl));
                  s'.idempotency == s.idempotency[IdempotencyKey(r.workspace, r.agent, r.key) := record])
  {
    hide Eligible, ClaimsNoLater;
  }

  // ----- Ends of attempts --------------------------------------------------------------

  predicate NonNegative(m: Metrics) {
    m.tokensIn >= 0 && m.tokensOut >= 0 && m.costUsd >= 0.0 && m.durationSeconds >= 0.0 && m.retryCount >= 0
  }

  /** The attempt runs, and the metrics that come with its end, if any, have no negative member. */
  predicate Endable(s: State, a: Id, m: Option<Metrics>) {
    && a in s.attempts && s.attempts[a].status == Running && s.attempts[a].ticket in s.tickets
    && (m.Some? ==> NonNegative(m.value))
  }

  /** Attempt, ticket, event and metrics of an end; nothing else changes. */
  ghost predicate Ended(s: State, s': State, a: Id, row: Attempt, to: TicketStatus, kind: EventKind, m: Option<Metrics>)
    requires a in s.attempts && s.attempts[a].ticket in s.tickets
  {
    var t := s.attempts[a].ticket;
    s' == s.(attempts := s.attempts[a := row],
             tickets := s.tickets[t := s.tickets[t].(status := to)],
             events := s.events + [Event(t, Some(a), kind, Some(to))],
             metrics := match m { case Some(v) => s.metrics[a := v] case None => s.metrics })
  }

  /** A success is done, or goes to review where the policy requires it; its progress is complete. */
  lemma {:induction false} CompleteWrites(s: State, a: Id, m: Option<Metrics>, now: Time)
    ensures var s' := Apply(s, Complete(a, m, now));
            if !Endable(s, a, m) then s' == s
            else
              var policy := s.tickets[s.attempts[a].ticket].policy;
              Ended(s, s', a, s.attempts[a].(status := Succeeded, completedAt := Some(now), progress := 100),
                    if policy.requiresReview == Some(true) then NeedsReview else Done, Completed, m)
  {
  }

  /** A failure goes where the policy says; where it says nothing, to `failed` if the attempts that had
      failed or expired before it fill the limit, else back to `todo`. */
  lemma {:induction false} FailWrites(s: State, a: Id, m: Option<Metrics>, now: Time)
    ensures var s' := Apply(s, Fail(a, m, now));
            if !Endable(s, a, m) then s' == s
            else
              var id := s.attempts[a].ticket;
              var t := s.tickets[id];
              var to :=
                if t.policy.onFailure == Some("mark_failed") then TicketStatus.Failed
                else if t.policy.onFailure == Some("needs_review") then NeedsReview
                else if |SpentRows(s, id)| < AttemptLimit(t) then Todo else TicketStatus.Failed;
              Ended(s, s', a, s.attempts[a].(status := AttemptStatus.Failed, completedAt := Some(now)), to, EventKind.Failed, m)
  {
    if Endable(s, a, m) { assert SpentRows(s, s.attempts[a].ticket) == SpentAttempts(s, s.attempts[a].ticket); }
  }

  lemma {:induction false} BlockWrites(s: State, a: Id, m: Option<Metrics>, now: Time)
    ensures var s' := Apply(s, Block(a, m, now));
            if !Endable(s, a, m) then s' == s
            else Ended(s, s', a, s.attempts[a].(status := AttemptStatus.Blocked, completedAt := Some(now)),
                       TicketStatus.Blocked, EventKind.Blocked, m)
  {
  }

  lemma {:induction false} CancelWrites(s: State, a: Id, now: Time)
    ensures var s' := Apply(s, Cancel(a, now));
            if !Endable(s, a, None) then s' == s
            else Ended(s, s', a, s.attempts[a].(status := AttemptStatus.Cancelled, completedAt := Some(now)),
                       Todo, EventKind.Cancelled, None)
  {
  }

  lemma {:induction false} ExpireWrites(s: State, a: Id, now: Time, cutoff: Time)
    ensures var s' := Apply(s, Expire(a, now, cutoff));
            if !Endable(s, a, None) || s.attempts[a].lease >= cutoff then s' == s
            else
              var id := s.attempts[a].ticket;
              Ended(s, s', a, s.attempts[a].(status := AttemptStatus.Expired, completedAt := Some(now)),
                    if |SpentRows(s, id)| < AttemptLimit(s.tickets[id]) then Todo else TicketStatus.Failed, EventKind.Expired, None)
  {
    if Endable(s, a, None) { assert SpentRows(s, s.attempts[a].ticket) == SpentAttempts(s, s.attempts[a].ticket); }
  }

  // ----- Renewals and notes ------------------------------------------------------------

  lemma {:induction false} BeatWrites(s: State, a: Id, now: Time, lease: Time)
    ensures var s' := Apply(s, Beat(a, now, lease));
            if a !in s.attempts || s.attempts[a].status != Running || lease <= 0 then s' == s
            else s' == s.(attempts := s.attempts[a := s.attempts[a].(lease := now + lease, heartbeatAt := now)],
                          events := s.events + [Event(s.attempts[a].ticket, Some(a), Heartbeat, None)])
  {
  }

  /** Text that is stored as null when empty. */
  predicate StoredText(stored: Option<string>, text: string) {
    if text == "" then stored == None else stored == Some(text)
  }

  lemma {:induction false} NoteWrites(s: State, a: Id, p: Progress)
    ensures var s' := Apply(s, Note(a, p));
            if a !in s.attempts || s.attempts[a].status != Running || p.summary == "" || p.percent < 0 || p.percent > 100 then s' == s
            else
              && |s'.checkpoints| == |s.checkpoints| + 1 && a in s'.attempts
              && var row, note := s'.attempts[a], s'.checkpoints[|s.checkpoints|];
              && row == s.attempts[a].(progress := p.percent, summary := Some(p.summary), nextStep := note.nextStep)
              && note == Checkpoint(a, row.ticket, p.summary, p.files, p.commands, note.nextStep, note.risk)
              && StoredText(note.nextStep, p.nextStep) && StoredText(note.risk, p.risk)
              && s' == s.(attempts := s.attempts[a := row], checkpoints := s.checkpoints + [note],
                          events := s.events + [Event(row.ticket, Some(a), Checkpointed, None)])
  {
  }

  // ----- Ticket transitions ------------------------------------------------------------

  /** The status of one ticket moves, and the log says so. */
  ghost predicate Moved(s: State, s': State, id: Id, to: TicketStatus, kind: EventKind)
    requires id in s.tickets
  {
    s' == s.(tickets := s.tickets[id := s.tickets[id].(status := to)],
             events := s.events + [Event(id, None, kind, Some(to))])
  }

  ghost predicate MovesFrom(s: State, id: Id, op: Transition, from: set<TicketStatus>, to: TicketStatus, kind: EventKind) {
    var s' := Apply(s, Move(id, op));
    if id in s.tickets && s.tickets[id].status in from then Moved(s, s', id, to, kind) else s' == s
  }

  /** From where to where the lifecycle operations move a ticket. */
  lemma {:induction false} LifecycleMoves(s: State, id: Id)
    ensures MovesFrom(s, id, MarkReady, {Backlog}, Todo, Ready)
    ensures MovesFrom(s, id, Reopen, {Done, TicketStatus.Failed}, Todo, Reopened)
    ensures MovesFrom(s, id, Unblock, {TicketStatus.Blocked}, Todo, Unblocked)
    ensures MovesFrom(s, id, Archive, {Backlog, Todo, TicketStatus.Blocked, NeedsReview, Done, TicketStatus.Failed},
                      TicketStatus.Archived, EventKind.Archived)
  {
  }

  /** ... and the operations of a review. */
  lemma {:induction false} ReviewMoves(s: State, id: Id)
    ensures MovesFrom(s, id, RequestReview, {TicketStatus.Blocked, Todo, TicketStatus.Failed, Done}, NeedsReview, ReviewRequested)
    ensures MovesFrom(s, id, Approve, {NeedsReview}, Done, Reviewed)
    ensures MovesFrom(s, id, Reject, {NeedsReview}, Todo, Reviewed)
  {
  }

  /** A ticket that an agent proposed and nobody has triaged. */
  predicate IsProposal(s: State, id: Id) {
    id in s.tickets && s.tickets[id].status == Backlog && s.tickets[id].createdBy == Agent
  }

  ghost predicate MovesIf(s: State, id: Id, op: Transition, allowed: bool, to: TicketStatus, kind: EventKind)
    requires allowed ==> id in s.tickets
  {
    var s' := Apply(s, Move(id, op));
    if allowed then Moved(s, s', id, to, kind) else s' == s
  }

  /** Triage moves proposals only. */
  lemma {:induction false} TriageMoves(s: State, id: Id)
    ensures MovesIf(s, id, ReadyProposed, IsProposal(s, id), Todo, Ready)
    ensures MovesIf(s, id, RejectProposed, IsProposal(s, id), TicketStatus.Archived, EventKind.Archived)
    ensures MovesIf(s, id, ArchiveProposed, IsProposal(s, id), TicketStatus.Archived, EventKind.Archived)
  {
  }

  /** An agent may enqueue a proposal only with the authority to. */
  lemma {:induction false} EnqueueMoves(s: State, id: Id, actor: Actor, canEnqueue: bool)
    ensures MovesIf(s, id, EnqueueProposed(actor, canEnqueue), IsProposal(s, id) && (canEnqueue || actor != Agent), Todo, Ready)
    ensures Apply(s, Move(id, EnqueueProposed(Agent, false))) == s
  {
  }

  /** A proposal is merged into another stored ticket of its own scope. */
  lemma {:induction false} MergeMoves(s: State, id: Id, target: Id)
    ensures MovesIf(s, id, MergeProposed(target),
                    && IsProposal(s, id) && target in s.tickets && target != id
                    && s.tickets[target].workspace == s.tickets[id].workspace && s.tickets[target].project == s.tickets[id].project,
                    TicketStatus.Archived, EventKind.Archived)
  {
  }

  // ----- Updates -----------------------------------------------------------------------

  /** A member that is present replaces the column, an absent one leaves it. */
  ghost predicate Patched<T(!new)>(patch: Option<T>, before: T, after: T) {
    if patch.Some? then after == patch.value else after == before
  }

  lemma {:induction false} UpdateWrites(s: State, id: Id, p: Patch)
    ensures var s' := Apply(s, Update(id, p));
            var empty := p.title.None? && p.description.None? && p.tags.None? && p.acceptance.None? && p.verification.None? && p.paths.None?;
            if id !in s.tickets || empty || p.title == Some("") || p.acceptance == Some(0) then s' == s
            else
              && id in s'.tickets
              && var t, t' := s.tickets[id], s'.tickets[id];
              && Patched(p.title, t.title, t'.title) && Patched(p.description, t.description, t'.description)
              && Patched(p.tags, t.tags, t'.tags) && Patched(p.acceptance, t.acceptance, t'.acceptance)
              && Patched(p.verification, t.verification, t'.verification) && Patched(p.paths, t.paths, t'.paths)
              && t' == t.(title := t'.title, description := t'.description, tags := t'.tags, acceptance := t'.acceptance,
                          verification := t'.verification, paths := t'.paths)
              && s' == s.(tickets := s.tickets[id := t'], events := s.events + [Event(id, None, Updated, None)])
  {
  }
}
