/** What every step of the ledger keeps. The event log alone determines each ticket's status and
    running attempt; the other invariants are read off the rows and the log together. */
module LedgerInvariant {
  import opened Basics
  import opened Ledger

  // ----- Replaying the log -------------------------------------------------------------

  /** A ticket as its events tell it: status, and running attempt if any. */
  datatype View = View(status: Option<TicketStatus>, running: Option<Id>)

  predicate EndsAttempt(kind: EventKind) {
    kind == Completed || kind == EventKind.Failed || kind == EventKind.Blocked
    || kind == EventKind.Expired || kind == EventKind.Cancelled
  }

  predicate ChangesNothing(kind: EventKind) {
    kind == Updated || kind == Heartbeat || kind == Checkpointed
  }

  function Observe(v: View, e: Event): View {
    if e.kind == Claimed then View(Some(InProgress), e.attempt)
    else if EndsAttempt(e.kind) then View(e.status, None)
    else if ChangesNothing(e.kind) then v
    else v.(status := e.status)
  }

  /** The events of one ticket, folded in sequence order. */
  function Replay(events: seq<Event>, ticket: Id): View {
    if events == [] then View(None, None)
    else
      var v := Replay(events[..|events| - 1], ticket);
      var e := events[|events| - 1];
      if e.ticket == ticket then Observe(v, e) else v
  }

  lemma {:induction false} ReplayAppend(events: seq<Event>, e: Event, ticket: Id)
    ensures Replay(events + [e], ticket) == if e.ticket == ticket then Observe(Replay(events, ticket), e) else Replay(events, ticket)
  {
    assert (events + [e])[..|events|] == events;
  }

  lemma {:induction false} ReplayUnseen(events: seq<Event>, ticket: Id)
    requires forall e :: e in events ==> e.ticket != ticket
    ensures Replay(events, ticket) == View(None, None)
  {
    if events != [] {
      assert events[|events| - 1] in events;
      ReplayUnseen(events[..|events| - 1], ticket);
    }
  }

  // ----- The effects a step can have ---------------------------------------------------

  /** The changes to tickets, attempts and log from which every step is built. */
  datatype Effect =
    | Insert(id: Id, row: Ticket, kind: EventKind)
    | Moved(id: Id, op: Transition)
    | Start(attempt: Id, started: Attempt)
    | End(attempt: Id, ended: AttemptStatus, status: TicketStatus, now: Time)
    | Renew(attempt: Id, renewed: Attempt, noted: EventKind)
    | Describe(id: Id, described: Ticket)

  function EndKind(ended: AttemptStatus): EventKind {
    match ended
    case Succeeded => Completed
    case Failed => EventKind.Failed
    case Blocked => EventKind.Blocked
    case Expired => EventKind.Expired
    case _ => EventKind.Cancelled
  }

  predicate Legal(s: State, eff: Effect) {
    match eff
    case Insert(id, row, kind) =>
      && id !in s.tickets && (row.status == Backlog || row.status == Todo) && (kind == Created || kind == Proposed)
      && "" !in row.harnesses
    case Moved(id, op) => id in s.tickets && s.tickets[id].status in op.Allowed()
    case Start(a, row) =>
      && a !in s.attempts && row.status == Running && row.ticket in s.tickets
      && s.tickets[row.ticket].status == Todo && Spent(s, row.ticket) < MaxAttempts(s.tickets[row.ticket])
    case End(a, ended, status, _) =>
      CanEnd(s, a) && ended != Running && status != InProgress && status != Backlog && status != TicketStatus.Archived
    case Renew(a, row, noted) =>
      && IsRunning(s, a) && (noted == Heartbeat || noted == Checkpointed)
      && row == s.attempts[a].(lease := row.lease, heartbeatAt := row.heartbeatAt, progress := row.progress,
                               summary := row.summary, nextStep := row.nextStep)
    case Describe(id, row) =>
      && id in s.tickets
      && row == s.tickets[id].(title := row.title, description := row.description, tags := row.tags, acceptance := row.acceptance, verification := row.verification, paths := row.paths)
  }

  function Do(s: State, eff: Effect): State
    requires Legal(s, eff)
  {
    match eff
    case Insert(id, row, kind) => InsertTicket(s, id, row, kind)
    case Moved(id, op) => SetStatus(s, id, op.Target(), op.Kind())
    case Start(a, row) => StartAttempt(s, a, row)
    case End(a, ended, status, now) => EndAttempt(s, a, ended, status, EndKind(ended), now)
    case Renew(a, row, noted) => TouchAttempt(s, a, row, noted)
    case Describe(id, row) => TouchTicket(s, id, row)
  }

  /** The event an effect appends. */
  function Appended(s: State, eff: Effect): Event
    requires Legal(s, eff)
  {
    match eff
    case Insert(id, row, kind) => Event(id, None, kind, Some(row.status))
    case Moved(id, op) => Event(id, None, op.Kind(), Some(op.Target()))
    case Start(a, row) => Event(row.ticket, Some(a), Claimed, None)
    case End(a, ended, status, _) => Event(s.attempts[a].ticket, Some(a), EndKind(ended), Some(status))
    case Renew(a, _, noted) => Event(s.attempts[a].ticket, Some(a), noted, None)
    case Describe(id, _) => Event(id, None, Updated, None)
  }

  // ----- Rows and log agree ------------------------------------------------------------

  ghost predicate WellReferenced(s: State) {
    && (forall e :: e in s.events ==> e.ticket in s.tickets && (e.attempt.Some? ==> e.attempt.value in s.attempts))
    && (forall a :: a in s.attempts ==> s.attempts[a].ticket in s.tickets)
  }

  ghost predicate TicketAgrees(s: State, t: Id)
    requires t in s.tickets
  {
    var v := Replay(s.events, t);
    && v.status == Some(s.tickets[t].status)
    && (v.running.Some? <==> s.tickets[t].status == InProgress)
    && (v.running.Some? ==> IsRunning(s, v.running.value) && s.attempts[v.running.value].ticket == t)
  }

  /** No attempt runs that its ticket's events do not name. */
  ghost predicate AttemptAgrees(s: State, a: Id)
    requires a in s.attempts
  {
    s.attempts[a].status == Running ==> Replay(s.events, s.attempts[a].ticket).running == Some(a)
  }

  lemma {:induction false} EffectKeepsReferences(s: State, eff: Effect)
    requires WellReferenced(s) && Legal(s, eff)
    ensures WellReferenced(Do(s, eff)) && Do(s, eff).events == s.events + [Appended(s, eff)]
  {
  }

  /** An effect on one ticket is not seen by another. */
  lemma {:induction false} EffectSparesOthers(s: State, eff: Effect, t: Id)
    requires Legal(s, eff) && t in s.tickets && t != Appended(s, eff).ticket
    requires TicketAgrees(s, t)
    ensures TicketAgrees(Do(s, eff), t)
  {
    ReplayAppend(s.events, Appended(s, eff), t);
  }

  /** The ticket rows an effect writes, seen from the ticket its event names. */
  lemma {:induction false} OwnRow(s: State, eff: Effect)
    requires Legal(s, eff) && (!eff.Insert? ==> Appended(s, eff).ticket in s.tickets)
    ensures var t, s' := Appended(s, eff).ticket, Do(s, eff);
            && t in s'.tickets
            && (eff.Insert? ==> s'.tickets[t] == eff.row)
            && (eff.Moved? ==> s'.tickets[t].status == eff.op.Target())
            && (eff.Start? ==> s'.tickets[t].status == InProgress)
            && (eff.End? ==> s'.tickets[t].status == eff.status)
            && (eff.Renew? || eff.Describe? ==> s'.tickets[t].status == s.tickets[t].status)
            && s'.events == s.events + [Appended(s, eff)]
  {
  }

  /** The attempts an effect leaves running. */
  lemma {:induction false} OwnAttempts(s: State, eff: Effect, a: Id)
    requires Legal(s, eff)
    ensures eff.Start? && a == eff.attempt ==> IsRunning(Do(s, eff), a) && Do(s, eff).attempts[a].ticket == eff.started.ticket
    ensures IsRunning(s, a) && !(eff.End? && a == eff.attempt) ==>
              IsRunning(Do(s, eff), a) && Do(s, eff).attempts[a].ticket == s.attempts[a].ticket
  {
  }

  /** What the event of an effect tells about its ticket, given what was known before. */
  function Told(v: View, eff: Effect): View {
    match eff
    case Insert(_, row, _) => v.(status := Some(row.status))
    case Moved(_, op) => v.(status := Some(op.Target()))
    case Start(a, _) => View(Some(InProgress), Some(a))
    case End(_, _, status, _) => View(Some(status), None)
    case _ => v
  }

  /** The event an effect appends tells the status the effect leaves in the ticket's row. */
  lemma {:induction false} EventTells(s: State, eff: Effect, v: View)
    requires Legal(s, eff)
    requires !eff.Insert? ==> Appended(s, eff).ticket in s.tickets && v.status == Some(s.tickets[Appended(s, eff).ticket].status)
    ensures Observe(v, Appended(s, eff)) == Told(v, eff)
    ensures var t := Appended(s, eff).ticket;
            t in Do(s, eff).tickets && Told(v, eff).status == Some(Do(s, eff).tickets[t].status)
  {
    OwnRow(s, eff);
  }

  /** Statuses from which and to which an effect moves its ticket. */
  lemma {:induction false} LegalStatuses(s: State, eff: Effect)
    requires Legal(s, eff)
    ensures eff.Insert? ==> eff.row.status != InProgress
    ensures eff.Moved? ==> s.tickets[eff.id].status != InProgress && eff.op.Target() != InProgress
    ensures eff.End? ==> eff.status != InProgress
    ensures eff.Moved? || eff.Describe? ==> Appended(s, eff).ticket == eff.id
  {
  }

  lemma {:induction false} EffectKeepsOwn(s: State, eff: Effect)
    requires Legal(s, eff)
    requires eff.Insert? ==> Replay(s.events, eff.id) == View(None, None)
    requires !eff.Insert? ==> Appended(s, eff).ticket in s.tickets && TicketAgrees(s, Appended(s, eff).ticket)
    requires eff.End? || eff.Renew? ==> AttemptAgrees(s, eff.attempt)
    ensures TicketAgrees(Do(s, eff), Appended(s, eff).ticket)
  {
    var e := Appended(s, eff);
    var v := Replay(s.events, e.ticket);
    OwnRow(s, eff);
    ReplayAppend(s.events, e, e.ticket);
    EventTells(s, eff, v);
    LegalStatuses(s, eff);
    if Told(v, eff).running.Some? {
      OwnAttempts(s, eff, Told(v, eff).running.value);
    }
    assert eff.Insert? ==> e.ticket == eff.id;
    assert eff.Start? ==> e.ticket == eff.started.ticket;
    hide Do, Replay, Observe, Legal, Appended;
  }

  lemma {:induction false} EffectKeepsAttempt(s: State, eff: Effect, a: Id)
    requires Legal(s, eff) && a in Do(s, eff).attempts
    requires a in s.attempts ==> AttemptAgrees(s, a) && s.attempts[a].ticket in s.tickets && TicketAgrees(s, s.attempts[a].ticket)
    requires eff.End? || eff.Renew? ==> AttemptAgrees(s, eff.attempt)
    ensures AttemptAgrees(Do(s, eff), a)
  {
    ReplayAppend(s.events, Appended(s, eff), Do(s, eff).attempts[a].ticket);
  }

  // ----- Retry budget ------------------------------------------------------------------

  /** Spent attempts plus the running one never exceed the policy's limit. */
  ghost predicate WithinBudget(s: State, t: Id)
    requires t in s.tickets
  {
    Spent(s, t) + (if s.tickets[t].status == InProgress then 1 else 0)
    <= if MaxAttempts(s.tickets[t]) > 0 then MaxAttempts(s.tickets[t]) else 0
  }

  /** An effect changes how an attempt counts only by ending it as failed or expired. */
  lemma {:induction false} EffectSpendsAttempt(s: State, eff: Effect, t: Id, a: Id)
    requires Legal(s, eff)
    ensures a in SpentAttempts(Do(s, eff), t) <==>
            a in SpentAttempts(s, t) || (eff.End? && a == eff.attempt && Spends(eff.ended) && s.attempts[a].ticket == t)
  {
  }

  /** Only the end of a running attempt as failed or expired spends, and it spends one. */
  lemma {:induction false} EffectSpends(s: State, eff: Effect, t: Id)
    requires Legal(s, eff)
    ensures Spent(Do(s, eff), t) ==
            Spent(s, t) + (if eff.End? && Spends(eff.ended) && s.attempts[eff.attempt].ticket == t then 1 else 0)
  {
    hide Do;
    var before, after := SpentAttempts(s, t), SpentAttempts(Do(s, eff), t);
    forall a ensures a in after <==>
                       a in before || (eff.End? && a == eff.attempt && Spends(eff.ended) && s.attempts[a].ticket == t) {
      EffectSpendsAttempt(s, eff, t, a);
    }
    if eff.End? && Spends(eff.ended) && s.attempts[eff.attempt].ticket == t {
      assert eff.attempt !in before;
      assert after == before + {eff.attempt};
    } else {
      assert after == before;
    }
  }

  lemma {:induction false} EffectKeepsBudget(s: State, eff: Effect, t: Id)
    requires WellReferenced(s) && Legal(s, eff) && t in Do(s, eff).tickets
    requires t in s.tickets ==> WithinBudget(s, t) && TicketAgrees(s, t)
    requires eff.End? ==> AttemptAgrees(s, eff.attempt)
    ensures WithinBudget(Do(s, eff), t)
  {
    EffectSpends(s, eff, t);
    if t !in s.tickets {
      assert SpentAttempts(s, t) == {};
    }
  }

  // ----- Triage ------------------------------------------------------------------------

  /** The first event of a ticket. */
  function First(events: seq<Event>, ticket: Id): Option<Event> {
    if events == [] then None
    else
      var first := First(events[..|events| - 1], ticket);
      if first.Some? || events[|events| - 1].ticket != ticket then first else Some(events[|events| - 1])
  }

  ghost predicate BornInBacklog(events: seq<Event>, ticket: Id) {
    First(events, ticket).Some? && First(events, ticket).value.status == Some(Backlog)
  }

  ghost predicate ReadySeen(events: seq<Event>, ticket: Id) {
    exists e :: e in events && e.ticket == ticket && e.kind == Ready
  }

  /** A ticket born in backlog and never marked ready is still there, or archived. */
  ghost predicate TicketTriaged(s: State, t: Id)
    requires t in s.tickets
  {
    BornInBacklog(s.events, t) && !ReadySeen(s.events, t)
    ==> s.tickets[t].status == Backlog || s.tickets[t].status == TicketStatus.Archived
  }

  /** Every claim of a ticket born in backlog has a ready event before it. */
  ghost predicate ClaimTriaged(events: seq<Event>, j: nat)
    requires j < |events|
  {
    events[j].kind == Claimed && BornInBacklog(events, events[j].ticket) ==> ReadySeen(events[..j], events[j].ticket)
  }

  lemma {:induction false} FirstAppend(events: seq<Event>, e: Event, ticket: Id)
    ensures First(events + [e], ticket) ==
            if First(events, ticket).Some? || e.ticket != ticket then First(events, ticket) else Some(e)
  {
    assert (events + [e])[..|events|] == events;
  }

  lemma {:induction false} FirstSeen(events: seq<Event>, j: nat)
    requires j < |events|
    ensures First(events, events[j].ticket).Some?
  {
    if j < |events| - 1 {
      FirstSeen(events[..|events| - 1], j);
    }
  }

  lemma {:induction false} FirstUnseen(events: seq<Event>, ticket: Id)
    requires forall e :: e in events ==> e.ticket != ticket
    ensures First(events, ticket).None?
  {
    if events != [] {
      assert events[|events| - 1] in events;
      FirstUnseen(events[..|events| - 1], ticket);
    }
  }

  lemma {:induction false} ReadyAppend(events: seq<Event>, e: Event, ticket: Id)
    ensures ReadySeen(events + [e], ticket) <==> ReadySeen(events, ticket) || (e.ticket == ticket && e.kind == Ready)
  {
    if ReadySeen(events, ticket) {
      var r :| r in events && r.ticket == ticket && r.kind == Ready;
      assert r in events + [e];
    }
    if e.ticket == ticket && e.kind == Ready {
      assert e in events + [e];
    }
  }

  lemma {:induction false} EffectKeepsTriage(s: State, eff: Effect, t: Id)
    requires Legal(s, eff) && t in Do(s, eff).tickets
    requires t in s.tickets ==> TicketTriaged(s, t) && TicketAgrees(s, t) && First(s.events, t).Some?
    requires t !in s.tickets ==> First(s.events, t).None?
    requires eff.End? ==> AttemptAgrees(s, eff.attempt)
    ensures TicketTriaged(Do(s, eff), t)
  {
    FirstAppend(s.events, Appended(s, eff), t);
    ReadyAppend(s.events, Appended(s, eff), t);
  }

  lemma {:induction false} EffectKeepsClaims(s: State, eff: Effect, j: nat)
    requires Legal(s, eff) && j < |s.events| + 1
    requires Do(s, eff).events == s.events + [Appended(s, eff)]
    requires j < |s.events| ==> ClaimTriaged(s.events, j)
    requires eff.Start? ==> TicketTriaged(s, eff.started.ticket) && First(s.events, eff.started.ticket).Some?
    ensures ClaimTriaged(Do(s, eff).events, j)
  {
    var after := Do(s, eff).events;
    FirstAppend(s.events, Appended(s, eff), after[j].ticket);
    if j < |s.events| {
      FirstSeen(s.events, j);
      assert after[..j] == s.events[..j];
    } else {
      assert after[..j] == s.events;
    }
  }

  // ----- One end per attempt -----------------------------------------------------------

  predicate NamesClaim(e: Event, a: Id) { e.attempt == Some(a) && e.kind == Claimed }

  predicate NamesEnd(e: Event, a: Id) { e.attempt == Some(a) && EndsAttempt(e.kind) }

  function CountClaims(events: seq<Event>, a: Id): nat {
    if events == [] then 0
    else CountClaims(events[..|events| - 1], a) + (if NamesClaim(events[|events| - 1], a) then 1 else 0)
  }

  function CountEnds(events: seq<Event>, a: Id): nat {
    if events == [] then 0
    else CountEnds(events[..|events| - 1], a) + (if NamesEnd(events[|events| - 1], a) then 1 else 0)
  }

  /** An attempt is claimed once, and ended once exactly when it has left running. */
  ghost predicate AttemptAccounted(s: State, a: Id)
    requires a in s.attempts
  {
    CountClaims(s.events, a) == 1 && CountEnds(s.events, a) == if s.attempts[a].status == Running then 0 else 1
  }

  lemma {:induction false} CountAppend(events: seq<Event>, e: Event, a: Id)
    ensures CountClaims(events + [e], a) == CountClaims(events, a) + (if NamesClaim(e, a) then 1 else 0)
    ensures CountEnds(events + [e], a) == CountEnds(events, a) + (if NamesEnd(e, a) then 1 else 0)
  {
    assert (events + [e])[..|events|] == events;
  }

  lemma {:induction false} CountUnseen(events: seq<Event>, a: Id)
    requires forall e :: e in events ==> e.attempt != Some(a)
    ensures CountClaims(events, a) == 0 && CountEnds(events, a) == 0
  {
    if events != [] {
      assert events[|events| - 1] in events;
      CountUnseen(events[..|events| - 1], a);
    }
  }

  lemma {:induction false} EffectKeepsAccount(s: State, eff: Effect, a: Id)
    requires Legal(s, eff) && a in Do(s, eff).attempts
    requires a in s.attempts ==> AttemptAccounted(s, a)
    requires a !in s.attempts ==> CountClaims(s.events, a) == 0 && CountEnds(s.events, a) == 0
    ensures AttemptAccounted(Do(s, eff), a)
  {
    CountAppend(s.events, Appended(s, eff), a);
  }

  // ----- All of it ---------------------------------------------------------------------

  ghost predicate TicketInvariant(s: State, t: Id)
    requires t in s.tickets
  {
    && TicketAgrees(s, t) && WithinBudget(s, t) && TicketTriaged(s, t) && First(s.events, t).Some?
    && "" !in s.tickets[t].harnesses
  }

  ghost predicate AttemptInvariant(s: State, a: Id)
    requires a in s.attempts
  {
    AttemptAgrees(s, a) && AttemptAccounted(s, a)
  }

  /** The invariant of tickets, attempts and log. */
  ghost predicate RowInvariant(s: State) {
    && WellReferenced(s)
    && (forall t :: t in s.tickets ==> TicketInvariant(s, t))
    && (forall a :: a in s.attempts ==> AttemptInvariant(s, a))
    && (forall j :: 0 <= j < |s.events| ==> ClaimTriaged(s.events, j))
  }

  lemma {:induction false} EffectKeepsTicketInvariant(s: State, eff: Effect, t: Id)
    requires WellReferenced(s) && Legal(s, eff) && t in Do(s, eff).tickets
    requires t in s.tickets ==> TicketInvariant(s, t)
    requires eff.End? || eff.Renew? ==> AttemptAgrees(s, eff.attempt)
    ensures TicketInvariant(Do(s, eff), t)
  {
    if t !in s.tickets {
      ReplayUnseen(s.events, t);
      FirstUnseen(s.events, t);
    }
    if t == Appended(s, eff).ticket { EffectKeepsOwn(s, eff); } else { EffectSparesOthers(s, eff, t); }
    EffectKeepsBudget(s, eff, t);
    EffectKeepsTriage(s, eff, t);
    FirstAppend(s.events, Appended(s, eff), t);
  }

  lemma {:induction false} EffectKeepsAttemptInvariant(s: State, eff: Effect, a: Id)
    requires WellReferenced(s) && Legal(s, eff) && a in Do(s, eff).attempts
    requires a in s.attempts ==> AttemptInvariant(s, a) && TicketAgrees(s, s.attempts[a].ticket)
    requires eff.End? || eff.Renew? ==> AttemptAgrees(s, eff.attempt)
    ensures AttemptInvariant(Do(s, eff), a)
  {
    if a !in s.attempts { CountUnseen(s.events, a); }
    EffectKeepsAttempt(s, eff, a);
    EffectKeepsAccount(s, eff, a);
  }

  lemma {:induction false} EffectKeepsRowInvariant(s: State, eff: Effect)
    requires RowInvariant(s) && Legal(s, eff)
    ensures RowInvariant(Do(s, eff))
  {
    EffectKeepsReferences(s, eff);
    var s' := Do(s, eff);
    assert eff.End? || eff.Renew? ==> AttemptInvariant(s, eff.attempt);
    assert eff.Start? ==> TicketInvariant(s, eff.started.ticket);
    forall t | t in s'.tickets ensures TicketInvariant(s', t) { EffectKeepsTicketInvariant(s, eff, t); }
    forall a | a in s'.attempts ensures AttemptInvariant(s', a) {
      assert a in s.attempts ==> AttemptInvariant(s, a) && TicketInvariant(s, s.attempts[a].ticket);
      EffectKeepsAttemptInvariant(s, eff, a);
    }
    forall j | 0 <= j < |s'.events| ensures ClaimTriaged(s'.events, j) {
      assert j < |s.events| ==> ClaimTriaged(s.events, j);
      EffectKeepsClaims(s, eff, j);
    }
  }
}
