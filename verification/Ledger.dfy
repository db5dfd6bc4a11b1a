/** The ticket ledger: its rows, and every statement or transaction that changes them,
    each as one step from a stored state to the next. A statement that matches no row, or a
    transaction that is rolled back, leaves the state as it was. */
module Ledger {
  import opened Basics
  import Graph

  // ----- Rows --------------------------------------------------------------------------

  datatype TicketStatus =
    | Backlog | Todo | InProgress | Blocked | NeedsReview | Done | Failed | Archived

  datatype AttemptStatus = Running | Succeeded | Failed | Blocked | Expired | Cancelled

  datatype EventKind =
    | Created | Proposed | Updated | Claimed | Heartbeat | Checkpointed
    | Completed | Failed | Blocked | Expired | Cancelled
    | Ready | Reopened | Unblocked | ReviewRequested | Reviewed | Archived

  datatype Actor = Human | Agent | System

  /** `retry_policy`; an absent member is null in the stored document. */
  datatype RetryPolicy = RetryPolicy(maxAttempts: Option<int>, onFailure: Option<string>, requiresReview: Option<bool>)

  const DEFAULT_POLICY := RetryPolicy(Some(3), Some("return_to_todo"), Some(false))

  /** The tickets and the attempt a ticket comes from. */
  datatype Links = Links(parent: Option<Id>, root: Option<Id>, sourceAttempt: Option<Id>)

  const NO_LINKS := Links(None, None, None)

  datatype Ticket = Ticket(
    workspace: Id, project: Id, title: string, description: string,
    kind: string, status: TicketStatus, priority: int,
    tags: set<string>, harnesses: set<string>, capabilities: set<string>,
    acceptance: nat, verification: nat, paths: nat,
    policy: RetryPolicy, createdBy: Actor, createdAt: Time, links: Links)

  datatype Attempt = Attempt(
    ticket: Id, agent: string, harness: string, status: AttemptStatus,
    lease: Time, heartbeatAt: Time, progress: int, summary: Option<string>, nextStep: Option<string>,
    completedAt: Option<Time>)

  datatype Metrics = Metrics(tokensIn: int, tokensOut: int, costUsd: real, durationSeconds: real, retryCount: int)

  datatype Checkpoint = Checkpoint(
    attempt: Id, ticket: Id, summary: string, files: seq<string>, commands: seq<string>,
    nextStep: Option<string>, risk: Option<string>)

  /** A `ticket_events` row. `status` is `data.status` or `data.ticket_status`, where present. */
  datatype Event = Event(ticket: Id, attempt: Option<Id>, kind: EventKind, status: Option<TicketStatus>)

  /** Key and record of the "claim-next" route. The stored request hash is represented by the
      hashed payload itself: SHA-256 is taken to be injective. */
  datatype IdempotencyKey = IdempotencyKey(workspace: Id, actor: string, key: string)

  datatype IdempotencyRecord = IdempotencyRecord(payload: ClaimPayload, ticket: Id, attempt: Id, expiresAt: Time)

  datatype State = State(
    tickets: map<Id, Ticket>,
    attempts: map<Id, Attempt>,
    dependencies: set<(Id, Id)>,
    idempotency: map<IdempotencyKey, IdempotencyRecord>,
    metrics: map<Id, Metrics>,
    checkpoints: seq<Checkpoint>,
    events: seq<Event>)

  const EMPTY := State(map[], map[], {}, map[], map[], [], [])

  // ----- Row changes from which the statements are built -------------------------------

  /** A new ticket and its created/proposed event. */
  function InsertTicket(s: State, id: Id, t: Ticket, kind: EventKind): State {
    s.(tickets := s.tickets[id := t],
       events := s.events + [Event(id, None, kind, Some(t.status))])
  }

  /** `TransitionTicket`: a guarded status change and its event. */
  function SetStatus(s: State, id: Id, status: TicketStatus, kind: EventKind): State
    requires id in s.tickets
  {
    s.(tickets := s.tickets[id := s.tickets[id].(status := status)],
       events := s.events + [Event(id, None, kind, Some(status))])
  }

  /** The ticket, attempt and event writes of a claim. */
  function StartAttempt(s: State, id: Id, row: Attempt): State
    requires row.ticket in s.tickets
  {
    s.(tickets := s.tickets[row.ticket := s.tickets[row.ticket].(status := InProgress)],
       attempts := s.attempts[id := row],
       events := s.events + [Event(row.ticket, Some(id), Claimed, None)])
  }

  /** The attempt, ticket and event writes shared by the five statements that end an attempt. */
  function EndAttempt(s: State, id: Id, ended: AttemptStatus, status: TicketStatus, kind: EventKind, now: Time): State
    requires id in s.attempts && s.attempts[id].ticket in s.tickets
  {
    var a := s.attempts[id];
    s.(tickets := s.tickets[a.ticket := s.tickets[a.ticket].(status := status)],
       attempts := s.attempts[id := a.(status := ended, completedAt := Some(now),
                                       progress := if ended == Succeeded then 100 else a.progress)],
       events := s.events + [Event(a.ticket, Some(id), kind, Some(status))])
  }

  /** An attempt's lease or progress changes, with a heartbeat or checkpointed event. */
  function TouchAttempt(s: State, id: Id, row: Attempt, kind: EventKind): State
    requires id in s.attempts
  {
    s.(attempts := s.attempts[id := row],
       events := s.events + [Event(s.attempts[id].ticket, Some(id), kind, None)])
  }

  /** A ticket's descriptive fields change, with an updated event. */
  function TouchTicket(s: State, id: Id, row: Ticket): State
    requires id in s.tickets
  {
    s.(tickets := s.tickets[id := row], events := s.events + [Event(id, None, Updated, None)])
  }

  // ----- Retry policy ------------------------------------------------------------------

  function MaxAttempts(t: Ticket): int {
    t.policy.maxAttempts.GetOr(3)
  }

  predicate Spends(status: AttemptStatus) {
    status == AttemptStatus.Failed || status == AttemptStatus.Expired
  }

  function SpentAttempts(s: State, ticket: Id): set<Id> {
    set a | a in s.attempts && s.attempts[a].ticket == ticket && Spends(s.attempts[a].status)
  }

  /** `count(*)` of a ticket's failed and expired attempts in one snapshot. */
  function Spent(s: State, ticket: Id): nat {
    |SpentAttempts(s, ticket)|
  }

  predicate IsRunning(s: State, id: Id) {
    id in s.attempts && s.attempts[id].status == Running
  }

  // ----- Attempt lifecycle -------------------------------------------------------------

  predicate ValidMetrics(m: Option<Metrics>) {
    m.Some? ==>
      m.value.tokensIn >= 0 && m.value.tokensOut >= 0 && m.value.costUsd >= 0.0
      && m.value.durationSeconds >= 0.0 && m.value.retryCount >= 0
  }

  /** Upsert of the metrics row, in the transaction of the statement that ended the attempt. */
  function RecordMetrics(s: State, id: Id, m: Option<Metrics>): State {
    if m.None? then s else s.(metrics := s.metrics[id := m.value])
  }

  function SuccessStatus(t: Ticket): TicketStatus {
    if t.policy.requiresReview.GetOr(false) then NeedsReview else Done
  }

  /** The CASE of `FailAttempt`, given the count its subquery returned. */
  function FailureStatus(t: Ticket, counted: nat): TicketStatus {
    var onFailure := t.policy.onFailure.GetOr("return_to_todo");
    if onFailure == "mark_failed" then TicketStatus.Failed
    else if onFailure == "needs_review" then NeedsReview
    else if counted >= MaxAttempts(t) then TicketStatus.Failed
    else Todo
  }

  /** The CASE of `ExpireAttempt`, given the count its subquery returned. */
  function ExpiryStatus(t: Ticket, counted: nat): TicketStatus {
    if counted >= MaxAttempts(t) then TicketStatus.Failed else Todo
  }

  predicate CanEnd(s: State, id: Id) {
    IsRunning(s, id) && s.attempts[id].ticket in s.tickets
  }

  function CompleteAttempt(s: State, id: Id, now: Time): State {
    if !CanEnd(s, id) then s
    else EndAttempt(s, id, Succeeded, SuccessStatus(s.tickets[s.attempts[id].ticket]), Completed, now)
  }

  /** All parts of one statement read the same snapshot (section 7.8.4 of the PostgreSQL manual,
      "Data-Modifying Statements in WITH"), so the count is taken in `s`, where `id` still runs. */
  function FailAttempt(s: State, id: Id, now: Time): State {
    if !CanEnd(s, id) then s
    else
      var ticket := s.attempts[id].ticket;
      EndAttempt(s, id, AttemptStatus.Failed, FailureStatus(s.tickets[ticket], Spent(s, ticket)), EventKind.Failed, now)
  }

  function BlockAttempt(s: State, id: Id, now: Time): State {
    if !CanEnd(s, id) then s
    else EndAttempt(s, id, AttemptStatus.Blocked, TicketStatus.Blocked, EventKind.Blocked, now)
  }

  function CancelAttempt(s: State, id: Id, now: Time): State {
    if !CanEnd(s, id) then s
    else EndAttempt(s, id, AttemptStatus.Cancelled, Todo, EventKind.Cancelled, now)
  }

  function ExpireAttempt(s: State, id: Id, now: Time, cutoff: Time): State {
    if !CanEnd(s, id) || s.attempts[id].lease >= cutoff then s
    else
      var ticket := s.attempts[id].ticket;
      EndAttempt(s, id, AttemptStatus.Expired, ExpiryStatus(s.tickets[ticket], Spent(s, ticket)), EventKind.Expired, now)
  }

  function HeartbeatAttempt(s: State, id: Id, now: Time, lease: Time): State {
    if !IsRunning(s, id) || lease <= 0 then s
    else TouchAttempt(s, id, s.attempts[id].(lease := now + lease, heartbeatAt := now), Heartbeat)
  }

  /** A checkpoint request after trimming. */
  datatype Progress = Progress(
    summary: string, percent: int, files: seq<string>, commands: seq<string>, nextStep: string, risk: string)

  predicate ValidProgress(p: Progress) {
    p.summary != "" && 0 <= p.percent <= 100
  }

  /** `optionalText`: empty text is stored as null. */
  function OptionalText(text: string): Option<string> {
    if text == "" then None else Some(text)
  }

  function Progressed(a: Attempt, p: Progress): Attempt {
    a.(progress := p.percent, summary := Some(p.summary), nextStep := OptionalText(p.nextStep))
  }

  function CheckpointRow(id: Id, ticket: Id, p: Progress): Checkpoint {
    Checkpoint(id, ticket, p.summary, p.files, p.commands, OptionalText(p.nextStep), OptionalText(p.risk))
  }

  function CheckpointAttempt(s: State, id: Id, p: Progress): State {
    if !IsRunning(s, id) || !ValidProgress(p) then s
    else
      var touched := TouchAttempt(s, id, Progressed(s.attempts[id], p), Checkpointed);
      touched.(checkpoints := s.checkpoints + [CheckpointRow(id, s.attempts[id].ticket, p)])
  }

  // ----- Ticket transitions ------------------------------------------------------------

  datatype Transition =
    | MarkReady | Reopen | Unblock | RequestReview | Archive | Approve | Reject
    | ReadyProposed | EnqueueProposed(actor: Actor, canEnqueue: bool)
    | RejectProposed | ArchiveProposed | MergeProposed(target: Id)
  {
    function Allowed(): set<TicketStatus> {
      match this
      case Reopen => {Done, TicketStatus.Failed}
      case Unblock => {TicketStatus.Blocked}
      case RequestReview => {TicketStatus.Blocked, Todo, TicketStatus.Failed, Done}
      case Archive => {Backlog, Todo, TicketStatus.Blocked, NeedsReview, Done, TicketStatus.Failed}
      case Approve => {NeedsReview}
      case Reject => {NeedsReview}
      case _ => {Backlog}
    }

    function Target(): TicketStatus {
      match this
      case RequestReview => NeedsReview
      case Approve => Done
      case Archive => TicketStatus.Archived
      case RejectProposed => TicketStatus.Archived
      case ArchiveProposed => TicketStatus.Archived
      case MergeProposed(_) => TicketStatus.Archived
      case _ => Todo
    }

    function Kind(): EventKind {
      match this
      case MarkReady => Ready
      case Reopen => Reopened
      case Unblock => Unblocked
      case RequestReview => ReviewRequested
      case Approve => Reviewed
      case Reject => Reviewed
      case ReadyProposed => Ready
      case EnqueueProposed(_, _) => Ready
      case _ => EventKind.Archived
    }

    /** The checks a service method makes before the guarded statement. */
    predicate Admitted(s: State, id: Id)
      requires id in s.tickets
    {
      match this
      case ReadyProposed => s.tickets[id].createdBy == Agent
      case EnqueueProposed(actor, canEnqueue) => s.tickets[id].createdBy == Agent && (actor == Agent ==> canEnqueue)
      case RejectProposed => s.tickets[id].createdBy == Agent
      case ArchiveProposed => s.tickets[id].createdBy == Agent
      case MergeProposed(target) =>
        && s.tickets[id].createdBy == Agent && target != id && target in s.tickets
        && s.tickets[target].workspace == s.tickets[id].workspace
        && s.tickets[target].project == s.tickets[id].project
      case _ => true
    }
  }

  predicate CanTransition(s: State, id: Id, op: Transition) {
    id in s.tickets && op.Admitted(s, id) && s.tickets[id].status in op.Allowed()
  }

  function TransitionTicket(s: State, id: Id, op: Transition): State {
    if !CanTransition(s, id, op) then s else SetStatus(s, id, op.Target(), op.Kind())
  }

  /** Only the fields a patch may name; an absent member is left alone. */
  datatype Patch = Patch(
    title: Option<string>, description: Option<string>, tags: Option<set<string>>,
    acceptance: Option<nat>, verification: Option<nat>, paths: Option<nat>)

  /** `validateUpdateTicketRequest`: some field, and no emptied title or acceptance criteria. */
  predicate ValidPatch(p: Patch) {
    && p != Patch(None, None, None, None, None, None) && p.title != Some("") && p.acceptance != Some(0)
  }

  function UpdateTicket(s: State, id: Id, patch: Patch): State {
    if id !in s.tickets || !ValidPatch(patch) then s
    else
      var t := s.tickets[id];
      TouchTicket(s, id, t.(title := patch.title.GetOr(t.title), description := patch.description.GetOr(t.description),
                            tags := patch.tags.GetOr(t.tags), acceptance := patch.acceptance.GetOr(t.acceptance),
                            verification := patch.verification.GetOr(t.verification), paths := patch.paths.GetOr(t.paths)))
  }

  // ----- Creation ----------------------------------------------------------------------

  const TICKET_KINDS := {"feature", "task", "bug", "documentation", "research", "analysis", "planning",
                         "review", "integration", "investigation", "cleanup", "follow_up", "custom"}

  /** A create request after trimming. Lists that are only counted are given by their lengths. */
  datatype CreateRequest = CreateRequest(
    workspace: Id, project: Id, title: string, description: string, kind: string, status: string,
    priority: Option<int>, tags: set<string>, harnesses: set<string>, capabilities: set<string>,
    acceptance: nat, verification: nat, paths: nat, artifacts: nat, input: nat,
    policy: Option<RetryPolicy>, dependencies: seq<Id>,
    createdBy: string, creationReason: string, enqueue: bool, canEnqueue: bool, links: Links)

  datatype CreateError = EnqueuePermissionRequired | ValidationFailed

  function ParseActor(text: string): Option<Actor> {
    if text == "human" then Some(Human)
    else if text == "agent" then Some(Agent)
    else if text == "system" then Some(System)
    else None
  }

  function ParseNewStatus(text: string): Option<TicketStatus> {
    if text == "backlog" then Some(Backlog) else if text == "todo" then Some(Todo) else None
  }

  predicate ValidCreate(r: CreateRequest) {
    && r.title != "" && r.kind in TICKET_KINDS && ParseNewStatus(r.status).Some?
    && (r.priority.Some? ==> 0 <= r.priority.value <= 4)
    && ParseActor(r.createdBy).Some? && r.acceptance > 0
    && (r.description != "" || r.paths > 0 || r.verification > 0 || r.artifacts > 0 || r.input > 0)
    && (r.createdBy == "agent" ==> r.creationReason != "")
  }

  function WithDefaults(r: CreateRequest, proposed: bool): CreateRequest {
    var creator := if r.createdBy == "" then "human" else r.createdBy;
    var status :=
      if proposed then "backlog"
      else if r.status != "" then r.status
      else if creator == "agent" && !r.enqueue then "backlog"
      else "todo";
    r.(createdBy := creator, status := status)
  }

  /** `normalizeCreateTicketRequest`: defaults, then permission, then validation. Empty strings are
      dropped from the lists. */
  function Normalize(request: CreateRequest, proposed: bool, now: Time): Result<Ticket, CreateError> {
    var r := WithDefaults(request, proposed);
    if r.createdBy == "agent" && (r.enqueue || r.status == "todo") && !r.canEnqueue then Err(EnqueuePermissionRequired)
    else if !ValidCreate(r) then Err(ValidationFailed)
    else Ok(Ticket(r.workspace, r.project, r.title, r.description, r.kind, ParseNewStatus(r.status).value, r.priority.GetOr(2),
                   r.tags - {""}, r.harnesses - {""}, r.capabilities - {""}, r.acceptance, r.verification, r.paths,
                   r.policy.GetOr(DEFAULT_POLICY), ParseActor(r.createdBy).value, now, r.links))
  }

  /** `ProposeTicket` clears the enqueue flag before the shared path. Proposed tickets, and those
      of an agent without enqueue authority, start in backlog. */
  function CreationRow(r: CreateRequest, proposed: bool, now: Time): (row: Result<Ticket, CreateError>)
    ensures row.Ok? ==> row.value.status == Backlog || row.value.status == Todo
    ensures row.Ok? ==> "" !in row.value.harnesses
    ensures row.Ok? && proposed ==> row.value.status == Backlog
    ensures row.Ok? && row.value.createdBy == Agent && !r.canEnqueue ==> row.value.status == Backlog
  {
    Normalize(if proposed then r.(status := "backlog", enqueue := false) else r, proposed, now)
  }

  function CreationKind(proposed: bool): EventKind {
    if proposed then Proposed else Created
  }

  predicate InScope(s: State, workspace: Id, project: Id, id: Id) {
    id in s.tickets && s.tickets[id].workspace == workspace && s.tickets[id].project == project
  }

  /** The foreign keys of a new ticket's links. */
  predicate LinksStorable(s: State, t: Ticket) {
    && (t.links.parent.Some? ==> InScope(s, t.workspace, t.project, t.links.parent.value))
    && (t.links.root.Some? ==> InScope(s, t.workspace, t.project, t.links.root.value))
    && (t.links.sourceAttempt.Some? ==>
          && t.links.sourceAttempt.value in s.attempts
          && InScope(s, t.workspace, t.project, s.attempts[t.links.sourceAttempt.value].ticket))
  }

  /** The foreign keys, primary key and check of `ticket_dependencies` for a ticket not stored yet. */
  predicate DependenciesStorable(s: State, t: Ticket, dependencies: seq<Id>) {
    Distinct(dependencies) && forall d :: d in dependencies ==> InScope(s, t.workspace, t.project, d)
  }

  function DependencyRows(id: Id, dependencies: seq<Id>): set<(Id, Id)> {
    set d | d in dependencies :: (id, d)
  }

  predicate CanCreate(s: State, id: Id, r: CreateRequest, proposed: bool, now: Time) {
    var row := CreationRow(r, proposed, now);
    row.Ok? && id !in s.tickets && LinksStorable(s, row.value) && DependenciesStorable(s, row.value, r.dependencies)
  }

  /** One transaction: ticket row, dependency rows, event. */
  function CreateTicket(s: State, id: Id, r: CreateRequest, proposed: bool, now: Time): State {
    if !CanCreate(s, id, r, proposed, now) then s
    else
      var inserted := InsertTicket(s, id, CreationRow(r, proposed, now).value, CreationKind(proposed));
      inserted.(dependencies := s.dependencies + DependencyRows(id, r.dependencies))
  }

  // ----- Decomposition -----------------------------------------------------------------

  /** What all children of one decomposition share; `create` is the mode. */
  datatype Batch = Batch(workspace: Id, project: Id, parent: Id, root: Option<Id>, create: bool, createdBy: string, creationReason: string, canEnqueue: bool)

  /** A child: its key, its own part of a create request, and the keys of the siblings it
      depends on. */
  datatype Child = Child(key: string, request: CreateRequest, dependsOn: seq<string>)

  function ChildKeys(children: seq<Child>): set<string> {
    set c | c in children :: c.key
  }

  function ChildEdges(children: seq<Child>): set<(string, string)> {
    set c, d | c in children && d in c.dependsOn :: (c.key, d)
  }

  predicate ValidKeys(children: seq<Child>) {
    && (forall c :: c in children ==> c.key != "")
    && (forall i, j :: 0 <= i < j < |children| ==> children[i].key != children[j].key)
    && (forall c :: c in children ==> forall d :: d in c.dependsOn ==> d in ChildKeys(children) && d != c.key)
  }

  /** Without a root of its own, a decomposition is rooted at its parent. */
  function BatchLinks(batch: Batch): Links {
    Links(Some(batch.parent), Some(batch.root.GetOr(batch.parent)), None)
  }

  predicate BatchInScope(s: State, batch: Batch) {
    && InScope(s, batch.workspace, batch.project, batch.parent)
    && InScope(s, batch.workspace, batch.project, batch.root.GetOr(batch.parent))
  }

  /** `createRequestsFromDecomposition`: create mode enqueues, propose mode does not. */
  function ChildRequest(c: Child, batch: Batch): CreateRequest {
    c.request.(workspace := batch.workspace, project := batch.project,
               status := if batch.create then "todo" else "backlog", enqueue := batch.create,
               createdBy := if batch.createdBy == "" then "agent" else batch.createdBy,
               creationReason := batch.creationReason, canEnqueue := batch.canEnqueue,
               policy := None, dependencies := [], links := BatchLinks(batch))
  }

  ghost predicate ValidDecomposition(children: seq<Child>, batch: Batch) {
    && children != [] && ValidKeys(children) && !Graph.Cyclic(ChildEdges(children))
    && forall c :: c in children ==> ValidCreate(ChildRequest(c, batch))
  }

  function ChildRow(c: Child, batch: Batch, now: Time): (row: Result<Ticket, CreateError>)
    ensures row.Ok? ==> row.value.status == if batch.create then Todo else Backlog
    ensures row.Ok? ==> row.value.workspace == batch.workspace && row.value.project == batch.project
    ensures row.Ok? ==> row.value.links == BatchLinks(batch)
    ensures row.Ok? ==> "" !in row.value.harnesses
  {
    CreationRow(ChildRequest(c, batch), !batch.create, now)
  }

  /** Every insert of the transaction succeeds: permissions, fresh row ids, stored parent and root,
      and no repeated dependency row. */
  predicate ChildrenStorable(s: State, ids: seq<Id>, children: seq<Child>, batch: Batch, now: Time) {
    && |ids| == |children| && Distinct(ids) && BatchInScope(s, batch)
    && (forall i :: 0 <= i < |ids| ==> ids[i] !in s.tickets)
    && (forall i :: 0 <= i < |children| ==> ChildRow(children[i], batch, now).Ok? && Distinct(children[i].dependsOn))
  }

  function InsertChildren(s: State, ids: seq<Id>, children: seq<Child>, batch: Batch, now: Time): State
    requires |ids| == |children|
    requires forall i :: 0 <= i < |children| ==> ChildRow(children[i], batch, now).Ok?
  {
    if ids == [] then s
    else
      var n := |ids| - 1;
      InsertTicket(InsertChildren(s, ids[..n], children[..n], batch, now), ids[n],
                   ChildRow(children[n], batch, now).value, CreationKind(!batch.create))
  }

  /** `childIDsByKey` */
  function IdsByKey(ids: seq<Id>, children: seq<Child>): map<string, Id>
    requires |ids| == |children|
  {
    if ids == [] then map[]
    else IdsByKey(ids[..|ids| - 1], children[..|ids| - 1])[children[|ids| - 1].key := ids[|ids| - 1]]
  }

  function ChildDependencyRows(idOf: map<string, Id>, children: seq<Child>): set<(Id, Id)> {
    set c, d | c in children && d in c.dependsOn && c.key in idOf && d in idOf :: (idOf[c.key], idOf[d])
  }

  ghost predicate CanDecompose(s: State, ids: seq<Id>, children: seq<Child>, batch: Batch, now: Time) {
    ValidDecomposition(children, batch) && ChildrenStorable(s, ids, children, batch, now)
  }

  /** One transaction: all children with their events, then all dependency rows. */
  ghost function DecomposeTicket(s: State, ids: seq<Id>, children: seq<Child>, batch: Batch, now: Time): State {
    if !CanDecompose(s, ids, children, batch, now) then s
    else
      InsertChildren(s, ids, children, batch, now)
      .(dependencies := s.dependencies + ChildDependencyRows(IdsByKey(ids, children), children))
  }

  // ----- Claims ------------------------------------------------------------------------

  /** A claim request after trimming. An absent list and an empty one are kept apart, as the
      request hash does. */
  datatype ClaimRequest = ClaimRequest(
    workspace: Id, project: Id, kind: string, tags: Option<seq<string>>, harness: string,
    capabilities: Option<seq<string>>, agent: string, model: string, lease: Time, key: string, ttl: Time)

  /** What `claimRequestHash` hashes: whole lease seconds; neither the key nor its lifetime. */
  datatype ClaimPayload = ClaimPayload(
    workspace: Id, project: Id, kind: string, tags: Option<seq<string>>, harness: string,
    capabilities: Option<seq<string>>, agent: string, model: string, leaseSeconds: int)

  function Payload(r: ClaimRequest): ClaimPayload {
    ClaimPayload(r.workspace, r.project, r.kind, r.tags, r.harness, r.capabilities, r.agent, r.model,
                 TruncatedSeconds(r.lease))
  }

  /** Go's conversion to an integer truncates toward zero. */
  function TruncatedSeconds(d: Time): int {
    if d >= 0 then d / SECOND else -((-d) / SECOND)
  }

  const MAX_CLAIM_LEASE: Time := 24 * 60 * MINUTE
  const DEFAULT_IDEMPOTENCY_TTL: Time := 24 * 60 * MINUTE

  predicate ValidClaim(r: ClaimRequest) {
    r.agent != "" && r.harness != "" && r.lease > 0 && r.ttl >= 0 && (r.kind != "" ==> r.kind in TICKET_KINDS)
  }

  function KeyOf(r: ClaimRequest): IdempotencyKey {
    IdempotencyKey(r.workspace, r.agent, r.key)
  }

  function Elements(list: Option<seq<string>>): set<string> {
    set x | x in list.GetOr([])
  }

  predicate DependenciesDone(s: State, id: Id) {
    forall d :: d in s.tickets && (id, d) in s.dependencies ==> s.tickets[d].status == Done
  }

  /** The WHERE clause shared by the claim and the recommendation query. */
  predicate Eligible(s: State, r: ClaimRequest, id: Id) {
    && id in s.tickets
    && var t := s.tickets[id];
    && t.workspace == r.workspace && t.project == r.project && t.status == Todo
    && (r.kind == "" || t.kind == r.kind)
    && (Elements(r.tags) == {} || t.tags * Elements(r.tags) != {})
    && (t.harnesses == {} || r.harness in t.harnesses)
    && t.capabilities <= Elements(r.capabilities)
    && DependenciesDone(s, id)
    && Spent(s, id) < MaxAttempts(t)
  }

  function EligibleTickets(s: State, r: ClaimRequest): set<Id> {
    set id | id in s.tickets && Eligible(s, r, id)
  }

  /** ORDER BY priority, created_at; ties are left open. */
  predicate ClaimsNoLater(s: State, a: Id, b: Id) {
    && a in s.tickets && b in s.tickets
    && (s.tickets[a].priority < s.tickets[b].priority
        || (s.tickets[a].priority == s.tickets[b].priority && s.tickets[a].createdAt <= s.tickets[b].createdAt))
  }

  /** `id` is a row the candidate query may return when the rows in `locked` are skipped. */
  predicate IsCandidate(s: State, r: ClaimRequest, locked: set<Id>, id: Id) {
    && id in EligibleTickets(s, r) - locked
    && forall other :: other in EligibleTickets(s, r) - locked ==> ClaimsNoLater(s, id, other)
  }

  /** The statement inserts its rows: fresh attempt id, and no second record for the key. */
  predicate CanClaim(s: State, r: ClaimRequest, locked: set<Id>, ticket: Id, attempt: Id) {
    && ValidClaim(r) && r.lease <= MAX_CLAIM_LEASE
    && IsCandidate(s, r, locked, ticket) && attempt !in s.attempts
    && (r.key == "" || KeyOf(r) !in s.idempotency)
  }

  function ClaimedAttempt(r: ClaimRequest, ticket: Id, now: Time): Attempt {
    Attempt(ticket, r.agent, r.harness, Running, now + r.lease, now, 0, None, None, None)
  }

  function ClaimRecord(r: ClaimRequest, ticket: Id, attempt: Id, now: Time): IdempotencyRecord {
    IdempotencyRecord(Payload(r), ticket, attempt, now + (if r.ttl == 0 then DEFAULT_IDEMPOTENCY_TTL else r.ttl))
  }

  function ClaimNextTicket(s: State, r: ClaimRequest, locked: set<Id>, ticket: Id, attempt: Id, now: Time): State {
    if !CanClaim(s, r, locked, ticket, attempt) then s
    else
      var started := StartAttempt(s, attempt, ClaimedAttempt(r, ticket, now));
      if r.key == "" then started
      else started.(idempotency := s.idempotency[KeyOf(r) := ClaimRecord(r, ticket, attempt, now)])
  }

  function DeleteExpiredIdempotencyKeys(s: State, now: Time): State {
    s.(idempotency := map k | k in s.idempotency && s.idempotency[k].expiresAt >= now :: s.idempotency[k])
  }

  // ----- Steps and runs ----------------------------------------------------------------

  /** One statement or one transaction of any actor, with the values it read from its clock and
      the identifiers it drew. */
  datatype Step =
    | Create(id: Id, create: CreateRequest, proposed: bool, now: Time)
    | Decompose(ids: seq<Id>, children: seq<Child>, batch: Batch, now: Time)
    | Update(id: Id, patch: Patch)
    | Move(id: Id, op: Transition)
    | Claim(claim: ClaimRequest, locked: set<Id>, ticket: Id, attempt: Id, now: Time)
    | Beat(attempt: Id, now: Time, lease: Time)
    | Note(attempt: Id, note: Progress)
    | Complete(attempt: Id, metrics: Option<Metrics>, now: Time)
    | Fail(attempt: Id, metrics: Option<Metrics>, now: Time)
    | Block(attempt: Id, metrics: Option<Metrics>, now: Time)
    | Cancel(attempt: Id, now: Time)
    | Expire(attempt: Id, now: Time, cutoff: Time)
    | PurgeKeys(now: Time)

  /** Ending an attempt and recording its metrics is one transaction. */
  function EndWithMetrics(s: State, ended: State, id: Id, m: Option<Metrics>): State {
    if !CanEnd(s, id) || !ValidMetrics(m) then s else RecordMetrics(ended, id, m)
  }

  ghost function Apply(s: State, step: Step): State {
    match step
    case Create(id, r, proposed, now) => CreateTicket(s, id, r, proposed, now)
    case Decompose(ids, children, batch, now) => DecomposeTicket(s, ids, children, batch, now)
    case Update(id, patch) => UpdateTicket(s, id, patch)
    case Move(id, op) => TransitionTicket(s, id, op)
    case Claim(r, locked, ticket, attempt, now) => ClaimNextTicket(s, r, locked, ticket, attempt, now)
    case Beat(a, now, lease) => HeartbeatAttempt(s, a, now, lease)
    case Note(a, p) => CheckpointAttempt(s, a, p)
    case Complete(a, m, now) => EndWithMetrics(s, CompleteAttempt(s, a, now), a, m)
    case Fail(a, m, now) => EndWithMetrics(s, FailAttempt(s, a, now), a, m)
    case Block(a, m, now) => EndWithMetrics(s, BlockAttempt(s, a, now), a, m)
    case Cancel(a, now) => CancelAttempt(s, a, now)
    case Expire(a, now, cutoff) => ExpireAttempt(s, a, now, cutoff)
    case PurgeKeys(now) => DeleteExpiredIdempotencyKeys(s, now)
  }

  /** The state after an interleaving of steps of any number of actors. */
  ghost function Run(s: State, steps: seq<Step>): State {
    if steps == [] then s else Apply(Run(s, steps[..|steps| - 1]), steps[|steps| - 1])
  }
}
