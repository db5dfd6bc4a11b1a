# Forge: a verified model of the ledger, the delivery queue and their readers

Forge is a pull-based work ledger. Agents claim tickets under a lease, keep the lease alive and end
each attempt; background workers expire stale leases and deliver webhooks. Nearly all of its
correctness sits in a few SQL statements and in the Go services that guard and sequence them. This
project models those statements as steps of state machines with any number of concurrent actors,
writes the services as imperative code over stored tables, and proves what holds in every reachable
state and over every run.

Verify with `dafny verify dfyconfig.toml`.

## How it is organised

| files | what they hold |
|---|---|
| `Ledger` | the ledger's rows, each statement or transaction as one step, and runs |
| `LedgerInvariant`, `LedgerRuns` | replay of the event log, the six effects every step is built from, the invariant they keep |
| `LedgerTheorems`, `LedgerRecords`, `LedgerDependencies` | the theorems over all runs: log, ownership, triage, retry budget; metrics, idempotency, leases; the dependency graph |
| `LedgerLaws`, `LedgerCreationLaws` | what each step accepts and writes, column by column, without the functions that define the step |
| `LedgerGates` | over whole runs: no work before its dependencies are done, no required review skipped |
| `LedgerClaimability` | which tickets some later run can still claim or finish |
| `LedgerCounting` | the ledger as its documents describe it, with the ended attempt counted, beside the ledger as it is |
| `Graph`, `CycleCheck` | walks and cycles; the three-colour search of the decomposition service |
| `Database`, `Services`, `Workers` | the tables as a mutable object, the statements and transactions as methods on it, and the operations that other actors can interrupt |
| `Webhooks`, `WebhookTheorems`, `WebhookTiming`, `WebhookWorker`, `WebhookLaws` | the delivery queue: steps, fencing, lock windows, backoff, one run of the worker, and what each step writes |
| `EventCursor`, `EventFeed`, `EventPolling`, `EventClients`, `SortedLists` | the cursor text, the pages of the feed, polling a growing log, and the clients that begin without a cursor |
| `LedgerFeed` | the feed over the ledger's own log |
| `Recommendation`, `Ordering` | the ranked list beside the claim; ORDER BY and LIMIT |
| `LoginThrottle` | the fixed-window failure counter |
| `Basics` | options, identifiers, instants |

Every lemma carries `{:induction false}`: all inductions are written out, and none rests on the
verifier's automatic induction hypotheses.

## What a step is

- One SQL statement is one atomic step; a transaction is one step that happens as a whole or not at
  all. Every part of one statement reads the snapshot in which the statement began (section 7.8.4 of
  the PostgreSQL manual, "Data-Modifying Statements in WITH"). `Ledger.FailAttempt` and
  `Ledger.ExpireAttempt` therefore count failed and expired attempts while the attempt being ended
  still runs.
- A statement that matches no row, a request that fails validation, and a transaction that violates
  a constraint leave the state as it was. Any other database error is no step.
- The constraints are those of sql/migrations: primary keys, the scope foreign keys of dependencies,
  parents, roots and source attempts (the workspace and project of a request exist), the check and
  primary key of `ticket_dependencies`, one idempotency record per workspace, actor, route and key,
  one delivery per subscription and event with `max_attempts > 0`, a unique `event_sequence`. The
  unique index on running attempts (sql/migrations/0001_initial_schema.sql) is not used:
  exclusivity is proved from the statements alone.
- Row ids and webhook claim tokens are drawn fresh; a step that draws a used one does nothing.
- SHA-256 is taken to be injective, so the stored request hash is the hashed payload.
- Requests arrive trimmed, with their row identifiers present. Event rows have an id and a time (NOT
  NULL columns) and numbers from 1. Clock readings are parameters.
- Rows locked by other transactions (SKIP LOCKED) are a parameter of the claims, and ties that an
  ORDER BY leaves open stay open.

## Where the code differs from its documents, or from what a reader may expect

- PRD.md:1169 and PRD.md:1171 say that a ticket whose attempt fails or expires at the retry limit
  becomes `failed`, and README.md:401-402 lists dead-letter behaviour as covered. Under the
  one-snapshot rule the count omits the attempt being ended, and by the retry budget the arm is then
  never taken (`LedgerTheorems.RetryLimitArmIsDead`). Such a ticket goes back to `todo`, where no
  claim ever takes it again (`LedgerTheorems.LastAttemptStrandsTicket`; a concrete run in
  `LedgerTheorems.DeadLetterCounterexample`). `LedgerTheorems.DeadLetterExactly` says when the
  promise is kept: exactly when the attempt fails under a policy that says `mark_failed`. Over whole
  runs, `LedgerCounting.LedgerNeverDeadLetters` has every ticket left to the count in `todo`, and
  `LedgerCounting.CountingDeadLetters` shows that counting the ended attempt would keep the promise.
- PRD.md:1250 says that a retry with the same key must return the originally committed ticket and
  attempt. There is one lookup, before the claim statement (internal/services/claims.go:110-171), so
  a retry whose lookup comes before the first claim commits is answered "key taken" (a unique
  violation, 409 at internal/api/resources.go:403-406) or "no claimable tickets", and not with the
  replay (`LedgerRecords.RacingRetryIsNotReplayed`; on the tables, `Workers.ClaimTwice`). It never
  claims a second time. `LedgerRecords.ReplayedExactly`: it is given the replay if and only if the
  record was there at its lookup.
- PRD.md:1233 says that the same key with a different request is a conflict. The hash covers
  whole lease seconds and not the lifetime of the key, so some different requests replay
  (`LedgerRecords.DifferentLeaseReplays`). `LedgerRecords.SameRequestExactly` says which.
- PRD.md:1234 says that keys expire after the retention window. The lookup reads no clock: a record
  answers until a purge deletes it, also after `expires_at` (`LedgerRecords.ExpiredRecordReplays`).
  `LedgerRecords.SurvivesExactly`: it outlives a run if and only if no purge of the run is later than
  its expiry.
- Archiving a ticket strands those that depend on it directly: they can never be claimed
  (`LedgerClaimability.ArchivedDependencyStrands`). `LedgerClaimability.ClaimableExactly`: a ticket can
  be claimed in some later run if and only if it is not archived, has attempts left, and none of its
  direct dependencies is archived. An archived ticket farther off strands nothing, because review
  finishes a ticket whatever it depends on (`LedgerClaimability.ChainExample`).
- The event feed can lose events in two ways. `event_sequence` is drawn before commit, so a lower
  number can become visible after a reader has passed it (`EventPolling.OutOfOrderIsLost`). And a
  client's first request has no cursor; while nothing is shown the next one has none either, so what
  it is first given is the recent page, which may be cut off (`EventClients.EmptyStartLosesEvent`).
  `EventClients.CompleteForEveryClient`: all clients, those that start with any cursor and the one
  that starts with none, receive every event once and in order if and only if the events the filter
  selects become visible in sequence order and the first page that shows anything is not cut off.
- The lock time of a webhook batch overflows 64 bits for batch limits above 922,337,202
  (`WebhookTiming.LockCoversBatch`).

## Model

| member | source | states |
|---|---|---|
| `Ledger.CreationRow` | internal/services/tickets.go:748-821 | a new ticket starts in backlog or todo; proposals and tickets of an agent without enqueue authority start in backlog |
| `Ledger.ChildRow` | internal/services/ticket_decomposition.go:132-175 | children start in todo in create mode and in backlog in propose mode, in the scope of the request |
| `LedgerInvariant.EventTells` | internal/db/claims.sql.go:85-113 | the event an effect appends tells exactly the status the effect leaves in the ticket's row, and the running attempt it starts or ends |
| `LedgerInvariant.EffectKeepsOwn` | internal/db/transitions.sql.go:313-336 | the ticket an effect touches still has the status and running attempt its replayed log tells |
| `LedgerInvariant.EffectSparesOthers` | internal/db/transitions.sql.go:296-312 | an effect is not seen in the replay or the row of any other ticket |
| `LedgerInvariant.EffectSpends` | internal/db/claims.sql.go:38-43 | the count of failed and expired attempts grows by one when a running attempt ends that way, and never otherwise |
| `LedgerInvariant.EffectKeepsBudget` | internal/db/claims.sql.go:38-43 | spent attempts plus the running one stay within the policy's limit |
| `LedgerInvariant.EffectKeepsTriage` | internal/services/tickets.go:467-474 | a ticket born in backlog and never marked ready is still in backlog, or archived |
| `LedgerInvariant.EffectKeepsRowInvariant` | internal/db/transitions.sql.go:14-446 | every effect keeps the whole invariant of tickets, attempts and log |
| `LedgerRuns.StepIsEffect` | internal/db/tickets.sql.go:418-450 | every step but a decomposition does nothing to the rows or exactly one legal effect, though the statements that end an attempt do not look at the ticket's status |
| `LedgerRuns.InsertChildrenKeepRows` | internal/services/ticket_decomposition.go:65-96 | the inserts of a decomposition keep the invariant and undo nothing |
| `LedgerRuns.RunKeepsRows` | internal/runtime/runtime.go:370-397 | every interleaving keeps the invariant and undoes nothing |
| `LedgerLaws.EligibleExactly` | internal/db/claims.sql.go:15-43 | which rows a claim may take: scope, todo, type, a common tag, harness, capabilities, every dependency done, attempts left |
| `LedgerLaws.CandidateExactly` | internal/db/claims.sql.go:15-47 | a candidate is unlocked and suits, and no other unlocked one that suits is more urgent, or as urgent and older |
| `LedgerLaws.ValidClaimExactly` | internal/services/claims.go:331-355 | which claim requests are valid, and the longest lease |
| `LedgerLaws.CanClaimExactly` | internal/db/claims.sql.go:14-145 | when the claim statement inserts its rows |
| `LedgerLaws.ClaimWrites` | internal/db/claims.sql.go:48-139 | every column of the rows a claim writes: ticket, attempt with its lease, event, and the record under workspace, actor and key |
| `LedgerLaws.CompleteWrites` | internal/db/transitions.sql.go:191-248 | a success ends in needs_review if and only if the policy requires review, else in done; attempt, event and metrics with it |
| `LedgerLaws.FailWrites` | internal/db/transitions.sql.go:377-446 | where a failure leaves the ticket by policy and count, with attempt, event and metrics |
| `LedgerLaws.BlockWrites` | internal/db/transitions.sql.go:14-70 | every column a block writes |
| `LedgerLaws.CancelWrites` | internal/db/transitions.sql.go:109-160 | every column a cancel writes |
| `LedgerLaws.ExpireWrites` | internal/db/transitions.sql.go:285-346 | every column an expiry writes, and that it needs a lease before the cutoff |
| `LedgerLaws.BeatWrites` | internal/db/attempts.sql.go:328-365 | a heartbeat renews lease and heartbeat time of a running attempt and nothing else |
| `LedgerLaws.NoteWrites` | internal/db/attempts.sql.go:14-78 | every column a checkpoint writes; empty texts are stored as null |
| `LedgerLaws.LifecycleMoves` | internal/services/tickets.go:467-517 | from which statuses ready, reopen, unblock and archive move a ticket, to which, with which event; else nothing |
| `LedgerLaws.ReviewMoves` | internal/services/tickets.go:494-545 | the same for requesting, approving and rejecting a review |
| `LedgerLaws.TriageMoves` | internal/services/tickets.go:586-623 | ready, reject and archive of a proposal move a ticket if and only if it is in backlog and an agent created it |
| `LedgerLaws.EnqueueMoves` | internal/services/tickets.go:383-392 | an agent enqueues a proposal only with the authority to |
| `LedgerLaws.MergeMoves` | internal/services/tickets.go:402-437 | a proposal is merged only into another stored ticket of its scope |
| `LedgerLaws.UpdateWrites` | internal/services/tickets.go:302-378 | which patches are accepted, and that each member present replaces its column and no other |
| `LedgerCreationLaws.CreationRefuses` | internal/services/tickets.go:748-869 | exactly which create requests are refused, and with which error |
| `LedgerCreationLaws.CreationColumns` | internal/services/tickets.go:748-821 | every column of a new ticket, with its defaults |
| `LedgerCreationLaws.CreateWrites` | internal/services/tickets.go:697-741 | the ticket, one row for each dependency and one event are written exactly when id, links and dependencies allow it |
| `LedgerCreationLaws.ChildColumns` | internal/services/ticket_decomposition.go:132-175 | every column of a child, parent and root included |
| `LedgerCreationLaws.ChildAccepted` | internal/services/ticket_decomposition.go:177-224 | exactly which children are accepted |
| `LedgerCreationLaws.DecomposesExactly` | internal/services/ticket_decomposition.go:58-99 | what a decomposition requires of keys, dependencies, ids, parent and root |
| `LedgerCreationLaws.DecomposeWrites` | internal/services/ticket_decomposition.go:65-96 | each child under its id, one event each in order, one dependency row for each dependency between children, and nothing else |
| `LedgerTheorems.LogDeterminesRows` | internal/services/tickets.go:625-660 | in every reachable state the replayed events of a ticket give its stored status and its set of running attempts |
| `LedgerTheorems.OwnershipIsExclusive` | internal/db/claims.sql.go:15-84 | in every reachable state in_progress means exactly one running attempt, any other status none |
| `LedgerTheorems.AttemptsEndOnce` | internal/db/transitions.sql.go:14-446 | each attempt has one claimed event, and one ending event exactly when it has ended |
| `LedgerTheorems.TriageBeforeWork` | internal/services/tickets.go:586-609 | in every run a ticket born in backlog has a ready event before each claimed event |
| `LedgerTheorems.UntriagedStartsInBacklog` | internal/services/ticket_decomposition.go:132-175 | proposals, propose-mode children and unauthorised agents' tickets are born in backlog |
| `LedgerTheorems.UntriagedIsNotClaimed` | internal/services/tickets.go:228-232 | whatever follows their creation, such tickets are not claimed before a ready event |
| `LedgerTheorems.EndedStaysEnded` | internal/db/transitions.sql.go:203-214 | over any later run archived tickets stay archived, ended attempts never change, the log only grows |
| `LedgerTheorems.RetryBudget` | internal/db/claims.sql.go:38-43 | in every reachable state failed, expired and running attempts together are at most max(0, max_attempts) |
| `LedgerTheorems.ExhaustedIsNeverClaimed` | internal/services/tickets.go:476-492 | once the budget is spent no later run claims the ticket, whatever is reopened, unblocked or reviewed |
| `LedgerTheorems.RunningLeavesBudget` | internal/db/transitions.sql.go:391-404 | while an attempt runs the count read by its statements is below the limit |
| `LedgerTheorems.RetryLimitArmIsDead` | internal/db/transitions.sql.go:298-307 | in every reachable state a failure yields failed or needs_review exactly when the policy names it, and an expiry yields todo |
| `LedgerTheorems.CountingTheEndedAttempt` | PRD.md:1166-1171 | with the ended attempt counted, every end the policy does not decide would land in failed exactly when the budget is spent |
| `LedgerTheorems.DeadLetterExactly` | internal/db/transitions.sql.go:378-409 | the end of the last allowed attempt puts the ticket in failed if and only if it fails under mark_failed |
| `LedgerTheorems.LastAttemptStrandsTicket` | internal/db/transitions.sql.go:286-312 | after the last allowed attempt no run ever claims the ticket |
| `LedgerTheorems.DeadLetterCounterexample` | README.md:401-402 | a run of three steps leaves a ticket in todo with its budget spent |
| `LedgerCounting.CountingDeadLetters` | PRD.md:1166-1171 | in every run of the ledger with the ended attempt counted, a ticket last moved by a failure or expiry the policy leaves to the count is in failed exactly when its budget is spent |
| `LedgerCounting.LedgerNeverDeadLetters` | internal/db/transitions.sql.go:286-312 | in every run of the ledger itself such a ticket is in todo, spent or not |
| `LedgerGates.WorkWaitsForDependencies` | internal/db/claims.sql.go:31-37 | in every run, whenever a ticket was claimed the log has each ticket it depends on done |
| `LedgerGates.StepClaimsWhenDone` | internal/db/claims.sql.go:31-37 | a step of a run that claims a ticket finds each of its dependencies stored as done |
| `LedgerGates.RequiredReviewHappens` | internal/db/transitions.sql.go:203-214 | in every run a ticket that is done although its policy requires review was last moved by a review |
| `LedgerRecords.StepWritesMetrics` | internal/services/attempts.go:258-276 | metrics are written only for an attempt found running, in the step that ends it |
| `LedgerRecords.MetricsAreWrittenOnce` | internal/services/attempts.go:171-276 | metrics, once present, belong to an ended attempt and never change in any later run |
| `LedgerRecords.StepKeepsRecord` | internal/db/idempotency.sql.go:63-83 | no step alters an idempotency record, exactly the purge of an expired one removes it, a claim with its key changes nothing |
| `LedgerRecords.RecordSurvives` | internal/db/idempotency.sql.go:63-66 | over any run with no purge later than its expiry a record is present and unchanged |
| `LedgerRecords.SurvivesExactly` | internal/db/idempotency.sql.go:63-66 | a record is there after every prefix of a run if and only if the run has no purge later than its expiry |
| `LedgerRecords.KeyedClaimsAreIdle` | internal/db/claims.sql.go:114-139 | until a purge later than the record's expiry every claim with its key leaves the store untouched, so it names the only attempt |
| `LedgerRecords.RetryReplays` | internal/services/claims.go:173-199 | after a keyed claim commits, any lookup with the key before a purge later than the expiry replays the same ticket and attempt exactly when the payloads agree, else conflicts |
| `LedgerRecords.ExpiredRecordReplays` | internal/db/idempotency.sql.go:76-83 | after the clock has passed the expiry a lookup still replays, and misses only after the purge |
| `LedgerRecords.ReplayedExactly` | internal/services/claims.go:110-171 | whatever others do between lookup and claim, a keyed request whose record is stored never claims, and is given the replay or conflict if and only if the record was there at its lookup |
| `LedgerRecords.RacingRetryIsNotReplayed` | internal/services/claims.go:163-168 | when both lookups come before the first claim, the second caller is told that the key is taken or nothing is claimable |
| `LedgerRecords.SameRequestExactly` | internal/services/claims.go:246-274 | two requests have the same hash if and only if all hashed fields and the whole seconds of the lease agree |
| `LedgerRecords.DifferentLeaseReplays` | PRD.md:1229-1234 | a run in which a request for a lease of one and a half seconds is answered with the claim of one second |
| `LedgerRecords.OnlyExpiryExpires` | internal/db/transitions.sql.go:286-295 | an attempt becomes expired only by an expiry that finds it running on a lease before the cutoff |
| `LedgerRecords.LeaseIsPromised` | internal/db/attempts.sql.go:328-336 | while an attempt runs its stored lease is the one its last heartbeat asked for, or its first |
| `LedgerRecords.RenewedNeverExpires` | internal/db/attempts.sql.go:328-336 | on a clock that never runs back, an attempt is never expired if, while it runs, each step falls within what its last heartbeat promised, whatever races with it |
| `LedgerDependencies.FreshSourceStaysAcyclic` | internal/services/tickets.go:703-718 | edges out of a new ticket close no cycle |
| `LedgerDependencies.RenamedStaysAcyclic` | internal/services/ticket_decomposition.go:84-96 | mapping child keys one to one to row ids creates no cycle |
| `LedgerDependencies.DependenciesNeverCycle` | internal/services/ticket_decomposition.go:205-217 | in every reachable state the stored dependency graph is acyclic and refers to stored tickets |
| `LedgerDependencies.ChainReachesEnd` | internal/db/claims.sql.go:31-37 | a chain of unmet dependencies ends within as many steps as there are tickets |
| `LedgerDependencies.BlockedWorkHasARoot` | internal/db/claims.sql.go:31-37 | from every blocked ticket unmet dependencies lead to a ticket that is not done and has none |
| `LedgerClaimability.ArchivedDependencyStrands` | internal/db/claims.sql.go:31-37 | a ticket with an archived direct dependency is claimed by no later run |
| `LedgerClaimability.ClaimableExactly` | internal/db/claims.sql.go:15-47 | a stored ticket can be claimed in some later run if and only if it is not archived, has attempts left and no direct dependency is archived; and then by a claim with no row locked |
| `LedgerClaimability.FinishableExactly` | internal/services/tickets.go:494-545 | a stored ticket can be done in some later run if and only if it is not archived, whatever it depends on |
| `LedgerClaimability.ChainExample` | internal/services/tickets.go:503-517 | a run after which a ticket waits for one that waits for an archived one, and can still be claimed |
| `CycleCheck.Search.Visit` | internal/services/ticket_decomposition.go:235-255 | a visit reports a cycle only if there is one, else finishes the key and keeps the finish order topological |
| `CycleCheck.HasDependencyCycle` | internal/services/ticket_decomposition.go:226-262 | for any child list it terminates, returns true exactly when the graph has a cycle, else the finish order is topological |
| `CycleCheck.TopologicalIsAcyclic` | internal/services/ticket_decomposition.go:226-262 | a topological order of all keys rules out cycles |
| `CycleCheck.MapHasAllEdges` | internal/services/ticket_decomposition.go:226-231 | for distinct keys the map searched holds exactly the edges of the request |
| `Ordering.FirstBy` | internal/db/attempts.sql.go:556-563 | the rows of smallest key up to the limit, in order, without repetition |
| `Database.Store.CompleteAttempt` | internal/db/transitions.sql.go:191-248 | the new tables are those of the step, and a row is returned exactly when a running attempt matched |
| `Database.Store.FailAttempt` | internal/db/transitions.sql.go:377-446 | the same, with the count taken before any table is written |
| `Database.Store.BlockAttempt` | internal/db/transitions.sql.go:14-70 | the same for block |
| `Database.Store.CancelAttempt` | internal/db/transitions.sql.go:109-160 | the same for cancel |
| `Database.Store.ExpireAttempt` | internal/db/transitions.sql.go:285-346 | the same for expire, which also needs a lease before the cutoff |
| `Database.Store.CountSpent` | internal/db/transitions.sql.go:391-404 | the loop counts exactly the failed and expired attempts of the ticket |
| `Database.Store.HeartbeatAttempt` | internal/db/attempts.sql.go:328-365 | renews the lease of a running attempt and appends a heartbeat event, else changes nothing |
| `Database.Store.CheckpointAttempt` | internal/db/attempts.sql.go:14-78 | records progress, summary and next step, the checkpoint row and the event of a running attempt, else changes nothing |
| `Database.Store.TransitionTicket` | internal/db/tickets.sql.go:418-450 | moves a ticket and appends the event exactly when the service admits it and the status is allowed |
| `Database.Store.UpdateTicket` | internal/db/tickets.sql.go:541-564 | a valid patch changes only the fields it names, never the status; any other changes nothing |
| `Database.Store.InsertDependency` | internal/db/tickets.sql.go:148-157 | adds the row exactly when check, keys and scope allow it |
| `Database.Store.FindCandidate` | internal/db/claims.sql.go:15-47 | finds an unlocked ticket that suits the request in every column, before which no other such ticket goes, or there is none |
| `Database.Store.ClaimNextTicket` | internal/db/claims.sql.go:14-145 | writes ticket, attempt, event and record together or nothing; the ticket taken suits the request and no other unlocked one goes before it; nothing claimable means that none suits |
| `Database.Store.DeleteExpiredIdempotencyKeys` | internal/db/idempotency.sql.go:63-66 | removes exactly the expired records and counts them |
| `Database.Store.ListExpiredRunningAttempts` | internal/db/attempts.sql.go:556-563 | running attempts whose lease passed, each once; one left out is no older than any listed and means that the list is full |
| `Services.CreateTicket` | internal/services/tickets.go:697-741 | commits ticket, dependencies and event exactly when all can be stored, links included, else rolls back to the start |
| `Services.ValidateDecomposition` | internal/services/ticket_decomposition.go:177-224 | accepts exactly the non-empty lists with distinct keys, known acyclic dependencies and valid children |
| `Services.DecomposeTicket` | internal/services/ticket_decomposition.go:58-99 | commits all children, events and dependency rows exactly when every insert can succeed and parent and root are stored, else rolls back |
| `Workers.EndWith` | internal/runtime/runtime.go:357-368 | ends an attempt with its metrics as one step |
| `Workers.ClaimNext` | internal/services/claims.go:110-171 | with any steps of others between lookup and claim: replay, conflict and denial write nothing, and a claim is the claim step in the state it finds |
| `Workers.ClaimTwice` | internal/services/claims.go:163-168 | the race on the tables: the second caller gets no replay and changes nothing |
| `Workers.RunMaintenance` | internal/jobs/maintenance.go:70-110 | under any interleaving expired plus skipped equals listed, each listed attempt is expired exactly when still expirable at its turn, and expired keys and old settled deliveries are purged last and counted |
| `Workers.UndisturbedRunSkipsNothing` | internal/jobs/maintenance.go:70-95 | with no other actor at work every listed attempt is expired |
| `Workers.UndisturbedRunLeavesNone` | internal/jobs/maintenance.go:70-95 | after an undisturbed maintenance run whose list was not full no attempt runs on a lease that had passed |
| `WebhookLaws.EnqueueWrites` | sql/migrations/0004_webhook_deliveries.sql:53-99 | a new delivery is pending, unattempted and due at once; one per subscription and event |
| `WebhookLaws.ClaimChooses` | internal/db/webhooks.sql.go:15-30 | which rows a claim takes; one left out is no older than any taken and means that the limit is reached |
| `WebhookLaws.ClaimWrites` | internal/db/webhooks.sql.go:32-40 | every column a claim writes |
| `WebhookLaws.SucceedWrites` | internal/db/webhooks.sql.go:394-409 | every column a success writes, and when it finds its row |
| `WebhookLaws.FailWrites` | internal/db/webhooks.sql.go:325-343 | every column a failure writes: status by the limit, next attempt after 1, 2, 4, 8, 16 or 32 minutes |
| `WebhookLaws.PurgeWrites` | internal/db/webhooks.sql.go:212-216 | exactly the settled rows last written before the cutoff are removed |
| `WebhookLaws.LockTimes` | internal/jobs/webhooks.go:182-188 | the lock lasts two minutes for up to eleven deliveries, then ten seconds for each and ten more |
| `WebhookTheorems.HolderMatches` | internal/db/webhooks.sql.go:325-341 | a holder's token matches exactly when nothing happened to the row since its claim, and then the count it read is the stored one |
| `WebhookTheorems.StepKeepsSound` | internal/db/webhooks.sql.go:14-40 | every step keeps each row equal to what the last claim or mark of it says |
| `WebhookTheorems.ReachableQueues` | internal/db/webhooks.sql.go:14-40 | the same in every reachable queue |
| `WebhookTheorems.Fencing` | internal/db/webhooks.sql.go:394-407 | in every reachable queue a mark by a holder raises the stored count by exactly one and settles that row alone, or, if the holder is stale, changes nothing |
| `WebhookTheorems.AttemptsAreBounded` | internal/db/webhooks.sql.go:325-341 | pending or delivering means count below max_attempts, failed means equal, and the count is the number of marks that took effect |
| `WebhookTheorems.UnsettledIsClaimable` | internal/db/webhooks.sql.go:19-27 | an unsettled row is claimable exactly when its subscription is active and its backoff and lock have passed, whatever became of its worker |
| `WebhookTheorems.SettledForGood` | internal/db/webhooks.sql.go:212-216 | succeeded and failed rows stay as they are until purged and never come back |
| `WebhookTiming.LockWindow` | internal/db/webhooks.sql.go:19-27 | if clocks agree, before locked_until an unmarked claim still owns its row |
| `WebhookTiming.OneHolderAtATime` | internal/db/webhooks.sql.go:19-27 | no two claims of one delivery are both unmarked and within their locks |
| `WebhookTiming.LockCoversBatch` | internal/jobs/webhooks.go:182-188 | for every 32-bit limit the lock covers that many timeouts plus the buffer if and only if the limit is at most 922,337,202 |
| `WebhookTiming.BatchIsCovered` | internal/jobs/webhooks.go:182-188 | the lock covers every batch of a limit that does not overflow, and eleven sends under any limit |
| `WebhookTiming.MarksLandInTime` | internal/jobs/webhooks.go:134-188 | with sends within the timeout and other work under the buffer, every mark of a batch that the lock covers runs before the lock ends |
| `WebhookTiming.TotalBackoffMinutes` | internal/jobs/webhooks.go:288-296 | the delays add up to 2^n - 1 minutes for up to six failures, then 32 minutes each |
| `WebhookTiming.BackoffSchedule` | internal/jobs/webhooks.go:254-271 | a claim after k failures comes no earlier than the first failure plus the first k delays |
| `WebhookTiming.ExhaustedSchedule` | internal/jobs/webhooks.go:254-296 | the last claim of a delivery that failed m times comes at least the first m - 1 delays after its first failure |
| `WebhookWorker.DeliveryStore.SelectPending` | internal/db/webhooks.sql.go:15-30 | the candidates are the oldest claimable unlocked rows up to the limit |
| `WebhookWorker.DeliveryStore.ClaimPending` | internal/db/webhooks.sql.go:14-65 | the new table is that of the claim step, and the worker is handed exactly the claimed rows |
| `WebhookWorker.DeliveryStore.MarkSucceeded` | internal/db/webhooks.sql.go:394-409 | the new table is that of the step, and a row is found exactly when token and status match |
| `WebhookWorker.DeliveryStore.MarkFailed` | internal/db/webhooks.sql.go:325-343 | the same for a failed mark |
| `WebhookWorker.CountedByEffect` | internal/jobs/webhooks.go:254-271 | the worker's "exhausted", decided from claim-time counts, agrees with what the mark did to the row |
| `WebhookWorker.TallyAddsUp` | internal/jobs/webhooks.go:150-179 | every claimed delivery is counted once |
| `WebhookWorker.RunOnce` | internal/jobs/webhooks.go:134-180 | with any steps of others between marks, claimed = succeeded + failed + retried + lost, each counted by what its mark did |
| `WebhookWorker.NoLostOwnership` | internal/jobs/webhooks.go:150-179 | if every mark runs before the lock ends none is lost, whatever other workers do |
| `WebhookWorker.PunctualBatch` | internal/jobs/webhooks.go:134-188 | clocks agreeing, sends within the timeout, other work under the buffer and a batch that the lock covers: no mark of it is lost |
| `WebhookWorker.RunPunctually` | internal/jobs/webhooks.go:134-180 | the worker's own counters under those bounds: in any reachable queue LostOwnership is 0 if the lock covers the batch, as it does for every limit up to 922,337,202 and every batch up to eleven |
| `EventCursor.Base64RoundTrip` | internal/services/events.go:112-123 | decoding undoes encoding for every byte string |
| `EventCursor.SymbolsAreTheAlphabet` | internal/services/events.go:112-118 | the symbols are those of table 2 of RFC 4648 |
| `EventCursor.SextetsSpellBytes` | internal/services/events.go:112-118 | four sextets spell the same 24 bits as three bytes |
| `EventCursor.IntRoundTrip` | internal/services/events.go:116-131 | every 64-bit integer parses back from its decimal text |
| `EventCursor.UuidRoundTrip` | internal/services/events.go:148-153 | every uuid parses back from its text |
| `EventCursor.CursorRoundTrip` | internal/services/events.go:112-146 | a formatted cursor parses back to the same sequence number, time and id, exactly for positive numbers |
| `EventCursor.CursorSpells` | internal/services/events.go:112-118 | a cursor spells sequence number, time and id, in this order |
| `EventCursor.UuidLayout` | internal/services/events.go:148-153 | where the separators of a uuid stand, and that its digits are in lower case |
| `EventFeed.RecentIsTail` | internal/db/events.sql.go:68-81 | the cursor-free page is the last min(limit, n) matching events in order |
| `EventFeed.PageIsWindow` | internal/db/events.sql.go:129-139 | a page holds exactly the matching events after the cursor up to its last one, in order, and stops early only at the end |
| `EventFeed.ListEvents` | internal/services/events.go:53-102 | which requests are refused; that a page holds only rows that agree with the filter in each column, and every such row of its window, up to its size; and that the next cursor parses to its last event |
| `EventPolling.DeliveredInOrder` | internal/services/events.go:53-102 | polls never repeat or reorder events, whatever becomes visible when |
| `EventPolling.DeliveredWhenPassed` | internal/db/events.sql.go:129-139 | an event is delivered exactly when it was visible at the poll that passed its number |
| `EventPolling.FeedIsComplete` | internal/db/events.sql.go:129-139 | one reader receives every matching event exactly once and in order if and only if none became visible after that reader had passed its number |
| `EventPolling.CompleteForEveryReader` | internal/db/events.sql.go:129-139 | every reader that starts at or after a position receives each matching event exactly once and in order if and only if the selected events after that position become visible in sequence order |
| `EventPolling.InOrderIsNeverLate` | sql/migrations/0006_ticket_event_sequence.sql:1-32 | if the selected events after its start become visible in sequence order a reader finds none late, for any limits |
| `EventPolling.CaughtUp` | internal/services/events.go:53-102 | if the selected events after its cursor become visible in sequence order, after a page that is not full the reader has received everything after that cursor |
| `EventPolling.OutOfOrderIsLost` | internal/db/events.sql.go:129-139 | a reader with its cursor at 1, and two events that commit out of order, of which the lower is never delivered |
| `EventPolling.FollowFrom` | internal/services/events.go:53-146 | a client with a cursor that hands each next cursor back receives what polling by sequence number delivers |
| `EventCursor.CursorsArePositive` | internal/services/events.go:120-146 | no text parses to a position below 1 |
| `EventClients.FirstPageIsTail` | internal/db/events.sql.go:68-81 | the page without a cursor ends at the last event shown and holds all of them exactly when they fit |
| `EventClients.FirstPageDecides` | internal/services/events.go:74-101 | with in-order visibility the client that starts without a cursor receives everything up to where it got if and only if the first page that showed anything was not cut off |
| `EventClients.CompleteForEveryClient` | internal/services/events.go:53-102 | all clients receive everything if and only if the selected events become visible in sequence order and that first page is not cut off |
| `EventClients.ClientCaughtUp` | internal/services/events.go:53-102 | under those conditions, after a page that is not full that client has received all there is |
| `EventClients.EmptyStartLosesEvent` | internal/services/events.go:97-101 | a client that polls an empty feed and is then given only the newer of two events |
| `EventClients.Follow` | internal/services/events.go:53-146 | what a client receives that hands each next cursor back from its first request on, with or without a cursor |
| `LedgerFeed.LogIsVisibleInOrder` | internal/db/events.sql.go:68-139 | whenever it is looked at, the log of a run is visible in sequence order |
| `LedgerFeed.SelectionReplays` | internal/services/tickets.go:625-660 | any selection that has all of a ticket's events replays like the whole log |
| `LedgerFeed.ClientKnowsTicket` | internal/services/events.go:53-102 | a client whose first page fits and whose last page is not full computes, by replaying what it received, the stored status and running attempt of a ticket |
| `Recommendation.BonusExactly` | internal/db/search.sql.go:67-84 | what each reason is worth, in terms of columns and of finished related work |
| `Recommendation.PointsDecide` | internal/db/search.sql.go:74-134 | bonuses against ten points for a priority level and five for a failure |
| `Recommendation.FailuresAgainstUrgency` | internal/db/search.sql.go:74-134 | with equal bonuses a level weighs as much as two failures; ties go by urgency, age and id |
| `Recommendation.BeforeIsTotalOrder` | internal/db/search.sql.go:131-134 | the query's order is a strict total order |
| `Recommendation.RankingRanks` | internal/db/search.sql.go:131-134 | the ranked list holds the eligible tickets, each once, in that order |
| `Recommendation.RankingIsUnique` | internal/db/search.sql.go:131-134 | it is the only such list |
| `Recommendation.PagesConcatenate` | internal/db/search.sql.go:132-134 | consecutive pages of any one size concatenate to the ordered list |
| `Recommendation.RecommendationPages` | internal/services/search.go:79-119 | with the service's defaults and caps, enough pages return the whole list |
| `Recommendation.ClaimAgrees` | internal/db/claims.sql.go:15-47 | with no locked rows a claim finds a ticket exactly when the list is non-empty, and takes a member least by priority and age |
| `Recommendation.UrgencyDominates` | internal/db/search.sql.go:74-86 | a ticket three priority levels more urgent with no more failures always ranks higher |
| `Recommendation.TwoLevelsAreNotEnough` | internal/db/search.sql.go:74-86 | a run after which a ticket two levels more urgent with no more failures ranks lower |
| `LoginThrottle.HandleLogin` | internal/web/handler.go:260-272 | the counter and the answer are those of the specification for every request |
| `LoginThrottle.OutcomeExactly` | internal/web/handler.go:260-272 | a check is refused exactly while the current minute has counted ten failures, whatever the token; else the token decides |
| `LoginThrottle.RefusedOnlyAfterTen` | internal/web/handler.go:85-118 | when a check is refused at least ten were rejected within the last minute |
| `LoginThrottle.SlidingBound` | internal/web/handler.go:85-118 | no window counts more than 10 failures and no half-open minute has more than 20 rejected checks |
| `LoginThrottle.BoundIsAttained` | internal/web/handler.go:85-118 | a run with 20 rejected checks in one half-open minute |

## Left out

- HTTP routing, the MCP adapter, the command line, HTML and terminal interfaces: plumbing over the services.
- Full text search, related work and analytics: they rest on database text ranking and on sums that are easy once given.
- Artifacts: storage and registration, and therefore `transitionWithArtifacts` (internal/runtime/runtime.go:326-355) beyond ending the attempt.
- Webhook destinations, signatures, payloads and recorded responses: foreign libraries and I/O; a send is only whether it succeeded.
- The trigger that enqueues webhook deliveries is a step of the queue; which ledger events it fires on is not modelled.
- `CreateAttempt` (internal/db/attempts.sql.go:131): no service calls it.
- `CreateTicketFromAttempt` and `RefineProposedTicket` when one of their writes fails: they run without a transaction; only their successful completion is a step.
- Source artifacts of tickets, and the foreign key on them: artifacts are not modelled.
- Tools, permissions, environment and schemas of tickets, and the model, output and trace of attempts: stored and returned, read by no guard.
- The context bundle that accompanies a claim, including `priorAttempts`: a read of rows already modelled.
- Malformed `retry_policy` documents that make a cast fail; JSON encoding.
- EventCursor.CursorRoundTrip: keeps the time as text, with Go's RFC 3339 parser as a parameter, because the feed never uses the parsed time.
- Trimming of requests, except that empty strings are dropped from a ticket's lists.
- Concurrent login requests: the bound is for requests handled one at a time, as the mutex covers each half of a check separately.
- The summed result of several webhook workers: the accounting is stated for one run.
- Liveness: that someone does claim, renew, deliver or poll is not claimed.
- LedgerFeed.LogIsVisibleInOrder: takes steps to commit in the order in which they draw event numbers; PostgreSQL does not promise that, and `EventPolling.OutOfOrderIsLost` is what happens otherwise.
- The default batch limit of 25 that `NewWebhookWorker` puts in place of a limit below 1: limits are positive here.
- Full tables are `map`, `set` and `seq` fields replaced as a whole; index structures and row locks inside a statement are not modelled.
