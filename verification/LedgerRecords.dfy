/** Metrics rows, idempotency records and leases over runs. */
module LedgerRecords {
  import opened Basics
  import opened Ledger
  import opened LedgerInvariant
  import opened LedgerRuns
  import opened LedgerTheorems

  // ----- Metrics -----------------------------------------------------------------------

  /** Only attempts that have ended have metrics. */
  ghost predicate MetricsAfterEnd(s: State) {
    forall a :: a in s.metrics ==> a in s.attempts && s.attempts[a].status != Running
  }

  /** A step writes metrics only for an attempt it finds running, and leaves that attempt ended. */
  lemma {:induction false} StepWritesMetrics(s: State, step: Step, a: Id)
    requires a in Apply(s, step).metrics
    requires a !in s.metrics || Apply(s, step).metrics[a] != s.metrics[a]
    ensures IsRunning(s, a) && a in Apply(s, step).attempts && Apply(s, step).attempts[a].status != Running
  {
    if step.Decompose? {
      UnchangedByDecomposition(s, step);
    }
  }

  lemma {:induction false} UnchangedByDecomposition(s: State, step: Step)
    requires step.Decompose?
    ensures Apply(s, step).metrics == s.metrics && Apply(s, step).idempotency == s.idempotency
    ensures s.tickets.Keys <= Apply(s, step).tickets.Keys && s.attempts == Apply(s, step).attempts
  {
    if CanDecompose(s, step.ids, step.children, step.batch, step.now) {
      InsertChildrenFrame(s, step.ids, step.children, step.batch, step.now);
    }
  }

  lemma {:induction false} NoMetricsDeleted(s: State, step: Step)
    ensures s.metrics.Keys <= Apply(s, step).metrics.Keys
  {
    if step.Decompose? {
      UnchangedByDecomposition(s, step);
    }
  }

  lemma {:induction false} StepKeepsMetrics(s: State, step: Step)
    requires RowInvariant(s) && MetricsAfterEnd(s)
    ensures MetricsAfterEnd(Apply(s, step))
    ensures forall a :: a in s.metrics ==> a in Apply(s, step).metrics && Apply(s, step).metrics[a] == s.metrics[a]
  {
    StepKeepsRows(s, step);
    NoMetricsDeleted(s, step);
    var s' := Apply(s, step);
    forall a | a in s'.metrics ensures a in s'.attempts && s'.attempts[a].status != Running {
      if a !in s.metrics || s'.metrics[a] != s.metrics[a] {
        StepWritesMetrics(s, step, a);
      } else {
        assert AttemptEvolves(s, s', a);
      }
    }
    forall a | a in s.metrics ensures a in s'.metrics && s'.metrics[a] == s.metrics[a] {
      if s'.metrics[a] != s.metrics[a] { StepWritesMetrics(s, step, a); }
    }
  }

  lemma {:induction false} RunKeepsMetrics(s: State, steps: seq<Step>)
    requires RowInvariant(s) && MetricsAfterEnd(s)
    ensures MetricsAfterEnd(Run(s, steps))
    ensures forall a :: a in s.metrics ==> a in Run(s, steps).metrics && Run(s, steps).metrics[a] == s.metrics[a]
  {
    hide Apply, RowInvariant;
    if steps != [] {
      RunKeepsMetrics(s, steps[..|steps| - 1]);
      RunKeepsRows(s, steps[..|steps| - 1]);
      StepKeepsMetrics(Run(s, steps[..|steps| - 1]), steps[|steps| - 1]);
    }
  }

  /** Metrics are written at most once per attempt: once present they never change, and they are
      present only after the attempt has ended. */
  lemma {:induction false} MetricsAreWrittenOnce(steps: seq<Step>, more: seq<Step>, a: Id)
    requires a in Run(EMPTY, steps).metrics
    ensures var s, s' := Run(EMPTY, steps), Run(EMPTY, steps + more);
            && a in s.attempts && s.attempts[a].status != Running
            && a in s'.metrics && s'.metrics[a] == s.metrics[a]
  {
    hide Apply, RowInvariant;
    RunKeepsMetrics(EMPTY, steps) by { ReachableRows([]); }
    ReachableRows(steps);
    RunKeepsMetrics(Run(EMPTY, steps), more);
    RunSplits(EMPTY, steps, more);
  }

  // ----- Idempotent claims -------------------------------------------------------------

  datatype ClaimOutcome =
    | Invalid | Denied | Conflict | NoneClaimable | KeyTaken
    | Replayed(ticket: Id, attempt: Id)
    | Claimed(ticket: Id, attempt: Id)

  /** `replayClaim`: what the stored record answers, if there is one. */
  function Lookup(s: State, r: ClaimRequest): Option<ClaimOutcome> {
    if r.key == "" || KeyOf(r) !in s.idempotency then None
    else
      var record := s.idempotency[KeyOf(r)];
      if record.payload == Payload(r) then Some(Replayed(record.ticket, record.attempt)) else Some(Conflict)
  }

  /** No step alters a record, and exactly the purge of an expired one removes it. While it lives, a
      claim with its key changes nothing at all. */
  lemma {:induction false} StepKeepsRecord(s: State, step: Step, k: IdempotencyKey)
    requires k in s.idempotency
    ensures var s' := Apply(s, step);
            && (k in s'.idempotency ==> s'.idempotency[k] == s.idempotency[k])
            && (k !in s'.idempotency <==> step.PurgeKeys? && s.idempotency[k].expiresAt < step.now)
            && (step.Claim? && step.claim.key != "" && KeyOf(step.claim) == k ==> s' == s)
  {
    if step.Decompose? {
      UnchangedByDecomposition(s, step);
    }
  }

  /** No purge among the steps is later than `expiry`. */
  ghost predicate NoLatePurge(steps: seq<Step>, expiry: Time) {
    forall i :: 0 <= i < |steps| && steps[i].PurgeKeys? ==> steps[i].now <= expiry
  }

  /** The record of `k` is in the store after every prefix of `steps`. */
  ghost predicate Survives(s: State, steps: seq<Step>, k: IdempotencyKey) {
    forall n :: 0 <= n <= |steps| ==> k in Run(s, steps[..n]).idempotency
  }

  lemma {:induction false} RecordSurvives(s: State, steps: seq<Step>, k: IdempotencyKey)
    requires k in s.idempotency && NoLatePurge(steps, s.idempotency[k].expiresAt)
    ensures k in Run(s, steps).idempotency && Run(s, steps).idempotency[k] == s.idempotency[k]
  {
    hide Apply;
    if steps != [] {
      var before := steps[..|steps| - 1];
      RecordSurvives(s, before, k);
      StepKeepsRecord(Run(s, before), steps[|steps| - 1], k);
    }
  }

  /** A record outlives a run exactly when the run has no purge later than its expiry: the clock
      reaching `expires_at` does nothing. */
  lemma {:induction false} SurvivesExactly(s: State, steps: seq<Step>, k: IdempotencyKey)
    requires k in s.idempotency
    ensures Survives(s, steps, k) <==> NoLatePurge(steps, s.idempotency[k].expiresAt)
  {
    hide Apply;
    var expiry := s.idempotency[k].expiresAt;
    if NoLatePurge(steps, expiry) {
      forall n | 0 <= n <= |steps| ensures k in Run(s, steps[..n]).idempotency { RecordSurvives(s, steps[..n], k); }
    }
    if Survives(s, steps, k) && steps != [] {
      var n := |steps| - 1;
      var before := steps[..n];
      assert forall m :: 0 <= m <= n ==> before[..m] == steps[..m];
      SurvivesExactly(s, before, k);
      RecordSurvives(s, before, k);
      StepKeepsRecord(Run(s, before), steps[n], k);
      assert steps[..|steps|] == steps;
      assert forall i :: 0 <= i < n ==> before[i] == steps[i];
    }
  }

  /** At most one attempt per live record: until a purge later than its expiry, every claim statement
      carrying its key leaves the store untouched. */
  lemma {:induction false} KeyedClaimsAreIdle(s: State, steps: seq<Step>, k: IdempotencyKey, i: nat)
    requires i < |steps| && k in s.idempotency && NoLatePurge(steps[..i], s.idempotency[k].expiresAt)
    requires steps[i].Claim? && steps[i].claim.key != "" && KeyOf(steps[i].claim) == k
    ensures Run(s, steps[..i + 1]) == Run(s, steps[..i])
  {
    hide Apply;
    assert steps[..i + 1][..i] == steps[..i];
    RecordSurvives(s, steps[..i], k);
    StepKeepsRecord(Run(s, steps[..i]), steps[i], k);
  }

  /** After a keyed claim commits, every lookup with that key made before a purge later than the
      record's expiry replays the same ticket and attempt, which both still exist, or reports a
      conflict: the first exactly when the hashed payloads agree. The lookup writes nothing. */
  lemma {:induction false} RetryReplays(steps: seq<Step>, r: ClaimRequest, locked: set<Id>, ticket: Id, attempt: Id, now: Time,
                                        more: seq<Step>, again: ClaimRequest)
    requires CanClaim(Run(EMPTY, steps), r, locked, ticket, attempt) && r.key != ""
    requires KeyOf(again) == KeyOf(r) && NoLatePurge(more, ClaimRecord(r, ticket, attempt, now).expiresAt)
    ensures var s := Run(EMPTY, steps + [Claim(r, locked, ticket, attempt, now)] + more);
            && Lookup(s, again) == Some(if Payload(again) == Payload(r) then Replayed(ticket, attempt) else Conflict)
            && ticket in s.tickets && attempt in s.attempts && s.attempts[attempt].ticket == ticket
  {
    hide Apply, CanClaim, Run, NoLatePurge, Evolves;
    var claim := Claim(r, locked, ticket, attempt, now);
    var s1 := Run(EMPTY, steps + [claim]);
    RunEndsWith(EMPTY, steps, claim);
    ClaimStoresRecord(Run(EMPTY, steps), r, locked, ticket, attempt, now);
    RecordSurvives(s1, more, KeyOf(r));
    RunSplits(EMPTY, steps + [claim], more);
    RunsEvolve(steps + [claim], more);
    var s := Run(EMPTY, steps + [claim] + more);
    StillStored(s1, s, ticket, attempt);
  }

  lemma {:induction false} StillStored(s: State, s': State, ticket: Id, attempt: Id)
    requires Evolves(s, s') && ticket in s.tickets && attempt in s.attempts
    ensures ticket in s'.tickets && attempt in s'.attempts && s'.attempts[attempt].ticket == s.attempts[attempt].ticket
  {
    assert TicketEvolves(s, s', ticket) && AttemptEvolves(s, s', attempt);
  }

  /** "Keys expire" fails of the lookup: a heartbeat later than the expiry shows that the clock has
      passed it, and the lookup still replays; only the purge makes it miss. */
  lemma {:induction false} ExpiredRecordReplays(steps: seq<Step>, r: ClaimRequest, locked: set<Id>, ticket: Id, attempt: Id, now: Time,
                                                late: Time)
    requires CanClaim(Run(EMPTY, steps), r, locked, ticket, attempt) && r.key != ""
    requires late > ClaimRecord(r, ticket, attempt, now).expiresAt
    ensures var passed := steps + [Claim(r, locked, ticket, attempt, now)] + [Beat(attempt, late, SECOND)];
            && Lookup(Run(EMPTY, passed), r) == Some(Replayed(ticket, attempt))
            && Lookup(Run(EMPTY, passed + [PurgeKeys(late)]), r) == None
  {
    hide Apply, CanClaim, Run, Lookup;
    var claim, beat := Claim(r, locked, ticket, attempt, now), Beat(attempt, late, SECOND);
    RetryReplays(steps, r, locked, ticket, attempt, now, [beat], r);
    RunEndsWith(EMPTY, steps, claim);
    RunEndsWith(EMPTY, steps + [claim], beat);
    RunEndsWith(EMPTY, steps + [claim] + [beat], PurgeKeys(late));
    ClaimStoresRecord(Run(EMPTY, steps), r, locked, ticket, attempt, now);
    StepKeepsRecord(Run(EMPTY, steps + [claim]), beat, KeyOf(r));
    StepKeepsRecord(Run(EMPTY, steps + [claim] + [beat]), PurgeKeys(late), KeyOf(r));
    NoRecordNoAnswer(Run(EMPTY, steps + [claim] + [beat] + [PurgeKeys(late)]), r);
  }

  lemma {:induction false} NoRecordNoAnswer(s: State, r: ClaimRequest)
    ensures KeyOf(r) !in s.idempotency ==> Lookup(s, r).None?
  {
  }

  lemma {:induction false} ClaimStoresRecord(s: State, r: ClaimRequest, locked: set<Id>, ticket: Id, attempt: Id, now: Time)
    requires CanClaim(s, r, locked, ticket, attempt) && r.key != ""
    ensures var s' := Apply(s, Claim(r, locked, ticket, attempt, now));
            && KeyOf(r) in s'.idempotency && s'.idempotency[KeyOf(r)] == ClaimRecord(r, ticket, attempt, now)
            && ticket in s'.tickets && attempt in s'.attempts && s'.attempts[attempt].ticket == ticket
  {
  }

  // ----- Retries that race -------------------------------------------------------------

  /** What `ClaimNext` may answer, and the store it leaves: a lookup in `s`, then the steps of
      others, then the claim statement. */
  ghost predicate ClaimAnswers(s: State, r: ClaimRequest, others: seq<Step>, locked: set<Id>, attempt: Id, now: Time,
                               outcome: ClaimOutcome, s': State) {
    if !ValidClaim(r) then outcome == Invalid && s' == s
    else if Lookup(s, r).Some? then outcome == Lookup(s, r).value && s' == s
    else if r.lease > MAX_CLAIM_LEASE then outcome == Denied && s' == s
    else
      var m := Run(s, others);
      var open := EligibleTickets(m, r) - locked;
      && (outcome == NoneClaimable <==> open == {})
      && (outcome == KeyTaken <==> open != {} && r.key != "" && KeyOf(r) in m.idempotency)
      && (outcome == NoneClaimable || outcome == KeyTaken || outcome.Claimed?)
      && (!outcome.Claimed? ==> s' == m)
      && (outcome.Claimed? ==>
            && outcome.attempt == attempt && CanClaim(m, r, locked, outcome.ticket, attempt)
            && s' == Apply(m, Claim(r, locked, outcome.ticket, attempt, now)))
  }

  /** A keyed request that reaches the claim statement when its record is stored never claims, whenever
      its lookup came; and it is given the replay, or the conflict of a different request, exactly
      when the record was there at its lookup, for there is no second one. */
  lemma {:induction false} ReplayedExactly(s: State, r: ClaimRequest, others: seq<Step>, locked: set<Id>, attempt: Id, now: Time,
                                           outcome: ClaimOutcome, s': State)
    requires ClaimAnswers(s, r, others, locked, attempt, now, outcome, s') && ValidClaim(r) && r.key != ""
    requires KeyOf(r) in Run(s, others).idempotency
    requires KeyOf(r) in s.idempotency ==> NoLatePurge(others, s.idempotency[KeyOf(r)].expiresAt)
    ensures var record := Run(s, others).idempotency[KeyOf(r)];
            var answer := if record.payload == Payload(r) then Replayed(record.ticket, record.attempt) else Conflict;
            !outcome.Claimed? && (outcome == answer <==> KeyOf(r) in s.idempotency)
  {
    hide Apply, Run;
    if KeyOf(r) in s.idempotency {
      RecordSurvives(s, others, KeyOf(r));
    }
    hide IsCandidate, EligibleTickets;
  }

  /** Two callers with one key and one request both look up before either claims: the second is told
      that the key is taken or that nothing is claimable, and not what the first was given. */
  lemma {:induction false} RacingRetryIsNotReplayed(s: State, r: ClaimRequest, free: set<Id>, ticket: Id, first: Id, at: Time,
                                                    locked: set<Id>, second: Id, now: Time, outcome: ClaimOutcome, s': State)
    requires CanClaim(s, r, free, ticket, first) && r.key != ""
    requires ClaimAnswers(s, r, [Claim(r, free, ticket, first, at)], locked, second, now, outcome, s')
    ensures (outcome == KeyTaken || outcome == NoneClaimable) && s' == Apply(s, Claim(r, free, ticket, first, at))
  {
    var claim := Claim(r, free, ticket, first, at);
    assert [claim][..0] == [] && Run(s, []) == s;
    assert Run(s, [claim]) == Apply(s, claim);
    ClaimStoresRecord(s, r, free, ticket, first, at);
    assert Lookup(s, r).None?;
    hide Apply, Run, IsCandidate, EligibleTickets;
  }

  // ----- Equal requests ----------------------------------------------------------------

  /** When two requests count as the same request: all hashed fields agree and the leases agree in
      whole seconds. Lifetimes of the key, and fractions of a second of lease, do not matter. */
  lemma {:induction false} SameRequestExactly(r: ClaimRequest, r': ClaimRequest)
    requires r.lease >= 0 && r'.lease >= 0
    ensures Payload(r) == Payload(r') <==>
              && r.(lease := 0, key := "", ttl := 0) == r'.(lease := 0, key := "", ttl := 0)
              && exists n: nat :: n * SECOND <= r.lease < (n + 1) * SECOND && n * SECOND <= r'.lease < (n + 1) * SECOND
  {
    var n := r.lease / SECOND;
    assert n * SECOND <= r.lease < (n + 1) * SECOND;
    if Payload(r) == Payload(r') {
      assert n * SECOND <= r'.lease < (n + 1) * SECOND;
    }
  }

  const KEYED := CLAIM_ONE.(key := "k")

  lemma {:induction false} KeyedClaimOne()
    ensures CanClaim(OPEN, KEYED, {}, 0, 0)
  {
    assert SpentAttempts(OPEN, 0) == {};
    assert Eligible(OPEN, KEYED, 0);
    assert EligibleTickets(OPEN, KEYED) == {0};
  }

  /** So "a different request with the same key conflicts" fails: after a claim with a lease of one
      second, a request for one and a half is answered with that claim. */
  lemma {:induction false} DifferentLeaseReplays()
    ensures var steps := [Create(0, CREATE_ONE, false, 0), Claim(KEYED, {}, 0, 0, 0)];
            var other := KEYED.(lease := SECOND + SECOND / 2);
            other != KEYED && Lookup(Run(EMPTY, steps), other) == Some(Replayed(0, 0))
  {
    var create, claim := Create(0, CREATE_ONE, false, 0), Claim(KEYED, {}, 0, 0, 0);
    CreateOne();
    KeyedClaimOne();
    hide Apply, CanClaim;
    assert [create][..0] == [] && Run(EMPTY, [create]) == OPEN;
    RetryReplays([create], KEYED, {}, 0, 0, 0, [], KEYED.(lease := SECOND + SECOND / 2));
    assert [create] + [claim] + [] == [create, claim];
  }

  // ----- Lease races -------------------------------------------------------------------

  /** A step and the reading of a common clock when it takes effect. */
  datatype Timed = Timed(at: Time, step: Step)

  function Steps(run: seq<Timed>): seq<Step> {
    seq(|run|, i requires 0 <= i < |run| => run[i].step)
  }

  /** The clock never runs back, and the cutoff of an expiry was read from it no later than the
      expiry takes effect. */
  ghost predicate Clocked(run: seq<Timed>) {
    && (forall i, j :: 0 <= i < j < |run| ==> run[i].at <= run[j].at)
    && (forall i :: 0 <= i < |run| && run[i].step.Expire? ==> run[i].step.cutoff <= run[i].at)
  }

  /** When the clock is read at step `i` while the attempt runs, its lease has not passed. */
  ghost predicate AliveAt(s: State, run: seq<Timed>, a: Id, i: nat)
    requires i < |run|
  {
    var before := Run(s, Steps(run[..i]));
    IsRunning(before, a) ==> run[i].at <= before.attempts[a].lease
  }

  ghost predicate KeptAlive(s: State, run: seq<Timed>, a: Id) {
    forall i :: 0 <= i < |run| ==> AliveAt(s, run, a, i)
  }

  lemma {:induction false} OnlyExpiryExpires(s: State, step: Step, a: Id)
    requires a in s.attempts && s.attempts[a].status != AttemptStatus.Expired
    requires a in Apply(s, step).attempts && Apply(s, step).attempts[a].status == AttemptStatus.Expired
    ensures step.Expire? && IsRunning(s, a) && s.attempts[a].lease < step.cutoff
  {
    if step.Decompose? {
      UnchangedByDecomposition(s, step);
    } else {
      StepIsEffect(s, step);
    }
  }

  lemma {:induction false} AliveStepDoesNotExpire(s: State, timed: Timed, a: Id)
    requires RowInvariant(s) && a in s.attempts && s.attempts[a].status != AttemptStatus.Expired
    requires timed.step.Expire? ==> timed.step.cutoff <= timed.at
    requires IsRunning(s, a) ==> timed.at <= s.attempts[a].lease
    ensures var s' := Apply(s, timed.step); a in s'.attempts && s'.attempts[a].status != AttemptStatus.Expired
  {
    var s' := Apply(s, timed.step);
    StepKeepsRows(s, timed.step);
    assert AttemptEvolves(s, s', a);
    hide Apply, RowInvariant;
    if s'.attempts[a].status == AttemptStatus.Expired {
      OnlyExpiryExpires(s, timed.step, a);
    }
  }

  lemma {:induction false} RenewedStaysUnexpired(s: State, run: seq<Timed>, a: Id)
    requires a in s.attempts && s.attempts[a].status != AttemptStatus.Expired
    requires Clocked(run) && KeptAlive(s, run, a) && RowInvariant(s)
    ensures var s' := Run(s, Steps(run)); a in s'.attempts && s'.attempts[a].status != AttemptStatus.Expired
  {
    hide Apply, RowInvariant;
    if run != [] {
      var n := |run| - 1;
      var before := run[..n];
      forall i | 0 <= i < n ensures AliveAt(s, before, a, i) {
        assert AliveAt(s, run, a, i) && before[..i] == run[..i];
      }
      RenewedStaysUnexpired(s, before, a);
      RunKeepsRows(s, Steps(before));
      assert AliveAt(s, run, a, n);
      assert Steps(run)[..n] == Steps(before);
      AliveStepDoesNotExpire(Run(s, Steps(before)), run[n], a);
    }
  }

  lemma {:induction false} AliveNeverExpires(steps: seq<Step>, run: seq<Timed>, a: Id)
    requires IsRunning(Run(EMPTY, steps), a)
    requires Clocked(run) && KeptAlive(Run(EMPTY, steps), run, a)
    ensures var s := Run(EMPTY, steps + Steps(run)); a in s.attempts && s.attempts[a].status != AttemptStatus.Expired
  {
    hide Apply, RowInvariant;
    ReachableRows(steps);
    RenewedStaysUnexpired(Run(EMPTY, steps), run, a);
    RunSplits(EMPTY, steps, Steps(run));
  }

  /** Until when the heartbeats of a run keep an attempt alive: the last one's promise, or the
      lease the attempt had before. A later heartbeat may promise less than an earlier one. */
  function Promised(run: seq<Timed>, a: Id, lease: Time): Time {
    if run == [] then lease
    else
      var step := run[|run| - 1].step;
      if step.Beat? && step.attempt == a && step.lease > 0 then step.now + step.lease
      else Promised(run[..|run| - 1], a, lease)
  }

  /** While the attempt runs, the clock at every step is within what the heartbeats so far promise. */
  ghost predicate Renewed(s: State, run: seq<Timed>, a: Id)
    requires a in s.attempts
  {
    forall i :: 0 <= i < |run| && IsRunning(Run(s, Steps(run[..i])), a) ==> run[i].at <= Promised(run[..i], a, s.attempts[a].lease)
  }

  /** A heartbeat sets the lease it asks for, and nothing else moves the lease of a running attempt. */
  lemma {:induction false} StepMovesLease(s: State, step: Step, a: Id)
    requires a in s.attempts && IsRunning(Apply(s, step), a)
    ensures step.Beat? && step.attempt == a && step.lease > 0 && IsRunning(s, a) ==>
              Apply(s, step).attempts[a].lease == step.now + step.lease
    ensures !(step.Beat? && step.attempt == a && step.lease > 0) ==> Apply(s, step).attempts[a].lease == s.attempts[a].lease
  {
    if step.Decompose? {
      UnchangedByDecomposition(s, step);
    } else {
      StepIsEffect(s, step);
    }
  }

  /** While an attempt runs, its stored lease is what its heartbeats promised. */
  lemma {:induction false} LeaseIsPromised(s: State, run: seq<Timed>, a: Id)
    requires RowInvariant(s) && IsRunning(s, a) && IsRunning(Run(s, Steps(run)), a)
    ensures Run(s, Steps(run)).attempts[a].lease == Promised(run, a, s.attempts[a].lease)
  {
    hide Apply, RowInvariant;
    if run != [] {
      var n := |run| - 1;
      var before := Run(s, Steps(run[..n]));
      assert Steps(run)[..n] == Steps(run[..n]);
      RunKeepsRows(s, Steps(run[..n]));
      assert AttemptEvolves(s, before, a);
      StepKeepsRows(before, run[n].step);
      assert AttemptEvolves(before, Apply(before, run[n].step), a);
      LeaseIsPromised(s, run[..n], a);
      StepMovesLease(before, run[n].step, a);
    }
  }

  /** An attempt whose agent sends each heartbeat before the last promise passes is never expired,
      however many maintenance runs race with its heartbeats and with every other step. */
  lemma {:induction false} RenewedNeverExpires(steps: seq<Step>, run: seq<Timed>, a: Id)
    requires IsRunning(Run(EMPTY, steps), a)
    requires Clocked(run) && Renewed(Run(EMPTY, steps), run, a)
    ensures var s := Run(EMPTY, steps + Steps(run)); a in s.attempts && s.attempts[a].status != AttemptStatus.Expired
  {
    ReachableRows(steps);
    var s := Run(EMPTY, steps);
    hide Apply, RowInvariant, Run;
    forall i | 0 <= i < |run| ensures AliveAt(s, run, a, i) {
      if IsRunning(Run(s, Steps(run[..i])), a) { LeaseIsPromised(s, run[..i], a); }
    }
    AliveNeverExpires(steps, run, a);
  }
}
