/** The fixed-window failure counter of the login form, and the sliding-window bound it gives. */
module LoginThrottle {
  import opened Basics

  const FAILURE_LIMIT: nat := 10
  const WINDOW: Time := MINUTE

  // ----- Specification -----------------------------------------------------------------

  /** Instants are counted from Go's zero time, with which a new throttle starts. */
  datatype Counter = Counter(windowStart: Time, failures: nat)

  const NEW := Counter(0, 0)

  function Rolled(c: Counter, now: Time): Counter {
    if now - c.windowStart >= WINDOW then Counter(now, 0) else c
  }

  datatype Outcome = TooMany | Rejected | Accepted

  datatype Request = Request(now: Time, valid: bool)

  function OutcomeOf(c: Counter, r: Request): Outcome {
    if Rolled(c, r.now).failures >= FAILURE_LIMIT then TooMany else if r.valid then Accepted else Rejected
  }

  function Handled(c: Counter, r: Request): Counter {
    var rolled := Rolled(c, r.now);
    if OutcomeOf(c, r) == Rejected then rolled.(failures := rolled.failures + 1) else rolled
  }

  /** The counter after requests handled one at a time. */
  function Run(c: Counter, requests: seq<Request>): Counter {
    if requests == [] then c else Handled(Run(c, requests[..|requests| - 1]), requests[|requests| - 1])
  }

  // ----- The object --------------------------------------------------------------------

  class Throttle {
    var windowStart: Time
    var failures: nat

    function View(): Counter
      reads this
    {
      Counter(windowStart, failures)
    }

    constructor ()
      ensures View() == NEW
    {
      windowStart, failures := 0, 0;
    }

    method RollWindow(now: Time)
      modifies this
      ensures View() == Rolled(old(View()), now)
    {
      if now - windowStart >= WINDOW {
        windowStart := now;
        failures := 0;
      }
    }

    method OverLimit(now: Time) returns (over: bool)
      modifies this
      ensures View() == Rolled(old(View()), now) && (over <==> failures >= FAILURE_LIMIT)
    {
      RollWindow(now);
      over := failures >= FAILURE_LIMIT;
    }

    method RecordFailure(now: Time)
      modifies this
      ensures View() == Rolled(old(View()), now).(failures := Rolled(old(View()), now).failures + 1)
    {
      RollWindow(now);
      failures := failures + 1;
    }
  }

  /** The POST branch of `handleLogin`. */
  method HandleLogin(throttle: Throttle, r: Request) returns (outcome: Outcome)
    modifies throttle
    ensures throttle.View() == Handled(old(throttle.View()), r)
    ensures outcome == OutcomeOf(old(throttle.View()), r)
  {
    var over := throttle.OverLimit(r.now);
    if over {
      return TooMany;
    }
    if !r.valid {
      throttle.RecordFailure(r.now);
      return Rejected;
    }
    return Accepted;
  }

  // ----- Sliding windows ---------------------------------------------------------------

  /** The clock never goes back, and has left zero time behind. */
  predicate Clocked(requests: seq<Request>) {
    && (forall i :: 0 <= i < |requests| ==> requests[i].now >= WINDOW)
    && forall i, j :: 0 <= i < j < |requests| ==> requests[i].now <= requests[j].now
  }

  /** Rejected token checks in the half-open span of one window's length from `start`. */
  function RejectedInSpan(requests: seq<Request>, start: Time): nat {
    if requests == [] then 0
    else
      var before, r := requests[..|requests| - 1], requests[|requests| - 1];
      RejectedInSpan(before, start)
      + if start <= r.now < start + WINDOW && OutcomeOf(Run(NEW, before), r) == Rejected then 1 else 0
  }

  /** The span meets at most two windows, and each counts at most the limit. */
  ghost predicate Bounded(requests: seq<Request>, start: Time) {
    var c, n := Run(NEW, requests), RejectedInSpan(requests, start);
    && c.failures <= FAILURE_LIMIT
    && (requests == [] ==> c == NEW && n == 0)
    && (requests != [] ==>
          var last := requests[|requests| - 1].now;
          && c.windowStart <= last < c.windowStart + WINDOW
          && (n > 0 ==> last >= start)
          && if c.windowStart <= start then n <= c.failures
             else if c.windowStart < start + WINDOW then n <= FAILURE_LIMIT + c.failures
             else n <= 2 * FAILURE_LIMIT)
  }

  lemma {:induction false} AlwaysBounded(requests: seq<Request>, start: Time)
    requires Clocked(requests)
    ensures Bounded(requests, start)
  {
    if requests != [] {
      AlwaysBounded(requests[..|requests| - 1], start);
    }
  }

  /** No window counts more failures than the limit, and no half-open minute has more than twice
      as many rejected checks. */
  lemma {:induction false} SlidingBound(requests: seq<Request>, start: Time)
    requires Clocked(requests)
    ensures Run(NEW, requests).failures <= FAILURE_LIMIT
    ensures RejectedInSpan(requests, start) <= 2 * FAILURE_LIMIT
  {
    AlwaysBounded(requests, start);
  }

  // ----- Who is refused ----------------------------------------------------------------

  /** A check is refused while the current minute has counted ten failures, and then whatever the token;
      otherwise the token decides. */
  lemma {:induction false} OutcomeExactly(c: Counter, r: Request)
    ensures OutcomeOf(c, r) == TooMany <==> r.now - c.windowStart < 60 * SECOND && c.failures >= 10
    ensures OutcomeOf(c, r) == Accepted <==> OutcomeOf(c, r) != TooMany && r.valid
  {
  }

  /** The counter counts rejections of its own window. */
  lemma {:induction false} CountedAreRejected(requests: seq<Request>)
    requires Clocked(requests)
    ensures Run(NEW, requests).failures <= RejectedInSpan(requests, Run(NEW, requests).windowStart)
  {
    if requests != [] {
      var before, r := requests[..|requests| - 1], requests[|requests| - 1];
      CountedAreRejected(before);
      AlwaysBounded(before, 0);
      AlwaysBounded(requests, 0);
    }
  }

  /** Nobody is refused without cause: when a check is refused, at least ten have been rejected within the
      last minute, from some instant `since` on. */
  lemma {:induction false} RefusedOnlyAfterTen(requests: seq<Request>, r: Request) returns (since: Time)
    requires Clocked(requests + [r]) && OutcomeOf(Run(NEW, requests), r) == TooMany
    ensures r.now - 60 * SECOND < since <= r.now && RejectedInSpan(requests, since) >= 10
  {
    var all := requests + [r];
    forall i | 0 <= i < |requests| ensures requests[i] == all[i] { }
    assert all[|requests|] == r;
    CountedAreRejected(requests);
    AlwaysBounded(requests, 0);
    since := Run(NEW, requests).windowStart;
  }

  // ----- The bound is attained ---------------------------------------------------------

  function Burst(now: Time, n: nat): seq<Request> {
    if n == 0 then [] else Burst(now, n - 1) + [Request(now, false)]
  }

  lemma {:induction false} RunExtends(before: seq<Request>, r: Request, start: Time)
    ensures Run(NEW, before + [r]) == Handled(Run(NEW, before), r)
    ensures RejectedInSpan(before + [r], start) == RejectedInSpan(before, start)
            + if start <= r.now < start + WINDOW && OutcomeOf(Run(NEW, before), r) == Rejected then 1 else 0
  {
    assert (before + [r])[..|before|] == before;
  }

  /** Wrong tokens at one instant, while the window has room for them, are all rejected. */
  lemma {:induction false} BurstIsRejected(before: seq<Request>, now: Time, n: nat, start: Time)
    requires start <= now < start + WINDOW && Rolled(Run(NEW, before), now).failures + n <= FAILURE_LIMIT
    ensures RejectedInSpan(before + Burst(now, n), start) == RejectedInSpan(before, start) + n
    ensures var rolled := Rolled(Run(NEW, before), now);
            Rolled(Run(NEW, before + Burst(now, n)), now) == rolled.(failures := rolled.failures + n)
  {
    hide Run, RejectedInSpan;
    if n == 0 {
      assert before + Burst(now, 0) == before;
    } else {
      BurstIsRejected(before, now, n - 1, start);
      RunExtends(before + Burst(now, n - 1), Request(now, false), start);
      assert before + Burst(now, n) == before + Burst(now, n - 1) + [Request(now, false)];
    }
  }

  lemma {:induction false} BurstIsOneInstant(now: Time, n: nat)
    ensures |Burst(now, n)| == n && forall i :: 0 <= i < n ==> Burst(now, n)[i] == Request(now, false)
  {
    if n > 0 { BurstIsOneInstant(now, n - 1); }
  }

  /** Ten wrong tokens just before a window ends and ten more when the next one starts. */
  lemma {:induction false} BoundIsAttained()
    ensures var late := 2 * WINDOW - 1;
            var requests := [Request(WINDOW, true)] + Burst(late, FAILURE_LIMIT) + Burst(2 * WINDOW, FAILURE_LIMIT);
            Clocked(requests) && RejectedInSpan(requests, late) == 2 * FAILURE_LIMIT
  {
    var late, visit := 2 * WINDOW - 1, Request(WINDOW, true);
    BurstIsOneInstant(late, FAILURE_LIMIT);
    BurstIsOneInstant(2 * WINDOW, FAILURE_LIMIT);
    RunExtends([], visit, late);
    assert [] + [visit] == [visit] && Run(NEW, [visit]) == Counter(WINDOW, 0);
    hide Burst, Run, RejectedInSpan;
    BurstIsRejected([visit], late, FAILURE_LIMIT, late);
    BurstIsRejected([visit] + Burst(late, FAILURE_LIMIT), 2 * WINDOW, FAILURE_LIMIT, late);
  }
}
