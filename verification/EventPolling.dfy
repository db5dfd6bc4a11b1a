/** Polling the event feed while the log grows: by sequence number, and by the cursor texts that
    pages hand out. */
module EventPolling {
  import opened Basics
  import opened SortedLists
  import opened EventCursor
  import opened EventFeed

  /** What one request finds visible, and the limit it asks for. */
  datatype Poll = Poll(table: Table, limit: nat)

  /** The position after `n` polls from `start`. */
  function Reached(polls: seq<Poll>, f: Filter, start: int, n: nat): int
    requires n <= |polls|
  {
    if n == 0 then start
    else
      var before := Reached(polls, f, start, n - 1);
      Position(before, ListAfter(polls[n - 1].table, f, before, EffectiveLimit(polls[n - 1].limit)))
  }

  function PageOf(polls: seq<Poll>, f: Filter, start: int, n: nat): seq<int>
    requires n < |polls|
  {
    ListAfter(polls[n].table, f, Reached(polls, f, start, n), EffectiveLimit(polls[n].limit))
  }

  /** All events returned by the first `n` polls. */
  function Delivered(polls: seq<Poll>, f: Filter, start: int, n: nat): seq<int>
    requires n <= |polls|
  {
    if n == 0 then [] else Delivered(polls, f, start, n - 1) + PageOf(polls, f, start, n - 1)
  }

  /** Rows are never changed or deleted. */
  ghost predicate Grows(polls: seq<Poll>) {
    forall i, j, k :: 0 <= i < j < |polls| && k in polls[i].table ==> k in polls[j].table && polls[j].table[k] == polls[i].table[k]
  }

  lemma {:induction false} ShownStays(polls: seq<Poll>, f: Filter, i: nat, k: int)
    requires Grows(polls) && i < |polls| && k in polls[i].table
    ensures Shown(polls[i].table, f, k) <==> Shown(polls[|polls| - 1].table, f, k)
  {
  }

  /** Poll `i` moved past event `k`. */
  ghost predicate Passes(polls: seq<Poll>, f: Filter, start: int, i: nat, k: int)
    requires i < |polls|
  {
    Reached(polls, f, start, i) < k <= Reached(polls, f, start, i + 1)
  }

  /** Poll `n` returns what is shown in the window it passes, in order. */
  lemma {:induction false} PollIsWindow(polls: seq<Poll>, f: Filter, start: int, n: nat)
    requires n < |polls|
    ensures var page, from, to := PageOf(polls, f, start, n), Reached(polls, f, start, n), Reached(polls, f, start, n + 1);
            && Increasing(page) && from <= to
            && (forall k :: k in page <==> Shown(polls[n].table, f, k) && from < k <= to)
            && (|page| < EffectiveLimit(polls[n].limit) ==> forall k :: Shown(polls[n].table, f, k) ==> k <= to)
            && (from < to ==> Shown(polls[n].table, f, to))
  {
    hide ListAfter, Increasing, Shown, EffectiveLimit;
    PageIsWindow(polls[n].table, f, Reached(polls, f, start, n), EffectiveLimit(polls[n].limit));
  }

  lemma {:induction false} NothingYet(polls: seq<Poll>, f: Filter, start: int)
    ensures Delivered(polls, f, start, 0) == [] && Reached(polls, f, start, 0) == start
    ensures Increasing(Delivered(polls, f, start, 0))
  {
  }

  lemma {:induction false} DeliveredGrows(polls: seq<Poll>, f: Filter, start: int, n: nat)
    requires n < |polls|
    ensures Delivered(polls, f, start, n + 1) == Delivered(polls, f, start, n) + PageOf(polls, f, start, n)
  {
    hide PageOf;
  }

  lemma {:induction false} DeliveredWithin(polls: seq<Poll>, f: Filter, start: int, n: nat)
    requires n <= |polls|
    ensures start <= Reached(polls, f, start, n)
    ensures forall k :: k in Delivered(polls, f, start, n) ==> start < k <= Reached(polls, f, start, n)
  {
    NothingYet(polls, f, start);
    hide PageOf, Increasing, Reached, Shown, EffectiveLimit, Delivered;
    if n > 0 {
      DeliveredWithin(polls, f, start, n - 1);
      PollIsWindow(polls, f, start, n - 1);
      DeliveredGrows(polls, f, start, n - 1);
    }
  }

  /** No repetition and no disorder, whatever becomes visible when. */
  lemma {:induction false} DeliveredInOrder(polls: seq<Poll>, f: Filter, start: int, n: nat)
    requires n <= |polls|
    ensures Increasing(Delivered(polls, f, start, n))
  {
    hide *;
    NothingYet(polls, f, start);
    if n > 0 {
      DeliveredInOrder(polls, f, start, n - 1);
      DeliveredWithin(polls, f, start, n - 1);
      PollIsWindow(polls, f, start, n - 1);
      DeliveredGrows(polls, f, start, n - 1);
      Joined(Delivered(polls, f, start, n - 1), PageOf(polls, f, start, n - 1), Reached(polls, f, start, n - 1));
    }
  }

  /** An event is delivered exactly when it was shown at the poll that passed it. */
  lemma {:induction false} DeliveredWhenPassed(polls: seq<Poll>, f: Filter, start: int, n: nat, k: int)
    requires n <= |polls|
    ensures k in Delivered(polls, f, start, n) <==>
            exists i :: 0 <= i < n && Passes(polls, f, start, i, k) && Shown(polls[i].table, f, k)
  {
    NothingYet(polls, f, start);
    hide PageOf, Increasing, Reached, Shown, EffectiveLimit, Delivered;
    if n > 0 {
      DeliveredWhenPassed(polls, f, start, n - 1, k);
      PollIsWindow(polls, f, start, n - 1);
      DeliveredGrows(polls, f, start, n - 1);
      assert Passes(polls, f, start, n - 1, k) <==>
             Reached(polls, f, start, n - 1) < k <= Reached(polls, f, start, n);
    }
  }

  /** Between the ends of the first `n` polls, some poll passes each number. */
  lemma {:induction false} SomePollPasses(polls: seq<Poll>, f: Filter, start: int, n: nat, k: int) returns (i: nat)
    requires n <= |polls| && start < k <= Reached(polls, f, start, n)
    ensures i < n && Passes(polls, f, start, i, k)
  {
    hide ListAfter, EffectiveLimit;
    if k <= Reached(polls, f, start, n - 1) {
      i := SomePollPasses(polls, f, start, n - 1, k);
    } else {
      i := n - 1;
    }
  }

  lemma {:induction false} ReachedGrows(polls: seq<Poll>, f: Filter, start: int, i: nat, j: nat)
    requires i <= j <= |polls|
    ensures Reached(polls, f, start, i) <= Reached(polls, f, start, j)
  {
    hide Reached, PageOf, Increasing, Shown, EffectiveLimit;
    if i < j {
      ReachedGrows(polls, f, start, i, j - 1);
      PollIsWindow(polls, f, start, j - 1);
    }
  }

  lemma {:induction false} PassesOnce(polls: seq<Poll>, f: Filter, start: int, i: nat, j: nat, k: int)
    requires i < |polls| && j < |polls| && Passes(polls, f, start, i, k) && Passes(polls, f, start, j, k)
    ensures i == j
  {
    hide Reached;
    if j < i { ReachedGrows(polls, f, start, j + 1, i); }
    if i < j { ReachedGrows(polls, f, start, i + 1, j); }
  }

  /** Shown at the end, after the start, and no later than the position reached. */
  ghost predicate Due(polls: seq<Poll>, f: Filter, start: int, k: int)
    requires polls != []
  {
    Shown(polls[|polls| - 1].table, f, k) && start < k <= Reached(polls, f, start, |polls|)
  }

  ghost function DueSet(polls: seq<Poll>, f: Filter, start: int): set<int>
    requires polls != []
  {
    set k | k in polls[|polls| - 1].table && Due(polls, f, start, k)
  }

  /** No event became visible after a poll had passed its number. */
  ghost predicate NoneLate(polls: seq<Poll>, f: Filter, start: int)
    requires polls != []
  {
    forall i, k :: 0 <= i < |polls| && Passes(polls, f, start, i, k) && Shown(polls[|polls| - 1].table, f, k) ==> k in polls[i].table
  }

  lemma {:induction false} DeliveredIfNoneLate(polls: seq<Poll>, f: Filter, start: int, k: int)
    requires polls != [] && Grows(polls) && NoneLate(polls, f, start)
    ensures k in Delivered(polls, f, start, |polls|) <==> Due(polls, f, start, k)
  {
    hide Increasing, Delivered, Reached, Grows, Selects;
    var n := |polls|;
    DeliveredWithin(polls, f, start, n);
    DeliveredWhenPassed(polls, f, start, n, k);
    if Due(polls, f, start, k) {
      var i := SomePollPasses(polls, f, start, n, k);
      ShownStays(polls, f, i, k);
    } else if k in Delivered(polls, f, start, n) {
      var i :| 0 <= i < n && Passes(polls, f, start, i, k) && Shown(polls[i].table, f, k);
      ShownStays(polls, f, i, k);
    }
  }

  /** An event that was not visible when its number was passed is never delivered. */
  lemma {:induction false} LateIsMissed(polls: seq<Poll>, f: Filter, start: int, i: nat, k: int)
    requires i < |polls| && Passes(polls, f, start, i, k)
    requires Shown(polls[|polls| - 1].table, f, k) && k !in polls[i].table
    ensures Due(polls, f, start, k) && k !in Delivered(polls, f, start, |polls|)
  {
    hide Reached, Delivered, Selects;
    var n := |polls|;
    DeliveredWhenPassed(polls, f, start, n, k);
    NothingYet(polls, f, start);
    ReachedGrows(polls, f, start, 0, i);
    ReachedGrows(polls, f, start, i + 1, n);
    forall j | 0 <= j < n && Passes(polls, f, start, j, k) ensures j == i {
      PassesOnce(polls, f, start, i, j, k);
    }
  }

  /** Polling returns every event exactly once and in order, exactly when none of them became
      visible after its number had been passed. */
  lemma {:induction false} FeedIsComplete(polls: seq<Poll>, f: Filter, start: int)
    requires polls != [] && Grows(polls)
    ensures Delivered(polls, f, start, |polls|) == Ascending(DueSet(polls, f, start)) <==> NoneLate(polls, f, start)
  {
    var got, due := Delivered(polls, f, start, |polls|), DueSet(polls, f, start);
    hide Delivered, Increasing, Ascending, Reached, Grows;
    if NoneLate(polls, f, start) {
      forall k ensures k in got <==> k in Ascending(due) {
        DeliveredIfNoneLate(polls, f, start, k);
        AscendingHolds(due, k);
      }
      DeliveredInOrder(polls, f, start, |polls|);
      AscendingIncreases(due);
      IncreasingIsUnique(got, Ascending(due));
    } else {
      var i, k :| 0 <= i < |polls| && Passes(polls, f, start, i, k)
                  && Shown(polls[|polls| - 1].table, f, k) && k !in polls[i].table;
      LateIsMissed(polls, f, start, i, k);
      AscendingHolds(due, k);
    }
  }

  // ----- Visibility --------------------------------------------------------------------

  /** An event after `from` that the filter selects becomes visible only above those already shown. */
  ghost predicate SelectedInOrder(polls: seq<Poll>, f: Filter, from: int)
    requires polls != []
  {
    forall i, k, m :: 0 <= i < |polls| && k > from && k !in polls[i].table && Shown(polls[|polls| - 1].table, f, k)
                      && Shown(polls[i].table, f, m)
      ==> m < k
  }

  lemma {:induction false} InOrderIsNeverLate(polls: seq<Poll>, f: Filter, start: int)
    requires polls != [] && SelectedInOrder(polls, f, start)
    ensures NoneLate(polls, f, start)
  {
    NothingYet(polls, f, start);
    hide Reached, PageOf, Increasing, EffectiveLimit;
    forall i, k | 0 <= i < |polls| && Passes(polls, f, start, i, k) && Shown(polls[|polls| - 1].table, f, k)
      ensures k in polls[i].table
    {
      ReachedGrows(polls, f, start, 0, i);
      PollIsWindow(polls, f, start, i);
    }
  }

  /** A poll that shows an event past the position moves up to one it shows, or further. */
  lemma {:induction false} PollMoves(polls: seq<Poll>, f: Filter, start: int, i: nat, m: int)
    requires i < |polls| && Shown(polls[i].table, f, m) && Reached(polls, f, start, i) < m
    ensures Reached(polls, f, start, i) < Reached(polls, f, start, i + 1)
    ensures Shown(polls[i].table, f, Reached(polls, f, start, i + 1))
  {
    PollIsWindow(polls, f, start, i);
    hide Reached, PageOf, Increasing, Shown;
    var page := PageOf(polls, f, start, i);
    if |page| > 0 { assert page[0] in page; }
  }

  /** An event that appears below one already shown is missed by the reader who starts just before
      it. */
  lemma {:induction false} LateForSomeReader(polls: seq<Poll>, f: Filter, i: nat, k: int, m: int) returns (j: nat)
    requires i < |polls| && Grows(polls) && Shown(polls[|polls| - 1].table, f, k) && k !in polls[i].table
    requires Shown(polls[i].table, f, m) && k < m
    ensures j < |polls| && Passes(polls, f, k - 1, j, k) && k !in polls[j].table
  {
    NothingYet(polls, f, k - 1);
    hide Reached, Selects;
    ReachedGrows(polls, f, k - 1, 0, i);
    if Reached(polls, f, k - 1, i) >= k {
      j := SomePollPasses(polls, f, k - 1, i, k);
    } else {
      PollMoves(polls, f, k - 1, i, m);
      j := i;
    }
  }

  ghost predicate IsComplete(polls: seq<Poll>, f: Filter, start: int)
    requires polls != []
  {
    Delivered(polls, f, start, |polls|) == Ascending(DueSet(polls, f, start))
  }

  /** The exact condition, on what is visible when: every reader that starts at or after `from`
      receives each event exactly once and in order if and only if the selected events after `from`
      become visible in sequence order. */
  lemma {:induction false} CompleteForEveryReader(polls: seq<Poll>, f: Filter, from: int)
    requires polls != [] && Grows(polls)
    ensures (forall start :: start >= from ==> IsComplete(polls, f, start)) <==> SelectedInOrder(polls, f, from)
  {
    hide Delivered, Ascending, DueSet, NoneLate, Grows;
    if SelectedInOrder(polls, f, from) {
      forall start | start >= from ensures IsComplete(polls, f, start) {
        InOrderIsNeverLate(polls, f, start);
        FeedIsComplete(polls, f, start);
      }
    } else {
      var i, k, m :| 0 <= i < |polls| && k > from && k !in polls[i].table && Shown(polls[|polls| - 1].table, f, k)
                     && Shown(polls[i].table, f, m) && m >= k;
      var j := LateForSomeReader(polls, f, i, k, m);
      LateMeansNotNoneLate(polls, f, k - 1, j, k);
      FeedIsComplete(polls, f, k - 1);
      assert !IsComplete(polls, f, k - 1);
    }
  }

  lemma {:induction false} LateMeansNotNoneLate(polls: seq<Poll>, f: Filter, start: int, i: nat, k: int)
    requires i < |polls| && Passes(polls, f, start, i, k) && Shown(polls[|polls| - 1].table, f, k) && k !in polls[i].table
    ensures !NoneLate(polls, f, start)
  {
  }

  /** When the selected events after its starting cursor become visible in sequence order and its last
      page was not full, a reader has received everything after that cursor. */
  lemma {:induction false} CaughtUp(polls: seq<Poll>, f: Filter, start: int)
    requires polls != [] && Grows(polls) && SelectedInOrder(polls, f, start)
    requires |PageOf(polls, f, start, |polls| - 1)| < EffectiveLimit(polls[|polls| - 1].limit)
    ensures Delivered(polls, f, start, |polls|) == Ascending(After(polls[|polls| - 1].table, f, start))
  {
    hide PageOf, Reached, Delivered, Increasing, Ascending, Grows, EffectiveLimit;
    CompleteForEveryReader(polls, f, start);
    assert IsComplete(polls, f, start);
    PollIsWindow(polls, f, start, |polls| - 1);
    assert DueSet(polls, f, start) == After(polls[|polls| - 1].table, f, start);
  }

  /** Two transactions that draw numbers 2 and 3 but commit in the opposite order: the reader whose
      cursor is at 1 is given 3 and never 2. */
  lemma {:induction false} OutOfOrderIsLost(row: Row)
    ensures var f := Filter(None, None, None, None);
            var polls := [Poll(map[1 := row, 3 := row], 0), Poll(map[1 := row, 2 := row, 3 := row], 0)];
            Grows(polls) && Due(polls, f, 1, 2) && 2 !in Delivered(polls, f, 1, 2)
  {
    hide Reached, Delivered;
    var f := Filter(None, None, None, None);
    var polls := [Poll(map[1 := row, 3 := row], 0), Poll(map[1 := row, 2 := row, 3 := row], 0)];
    NothingYet(polls, f, 1);
    PollMoves(polls, f, 1, 0, 3);
    LateIsMissed(polls, f, 1, 0, 2);
  }

  // ----- Polling by text ---------------------------------------------------------------

  /** A client that holds a cursor: it hands each page's next cursor back with the next request, and so
      receives what polling by sequence number delivers. */
  method FollowFrom(polls: seq<Poll>, f: Filter, cursor: Text, isTime: Text -> bool) returns (events: seq<int>, next: Text)
    requires Parse(cursor, isTime).Some?
    requires forall i :: 0 <= i < |polls| ==> Storable(polls[i].table, isTime)
    ensures events == Delivered(polls, f, Parse(cursor, isTime).value.number, |polls|)
    ensures Parse(next, isTime).Some?
    ensures Parse(next, isTime).value.number == Reached(polls, f, Parse(cursor, isTime).value.number, |polls|)
  {
    hide Parse, Storable, ListAfter, EffectiveLimit;
    ghost var start := Parse(cursor, isTime).value.number;
    events, next := [], cursor;
    NothingYet(polls, f, start);
    EmptyIsNoCursor(isTime);
    for i := 0 to |polls|
      invariant events == Delivered(polls, f, start, i)
      invariant Parse(next, isTime).Some? && Parse(next, isTime).value.number == Reached(polls, f, start, i)
    {
      var page := ListEvents(polls[i].table, f, next, polls[i].limit, isTime);
      DeliveredGrows(polls, f, start, i);
      events := events + page.value.events;
      next := page.value.next;
    }
  }

  lemma {:induction false} EmptyIsNoCursor(isTime: Text -> bool)
    ensures Parse([], isTime).None?
  {
  }
}
