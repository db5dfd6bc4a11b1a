/** Clients of the event feed. A cursor comes only from a page, so a client's first request has none;
    as long as nothing is shown the next one has none either. */
module EventClients {
  import opened Basics
  import opened SortedLists
  import opened EventCursor
  import opened EventFeed
  import opened EventPolling

  /** The first poll from `i` on that shows anything, or none. */
  function FirstShown(polls: seq<Poll>, f: Filter, i: nat): (w: nat)
    requires i <= |polls|
    ensures i <= w <= |polls| && (w < |polls| ==> All(polls[w].table, f) != {})
    ensures forall j :: i <= j < w ==> All(polls[j].table, f) == {}
    decreases |polls| - i
  {
    if i == |polls| || All(polls[i].table, f) != {} then i else FirstShown(polls, f, i + 1)
  }

  /** The page that gives the client its first cursor. */
  function FirstPage(polls: seq<Poll>, f: Filter, w: nat): seq<int>
    requires w < |polls|
  {
    ListRecent(polls[w].table, f, EffectiveLimit(polls[w].limit))
  }

  function FirstPosition(polls: seq<Poll>, f: Filter, w: nat): int
    requires w < |polls|
  {
    Position(0, FirstPage(polls, f, w))
  }

  /** What a client that starts without a cursor receives, and how far it gets. */
  function Received(polls: seq<Poll>, f: Filter): seq<int> {
    var w := FirstShown(polls, f, 0);
    if w == |polls| then []
    else FirstPage(polls, f, w) + Delivered(polls[w + 1..], f, FirstPosition(polls, f, w), |polls| - w - 1)
  }

  function ReceivedTo(polls: seq<Poll>, f: Filter): int {
    var w := FirstShown(polls, f, 0);
    if w == |polls| then 0 else Reached(polls[w + 1..], f, FirstPosition(polls, f, w), |polls| - w - 1)
  }

  /** Shown at the end, and no later than where the client got. */
  ghost predicate IsWanted(polls: seq<Poll>, f: Filter, k: int)
    requires polls != []
  {
    Shown(polls[|polls| - 1].table, f, k) && k <= ReceivedTo(polls, f)
  }

  ghost function Wanted(polls: seq<Poll>, f: Filter): set<int>
    requires polls != []
  {
    set k | k in polls[|polls| - 1].table && IsWanted(polls, f, k)
  }

  /** The first page that showed anything was not cut off. */
  ghost predicate FirstPageFits(polls: seq<Poll>, f: Filter) {
    var w := FirstShown(polls, f, 0);
    w < |polls| ==> |All(polls[w].table, f)| <= EffectiveLimit(polls[w].limit)
  }

  ghost predicate Numbered(polls: seq<Poll>) {
    forall i, k :: 0 <= i < |polls| && k in polls[i].table ==> k >= 1
  }

  // ----- The first page ----------------------------------------------------------------

  lemma {:induction false} AllIsShown(t: Table, f: Filter, k: int)
    ensures k in Ascending(All(t, f)) <==> Shown(t, f, k)
  {
    AscendingHolds(All(t, f), k);
    hide Ascending;
  }

  /** It ends at the last event shown, and holds all of them exactly when they fit. */
  lemma {:induction false} FirstPageIsTail(t: Table, f: Filter, limit: nat) returns (missed: int)
    requires All(t, f) != {} && limit > 0
    ensures var page := ListRecent(t, f, limit);
            && page != [] && Increasing(page) && (forall k :: k in page ==> Shown(t, f, k))
            && Shown(t, f, Position(0, page)) && (forall k :: Shown(t, f, k) ==> k <= Position(0, page))
            && (|All(t, f)| <= limit ==> forall k :: Shown(t, f, k) ==> k in page)
            && (|All(t, f)| > limit ==> Shown(t, f, missed) && missed !in page)
  {
    hide Ascending, ListRecent, Shown, Increasing, All;
    RecentIsTail(t, f, limit);
    var all, page := Ascending(All(t, f)), ListRecent(t, f, limit);
    var skipped := if |all| < limit then 0 else |all| - limit;
    AscendingIncreases(All(t, f));
    missed := all[0];
    forall k ensures k in all <==> Shown(t, f, k) { AllIsShown(t, f, k); }
    TailOfIncreasing(all, skipped);
    assert page == all[skipped..];
    assert page[|page| - 1] == all[|all| - 1];
    assert skipped == 0 ==> page == all;
  }

  lemma {:induction false} TailOfIncreasing(all: seq<int>, skipped: nat)
    requires Increasing(all) && skipped < |all|
    ensures Increasing(all[skipped..]) && forall k :: k in all ==> k <= all[|all| - 1]
    ensures skipped > 0 ==> all[0] !in all[skipped..]
    ensures all[0] in all && all[|all| - 1] in all && all[|all| - 1] in all[skipped..]
  {
    assert all[skipped..][|all| - 1 - skipped] == all[|all| - 1];
  }

  // ----- The exact condition -----------------------------------------------------------

  lemma {:induction false} SuffixGrows(polls: seq<Poll>, f: Filter, from: int, w: nat)
    requires w < |polls| && Grows(polls)
    ensures Grows(polls[w..])
    ensures SelectedInOrder(polls, f, from) ==> SelectedInOrder(polls[w..], f, from)
  {
    hide Shown;
    var rest := polls[w..];
    forall i, j, k | 0 <= i < j < |rest| && k in rest[i].table
      ensures k in rest[j].table && rest[j].table[k] == rest[i].table[k]
    {
      assert rest[i] == polls[w + i] && rest[j] == polls[w + j];
    }
    if SelectedInOrder(polls, f, from) {
      forall i, k, m | 0 <= i < |rest| && k > from && k !in rest[i].table && Shown(rest[|rest| - 1].table, f, k)
                       && Shown(rest[i].table, f, m)
        ensures m < k
      {
        assert rest[i] == polls[w + i];
      }
    }
  }

  /** Where the client stands after its first page, and what is shown at the end below that. */
  lemma {:induction false} EarlierIsShown(polls: seq<Poll>, f: Filter, w: nat, c: int, k: int)
    requires w < |polls| && Grows(polls) && SelectedInOrder(polls, f, 0) && k > 0
    requires Shown(polls[w].table, f, c) && forall m :: Shown(polls[w].table, f, m) ==> m <= c
    ensures Shown(polls[|polls| - 1].table, f, k) && k <= c <==> Shown(polls[w].table, f, k)
  {
    if k in polls[w].table { ShownStays(polls, f, w, k); }
    if Shown(polls[|polls| - 1].table, f, k) && k <= c { assert k in polls[w].table; }
  }

  lemma {:induction false} CompleteHolds(polls: seq<Poll>, f: Filter, start: int, k: int)
    requires polls != [] && IsComplete(polls, f, start)
    ensures k in Delivered(polls, f, start, |polls|) <==> Due(polls, f, start, k)
  {
    hide Delivered, Reached, Ascending;
    AscendingHolds(DueSet(polls, f, start), k);
  }

  /** The later pages hold exactly what is shown at the end between the first cursor and the last. */
  lemma {:induction false} LaterPages(polls: seq<Poll>, f: Filter, w: nat, c: int, k: int)
    requires w < |polls| && Grows(polls) && SelectedInOrder(polls, f, 0) && c >= 0
    requires forall m :: Shown(polls[w].table, f, m) ==> m <= c
    ensures var rest := polls[w + 1..];
            k in Delivered(rest, f, c, |rest|) <==> Shown(polls[|polls| - 1].table, f, k) && c < k <= Reached(rest, f, c, |rest|)
  {
    hide Delivered, Reached, Ascending, Increasing, Grows, SelectedInOrder, IsComplete;
    var rest := polls[w + 1..];
    NothingYet(rest, f, c);
    if rest != [] {
      SuffixGrows(polls, f, 0, w + 1);
      CompleteForEveryReader(rest, f, 0);
      assert IsComplete(rest, f, c);
      CompleteHolds(rest, f, c, k);
    }
  }

  /** What the client wants is what its first page's poll showed, and what the later pages hold. */
  lemma {:induction false} WantedParts(polls: seq<Poll>, f: Filter, w: nat, c: int, k: int)
    requires polls != [] && Grows(polls) && Numbered(polls) && SelectedInOrder(polls, f, 0)
    requires w == FirstShown(polls, f, 0) < |polls| && c == FirstPosition(polls, f, w)
    requires Shown(polls[w].table, f, c) && forall m :: Shown(polls[w].table, f, m) ==> m <= c
    ensures k in Wanted(polls, f) <==>
            Shown(polls[w].table, f, k) || k in Delivered(polls[w + 1..], f, c, |polls[w + 1..]|)
  {
    hide Delivered, Reached, Grows, SelectedInOrder, Numbered, FirstShown, FirstPosition, Selects;
    var rest := polls[w + 1..];
    NumbersArePositive(polls, w, c);
    NumbersArePositive(polls, w, k);
    NumbersArePositive(polls, |polls| - 1, k);
    DeliveredWithin(rest, f, c, |rest|);
    LaterPages(polls, f, w, c, k);
    if k > 0 { EarlierIsShown(polls, f, w, c, k); }
  }

  lemma {:induction false} NumbersArePositive(polls: seq<Poll>, i: nat, k: int)
    requires Numbered(polls) && i < |polls|
    ensures k in polls[i].table ==> k >= 1
  {
  }

  /** With the selected events visible in sequence order, a client that starts without a cursor
      receives everything up to where it got, once and in order, if and only if the first page that
      showed anything was not cut off. */
  lemma {:induction false} FirstPageDecides(polls: seq<Poll>, f: Filter)
    requires polls != [] && Grows(polls) && Numbered(polls) && SelectedInOrder(polls, f, 0)
    ensures Received(polls, f) == Ascending(Wanted(polls, f)) <==> FirstPageFits(polls, f)
  {
    hide Grows, SelectedInOrder, Numbered, FirstShown, Wanted, Delivered, Reached, ListRecent, All, EffectiveLimit, Ascending, Shown, Increasing;
    var w, wanted := FirstShown(polls, f, 0), Wanted(polls, f);
    if w == |polls| {
      NothingWanted(polls, f);
    } else {
      var c, rest := FirstPosition(polls, f, w), polls[w + 1..];
      var limit := EffectiveLimit(polls[w].limit);
      var missed := FirstPageIsTail(polls[w].table, f, limit);
      var page, got := FirstPage(polls, f, w), Delivered(rest, f, c, |rest|);
      DeliveredInOrder(rest, f, c, |rest|);
      DeliveredWithin(rest, f, c, |rest|);
      forall k ensures k in wanted <==> Shown(polls[w].table, f, k) || k in got {
        WantedParts(polls, f, w, c, k);
      }
      FirstPageDecidesAt(wanted, page, got, c, |All(polls[w].table, f)| <= limit, missed);
    }
  }

  lemma {:induction false} NothingWanted(polls: seq<Poll>, f: Filter)
    requires polls != [] && FirstShown(polls, f, 0) == |polls|
    ensures Received(polls, f) == [] == Ascending(Wanted(polls, f))
  {
    var last := polls[|polls| - 1].table;
    assert All(last, f) == {};
    forall k | k in Wanted(polls, f) ensures k in All(last, f) { }
    assert Wanted(polls, f) == {};
  }

  /** A page and what follows it, against the set they should make up. */
  lemma {:induction false} FirstPageDecidesAt(wanted: set<int>, page: seq<int>, got: seq<int>, c: int, fits: bool, missed: int)
    requires Increasing(page) && Increasing(got) && (forall k :: k in page ==> k in wanted && k <= c) && (forall k :: k in got ==> c < k)
    requires forall k :: k in got ==> k in wanted
    requires fits ==> forall k :: k in wanted ==> k in page || k in got
    requires !fits ==> missed in wanted && missed !in page && missed <= c
    ensures page + got == Ascending(wanted) <==> fits
  {
    forall k ensures k in Ascending(wanted) <==> k in wanted { AscendingHolds(wanted, k); }
    if fits {
      Joined(page, got, c);
      AscendingIncreases(wanted);
      IncreasingIsUnique(page + got, Ascending(wanted));
    } else {
      assert missed !in page + got;
    }
  }

  /** A first page that misses an event, whatever the later pages do. */
  lemma {:induction false} MissedByFirstPage(polls: seq<Poll>, f: Filter, w: nat, k: int)
    requires polls != [] && w == FirstShown(polls, f, 0) < |polls|
    requires Shown(polls[|polls| - 1].table, f, k) && k !in polls[w].table && k <= FirstPosition(polls, f, w)
    ensures Received(polls, f) != Ascending(Wanted(polls, f))
  {
    hide FirstShown, Delivered, Reached, ListRecent, All, EffectiveLimit, Ascending, Selects, Increasing;
    var c, rest := FirstPosition(polls, f, w), polls[w + 1..];
    var missed := FirstPageIsTail(polls[w].table, f, EffectiveLimit(polls[w].limit));
    DeliveredWithin(rest, f, c, |rest|);
    AscendingHolds(Wanted(polls, f), k);
    assert k in Wanted(polls, f) && k !in FirstPage(polls, f, w) && k !in Delivered(rest, f, c, |rest|);
  }

  /** If event 1 becomes visible below one already shown, the client without a cursor misses it. */
  lemma {:induction false} FirstEventInOrder(polls: seq<Poll>, f: Filter, i: nat, m: int)
    requires polls != [] && Grows(polls) && Numbered(polls) && i < |polls|
    requires Shown(polls[|polls| - 1].table, f, 1) && 1 !in polls[i].table && Shown(polls[i].table, f, m)
    ensures Received(polls, f) != Ascending(Wanted(polls, f))
  {
    var w := FirstShown(polls, f, 0);
    assert m in All(polls[i].table, f);
    assert w <= i && 1 !in polls[w].table;
    hide Grows, FirstShown, ListRecent, EffectiveLimit, Ascending, Increasing, Received, Wanted;
    var missed := FirstPageIsTail(polls[w].table, f, EffectiveLimit(polls[w].limit));
    NumbersArePositive(polls, w, FirstPosition(polls, f, w));
    MissedByFirstPage(polls, f, w, 1);
  }

  /** The exact condition for all clients of the service, those that start with any cursor and the one
      that starts with none: everyone receives each event exactly once and in order if and only if
      the selected events become visible in sequence order and the first page that shows anything
      is not cut off. */
  lemma {:induction false} CompleteForEveryClient(polls: seq<Poll>, f: Filter)
    requires polls != [] && Grows(polls) && Numbered(polls)
    ensures (forall start :: start >= 1 ==> IsComplete(polls, f, start)) && Received(polls, f) == Ascending(Wanted(polls, f))
            <==> SelectedInOrder(polls, f, 0) && FirstPageFits(polls, f)
  {
    hide Grows, Numbered, Received, Wanted, Ascending, IsComplete, FirstPageFits, Selects;
    CompleteForEveryReader(polls, f, 1);
    if SelectedInOrder(polls, f, 0) {
      assert SelectedInOrder(polls, f, 1);
      FirstPageDecides(polls, f);
    } else if SelectedInOrder(polls, f, 1) {
      var i, k, m :| 0 <= i < |polls| && k > 0 && k !in polls[i].table && Shown(polls[|polls| - 1].table, f, k)
                     && Shown(polls[i].table, f, m) && m >= k;
      assert k == 1;
      FirstEventInOrder(polls, f, i, m);
    }
  }

  /** When in addition its last page was not full, the client has received all there is. */
  lemma {:induction false} ClientCaughtUp(polls: seq<Poll>, f: Filter)
    requires polls != [] && Grows(polls) && Numbered(polls) && SelectedInOrder(polls, f, 0) && FirstPageFits(polls, f)
    requires LastPageNotFull(polls, f)
    ensures Received(polls, f) == Ascending(All(polls[|polls| - 1].table, f))
  {
    var w, last := FirstShown(polls, f, 0), polls[|polls| - 1].table;
    hide Grows, SelectedInOrder, FirstPageFits, Ascending, Numbered, Received, Selects;
    FirstPageDecides(polls, f);
    if w == |polls| {
      assert All(last, f) == {} && Wanted(polls, f) <= All(last, f);
    } else {
      hide FirstShown;
      NothingLeft(polls, f);
      assert Wanted(polls, f) == All(last, f);
    }
  }

  ghost predicate LastPageNotFull(polls: seq<Poll>, f: Filter) {
    var w := FirstShown(polls, f, 0);
    w + 1 < |polls| ==>
      |PageOf(polls[w + 1..], f, FirstPosition(polls, f, w), |polls| - w - 2)| < EffectiveLimit(polls[|polls| - 1].limit)
  }

  lemma {:induction false} NothingLeft(polls: seq<Poll>, f: Filter)
    requires polls != [] && FirstShown(polls, f, 0) < |polls| && LastPageNotFull(polls, f)
    ensures forall k :: k in polls[|polls| - 1].table && Shown(polls[|polls| - 1].table, f, k) ==> IsWanted(polls, f, k)
  {
    hide FirstShown, PageOf, Reached, Increasing, ListRecent, EffectiveLimit, Selects;
    var w := FirstShown(polls, f, 0);
    var c, rest := FirstPosition(polls, f, w), polls[w + 1..];
    if rest == [] {
      NothingYet(rest, f, c);
      var missed := FirstPageIsTail(polls[w].table, f, EffectiveLimit(polls[w].limit));
    } else {
      PollIsWindow(rest, f, c, |rest| - 1);
    }
  }

  // ----- A client that loses an event --------------------------------------------------

  /** Nothing is shown, then 1 and 2, and the limit is one: the client that starts without a cursor is
      given 2 and never 1, although events become visible in order. */
  lemma {:induction false} EmptyStartLosesEvent(row: Row)
    ensures var f := Filter(None, None, None, None);
            var full := Poll(map[1 := row, 2 := row], 1);
            var polls := [Poll(map[], 1), full, full];
            && Grows(polls) && Numbered(polls) && SelectedInOrder(polls, f, 0)
            && Received(polls, f) == [2] && Wanted(polls, f) == {1, 2}
  {
    var f := Filter(None, None, None, None);
    var table: Table := map[1 := row, 2 := row];
    var full := Poll(table, 1);
    var polls := [Poll(map[], 1), full, full];
    assert All(polls[0].table, f) == {} && All(table, f) == {1, 2};
    assert FirstShown(polls, f, 0) == 1;
    LastOfTwo(table, f);
    var rest := polls[2..];
    assert rest == [full];
    assert FirstPage(polls, f, 1) == [2];
    hide FirstShown, ListRecent, Ascending;
    NothingAfter(table, f);
    DeliveredGrows(rest, f, 2, 0);
    NothingYet(rest, f, 2);
    assert Delivered(rest, f, 2, 1) == [] && Reached(rest, f, 2, 1) == 2;
    assert forall k :: k in Wanted(polls, f) <==> k == 1 || k == 2;
  }

  lemma {:induction false} LastOfTwo(table: Table, f: Filter)
    requires All(table, f) == {1, 2}
    ensures ListRecent(table, f, 1) == [2]
  {
    var s := {1, 2};
    forall k ensures k in Ascending(s) <==> k in [1, 2] { AscendingHolds(s, k); }
    AscendingIncreases(s);
    IncreasingIsUnique(Ascending(s), [1, 2]);
    RecentIsTail(table, f, 1);
    hide Ascending, ListRecent;
  }

  lemma {:induction false} NothingAfter(table: Table, f: Filter)
    requires All(table, f) == {1, 2}
    ensures ListAfter(table, f, 2, 1) == []
  {
    forall k ensures k !in After(table, f, 2) { assert k in After(table, f, 2) ==> k in All(table, f); }
    assert After(table, f, 2) == {};
  }

  // ----- Polling by text ---------------------------------------------------------------

  /** Asking without a cursor until a page shows something. */
  method AwaitFirst(polls: seq<Poll>, f: Filter, isTime: Text -> bool) returns (w: nat, events: seq<int>, next: Text)
    requires forall i :: 0 <= i < |polls| ==> Storable(polls[i].table, isTime)
    ensures w == FirstShown(polls, f, 0)
    ensures w == |polls| ==> events == [] && next == []
    ensures w < |polls| ==> events == FirstPage(polls, f, w)
                            && Parse(next, isTime).Some? && Parse(next, isTime).value.number == FirstPosition(polls, f, w)
  {
    hide Parse, Storable, ListRecent, EffectiveLimit, Ascending, All;
    events, next := [], [];
    w := 0;
    while w < |polls|
      invariant w <= |polls| && FirstShown(polls, f, 0) == FirstShown(polls, f, w)
    {
      var limit := EffectiveLimit(polls[w].limit);
      var page := ListEvents(polls[w].table, f, [], polls[w].limit, isTime);
      RecentIsTail(polls[w].table, f, limit);
      PageShowsAll(polls[w].table, f, limit);
      if page.value.events != [] {
        return w, page.value.events, page.value.next;
      }
      w := w + 1;
    }
  }

  /** A client of the feed, from its first request: it hands each page's next cursor back with the next
      request, whether or not it has been given one yet. */
  method Follow(polls: seq<Poll>, f: Filter, cursor: Text, isTime: Text -> bool) returns (events: seq<int>, next: Text)
    requires cursor == [] || Parse(cursor, isTime).Some?
    requires forall i :: 0 <= i < |polls| ==> Storable(polls[i].table, isTime)
    ensures cursor != [] ==>
              var start := Parse(cursor, isTime).value.number;
              && events == Delivered(polls, f, start, |polls|)
              && Parse(next, isTime).Some? && Parse(next, isTime).value.number == Reached(polls, f, start, |polls|)
    ensures cursor == [] ==>
              && events == Received(polls, f)
              && if FirstShown(polls, f, 0) == |polls| then next == []
                 else Parse(next, isTime).Some? && Parse(next, isTime).value.number == ReceivedTo(polls, f)
  {
    hide Parse, Storable, ListRecent, FirstShown, Delivered, Reached, FirstPage, FirstPosition;
    if cursor != [] {
      events, next := FollowFrom(polls, f, cursor, isTime);
      return;
    }
    var w;
    w, events, next := AwaitFirst(polls, f, isTime);
    if w < |polls| {
      var later;
      later, next := FollowFrom(polls[w + 1..], f, next, isTime);
      events := events + later;
    }
  }

  lemma {:induction false} PageShowsAll(t: Table, f: Filter, limit: nat)
    requires limit > 0
    ensures ListRecent(t, f, limit) == [] <==> All(t, f) == {}
  {
    RecentIsTail(t, f, limit);
    hide ListRecent;
  }
}
