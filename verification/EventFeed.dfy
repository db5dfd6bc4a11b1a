/** The event feed: the two list queries and one page of the feed. */
module EventFeed {
  import opened Basics
  import opened EventCursor
  import opened SortedLists

  /** The columns of `ticket_events` that the feed reads; the creation time by its text. */
  datatype Row = Row(workspace: Id, project: Id, ticket: Id, attempt: Option<Id>, time: Text, id: Text)

  /** Visible rows by `event_sequence`, which is unique. */
  type Table = map<int, Row>

  datatype Filter = Filter(workspace: Option<Id>, project: Option<Id>, ticket: Option<Id>, attempt: Option<Id>)

  predicate Selects(f: Filter, row: Row) {
    && (f.workspace.Some? ==> f.workspace.value == row.workspace)
    && (f.project.Some? ==> f.project.value == row.project)
    && (f.ticket.Some? ==> f.ticket.value == row.ticket)
    && (f.attempt.Some? ==> row.attempt == f.attempt)
  }

  /** Row `n` is visible and selected. */
  predicate Shown(t: Table, f: Filter, n: int) {
    n in t && Selects(f, t[n])
  }

  function All(t: Table, f: Filter): set<int> {
    set n | n in t && Shown(t, f, n)
  }

  function After(t: Table, f: Filter, after: int): set<int> {
    set n | n in t && Shown(t, f, n) && n > after
  }

  // ----- One page ----------------------------------------------------------------------

  const DEFAULT_LIMIT: nat := 100
  const MAX_LIMIT: nat := 500

  function EffectiveLimit(limit: int): (n: nat)
    requires limit >= 0
    ensures n > 0
  {
    PageLimit(limit, DEFAULT_LIMIT, MAX_LIMIT)
  }

  /** `ListRecentTicketEvents`: the latest events, put back in ascending order. */
  function ListRecent(t: Table, f: Filter, limit: nat): seq<int> {
    Reversed(Limited(Descending(All(t, f)), limit))
  }

  /** `ListTicketEventsAfterCursor` */
  function ListAfter(t: Table, f: Filter, after: int, limit: nat): seq<int> {
    Limited(Ascending(After(t, f, after)), limit)
  }

  /** The cursor-free page is the tail of the whole ascending list. */
  lemma {:induction false} RecentIsTail(t: Table, f: Filter, limit: nat)
    ensures var all := Ascending(All(t, f));
            ListRecent(t, f, limit) == all[if |all| < limit then 0 else |all| - limit..]
  {
    ReversedPrefix(Ascending(All(t, f)), limit);
  }

  /** What a page with a cursor holds: the shown events after the cursor up to its last one,
      each once and in order; and it stops early only when there are no more. */
  lemma {:induction false} PageIsWindow(t: Table, f: Filter, after: int, limit: nat)
    requires limit > 0
    ensures var page := ListAfter(t, f, after, limit);
            && Increasing(page) && after <= Position(after, page)
            && (forall n :: n in page <==> Shown(t, f, n) && after < n <= Position(after, page))
            && (|page| < limit ==> forall n :: Shown(t, f, n) ==> n <= Position(after, page))
            && (page != [] ==> Position(after, page) in page)
  {
    var items := After(t, f, after);
    var all, page := Ascending(items), ListAfter(t, f, after, limit);
    AscendingIncreases(items);
    hide Ascending;
    assert page == all[..|page|];
    PrefixIncreases(all, |page|);
    hide Increasing;
    assert forall n :: n in items <==> Shown(t, f, n) && n > after;
    hide Shown;
    if |page| > 0 { AscendingHolds(items, page[|page| - 1]); }
    forall n ensures n in page <==> Shown(t, f, n) && after < n <= Position(after, page) {
      AscendingHolds(items, n);
      if |page| > 0 { PrefixUpTo(all, |page|, n); }
    }
    if |page| < limit {
      forall n | Shown(t, f, n) ensures n <= Position(after, page) {
        AscendingHolds(items, n);
        if |page| > 0 { PrefixUpTo(all, |page|, n); }
      }
    }
  }

  /** The sequence number a reader has reached. */
  function Position(after: int, page: seq<int>): int {
    if page == [] then after else page[|page| - 1]
  }

  datatype FeedError = InvalidLimit | InvalidCursor

  datatype Page = Page(events: seq<int>, next: Text)

  function CursorOf(n: int, row: Row): Cursor {
    Cursor(n, row.time, row.id)
  }

  /** Every row has an id and a time, and numbers start at one. */
  predicate Storable(t: Table, isTime: Text -> bool) {
    forall n :: n in t ==> n >= 1 && Formattable(CursorOf(n, t[n])) && isTime(t[n].time)
  }

  // ----- Pages in terms of columns -----------------------------------------------------

  /** The row has the value the filter names in each of the four columns. */
  predicate Agrees(f: Filter, row: Row) {
    && f.workspace in {None, Some(row.workspace)} && f.project in {None, Some(row.project)}
    && f.ticket in {None, Some(row.ticket)} && f.attempt in {None, row.attempt}
  }

  lemma {:induction false} ShownAgrees(t: Table, f: Filter, n: int)
    ensures Shown(t, f, n) <==> n in t && Agrees(f, t[n])
  {
  }

  /** The page size a request gets. */
  function PageSize(limit: nat): nat {
    if limit == 0 then 100 else if limit < 500 then limit else 500
  }

  /** What a page holds: only visible rows that agree with the filter, in order, no more than its size;
      and every such row past `from` that the page has reached, or at all if the page is not full. */
  ghost predicate IsPage(t: Table, f: Filter, from: Option<int>, size: nat, events: seq<int>) {
    && Increasing(events) && |events| <= size
    && (forall n :: n in events ==> n in t && Agrees(f, t[n]) && (from.Some? ==> from.value < n))
    && (forall n :: n in t && Agrees(f, t[n]) && n !in events ==>
          if from.Some? then n <= from.value || (|events| == size && forall m :: m in events ==> m < n)
          else |events| == size && forall m :: m in events ==> n < m)
  }

  lemma {:induction false} AfterIsPage(t: Table, f: Filter, from: int, limit: nat)
    requires limit > 0
    ensures IsPage(t, f, Some(from), limit, ListAfter(t, f, from, limit))
  {
    PageIsWindow(t, f, from, limit);
    forall n ensures Shown(t, f, n) <==> n in t && Agrees(f, t[n]) { ShownAgrees(t, f, n); }
    hide Shown, Agrees, ListAfter;
    var events := ListAfter(t, f, from, limit);
    forall n, m | n in t && Agrees(f, t[n]) && n !in events && n > from && m in events ensures m < n {
      assert m <= Position(from, events);
    }
  }

  lemma {:induction false} AllAgree(t: Table, f: Filter, n: int)
    ensures n in Ascending(All(t, f)) <==> n in t && Agrees(f, t[n])
  {
    AscendingHolds(All(t, f), n);
    ShownAgrees(t, f, n);
    hide Ascending, Agrees, Selects;
  }

  lemma {:induction false} TailIsRecentPage(t: Table, f: Filter, all: seq<int>, limit: nat)
    requires Increasing(all) && forall n :: n in all <==> n in t && Agrees(f, t[n])
    ensures IsPage(t, f, None, limit, all[if |all| < limit then 0 else |all| - limit..])
  {
    hide Increasing, Agrees;
    var skipped := if |all| < limit then 0 else |all| - limit;
    var events := all[skipped..];
    TailIsPage(all, skipped);
    forall n | n in t && Agrees(f, t[n]) && n !in events ensures |events| == limit && forall m :: m in events ==> n < m {
      assert n in all;
    }
  }

  lemma {:induction false} RecentIsPage(t: Table, f: Filter, limit: nat)
    ensures IsPage(t, f, None, limit, ListRecent(t, f, limit))
  {
    hide Ascending, ListRecent, Shown, Agrees, All, Increasing;
    RecentIsTail(t, f, limit);
    var all := Ascending(All(t, f));
    AscendingIncreases(All(t, f));
    forall n ensures n in all <==> n in t && Agrees(f, t[n]) { AllAgree(t, f, n); }
    TailIsRecentPage(t, f, all, limit);
  }

  /** `ListEvents`, for a cursor that has been trimmed. */
  method ListEvents(t: Table, f: Filter, cursor: Text, limit: int, isTime: Text -> bool) returns (r: Result<Page, FeedError>)
    requires Storable(t, isTime)
    ensures r.Ok? <==> limit >= 0 && (cursor == [] || Parse(cursor, isTime).Some?)
    ensures r == Err(InvalidLimit) <==> limit < 0
    ensures r == Err(InvalidCursor) <==> limit >= 0 && cursor != [] && Parse(cursor, isTime).None?
    ensures r.Ok? && cursor == [] ==>
              var all := Ascending(All(t, f));
              r.value.events == all[if |all| < EffectiveLimit(limit) then 0 else |all| - EffectiveLimit(limit)..]
    ensures r.Ok? && cursor != [] ==>
              r.value.events == ListAfter(t, f, Parse(cursor, isTime).value.number, EffectiveLimit(limit))
    ensures r.Ok? ==>
              IsPage(t, f, if cursor == [] then None else Some(Parse(cursor, isTime).value.number), PageSize(limit), r.value.events)
    ensures r.Ok? && r.value.events == [] ==> r.value.next == cursor
    ensures r.Ok? && r.value.events != [] ==>
              var last := r.value.events[|r.value.events| - 1];
              last in t && Parse(r.value.next, isTime) == Some(CursorOf(last, t[last]))
  {
    if limit >= 0 { assert EffectiveLimit(limit) == PageSize(limit); }
    hide Parse, Format, Formattable, Ascending, Shown, EffectiveLimit, PageSize, IsPage, All, After, ListAfter, ListRecent;
    if limit < 0 {
      return Err(InvalidLimit);
    }
    var count := EffectiveLimit(limit);
    var events;
    if cursor == [] {
      RecentIsTail(t, f, count);
      events := ListRecent(t, f, count);
      RecentAreStored(t, f, count);
      RecentIsPage(t, f, count);
    } else {
      var parsed := Parse(cursor, isTime);
      if parsed.None? {
        return Err(InvalidCursor);
      }
      events := ListAfter(t, f, parsed.value.number, count);
      AfterAreStored(t, f, parsed.value.number, count);
      AfterIsPage(t, f, parsed.value.number, count);
    }
    var next := cursor;
    if |events| > 0 {
      var last := events[|events| - 1];
      CursorRoundTrip(CursorOf(last, t[last]), isTime);
      next := Format(CursorOf(last, t[last]));
    }
    r := Ok(Page(events, next));
  }

  lemma {:induction false} RecentAreStored(t: Table, f: Filter, limit: nat)
    ensures forall i :: 0 <= i < |ListRecent(t, f, limit)| ==> ListRecent(t, f, limit)[i] in t
  {
    RecentIsTail(t, f, limit);
    var all := Ascending(All(t, f));
    hide Ascending, ListRecent;
    forall i | 0 <= i < |all| ensures all[i] in t { AscendingHolds(All(t, f), all[i]); }
  }

  lemma {:induction false} AfterAreStored(t: Table, f: Filter, after: int, limit: nat)
    ensures forall i :: 0 <= i < |ListAfter(t, f, after, limit)| ==> ListAfter(t, f, after, limit)[i] in t
  {
    var all := Ascending(After(t, f, after));
    hide Ascending;
    forall i | 0 <= i < |all| ensures all[i] in t { AscendingHolds(After(t, f, after), all[i]); }
  }
}
