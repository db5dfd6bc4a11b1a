/** The feed over the ledger's own log: what a client that polls while the ledger runs can know of a
    ticket. */
module LedgerFeed {
  import opened Basics
  import opened Ledger
  import opened LedgerInvariant
  import opened LedgerRuns
  import opened LedgerTheorems
  import opened SortedLists
  import EventCursor
  import opened EventFeed
  import opened EventPolling
  import opened EventClients

  /** The creation time and id that an event's row was given. */
  type Stamps = nat -> (EventCursor.Text, EventCursor.Text)

  function Scope(s: State, t: Id): (Id, Id) {
    if t in s.tickets then (s.tickets[t].workspace, s.tickets[t].project) else (0, 0)
  }

  /** Event `i` of the log has number `i + 1`. */
  predicate HasNumber(s: State, n: int) {
    1 <= n <= |s.events|
  }

  function RowOf(s: State, n: int, stamps: Stamps): Row
    requires HasNumber(s, n)
  {
    var e := s.events[n - 1];
    Row(Scope(s, e.ticket).0, Scope(s, e.ticket).1, e.ticket, e.attempt, stamps(n).0, stamps(n).1)
  }

  /** The log as the feed sees it. */
  function TableOf(s: State, stamps: Stamps): Table {
    map n | 1 <= n <= |s.events| && HasNumber(s, n) :: RowOf(s, n, stamps)
  }

  /** A request made when the first `seen` steps of the run have been taken. */
  datatype Look = Look(seen: nat, limit: nat)

  ghost predicate InTime(steps: seq<Step>, looks: seq<Look>) {
    && (forall i :: 0 <= i < |looks| ==> looks[i].seen <= |steps|)
    && forall i, j :: 0 <= i < j < |looks| ==> looks[i].seen <= looks[j].seen
  }

  ghost function SeenAt(steps: seq<Step>, look: Look): State
    requires look.seen <= |steps|
  {
    Run(EMPTY, steps[..look.seen])
  }

  ghost function Polls(steps: seq<Step>, looks: seq<Look>, stamps: Stamps): (polls: seq<Poll>)
    requires InTime(steps, looks)
    ensures |polls| == |looks|
    ensures forall i :: 0 <= i < |polls| ==> polls[i] == Poll(TableOf(SeenAt(steps, looks[i]), stamps), looks[i].limit)
  {
    seq(|looks|, i requires 0 <= i < |looks| => Poll(TableOf(SeenAt(steps, looks[i]), stamps), looks[i].limit))
  }

  // ----- The log is visible in order ---------------------------------------------------

  lemma {:induction false} TableGrows(s: State, s': State, stamps: Stamps)
    requires WellReferenced(s) && Evolves(s, s')
    ensures forall n :: n in TableOf(s, stamps) ==> n in TableOf(s', stamps) && TableOf(s', stamps)[n] == TableOf(s, stamps)[n]
    ensures forall k, m :: k in TableOf(s', stamps) && k !in TableOf(s, stamps) && m in TableOf(s, stamps) ==> m < k
  {
    forall n | HasNumber(s, n) ensures HasNumber(s', n) && RowOf(s', n, stamps) == RowOf(s, n, stamps) {
      var e := s.events[n - 1];
      assert e in s.events && s'.events[n - 1] == e;
      assert TicketEvolves(s, s', e.ticket);
    }
  }

  lemma {:induction false} LaterLook(steps: seq<Step>, looks: seq<Look>, i: nat, j: nat)
    requires InTime(steps, looks) && i <= j < |looks|
    ensures WellReferenced(SeenAt(steps, looks[i])) && Evolves(SeenAt(steps, looks[i]), SeenAt(steps, looks[j]))
  {
    var m, n := looks[i].seen, looks[j].seen;
    assert m <= n;
    ReachableRows(steps[..m]);
    RunsEvolve(steps[..m], steps[m..n]);
    assert steps[..m] + steps[m..n] == steps[..n];
    hide Run, Evolves, TicketInvariant, AttemptInvariant, ClaimTriaged, WellReferenced;
  }

  /** Whenever it is looked at, the log of a run is visible in sequence order. */
  lemma {:induction false} LogIsVisibleInOrder(steps: seq<Step>, looks: seq<Look>, stamps: Stamps, f: Filter)
    requires InTime(steps, looks) && looks != []
    ensures var polls := Polls(steps, looks, stamps);
            Grows(polls) && Numbered(polls) && SelectedInOrder(polls, f, 0)
  {
    var polls := Polls(steps, looks, stamps);
    hide Polls, InTime, SeenAt, Evolves, WellReferenced;
    forall i, j, k | 0 <= i < j < |polls| && k in polls[i].table
      ensures k in polls[j].table && polls[j].table[k] == polls[i].table[k]
    {
      LaterLook(steps, looks, i, j);
      TableGrows(SeenAt(steps, looks[i]), SeenAt(steps, looks[j]), stamps);
    }
    var n := |polls| - 1;
    forall i, k, m | 0 <= i < |polls| && k > 0 && k !in polls[i].table && Shown(polls[n].table, f, k) && Shown(polls[i].table, f, m)
      ensures m < k
    {
      LaterLook(steps, looks, i, n);
      TableGrows(SeenAt(steps, looks[i]), SeenAt(steps, looks[n]), stamps);
    }
  }

  // ----- Replaying what was received ---------------------------------------------------

  function Picked(events: seq<Event>, list: seq<int>): seq<Event>
    requires forall i :: 0 <= i < |list| ==> 1 <= list[i] <= |events|
  {
    if list == [] then [] else Picked(events, list[..|list| - 1]) + [events[list[|list| - 1] - 1]]
  }

  ghost predicate Within(s: set<int>, n: nat) {
    forall k :: k in s ==> 1 <= k <= n
  }

  lemma {:induction false} AscendingWithin(s: set<int>, n: nat)
    requires Within(s, n)
    ensures forall i :: 0 <= i < |Ascending(s)| ==> 1 <= Ascending(s)[i] <= n
  {
    hide Ascending;
    forall i | 0 <= i < |Ascending(s)| ensures 1 <= Ascending(s)[i] <= n { AscendingHolds(s, Ascending(s)[i]); }
  }

  lemma {:induction false} AscendingSplits(s: set<int>, n: int)
    requires n in s && forall k :: k in s ==> k <= n
    ensures Ascending(s) == Ascending(s - {n}) + [n]
  {
    var before := Ascending(s - {n});
    AscendingIncreases(s);
    AscendingIncreases(s - {n});
    hide Ascending;
    forall k ensures k in before ==> k <= n - 1 { AscendingHolds(s - {n}, k); }
    Joined(before, [n], n - 1);
    forall k ensures k in Ascending(s) <==> k in before + [n] {
      AscendingHolds(s, k);
      AscendingHolds(s - {n}, k);
    }
    IncreasingIsUnique(Ascending(s), before + [n]);
  }

  lemma {:induction false} PickedPrefix(events: seq<Event>, more: seq<Event>, list: seq<int>)
    requires forall i :: 0 <= i < |list| ==> 1 <= list[i] <= |events|
    ensures Picked(events + more, list) == Picked(events, list)
  {
    if list != [] { PickedPrefix(events, more, list[..|list| - 1]); }
  }

  lemma {:induction false} AscendingHasSize(s: set<int>)
    ensures |Ascending(s)| == |s|
  {
    hide Ascending;
  }

  lemma {:induction false} PickedExtends(events: seq<Event>, list: seq<int>, n: int)
    requires 1 <= n <= |events| && forall i :: 0 <= i < |list| ==> 1 <= list[i] <= |events|
    ensures Picked(events, list + [n]) == Picked(events, list) + [events[n - 1]]
  {
    assert (list + [n])[..|list|] == list;
  }

  lemma {:induction false} NothingToReplay(s: set<int>, t: Id)
    requires Within(s, 0)
    ensures Ascending(s) == [] && Replay(Picked([], []), t) == Replay([], t)
  {
    forall k ensures k !in s { }
    assert s == {};
    AscendingHasSize(s);
    hide Ascending;
  }

  /** One more event, of which the selection takes the number. */
  lemma {:induction false} TakesLast(before: seq<Event>, e: Event, s: set<int>, t: Id)
    requires Within(s, |before| + 1) && |before| + 1 in s
    requires Within(s - {|before| + 1}, |before|)
    ensures var list, rest := Ascending(s), Ascending(s - {|before| + 1});
            && (forall i :: 0 <= i < |list| ==> 1 <= list[i] <= |before| + 1)
            && (forall i :: 0 <= i < |rest| ==> 1 <= rest[i] <= |before|)
            && Replay(Picked(before + [e], list), t) ==
               if e.ticket == t then Observe(Replay(Picked(before, rest), t), e) else Replay(Picked(before, rest), t)
  {
    hide Ascending, Picked, Replay, Observe;
    var n, rest := |before| + 1, Ascending(s - {|before| + 1});
    AscendingWithin(s, n);
    AscendingWithin(s - {n}, n - 1);
    AscendingSplits(s, n);
    PickedExtends(before + [e], rest, n);
    PickedPrefix(before, [e], rest);
    ReplayAppend(Picked(before, rest), e, t);
  }

  /** Events of other tickets do not matter to a replay: any selection that has all of a ticket's events
      replays like the whole log. */
  lemma {:induction false} SelectionReplays(events: seq<Event>, s: set<int>, t: Id)
    requires Within(s, |events|) && forall n :: 1 <= n <= |events| && events[n - 1].ticket == t ==> n in s
    ensures forall i :: 0 <= i < |Ascending(s)| ==> 1 <= Ascending(s)[i] <= |events|
    ensures Replay(Picked(events, Ascending(s)), t) == Replay(events, t)
  {
    hide Ascending, Replay, Picked, Observe;
    AscendingWithin(s, |events|);
    if events == [] {
      NothingToReplay(s, t);
    } else {
      var n := |events|;
      var before, e, rest := events[..n - 1], events[n - 1], s - {n};
      assert events == before + [e];
      forall k | 1 <= k <= n - 1 && before[k - 1].ticket == t ensures k in rest { assert events[k - 1] == before[k - 1]; }
      SelectionReplays(before, rest, t);
      ReplayAppend(before, e, t);
      if n in s {
        TakesLast(before, e, s, t);
      } else {
        assert rest == s;
        PickedPrefix(before, [e], Ascending(rest));
      }
    }
  }

  // ----- What a client knows -----------------------------------------------------------

  /** A filter that selects every event of the ticket: none of its columns, or those of the ticket. */
  predicate Follows(s: State, f: Filter, t: Id) {
    && t in s.tickets && f.workspace in {None, Some(s.tickets[t].workspace)} && f.project in {None, Some(s.tickets[t].project)}
    && f.ticket in {None, Some(t)} && f.attempt.None?
  }

  lemma {:induction false} FeedHasTicket(s: State, stamps: Stamps, f: Filter, t: Id)
    requires Follows(s, f, t)
    ensures Within(All(TableOf(s, stamps), f), |s.events|)
    ensures forall n :: 1 <= n <= |s.events| && s.events[n - 1].ticket == t ==> n in All(TableOf(s, stamps), f)
  {
  }

  predicate NumbersOf(events: seq<Event>, list: seq<int>) {
    forall i :: 0 <= i < |list| ==> 1 <= list[i] <= |events|
  }

  /** What the events with these numbers tell of a ticket. */
  function Learned(events: seq<Event>, list: seq<int>, t: Id): Option<View> {
    if NumbersOf(events, list) then Some(Replay(Picked(events, list), t)) else None
  }

  /** What the ledger has stored of a ticket. */
  ghost predicate StoredAs(s: State, t: Id, v: View) {
    && t in s.tickets && v.status == Some(s.tickets[t].status)
    && RunningAttempts(s, t) == match v.running { case None => {} case Some(a) => {a} }
  }

  /** A client that starts without a cursor, whose first page is not cut off and whose last page is not
      full, knows of a ticket what the ledger has stored: replaying the events it received gives the
      ticket's status and its running attempt, if any. */
  lemma {:induction false} ClientKnowsTicket(steps: seq<Step>, looks: seq<Look>, stamps: Stamps, f: Filter, t: Id)
    requires InTime(steps, looks) && looks != [] && Follows(SeenAt(steps, looks[|looks| - 1]), f, t)
    requires FirstPageFits(Polls(steps, looks, stamps), f) && LastPageNotFull(Polls(steps, looks, stamps), f)
    ensures var s := SeenAt(steps, looks[|looks| - 1]);
            var learned := Learned(s.events, Received(Polls(steps, looks, stamps), f), t);
            learned.Some? && StoredAs(s, t, learned.value)
  {
    hide Run, Replay, Ascending, Received, FirstPageFits, LastPageNotFull, Grows, Numbered, SelectedInOrder, All, TableOf, Picked, RunningAttempts;
    var polls := Polls(steps, looks, stamps);
    var seen := looks[|looks| - 1].seen;
    var s := Run(EMPTY, steps[..seen]);
    LogIsVisibleInOrder(steps, looks, stamps, f);
    ClientCaughtUp(polls, f);
    FeedHasTicket(s, stamps, f, t);
    SelectionReplays(s.events, All(TableOf(s, stamps), f), t);
    LogDeterminesRows(steps[..seen], t);
  }
}
