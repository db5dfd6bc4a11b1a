/** The recommendation query beside the claim query: one eligibility filter, two orders. */
module Recommendation {
  import opened Basics
  import opened Ledger
  import opened LedgerRuns
  import opened LedgerLaws

  // ----- Score and order ---------------------------------------------------------------

  /** Finished work in the same project with the same type or a common tag. */
  function RelatedDone(s: State, id: Id): set<Id>
    requires id in s.tickets
  {
    var t := s.tickets[id];
    set other | other in s.tickets && other != id && s.tickets[other].workspace == t.workspace
                && s.tickets[other].project == t.project && s.tickets[other].status == Done
                && (s.tickets[other].kind == t.kind || s.tickets[other].tags * t.tags != {})
  }

  function Bonus(s: State, id: Id): (bonus: int)
    requires id in s.tickets
    ensures 0 <= bonus <= 29
  {
    var t := s.tickets[id];
    (if t.acceptance > 0 then 8 else 0) + (if t.verification > 0 then 8 else 0) + (if t.paths > 0 then 4 else 0)
    + (if |RelatedDone(s, id)| > 0 then 6 else 0) + (if t.createdBy == Agent then 3 else 0)
  }

  function Score(s: State, id: Id): int
    requires id in s.tickets
  {
    100 - 10 * s.tickets[id].priority + Bonus(s, id) - 5 * Spent(s, id)
  }

  /** ORDER BY recommendation_score DESC, priority ASC, created_at ASC, id ASC */
  predicate Before(s: State, a: Id, b: Id)
    requires a in s.tickets && b in s.tickets
  {
    if Score(s, a) != Score(s, b) then Score(s, a) > Score(s, b)
    else if s.tickets[a].priority != s.tickets[b].priority then s.tickets[a].priority < s.tickets[b].priority
    else if s.tickets[a].createdAt != s.tickets[b].createdAt then s.tickets[a].createdAt < s.tickets[b].createdAt
    else a < b
  }

  lemma {:induction false} BeforeIsTotalOrder(s: State, a: Id, b: Id, c: Id)
    requires a in s.tickets && b in s.tickets && c in s.tickets
    ensures !Before(s, a, a) && (a != b ==> (Before(s, a, b) <==> !Before(s, b, a)))
    ensures Before(s, a, b) && Before(s, b, c) ==> Before(s, a, c)
  {
    hide Score;
  }

  // ----- Points ------------------------------------------------------------------------

  /** Some other ticket of the project is done and has the same type or a common tag. */
  ghost predicate HasFinishedRelative(s: State, id: Id)
    requires id in s.tickets
  {
    exists x :: x in s.tickets && x != id && s.tickets[x].status == Done
                && s.tickets[x].workspace == s.tickets[id].workspace && s.tickets[x].project == s.tickets[id].project
                && (s.tickets[x].kind == s.tickets[id].kind || exists tag :: tag in s.tickets[x].tags && tag in s.tickets[id].tags)
  }

  lemma {:induction false} RelativesExactly(s: State, id: Id)
    requires id in s.tickets
    ensures |RelatedDone(s, id)| > 0 <==> HasFinishedRelative(s, id)
  {
    var t := s.tickets[id];
    if |RelatedDone(s, id)| > 0 {
      var x :| x in RelatedDone(s, id);
      if s.tickets[x].kind != t.kind { var tag :| tag in s.tickets[x].tags * t.tags; assert tag in s.tickets[x].tags; }
    }
    if HasFinishedRelative(s, id) {
      var x :| x in s.tickets && x != id && s.tickets[x].status == Done
               && s.tickets[x].workspace == t.workspace && s.tickets[x].project == t.project
               && (s.tickets[x].kind == t.kind || exists tag :: tag in s.tickets[x].tags && tag in t.tags);
      if s.tickets[x].kind != t.kind {
        var tag :| tag in s.tickets[x].tags && tag in t.tags;
        assert tag in s.tickets[x].tags * t.tags;
      }
      assert x in RelatedDone(s, id);
    }
  }

  /** What each recommendation reason is worth. */
  lemma {:induction false} BonusExactly(s: State, id: Id)
    requires id in s.tickets
    ensures var t := s.tickets[id];
            Bonus(s, id) ==
              (if t.acceptance == 0 then 0 else 8) + (if t.verification == 0 then 0 else 8) + (if t.paths == 0 then 0 else 4)
              + (if HasFinishedRelative(s, id) then 6 else 0) + (if t.createdBy == Agent then 3 else 0)
  {
    RelativesExactly(s, id);
    hide RelatedDone, HasFinishedRelative;
  }

  /** With equal bonuses a priority level weighs as much as two failures; ties go to the more urgent, then the
      older, then the smaller id. */
  lemma {:induction false} FailuresAgainstUrgency(s: State, a: Id, b: Id)
    requires a in s.tickets && b in s.tickets && Bonus(s, a) == Bonus(s, b)
    ensures var t, u := s.tickets[a], s.tickets[b];
            var x, y := 2 * t.priority + |SpentRows(s, a)|, 2 * u.priority + |SpentRows(s, b)|;
            Before(s, a, b) <==>
              x < y || (x == y && (t.priority < u.priority || (t.priority == u.priority &&
                (t.createdAt < u.createdAt || (t.createdAt == u.createdAt && a < b)))))
  {
    assert SpentRows(s, a) == SpentAttempts(s, a) && SpentRows(s, b) == SpentAttempts(s, b);
    hide Bonus;
  }

  /** Between any two tickets, the points of their bonuses against ten for a priority level. */
  lemma {:induction false} PointsDecide(s: State, a: Id, b: Id)
    requires a in s.tickets && b in s.tickets
    ensures var x, y := Bonus(s, a) - 10 * s.tickets[a].priority - 5 * |SpentRows(s, a)|,
                        Bonus(s, b) - 10 * s.tickets[b].priority - 5 * |SpentRows(s, b)|;
            (x > y ==> Before(s, a, b)) && (Before(s, a, b) ==> x >= y)
  {
    assert SpentRows(s, a) == SpentAttempts(s, a) && SpentRows(s, b) == SpentAttempts(s, b);
    hide Bonus;
  }

  // ----- The ranked list ---------------------------------------------------------------

  ghost predicate IsFirst(s: State, items: set<Id>, first: Id)
    requires items <= s.tickets.Keys
  {
    first in items && forall x :: x in items && x != first ==> Before(s, first, x)
  }

  lemma {:induction false} FirstExists(s: State, items: set<Id>)
    requires items != {} && items <= s.tickets.Keys
    ensures exists first :: IsFirst(s, items, first)
  {
    hide Before;
    var x :| x in items;
    var rest := items - {x};
    assert items == rest + {x};
    if rest == {} {
      assert IsFirst(s, items, x);
    } else {
      FirstExists(s, rest);
      var m :| IsFirst(s, rest, m);
      BeforeIsTotalOrder(s, x, m, m);
      if Before(s, x, m) {
        forall y | y in items && y != x ensures Before(s, x, y) { BeforeIsTotalOrder(s, x, m, y); }
        assert IsFirst(s, items, x);
      } else {
        assert IsFirst(s, items, m);
      }
    }
  }

  ghost function First(s: State, items: set<Id>): (first: Id)
    requires items != {} && items <= s.tickets.Keys
    ensures IsFirst(s, items, first)
  {
    FirstExists(s, items);
    var first :| IsFirst(s, items, first);
    first
  }

  /** `items` in the order of the query. */
  ghost function Ranking(s: State, items: set<Id>): seq<Id>
    requires items <= s.tickets.Keys
    decreases |items|
  {
    if items == {} then [] else [First(s, items)] + Ranking(s, items - {First(s, items)})
  }

  /** The same rows, each once, every earlier one before every later one. */
  ghost predicate IsRanking(s: State, items: set<Id>, list: seq<Id>)
    requires items <= s.tickets.Keys
  {
    && (forall i :: 0 <= i < |list| ==> list[i] in items)
    && (forall x :: x in items ==> x in list)
    && (forall i, j :: 0 <= i < j < |list| ==> Before(s, list[i], list[j]))
  }

  lemma {:induction false} PrependFirst(s: State, items: set<Id>, first: Id, list: seq<Id>)
    requires items <= s.tickets.Keys && IsFirst(s, items, first) && IsRanking(s, items - {first}, list)
    ensures IsRanking(s, items, [first] + list)
  {
    hide Before;
    var whole := [first] + list;
    forall x | x in items ensures x in whole {
      if x == first { assert whole[0] == x; } else { assert x in list; }
    }
  }

  lemma {:induction false} RankingRanks(s: State, items: set<Id>)
    requires items <= s.tickets.Keys
    ensures IsRanking(s, items, Ranking(s, items)) && |Ranking(s, items)| == |items|
    decreases |items|
  {
    if items != {} {
      var first := First(s, items);
      hide IsRanking, First, Before;
      RankingRanks(s, items - {first});
      PrependFirst(s, items, first, Ranking(s, items - {first}));
    }
  }

  lemma {:induction false} HeadIsFirst(s: State, items: set<Id>, list: seq<Id>)
    requires items != {} && items <= s.tickets.Keys && IsRanking(s, items, list)
    ensures |list| > 0 && list[0] == First(s, items) && IsRanking(s, items - {list[0]}, list[1..])
  {
    hide Before;
    var first := First(s, items);
    assert first in list;
    BeforeIsTotalOrder(s, list[0], first, first);
    forall i | 0 < i < |list| ensures list[i] != list[0] { BeforeIsTotalOrder(s, list[0], list[i], list[i]); }
    forall x | x in items - {list[0]} ensures x in list[1..] {
      var i :| 0 <= i < |list| && list[i] == x;
      assert list[1..][i - 1] == x;
    }
  }

  lemma {:induction false} NothingRanked(s: State, items: set<Id>, list: seq<Id>)
    requires items <= s.tickets.Keys && IsRanking(s, items, list)
    ensures items == {} ==> list == []
  {
    hide Before;
    assert |list| > 0 ==> list[0] in items;
  }

  /** The order leaves no ties: a list with these properties is the ranking. */
  lemma {:induction false} RankingIsUnique(s: State, items: set<Id>, list: seq<Id>)
    requires items <= s.tickets.Keys && IsRanking(s, items, list)
    ensures list == Ranking(s, items)
    decreases |items|
  {
    hide Before, First, IsRanking;
    if items == {} {
      NothingRanked(s, items, list);
    } else {
      HeadIsFirst(s, items, list);
      RankingIsUnique(s, items - {list[0]}, list[1..]);
      assert list == [list[0]] + list[1..];
    }
  }

  /** The unpaged recommendation list. */
  ghost function Recommended(s: State, r: ClaimRequest): seq<Id> {
    Ranking(s, EligibleTickets(s, r))
  }

  // ----- Pages -------------------------------------------------------------------------

  const DEFAULT_LIMIT: nat := 25
  const MAX_LIMIT: nat := 100

  /** LIMIT ... OFFSET ... */
  function Page(list: seq<Id>, offset: nat, limit: nat): seq<Id> {
    var rest := if offset < |list| then list[offset..] else [];
    if limit < |rest| then rest[..limit] else rest
  }

  /** The first `k` pages, one after the other. */
  function Pages(list: seq<Id>, limit: nat, k: nat): seq<Id> {
    if k == 0 then [] else Pages(list, limit, k - 1) + Page(list, (k - 1) * limit, limit)
  }

  /** Consecutive pages of any one size concatenate to the ordered list. */
  lemma {:induction false} PagesConcatenate(list: seq<Id>, limit: nat, k: nat)
    ensures Pages(list, limit, k) == if k * limit < |list| then list[..k * limit] else list
  {
    if k > 0 {
      PagesConcatenate(list, limit, k - 1);
      assert k * limit == (k - 1) * limit + limit;
    }
  }

  /** Asking with one limit for page after page returns the whole list, whatever the limit. */
  lemma {:induction false} RecommendationPages(s: State, r: ClaimRequest, limit: int, k: nat)
    requires limit >= 0 && k * PageLimit(limit, DEFAULT_LIMIT, MAX_LIMIT) >= |Recommended(s, r)|
    ensures Pages(Recommended(s, r), PageLimit(limit, DEFAULT_LIMIT, MAX_LIMIT), k) == Recommended(s, r)
    ensures PageLimit(limit, DEFAULT_LIMIT, MAX_LIMIT) == if limit == 0 then 25 else if limit < 100 then limit else 100
  {
    PagesConcatenate(Recommended(s, r), PageLimit(limit, DEFAULT_LIMIT, MAX_LIMIT), k);
  }

  // ----- Agreement with the claim ------------------------------------------------------

  lemma {:induction false} CandidateExists(s: State, items: set<Id>)
    requires items != {} && items <= s.tickets.Keys
    ensures exists t :: t in items && forall other :: other in items ==> ClaimsNoLater(s, t, other)
  {
    var x :| x in items;
    var rest := items - {x};
    assert items == rest + {x};
    var t := x;
    if rest != {} {
      CandidateExists(s, rest);
      var m :| m in rest && forall other :: other in rest ==> ClaimsNoLater(s, m, other);
      if ClaimsNoLater(s, m, x) { t := m; }
      forall other | other in items ensures ClaimsNoLater(s, t, other) {
        assert other == x || ClaimsNoLater(s, m, other);
      }
    }
    assert t in items && forall other :: other in items ==> ClaimsNoLater(s, t, other);
  }

  /** With no row locked, a claim finds a ticket exactly when the list is not empty, and what it
      takes is on the list with none on it more urgent, or as urgent and older. */
  lemma {:induction false} ClaimAgrees(s: State, r: ClaimRequest)
    ensures (exists t :: IsCandidate(s, r, {}, t)) <==> Recommended(s, r) != []
    ensures forall t :: IsCandidate(s, r, {}, t) ==>
              t in Recommended(s, r) && forall other :: other in Recommended(s, r) ==> ClaimsNoLater(s, t, other)
  {
    var items := EligibleTickets(s, r);
    assert items - {} == items;
    RankingRanks(s, items);
    hide Before, Ranking, Eligible, ClaimsNoLater, EligibleTickets;
    if items != {} {
      CandidateExists(s, items);
      var t :| t in items && forall other :: other in items ==> ClaimsNoLater(s, t, other);
      assert IsCandidate(s, r, {}, t);
    }
  }

  // ----- Dominance ---------------------------------------------------------------------

  /** Three priority levels outweigh every bonus. */
  lemma {:induction false} UrgencyDominates(s: State, r: ClaimRequest, a: Id, b: Id)
    requires a in EligibleTickets(s, r) && b in EligibleTickets(s, r)
    requires s.tickets[a].priority + 3 <= s.tickets[b].priority && Spent(s, a) <= Spent(s, b)
    ensures Before(s, a, b)
    ensures exists i, j :: 0 <= i < j < |Recommended(s, r)| && Recommended(s, r)[i] == a && Recommended(s, r)[j] == b
  {
    var items := EligibleTickets(s, r);
    RankingRanks(s, items);
    assert Before(s, a, b);
    hide Bonus, Score, Ranking, Eligible, EligibleTickets, Spent;
    var list := Recommended(s, r);
    assert a in list && b in list;
    var i :| 0 <= i < |list| && list[i] == a;
    var j :| 0 <= j < |list| && list[j] == b;
    BeforeIsTotalOrder(s, a, b, b);
    assert i < j;
  }

  // Two levels do not: a run after which an urgent plain ticket ranks below one with every bonus.

  const PLAIN := CreateRequest(0, 0, "title", "text", "task", "todo", Some(0), {}, {}, {}, 1, 0, 0, 0, 0,
                               None, [], "human", "", false, false, NO_LINKS)
  const RICH := PLAIN.(kind := "bug", priority := Some(2), verification := 1, paths := 1,
                       createdBy := "agent", creationReason := "found on the way", canEnqueue := true)
  const PLAIN_ROW := Ticket(0, 0, "title", "text", "task", Todo, 0, {}, {}, {}, 1, 0, 0, DEFAULT_POLICY, Human, 0, NO_LINKS)
  const RICH_ROW := PLAIN_ROW.(kind := "bug", priority := 2, verification := 1, paths := 1, createdBy := Agent)
  const RANKED_RUN := [Create(1, PLAIN, false, 0), Create(2, RICH, false, 0), Create(3, PLAIN.(kind := "bug"), false, 0),
                       Move(3, RequestReview), Move(3, Approve)]

  lemma {:induction false} PlainRows()
    ensures CreationRow(PLAIN, false, 0) == Ok(PLAIN_ROW) && CreationRow(RICH, false, 0) == Ok(RICH_ROW)
    ensures CreationRow(PLAIN.(kind := "bug"), false, 0) == Ok(PLAIN_ROW.(kind := "bug"))
  {
    var none: set<string> := {};
    assert none - {""} == none;
  }

  lemma {:induction false} CreateAdds(s: State, id: Id, r: CreateRequest, row: Ticket)
    requires id !in s.tickets && CreationRow(r, false, 0) == Ok(row) && r.dependencies == [] && row.links == NO_LINKS
    ensures var s' := Apply(s, Create(id, r, false, 0));
            s'.tickets == s.tickets[id := row] && s'.attempts == s.attempts
  {
    hide CreationRow;
  }

  lemma {:induction false} MoveMoves(s: State, id: Id, op: Transition)
    requires id in s.tickets && (op == RequestReview || op == Approve) && s.tickets[id].status in op.Allowed()
    ensures var s' := Apply(s, Move(id, op));
            s'.tickets == s.tickets[id := s.tickets[id].(status := op.Target())] && s'.attempts == s.attempts
  {
  }

  lemma {:induction false} RankedRun()
    ensures var s := Run(EMPTY, RANKED_RUN);
            && s.tickets == map[1 := PLAIN_ROW, 2 := RICH_ROW, 3 := PLAIN_ROW.(kind := "bug", status := Done)]
            && s.attempts == map[]
  {
    PlainRows();
    hide Apply, CreationRow, Run;
    var run := RANKED_RUN;
    RunPrefix(run, 0);
    CreateAdds(EMPTY, 1, PLAIN, PLAIN_ROW);
    RunPrefix(run, 1);
    CreateAdds(Run(EMPTY, run[..1]), 2, RICH, RICH_ROW);
    RunPrefix(run, 2);
    CreateAdds(Run(EMPTY, run[..2]), 3, PLAIN.(kind := "bug"), PLAIN_ROW.(kind := "bug"));
    RunPrefix(run, 3);
    MoveMoves(Run(EMPTY, run[..3]), 3, RequestReview);
    RunPrefix(run, 4);
    MoveMoves(Run(EMPTY, run[..4]), 3, Approve);
    assert run[..5] == run;
  }

  lemma {:induction false} TwoLevelsAreNotEnough()
    ensures var s := Run(EMPTY, RANKED_RUN);
            && 1 in s.tickets && 2 in s.tickets && s.tickets[1].priority + 2 == s.tickets[2].priority
            && s.tickets[1].status == s.tickets[2].status == Todo
            && Spent(s, 1) <= Spent(s, 2) && Before(s, 2, 1)
  {
    RankedRun();
    var s := Run(EMPTY, RANKED_RUN);
    hide Run;
    assert 3 in RelatedDone(s, 2) && RelatedDone(s, 1) == {};
    assert SpentAttempts(s, 1) == {} && SpentAttempts(s, 2) == {};
  }
}
