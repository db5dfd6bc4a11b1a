/** The stored dependency graph: acyclic in every reachable state, so whatever blocks a ticket leads to
    one that is not done and is itself blocked by nothing. That one may be archived. */
module LedgerDependencies {
  import opened Basics
  import opened Graph
  import opened Ledger
  import opened LedgerRuns

  /** Both ends of every row exist, and no ticket waits for itself through others. */
  ghost predicate DependenciesSound(s: State) {
    && (forall x, y :: (x, y) in s.dependencies ==> x in s.tickets && y in s.tickets)
    && !Cyclic(s.dependencies)
  }

  /** Every node of a closed walk has an edge of the graph into it. */
  lemma {:induction false} ClosedWalkEnters<T(!new)>(edges: set<(T, T)>, p: seq<T>, i: nat)
    requires ClosedWalk(edges, p) && i < |p|
    ensures exists x :: (x, p[i]) in edges
  {
    var j := if i == 0 then |p| - 2 else i - 1;
    assert (p[j], p[j + 1]) in edges;
  }

  /** Edges out of a node that nothing points to close no cycle. */
  lemma {:induction false} FreshSourceStaysAcyclic<T(!new)>(edges: set<(T, T)>, node: T, more: set<(T, T)>)
    requires !Cyclic(edges)
    requires forall x, y :: (x, y) in more ==> x == node
    requires forall x :: (x, node) !in edges && (x, node) !in more
    ensures !Cyclic(edges + more)
  {
    forall p | ClosedWalk(edges + more, p) ensures false {
      forall i | 0 <= i < |p| - 1 ensures (p[i], p[i + 1]) in edges {
        ClosedWalkEnters(edges + more, p, i);
        assert (p[i], p[i + 1]) in edges + more;
      }
      assert ClosedWalk(edges, p);
    }
  }

  /** A walk over two graphs on disjoint sets of nodes stays in the graph it starts in. */
  lemma {:induction false} WalkStaysInside<T(!new)>(edges: set<(T, T)>, more: set<(T, T)>, nodes: set<T>, p: seq<T>, i: nat)
    requires Walk(edges + more, p) && i < |p|
    requires forall x, y :: (x, y) in edges ==> x in nodes && y in nodes
    requires forall x, y :: (x, y) in more ==> x !in nodes && y !in nodes
    ensures p[i] in nodes <==> p[0] in nodes
  {
    if i > 0 {
      WalkStaysInside(edges, more, nodes, p, i - 1);
      assert (p[i - 1], p[i - 1 + 1]) in edges + more;
    }
  }

  lemma {:induction false} DisjointUnionStaysAcyclic<T(!new)>(edges: set<(T, T)>, more: set<(T, T)>, nodes: set<T>)
    requires !Cyclic(edges) && !Cyclic(more)
    requires forall x, y :: (x, y) in edges ==> x in nodes && y in nodes
    requires forall x, y :: (x, y) in more ==> x !in nodes && y !in nodes
    ensures !Cyclic(edges + more)
  {
    forall p | ClosedWalk(edges + more, p) ensures false {
      var part := if p[0] in nodes then edges else more;
      forall i | 0 <= i < |p| - 1 ensures (p[i], p[i + 1]) in part {
        WalkStaysInside(edges, more, nodes, p, i);
        assert (p[i], p[i + 1]) in edges + more;
      }
      assert ClosedWalk(part, p);
    }
  }

  ghost function Named<S, T>(name: map<S, T>, v: T): (x: S)
    requires exists x :: x in name && name[x] == v
    ensures x in name && name[x] == v
  {
    var x :| x in name && name[x] == v;
    x
  }

  /** Renaming nodes one to one creates no cycle. */
  lemma {:induction false} RenamedStaysAcyclic<S(!new), T(!new)>(edges: set<(S, S)>, name: map<S, T>, renamed: set<(T, T)>)
    requires !Cyclic(edges)
    requires forall x, y :: x in name && y in name && name[x] == name[y] ==> x == y
    requires forall u, v :: (u, v) in renamed ==> exists x, y :: (x, y) in edges && x in name && y in name && name[x] == u && name[y] == v
    ensures !Cyclic(renamed)
  {
    forall p | ClosedWalk(renamed, p) ensures false {
      forall i | 0 <= i < |p| ensures exists x :: x in name && name[x] == p[i] {
        ClosedWalkEnters(renamed, p, i);
      }
      var q := seq(|p|, i requires 0 <= i < |p| => Named(name, p[i]));
      forall i | 0 <= i < |q| - 1 ensures (q[i], q[i + 1]) in edges {
        assert (p[i], p[i + 1]) in renamed;
      }
      assert ClosedWalk(edges, q);
    }
  }

  // ----- The two steps that add rows ---------------------------------------------------

  lemma {:induction false} CreateKeepsDependencies(s: State, id: Id, r: CreateRequest, proposed: bool, now: Time)
    requires DependenciesSound(s)
    ensures DependenciesSound(CreateTicket(s, id, r, proposed, now))
  {
    if CanCreate(s, id, r, proposed, now) {
      FreshSourceStaysAcyclic(s.dependencies, id, DependencyRows(id, r.dependencies));
    }
  }

  /** `childIDsByKey` maps each child's key to that child's row id. */
  lemma {:induction false} IdsByKeyLookup(ids: seq<Id>, children: seq<Child>)
    requires |ids| == |children|
    requires forall i, j :: 0 <= i < j < |children| ==> children[i].key != children[j].key
    ensures var m := IdsByKey(ids, children);
            && (forall i :: 0 <= i < |ids| ==> children[i].key in m && m[children[i].key] == ids[i])
            && (forall k :: k in m ==> exists i :: 0 <= i < |ids| && k == children[i].key)
  {
    if ids != [] {
      IdsByKeyLookup(ids[..|ids| - 1], children[..|ids| - 1]);
    }
  }

  /** ... and no two keys to the same row. */
  lemma {:induction false} IdsByKeyIsInjective(ids: seq<Id>, children: seq<Child>, k: string, k': string)
    requires |ids| == |children| && Distinct(ids) && ValidKeys(children)
    requires var m := IdsByKey(ids, children);
             k in m && k' in m && m[k] == m[k']
    ensures k == k'
  {
    IdsByKeyLookup(ids, children);
    hide IdsByKey, ValidKeys;
    var i :| 0 <= i < |ids| && k == children[i].key;
    var j :| 0 <= j < |ids| && k' == children[j].key;
    assert ids[i] == ids[j];
  }

  lemma {:induction false} KeyIndex(ids: seq<Id>, children: seq<Child>, k: string) returns (i: nat)
    requires |ids| == |children| && ValidKeys(children) && k in IdsByKey(ids, children)
    ensures i < |ids| && IdsByKey(ids, children)[k] == ids[i]
  {
    IdsByKeyLookup(ids, children);
    hide IdsByKey, ValidKeys;
    i :| 0 <= i < |ids| && k == children[i].key;
  }

  lemma {:induction false} IdsByKeyCovers(ids: seq<Id>, children: seq<Child>, c: Child)
    requires |ids| == |children| && ValidKeys(children) && c in children
    ensures var m := IdsByKey(ids, children);
            c.key in m && m[c.key] in ids && forall d :: d in c.dependsOn ==> d in m && m[d] in ids
  {
    IdsByKeyLookup(ids, children);
    hide IdsByKey;
  }

  lemma {:induction false} ChildRowsStayAcyclic(ids: seq<Id>, children: seq<Child>)
    requires |ids| == |children| && Distinct(ids) && ValidKeys(children) && !Cyclic(ChildEdges(children))
    ensures !Cyclic(ChildDependencyRows(IdsByKey(ids, children), children))
    ensures forall x, y :: (x, y) in ChildDependencyRows(IdsByKey(ids, children), children) ==> x in ids && y in ids
  {
    var m := IdsByKey(ids, children);
    hide IdsByKey, ValidKeys, Distinct, Cyclic;
    forall k, k' | k in m && k' in m && m[k] == m[k'] ensures k == k' { IdsByKeyIsInjective(ids, children, k, k'); }
    RenamedStaysAcyclic(ChildEdges(children), m, ChildDependencyRows(m, children));
    forall c | c in children ensures c.key in m && m[c.key] in ids && forall d :: d in c.dependsOn ==> d in m && m[d] in ids {
      IdsByKeyCovers(ids, children, c);
    }
  }

  lemma {:induction false} DecomposeKeepsDependencies(s: State, ids: seq<Id>, children: seq<Child>, batch: Batch, now: Time)
    requires DependenciesSound(s)
    ensures DependenciesSound(DecomposeTicket(s, ids, children, batch, now))
  {
    if CanDecompose(s, ids, children, batch, now) {
      InsertChildrenFrame(s, ids, children, batch, now);
      ChildRowsStayAcyclic(ids, children);
      var rows := ChildDependencyRows(IdsByKey(ids, children), children);
      DisjointUnionStaysAcyclic(s.dependencies, rows, s.tickets.Keys);
    }
  }

  lemma {:induction false} StepKeepsDependencies(s: State, step: Step)
    requires DependenciesSound(s)
    ensures DependenciesSound(Apply(s, step))
  {
    hide Cyclic;
    if step.Create? {
      CreateKeepsDependencies(s, step.id, step.create, step.proposed, step.now);
    } else if step.Decompose? {
      DecomposeKeepsDependencies(s, step.ids, step.children, step.batch, step.now);
    } else {
      assert Apply(s, step).dependencies == s.dependencies;
    }
  }

  lemma {:induction false} RunKeepsDependencies(s: State, steps: seq<Step>)
    requires DependenciesSound(s)
    ensures DependenciesSound(Run(s, steps))
  {
    hide Apply, DependenciesSound;
    if steps != [] {
      RunKeepsDependencies(s, steps[..|steps| - 1]);
      StepKeepsDependencies(Run(s, steps[..|steps| - 1]), steps[|steps| - 1]);
    }
  }

  /** The stored dependency graph has no cycle in any reachable state. */
  lemma {:induction false} DependenciesNeverCycle(steps: seq<Step>)
    ensures DependenciesSound(Run(EMPTY, steps))
  {
    hide Apply;
    assert Ranked(EMPTY.dependencies, map[]);
    RankedIsAcyclic(EMPTY.dependencies, map[]);
    RunKeepsDependencies(EMPTY, steps);
  }

  // ----- Waiting ends ------------------------------------------------------------------

  ghost predicate Unmet(s: State, t: Id, d: Id) {
    (t, d) in s.dependencies && d in s.tickets && s.tickets[d].status != Done
  }

  /** Each ticket of the chain waits for the next one. */
  ghost predicate WaitingChain(s: State, p: seq<Id>) {
    && p != [] && p[0] in s.tickets
    && forall i :: 0 <= i < |p| - 1 ==> Unmet(s, p[i], p[i + 1])
  }

  /** A chain that meets a ticket twice goes round a cycle. */
  lemma {:induction false} RepeatClosesCycle(s: State, p: seq<Id>, i: nat, j: nat)
    requires WaitingChain(s, p) && i < j < |p| && p[i] == p[j]
    ensures Cyclic(s.dependencies)
  {
    var q := p[i..j + 1];
    forall k | 0 <= k < |q| - 1 ensures (q[k], q[k + 1]) in s.dependencies {
      assert Unmet(s, p[i + k], p[i + k + 1]);
    }
    assert ClosedWalk(s.dependencies, q);
  }

  lemma {:induction false} AcyclicWalkIsShort(s: State, p: seq<Id>)
    requires DependenciesSound(s) && WaitingChain(s, p)
    ensures |p| <= |s.tickets|
  {
    hide Cyclic;
    forall i, j | 0 <= i < j < |p| ensures p[i] != p[j] {
      if p[i] == p[j] { RepeatClosesCycle(s, p, i, j); }
    }
    DistinctLength(p);
    var seen := set x | x in p;
    forall x | x in seen ensures x in s.tickets {
      var i :| 0 <= i < |p| && p[i] == x;
      if i > 0 { assert Unmet(s, p[i - 1], p[i - 1 + 1]); }
    }
    SubsetSize(seen, s.tickets.Keys);
  }

  ghost predicate WaitsForNothing(s: State, t: Id) {
    forall d :: !Unmet(s, t, d)
  }

  /** The claim query's dependency clause, in these terms. */
  lemma {:induction false} DoneIsWaitingForNothing(s: State, t: Id)
    ensures DependenciesDone(s, t) <==> WaitsForNothing(s, t)
  {
    if DependenciesDone(s, t) {
      forall d ensures !Unmet(s, t, d) {}
    } else {
      var d :| d in s.tickets && !((t, d) in s.dependencies ==> s.tickets[d].status == Done);
      assert Unmet(s, t, d);
    }
  }

  /** Following unmet dependencies, whichever is taken each time, stops within as many steps as
      there are tickets: every chain extends to one whose last ticket waits for nothing. */
  lemma {:induction false} ChainReachesEnd(s: State, p: seq<Id>) returns (q: seq<Id>)
    requires DependenciesSound(s) && WaitingChain(s, p)
    ensures p <= q && WaitingChain(s, q) && |q| <= |s.tickets|
    ensures WaitsForNothing(s, q[|q| - 1])
    decreases |s.tickets| - |p|
  {
    hide Cyclic;
    AcyclicWalkIsShort(s, p);
    var last := p[|p| - 1];
    if WaitsForNothing(s, last) {
      q := p;
    } else {
      var d :| Unmet(s, last, d);
      AcyclicWalkIsShort(s, p + [d]);
      q := ChainReachesEnd(s, p + [d]);
    }
  }

  /** `q` leads from `t`, by unmet dependencies, to a ticket that is not done and waits for nothing. */
  ghost predicate LeadsToRoot(s: State, t: Id, q: seq<Id>) {
    && WaitingChain(s, q) && q[0] == t && |q| <= |s.tickets|
    && var root := q[|q| - 1];
    && root in s.tickets && s.tickets[root].status != Done && DependenciesDone(s, root)
  }

  /** In every reachable state, whatever blocks a ticket leads to a ticket that is not done and
      whose own dependencies are all done. */
  lemma {:induction false} BlockedWorkHasARoot(steps: seq<Step>, t: Id)
    requires t in Run(EMPTY, steps).tickets && !DependenciesDone(Run(EMPTY, steps), t)
    ensures exists q :: LeadsToRoot(Run(EMPTY, steps), t, q)
  {
    DependenciesNeverCycle(steps);
    var s := Run(EMPTY, steps);
    hide Run, Cyclic, DependenciesDone;
    var q := ChainReachesEnd(s, [t]);
    DoneIsWaitingForNothing(s, t);
    DoneIsWaitingForNothing(s, q[|q| - 1]);
    if |q| > 1 {
      assert Unmet(s, q[|q| - 2], q[|q| - 2 + 1]);
    }
    assert LeadsToRoot(s, t, q);
  }
}
