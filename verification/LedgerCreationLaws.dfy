/** What creation and decomposition accept, and the rows they write, column by column. */
module LedgerCreationLaws {
  import opened Basics
  import opened Ledger
  import opened LedgerLaws
  import opened LedgerRuns
  import opened LedgerDependencies
  import Graph

  // ----- One ticket --------------------------------------------------------------------

  function Creator(r: CreateRequest): string {
    if r.createdBy == "" then "human" else r.createdBy
  }

  /** An agent that asks for a ticket to be worked on at once. */
  predicate AsksForWork(r: CreateRequest, proposed: bool) {
    Creator(r) == "agent" && !proposed && (r.enqueue || r.status == "todo")
  }

  predicate HasContext(r: CreateRequest) {
    r.description != "" || r.paths > 0 || r.verification > 0 || r.artifacts > 0 || r.input > 0
  }

  predicate Acceptable(r: CreateRequest, proposed: bool) {
    && r.title != "" && KnownKind(r.kind) && (proposed || r.status in {"", "backlog", "todo"})
    && (r.priority.Some? ==> 0 <= r.priority.value <= 4)
    && Creator(r) in {"human", "agent", "system"} && (Creator(r) == "agent" ==> r.creationReason != "")
    && r.acceptance > 0 && HasContext(r)
  }

  /** Which requests are refused, and with which error. */
  lemma {:induction false} CreationRefuses(r: CreateRequest, proposed: bool, now: Time)
    ensures CreationRow(r, proposed, now) == Err(EnqueuePermissionRequired) <==> AsksForWork(r, proposed) && !r.canEnqueue
    ensures CreationRow(r, proposed, now) == Err(ValidationFailed) <==>
            !(AsksForWork(r, proposed) && !r.canEnqueue) && !Acceptable(r, proposed)
  {
  }

  function StartsAt(r: CreateRequest, proposed: bool): TicketStatus {
    if proposed || r.status == "backlog" then Backlog
    else if r.status == "todo" then Todo
    else if Creator(r) == "agent" && !r.enqueue then Backlog else Todo
  }

  function CreatorColumn(text: string): Actor {
    if text == "human" then Human else if text == "agent" then Agent else System
  }

  /** The columns of an accepted ticket, and their defaults. */
  lemma {:induction false} CreationColumns(r: CreateRequest, proposed: bool, now: Time)
    requires CreationRow(r, proposed, now).Ok?
    ensures CreationRow(r, proposed, now).value ==
            Ticket(r.workspace, r.project, r.title, r.description, r.kind, StartsAt(r, proposed),
                   match r.priority { case Some(n) => n case None => 2 },
                   r.tags - {""}, r.harnesses - {""}, r.capabilities - {""}, r.acceptance, r.verification, r.paths,
                   match r.policy { case Some(p) => p case None => RetryPolicy(Some(3), Some("return_to_todo"), Some(false)) },
                   CreatorColumn(Creator(r)), now, r.links)
  {
  }

  /** A stored ticket of the same workspace and project. */
  predicate Sibling(s: State, t: Ticket, id: Id) {
    id in s.tickets && s.tickets[id].workspace == t.workspace && s.tickets[id].project == t.project
  }

  ghost predicate References(s: State, t: Ticket, dependencies: seq<Id>) {
    && (forall p :: t.links.parent == Some(p) ==> Sibling(s, t, p))
    && (forall p :: t.links.root == Some(p) ==> Sibling(s, t, p))
    && (forall a :: t.links.sourceAttempt == Some(a) ==> a in s.attempts && Sibling(s, t, s.attempts[a].ticket))
    && (forall i :: 0 <= i < |dependencies| ==> Sibling(s, t, dependencies[i]))
    && (forall i, j :: 0 <= i < j < |dependencies| ==> dependencies[i] != dependencies[j])
  }

  /** A ticket is created, with one row per dependency and one event, exactly when the request is
      accepted, the id is new and everything it refers to is stored in its scope; else nothing is. */
  lemma {:induction false} CreateWrites(s: State, id: Id, r: CreateRequest, proposed: bool, now: Time)
    ensures var s', row := Apply(s, Create(id, r, proposed, now)), CreationRow(r, proposed, now);
            if row.Err? || id in s.tickets || !References(s, row.value, r.dependencies) then s' == s
            else
              && s' == s.(tickets := s.tickets[id := row.value], dependencies := s'.dependencies,
                          events := s.events + [Event(id, None, if proposed then Proposed else Created, Some(row.value.status))])
              && forall x: Id, y: Id :: (x, y) in s'.dependencies <==> (x, y) in s.dependencies || (x == id && y in r.dependencies)
  {
    hide CreationRow;
    if CreationRow(r, proposed, now).Ok? {
      ReferencesExactly(s, CreationRow(r, proposed, now).value, r.dependencies);
    }
    hide References, LinksStorable, DependenciesStorable;
  }

  lemma {:induction false} ReferencesExactly(s: State, t: Ticket, dependencies: seq<Id>)
    ensures LinksStorable(s, t) && DependenciesStorable(s, t, dependencies) <==> References(s, t, dependencies)
  {
    forall d ensures InScope(s, t.workspace, t.project, d) <==> Sibling(s, t, d) { }
    hide InScope, Sibling;
    if References(s, t, dependencies) {
      forall d | d in dependencies ensures Sibling(s, t, d) { }
    } else if LinksStorable(s, t) && DependenciesStorable(s, t, dependencies) {
      forall i | 0 <= i < |dependencies| ensures Sibling(s, t, dependencies[i]) { assert dependencies[i] in dependencies; }
    }
  }

  // ----- Children ----------------------------------------------------------------------

  /** Who a decomposition creates its children as. */
  function BatchCreator(batch: Batch): string {
    if batch.createdBy == "" then "agent" else batch.createdBy
  }

  /** The columns of a child: its own part of the request, what the batch says, and the defaults. A batch
      without a root has its parent for root. */
  lemma {:induction false} ChildColumns(c: Child, batch: Batch, now: Time)
    requires ChildRow(c, batch, now).Ok?
    ensures var r := c.request;
            ChildRow(c, batch, now).value ==
            Ticket(batch.workspace, batch.project, r.title, r.description, r.kind, if batch.create then Todo else Backlog,
                   match r.priority { case Some(n) => n case None => 2 },
                   r.tags - {""}, r.harnesses - {""}, r.capabilities - {""}, r.acceptance, r.verification, r.paths,
                   RetryPolicy(Some(3), Some("return_to_todo"), Some(false)), CreatorColumn(BatchCreator(batch)), now,
                   Links(Some(batch.parent), match batch.root { case Some(x) => Some(x) case None => Some(batch.parent) }, None))
  {
  }

  /** A child's row is refused for want of authority in create mode, or for what is wrong with it. */
  lemma {:induction false} ChildAccepted(c: Child, batch: Batch, now: Time)
    ensures var r := c.request;
            ChildRow(c, batch, now).Ok? <==>
              && !(BatchCreator(batch) == "agent" && batch.create && !batch.canEnqueue)
              && r.title != "" && KnownKind(r.kind) && (r.priority.Some? ==> 0 <= r.priority.value <= 4)
              && BatchCreator(batch) in {"human", "agent", "system"} && (BatchCreator(batch) == "agent" ==> batch.creationReason != "")
              && r.acceptance > 0 && HasContext(r)
  {
  }

  /** Keys are given, differ, and every dependency names another child. */
  ghost predicate KeysFit(children: seq<Child>) {
    && (forall i :: 0 <= i < |children| ==> children[i].key != "")
    && (forall i, j :: 0 <= i < j < |children| ==> children[i].key != children[j].key)
    && (forall i, k :: 0 <= i < |children| && 0 <= k < |children[i].dependsOn| ==>
          exists j :: 0 <= j < |children| && j != i && children[j].key == children[i].dependsOn[k])
  }

  lemma {:induction false} KeysExactly(children: seq<Child>)
    ensures ValidKeys(children) <==> KeysFit(children)
  {
    if ValidKeys(children) {
      forall i | 0 <= i < |children| ensures children[i].key != "" { assert children[i] in children; }
      forall i, k | 0 <= i < |children| && 0 <= k < |children[i].dependsOn|
        ensures exists j :: 0 <= j < |children| && j != i && children[j].key == children[i].dependsOn[k]
      {
        var c := children[i];
        assert c in children && c.dependsOn[k] in c.dependsOn;
        assert c.dependsOn[k] in ChildKeys(children);
        var d :| d in children && d.key == c.dependsOn[k];
        var j :| 0 <= j < |children| && children[j] == d;
      }
    }
    if KeysFit(children) {
      forall c, d | c in children && d in c.dependsOn ensures d in ChildKeys(children) && d != c.key {
        var i :| 0 <= i < |children| && children[i] == c;
        var k :| 0 <= k < |children[i].dependsOn| && children[i].dependsOn[k] == d;
        var j :| 0 <= j < |children| && j != i && children[j].key == children[i].dependsOn[k];
        assert children[j] in children;
      }
    }
  }

  /** What a decomposition requires of the store and of each child. */
  ghost predicate ChildrenFit(s: State, ids: seq<Id>, children: seq<Child>, batch: Batch, now: Time) {
    && |ids| == |children|
    && (forall i :: 0 <= i < |ids| ==> ids[i] !in s.tickets)
    && (forall i, j :: 0 <= i < j < |ids| ==> ids[i] != ids[j])
    && (forall i :: 0 <= i < |children| ==> ChildRow(children[i], batch, now).Ok?)
    && (forall i, k, l :: 0 <= i < |children| && 0 <= k < l < |children[i].dependsOn| ==> children[i].dependsOn[k] != children[i].dependsOn[l])
    && batch.parent in s.tickets && s.tickets[batch.parent].workspace == batch.workspace && s.tickets[batch.parent].project == batch.project
    && (forall t :: batch.root == Some(t) ==>
          t in s.tickets && s.tickets[t].workspace == batch.workspace && s.tickets[t].project == batch.project)
  }

  lemma {:induction false} AcceptedChildIsValid(c: Child, batch: Batch, now: Time)
    ensures ChildRow(c, batch, now).Ok? ==> ValidCreate(ChildRequest(c, batch))
  {
  }

  /** When a decomposition takes effect. */
  lemma {:induction false} DecomposesExactly(s: State, ids: seq<Id>, children: seq<Child>, batch: Batch, now: Time)
    ensures CanDecompose(s, ids, children, batch, now) <==>
            children != [] && KeysFit(children) && !Graph.Cyclic(ChildEdges(children)) && ChildrenFit(s, ids, children, batch, now)
  {
    KeysExactly(children);
    forall c ensures ChildRow(c, batch, now).Ok? ==> ValidCreate(ChildRequest(c, batch)) { AcceptedChildIsValid(c, batch, now); }
    hide ChildRow, ValidCreate, ChildRequest, KeysFit, ValidKeys, Graph.Cyclic, ChildEdges;
    if ChildrenFit(s, ids, children, batch, now) {
      assert BatchInScope(s, batch);
      forall c | c in children ensures ValidCreate(ChildRequest(c, batch)) {
        var i :| 0 <= i < |children| && children[i] == c;
      }
    }
  }

  /** Every child under its id; the other tickets as before. */
  ghost predicate ChildrenStored(s: State, s': State, ids: seq<Id>, children: seq<Child>, batch: Batch, now: Time) {
    && |ids| == |children|
    && (forall i :: 0 <= i < |ids| ==> ids[i] in s'.tickets && Ok(s'.tickets[ids[i]]) == ChildRow(children[i], batch, now))
    && (forall x :: x !in ids ==> (x in s'.tickets <==> x in s.tickets) && (x in s.tickets ==> s'.tickets[x] == s.tickets[x]))
  }

  /** One event for each child, in order. */
  ghost predicate ChildrenLogged(s: State, s': State, ids: seq<Id>, batch: Batch) {
    && |s'.events| == |s.events| + |ids| && s.events <= s'.events
    && forall i :: 0 <= i < |ids| ==>
         s'.events[|s.events| + i] ==
         Event(ids[i], None, if batch.create then Created else Proposed, Some(if batch.create then Todo else Backlog))
  }

  lemma {:induction false} StoreOne(s: State, m: State, s': State, ids: seq<Id>, children: seq<Child>, batch: Batch, now: Time)
    requires |ids| == |children| > 0 && Distinct(ids) && ChildRow(children[|ids| - 1], batch, now).Ok?
    requires ChildrenStored(s, m, ids[..|ids| - 1], children[..|ids| - 1], batch, now)
    requires s'.tickets == m.tickets[ids[|ids| - 1] := ChildRow(children[|ids| - 1], batch, now).value]
    ensures ChildrenStored(s, s', ids, children, batch, now)
  {
    hide ChildRow;
    var n := |ids| - 1;
    forall x | x !in ids ensures x !in ids[..n] && x != ids[n] { }
    forall i | 0 <= i < n ensures ids[i] == ids[..n][i] && children[i] == children[..n][i] && ids[i] != ids[n] { }
    hide Distinct;
  }

  lemma {:induction false} InsertStores(s: State, ids: seq<Id>, children: seq<Child>, batch: Batch, now: Time)
    requires |ids| == |children| && Distinct(ids) && forall i :: 0 <= i < |children| ==> ChildRow(children[i], batch, now).Ok?
    ensures ChildrenStored(s, InsertChildren(s, ids, children, batch, now), ids, children, batch, now)
  {
    hide ChildRow;
    if ids != [] {
      var n := |ids| - 1;
      InsertStores(s, ids[..n], children[..n], batch, now);
      hide ChildrenStored;
      StoreOne(s, InsertChildren(s, ids[..n], children[..n], batch, now), InsertChildren(s, ids, children, batch, now),
               ids, children, batch, now);
    }
  }

  lemma {:induction false} InsertLogs(s: State, ids: seq<Id>, children: seq<Child>, batch: Batch, now: Time)
    requires |ids| == |children| && forall i :: 0 <= i < |children| ==> ChildRow(children[i], batch, now).Ok?
    ensures ChildrenLogged(s, InsertChildren(s, ids, children, batch, now), ids, batch)
  {
    hide ChildRow;
    if ids != [] {
      InsertLogs(s, ids[..|ids| - 1], children[..|ids| - 1], batch, now);
    }
  }

  /** `x` and `y` are children of which the first depends on the second. */
  ghost predicate Linked(ids: seq<Id>, children: seq<Child>, x: Id, y: Id)
    requires |ids| == |children|
  {
    exists i, j :: 0 <= i < |ids| && 0 <= j < |ids| && ids[i] == x && ids[j] == y && children[j].key in children[i].dependsOn
  }

  lemma {:induction false} LinksExactly(ids: seq<Id>, children: seq<Child>, x: Id, y: Id)
    requires |ids| == |children| && ValidKeys(children)
    ensures (x, y) in ChildDependencyRows(IdsByKey(ids, children), children) <==> Linked(ids, children, x, y)
  {
    var idOf := IdsByKey(ids, children);
    IdsByKeyLookup(ids, children);
    hide IdsByKey, ValidKeys;
    if (x, y) in ChildDependencyRows(idOf, children) {
      var c, d :| c in children && d in c.dependsOn && c.key in idOf && d in idOf && (x, y) == (idOf[c.key], idOf[d]);
      var i :| 0 <= i < |children| && children[i] == c;
      var j :| 0 <= j < |ids| && d == children[j].key;
    }
    if Linked(ids, children, x, y) {
      var i, j :| 0 <= i < |ids| && 0 <= j < |ids| && ids[i] == x && ids[j] == y && children[j].key in children[i].dependsOn;
      assert children[i] in children;
    }
  }

  /** One dependency row for each dependency between children; the others as before. */
  ghost predicate ChildrenLinked(s: State, s': State, ids: seq<Id>, children: seq<Child>) {
    && |ids| == |children|
    && forall x: Id, y: Id :: (x, y) in s'.dependencies <==> (x, y) in s.dependencies || Linked(ids, children, x, y)
  }

  lemma {:induction false} InsertLinks(s: State, s': State, ids: seq<Id>, children: seq<Child>)
    requires |ids| == |children| && ValidKeys(children)
    requires s'.dependencies == s.dependencies + ChildDependencyRows(IdsByKey(ids, children), children)
    ensures ChildrenLinked(s, s', ids, children)
  {
    hide Linked, ValidKeys;
    forall x: Id, y: Id ensures (x, y) in ChildDependencyRows(IdsByKey(ids, children), children) <==> Linked(ids, children, x, y) {
      LinksExactly(ids, children, x, y);
    }
    hide ChildDependencyRows, IdsByKey;
  }

  /** What a decomposition writes, all of it or nothing. */
  lemma {:induction false} DecomposeWrites(s: State, ids: seq<Id>, children: seq<Child>, batch: Batch, now: Time)
    ensures var s' := Apply(s, Decompose(ids, children, batch, now));
            if !CanDecompose(s, ids, children, batch, now) then s' == s
            else
              && ChildrenStored(s, s', ids, children, batch, now) && ChildrenLogged(s, s', ids, batch) && ChildrenLinked(s, s', ids, children)
              && s' == s.(tickets := s'.tickets, events := s'.events, dependencies := s'.dependencies)
  {
    hide ChildRow, ValidCreate, Linked, Graph.Cyclic, ChildDependencyRows, IdsByKey, InsertChildren, ValidKeys;
    if CanDecompose(s, ids, children, batch, now) {
      InsertStores(s, ids, children, batch, now);
      InsertLogs(s, ids, children, batch, now);
      InsertChildrenFrame(s, ids, children, batch, now);
      InsertLinks(s, Apply(s, Decompose(ids, children, batch, now)), ids, children);
      hide CanDecompose;
    }
  }
}
