/** The service operations made of several statements: transactions that commit or roll back. */
module Services {
  import opened Basics
  import opened Ledger
  import opened LedgerRuns
  import opened LedgerDependencies
  import opened Database
  import CycleCheck
  import Graph

  // ----- Creating a ticket -------------------------------------------------------------

  /** The row, one dependency row after another, and the event; any violated constraint rolls the
      transaction back. */
  method CreateTicket(db: Store, id: Id, r: CreateRequest, proposed: bool, now: Time) returns (ok: bool)
    requires DependenciesSound(db.View())
    modifies db
    ensures db.View() == Ledger.CreateTicket(old(db.View()), id, r, proposed, now)
    ensures ok <==> CanCreate(old(db.View()), id, r, proposed, now)
  {
    hide Graph.Cyclic, CreationRow;
    var saved := db.View();
    var normalized := CreationRow(r, proposed, now);
    if normalized.Err? {
      return false;
    }
    var row := normalized.value;
    ok := db.InsertTicket(id, row);
    if !ok {
      return;
    }
    for i := 0 to |r.dependencies|
      invariant db.View() == saved.(tickets := saved.tickets[id := row],
                                    dependencies := saved.dependencies + DependencyRows(id, r.dependencies[..i]))
      invariant DependenciesStorable(saved, row, r.dependencies[..i])
    {
      var d := r.dependencies[i];
      var before := r.dependencies[..i];
      assert r.dependencies[..i + 1] == before + [d];
      assert (id, d) in db.dependencies <==> d in before;
      ok := db.InsertDependency(id, d);
      if !ok {
        assert d in r.dependencies && (d in before || !InScope(saved, row.workspace, row.project, d));
        assert !DependenciesStorable(saved, row, r.dependencies);
        db.Rollback(saved);
        return;
      }
    }
    assert r.dependencies[..|r.dependencies|] == r.dependencies;
    db.InsertEvent(Event(id, None, CreationKind(proposed), Some(row.status)));
    ok := true;
  }

  // ----- Decomposing a ticket ----------------------------------------------------------

  /** `validateDecomposeTicketRequest` */
  method ValidateDecomposition(children: seq<Child>, batch: Batch) returns (ok: bool)
    ensures ok <==> ValidDecomposition(children, batch)
  {
    hide ValidCreate, Graph.Cyclic;
    if children == [] || !ValidKeys(children) {
      return false;
    }
    var cyclic, _ := CycleCheck.HasDependencyCycle(children);
    CycleCheck.MapHasAllEdges(children);
    ok := !cyclic && forall c :: c in children ==> ValidCreate(ChildRequest(c, batch));
  }

  /** The `i`-th child's row can be inserted after those before it. */
  predicate InsertSucceeds(s: State, ids: seq<Id>, children: seq<Child>, batch: Batch, now: Time, i: nat)
    requires i < |ids| == |children|
  {
    ids[i] !in s.tickets && ids[i] !in ids[..i] && BatchInScope(s, batch) && ChildRow(children[i], batch, now).Ok?
  }

  /** One turn of the first loop. */
  method InsertChildRow(db: Store, id: Id, row: Ticket, kind: EventKind) returns (ok: bool)
    modifies db
    ensures ok <==> id !in old(db.tickets) && LinksStorable(old(db.View()), row)
    ensures db.View() == if ok then InsertTicket(old(db.View()), id, row, kind) else old(db.View())
  {
    ok := db.InsertTicket(id, row);
    if ok {
      db.InsertEvent(Event(id, None, kind, Some(row.status)));
    }
  }

  lemma {:induction false} InsertChildrenStep(s: State, ids: seq<Id>, children: seq<Child>, batch: Batch, now: Time, i: nat)
    requires i < |ids| == |children|
    requires forall j :: 0 <= j <= i ==> ChildRow(children[j], batch, now).Ok?
    ensures InsertChildren(s, ids[..i + 1], children[..i + 1], batch, now) ==
            InsertTicket(InsertChildren(s, ids[..i], children[..i], batch, now), ids[i],
                         ChildRow(children[i], batch, now).value, CreationKind(!batch.create))
    ensures IdsByKey(ids[..i + 1], children[..i + 1]) == IdsByKey(ids[..i], children[..i])[children[i].key := ids[i]]
    ensures InsertChildren(s, ids[..i], children[..i], batch, now).tickets.Keys == s.tickets.Keys + (set x | x in ids[..i])
  {
    hide ChildRow, InsertTicket;
    assert ids[..i + 1][..i] == ids[..i] && children[..i + 1][..i] == children[..i];
    InsertChildrenFrame(s, ids[..i], children[..i], batch, now);
  }

  /** The first loop: children and their events, with their ids by key. False on the first insert
      that fails. */
  method InsertChildRows(db: Store, ids: seq<Id>, children: seq<Child>, batch: Batch, now: Time)
    returns (ok: bool, idOf: map<string, Id>)
    requires |ids| == |children|
    modifies db
    ensures ok <==> forall i :: 0 <= i < |ids| ==> InsertSucceeds(old(db.View()), ids, children, batch, now, i)
    ensures ok ==>
              && (forall i :: 0 <= i < |children| ==> ChildRow(children[i], batch, now).Ok?)
              && db.View() == InsertChildren(old(db.View()), ids, children, batch, now) && idOf == IdsByKey(ids, children)
  {
    hide ChildRow, InsertTicket, InsertChildren, IdsByKey;
    ghost var saved := db.View();
    idOf := map[];
    InsertNoChildren(saved, ids, children, batch, now);
    for i := 0 to |children|
      invariant forall j :: 0 <= j < i ==> InsertSucceeds(saved, ids, children, batch, now, j)
      invariant forall j :: 0 <= j < i ==> ChildRow(children[j], batch, now).Ok?
      invariant db.View() == InsertChildren(saved, ids[..i], children[..i], batch, now)
      invariant idOf == IdsByKey(ids[..i], children[..i])
    {
      var row := ChildRow(children[i], batch, now);
      if row.Err? {
        assert !InsertSucceeds(saved, ids, children, batch, now, i);
        return false, idOf;
      }
      InsertChildrenStep(saved, ids, children, batch, now, i);
      ParentStaysInScope(saved, ids, children, batch, now, i);
      ok := InsertChildRow(db, ids[i], row.value, CreationKind(!batch.create));
      if !ok {
        assert !InsertSucceeds(saved, ids, children, batch, now, i);
        return;
      }
      idOf := idOf[children[i].key := ids[i]];
    }
    assert ids[..|ids|] == ids && children[..|ids|] == children;
    ok := true;
  }

  lemma {:induction false} InsertedKeepsRow(s: State, ids: seq<Id>, children: seq<Child>, batch: Batch, now: Time, x: Id)
    requires |ids| == |children| && x !in ids && forall j :: 0 <= j < |children| ==> ChildRow(children[j], batch, now).Ok?
    ensures var s' := InsertChildren(s, ids, children, batch, now);
            (x in s'.tickets <==> x in s.tickets) && (x in s.tickets ==> s'.tickets[x] == s.tickets[x])
  {
    hide ChildRow;
    if ids != [] { InsertedKeepsRow(s, ids[..|ids| - 1], children[..|ids| - 1], batch, now, x); }
  }

  /** Parent and root are stored for a later child exactly when they were for the first. */
  lemma {:induction false} ParentStaysInScope(s: State, ids: seq<Id>, children: seq<Child>, batch: Batch, now: Time, i: nat)
    requires i < |ids| == |children| && forall j :: 0 <= j <= i ==> ChildRow(children[j], batch, now).Ok?
    requires forall j :: 0 <= j < i ==> InsertSucceeds(s, ids, children, batch, now, j)
    ensures var m := InsertChildren(s, ids[..i], children[..i], batch, now);
            LinksStorable(m, ChildRow(children[i], batch, now).value) <==> BatchInScope(s, batch)
  {
    hide ChildRow;
    if i == 0 {
      InsertNoChildren(s, ids, children, batch, now);
    } else {
      assert InsertSucceeds(s, ids, children, batch, now, 0);
      forall j | 0 <= j < i ensures ids[j] !in s.tickets { assert InsertSucceeds(s, ids, children, batch, now, j); }
      InsertedKeepsRow(s, ids[..i], children[..i], batch, now, batch.parent);
      InsertedKeepsRow(s, ids[..i], children[..i], batch, now, batch.root.GetOr(batch.parent));
    }
    hide InsertChildren;
  }

  lemma {:induction false} InsertNoChildren(s: State, ids: seq<Id>, children: seq<Child>, batch: Batch, now: Time)
    requires |ids| == |children|
    ensures InsertChildren(s, ids[..0], children[..0], batch, now) == s && IdsByKey(ids[..0], children[..0]) == map[]
  {
  }

  /** The rows one child's dependencies add. */
  function ChildRows(idOf: map<string, Id>, key: string, dependsOn: seq<string>): set<(Id, Id)>
    requires key in idOf && forall d :: d in dependsOn ==> d in idOf
  {
    set d | d in dependsOn :: (idOf[key], idOf[d])
  }

  /** Every key has its own stored ticket, all in one scope. */
  ghost predicate KeysStored(s: State, idOf: map<string, Id>) {
    && (forall k :: k in idOf ==> idOf[k] in s.tickets)
    && (forall k, k' :: k in idOf && k' in idOf && idOf[k] == idOf[k'] ==> k == k')
    && (forall k, k' :: k in idOf && k' in idOf ==>
          && s.tickets[idOf[k]].workspace == s.tickets[idOf[k']].workspace
          && s.tickets[idOf[k]].project == s.tickets[idOf[k']].project)
  }

  /** The inner loop: a repeated dependency violates the primary key. */
  method InsertChildDependencies(db: Store, idOf: map<string, Id>, key: string, dependsOn: seq<string>) returns (ok: bool)
    requires KeysStored(db.View(), idOf)
    requires key in idOf && key !in dependsOn && forall d :: d in dependsOn ==> d in idOf
    requires forall y :: (idOf[key], y) !in db.dependencies
    modifies db`dependencies
    ensures ok <==> Distinct(dependsOn)
    ensures ok ==> db.View() == old(db.View()).(dependencies := old(db.dependencies) + ChildRows(idOf, key, dependsOn))
  {
    ghost var before := db.dependencies;
    for i := 0 to |dependsOn|
      invariant db.dependencies == before + ChildRows(idOf, key, dependsOn[..i])
      invariant Distinct(dependsOn[..i])
    {
      var d := dependsOn[i];
      assert dependsOn[..i + 1] == dependsOn[..i] + [d];
      assert (idOf[key], idOf[d]) in db.dependencies <==> d in dependsOn[..i];
      ok := db.InsertDependency(idOf[key], idOf[d]);
      if !ok {
        return;
      }
    }
    assert dependsOn[..|dependsOn|] == dependsOn;
    ok := true;
  }

  /** Each child is stored under its id, in the scope of the request. */
  lemma {:induction false} ChildIsStored(s: State, ids: seq<Id>, children: seq<Child>, batch: Batch, now: Time, i: nat)
    requires i < |ids| == |children| && Distinct(ids)
    requires forall j :: 0 <= j < |children| ==> ChildRow(children[j], batch, now).Ok?
    ensures var s' := InsertChildren(s, ids, children, batch, now);
            ids[i] in s'.tickets && s'.tickets[ids[i]].workspace == batch.workspace && s'.tickets[ids[i]].project == batch.project
  {
    hide ChildRow;
    var n := |ids| - 1;
    if i < n {
      ChildIsStored(s, ids[..n], children[..n], batch, now, i);
    }
  }

  lemma {:induction false} ChildrenAreStored(s: State, ids: seq<Id>, children: seq<Child>, batch: Batch, now: Time)
    requires |ids| == |children| && Distinct(ids) && ValidKeys(children)
    requires forall i :: 0 <= i < |children| ==> ChildRow(children[i], batch, now).Ok?
    ensures KeysStored(InsertChildren(s, ids, children, batch, now), IdsByKey(ids, children))
  {
    hide ChildRow, IdsByKey, InsertChildren, ValidKeys, Distinct;
    var idOf := IdsByKey(ids, children);
    var s' := InsertChildren(s, ids, children, batch, now);
    forall k | k in idOf
      ensures idOf[k] in s'.tickets
      ensures s'.tickets[idOf[k]].workspace == batch.workspace && s'.tickets[idOf[k]].project == batch.project
    {
      var i := KeyIndex(ids, children, k);
      ChildIsStored(s, ids, children, batch, now, i);
    }
    forall k, k' | k in idOf && k' in idOf && idOf[k] == idOf[k'] ensures k == k' {
      IdsByKeyIsInjective(ids, children, k, k');
    }
  }

  lemma {:induction false} ChildDependencyRowsStep(idOf: map<string, Id>, children: seq<Child>, i: nat)
    requires i < |children| && children[i].key in idOf && forall d :: d in children[i].dependsOn ==> d in idOf
    ensures ChildDependencyRows(idOf, children[..i + 1]) ==
            ChildDependencyRows(idOf, children[..i]) + ChildRows(idOf, children[i].key, children[i].dependsOn)
  {
    assert children[..i + 1] == children[..i] + [children[i]];
  }

  /** The second loop, over the children. False when a dependency row is repeated. */
  method InsertAllDependencies(db: Store, idOf: map<string, Id>, children: seq<Child>) returns (ok: bool)
    requires KeysStored(db.View(), idOf) && ValidKeys(children)
    requires forall c :: c in children ==> c.key in idOf && forall d :: d in c.dependsOn ==> d in idOf
    requires forall c, y :: c in children ==> (idOf[c.key], y) !in db.dependencies
    modifies db`dependencies
    ensures ok <==> forall i :: 0 <= i < |children| ==> Distinct(children[i].dependsOn)
    ensures ok ==> db.View() == old(db.View()).(dependencies := old(db.dependencies) + ChildDependencyRows(idOf, children))
  {
    ghost var before := db.dependencies;
    for i := 0 to |children|
      invariant db.dependencies == before + ChildDependencyRows(idOf, children[..i])
      invariant forall j :: 0 <= j < i ==> Distinct(children[j].dependsOn)
    {
      var c := children[i];
      assert c in children;
      NoRowsYet(before, idOf, children, i);
      ChildDependencyRowsStep(idOf, children, i);
      hide ChildDependencyRows, Distinct;
      ok := InsertChildDependencies(db, idOf, c.key, c.dependsOn);
      if !ok {
        return;
      }
    }
    assert children[..|children|] == children;
    ok := true;
  }

  lemma {:induction false} NoRowsYet(before: set<(Id, Id)>, idOf: map<string, Id>, children: seq<Child>, i: nat)
    requires i < |children| && ValidKeys(children) && children[i].key in idOf
    requires forall k, k' :: k in idOf && k' in idOf && idOf[k] == idOf[k'] ==> k == k'
    requires forall y :: (idOf[children[i].key], y) !in before
    ensures forall y :: (idOf[children[i].key], y) !in before + ChildDependencyRows(idOf, children[..i])
  {
  }

  /** Validation, then one transaction: all children and their events, then all dependency rows. */
  method DecomposeTicket(db: Store, ids: seq<Id>, children: seq<Child>, batch: Batch, now: Time) returns (ok: bool)
    requires |ids| == |children| && DependenciesSound(db.View())
    modifies db
    ensures ok <==> CanDecompose(old(db.View()), ids, children, batch, now)
    ensures db.View() == Ledger.DecomposeTicket(old(db.View()), ids, children, batch, now)
  {
    hide ChildRow, InsertChildren, IdsByKey, ChildDependencyRows, ValidDecomposition, Graph.Cyclic, KeysStored, ValidKeys;
    var saved := db.View();
    ok := ValidateDecomposition(children, batch);
    if !ok {
      return;
    }
    var idOf;
    ok, idOf := InsertChildRows(db, ids, children, batch, now);
    if !ok {
      assert !ChildrenStorable(saved, ids, children, batch, now);
      db.Rollback(saved);
      return;
    }
    assert forall i :: 0 <= i < |ids| ==> InsertSucceeds(saved, ids, children, batch, now, i);
    ChildrenReady(saved, ids, children, batch, now);
    ok := InsertAllDependencies(db, idOf, children);
    if !ok {
      db.Rollback(saved);
    }
  }

  lemma {:induction false} ChildrenReady(s: State, ids: seq<Id>, children: seq<Child>, batch: Batch, now: Time)
    requires DependenciesSound(s) && ValidDecomposition(children, batch) && |ids| == |children|
    requires forall i :: 0 <= i < |ids| ==> InsertSucceeds(s, ids, children, batch, now, i)
    requires forall i :: 0 <= i < |children| ==> ChildRow(children[i], batch, now).Ok?
    ensures ValidKeys(children) && Distinct(ids) && BatchInScope(s, batch) && forall i :: 0 <= i < |ids| ==> ids[i] !in s.tickets
    ensures var s', idOf := InsertChildren(s, ids, children, batch, now), IdsByKey(ids, children);
            && KeysStored(s', idOf) && s'.dependencies == s.dependencies
            && (forall c :: c in children ==> c.key in idOf && forall d :: d in c.dependsOn ==> d in idOf)
            && (forall c, y :: c in children ==> (idOf[c.key], y) !in s'.dependencies)
  {
    hide ChildRow, Graph.Cyclic, InsertChildren, IdsByKey, KeysStored;
    forall i, j | 0 <= i < j < |ids| ensures ids[i] != ids[j] {
      assert InsertSucceeds(s, ids, children, batch, now, j) && ids[i] in ids[..j];
    }
    forall i | 0 <= i < |ids| ensures ids[i] !in s.tickets { assert InsertSucceeds(s, ids, children, batch, now, i); }
    assert InsertSucceeds(s, ids, children, batch, now, 0);
    ChildrenAreStored(s, ids, children, batch, now);
    InsertChildrenFrame(s, ids, children, batch, now);
    var idOf := IdsByKey(ids, children);
    forall c | c in children
      ensures c.key in idOf && idOf[c.key] in ids && forall d :: d in c.dependsOn ==> d in idOf
    {
      IdsByKeyCovers(ids, children, c);
    }
  }
}
