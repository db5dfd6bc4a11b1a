/** The three-colour search that rejects decompositions whose children depend on each other in a
    circle. */
module CycleCheck {
  import opened Basics
  import opened Graph
  import opened Ledger

  const VISITING := 1
  const VISITED := 2

  /** What the first loop builds; a repeated key keeps its last list. */
  function DependencyMap(children: seq<Child>): map<string, seq<string>> {
    if children == [] then map[]
    else DependencyMap(children[..|children| - 1])[children[|children| - 1].key := children[|children| - 1].dependsOn]
  }

  function Successors(dependencies: map<string, seq<string>>, key: string): seq<string> {
    if key in dependencies then dependencies[key] else []
  }

  function Edges(dependencies: map<string, seq<string>>): set<(string, string)> {
    set k, d | k in dependencies && d in dependencies[k] :: (k, d)
  }

  /** Each key comes after everything it depends on. */
  ghost predicate Topological(dependencies: map<string, seq<string>>, order: seq<string>) {
    && Distinct(order)
    && forall i, d :: 0 <= i < |order| && d in Successors(dependencies, order[i]) ==> d in order[..i]
  }

  class Search {
    const dependencies: map<string, seq<string>>
    /** Absent is unvisited. */
    var state: map<string, int>
    /** Keys in the order their visits finished. */
    ghost var finished: seq<string>
    ghost const nodes: set<string>

    constructor (dependencies: map<string, seq<string>>)
      ensures this.dependencies == dependencies && Valid([]) && state == map[]
      ensures forall k :: k in dependencies ==> k in nodes
    {
      this.dependencies := dependencies;
      this.state := map[];
      this.finished := [];
      this.nodes := dependencies.Keys + set k, d | k in dependencies && d in dependencies[k] :: d;
    }

    /** The keys being visited are the ones on the stack, which is a walk; the visited ones are
        those that finished, in topological order. */
    ghost predicate Valid(stack: seq<string>)
      reads this
    {
      && state.Keys <= nodes
      && (forall k, d :: k in dependencies && d in dependencies[k] ==> d in nodes)
      && (forall k :: k in stack <==> k in state && state[k] == VISITING)
      && (forall k :: k in finished <==> k in state && state[k] == VISITED)
      && (forall k :: k in state ==> state[k] == VISITING || state[k] == VISITED)
      && (stack != [] ==> Walk(Edges(dependencies), stack))
      && Topological(dependencies, finished)
    }

    /** Reports a cycle only if there is one; otherwise the key and everything below it is visited. */
    method Visit(key: string, ghost stack: seq<string>) returns (cyclic: bool)
      requires Valid(stack) && key in nodes
      requires stack != [] ==> (stack[|stack| - 1], key) in Edges(dependencies)
      modifies this
      ensures cyclic ==> Cyclic(Edges(dependencies))
      ensures !cyclic ==> Valid(stack) && key in finished
      ensures !cyclic ==> old(state).Keys <= state.Keys && old(finished) <= finished
      decreases nodes - state.Keys
    {
      hide Topological, Cyclic, Walk;
      if key in state {
        if state[key] == VISITING {
          RepeatedKeyIsCycle(Edges(dependencies), stack, key);
          return true;
        }
        return false;
      }
      Enter(key, stack);
      ghost var path := stack + [key];
      var list := Successors(dependencies, key);
      for i := 0 to |list|
        invariant Valid(path) && old(state).Keys + {key} <= state.Keys && old(finished) <= finished
        invariant forall j :: 0 <= j < i ==> list[j] in finished
      {
        assert (path[|path| - 1], list[i]) in Edges(dependencies);
        cyclic := Visit(list[i], path);
        if cyclic {
          return true;
        }
      }
      cyclic := false;
      Finish(key, stack);
    }

    /** The first line of a new visit: the key is on the stack. */
    method Enter(key: string, ghost stack: seq<string>)
      requires Valid(stack) && key in nodes && key !in state
      requires stack != [] ==> (stack[|stack| - 1], key) in Edges(dependencies)
      modifies this`state
      ensures Valid(stack + [key]) && state == old(state)[key := VISITING]
    {
      hide Topological;
      WalkExtends(Edges(dependencies), stack, key);
      state := state[key := VISITING];
    }

    /** The last line of a visit: the key is done. */
    method Finish(key: string, ghost stack: seq<string>)
      requires Valid(stack + [key]) && key !in stack
      requires forall d :: d in Successors(dependencies, key) ==> d in finished
      modifies this
      ensures Valid(stack) && finished == old(finished) + [key] && state.Keys == old(state).Keys
    {
      assert key in stack + [key];
      assert stack != [] ==> Walk(Edges(dependencies), stack) by {
        assert forall i :: 0 <= i < |stack| ==> (stack + [key])[i] == stack[i];
      }
      TopologicalExtends(dependencies, finished, key);
      state := state[key := VISITED];
      finished := finished + [key];
    }
  }

  lemma {:induction false} TopologicalExtends(dependencies: map<string, seq<string>>, order: seq<string>, key: string)
    requires Topological(dependencies, order) && key !in order
    requires forall d :: d in Successors(dependencies, key) ==> d in order
    ensures Topological(dependencies, order + [key])
  {
    var longer := order + [key];
    forall i, d | 0 <= i < |longer| && d in Successors(dependencies, longer[i]) ensures d in longer[..i] {
      if i < |order| {
        assert longer[i] == order[i] && longer[..i] == order[..i];
      } else {
        assert longer[..i] == order;
      }
    }
  }

  lemma {:induction false} WalkExtends(edges: set<(string, string)>, stack: seq<string>, key: string)
    requires stack != [] ==> Walk(edges, stack) && (stack[|stack| - 1], key) in edges
    ensures Walk(edges, stack + [key])
  {
  }

  lemma {:induction false} RepeatedKeyIsCycle(edges: set<(string, string)>, stack: seq<string>, key: string)
    requires key in stack && Walk(edges, stack) && (stack[|stack| - 1], key) in edges
    ensures Cyclic(edges)
  {
    var i :| 0 <= i < |stack| && stack[i] == key;
    var p := stack[i..] + [key];
    forall k | 0 <= k < |p| - 1 ensures (p[k], p[k + 1]) in edges {
      assert p[k] == stack[i + k];
      if k < |p| - 2 { assert (stack[i + k], stack[i + k + 1]) in edges; }
    }
    assert ClosedWalk(edges, p);
  }

  ghost function Position(order: seq<string>, key: string): (i: nat)
    requires key in order
    ensures i < |order| && order[i] == key
  {
    var i: nat :| i < |order| && order[i] == key;
    i
  }

  /** A topological order of all keys rules out cycles. */
  lemma {:induction false} TopologicalIsAcyclic(dependencies: map<string, seq<string>>, order: seq<string>)
    requires Topological(dependencies, order) && forall k :: k in dependencies ==> k in order
    ensures !Cyclic(Edges(dependencies))
  {
    var rank := map k | k in order :: Position(order, k);
    forall x, y | (x, y) in Edges(dependencies) ensures x in rank && y in rank && rank[y] < rank[x] {
      assert y in order[..rank[x]];
    }
    RankedIsAcyclic(Edges(dependencies), rank);
  }

  /** `hasDependencyCycle`, for any child list: true exactly when the graph of the listed
      dependencies has a cycle; otherwise the finish order is a topological order of it. */
  method HasDependencyCycle(children: seq<Child>) returns (cyclic: bool, ghost order: seq<string>)
    ensures cyclic <==> Cyclic(Edges(DependencyMap(children)))
    ensures !cyclic ==> Topological(DependencyMap(children), order) && forall c :: c in children ==> c.key in order
  {
    var dependencies: map<string, seq<string>> := map[];
    for i := 0 to |children|
      invariant dependencies == DependencyMap(children[..i])
    {
      assert children[..i + 1][..i] == children[..i];
      dependencies := dependencies[children[i].key := children[i].dependsOn];
    }
    assert children[..|children|] == children;
    MapHasAllKeys(children);
    var search := new Search(dependencies);
    for i := 0 to |children|
      invariant search.Valid([]) && search.dependencies == dependencies
      invariant forall j :: 0 <= j < i ==> children[j].key in search.finished
    {
      var key := children[i].key;
      if key !in search.state {
        var found := search.Visit(key, []);
        if found {
          order := [];
          return true, order;
        }
      }
    }
    order := search.finished;
    cyclic := false;
    TopologicalIsAcyclic(dependencies, order);
  }

  lemma {:induction false} MapHasAllKeys(children: seq<Child>)
    ensures forall k :: k in DependencyMap(children) <==> exists c :: c in children && c.key == k
  {
    if children != [] {
      var last := children[|children| - 1];
      MapHasAllKeys(children[..|children| - 1]);
      forall k ensures k in DependencyMap(children) <==> exists c :: c in children && c.key == k {
        assert last in children;
        if exists c :: c in children && c.key == k {
          var c :| c in children && c.key == k;
          assert c == last || c in children[..|children| - 1];
        }
      }
    }
  }

  /** For children with distinct keys the graph searched is the graph of the request. */
  lemma {:induction false} MapHasAllEdges(children: seq<Child>)
    requires forall i, j :: 0 <= i < j < |children| ==> children[i].key != children[j].key
    ensures Edges(DependencyMap(children)) == ChildEdges(children)
    ensures forall c :: c in children ==> c.key in DependencyMap(children) && DependencyMap(children)[c.key] == c.dependsOn
  {
    MapHasAllKeys(children);
    if children != [] {
      var n := |children| - 1;
      MapHasAllEdges(children[..n]);
      assert children == children[..n] + [children[n]];
    }
  }
}
