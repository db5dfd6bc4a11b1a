/** Finite directed graphs given by their edge sets: walks, cycles and rankings. */
module Graph {

  /** `p` is a non-empty walk: each node has an edge to the next one. */
  ghost predicate Walk<T>(edges: set<(T, T)>, p: seq<T>) {
    && |p| >= 1
    && forall i :: 0 <= i < |p| - 1 ==> (p[i], p[i + 1]) in edges
  }

  ghost predicate ClosedWalk<T>(edges: set<(T, T)>, p: seq<T>) {
    Walk(edges, p) && |p| >= 2 && p[0] == p[|p| - 1]
  }

  ghost predicate Cyclic<T(!new)>(edges: set<(T, T)>) {
    exists p :: ClosedWalk(edges, p)
  }

  /** Every edge leads to a node of strictly smaller rank. */
  ghost predicate Ranked<T(!new)>(edges: set<(T, T)>, rank: map<T, nat>) {
    forall x, y :: (x, y) in edges ==> x in rank && y in rank && rank[y] < rank[x]
  }

  /** Along a walk the rank falls by at least one per edge. */
  lemma {:induction false} WalkDescends<T(!new)>(edges: set<(T, T)>, rank: map<T, nat>, p: seq<T>)
    requires Ranked(edges, rank) && Walk(edges, p) && |p| >= 2
    ensures p[0] in rank && p[|p| - 1] in rank
    ensures rank[p[|p| - 1]] + |p| - 1 <= rank[p[0]]
  {
    assert (p[0], p[1]) in edges;
    if |p| > 2 {
      var q := p[1..];
      assert forall i :: 0 <= i < |q| - 1 ==> (q[i], q[i + 1]) == (p[i + 1], p[i + 2]);
      WalkDescends(edges, rank, q);
    }
  }

  lemma {:induction false} RankedIsAcyclic<T(!new)>(edges: set<(T, T)>, rank: map<T, nat>)
    requires Ranked(edges, rank)
    ensures !Cyclic(edges)
  {
    forall p | ClosedWalk(edges, p) ensures false {
      WalkDescends(edges, rank, p);
    }
  }

  /** The number of distinct elements of a repetition-free sequence is its length. */
  lemma {:induction false} DistinctLength<T>(p: seq<T>)
    requires forall i, j :: 0 <= i < j < |p| ==> p[i] != p[j]
    ensures |set x | x in p| == |p|
  {
    var elements := set x | x in p;
    if p != [] {
      var last := p[|p| - 1];
      var init := p[..|p| - 1];
      DistinctLength(init);
      var before := set x | x in init;
      assert last !in before;
      assert elements == before + {last} by {
        forall x ensures x in elements <==> x in before + {last} {
          assert p == init + [last];
        }
      }
    }
  }

  lemma {:induction false} SubsetSize<T>(a: set<T>, b: set<T>)
    requires a <= b
    ensures |a| <= |b|
    decreases a
  {
    if a != {} {
      var x :| x in a;
      SubsetSize(a - {x}, b - {x});
    }
  }
}
