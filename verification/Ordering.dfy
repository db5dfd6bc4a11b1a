/** ORDER BY ... LIMIT over a set of rows, with ties left open. */
module Ordering {

  /** No repetitions, and keys in ascending order. */
  ghost predicate Sorted<T(!new)>(key: T -> int, list: seq<T>) {
    forall i, j :: 0 <= i < j < |list| ==> list[i] != list[j] && key(list[i]) <= key(list[j])
  }

  /** `list` holds the `limit` rows of smallest key, or all of them, in order of key. */
  ghost predicate Smallest<T(!new)>(items: set<T>, key: T -> int, limit: nat, list: seq<T>) {
    && Sorted(key, list)
    && (forall x :: x in list ==> x in items)
    && |list| == (if |items| < limit then |items| else limit)
    && (forall x, y :: x in items && x !in list && y in list ==> key(y) <= key(x))
  }

  method Least<T(!new, ==)>(items: set<T>, key: T -> int) returns (best: T)
    requires items != {}
    ensures best in items && forall x :: x in items ==> key(best) <= key(x)
  {
    best :| best in items;
    var rest := items - {best};
    while rest != {}
      invariant rest <= items && best in items
      invariant forall x :: x in items - rest ==> key(best) <= key(x)
      decreases |rest|
    {
      var x :| x in rest;
      rest := rest - {x};
      if key(x) < key(best) {
        best := x;
      }
    }
  }

  lemma {:induction false} SortedExtends<T(!new)>(key: T -> int, list: seq<T>, x: T)
    requires Sorted(key, list) && x !in list
    requires forall y :: y in list ==> key(y) <= key(x)
    ensures Sorted(key, list + [x])
  {
  }

  method FirstBy<T(!new, ==)>(items: set<T>, key: T -> int, limit: nat) returns (list: seq<T>)
    ensures Smallest(items, key, limit, list)
  {
    list := [];
    var rest := items;
    while rest != {} && |list| < limit
      invariant rest <= items && forall x :: x in items ==> (x in list <==> x !in rest)
      invariant forall x :: x in list ==> x in items
      invariant |rest| == |items| - |list| && |list| <= limit
      invariant Sorted(key, list)
      invariant forall x, y :: x in rest && y in list ==> key(y) <= key(x)
      decreases |rest|
    {
      var x := Least(rest, key);
      SortedExtends(key, list, x);
      hide Sorted;
      rest := rest - {x};
      list := list + [x];
    }
  }
}
