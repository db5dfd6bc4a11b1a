/** Ascending and descending lists of the numbers in a set. */
module SortedLists {

  predicate Increasing(list: seq<int>) {
    forall i, j :: 0 <= i < j < |list| ==> list[i] < list[j]
  }

  lemma {:induction false} Inhabited(s: set<int>)
    ensures s == {} || exists x :: x in s
  {
    if forall x :: x !in s { assert s == {}; }
  }

  lemma {:induction false} LeastExists(s: set<int>)
    requires s != {}
    ensures exists m :: m in s && forall k :: k in s ==> m <= k
  {
    Inhabited(s);
    var x :| x in s;
    assert forall k :: k in s ==> k == x || k in s - {x};
    if s - {x} != {} {
      LeastExists(s - {x});
      var m :| m in s - {x} && forall k :: k in s - {x} ==> m <= k;
      var least := if m < x then m else x;
      assert least in s && forall k :: k in s ==> least <= k;
    }
  }

  /** ORDER BY event_sequence ASC */
  function Ascending(s: set<int>): (list: seq<int>)
    ensures |list| == |s|
  {
    if s == {} then []
    else
      LeastExists(s);
      var m :| m in s && forall k :: k in s ==> m <= k;
      [m] + Ascending(s - {m})
  }

  lemma {:induction false} AscendingHolds(s: set<int>, n: int)
    ensures n in Ascending(s) <==> n in s
  {
    if s != {} {
      var m := Ascending(s)[0];
      assert Ascending(s) == [m] + Ascending(s - {m});
      AscendingHolds(s - {m}, n);
    }
  }

  lemma {:induction false} AscendingIncreases(s: set<int>)
    ensures Increasing(Ascending(s))
  {
    if s != {} {
      var m := Ascending(s)[0];
      AscendingIncreases(s - {m});
      forall n | n in Ascending(s - {m}) ensures m < n { AscendingHolds(s - {m}, n); }
      Joined([m], Ascending(s - {m}), m);
    }
  }

  lemma {:induction false} Joined(a: seq<int>, b: seq<int>, m: int)
    requires Increasing(a) && Increasing(b) && (forall n :: n in a ==> n <= m) && (forall n :: n in b ==> m < n)
    ensures Increasing(a + b)
  {
    forall i, j | 0 <= i < j < |a + b| ensures (a + b)[i] < (a + b)[j] {
      if i < |a| <= j {
        assert a[i] in a && b[j - |a|] in b;
      }
    }
  }

  /** ORDER BY event_sequence DESC */
  function Descending(s: set<int>): seq<int> {
    Reversed(Ascending(s))
  }

  function Reversed(list: seq<int>): (r: seq<int>)
    ensures |r| == |list| && forall i :: 0 <= i < |r| ==> r[i] == list[|list| - 1 - i]
  {
    if list == [] then [] else Reversed(list[1..]) + [list[0]]
  }

  /** LIMIT */
  function Limited(list: seq<int>, limit: nat): seq<int> {
    if |list| < limit then list else list[..limit]
  }

  /** A set has one increasing list. */
  lemma {:induction false} IncreasingIsUnique(a: seq<int>, b: seq<int>)
    requires Increasing(a) && Increasing(b) && forall n :: n in a <==> n in b
    ensures a == b
  {
    if |a| > 0 { assert a[0] in a; }
    if |b| > 0 { assert b[0] in b; }
    if |a| > 0 && |b| > 0 {
      HeadIsLeast(a);
      HeadIsLeast(b);
      assert a[0] in a && b[0] in b;
      var x, y := a[1..], b[1..];
      IncreasingIsUnique(x, y);
      assert a == [a[0]] + x && b == [b[0]] + y;
    }
  }

  lemma {:induction false} HeadIsLeast(a: seq<int>)
    requires Increasing(a) && |a| > 0
    ensures Increasing(a[1..]) && forall n :: n in a ==> a[0] <= n
    ensures forall n :: n in a[1..] <==> n in a && n != a[0]
  {
    forall n | n in a && n != a[0] ensures n in a[1..] {
      var i :| 0 <= i < |a| && a[i] == n;
      assert a[1..][i - 1] == n;
    }
  }

  /** Taking from the end of the reversed list, and turning it back, takes the tail. */
  lemma {:induction false} ReversedPrefix(list: seq<int>, limit: nat)
    ensures Reversed(Limited(Reversed(list), limit)) == list[if |list| < limit then 0 else |list| - limit..]
  {
    var taken := Limited(Reversed(list), limit);
    var tail := list[if |list| < limit then 0 else |list| - limit..];
    assert |Reversed(taken)| == |tail|;
    forall i | 0 <= i < |tail| ensures Reversed(taken)[i] == tail[i] { }
  }

  lemma {:induction false} PrefixUpTo(list: seq<int>, k: nat, n: int)
    requires Increasing(list) && 0 < k <= |list|
    ensures n in list[..k] <==> n in list && n <= list[k - 1]
  {
    if n in list && n <= list[k - 1] {
      var i :| 0 <= i < |list| && list[i] == n;
      assert list[..k][i] == n;
    }
  }

  lemma {:induction false} PrefixIncreases(list: seq<int>, k: nat)
    requires Increasing(list) && k <= |list|
    ensures Increasing(list[..k])
  {
  }

  lemma {:induction false} TailHolds(all: seq<int>, skipped: nat)
    requires skipped <= |all|
    ensures forall i :: skipped <= i < |all| ==> all[i] in all[skipped..]
  {
    forall i | skipped <= i < |all| ensures all[i] in all[skipped..] { assert all[skipped..][i - skipped] == all[i]; }
  }

  lemma {:induction false} BelowTail(all: seq<int>, skipped: nat, n: int, m: int)
    requires Increasing(all) && skipped <= |all| && n in all && n !in all[skipped..] && m in all[skipped..]
    ensures n < m
  {
    var i: nat :| i < |all| && all[i] == n;
    var j: nat :| j < |all[skipped..]| && all[skipped..][j] == m;
    TailHolds(all, skipped);
    assert all[skipped + j] == m;
  }

  /** The tail of an increasing list lies above what it leaves out. */
  lemma {:induction false} TailIsPage(all: seq<int>, skipped: nat)
    requires Increasing(all) && skipped <= |all|
    ensures Increasing(all[skipped..]) && forall n, m :: n in all && n !in all[skipped..] && m in all[skipped..] ==> n < m
    ensures skipped == 0 ==> all[skipped..] == all
  {
    forall n, m | n in all && n !in all[skipped..] && m in all[skipped..] ensures n < m { BelowTail(all, skipped, n, m); }
  }
}
