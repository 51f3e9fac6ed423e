/**
 Order statistics of lease timeouts: what std::nth_element leaves at its index,
 and how many values lie at, below or above it.
 */
module Selection {

  // Values at most t.
  function AtMost(L: seq<int>, t: int): nat {
    if L == [] then 0 else AtMost(L[..|L| - 1], t) + (if L[|L| - 1] <= t then 1 else 0)
  }

  // Values strictly below t.
  function Below(L: seq<int>, t: int): nat {
    if L == [] then 0 else Below(L[..|L| - 1], t) + (if L[|L| - 1] < t then 1 else 0)
  }

  // The values above t, in order.
  function Above(L: seq<int>, t: int): seq<int> {
    if L == [] then [] else Above(L[..|L| - 1], t) + (if L[|L| - 1] > t then [L[|L| - 1]] else [])
  }

  lemma {:induction false} AtMostConcat(A: seq<int>, B: seq<int>, t: int)
    ensures AtMost(A + B, t) == AtMost(A, t) + AtMost(B, t)
    ensures Below(A + B, t) == Below(A, t) + Below(B, t)
    ensures Above(A + B, t) == Above(A, t) + Above(B, t)
  {
    if B == [] {
      assert A + B == A;
    } else {
      AtMostConcat(A, B[..|B| - 1], t);
      assert (A + B)[..|A + B| - 1] == A + B[..|B| - 1];
    }
  }

  lemma {:induction false} AtMostSplits(L: seq<int>, t: int)
    ensures AtMost(L, t) + |Above(L, t)| == |L|
    ensures Below(L, t) <= AtMost(L, t)
  {
    if L != [] { AtMostSplits(L[..|L| - 1], t); }
  }

  lemma {:induction false} AboveMeans(L: seq<int>, t: int, x: int)
    ensures x in Above(L, t) <==> x in L && x > t
  {
    if L != [] {
      AboveMeans(L[..|L| - 1], t, x);
      assert x in L <==> x in L[..|L| - 1] || x == L[|L| - 1];
    }
  }

  // ---- the n-th smallest value ----

  ghost predicate IsNth(L: seq<int>, n: nat, v: int) {
    v in L && Below(L, v) <= n < AtMost(L, v)
  }

  function Min(L: seq<int>): (m: int)
    requires L != []
    ensures m in L && forall x | x in L :: m <= x
  {
    if |L| == 1 then L[0]
    else
      var m := Min(L[..|L| - 1]);
      var last := L[|L| - 1];
      assert forall x :: x in L <==> x in L[..|L| - 1] || x == last;
      if last < m then last else m
  }

  function DropOne(L: seq<int>, v: int): (r: seq<int>)
    requires v in L
    ensures |r| == |L| - 1 && forall x | x in r :: x in L
    ensures forall t :: AtMost(L, t) == AtMost(r, t) + (if v <= t then 1 else 0)
    ensures forall t :: Below(L, t) == Below(r, t) + (if v < t then 1 else 0)
  {
    var p, last := L[..|L| - 1], L[|L| - 1];
    if last == v then p
    else
      assert v in p;
      var r := DropOne(p, v);
      assert (r + [last])[..|r|] == r;
      r + [last]
  }

  // The value std::nth_element(begin, begin + n, end) leaves at index n.
  function NthSmallest(L: seq<int>, n: nat): (v: int)
    requires n < |L|
    ensures IsNth(L, n, v)
    decreases n
  {
    var m := Min(L);
    NoneBelow(L, m);
    var rest := DropOne(L, m);
    if n == 0 then m else NthSmallest(rest, n - 1)
  }

  lemma {:induction false} NoneBelow(L: seq<int>, m: int)
    requires forall x | x in L :: m <= x
    ensures Below(L, m) == 0
    ensures m in L ==> AtMost(L, m) >= 1
  {
    if L != [] {
      var p := L[..|L| - 1];
      forall x | x in p ensures m <= x { assert x in L; }
      NoneBelow(p, m);
      assert L[|L| - 1] in L;
      assert m in L ==> m in L[..|L| - 1] || m == L[|L| - 1];
    }
  }

  lemma {:induction false} AtMostBelow(L: seq<int>, v: int, w: int)
    requires v < w
    ensures AtMost(L, v) <= Below(L, w)
  {
    if L != [] { AtMostBelow(L[..|L| - 1], v, w); }
  }

  // There is only one n-th smallest value.
  lemma NthUnique(L: seq<int>, n: nat, v: int)
    requires n < |L| && IsNth(L, n, v)
    ensures NthSmallest(L, n) == v
  {
    hide NthSmallest;
    var w := NthSmallest(L, n);
    if v < w { AtMostBelow(L, v, w); } else if w < v { AtMostBelow(L, w, v); }
  }

  // ---- distinct values: the threshold cuts off exactly the n + 1 smallest ----

  ghost predicate Distinct(L: seq<int>) {
    forall i, j | 0 <= i < j < |L| :: L[i] != L[j]
  }

  lemma {:induction false} DistinctEqual(L: seq<int>, v: int)
    requires Distinct(L)
    ensures AtMost(L, v) == Below(L, v) + (if v in L then 1 else 0)
  {
    if L != [] {
      var p, last := L[..|L| - 1], L[|L| - 1];
      DistinctEqual(p, v);
      assert v in L <==> v in p || v == last;
      assert last !in p;
    }
  }

  lemma NthExact(L: seq<int>, n: nat)
    requires Distinct(L) && n < |L|
    ensures AtMost(L, NthSmallest(L, n)) == n + 1
  {
    DistinctEqual(L, NthSmallest(L, n));
  }
}
