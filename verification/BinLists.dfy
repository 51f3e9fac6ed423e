/**
 The node array of the offset allocator as pure values: the doubly linked bin
 lists threaded through it, the two bitmap levels over the bins and the stack of
 free node slots. Each lemma says what one pattern of writes does to one of these
 structures.
 */
module BinLists {
  import opened SmallFloat
  import opened Bits

  const UNUSED: nat := 0xffff_ffff
  const NUM_TOP_BINS: nat := 32
  const BINS_PER_LEAF: nat := 8
  const NUM_LEAF_BINS: nat := 256

  datatype Node = Node(
    dataOffset: uint32, dataSize: uint32,
    binListPrev: nat, binListNext: nat,
    neighborPrev: nat, neighborNext: nat,
    used: bool)

  // ---- one bin list ----

  ghost function Before(L: seq<nat>, j: nat): nat
    requires j < |L|
  {
    if j == 0 then UNUSED else L[j - 1]
  }

  ghost function After(L: seq<nat>, j: nat): nat
    requires j < |L|
  {
    if j + 1 == |L| then UNUSED else L[j + 1]
  }

  ghost predicate ListOk(N: seq<Node>, L: seq<nat>, head: nat) {
    && (forall j | 0 <= j < |L| :: L[j] < |N| && L[j] < UNUSED)
    && (forall j | 0 <= j < |L| :: N[L[j]].binListPrev == Before(L, j))
    && (forall j | 0 <= j < |L| :: N[L[j]].binListNext == After(L, j))
    && (forall i, j | 0 <= i < j < |L| :: L[i] != L[j])
    && head == if |L| == 0 then UNUSED else L[0]
  }

  ghost predicate SameLinks(a: Node, b: Node) {
    a.binListPrev == b.binListPrev && a.binListNext == b.binListNext
  }

  lemma ListFrame(N0: seq<Node>, N1: seq<Node>, L: seq<nat>, head: nat)
    requires ListOk(N0, L, head) && |N0| == |N1|
    requires forall j | 0 <= j < |L| :: SameLinks(N0[L[j]], N1[L[j]])
    ensures ListOk(N1, L, head)
  {}

  lemma ListPush(N0: seq<Node>, N1: seq<Node>, L: seq<nat>, head: nat, n: nat)
    requires ListOk(N0, L, head) && n < |N0| == |N1| <= UNUSED && n !in L
    requires N1[n].binListPrev == UNUSED && N1[n].binListNext == head
    requires |L| > 0 ==> N1[L[0]].binListPrev == n && N1[L[0]].binListNext == N0[L[0]].binListNext
    requires forall j | 0 < j < |L| :: SameLinks(N0[L[j]], N1[L[j]])
    ensures ListOk(N1, [n] + L, n)
  {
    var M := [n] + L;
    assert forall j | 0 <= j < |M| :: M[j] == if j == 0 then n else L[j - 1];
    forall j | 0 <= j < |M| ensures M[j] < |N1| && N1[M[j]].binListPrev == Before(M, j) &&
      N1[M[j]].binListNext == After(M, j) {
      if j > 0 {
        assert N0[L[j - 1]].binListPrev == Before(L, j - 1) && N0[L[j - 1]].binListNext == After(L, j - 1);
        assert j > 1 ==> SameLinks(N0[L[j - 1]], N1[L[j - 1]]);
      }
    }
  }

  ghost function Without(L: seq<nat>, k: nat): seq<nat>
    requires k < |L|
  {
    L[..k] + L[k + 1..]
  }

  lemma WithoutIndex(L: seq<nat>, k: nat)
    requires k < |L| && forall i, j | 0 <= i < j < |L| :: L[i] != L[j]
    ensures |Without(L, k)| == |L| - 1
    ensures forall j | 0 <= j < k :: Without(L, k)[j] == L[j]
    ensures forall j | k <= j < |L| - 1 :: Without(L, k)[j] == L[j + 1]
    ensures forall i, j | 0 <= i < j < |L| - 1 :: Without(L, k)[i] != Without(L, k)[j]
  {}

  lemma WithoutNeighbors(L: seq<nat>, k: nat, j: nat)
    requires k < |L| && j < |L| - 1 && forall i, j | 0 <= i < j < |L| :: L[i] != L[j]
    ensures |Without(L, k)| == |L| - 1
    ensures Before(Without(L, k), j) ==
      if j < k then Before(L, j) else if j == k then Before(L, k) else Before(L, j + 1)
    ensures After(Without(L, k), j) ==
      if j + 1 < k then After(L, j) else if j + 1 == k then After(L, k) else After(L, j + 1)
  {
    WithoutIndex(L, k);
  }

  lemma ListCut(N0: seq<Node>, N1: seq<Node>, L: seq<nat>, head: nat, head': nat, k: nat)
    requires ListOk(N0, L, head) && |N0| == |N1| <= UNUSED && k < |L|
    requires forall j | 0 <= j < |L| && j != k ::
               && N1[L[j]].binListPrev == (if j == k + 1 then N0[L[k]].binListPrev else N0[L[j]].binListPrev)
               && N1[L[j]].binListNext == (if j + 1 == k then N0[L[k]].binListNext else N0[L[j]].binListNext)
    requires head' == if k == 0 then N0[L[0]].binListNext else head
    ensures ListOk(N1, Without(L, k), head')
  {
    hide Before, After, Without;
    var M := Without(L, k);
    WithoutIndex(L, k);
    forall j | 0 <= j < |M|
      ensures N1[M[j]].binListPrev == Before(M, j) && N1[M[j]].binListNext == After(M, j)
    {
      WithoutNeighbors(L, k, j);
      var i := if j < k then j else j + 1;
      assert M[j] == L[i];
      assert N0[L[i]].binListPrev == Before(L, i) && N0[L[i]].binListNext == After(L, i);
      assert N0[L[k]].binListPrev == Before(L, k) && N0[L[k]].binListNext == After(L, k);
    }
    CutHead(N0, L, head, head', k);
  }

  lemma CutHead(N0: seq<Node>, L: seq<nat>, head: nat, head': nat, k: nat)
    requires ListOk(N0, L, head) && k < |L|
    requires head' == if k == 0 then N0[L[0]].binListNext else head
    ensures head' == if |Without(L, k)| == 0 then UNUSED else Without(L, k)[0]
  {
    WithoutIndex(L, k);
    assert N0[L[0]].binListNext == After(L, 0);
  }

  // ---- all bin lists: the free nodes, each in the bin of its rounded-down size ----

  ghost predicate ListsOk(N: seq<Node>, heads: seq<nat>, B: seq<seq<nat>>) {
    && |heads| == |B| == NUM_LEAF_BINS
    && forall b | 0 <= b < NUM_LEAF_BINS :: ListOk(N, B[b], heads[b])
  }

  ghost predicate Binned(N: seq<Node>, B: seq<seq<nat>>, F: set<nat>) {
    && |B| == NUM_LEAF_BINS
    && (forall b, j | 0 <= b < NUM_LEAF_BINS && 0 <= j < |B[b]| ::
          B[b][j] in F && B[b][j] < |N| && RoundDown(N[B[b][j]].dataSize) == b)
    && (forall i | i in F :: i < |N| && RoundDown(N[i].dataSize) < NUM_LEAF_BINS && i in B[RoundDown(N[i].dataSize)])
  }

  // Writes of insertNodeIntoBin: node n is filled in and becomes the head of bin b.
  lemma InsertLists(N0: seq<Node>, N1: seq<Node>, heads: seq<nat>, B: seq<seq<nat>>, F: set<nat>, b: nat, n: nat)
    requires ListsOk(N0, heads, B) && Binned(N0, B, F) && b < NUM_LEAF_BINS
    requires n < |N0| == |N1| <= UNUSED && n !in F
    requires N1[n].binListPrev == UNUSED && N1[n].binListNext == heads[b] && RoundDown(N1[n].dataSize) == b
    requires forall i | 0 <= i < |N0| && i != n && i != heads[b] :: N1[i] == N0[i]
    requires heads[b] != UNUSED ==> heads[b] < |N0| && N1[heads[b]] == N0[heads[b]].(binListPrev := n)
    ensures ListsOk(N1, heads[b := n], B[b := [n] + B[b]])
    ensures Binned(N1, B[b := [n] + B[b]], F + {n})
  {
    hide RoundDown;
    var C := B[b := [n] + B[b]];
    assert forall c, j | 0 <= c < NUM_LEAF_BINS && 0 <= j < |B[c]| :: B[c][j] != n;
    forall c | 0 <= c < NUM_LEAF_BINS ensures ListOk(N1, C[c], heads[b := n][c]) {
      if c == b {
        ListPush(N0, N1, B[b], heads[b], n);
      } else {
        forall j | 0 <= j < |B[c]| ensures SameLinks(N0[B[c][j]], N1[B[c][j]]) {
          assert heads[b] != UNUSED ==> heads[b] == B[b][0];
        }
        ListFrame(N0, N1, B[c], heads[c]);
      }
    }
    InsertBinned(N0, N1, B, F, b, n);
  }

  lemma InsertBinned(N0: seq<Node>, N1: seq<Node>, B: seq<seq<nat>>, F: set<nat>, b: nat, n: nat)
    requires Binned(N0, B, F) && b < NUM_LEAF_BINS && n < |N0| == |N1| && n !in F
    requires RoundDown(N1[n].dataSize) == b
    requires forall i | 0 <= i < |N0| && i != n :: N1[i].dataSize == N0[i].dataSize
    ensures Binned(N1, B[b := [n] + B[b]], F + {n})
  {
    hide RoundDown;
    var C := B[b := [n] + B[b]];
    forall c, j | 0 <= c < NUM_LEAF_BINS && 0 <= j < |C[c]|
      ensures C[c][j] in F + {n} && C[c][j] < |N1| && RoundDown(N1[C[c][j]].dataSize) == c
    {
      if c == b && j > 0 { assert C[c][j] == B[b][j - 1]; }
    }
    forall i | i in F + {n}
      ensures i < |N1| && RoundDown(N1[i].dataSize) < NUM_LEAF_BINS && i in C[RoundDown(N1[i].dataSize)]
    {
      if i != n { assert i in B[RoundDown(N0[i].dataSize)]; } else { assert C[b][0] == n; }
    }
  }

  // Writes of removing list element k of bin b; the removed node itself may change freely.
  lemma RemoveLists(
    N0: seq<Node>, N1: seq<Node>, heads: seq<nat>, heads': seq<nat>, B: seq<seq<nat>>, F: set<nat>, b: nat, k: nat)
    requires ListsOk(N0, heads, B) && Binned(N0, B, F) && b < NUM_LEAF_BINS && k < |B[b]| && |N0| == |N1| <= UNUSED
    requires forall i | 0 <= i < |N0| && i != B[b][k] && i != N0[B[b][k]].binListPrev &&
      i != N0[B[b][k]].binListNext :: N1[i] == N0[i]
    requires k > 0 ==> N1[B[b][k - 1]] == N0[B[b][k - 1]].(binListNext := N0[B[b][k]].binListNext)
    requires k + 1 < |B[b]| ==> N1[B[b][k + 1]] == N0[B[b][k + 1]].(binListPrev := N0[B[b][k]].binListPrev)
    requires heads' == if k == 0 then heads[b := N0[B[b][0]].binListNext] else heads
    ensures ListsOk(N1, heads', B[b := Without(B[b], k)])
    ensures Binned(N1, B[b := Without(B[b], k)], F - {B[b][k]})
  {
    hide RoundDown, Without, ListOk;
    var L := B[b];
    var C := B[b := Without(L, k)];
    assert ListOk(N0, L, heads[b]);
    LinksOf(N0, L, heads[b], k);
    forall c | 0 <= c < NUM_LEAF_BINS ensures ListOk(N1, C[c], heads'[c]) {
      if c == b {
        CutBin(N0, N1, L, heads[b], heads'[b], k);
      } else {
        assert ListOk(N0, B[c], heads[c]);
        forall j | 0 <= j < |B[c]| ensures SameLinks(N0[B[c][j]], N1[B[c][j]]) {
          OtherBin(N0, B, F, b, k, c, j, heads[b]);
        }
        ListFrame(N0, N1, B[c], heads[c]);
      }
    }
    forall i | 0 <= i < |N0| && i != L[k] ensures N1[i].dataSize == N0[i].dataSize {
      assert i != Before(L, k) && i != After(L, k) ==> N1[i] == N0[i];
    }
    RemoveBinned(N0, N1, B, F, b, k);
  }

  lemma LinksOf(N: seq<Node>, L: seq<nat>, head: nat, k: nat)
    requires ListOk(N, L, head) && k < |L|
    ensures forall j | 0 <= j < |L| :: L[j] < |N|
    ensures N[L[k]].binListPrev == Before(L, k) && N[L[k]].binListNext == After(L, k)
    ensures forall i, j | 0 <= i < j < |L| :: L[i] != L[j]
  {}

  // The list that loses its element k.
  lemma CutBin(N0: seq<Node>, N1: seq<Node>, L: seq<nat>, head: nat, head': nat, k: nat)
    requires ListOk(N0, L, head) && k < |L| && |N0| == |N1| <= UNUSED
    requires forall i | 0 <= i < |N0| && i != L[k] && i != N0[L[k]].binListPrev && i != N0[L[k]].binListNext ::
      N1[i] == N0[i]
    requires k > 0 ==> N1[L[k - 1]] == N0[L[k - 1]].(binListNext := N0[L[k]].binListNext)
    requires k + 1 < |L| ==> N1[L[k + 1]] == N0[L[k + 1]].(binListPrev := N0[L[k]].binListPrev)
    requires head' == if k == 0 then N0[L[0]].binListNext else head
    ensures ListOk(N1, Without(L, k), head')
  {
    hide ListOk;
    LinksOf(N0, L, head, k);
    forall j | 0 <= j < |L| && j != k
      ensures N1[L[j]].binListPrev == (if j == k + 1 then N0[L[k]].binListPrev else N0[L[j]].binListPrev)
      ensures N1[L[j]].binListNext == (if j + 1 == k then N0[L[k]].binListNext else N0[L[j]].binListNext)
    {
      if j != k - 1 && j != k + 1 { FarFrom(N0, L, head, k, j); }
    }
    ListCut(N0, N1, L, head, head', k);
  }

  // An element that is not next to element k is not one of its neighbours.
  lemma FarFrom(N: seq<Node>, L: seq<nat>, head: nat, k: nat, j: nat)
    requires ListOk(N, L, head) && k < |L| && j < |L| && j != k && j != k - 1 && j != k + 1
    ensures L[j] < |N| && L[j] != L[k] && L[j] != Before(L, k) && L[j] != After(L, k)
  {}

  // A node of another bin is none of the nodes around element k.
  lemma OtherBin(N: seq<Node>, B: seq<seq<nat>>, F: set<nat>, b: nat, k: nat, c: nat, j: nat, head: nat)
    requires Binned(N, B, F) && b < NUM_LEAF_BINS && c < NUM_LEAF_BINS && b != c && k < |B[b]| && j < |B[c]|
    requires ListOk(N, B[b], head) && |N| <= UNUSED
    ensures B[c][j] < |N| && B[c][j] != B[b][k]
    ensures B[c][j] != N[B[b][k]].binListPrev && B[c][j] != N[B[b][k]].binListNext
  {
    hide RoundDown;
    assert N[B[b][k]].binListPrev == Before(B[b], k) && N[B[b][k]].binListNext == After(B[b], k);
  }

  lemma RemoveBinned(N0: seq<Node>, N1: seq<Node>, B: seq<seq<nat>>, F: set<nat>, b: nat, k: nat)
    requires Binned(N0, B, F) && b < NUM_LEAF_BINS && k < |B[b]| && |N0| == |N1|
    requires forall i, j | 0 <= i < j < |B[b]| :: B[b][i] != B[b][j]
    requires forall i | 0 <= i < |N0| && i != B[b][k] :: N1[i].dataSize == N0[i].dataSize
    ensures Binned(N1, B[b := Without(B[b], k)], F - {B[b][k]})
  {
    hide RoundDown;
    var L := B[b];
    var M := Without(L, k);
    var C := B[b := M];
    assert forall j | 0 <= j < |M| :: M[j] == L[if j < k then j else j + 1];
    forall c, j | 0 <= c < NUM_LEAF_BINS && 0 <= j < |C[c]|
      ensures C[c][j] in F - {L[k]} && C[c][j] < |N1| && RoundDown(N1[C[c][j]].dataSize) == c
    {
      if c != b { assert C[c][j] in B[c]; }
    }
    forall i | i in F - {L[k]}
      ensures i < |N1| && RoundDown(N1[i].dataSize) < NUM_LEAF_BINS && i in C[RoundDown(N1[i].dataSize)]
    {
      var c := RoundDown(N0[i].dataSize);
      var j :| 0 <= j < |B[c]| && B[c][j] == i;
      if c == b { assert M[if j < k then j else j - 1] == i; }
    }
  }

  // ---- the two bitmap levels ----

  ghost predicate BitsOk(top: Word, leaf: seq<Word>, B: seq<seq<nat>>) {
    && |top| == |leaf| == NUM_TOP_BINS && |B| == NUM_LEAF_BINS
    && (forall t | 0 <= t < NUM_TOP_BINS :: |leaf[t]| == BINS_PER_LEAF)
    && (forall t | 0 <= t < NUM_TOP_BINS :: top[t] <==> !IsZero(leaf[t]))
    && (forall t, l | 0 <= t < NUM_TOP_BINS && 0 <= l < BINS_PER_LEAF :: leaf[t][l] <==> B[8 * t + l] != [])
  }

  lemma BitsAt(top: Word, leaf: seq<Word>, B: seq<seq<nat>>, b: nat)
    requires BitsOk(top, leaf, B) && b < NUM_LEAF_BINS
    ensures leaf[b / 8][b % 8] <==> B[b] != []
    ensures B[b] != [] ==> top[b / 8]
  {
    assert b == 8 * (b / 8) + b % 8;
    assert leaf[b / 8][b % 8] <==> B[8 * (b / 8) + b % 8] != [];
  }

  lemma SetBits(top: Word, leaf: seq<Word>, B: seq<seq<nat>>, b: nat, L: seq<nat>)
    requires BitsOk(top, leaf, B) && b < NUM_LEAF_BINS && L != []
    ensures BitsOk(top[b / 8 := true], leaf[b / 8 := leaf[b / 8][b % 8 := true]], B[b := L])
  {
    var t := b / 8;
    assert leaf[t][b % 8 := true][b % 8];
    var leaf', C := leaf[t := leaf[t][b % 8 := true]], B[b := L];
    forall u, l | 0 <= u < NUM_TOP_BINS && 0 <= l < BINS_PER_LEAF ensures leaf'[u][l] <==> C[8 * u + l] != [] {
      assert leaf[u][l] <==> B[8 * u + l] != [];
      assert 8 * u + l == b <==> u == t && l == b % 8;
    }
  }

  lemma KeepBits(top: Word, leaf: seq<Word>, B: seq<seq<nat>>, b: nat, L: seq<nat>)
    requires BitsOk(top, leaf, B) && b < NUM_LEAF_BINS && (L == [] <==> B[b] == [])
    ensures BitsOk(top, leaf, B[b := L])
  {}

  lemma ClearBits(top: Word, leaf: seq<Word>, B: seq<seq<nat>>, b: nat)
    requires BitsOk(top, leaf, B) && b < NUM_LEAF_BINS
    ensures var w := leaf[b / 8][b % 8 := false];
            BitsOk(if IsZero(w) then top[b / 8 := false] else top, leaf[b / 8 := w], B[b := []])
  {
    var t := b / 8;
    var w := leaf[t][b % 8 := false];
    if !IsZero(w) {
      var l :| 0 <= l < |w| && w[l];
      assert leaf[t][l];
    }
    var leaf', C := leaf[t := w], B[b := []];
    forall u, l | 0 <= u < NUM_TOP_BINS && 0 <= l < BINS_PER_LEAF ensures leaf'[u][l] <==> C[8 * u + l] != [] {
      assert leaf[u][l] <==> B[8 * u + l] != [];
      assert 8 * u + l == b <==> u == t && l == b % 8;
    }
  }

  // ---- the stack of free slots ----

  ghost predicate SlotsOk(stack: seq<nat>, top: nat, current: nat, live: set<nat>) {
    && top <= current <= |stack|
    && |live| == top
    && (forall i | i in live :: i < current)
    && (forall j | top <= j < current :: stack[j] < current && stack[j] !in live)
    && (forall i, j | top <= i < j < current :: stack[i] != stack[j])
  }

  lemma SlotsWithin(stack: seq<nat>, top: nat, current: nat, live: set<nat>)
    requires SlotsOk(stack, top, current, live)
    ensures top <= current <= |stack|
  {}

  lemma SlotsPop(stack: seq<nat>, top: nat, current: nat, live: set<nat>)
    requires SlotsOk(stack, top, current, live) && top < current
    ensures stack[top] !in live && SlotsOk(stack, top + 1, current, live + {stack[top]})
  {}

  lemma SlotsPush(stack: seq<nat>, top: nat, current: nat, live: set<nat>, i: nat)
    requires SlotsOk(stack, top, current, live) && i in live
    ensures top > 0 && SlotsOk(stack[top - 1 := i], top - 1, current, live - {i})
  {}

  lemma SlotsGrow(stack: seq<nat>, current: nat, live: set<nat>)
    requires SlotsOk(stack, current, current, live) && current < |stack|
    ensures SlotsOk(stack[current := current], current, current + 1, live)
  {}

  // Live nodes and stacked slots partition [0, current).
  lemma {:induction false} SlotsPartition(stack: seq<nat>, top: nat, current: nat, live: set<nat>, i: nat)
    requires SlotsOk(stack, top, current, live) && i < current
    ensures i in live <==> i !in stack[top..current]
    decreases current - top
  {
    if top == current {
      CountBelow(live, current);
    } else {
      var more := live + {stack[top]};
      SlotsPartition(stack, top + 1, current, more, i);
      assert stack[top..current] == [stack[top]] + stack[top + 1..current];
    }
  }

  lemma {:induction false} CountBelow(s: set<nat>, n: nat)
    requires forall i | i in s :: i < n
    ensures |s| <= n
    ensures |s| == n ==> forall i | 0 <= i < n :: i in s
  {
    if n == 0 {
      assert s == {};
    } else {
      CountBelow(s - {n - 1}, n - 1);
    }
  }
}
