/**
 All arrays of the offset allocator together: the neighbour chain through the
 nodes, what the bin operations write, the two-level search, and what carving a
 tile leaves behind.
 */
module HeapArrays {
  import opened SmallFloat
  import opened Bits
  import opened Tiling
  import opened BinLists

  // ---- the neighbour chain ----

  ghost predicate NodeIs(N: seq<Node>, T: seq<Tile>, k: nat)
    requires k < |T|
  {
    && T[k].node < |N|
    && var n := N[T[k].node];
      && n.dataOffset == T[k].offset && n.dataSize == T[k].size && n.used == T[k].used
      && n.neighborPrev == (if k == 0 then UNUSED else T[k - 1].node)
      && n.neighborNext == (if k + 1 == |T| then UNUSED else T[k + 1].node)
  }

  ghost predicate Chained(N: seq<Node>, T: seq<Tile>) {
    forall k | 0 <= k < |T| :: NodeIs(N, T, k)
  }

  // Equal but for the bin links.
  ghost predicate SameTile(a: Node, b: Node) {
    a.(binListPrev := b.binListPrev, binListNext := b.binListNext) == b
  }

  ghost predicate TileKept(N0: seq<Node>, N1: seq<Node>, n: nat) {
    n < |N0| && n < |N1| && SameTile(N0[n], N1[n])
  }

  // Replacing the run T[i..j]: the nodes of M must be chained inside and to the
  // two outer neighbours, which must point back; nothing else may change.
  lemma ChainedSplice(N0: seq<Node>, N1: seq<Node>, T: seq<Tile>, i: nat, j: nat, M: seq<Tile>)
    requires Chained(N0, T) && i < j <= |T| && |M| >= 1 && |N0| == |N1|
    requires forall q | 0 <= q < |T| && q != i - 1 && q != j && !(i <= q < j) :: TileKept(N0, N1, T[q].node)
    requires i > 0 ==>
      NodeIs(N0, T, i - 1) && SameTile(N0[T[i - 1].node].(neighborNext := M[0].node), N1[T[i - 1].node])
    requires j < |T| ==> NodeIs(N0, T, j) && SameTile(N0[T[j].node].(neighborPrev := M[|M| - 1].node), N1[T[j].node])
    requires forall q | i <= q < i + |M| :: NodeIs(N1, Splice(T, i, j, M), q)
    ensures Chained(N1, Splice(T, i, j, M))
  {
    var S := Splice(T, i, j, M);
    SpliceIndex(T, i, j, M);
    forall q | 0 <= q < |S| ensures NodeIs(N1, S, q) {
      if i <= q < i + |M| {
      } else {
        var p := if q < i then q else q - |M| + (j - i);
        assert NodeIs(N0, T, p);
        assert S[q] == T[p];
        assert p != i - 1 && p != j ==> TileKept(N0, N1, T[p].node);
      }
    }
  }

  // ---- the arrays together, and what the three bin operations write to them ----

  datatype Arrays = Arrays(
    nodes: seq<Node>, heads: seq<nat>, top: Word, leaf: seq<Word>,
    stack: seq<nat>, freeOffset: nat, current: nat)

  ghost predicate CoreOk(a: Arrays, B: seq<seq<nat>>, live: set<nat>, F: set<nat>) {
    && |a.nodes| <= UNUSED && a.current <= |a.nodes|
    && ListsOk(a.nodes, a.heads, B) && Binned(a.nodes, B, F) && BitsOk(a.top, a.leaf, B)
    && SlotsOk(a.stack, a.freeOffset, a.current, live) && F <= live
  }

  ghost predicate Widths(a: Arrays) {
    && |a.heads| == NUM_LEAF_BINS && |a.top| == |a.leaf| == NUM_TOP_BINS
    && forall t | 0 <= t < NUM_TOP_BINS :: |a.leaf[t]| == BINS_PER_LEAF
  }

  ghost predicate Index(a: Arrays, i: nat) {
    i != UNUSED ==> i < |a.nodes|
  }

  ghost function SetBin(a: Arrays, b: nat): Arrays
    requires Widths(a) && b < NUM_LEAF_BINS
  {
    a.(top := a.top[b / 8 := true], leaf := a.leaf[b / 8 := a.leaf[b / 8][b % 8 := true]])
  }

  ghost function ClearBin(a: Arrays, b: nat): Arrays
    requires Widths(a) && b < NUM_LEAF_BINS
  {
    var w := a.leaf[b / 8][b % 8 := false];
    a.(top := if IsZero(w) then a.top[b / 8 := false] else a.top, leaf := a.leaf[b / 8 := w])
  }

  ghost function SetPrev(N: seq<Node>, i: nat, p: nat): seq<Node>
    requires i != UNUSED ==> i < |N|
  {
    if i == UNUSED then N else N[i := N[i].(binListPrev := p)]
  }

  ghost function SetNext(N: seq<Node>, i: nat, p: nat): seq<Node>
    requires i != UNUSED ==> i < |N|
  {
    if i == UNUSED then N else N[i := N[i].(binListNext := p)]
  }

  ghost function Inserted(a: Arrays, b: nat, node: Node): Arrays
    requires Widths(a) && b < NUM_LEAF_BINS && Index(a, a.heads[b])
    requires a.freeOffset < |a.stack| && a.stack[a.freeOffset] < |a.nodes|
  {
    var n := a.stack[a.freeOffset];
    var a' := if a.heads[b] == UNUSED then SetBin(a, b) else a;
    a'.(nodes := SetPrev(a.nodes[n := node], a.heads[b], n), heads := a.heads[b := n], freeOffset := a.freeOffset + 1)
  }

  // Unlink node i of bin b.
  ghost function Unlinked(a: Arrays, b: nat, i: nat): Arrays
    requires Widths(a) && b < NUM_LEAF_BINS && i < |a.nodes|
    requires Index(a, a.nodes[i].binListPrev) && Index(a, a.nodes[i].binListNext)
  {
    var n := a.nodes[i];
    var a' := a.(nodes := SetPrev(SetNext(a.nodes, n.binListPrev, n.binListNext), n.binListNext, n.binListPrev));
    if n.binListPrev != UNUSED then a'
    else
      var a'' := a'.(heads := a.heads[b := n.binListNext]);
      if n.binListNext == UNUSED then ClearBin(a'', b) else a''
  }

  lemma CoreWidths(a: Arrays, B: seq<seq<nat>>, live: set<nat>, F: set<nat>)
    requires CoreOk(a, B, live, F)
    ensures Widths(a) && |B| == NUM_LEAF_BINS
    ensures forall b | 0 <= b < NUM_LEAF_BINS :: Index(a, a.heads[b]) && (a.heads[b] == UNUSED <==> B[b] == [])
    ensures a.freeOffset == |live| <= a.current <= |a.stack|
    ensures a.freeOffset < a.current ==> a.stack[a.freeOffset] < a.current && a.stack[a.freeOffset] !in live
    ensures forall i | i in live :: i < a.current
  {
    forall b | 0 <= b < NUM_LEAF_BINS ensures Index(a, a.heads[b]) && (a.heads[b] == UNUSED <==> B[b] == []) {
      assert ListOk(a.nodes, B[b], a.heads[b]);
    }
  }

  lemma InsertedKeeps(a: Arrays, B: seq<seq<nat>>, live: set<nat>, F: set<nat>, b: nat, node: Node)
    requires CoreOk(a, B, live, F) && a.freeOffset < a.current
    requires b < NUM_LEAF_BINS && RoundDown(node.dataSize) == b
    requires Widths(a) && Index(a, a.heads[b]) && a.stack[a.freeOffset] < |a.nodes|
    requires node.binListPrev == UNUSED && node.binListNext == a.heads[b]
    ensures var n := a.stack[a.freeOffset];
      n !in live && CoreOk(Inserted(a, b, node), B[b := [n] + B[b]], live + {n}, F + {n})
  {
    hide RoundDown, ListsOk, Binned, BitsOk, SlotsOk;
    SlotsWithin(a.stack, a.freeOffset, a.current, live);
    var n := a.stack[a.freeOffset];
    SlotsPop(a.stack, a.freeOffset, a.current, live);
    InsertedLists(a, B, F, b, node);
    InsertedBits(a, B, live, F, b, n);
  }

  lemma InsertedLists(a: Arrays, B: seq<seq<nat>>, F: set<nat>, b: nat, node: Node)
    requires ListsOk(a.nodes, a.heads, B) && Binned(a.nodes, B, F) && |a.nodes| <= UNUSED
    requires b < NUM_LEAF_BINS && RoundDown(node.dataSize) == b
    requires Widths(a) && Index(a, a.heads[b]) && a.freeOffset < |a.stack| && a.stack[a.freeOffset] < |a.nodes|
    requires a.stack[a.freeOffset] !in F
    requires node.binListPrev == UNUSED && node.binListNext == a.heads[b]
    ensures var a', n := Inserted(a, b, node), a.stack[a.freeOffset];
            ListsOk(a'.nodes, a'.heads, B[b := [n] + B[b]]) && Binned(a'.nodes, B[b := [n] + B[b]], F + {n})
  {
    hide RoundDown, ListsOk, Binned;
    var n := a.stack[a.freeOffset];
    HeadIsFree(a.nodes, a.heads, B, F, b);
    InsertLists(a.nodes, Inserted(a, b, node).nodes, a.heads, B, F, b, n);
  }

  lemma InsertedBits(a: Arrays, B: seq<seq<nat>>, live: set<nat>, F: set<nat>, b: nat, n: nat)
    requires CoreOk(a, B, live, F) && b < NUM_LEAF_BINS && Widths(a)
    ensures var a' := if a.heads[b] == UNUSED then SetBin(a, b) else a; BitsOk(a'.top, a'.leaf, B[b := [n] + B[b]])
  {
    hide ListsOk, Binned, BitsOk, SlotsOk;
    CoreWidths(a, B, live, F);
    if a.heads[b] == UNUSED {
      SetBits(a.top, a.leaf, B, b, [n] + B[b]);
    } else {
      KeepBits(a.top, a.leaf, B, b, [n] + B[b]);
    }
  }

  lemma HeadIsFree(N: seq<Node>, heads: seq<nat>, B: seq<seq<nat>>, F: set<nat>, b: nat)
    requires ListsOk(N, heads, B) && Binned(N, B, F) && b < NUM_LEAF_BINS
    ensures heads[b] == UNUSED || heads[b] in F
  {
    assert ListOk(N, B[b], heads[b]);
  }

  lemma InsertedTiles(a: Arrays, b: nat, node: Node)
    requires Widths(a) && b < NUM_LEAF_BINS && Index(a, a.heads[b])
    requires a.freeOffset < |a.stack| && a.stack[a.freeOffset] < |a.nodes|
    ensures var n, N1 := a.stack[a.freeOffset], Inserted(a, b, node).nodes;
            |N1| == |a.nodes| && SameTile(node, N1[n]) && forall i | 0 <= i < |N1| && i != n :: TileKept(a.nodes, N1, i)
  {}

  // Unlinking node i of bin b takes it out of the bin and out of the free nodes,
  // whatever is then written into it.
  lemma UnlinkedKeeps(a: Arrays, B: seq<seq<nat>>, live: set<nat>, F: set<nat>, b: nat, k: nat, x: Node)
    requires CoreOk(a, B, live, F) && Widths(a) && |B| == NUM_LEAF_BINS
    requires b < NUM_LEAF_BINS && k < |B[b]| && B[b][k] < |a.nodes|
    requires Index(a, a.nodes[B[b][k]].binListPrev) && Index(a, a.nodes[B[b][k]].binListNext)
    ensures var i := B[b][k]; var a' := Unlinked(a, b, i);
            CoreOk(a'.(nodes := a'.nodes[i := x]), B[b := Without(B[b], k)], live, F - {i})
  {
    hide RoundDown, ListsOk, Binned, BitsOk, SlotsOk, Without;
    UnlinkedLists(a, B, F, b, k, x);
    UnlinkedBits(a, B, b, k);
  }

  lemma LinksAt(a: Arrays, B: seq<seq<nat>>, F: set<nat>, b: nat, k: nat)
    requires ListsOk(a.nodes, a.heads, B) && Binned(a.nodes, B, F) && b < NUM_LEAF_BINS && k < |B[b]|
    ensures B[b][k] in F && B[b][k] < |a.nodes| && RoundDown(a.nodes[B[b][k]].dataSize) == b
    ensures var n := a.nodes[B[b][k]];
            n.binListPrev == Before(B[b], k) && n.binListNext == After(B[b], k)
            && Index(a, n.binListPrev) && Index(a, n.binListNext)
  {
    hide RoundDown;
    assert ListOk(a.nodes, B[b], a.heads[b]);
  }

  lemma UnlinkedLists(a: Arrays, B: seq<seq<nat>>, F: set<nat>, b: nat, k: nat, x: Node)
    requires ListsOk(a.nodes, a.heads, B) && Binned(a.nodes, B, F) && |a.nodes| <= UNUSED && Widths(a)
    requires b < NUM_LEAF_BINS && k < |B[b]| && B[b][k] < |a.nodes|
    requires Index(a, a.nodes[B[b][k]].binListPrev) && Index(a, a.nodes[B[b][k]].binListNext)
    ensures var i := B[b][k]; var a' := Unlinked(a, b, i);
            ListsOk(a'.nodes[i := x], a'.heads, B[b := Without(B[b], k)])
            && Binned(a'.nodes[i := x], B[b := Without(B[b], k)], F - {i})
  {
    var L := B[b];
    var i := L[k];
    assert ListOk(a.nodes, L, a.heads[b]);
    LinksAt(a, B, F, b, k);
    hide RoundDown, ListsOk, Binned, Without;
    var a' := Unlinked(a, b, i);
    RemoveLists(a.nodes, a'.nodes[i := x], a.heads, a'.heads, B, F, b, k);
  }

  lemma UnlinkedBits(a: Arrays, B: seq<seq<nat>>, b: nat, k: nat)
    requires ListsOk(a.nodes, a.heads, B) && BitsOk(a.top, a.leaf, B) && Widths(a)
    requires b < NUM_LEAF_BINS && k < |B[b]| && B[b][k] < |a.nodes|
    requires Index(a, a.nodes[B[b][k]].binListPrev) && Index(a, a.nodes[B[b][k]].binListNext)
    ensures var a' := Unlinked(a, b, B[b][k]); BitsOk(a'.top, a'.leaf, B[b := Without(B[b], k)])
  {
    var L := B[b];
    assert ListOk(a.nodes, L, a.heads[b]);
    var n := a.nodes[L[k]];
    assert n.binListPrev == Before(L, k) && n.binListNext == After(L, k);
    assert |Without(L, k)| == |L| - 1;
    if |L| == 1 {
      ClearBits(a.top, a.leaf, B, b);
      assert Without(L, k) == [];
    } else {
      KeepBits(a.top, a.leaf, B, b, Without(L, k));
    }
  }

  lemma UnlinkedTiles(a: Arrays, b: nat, i: nat)
    requires Widths(a) && b < NUM_LEAF_BINS && i < |a.nodes|
    requires Index(a, a.nodes[i].binListPrev) && Index(a, a.nodes[i].binListNext)
    ensures var N1 := Unlinked(a, b, i).nodes;
            |N1| == |a.nodes| && forall j | 0 <= j < |N1| :: TileKept(a.nodes, N1, j)
  {}

  // Writes that leave the sizes and links of all free nodes alone do not matter to the bins.
  lemma CoreFrame(a: Arrays, B: seq<seq<nat>>, live: set<nat>, F: set<nat>, N1: seq<Node>)
    requires CoreOk(a, B, live, F) && |N1| == |a.nodes|
    requires forall i | i in F && i < |N1| :: SameLinks(a.nodes[i], N1[i]) && a.nodes[i].dataSize == N1[i].dataSize
    ensures CoreOk(a.(nodes := N1), B, live, F)
  {
    hide RoundDown;
    forall b | 0 <= b < NUM_LEAF_BINS ensures ListOk(N1, B[b], a.heads[b]) {
      assert ListOk(a.nodes, B[b], a.heads[b]);
      ListFrame(a.nodes, N1, B[b], a.heads[b]);
    }
  }

  ghost function Pushed(a: Arrays, i: nat): Arrays
    requires 0 < a.freeOffset <= |a.stack|
  {
    a.(stack := a.stack[a.freeOffset - 1 := i], freeOffset := a.freeOffset - 1)
  }

  lemma PushedKeeps(a: Arrays, B: seq<seq<nat>>, live: set<nat>, F: set<nat>, i: nat)
    requires CoreOk(a, B, live, F) && i in live && i !in F
    ensures 0 < a.freeOffset <= |a.stack| && CoreOk(Pushed(a, i), B, live - {i}, F)
  {
    hide ListsOk, Binned, BitsOk;
    SlotsPush(a.stack, a.freeOffset, a.current, live, i);
  }

  // The bin and the position of a free node.
  lemma FreeNodeAt(a: Arrays, B: seq<seq<nat>>, live: set<nat>, F: set<nat>, i: nat) returns (b: nat, k: nat)
    requires CoreOk(a, B, live, F) && i in F
    ensures i in live && i < |a.nodes| && b == RoundDown(a.nodes[i].dataSize) < NUM_LEAF_BINS == |B| && k < |B[b]| &&
      B[b][k] == i
    ensures Widths(a) && Index(a, a.nodes[i].binListPrev) && Index(a, a.nodes[i].binListNext)
  {
    hide RoundDown;
    b := RoundDown(a.nodes[i].dataSize);
    k :| 0 <= k < |B[b]| && B[b][k] == i;
    LinksAt(a, B, F, b, k);
  }

  ghost function WithNeighborPrev(N: seq<Node>, i: nat, v: nat): seq<Node>
    requires i != UNUSED ==> i < |N|
  {
    if i == UNUSED then N else N[i := N[i].(neighborPrev := v)]
  }

  ghost function WithNeighborNext(N: seq<Node>, i: nat, v: nat): seq<Node>
    requires i != UNUSED ==> i < |N|
  {
    if i == UNUSED then N else N[i := N[i].(neighborNext := v)]
  }

  // ---- the two-level search ----

  // The search of allocate, as an expression: the leaf word of the minimal top
  // bin from the minimal leaf on, then the lowest later top bin and its lowest leaf.
  function SearchBin(top: Word, leaf: seq<Word>, minBin: nat): nat
    requires |top| == |leaf| == NUM_TOP_BINS && minBin / 8 < NUM_TOP_BINS
    requires forall t | 0 <= t < NUM_TOP_BINS :: |leaf[t]| == BINS_PER_LEAF
    requires forall t | 0 <= t < NUM_TOP_BINS :: top[t] ==> !IsZero(leaf[t])
  {
    var minTop := minBin / 8;
    var l := if top[minTop] then FindLowestSetBitAfter(leaf[minTop], minBin % 8) else NO_SPACE;
    if l != NO_SPACE then minTop * 8 + l
    else
      var t := FindLowestSetBitAfter(top, minTop + 1);
      if t == NO_SPACE then NO_SPACE else t * 8 + LowestSetBit(leaf[t])
  }

  // The search returns the lowest non-empty bin at or above the minimal one, if any.
  lemma SearchBinLowest(top: Word, leaf: seq<Word>, B: seq<seq<nat>>, minBin: nat)
    requires BitsOk(top, leaf, B) && minBin < NUM_LEAF_BINS
    ensures var b := SearchBin(top, leaf, minBin);
            && (b == NO_SPACE <==> forall c | minBin <= c < NUM_LEAF_BINS :: B[c] == [])
            && (b != NO_SPACE ==> minBin <= b < NUM_LEAF_BINS && B[b] != [] && forall c | minBin <= c < b :: B[c] == [])
  {
    hide FindLowestSetBitAfter, LowestSetBit;
    var b := SearchBin(top, leaf, minBin);
    assert b != NO_SPACE ==> minBin <= b < NUM_LEAF_BINS && leaf[b / 8][b % 8];
    forall c | minBin <= c < NUM_LEAF_BINS && (b == NO_SPACE || c < b) ensures B[c] == [] {
      SearchSkips(top, leaf, minBin, c);
      BitsAt(top, leaf, B, c);
    }
    if b != NO_SPACE { BitsAt(top, leaf, B, b); }
  }

  lemma SearchSkips(top: Word, leaf: seq<Word>, minBin: nat, c: nat)
    requires |top| == |leaf| == NUM_TOP_BINS && minBin <= c < NUM_LEAF_BINS
    requires forall t | 0 <= t < NUM_TOP_BINS :: |leaf[t]| == BINS_PER_LEAF && (top[t] <==> !IsZero(leaf[t]))
    requires SearchBin(top, leaf, minBin) == NO_SPACE || c < SearchBin(top, leaf, minBin)
    ensures !leaf[c / 8][c % 8]
  {
    hide FindLowestSetBitAfter, LowestSetBit;
  }

  // The head of a non-empty bin.
  lemma HeadOf(a: Arrays, B: seq<seq<nat>>, live: set<nat>, F: set<nat>, b: nat)
    requires CoreOk(a, B, live, F) && b < NUM_LEAF_BINS && |B| == NUM_LEAF_BINS && B[b] != []
    ensures |a.heads| == NUM_LEAF_BINS
    ensures var i := a.heads[b];
            && i == B[b][0] && i in F && i in live && i < |a.nodes| && RoundDown(a.nodes[i].dataSize) == b
            && Widths(a) && Index(a, a.nodes[i].binListPrev) && Index(a, a.nodes[i].binListNext)
  {
    hide RoundDown;
    assert ListOk(a.nodes, B[b], a.heads[b]);
    LinksAt(a, B, F, b, 0);
  }

  // Popping the head of bin b as a used node of the given size.
  ghost function Taken(a: Arrays, b: nat, need: uint32): Arrays
    requires Widths(a) && b < NUM_LEAF_BINS && a.heads[b] < |a.nodes|
    requires Index(a, a.nodes[a.heads[b]].binListPrev) && Index(a, a.nodes[a.heads[b]].binListNext)
  {
    var i := a.heads[b];
    var a' := Unlinked(a, b, i);
    a'.(nodes := a'.nodes[i := a'.nodes[i].(dataSize := need, used := true)])
  }

  lemma TakenKeeps(a: Arrays, B: seq<seq<nat>>, live: set<nat>, F: set<nat>, b: nat, need: uint32)
    requires CoreOk(a, B, live, F) && b < NUM_LEAF_BINS && |B| == NUM_LEAF_BINS && B[b] != []
    requires Widths(a) && a.heads[b] < |a.nodes|
    requires Index(a, a.nodes[a.heads[b]].binListPrev) && Index(a, a.nodes[a.heads[b]].binListNext)
    ensures var i, a1 := a.heads[b], Taken(a, b, need);
      && CoreOk(a1, B[b := Without(B[b], 0)], live, F - {i})
      && |a1.nodes| == |a.nodes| && SameTile(a.nodes[i].(dataSize := need, used := true), a1.nodes[i])
      && forall j | 0 <= j < |a1.nodes| && j != i :: TileKept(a.nodes, a1.nodes, j)
  {
    hide CoreOk, RoundDown, Without;
    var i, a1 := a.heads[b], Taken(a, b, need);
    HeadOf(a, B, live, F, b);
    UnlinkedKeeps(a, B, live, F, b, 0, a1.nodes[i]);
    UnlinkedTiles(a, b, i);
    hide Unlinked;
    var N1 := Unlinked(a, b, i).nodes;
    assert TileKept(a.nodes, N1, i);
    assert forall j | 0 <= j < |N1| && j != i :: TileKept(a.nodes, N1, j) && a1.nodes[j] == N1[j];
  }

  // ---- what allocate and free leave in the neighbour chain ----

  ghost function Relinked(N: seq<Node>, i: nat, n: nat, next: nat): seq<Node>
    requires i < |N| && n < |N| && (next != UNUSED ==> next < |N|)
  {
    WithNeighborNext(WithNeighborNext(WithNeighborPrev(WithNeighborPrev(N, next, n), n, i), n, next), i, n)
  }

  // Node n holds a free tile and sits between i and i's old successor; nothing else changed.
  ghost predicate LinkedBehind(N0: seq<Node>, N1: seq<Node>, i: nat, n: nat, off: uint32, size: uint32) {
    && i < |N0| == |N1| && n < |N0| && n != i
    && var next := N0[i].neighborNext;
      && SameTile(N0[i].(neighborNext := n), N1[i])
      && SameTile(Node(off, size, UNUSED, UNUSED, i, next, false), N1[n])
      && (next != UNUSED ==> next < |N0| && SameTile(N0[next].(neighborPrev := n), N1[next]))
      && (forall j | 0 <= j < |N0| && j != i && j != n && j != next :: TileKept(N0, N1, j))
  }

  lemma RelinkedTiles(N0: seq<Node>, N1: seq<Node>, i: nat, n: nat, off: uint32, size: uint32)
    requires i < |N0| == |N1| <= UNUSED && n < |N0| && n != i
    requires forall j | 0 <= j < |N0| && j != n :: TileKept(N0, N1, j)
    requires SameTile(Node(off, size, UNUSED, UNUSED, UNUSED, UNUSED, false), N1[n])
    requires var next := N0[i].neighborNext; next != UNUSED ==> next < |N0| && next != i && next != n
    ensures LinkedBehind(N0, Relinked(N1, i, n, N0[i].neighborNext), i, n, off, size)
  {
    var next := N0[i].neighborNext;
    var N2 := Relinked(N1, i, n, next);
    assert TileKept(N0, N1, i);
    assert next != UNUSED ==> TileKept(N0, N1, next);
    forall j | 0 <= j < |N0| && j != i && j != n && j != next ensures TileKept(N0, N2, j) {
      assert TileKept(N0, N1, j) && N2[j] == N1[j];
    }
  }

  // Splitting tile k with no remainder: only its node becomes used.
  lemma ChainWhole(N0: seq<Node>, N1: seq<Node>, T: seq<Tile>, k: nat, n: nat)
    requires Chained(N0, T) && DistinctNodes(T) && k < |T| && |N0| == |N1|
    requires T[k].node < |N0| && SameTile(N0[T[k].node].(used := true), N1[T[k].node])
    requires forall j | 0 <= j < |N0| && j != T[k].node :: TileKept(N0, N1, j)
    ensures Chained(N1, Split(T, k, T[k].size, n))
  {
    var S := Split(T, k, T[k].size, n);
    assert S == T[k := T[k].(used := true)];
    forall q | 0 <= q < |S| ensures NodeIs(N1, S, q) {
      assert NodeIs(N0, T, q);
      assert q != k ==> TileKept(N0, N1, T[q].node);
    }
  }

  // Shrinking the tile of node k to its head, then linking the rest behind it.
  lemma ChainCut(N0: seq<Node>, N1: seq<Node>, N2: seq<Node>, T: seq<Tile>, k: nat, need: uint32, n: nat)
    requires Chained(N0, T) && DistinctNodes(T) && k < |T| && need < T[k].size && |N0| == |N1|
    requires T[k].offset + need < UINT32 && T[k].size < UINT32
    requires T[k].node < |N0| && SameTile(N0[T[k].node].(dataSize := need, used := true), N1[T[k].node])
    requires forall j | 0 <= j < |N0| && j != T[k].node :: TileKept(N0, N1, j)
    requires n !in Nodes(T) && LinkedBehind(N1, N2, T[k].node, n, T[k].offset + need, T[k].size - need)
    requires forall q | 0 <= q < |T| :: T[q].node < UNUSED
    ensures Chained(N2, Split(T, k, need, n))
  {
    var M := CutTile(T[k], need, n);
    assert NodeIs(N0, T, k);
    CutOthers(N0, N1, N2, T, k, n, M[1].offset as uint32, M[1].size as uint32);
    CutEnds(N0, N2, T, k, M, n);
    assert k > 0 ==> NodeIs(N0, T, k - 1) && TileKept(N0, N2, T[k - 1].node);
    assert k + 1 < |T| ==> NodeIs(N0, T, k + 1);
    hide LinkedBehind, Chained, Splice;
    ChainedSplice(N0, N2, T, k, k + 1, M);
  }

  lemma CutOthers(N0: seq<Node>, N1: seq<Node>, N2: seq<Node>, T: seq<Tile>, k: nat, n: nat, off: uint32, size: uint32)
    requires Chained(N0, T) && DistinctNodes(T) && k < |T| && |N0| == |N1| && n !in Nodes(T)
    requires forall q | 0 <= q < |T| :: T[q].node < UNUSED
    requires forall j | 0 <= j < |N0| && j != T[k].node :: TileKept(N0, N1, j)
    requires T[k].node < |N0| && N1[T[k].node].neighborNext == N0[T[k].node].neighborNext
    requires LinkedBehind(N1, N2, T[k].node, n, off, size)
    ensures forall q | 0 <= q < |T| && q != k && q != k + 1 :: TileKept(N0, N2, T[q].node)
    ensures k + 1 < |T| ==> T[k + 1].node < |N0| && SameTile(N0[T[k + 1].node].(neighborPrev := n), N2[T[k + 1].node])
  {
    assert NodeIs(N0, T, k);
    forall q | 0 <= q < |T| && q != k
      ensures T[q].node < |N0|
      ensures q != k + 1 ==> TileKept(N0, N2, T[q].node)
      ensures q == k + 1 ==> SameTile(N0[T[q].node].(neighborPrev := n), N2[T[q].node])
    {
      assert NodeIs(N0, T, q);
      assert T[q].node in Nodes(T);
      assert TileKept(N0, N1, T[q].node);
      assert q != k + 1 ==> TileKept(N1, N2, T[q].node);
    }
  }

  lemma CutEnds(N0: seq<Node>, N2: seq<Node>, T: seq<Tile>, k: nat, M: seq<Tile>, n: nat)
    requires k < |T| && NodeIs(N0, T, k) && |N0| == |N2| && |M| == 2 && M[0].node == T[k].node && M[1].node == n < |N2|
    requires M[0].size < UINT32 && M[1].offset < UINT32 && M[1].size < UINT32 && M[0].offset == T[k].offset &&
      M[0].used && !M[1].used
    requires SameTile(N0[T[k].node].(dataSize := M[0].size, used := true, neighborNext := n), N2[T[k].node])
    requires SameTile(Node(M[1].offset, M[1].size, UNUSED, UNUSED, T[k].node, N0[T[k].node].neighborNext, false), N2[n])
    ensures NodeIs(N2, Splice(T, k, k + 1, M), k) && NodeIs(N2, Splice(T, k, k + 1, M), k + 1)
  {
    var S := Splice(T, k, k + 1, M);
    SpliceIndex(T, k, k + 1, M);
    assert S[k] == M[0] && S[k + 1] == M[1];
    assert k > 0 ==> S[k - 1] == T[k - 1];
    assert k + 2 < |S| ==> S[k + 2] == T[k + 1];
    assert NodeIs(N2, S, k) && NodeIs(N2, S, k + 1);
  }

  // The chain is the tiling, and the live nodes, free nodes and free bytes are its own.
  ghost predicate TilesOk(N: seq<Node>, T: seq<Tile>, size: nat, live: set<nat>, F: set<nat>, freeStorage: int) {
    && Wf(T, size) && Chained(N, T)
    && live == Nodes(T) && F == FreeNodes(T) && freeStorage == FreeBytes(T)
    && forall q | 0 <= q < |T| :: T[q].node < UNUSED
  }

  lemma WholeKeeps(
    N0: seq<Node>, N1: seq<Node>, T: seq<Tile>, size: nat, live: set<nat>, F: set<nat>, fs: nat, k: nat, n: nat)
    requires TilesOk(N0, T, size, live, F, fs) && k < |T| && !T[k].used && n !in live && |N0| == |N1|
    requires T[k].node < |N0| && SameTile(N0[T[k].node].(used := true), N1[T[k].node])
    requires forall j | 0 <= j < |N0| && j != T[k].node :: TileKept(N0, N1, j)
    ensures TilesOk(N1, Split(T, k, T[k].size, n), size, live, F - {T[k].node}, fs - T[k].size)
  {
    hide Chained, Contiguous, Coalesced, DistinctNodes, FreeBytes, TileKept, SameTile;
    assert Chained(N1, Split(T, k, T[k].size, n)) by { ChainWhole(N0, N1, T, k, n); }
    SplitKeeps(T, size, k, T[k].size, n);
    SplitNodes(T, k, T[k].size, n);
  }

  lemma CutKeeps(
    N0: seq<Node>, N1: seq<Node>, N2: seq<Node>, T: seq<Tile>, size: nat, live: set<nat>, F: set<nat>, fs: nat,
    k: nat, need: uint32, n: nat)
    requires TilesOk(N0, T, size, live, F, fs) && k < |T| && !T[k].used && need < T[k].size && n !in live &&
      n < UNUSED && |N0| == |N1|
    requires T[k].offset + need < UINT32 && T[k].size < UINT32
    requires T[k].node < |N0| && SameTile(N0[T[k].node].(dataSize := need, used := true), N1[T[k].node])
    requires forall j | 0 <= j < |N0| && j != T[k].node :: TileKept(N0, N1, j)
    requires LinkedBehind(N1, N2, T[k].node, n, T[k].offset + need, T[k].size - need)
    ensures TilesOk(N2, Split(T, k, need, n), size, live + {n}, F - {T[k].node} + {n}, fs - need)
  {
    hide Chained, Contiguous, Coalesced, DistinctNodes, FreeBytes, TileKept, SameTile, LinkedBehind;
    assert Chained(N2, Split(T, k, need, n)) by { ChainCut(N0, N1, N2, T, k, need, n); }
    SplitKeeps(T, size, k, need, n);
    SplitNodes(T, k, need, n);
  }

  lemma SplitNodes(T: seq<Tile>, k: nat, need: nat, n: nat)
    requires DistinctNodes(T) && k < |T| && !T[k].used && need <= T[k].size
    ensures var S, rest := Split(T, k, need, n), if need == T[k].size then {} else {n};
      && Nodes(S) == Nodes(T) + rest
      && FreeNodes(S) == FreeNodes(T) - {T[k].node} + rest
      && forall q | 0 <= q < |S| :: (S[q].node == n && rest != {}) || S[q].node in Nodes(T)
  {
    var M := CutTile(T[k], need, n);
    SpliceNodes(T, k, k + 1, M);
    assert T[k] == T[k..k + 1][0];
    assert Nodes(T[k..k + 1]) == {T[k].node} && FreeNodes(T[k..k + 1]) == {T[k].node};
    assert T[k].node in Nodes(T);
    var S := Split(T, k, need, n);
    assert M[0].node == T[k].node;
    assert |M| == 2 ==> M[1].node == n;
    assert Nodes(M) == {T[k].node} + (if need == T[k].size then {} else {n});
    assert FreeNodes(M) == if need == T[k].size then {} else {n};
    assert forall q | 0 <= q < |S| :: S[q].node in Nodes(S);
  }

  lemma SuccessorLive(N: seq<Node>, T: seq<Tile>, k: nat)
    requires Chained(N, T) && DistinctNodes(T) && k < |T|
    ensures T[k].node < |N| && T[k].node in Nodes(T)
    ensures var next := N[T[k].node].neighborNext; next == UNUSED || (next in Nodes(T) && next != T[k].node)
    ensures var prev := N[T[k].node].neighborPrev; prev == UNUSED || (prev in Nodes(T) && prev != T[k].node)
  {
    assert NodeIs(N, T, k);
    assert k + 1 < |T| ==> T[k + 1].node in Nodes(T);
    assert k > 0 ==> T[k - 1].node in Nodes(T);
  }

  lemma TileFields(a: Node, b: Node)
    requires SameTile(a, b)
    ensures b.dataOffset == a.dataOffset && b.dataSize == a.dataSize && b.used == a.used
    ensures b.neighborPrev == a.neighborPrev && b.neighborNext == a.neighborNext
  {}

  // The node at the head of a bin, as the free tile it is.
  lemma HeadTile(
    a: Arrays, B: seq<seq<nat>>, T: seq<Tile>, size: uint32, live: set<nat>, F: set<nat>, fs: int, b: nat, k: nat)
    requires CoreOk(a, B, live, F) && TilesOk(a.nodes, T, size, live, F, fs)
    requires b < NUM_LEAF_BINS && |B| == NUM_LEAF_BINS && B[b] != [] && k < |T| && T[k].node == B[b][0] && !T[k].used
    ensures |a.heads| == NUM_LEAF_BINS && a.heads[b] == B[b][0] < |a.nodes|
    ensures T[k].node in live && live == Nodes(T) && |a.nodes| <= UNUSED && UNUSED !in live
    ensures var n := a.nodes[T[k].node];
      && n.dataSize == T[k].size <= fs <= size && n.dataOffset == T[k].offset && n.dataOffset + n.dataSize <= size
      && (n.neighborNext == UNUSED || (n.neighborNext in live && n.neighborNext != T[k].node))
  {
    hide RoundDown;
    HeadOf(a, B, live, F, b);
    TileBounds(T, size, k);
    SuccessorLive(a.nodes, T, k);
    assert NodeIs(a.nodes, T, k);
  }
}
