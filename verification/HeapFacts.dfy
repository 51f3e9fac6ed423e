/**
 Bins against tiles: when a request fits and which tile it gets, what free does to
 the arrays, and what the storage reports mean.
 */
module HeapFacts {
  import opened SmallFloat
  import opened Bits
  import opened Tiling
  import opened BinLists
  import opened HeapArrays

  // ---- bins and tiles: when a request fits, and which tile it gets ----

  // Some free tile is in bin minBin or above.
  ghost predicate Fits(T: seq<Tile>, minBin: nat) {
    exists q :: 0 <= q < |T| && !T[q].used && minBin <= RoundDown(T[q].size)
  }

  // The search of allocate finds a tile for a request.
  ghost predicate Meets(T: seq<Tile>, request: uint32) {
    Fits(T, RoundUp(request))
  }

  // Tile k is free, in bin minBin or above, and no such tile is in a lower bin.
  ghost predicate BestFit(T: seq<Tile>, minBin: nat, k: nat) {
    && k < |T| && !T[k].used && minBin <= RoundDown(T[k].size)
    && forall q | 0 <= q < |T| && !T[q].used && minBin <= RoundDown(T[q].size) ::
      RoundDown(T[k].size) <= RoundDown(T[q].size)
  }

  // A block freed can be requested again at the size it was requested with.
  lemma FreedRefits(T: seq<Tile>, size: uint32, k: nat, request: uint32)
    requires Wf(T, size) && k < |T| && T[k].used && request <= MAX_BIN_SIZE &&
      T[k].size == FloatToUint(RoundUp(request))
    ensures Fits(Release(T, k), RoundUp(request))
  {
    ReleaseBounds(T, size, k);
    var i := MergeFrom(T, k);
    SpliceIndex(T, i, MergeTo(T, k), [Merged(T, k)]);
    assert Release(T, k)[i] == Merged(T, k);
    hide RoundUp, RoundDown, FloatToUint, Merged, Release, Wf;
    BinRange(request);
    GaloisDown(Merged(T, k).size, RoundUp(request));
  }

  lemma FreeTileBinned(a: Arrays, B: seq<seq<nat>>, T: seq<Tile>, live: set<nat>, F: set<nat>, q: nat)
    requires CoreOk(a, B, live, F) && Chained(a.nodes, T) && F == FreeNodes(T) && q < |T| && !T[q].used
    ensures RoundDown(T[q].size) < NUM_LEAF_BINS == |B| && B[RoundDown(T[q].size)] != []
  {
    hide RoundDown;
    assert NodeIs(a.nodes, T, q);
    assert T[q].node in FreeNodes(T);
  }

  lemma NoFit(a: Arrays, B: seq<seq<nat>>, T: seq<Tile>, live: set<nat>, F: set<nat>, minBin: nat)
    requires CoreOk(a, B, live, F) && Chained(a.nodes, T) && F == FreeNodes(T) && |B| == NUM_LEAF_BINS
    requires forall c | minBin <= c < NUM_LEAF_BINS :: B[c] == []
    ensures !Fits(T, minBin)
  {
    hide RoundDown, CoreOk;
    if Fits(T, minBin) {
      var q :| 0 <= q < |T| && !T[q].used && minBin <= RoundDown(T[q].size);
      FreeTileBinned(a, B, T, live, F, q);
      assert false;
    }
  }

  lemma LowestBinFits(a: Arrays, B: seq<seq<nat>>, T: seq<Tile>, live: set<nat>, F: set<nat>, minBin: nat, b: nat)
    returns (k: nat)
    requires CoreOk(a, B, live, F) && Chained(a.nodes, T) && F == FreeNodes(T) && DistinctNodes(T) &&
      |B| == NUM_LEAF_BINS
    requires minBin <= b < NUM_LEAF_BINS && B[b] != [] && forall c | minBin <= c < b :: B[c] == []
    ensures BestFit(T, minBin, k) && T[k].node == B[b][0] && RoundDown(T[k].size) == b
    ensures Fits(T, minBin)
  {
    hide RoundDown, CoreOk;
    HeadOf(a, B, live, F, b);
    k :| 0 <= k < |T| && !T[k].used && T[k].node == B[b][0];
    assert NodeIs(a.nodes, T, k);
    forall q | 0 <= q < |T| && !T[q].used && minBin <= RoundDown(T[q].size) ensures b <= RoundDown(T[q].size) {
      FreeTileBinned(a, B, T, live, F, q);
    }
  }

  // ---- free ----

  // Only node i changed, and only in its neighbour links.
  ghost predicate Detached(N0: seq<Node>, N1: seq<Node>, i: nat, prev: nat, next: nat) {
    && i < |N0| == |N1|
    && SameTile(N0[i].(neighborPrev := prev, neighborNext := next), N1[i])
    && forall j | 0 <= j < |N0| && j != i :: TileKept(N0, N1, j)
  }

  // Node i is a free tile between prev and next, which point back at it.
  ghost predicate Bridged(N0: seq<Node>, N1: seq<Node>, i: nat, prev: nat, next: nat, off: uint32, size: uint32) {
    && i < |N0| == |N1|
    && SameTile(Node(off, size, UNUSED, UNUSED, prev, next, false), N1[i])
    && (prev != UNUSED ==> prev < |N0| && SameTile(N0[prev].(neighborNext := i), N1[prev]))
    && (next != UNUSED ==> next < |N0| && SameTile(N0[next].(neighborPrev := i), N1[next]))
    && forall j | 0 <= j < |N0| && j != i && j != prev && j != next :: TileKept(N0, N1, j)
  }

  ghost function NodeBefore(T: seq<Tile>, k: nat): nat
    requires k <= |T|
  {
    if k == 0 then UNUSED else T[k - 1].node
  }

  ghost function NodeFrom(T: seq<Tile>, k: nat): nat
    requires k <= |T|
  {
    if k == |T| then UNUSED else T[k].node
  }

  lemma BridgedChain(N0: seq<Node>, N1: seq<Node>, T: seq<Tile>, k: nat, off: uint32, size: uint32)
    requires Chained(N0, T) && DistinctNodes(T) && k < |T|
    requires Merged(T, k) == Tile(T[k].node, off, size, false)
    requires Bridged(N0, N1, T[k].node, NodeBefore(T, MergeFrom(T, k)), NodeFrom(T, MergeTo(T, k)), off, size)
    requires forall q | 0 <= q < |T| :: T[q].node < UNUSED
    ensures Chained(N1, Release(T, k))
  {
    var i, j, M := MergeFrom(T, k), MergeTo(T, k), [Merged(T, k)];
    forall q | 0 <= q < |T| && q != i - 1 && q != j && !(i <= q < j) ensures TileKept(N0, N1, T[q].node) {
      assert NodeIs(N0, T, q);
    }
    assert i > 0 ==> NodeIs(N0, T, i - 1);
    assert j < |T| ==> NodeIs(N0, T, j);
    MergedNode(N0, N1, T, k, off, size);
    hide Chained, Splice, Bridged, Merged;
    ChainedSplice(N0, N1, T, i, j, M);
  }

  lemma MergedNode(N0: seq<Node>, N1: seq<Node>, T: seq<Tile>, k: nat, off: uint32, size: uint32)
    requires k < |T| && Merged(T, k) == Tile(T[k].node, off, size, false)
    requires Bridged(N0, N1, T[k].node, NodeBefore(T, MergeFrom(T, k)), NodeFrom(T, MergeTo(T, k)), off, size)
    ensures NodeIs(N1, Release(T, k), MergeFrom(T, k))
  {
    var i, j, M := MergeFrom(T, k), MergeTo(T, k), [Merged(T, k)];
    var S := Splice(T, i, j, M);
    hide Merged;
    SpliceIndex(T, i, j, M);
    assert S[i] == M[0];
    assert i > 0 ==> S[i - 1] == T[i - 1];
    assert i + 1 < |S| ==> S[i + 1] == T[j];
  }

  // The free neighbours of tile k: at most one on each side.
  ghost function PrevFree(T: seq<Tile>, k: nat): set<nat>
    requires k < |T|
  {
    if MergeFrom(T, k) < k then {T[k - 1].node} else {}
  }

  ghost function NextFree(T: seq<Tile>, k: nat): set<nat>
    requires k < |T|
  {
    if k + 1 < MergeTo(T, k) then {T[k + 1].node} else {}
  }

  ghost function PrevGain(T: seq<Tile>, k: nat): nat
    requires k < |T|
  {
    if MergeFrom(T, k) < k then T[k - 1].size else 0
  }

  ghost function NextGain(T: seq<Tile>, k: nat): nat
    requires k < |T|
  {
    if k + 1 < MergeTo(T, k) then T[k + 1].size else 0
  }

  lemma ReleaseNodes(T: seq<Tile>, k: nat)
    requires DistinctNodes(T) && k < |T| && T[k].used
    ensures Nodes(Release(T, k)) == Nodes(T) - PrevFree(T, k) - NextFree(T, k)
    ensures FreeNodes(Release(T, k)) == FreeNodes(T) - PrevFree(T, k) - NextFree(T, k) + {T[k].node}
    ensures forall q | 0 <= q < |Release(T, k)| :: Release(T, k)[q].node in Nodes(T)
  {
    var i, j, m := MergeFrom(T, k), MergeTo(T, k), Merged(T, k);
    SpliceNodes(T, i, j, [m]);
    var R := T[i..j];
    assert R[k - i] == T[k];
    assert i < k ==> R[0] == T[k - 1];
    assert k + 1 < j ==> R[k + 1 - i] == T[k + 1];
    assert Nodes(R) == PrevFree(T, k) + NextFree(T, k) + {T[k].node} by { RunNodes(T, k); }
    assert FreeNodes(R) == PrevFree(T, k) + NextFree(T, k) by { RunNodes(T, k); }
    assert [m][0] == m;
    assert Nodes([m]) == FreeNodes([m]) == {T[k].node};
    assert T[k].node in Nodes(T);
    var S := Release(T, k);
    assert forall q | 0 <= q < |S| :: S[q].node in Nodes(S);
  }

  lemma RunNodes(T: seq<Tile>, k: nat)
    requires k < |T| && T[k].used
    ensures Nodes(T[MergeFrom(T, k)..MergeTo(T, k)]) == PrevFree(T, k) + NextFree(T, k) + {T[k].node}
    ensures FreeNodes(T[MergeFrom(T, k)..MergeTo(T, k)]) == PrevFree(T, k) + NextFree(T, k)
  {
    var i, j := MergeFrom(T, k), MergeTo(T, k);
    var R := T[i..j];
    assert R[k - i] == T[k];
    assert i < k ==> R[0] == T[k - 1];
    assert k + 1 < j ==> R[k + 1 - i] == T[k + 1];
    assert forall q | 0 <= q < |R| :: R[q] == T[k] || (i < k && R[q] == T[k - 1]) || (k + 1 < j && R[q] == T[k + 1]);
  }

  lemma ReleaseKept(
    N0: seq<Node>, N1: seq<Node>, T: seq<Tile>, size: nat, live: set<nat>, F: set<nat>, fs: int, k: nat, off: uint32,
    total: uint32, live': set<nat>, F': set<nat>, fs': int)
    requires TilesOk(N0, T, size, live, F, fs) && k < |T| && T[k].used
    requires Merged(T, k) == Tile(T[k].node, off, total, false)
    requires Bridged(N0, N1, T[k].node, NodeBefore(T, MergeFrom(T, k)), NodeFrom(T, MergeTo(T, k)), off, total)
    requires live' == live - PrevFree(T, k) - NextFree(T, k)
    requires F' == F - PrevFree(T, k) - NextFree(T, k) + {T[k].node} && fs' == fs + T[k].size
    ensures TilesOk(N1, Release(T, k), size, live', F', fs')
  {
    hide Chained, Contiguous, Coalesced, DistinctNodes, FreeBytes, TileKept, SameTile, Bridged, Merged, Release,
      Splice, PrevFree, NextFree;
    assert Chained(N1, Release(T, k)) by { BridgedChain(N0, N1, T, k, off, total); }
    ReleaseKeeps(T, size, k);
    ReleaseNodes(T, k);
  }

  // What free reads through the neighbour links of tile k.
  lemma NeighborFacts(N: seq<Node>, T: seq<Tile>, size: uint32, live: set<nat>, F: set<nat>, fs: int, k: nat)
    requires TilesOk(N, T, size, live, F, fs) && k < |T| && T[k].used && |N| <= UNUSED
    ensures T[k].node < |N| && T[k].node in live && T[k].node !in F && 0 <= fs && fs + T[k].size <= size
    ensures var n := N[T[k].node];
      && n.dataOffset == T[k].offset && n.dataSize == T[k].size && n.used
      && n.neighborPrev == NodeBefore(T, k) && n.neighborNext == NodeFrom(T, k + 1)
    ensures k > 0 ==> var p := T[k - 1].node;
      && p < |N| && p != T[k].node && N[p].dataOffset == T[k - 1].offset && N[p].dataSize == T[k - 1].size
      && N[p].used == T[k - 1].used && N[p].neighborPrev == NodeBefore(T, k - 1) &&
        (!T[k - 1].used ==> p in F && T[k - 1].size <= fs)
    ensures k + 1 < |T| ==> var p := T[k + 1].node;
      && p < |N| && p != T[k].node && N[p].dataSize == T[k + 1].size
      && N[p].used == T[k + 1].used && N[p].neighborNext == NodeFrom(T, k + 2) &&
        (!T[k + 1].used ==> p in F && T[k + 1].size <= fs)
    ensures 0 < k && k + 1 < |T| ==>
      T[k - 1].node != T[k + 1].node && (!T[k - 1].used && !T[k + 1].used ==> T[k - 1].size + T[k + 1].size <= fs)
    ensures var m := Merged(T, k);
      && m.node == T[k].node && !m.used && m.offset == T[MergeFrom(T, k)].offset && m.size <= size && m.offset <= size
      && m.size == T[k].size + PrevGain(T, k) + NextGain(T, k)
  {
    assert NodeIs(N, T, k);
    assert k > 0 ==> NodeIs(N, T, k - 1);
    assert k + 1 < |T| ==> NodeIs(N, T, k + 1);
    assert T[k].node in Nodes(T);
    assert k > 0 && !T[k - 1].used ==> T[k - 1].node in FreeNodes(T);
    assert k + 1 < |T| && !T[k + 1].used ==> T[k + 1].node in FreeNodes(T);
    ReleaseBounds(T, size, k);
  }

  lemma ReleaseBounds(T: seq<Tile>, size: nat, k: nat)
    requires Wf(T, size) && k < |T| && T[k].used
    ensures FreeBytes(T) + T[k].size <= size
    ensures k > 0 && !T[k - 1].used ==> T[k - 1].size <= FreeBytes(T)
    ensures k + 1 < |T| && !T[k + 1].used ==> T[k + 1].size <= FreeBytes(T)
    ensures 0 < k && k + 1 < |T| && !T[k - 1].used && !T[k + 1].used ==> T[k - 1].size + T[k + 1].size <= FreeBytes(T)
    ensures Merged(T, k).size <= size && Merged(T, k).offset <= size
    ensures Merged(T, k).size == T[k].size + PrevGain(T, k) + NextGain(T, k)
  {
    var i, j := MergeFrom(T, k), MergeTo(T, k);
    ReleaseKeeps(T, size, k);
    var S := Release(T, k);
    SpliceIndex(T, i, j, [Merged(T, k)]);
    assert S[i] == Merged(T, k);
    TileBounds(S, size, i);
    RunSizes(T, k);
    hide Splice, Merged, FreeBytes, Contiguous, Coalesced, DistinctNodes;
  }

  lemma RunSizes(T: seq<Tile>, k: nat)
    requires k < |T|
    ensures Merged(T, k).size == T[k].size + PrevGain(T, k) + NextGain(T, k)
  {
    var i, j := MergeFrom(T, k), MergeTo(T, k);
    var R := T[i..j];
    SizeOfShort(R);
    assert R[k - i] == T[k];
    assert i < k ==> R[0] == T[k - 1];
    assert k + 1 < j ==> R[k + 1 - i] == T[k + 1];
  }

  lemma DetachedSelf(N: seq<Node>, i: nat)
    requires i < |N|
    ensures Detached(N, N, i, N[i].neighborPrev, N[i].neighborNext)
  {}

  lemma DetachedPrev(N0: seq<Node>, N1: seq<Node>, i: nat, v: nat)
    requires i < |N0| == |N1| <= UNUSED && forall j | 0 <= j < |N0| :: TileKept(N0, N1, j)
    ensures Detached(N0, WithNeighborPrev(N1, i, v), i, v, N0[i].neighborNext)
  {
    var N2 := WithNeighborPrev(N1, i, v);
    assert TileKept(N0, N1, i);
    assert forall j | 0 <= j < |N0| && j != i :: TileKept(N0, N1, j) && N2[j] == N1[j];
  }

  lemma DetachedNext(N0: seq<Node>, N1: seq<Node>, N2: seq<Node>, i: nat, prev: nat, next: nat, v: nat)
    requires Detached(N0, N1, i, prev, next) && |N1| == |N2| <= UNUSED && forall j | 0 <= j < |N1| ::
      TileKept(N1, N2, j)
    ensures Detached(N0, WithNeighborNext(N2, i, v), i, prev, v)
  {
    var N3 := WithNeighborNext(N2, i, v);
    assert TileKept(N1, N2, i);
    forall j | 0 <= j < |N0| && j != i ensures TileKept(N0, N3, j) {
      assert TileKept(N0, N1, j) && TileKept(N1, N2, j) && N3[j] == N2[j];
    }
  }

  // What free reads on the right of tile k once the left side is absorbed.
  lemma NextFacts(
    N0: seq<Node>, N1: seq<Node>, T: seq<Tile>, size: uint32, live: set<nat>, F: set<nat>, fs: int, k: nat, prev: nat)
    requires TilesOk(N0, T, size, live, F, fs) && k < |T| && T[k].used && |N0| <= UNUSED
    requires Detached(N0, N1, T[k].node, prev, NodeFrom(T, k + 1))
    ensures T[k].node < |N1| && N1[T[k].node].neighborNext == NodeFrom(T, k + 1)
    ensures k + 1 == |T| ==> NodeFrom(T, k + 1) == UNUSED
    ensures k + 1 < |T| ==> var p := T[k + 1].node;
      && p < |N1| && p != UNUSED && N1[p].used == T[k + 1].used && N1[p].dataSize == T[k + 1].size &&
        N1[p].neighborNext == NodeFrom(T, k + 2)
      && (!T[k + 1].used ==> p in F - PrevFree(T, k) && T[k + 1].size <= fs - PrevGain(T, k))
  {
    hide TilesOk;
    NeighborFacts(N0, T, size, live, F, fs, k);
    assert k + 1 < |T| ==> TileKept(N0, N1, T[k + 1].node);
  }

  ghost function Bridge(N: seq<Node>, i: nat, prev: nat, next: nat): seq<Node>
    requires i < |N| && (prev != UNUSED ==> prev < |N|) && (next != UNUSED ==> next < |N|)
  {
    var N' := if next == UNUSED then N else WithNeighborPrev(WithNeighborNext(N, i, next), next, i);
    if prev == UNUSED then N' else WithNeighborNext(WithNeighborPrev(N', i, prev), prev, i)
  }

  // Linking node i, now a free tile, between prev and next.
  lemma BridgedBy(N0: seq<Node>, N1: seq<Node>, N2: seq<Node>, i: nat, prev: nat, next: nat, off: uint32, size: uint32)
    requires Detached(N0, N1, i, prev, next) && |N1| == |N2| <= UNUSED
    requires forall j | 0 <= j < |N1| && j != i :: TileKept(N1, N2, j)
    requires SameTile(Node(off, size, UNUSED, UNUSED, UNUSED, UNUSED, false), N2[i])
    requires prev == UNUSED || (prev < |N0| && prev != i)
    requires next == UNUSED || (next < |N0| && next != i)
    requires prev != UNUSED ==> prev != next
    ensures Bridged(N0, Bridge(N2, i, prev, next), i, prev, next, off, size)
  {
    var N4 := Bridge(N2, i, prev, next);
    assert prev != UNUSED ==> TileKept(N0, N1, prev) && TileKept(N1, N2, prev);
    assert next != UNUSED ==> TileKept(N0, N1, next) && TileKept(N1, N2, next);
    forall j | 0 <= j < |N0| && j != i && j != prev && j != next ensures TileKept(N0, N4, j) {
      assert TileKept(N0, N1, j) && TileKept(N1, N2, j) && N4[j] == N2[j];
    }
  }

  lemma OuterNeighbors(N: seq<Node>, T: seq<Tile>, k: nat)
    requires Chained(N, T) && DistinctNodes(T) && k < |T| && forall q | 0 <= q < |T| :: T[q].node < UNUSED
    ensures var p, n := NodeBefore(T, MergeFrom(T, k)), NodeFrom(T, MergeTo(T, k));
      && (p == UNUSED || (p < |N| && p != T[k].node)) && (n == UNUSED || (n < |N| && n != T[k].node)) &&
           (p != UNUSED ==> p != n)
  {
    var i, j := MergeFrom(T, k), MergeTo(T, k);
    assert i > 0 ==> NodeIs(N, T, i - 1);
    assert j < |T| ==> NodeIs(N, T, j);
  }

  lemma DetachedLinks(N0: seq<Node>, N1: seq<Node>, i: nat, prev: nat, next: nat)
    requires Detached(N0, N1, i, prev, next)
    ensures N1[i].neighborPrev == prev && N1[i].neighborNext == next
  {}

  lemma FromWithin(T: seq<Tile>, k: nat)
    requires k < |T|
    ensures MergeFrom(T, k) <= k < MergeTo(T, k) <= |T|
  {}

  // Everything free needs to know about tile k before it starts.
  lemma FreeFacts(N: seq<Node>, T: seq<Tile>, size: uint32, live: set<nat>, F: set<nat>, fs: int, k: nat)
    requires TilesOk(N, T, size, live, F, fs) && k < |T| && T[k].used && |N| <= UNUSED
    ensures T[k].node < |N| && T[k].node in live - PrevFree(T, k) - NextFree(T, k) && T[k].node !in F
    ensures 0 <= fs && PrevGain(T, k) + NextGain(T, k) <= fs && fs + T[k].size <= size
    ensures Merged(T, k) ==
      Tile(T[k].node, T[MergeFrom(T, k)].offset, T[k].size + PrevGain(T, k) + NextGain(T, k), false)
    ensures T[k].size + PrevGain(T, k) + NextGain(T, k) <= size
    ensures var p, n := NodeBefore(T, MergeFrom(T, k)), NodeFrom(T, MergeTo(T, k));
      && (p == UNUSED || (p < |N| && p != T[k].node)) && (n == UNUSED || (n < |N| && n != T[k].node)) &&
           (p != UNUSED ==> p != n)
    ensures live - PrevFree(T, k) - NextFree(T, k) - {T[k].node} + {T[k].node} == live - PrevFree(T, k) - NextFree(T, k)
  {
    hide Contiguous, Coalesced, DistinctNodes, Chained, FreeBytes;
    NeighborFacts(N, T, size, live, F, fs, k);
    OuterNeighbors(N, T, k);
  }

  // ---- reports ----

  // The highest non-empty bin bounds exactly the bins a request can ask for.
  lemma HighestBin(a: Arrays, B: seq<seq<nat>>, T: seq<Tile>, live: set<nat>, F: set<nat>, t: nat, l: nat)
    returns (q: nat)
    requires CoreOk(a, B, live, F) && Chained(a.nodes, T) && F == FreeNodes(T) && Widths(a)
    requires t < NUM_TOP_BINS && l < BINS_PER_LEAF && a.top[t] && a.leaf[t][l]
    requires (forall u | t < u < NUM_TOP_BINS :: !a.top[u]) && forall m | l < m < BINS_PER_LEAF :: !a.leaf[t][m]
    ensures q < |T| && !T[q].used && RoundDown(T[q].size) == t * 8 + l && !Fits(T, t * 8 + l + 1)
  {
    hide CoreOk, Chained, Widths, Fits, RoundDown, BitsOk, FreeNodes, IsZero;
    CoreBits(a, B, live, F);
    BitsHighest(a.top, a.leaf, B, t, l);
    q := HeadTileOf(a, B, T, live, F, t * 8 + l);
    NoFit(a, B, T, live, F, t * 8 + l + 1);
  }

  lemma CoreBits(a: Arrays, B: seq<seq<nat>>, live: set<nat>, F: set<nat>)
    requires CoreOk(a, B, live, F)
    ensures BitsOk(a.top, a.leaf, B) && |B| == NUM_LEAF_BINS
  {}

  lemma FitsExactly(T: seq<Tile>, q: nat, b: nat, minBin: nat)
    requires q < |T| && !T[q].used && RoundDown(T[q].size) == b && !Fits(T, b + 1)
    ensures Fits(T, minBin) <==> minBin <= b
  {
    hide RoundDown;
  }

  lemma BitsHighest(top: Word, leaf: seq<Word>, B: seq<seq<nat>>, t: nat, l: nat)
    requires BitsOk(top, leaf, B) && t < NUM_TOP_BINS && l < BINS_PER_LEAF && leaf[t][l]
    requires (forall u | t < u < NUM_TOP_BINS :: !top[u]) && forall m | l < m < BINS_PER_LEAF :: !leaf[t][m]
    ensures B[t * 8 + l] != [] && forall c | t * 8 + l < c < NUM_LEAF_BINS :: B[c] == []
  {
    BitsAt(top, leaf, B, t * 8 + l);
    forall c | t * 8 + l < c < NUM_LEAF_BINS ensures B[c] == [] {
      BitsAt(top, leaf, B, c);
    }
  }

  lemma HeadTileOf(a: Arrays, B: seq<seq<nat>>, T: seq<Tile>, live: set<nat>, F: set<nat>, b: nat) returns (q: nat)
    requires CoreOk(a, B, live, F) && Chained(a.nodes, T) && F == FreeNodes(T) && |B| == NUM_LEAF_BINS &&
      b < NUM_LEAF_BINS && B[b] != []
    ensures q < |T| && !T[q].used && RoundDown(T[q].size) == b
  {
    HeadOf(a, B, live, F, b);
    q :| 0 <= q < |T| && !T[q].used && T[q].node == B[b][0];
    assert NodeIs(a.nodes, T, q);
  }

  lemma NoBin(a: Arrays, B: seq<seq<nat>>, T: seq<Tile>, live: set<nat>, F: set<nat>)
    requires CoreOk(a, B, live, F) && Chained(a.nodes, T) && F == FreeNodes(T) && IsZero(a.top)
    ensures forall minBin: nat :: !Fits(T, minBin)
  {
    hide RoundDown;
    forall c | 0 <= c < NUM_LEAF_BINS ensures B[c] == [] {
      BitsAt(a.top, a.leaf, B, c);
    }
    forall minBin: nat ensures !Fits(T, minBin) {
      NoFit(a, B, T, live, F, minBin);
    }
  }

  // The nodes of the free tiles in bin b.
  ghost function FreeInBin(T: seq<Tile>, b: nat): set<nat> {
    set q | 0 <= q < |T| && !T[q].used && RoundDown(T[q].size) == b :: T[q].node
  }

  lemma {:induction false} DistinctCount(L: seq<nat>, s: set<nat>)
    requires forall i, j | 0 <= i < j < |L| :: L[i] != L[j]
    requires forall x :: x in s <==> x in L
    ensures |s| == |L|
  {
    if L == [] {
      assert s == {};
    } else {
      var n := |L| - 1;
      assert L[n] in s;
      assert forall x :: x in s - {L[n]} <==> x in L[..n];
      DistinctCount(L[..n], s - {L[n]});
    }
  }

  lemma BinCount(a: Arrays, B: seq<seq<nat>>, T: seq<Tile>, live: set<nat>, F: set<nat>, b: nat)
    requires CoreOk(a, B, live, F) && Chained(a.nodes, T) && F == FreeNodes(T) && |B| == NUM_LEAF_BINS &&
      b < NUM_LEAF_BINS
    ensures |B[b]| == |FreeInBin(T, b)|
  {
    hide RoundDown;
    assert ListOk(a.nodes, B[b], a.heads[b]);
    forall x ensures x in FreeInBin(T, b) <==> x in B[b] {
      if x in FreeInBin(T, b) {
        var q :| 0 <= q < |T| && !T[q].used && RoundDown(T[q].size) == b && T[q].node == x;
        assert NodeIs(a.nodes, T, q) && x in FreeNodes(T);
      }
      if x in B[b] {
        var j :| 0 <= j < |B[b]| && B[b][j] == x;
        assert x in FreeNodes(T);
        var q :| 0 <= q < |T| && !T[q].used && T[q].node == x;
        assert NodeIs(a.nodes, T, q);
      }
    }
    DistinctCount(B[b], FreeInBin(T, b));
  }

  lemma EmptyCore(a: Arrays, B: seq<seq<nat>>)
    requires |a.heads| == |B| == NUM_LEAF_BINS && |a.leaf| == NUM_TOP_BINS
    requires forall b | 0 <= b < NUM_LEAF_BINS :: B[b] == [] && a.heads[b] == UNUSED
    requires a.top == Zeros(NUM_TOP_BINS) && forall t | 0 <= t < NUM_TOP_BINS :: a.leaf[t] == Zeros(BINS_PER_LEAF)
    requires a.freeOffset == 0 && a.current <= |a.stack| && a.current <= |a.nodes| <= UNUSED
    requires forall j | 0 <= j < a.current :: a.stack[j] == j
    ensures CoreOk(a, B, {}, {})
  {}

  lemma WholeStorage(N: seq<Node>, size: uint32)
    requires |N| > 0 && SameTile(Node(0, size, UNUSED, UNUSED, UNUSED, UNUSED, false), N[0])
    ensures TilesOk(N, [Tile(0, 0, size, false)], size, {0}, {0}, size)
  {
    var T := [Tile(0, 0, size, false)];
    assert T[0].node == 0;
    assert NodeIs(N, T, 0);
    FreeBytesShort(T);
    assert Nodes(T) == {0} && FreeNodes(T) == {0};
  }

  // The value of the highest non-empty bin is the largest request that fits.
  lemma LargestRequest(
    a: Arrays, B: seq<seq<nat>>, T: seq<Tile>, size: uint32, live: set<nat>, F: set<nat>, t: nat, l: nat)
    requires CoreOk(a, B, live, F) && Chained(a.nodes, T) && F == FreeNodes(T) && Wf(T, size) && Widths(a)
    requires t < NUM_TOP_BINS && l < BINS_PER_LEAF && a.top[t] && a.leaf[t][l]
    requires (forall u | t < u < NUM_TOP_BINS :: !a.top[u]) && forall m | l < m < BINS_PER_LEAF :: !a.leaf[t][m]
    ensures forall s: uint32 :: s <= FloatToUint(t * 8 + l) <==> Meets(T, s)
  {
    hide *;
    var q := HighestBin(a, B, T, live, F, t, l);
    TileFits(T, size, q);
    RequestsUpTo(T, q, t * 8 + l);
  }

  lemma TileFits(T: seq<Tile>, size: uint32, q: nat)
    requires Wf(T, size) && q < |T|
    ensures T[q].size < UINT32
  {
    EndMono(T, size, q);
  }

  lemma RequestsUpTo(T: seq<Tile>, q: nat, b: nat)
    requires q < |T| && !T[q].used && RoundDown(T[q].size) == b && !Fits(T, b + 1) && T[q].size < UINT32
    ensures forall s: uint32 :: s <= FloatToUint(b) <==> Meets(T, s)
  {
    hide RoundDown, RoundUp, FloatToUint, Fits;
    BinRange(T[q].size);
    forall s: uint32 ensures s <= FloatToUint(b) <==> Meets(T, s) {
      GaloisUp(s, b);
      FitsExactly(T, q, b, RoundUp(s));
    }
  }

  lemma NoRequest(a: Arrays, B: seq<seq<nat>>, T: seq<Tile>, live: set<nat>, F: set<nat>)
    requires CoreOk(a, B, live, F) && Chained(a.nodes, T) && F == FreeNodes(T) && IsZero(a.top)
    ensures forall s: uint32 :: !Meets(T, s)
  {
    hide RoundDown, RoundUp, Fits, CoreOk;
    NoBin(a, B, T, live, F);
  }

  lemma TopBit(a: Arrays, B: seq<seq<nat>>, live: set<nat>, F: set<nat>, t: nat)
    requires CoreOk(a, B, live, F) && t < NUM_TOP_BINS && |a.top| == |a.leaf| == NUM_TOP_BINS && a.top[t]
    ensures !IsZero(a.leaf[t])
  {}
}
