/**
 The storage of an offset allocator seen as a tiling: the neighbour chain, in
 address order, as a sequence of tiles. This is the abstract state that
 allocate and free transform; what they promise is proved here.
 */
module Tiling {

  datatype Tile = Tile(node: nat, offset: nat, size: nat, used: bool)

  function End(t: Tile): nat {
    t.offset + t.size
  }

  // ---- well-formed tilings ----

  ghost predicate Contiguous(T: seq<Tile>, size: nat) {
    && |T| >= 1
    && T[0].offset == 0
    && (forall k | 0 <= k < |T| - 1 :: T[k + 1].offset == End(T[k]))
    && End(T[|T| - 1]) == size
  }

  // No two neighbours are both free.
  ghost predicate Coalesced(T: seq<Tile>) {
    forall k | 0 <= k < |T| - 1 :: T[k].used || T[k + 1].used
  }

  ghost predicate DistinctNodes(T: seq<Tile>) {
    forall i, j | 0 <= i < j < |T| :: T[i].node != T[j].node
  }

  ghost predicate Wf(T: seq<Tile>, size: nat) {
    Contiguous(T, size) && Coalesced(T) && DistinctNodes(T)
  }

  // ---- views of a tiling ----

  ghost function Nodes(T: seq<Tile>): set<nat> {
    set k | 0 <= k < |T| :: T[k].node
  }

  ghost function FreeNodes(T: seq<Tile>): set<nat> {
    set k | 0 <= k < |T| && !T[k].used :: T[k].node
  }

  ghost function UsedNodes(T: seq<Tile>): set<nat> {
    set k | 0 <= k < |T| && T[k].used :: T[k].node
  }

  ghost function FreeBytes(T: seq<Tile>): nat {
    if |T| == 0 then 0 else FreeBytes(T[..|T| - 1]) + FreeSize(T[|T| - 1])
  }

  function FreeSize(t: Tile): nat {
    if t.used then 0 else t.size
  }

  lemma {:induction false} FreeBytesConcat(A: seq<Tile>, B: seq<Tile>)
    ensures FreeBytes(A + B) == FreeBytes(A) + FreeBytes(B)
  {
    if |B| == 0 {
      assert A + B == A;
    } else {
      var n := |B| - 1;
      assert (A + B)[..|A + B| - 1] == A + B[..n];
      FreeBytesConcat(A, B[..n]);
    }
  }

  // ---- what allocate and free do ----

  ghost function Splice(T: seq<Tile>, i: nat, j: nat, M: seq<Tile>): seq<Tile>
    requires i <= j <= |T|
  {
    T[..i] + M + T[j..]
  }

  // Tile k, free and large enough, is cut: its head becomes used, a non-empty
  // remainder becomes a free tile on a fresh node.
  ghost function Split(T: seq<Tile>, k: nat, need: nat, slot: nat): seq<Tile>
    requires k < |T| && need <= T[k].size
  {
    Splice(T, k, k + 1, CutTile(T[k], need, slot))
  }

  ghost function CutTile(t: Tile, need: nat, slot: nat): seq<Tile>
    requires need <= t.size
  {
    [t.(size := need, used := true)] +
      (if t.size == need then [] else [Tile(slot, t.offset + need, t.size - need, false)])
  }

  // First and one-past-last tile of the free run around tile k.
  ghost function MergeFrom(T: seq<Tile>, k: nat): nat
    requires k < |T|
  {
    if k > 0 && !T[k - 1].used then k - 1 else k
  }

  ghost function MergeTo(T: seq<Tile>, k: nat): nat
    requires k < |T|
  {
    if k + 1 < |T| && !T[k + 1].used then k + 2 else k + 1
  }

  // Tile k is merged with its free neighbours into one free tile on its own node.
  ghost function Release(T: seq<Tile>, k: nat): seq<Tile>
    requires k < |T|
  {
    Splice(T, MergeFrom(T, k), MergeTo(T, k), [Merged(T, k)])
  }

  ghost function Merged(T: seq<Tile>, k: nat): Tile
    requires k < |T|
  {
    var i, j := MergeFrom(T, k), MergeTo(T, k);
    Tile(T[k].node, T[i].offset, SizeOf(T[i..j]), false)
  }

  ghost function SizeOf(T: seq<Tile>): nat {
    if |T| == 0 then 0 else SizeOf(T[..|T| - 1]) + T[|T| - 1].size
  }

  lemma SizeOfShort(T: seq<Tile>)
    ensures |T| == 1 ==> SizeOf(T) == T[0].size
    ensures |T| == 2 ==> SizeOf(T) == T[0].size + T[1].size
    ensures |T| == 3 ==> SizeOf(T) == T[0].size + T[1].size + T[2].size
  {
    if |T| >= 1 {
      var A := T[..|T| - 1];
      assert |T| >= 2 ==> SizeOf(A) == SizeOf(A[..|A| - 1]) + A[|A| - 1].size;
      assert |T| == 3 ==> |A[..|A| - 1]| == 1;
    }
  }

  // ---- preservation: both replace a run T[i..j] by other tiles over the same bytes ----

  lemma SpliceIndex(T: seq<Tile>, i: nat, j: nat, M: seq<Tile>)
    requires i <= j <= |T|
    ensures |Splice(T, i, j, M)| == |T| - (j - i) + |M|
    ensures forall p | 0 <= p < i :: Splice(T, i, j, M)[p] == T[p]
    ensures forall p | i <= p < i + |M| :: Splice(T, i, j, M)[p] == M[p - i]
    ensures forall p | i + |M| <= p < |Splice(T, i, j, M)| :: Splice(T, i, j, M)[p] == T[p - |M| + (j - i)]
  {}

  lemma SpliceContiguous(T: seq<Tile>, size: nat, i: nat, j: nat, M: seq<Tile>)
    requires Contiguous(T, size) && i < j <= |T| && |M| >= 1
    requires M[0].offset == T[i].offset && End(M[|M| - 1]) == End(T[j - 1])
    requires forall p | 0 <= p < |M| - 1 :: M[p + 1].offset == End(M[p])
    ensures Contiguous(Splice(T, i, j, M), size)
  {
    var S := Splice(T, i, j, M);
    SpliceIndex(T, i, j, M);
    forall p | 0 <= p < |S| - 1 ensures S[p + 1].offset == End(S[p]) {
      if p + 1 < i {
      } else if p + 1 == i {
        assert S[p + 1] == M[0];
      } else if p + 1 < i + |M| {
        assert S[p + 1] == M[p - i + 1];
      } else if p + 1 == i + |M| {
        assert S[p] == M[|M| - 1] && S[p + 1] == T[j];
      } else {
        assert S[p + 1] == T[p - |M| + (j - i) + 1];
      }
    }
  }

  lemma SpliceCoalesced(T: seq<Tile>, i: nat, j: nat, M: seq<Tile>)
    requires Coalesced(T) && i < j <= |T| && |M| >= 1 && Coalesced(M)
    requires i == 0 || T[i - 1].used || M[0].used
    requires j == |T| || T[j].used || M[|M| - 1].used
    ensures Coalesced(Splice(T, i, j, M))
  {
    var S := Splice(T, i, j, M);
    SpliceIndex(T, i, j, M);
    forall p | 0 <= p < |S| - 1 ensures S[p].used || S[p + 1].used {
      if p + 1 < i {
      } else if p + 1 == i {
        assert S[p + 1] == M[0];
      } else if p + 1 < i + |M| {
        assert S[p + 1] == M[p - i + 1];
      } else if p + 1 == i + |M| {
        assert S[p] == M[|M| - 1] && S[p + 1] == T[j];
      } else {
        assert S[p + 1] == T[p - |M| + (j - i) + 1];
      }
    }
  }

  lemma SpliceDistinct(T: seq<Tile>, i: nat, j: nat, M: seq<Tile>)
    requires DistinctNodes(T) && i <= j <= |T| && DistinctNodes(M)
    requires forall p, q | 0 <= p < |M| && 0 <= q < |T| && M[p].node == T[q].node :: i <= q < j
    ensures DistinctNodes(Splice(T, i, j, M))
  {
    SpliceIndex(T, i, j, M);
  }

  lemma SpliceBytes(T: seq<Tile>, i: nat, j: nat, M: seq<Tile>)
    requires i <= j <= |T|
    ensures FreeBytes(Splice(T, i, j, M)) == FreeBytes(T) - FreeBytes(T[i..j]) + FreeBytes(M)
  {
    assert T == T[..i] + T[i..j] + T[j..];
    FreeBytesConcat(T[..i] + T[i..j], T[j..]);
    FreeBytesConcat(T[..i], T[i..j]);
    FreeBytesConcat(T[..i] + M, T[j..]);
    FreeBytesConcat(T[..i], M);
  }

  lemma FreeBytesShort(T: seq<Tile>)
    ensures |T| == 0 ==> FreeBytes(T) == 0
    ensures |T| == 1 ==> FreeBytes(T) == FreeSize(T[0])
    ensures |T| == 2 ==> FreeBytes(T) == FreeSize(T[0]) + FreeSize(T[1])
    ensures |T| == 3 ==> FreeBytes(T) == FreeSize(T[0]) + FreeSize(T[1]) + FreeSize(T[2])
  {
    if |T| >= 1 {
      var A := T[..|T| - 1];
      assert |T| >= 2 ==> FreeBytes(A) == FreeBytes(A[..|A| - 1]) + FreeSize(A[|A| - 1]);
      assert |T| == 3 ==> |A[..|A| - 1]| == 1;
    }
  }

  // Allocation keeps the tiling well formed, takes exactly `need` free bytes.
  lemma SplitKeeps(T: seq<Tile>, size: nat, k: nat, need: nat, slot: nat)
    requires Wf(T, size) && k < |T| && !T[k].used && need <= T[k].size
    requires slot !in Nodes(T)
    ensures Wf(Split(T, k, need, slot), size)
    ensures FreeBytes(Split(T, k, need, slot)) + need == FreeBytes(T)
  {
    var M := CutTile(T[k], need, slot);
    assert Contiguous(Splice(T, k, k + 1, M), size) by { SpliceContiguous(T, size, k, k + 1, M); }
    assert Coalesced(Splice(T, k, k + 1, M)) by { SpliceCoalesced(T, k, k + 1, M); }
    assert DistinctNodes(Splice(T, k, k + 1, M)) by {
      assert forall q | 0 <= q < |T| :: T[q].node in Nodes(T);
      SpliceDistinct(T, k, k + 1, M);
    }
    SplitContent(T, k, need, slot);
  }

  lemma SplitContent(T: seq<Tile>, k: nat, need: nat, slot: nat)
    requires k < |T| && !T[k].used && need <= T[k].size
    ensures FreeBytes(Split(T, k, need, slot)) + need == FreeBytes(T)
  {
    hide Splice;
    var M := CutTile(T[k], need, slot);
    FreeBytesShort(T[k..k + 1]);
    FreeBytesShort(M);
    SpliceBytes(T, k, k + 1, M);
  }

  // The merged tile covers its run, and all of the run but tile k was already free.
  lemma MergedCovers(T: seq<Tile>, size: nat, k: nat)
    requires Contiguous(T, size) && k < |T|
    ensures End(Merged(T, k)) == End(T[MergeTo(T, k) - 1])
    ensures T[k].used ==> Merged(T, k).size == T[k].size + FreeBytes(T[MergeFrom(T, k)..MergeTo(T, k)])
  {
    var i, j := MergeFrom(T, k), MergeTo(T, k);
    var R := T[i..j];
    SizeOfShort(R);
    FreeBytesShort(R);
    assert R[0] == T[i];
    assert |R| >= 2 ==> R[1] == T[i + 1] && T[i + 1].offset == End(T[i]);
    assert |R| == 3 ==> R[2] == T[i + 2] && T[i + 2].offset == End(T[i + 1]);
  }

  // Release keeps the tiling well formed and returns exactly the tile's bytes.
  lemma ReleaseKeeps(T: seq<Tile>, size: nat, k: nat)
    requires Wf(T, size) && k < |T| && T[k].used
    ensures Wf(Release(T, k), size)
    ensures FreeBytes(Release(T, k)) == FreeBytes(T) + T[k].size
  {
    hide SizeOf, FreeBytes, Splice;
    var i, j := MergeFrom(T, k), MergeTo(T, k);
    var m := Merged(T, k);
    MergedCovers(T, size, k);
    SpliceContiguous(T, size, i, j, [m]);
    SpliceCoalesced(T, i, j, [m]);
    SpliceDistinct(T, i, j, [m]);
    SpliceBytes(T, i, j, [m]);
    FreeBytesShort([m]);
  }

  // Every tile lies inside the storage, and a free tile is no larger than all free bytes.
  lemma {:induction false} TileBounds(T: seq<Tile>, size: nat, k: nat)
    requires Contiguous(T, size) && k < |T|
    ensures End(T[k]) <= size
    ensures !T[k].used ==> T[k].size <= FreeBytes(T) <= size
    ensures FreeBytes(T) <= size
  {
    EndMono(T, size, k);
    FreeBelow(T, size, |T|);
    if !T[k].used {
      assert T == T[..k] + [T[k]] + T[k + 1..];
      FreeBytesConcat(T[..k] + [T[k]], T[k + 1..]);
      FreeBytesConcat(T[..k], [T[k]]);
      FreeBytesShort([T[k]]);
    }
  }

  lemma {:induction false} EndMono(T: seq<Tile>, size: nat, k: nat)
    requires Contiguous(T, size) && k < |T|
    ensures End(T[k]) <= size
    decreases |T| - k
  {
    if k + 1 < |T| { EndMono(T, size, k + 1); }
  }

  lemma {:induction false} FreeBelow(T: seq<Tile>, size: nat, k: nat)
    requires Contiguous(T, size) && k <= |T|
    ensures k > 0 ==> FreeBytes(T[..k]) <= End(T[k - 1])
    ensures k == |T| ==> FreeBytes(T) <= size
  {
    if k > 0 {
      FreeBelow(T, size, k - 1);
      assert T[..k][..k - 1] == T[..k - 1];
    }
    if k == |T| { assert T[..k] == T; }
  }

  // ---- node sets under splicing ----

  lemma SpliceNodes(T: seq<Tile>, i: nat, j: nat, M: seq<Tile>)
    requires DistinctNodes(T) && i <= j <= |T|
    ensures Nodes(Splice(T, i, j, M)) == Nodes(T) - Nodes(T[i..j]) + Nodes(M)
    ensures FreeNodes(Splice(T, i, j, M)) == FreeNodes(T) - FreeNodes(T[i..j]) + FreeNodes(M)
    ensures UsedNodes(Splice(T, i, j, M)) == UsedNodes(T) - UsedNodes(T[i..j]) + UsedNodes(M)
  {
    hide Splice;
    var S, R := Splice(T, i, j, M), T[i..j];
    SpliceIndex(T, i, j, M);
    forall p | 0 <= p < |S|
      ensures InRun(M, S[p]) || (InRun(T, S[p]) && S[p].node !in Nodes(R))
    {
      if i <= p < i + |M| {
        assert S[p] == M[p - i];
      } else {
        var q := if p < i then p else p - |M| + (j - i);
        assert S[p] == T[q];
        assert forall r | 0 <= r < |R| :: R[r] == T[i + r] && R[r].node != T[q].node;
      }
    }
    forall q | 0 <= q < |T| ensures InRun(S, T[q]) || InRun(R, T[q]) {
      if q < i { assert S[q] == T[q]; }
      else if q < j { assert R[q - i] == T[q]; }
      else { assert S[q - (j - i) + |M|] == T[q]; }
    }
    forall p | 0 <= p < |M| ensures InRun(S, M[p]) {
      assert S[i + p] == M[p];
    }
    forall n ensures n in Nodes(S) <==> n in Nodes(T) - Nodes(R) + Nodes(M) {}
    forall n ensures n in FreeNodes(S) <==> n in FreeNodes(T) - FreeNodes(R) + FreeNodes(M) {}
    forall n ensures n in UsedNodes(S) <==> n in UsedNodes(T) - UsedNodes(R) + UsedNodes(M) {}
  }

  ghost predicate InRun(T: seq<Tile>, t: Tile) {
    exists k :: 0 <= k < |T| && T[k] == t
  }
}
