/**
 What the tiling promises to a user of the offset allocator: used regions never
 overlap, free regions are exactly the maximal gaps between them, free undoes
 allocate, and freeing everything in any order gives back one region.
 */
module TilingFacts {
  import opened Tiling

  // ---- bytes ----

  lemma {:induction false} Ordered(T: seq<Tile>, size: nat, i: nat, j: nat)
    requires Contiguous(T, size) && i < j < |T|
    ensures End(T[i]) <= T[j].offset && End(T[j]) <= size
    decreases j - i
  {
    if i + 1 < j {
      Ordered(T, size, i + 1, j);
    }
    EndMono(T, size, j);
  }

  ghost predicate Inside(t: Tile, x: int) {
    t.offset <= x < End(t)
  }

  // Distinct tiles share no byte.
  lemma Disjoint(T: seq<Tile>, size: nat, i: nat, j: nat, x: int)
    requires Contiguous(T, size) && i < |T| && j < |T| && Inside(T[i], x) && Inside(T[j], x)
    ensures i == j
  {
    if i < j { Ordered(T, size, i, j); } else if j < i { Ordered(T, size, j, i); }
  }

  // Every byte of the storage is in some tile.
  lemma {:induction false} TileAt(T: seq<Tile>, size: nat, x: nat, from: nat) returns (k: nat)
    requires Contiguous(T, size) && x < size && from < |T| && T[from].offset <= x
    ensures from <= k < |T| && Inside(T[k], x)
    decreases |T| - from
  {
    if x < End(T[from]) {
      k := from;
    } else {
      k := TileAt(T, size, x, from + 1);
    }
  }

  // ---- gaps ----

  ghost predicate Covered(T: seq<Tile>, x: int) {
    exists k :: 0 <= k < |T| && T[k].used && Inside(T[k], x)
  }

  // A maximal run of bytes no used tile covers.
  ghost predicate Gap(T: seq<Tile>, size: nat, lo: nat, hi: nat) {
    && lo < hi <= size
    && (forall x | lo <= x < hi :: !Covered(T, x))
    && (lo == 0 || Covered(T, lo - 1))
    && (hi == size || Covered(T, hi))
  }

  ghost predicate FreeRegion(T: seq<Tile>, lo: nat, hi: nat) {
    exists k :: 0 <= k < |T| && !T[k].used && T[k].offset == lo && End(T[k]) == hi
  }

  ghost predicate NoEmptyUsed(T: seq<Tile>) {
    forall k | 0 <= k < |T| && T[k].used :: T[k].size > 0
  }

  // Between two free regions lies at least one used byte.
  ghost predicate Separated(T: seq<Tile>) {
    forall i, j | 0 <= i < j < |T| && FreeBytesIn(T[i]) && FreeBytesIn(T[j]) :: End(T[i]) < T[j].offset
  }

  ghost predicate FreeBytesIn(t: Tile) {
    !t.used && t.size > 0
  }

  ghost predicate RegionsAreGaps(T: seq<Tile>, size: nat) {
    forall lo: nat, hi: nat | lo < hi :: FreeRegion(T, lo, hi) <==> Gap(T, size, lo, hi)
  }

  // The free regions are exactly the maximal gaps if and only if used bytes separate them.
  lemma FreeRegionsAreGaps(T: seq<Tile>, size: nat)
    requires Wf(T, size)
    ensures RegionsAreGaps(T, size) <==> Separated(T)
  {
    hide Gap, FreeRegion;
    if Separated(T) {
      forall lo: nat, hi: nat | lo < hi ensures FreeRegion(T, lo, hi) <==> Gap(T, size, lo, hi) {
        RegionOrGap(T, size, lo, hi);
      }
    }
    if RegionsAreGaps(T, size) {
      forall i, j | 0 <= i < j < |T| && FreeBytesIn(T[i]) && FreeBytesIn(T[j]) ensures End(T[i]) < T[j].offset {
        TouchingIsNoGap(T, size, i, j);
      }
    }
  }

  // Requests of at least one byte keep free regions apart.
  lemma NoEmptySeparates(T: seq<Tile>, size: nat)
    requires Wf(T, size) && NoEmptyUsed(T)
    ensures Separated(T)
  {
    forall i, j | 0 <= i < j < |T| && FreeBytesIn(T[i]) && FreeBytesIn(T[j]) ensures End(T[i]) < T[j].offset {
      CoalescedAt(T, i);
      assert T[i + 1].used && T[i + 1].offset == End(T[i]);
      Ordered(T, size, i + 1, j);
    }
  }

  lemma RegionOrGap(T: seq<Tile>, size: nat, lo: nat, hi: nat)
    requires Wf(T, size) && Separated(T) && lo < hi
    ensures FreeRegion(T, lo, hi) <==> Gap(T, size, lo, hi)
  {
    if FreeRegion(T, lo, hi) {
      var k :| 0 <= k < |T| && !T[k].used && T[k].offset == lo && End(T[k]) == hi;
      RegionIsGap(T, size, k);
    }
    if Gap(T, size, lo, hi) {
      GapIsRegion(T, size, lo, hi);
    }
  }

  // A free tile is not a maximal gap when another one starts where it ends.
  lemma TouchingIsNoGap(T: seq<Tile>, size: nat, i: nat, j: nat)
    requires Wf(T, size) && RegionsAreGaps(T, size) && i < j < |T| && FreeBytesIn(T[i]) && FreeBytesIn(T[j])
    ensures End(T[i]) < T[j].offset
  {
    Ordered(T, size, i, j);
    assert FreeRegion(T, T[i].offset, End(T[i]));
    if End(T[i]) == T[j].offset {
      NotCovered(T, size, j, End(T[i]));
      assert false;
    }
  }

  lemma NotCovered(T: seq<Tile>, size: nat, k: nat, x: nat)
    requires Wf(T, size) && k < |T| && !T[k].used && Inside(T[k], x)
    ensures !Covered(T, x)
  {
    if Covered(T, x) {
      var j :| 0 <= j < |T| && T[j].used && Inside(T[j], x);
      Disjoint(T, size, j, k, x);
      assert false;
    }
  }

  // The tile of the byte before or after a free tile is used.
  lemma NextToFree(T: seq<Tile>, size: nat, k: nat, x: nat)
    requires Wf(T, size) && Separated(T) && k < |T| && FreeBytesIn(T[k]) && x < size
    requires x + 1 == T[k].offset || x == End(T[k])
    ensures Covered(T, x)
  {
    var j := TileAt(T, size, x, 0);
    if j < k { Ordered(T, size, j, k); } else if k < j { Ordered(T, size, k, j); }
    assert j != k;
    assert T[j].used;
  }

  lemma RegionIsGap(T: seq<Tile>, size: nat, k: nat)
    requires Wf(T, size) && Separated(T) && k < |T| && FreeBytesIn(T[k])
    ensures Gap(T, size, T[k].offset, End(T[k]))
  {
    EndMono(T, size, k);
    forall x | T[k].offset <= x < End(T[k]) ensures !Covered(T, x) { NotCovered(T, size, k, x); }
    if T[k].offset > 0 { NextToFree(T, size, k, T[k].offset - 1); }
    if End(T[k]) < size { NextToFree(T, size, k, End(T[k])); }
  }

  lemma GapIsRegion(T: seq<Tile>, size: nat, lo: nat, hi: nat)
    requires Wf(T, size) && Separated(T) && Gap(T, size, lo, hi)
    ensures FreeRegion(T, lo, hi)
  {
    var k := TileAt(T, size, lo, 0);
    assert !Covered(T, lo);
    assert !T[k].used;
    RegionIsGap(T, size, k);
    if T[k].offset < lo { assert false; }
    EndMono(T, size, k);
    if hi != End(T[k]) { assert false; }
  }

  // Two adjacent free regions can be told apart by an empty used tile between
  // them, and then neither is a maximal gap.
  lemma EmptyUsedSplitsGap()
    ensures var T := [Tile(0, 0, 4, false), Tile(1, 4, 0, true), Tile(2, 4, 4, false)];
      Wf(T, 8) && FreeRegion(T, 0, 4) && !Gap(T, 8, 0, 4) && Gap(T, 8, 0, 8) && !FreeRegion(T, 0, 8)
  {
    var T := [Tile(0, 0, 4, false), Tile(1, 4, 0, true), Tile(2, 4, 4, false)];
    assert !T[0].used && T[0].offset == 0 && End(T[0]) == 4;
    assert forall x :: !Covered(T, x);
  }

  // ---- allocate then free, and freeing everything ----

  // Putting a tile back in place of what it was cut into.
  lemma SpliceBack(T: seq<Tile>, k: nat, M: seq<Tile>)
    requires k < |T|
    ensures k + |M| <= |Splice(T, k, k + 1, M)| && Splice(Splice(T, k, k + 1, M), k, k + |M|, [T[k]]) == T
  {
    var S := Splice(T, k, k + 1, M);
    assert S[..k] == T[..k] && S[k + |M|..] == T[k + 1..];
    assert T == T[..k] + [T[k]] + T[k + 1..];
  }

  // The pieces of a cut tile merge to the tile, and with no other.
  lemma CutMerges(T: seq<Tile>, size: nat, k: nat, need: nat, slot: nat)
    requires Wf(T, size) && k < |T| && !T[k].used && need <= T[k].size
    ensures var M, S := CutTile(T[k], need, slot), Split(T, k, need, slot);
            k + |M| <= |S| && MergeFrom(S, k) == k && MergeTo(S, k) == k + |M| && Merged(S, k) == T[k]
  {
    var M, S := CutTile(T[k], need, slot), Split(T, k, need, slot);
    SpliceIndex(T, k, k + 1, M);
    assert S[k] == M[0] && (|M| == 2 ==> S[k + 1] == M[1]) && (k > 0 ==> S[k - 1] == T[k - 1]);
    assert k + |M| < |S| ==> S[k + |M|] == T[k + 1];
    assert S[k..k + |M|] == M;
    SizeOfShort(M);
  }

  // Releasing the tile just cut gives back the very same tiling.
  lemma ReleaseUndoesSplit(T: seq<Tile>, size: nat, k: nat, need: nat, slot: nat)
    requires Wf(T, size) && k < |T| && !T[k].used && need <= T[k].size
    ensures k < |Split(T, k, need, slot)|
    ensures Release(Split(T, k, need, slot), k) == T
  {
    hide Merged, MergeFrom, MergeTo, CutTile, Splice;
    CutNonEmpty(T[k], need, slot);
    SpliceBack(T, k, CutTile(T[k], need, slot));
    CutMerges(T, size, k, need, slot);
  }

  lemma CutNonEmpty(t: Tile, need: nat, slot: nat)
    requires need <= t.size
    ensures |CutTile(t, need, slot)| >= 1
  {}

  // A well-formed tiling with nothing used is one free region.
  lemma NothingUsed(T: seq<Tile>, size: nat)
    requires Wf(T, size) && UsedNodes(T) == {}
    ensures |T| == 1 && !T[0].used && T[0].offset == 0 && T[0].size == size
  {
    forall k | 0 <= k < |T| ensures !T[k].used {
      UsedIsListed(T, k);
    }
    if |T| > 1 { CoalescedAt(T, 0); }
  }

  lemma UsedIsListed(T: seq<Tile>, k: nat)
    requires k < |T|
    ensures T[k].used ==> T[k].node in UsedNodes(T)
  {}

  lemma CoalescedAt(T: seq<Tile>, k: nat)
    requires Coalesced(T) && k + 1 < |T|
    ensures T[k].used || T[k + 1].used
  {}

  // Freeing nodes in the order given, skipping any that are not used.
  ghost function ReleaseAll(T: seq<Tile>, order: seq<nat>): seq<Tile>
    decreases |order|
  {
    if order == [] then T
    else ReleaseAll(if order[0] in UsedNodes(T) then Release(T, UsedAt(T, order[0])) else T, order[1..])
  }

  ghost function UsedAt(T: seq<Tile>, n: nat): (k: nat)
    requires n in UsedNodes(T)
    ensures k < |T| && T[k].used && T[k].node == n
  {
    var k :| 0 <= k < |T| && T[k].used && T[k].node == n;
    k
  }

  lemma ReleaseUsed(T: seq<Tile>, size: nat, k: nat)
    requires Wf(T, size) && k < |T| && T[k].used
    ensures UsedNodes(Release(T, k)) == UsedNodes(T) - {T[k].node}
  {
    var i, j, m := MergeFrom(T, k), MergeTo(T, k), Merged(T, k);
    SpliceNodes(T, i, j, [m]);
    var R := T[i..j];
    assert R[k - i] == T[k];
    assert forall q | 0 <= q < |R| :: R[q] == T[i + q] && (R[q].used ==> i + q == k);
    assert UsedNodes(R) == {T[k].node};
    assert UsedNodes([m]) == {};
  }

  // Whatever the order, freeing every used node leaves one region over the whole storage.
  lemma {:induction false} FreeingAllLeavesOne(T: seq<Tile>, size: nat, order: seq<nat>)
    requires Wf(T, size) && forall n | n in UsedNodes(T) :: n in order
    ensures var E := ReleaseAll(T, order); |E| == 1 && !E[0].used && E[0].offset == 0 && E[0].size == size
    decreases |order|
  {
    if order == [] {
      assert UsedNodes(T) == {};
      NothingUsed(T, size);
    } else if order[0] in UsedNodes(T) {
      var k := UsedAt(T, order[0]);
      ReleaseKeeps(T, size, k);
      ReleaseUsed(T, size, k);
      forall n | n in UsedNodes(Release(T, k)) ensures n in order[1..] {
        assert n in order && n != order[0];
      }
      FreeingAllLeavesOne(Release(T, k), size, order[1..]);
    } else {
      FreeingAllLeavesOne(T, size, order[1..]);
    }
  }
}
