/**
 The 32-bit allocator under the offset allocator: a two-level segregated-fit
 allocator over a node array. The ghost fields are what the pointers mean: the
 tiling of the storage, the contents of every bin list, and the sets of live and
 free nodes. `Valid` ties them to the arrays; every operation keeps it.
 */
module OffsetCore {
  import opened SmallFloat
  import opened Bits
  import opened Tiling
  import opened BinLists
  import opened HeapArrays
  import opened HeapFacts

  datatype OffsetAllocation = OffsetAllocation(offset: nat, metadata: nat) {
    predicate IsNoSpace() { offset == NO_SPACE }
  }

  const NONE := OffsetAllocation(NO_SPACE, NO_SPACE)

  class Allocator {
    const size: uint32
    const maxCapacity: nat
    const usedBins: array<Word>
    const binIndices: array<nat>
    const nodes: array<Node>
    const freeNodes: array<nat>
    var currentCapacity: nat
    var freeStorage: uint32
    var usedBinsTop: Word
    var freeOffset: nat

    ghost var tiles: seq<Tile>
    ghost var bins: seq<seq<nat>>
    ghost var live: set<nat>
    ghost var free: set<nat>

    ghost predicate Shape()
      reads this`currentCapacity
    {
      && usedBins.Length == NUM_TOP_BINS && binIndices.Length == NUM_LEAF_BINS
      && nodes.Length == freeNodes.Length == maxCapacity <= UNUSED
      && currentCapacity <= maxCapacity
      && binIndices != freeNodes
    }

    ghost function State(): Arrays
      reads this`currentCapacity, this`usedBinsTop, this`freeOffset, usedBins, binIndices, nodes, freeNodes
    {
      Arrays(nodes[..], binIndices[..], usedBinsTop, usedBins[..], freeNodes[..], freeOffset, currentCapacity)
    }

    // Bin lists, bitmaps and free slots agree with the ghost view.
    ghost predicate Core()
      reads this`currentCapacity, this`usedBinsTop, this`freeOffset, this`bins, this`live, this`free, usedBins,
        binIndices, nodes, freeNodes
    {
      Shape() && CoreOk(State(), bins, live, free)
    }

    ghost predicate Valid()
      reads this, usedBins, binIndices, nodes, freeNodes
    {
      Core() && TilesOk(nodes[..], tiles, size, live, free, freeStorage)
    }

    // The writes of insertNodeIntoBin.
    method LinkNode(dataSize: uint32, dataOffset: uint32) returns (n: nat)
      requires Shape() && freeOffset < currentCapacity && RoundDown(dataSize) < NUM_LEAF_BINS
      requires freeStorage + dataSize < UINT32
      requires Widths(State()) && Index(State(), binIndices[RoundDown(dataSize)]) &&
        freeNodes[freeOffset] < nodes.Length
      modifies this`freeStorage, this`usedBinsTop, this`freeOffset, usedBins, binIndices, nodes
      ensures n == old(freeNodes[freeOffset]) && freeOffset == old(freeOffset) + 1
      ensures var b := RoundDown(dataSize);
              State() == Inserted(old(State()), b, FreshNode(dataOffset, dataSize, old(binIndices[b])))
      ensures freeStorage == old(freeStorage) + dataSize
    {
      hide RoundDown, CoreOk, IsZero;
      var binIndex := RoundDown(dataSize);
      var topBinIndex, leafBinIndex := binIndex / 8, binIndex % 8;
      if binIndices[binIndex] == UNUSED {
        usedBins[topBinIndex] := usedBins[topBinIndex][leafBinIndex := true];
        usedBinsTop := usedBinsTop[topBinIndex := true];
      }
      var topNodeIndex := binIndices[binIndex];
      n := freeNodes[freeOffset];
      freeOffset := freeOffset + 1;
      nodes[n] := FreshNode(dataOffset, dataSize, topNodeIndex);
      if topNodeIndex != UNUSED {
        nodes[topNodeIndex] := nodes[topNodeIndex].(binListPrev := n);
      }
      binIndices[binIndex] := n;
      freeStorage := freeStorage + dataSize;
    }

    // The writes of a bin removal, shared by allocate and removeNodeFromBin.
    method UnlinkNode(binIndex: nat, i: nat)
      requires Shape() && Widths(State()) && binIndex < NUM_LEAF_BINS && i < nodes.Length
      requires Index(State(), nodes[i].binListPrev) && Index(State(), nodes[i].binListNext)
      modifies this`usedBinsTop, usedBins, binIndices, nodes
      ensures State() == Unlinked(old(State()), binIndex, i)
    {
      hide CoreOk;
      var node := nodes[i];
      var topBinIndex, leafBinIndex := binIndex / 8, binIndex % 8;
      if node.binListPrev != UNUSED {
        nodes[node.binListPrev] := nodes[node.binListPrev].(binListNext := node.binListNext);
        if node.binListNext != UNUSED {
          nodes[node.binListNext] := nodes[node.binListNext].(binListPrev := node.binListPrev);
        }
      } else {
        binIndices[binIndex] := node.binListNext;
        if node.binListNext != UNUSED {
          nodes[node.binListNext] := nodes[node.binListNext].(binListPrev := UNUSED);
        }
        if binIndices[binIndex] == UNUSED {
          usedBins[topBinIndex] := usedBins[topBinIndex][leafBinIndex := false];
          if IsZero(usedBins[topBinIndex]) {
            usedBinsTop := usedBinsTop[topBinIndex := false];
          }
        }
      }
    }
  
    // insertNodeIntoBin: a slot from the stack becomes a free node at the head of its bin.
    method InsertNodeIntoBin(dataSize: uint32, dataOffset: uint32) returns (n: nat)
      requires Core() && freeOffset < currentCapacity
      requires freeStorage + dataSize < UINT32
      modifies this`freeStorage, this`usedBinsTop, this`freeOffset, this`bins, this`live, this`free, usedBins,
        binIndices, nodes
      ensures Core()
      ensures n == old(freeNodes[freeOffset]) && freeOffset == old(freeOffset) + 1
      ensures n !in old(live) && live == old(live) + {n} && free == old(free) + {n}
      ensures freeStorage == old(freeStorage) + dataSize
      ensures n < nodes.Length && SameTile(FreshNode(dataOffset, dataSize, UNUSED), nodes[n])
      ensures forall i | 0 <= i < nodes.Length && i != n :: TileKept(old(nodes[..]), nodes[..], i)
    {
      hide RoundDown, RoundUp, FloatToUint, CoreOk, Inserted, TileKept, Widths, Index;
      ghost var a := State();
      BinRange(dataSize);
      CoreWidths(a, bins, live, free);
      ghost var b := RoundDown(dataSize);
      n := LinkNode(dataSize, dataOffset);
      ghost var a' := State();
      ghost var node := FreshNode(dataOffset, dataSize, a.heads[b]);
      InsertedKeeps(a, bins, live, free, b, node);
      InsertedTiles(a, b, node);
      bins := bins[b := [n] + bins[b]];
      live := live + {n};
      free := free + {n};
      assert State() == a';
    }

    // removeNodeFromBin: a free node leaves its bin and its slot goes back to the stack.
    method RemoveNodeFromBin(i: nat)
      requires Core() && i in free && i < nodes.Length && nodes[i].dataSize <= freeStorage
      modifies this`freeStorage, this`usedBinsTop, this`freeOffset, this`bins, this`live, this`free, usedBins,
        binIndices, nodes, freeNodes
      ensures Core()
      ensures live == old(live) - {i} && free == old(free) - {i} && freeOffset == old(freeOffset) - 1
      ensures freeStorage == old(freeStorage) - old(nodes[i].dataSize)
      ensures forall j | 0 <= j < nodes.Length :: TileKept(old(nodes[..]), nodes[..], j)
    {
      ghost var a := State();
      hide RoundDown, CoreOk, Unlinked, Widths, Index;
      ghost var b, k := FreeNodeAt(a, bins, live, free, i);
      UnlinkNode(RoundDown(nodes[i].dataSize), i);
      ghost var a' := State();
      UnlinkedTiles(a, b, i);
      assert TileKept(a.nodes, a'.nodes, i);
      UnlinkedKeeps(a, bins, live, free, b, k, a'.nodes[i]);
      assert a'.nodes[i := a'.nodes[i]] == a'.nodes;
      bins := bins[b := Without(bins[b], k)];
      free := free - {i};
      PushedKeeps(a', bins, live, free, i);
      freeOffset := freeOffset - 1;
      freeNodes[freeOffset] := i;
      freeStorage := freeStorage - nodes[i].dataSize;
      live := live - {i};
      assert State() == Pushed(a', i);
    }
  
    method SetNeighborPrev(i: nat, v: nat)
      requires Core() && (i != UNUSED ==> i < nodes.Length)
      modifies nodes
      ensures Core() && nodes[..] == WithNeighborPrev(old(nodes[..]), i, v)
    {
      if i != UNUSED {
        ghost var a := State();
        nodes[i] := nodes[i].(neighborPrev := v);
        CoreFrame(a, bins, live, free, nodes[..]);
        hide CoreOk;
        assert State() == a.(nodes := nodes[..]);
      }
    }

    method SetNeighborNext(i: nat, v: nat)
      requires Core() && (i != UNUSED ==> i < nodes.Length)
      modifies nodes
      ensures Core() && nodes[..] == WithNeighborNext(old(nodes[..]), i, v)
    {
      if i != UNUSED {
        ghost var a := State();
        nodes[i] := nodes[i].(neighborNext := v);
        CoreFrame(a, bins, live, free, nodes[..]);
        hide CoreOk;
        assert State() == a.(nodes := nodes[..]);
      }
    }

    // Pop the head of a bin and turn it into a used node of the given size.
    method TakeHead(binIndex: nat, need: uint32) returns (i: nat)
      requires Core() && binIndex < NUM_LEAF_BINS && |bins| == NUM_LEAF_BINS && bins[binIndex] != []
      requires bins[binIndex][0] < nodes.Length && nodes[bins[binIndex][0]].dataSize <= freeStorage
      modifies this`freeStorage, this`usedBinsTop, this`bins, this`free, usedBins, binIndices, nodes
      ensures Core()
      ensures i == old(bins)[binIndex][0] && i in old(free) && free == old(free) - {i}
      ensures i < nodes.Length && SameTile(old(nodes[..])[i].(dataSize := need, used := true), nodes[i])
      ensures freeStorage == old(freeStorage) - old(nodes[..])[i].dataSize
      ensures forall j | 0 <= j < nodes.Length && j != i :: TileKept(old(nodes[..]), nodes[..], j)
    {
      hide RoundDown, CoreOk, Unlinked, Widths, Index, TileKept, SameTile;
      ghost var a := State();
      ghost var b := binIndex;
      HeadOf(a, bins, live, free, b);
      TakenKeeps(a, bins, live, free, b, need);
      i := binIndices[binIndex];
      var nodeTotalSize := nodes[i].dataSize;
      UnlinkNode(binIndex, i);
      ghost var a' := State();
      nodes[i] := nodes[i].(dataSize := need, used := true);
      freeStorage := freeStorage - nodeTotalSize;
      bins := bins[b := Without(bins[b], 0)];
      free := free - {i};
      assert State() == a'.(nodes := a'.nodes[i := a'.nodes[i].(dataSize := need, used := true)]);
    }
  
    // The remainder of node i goes back to a bin and is linked in behind it.
    method PushRemainder(i: nat, dataSize: uint32, dataOffset: uint32) returns (n: nat)
      requires Core() && freeOffset < currentCapacity && freeStorage + dataSize < UINT32
      requires i in live && i < nodes.Length && nodes[i].neighborNext != i
      requires nodes[i].neighborNext == UNUSED || nodes[i].neighborNext in live
      modifies this`freeStorage, this`usedBinsTop, this`freeOffset, this`bins, this`live, this`free, usedBins,
        binIndices, nodes
      ensures Core()
      ensures n == old(freeNodes[freeOffset]) && n < nodes.Length
      ensures n !in old(live) && live == old(live) + {n} && free == old(free) + {n}
      ensures freeStorage == old(freeStorage) + dataSize
      ensures LinkedBehind(old(nodes[..]), nodes[..], i, n, dataOffset, dataSize)
    {
      hide RoundDown, CoreOk, TileKept, SameTile;
      ghost var N0 := nodes[..];
      CoreWidths(State(), bins, live, free);
      var next := nodes[i].neighborNext;
      n := InsertNodeIntoBin(dataSize, dataOffset);
      ghost var N1 := nodes[..];
      SetNeighborPrev(next, n);
      SetNeighborPrev(n, i);
      SetNeighborNext(n, next);
      SetNeighborNext(i, n);
      RelinkedTiles(N0, N1, i, n, dataOffset, dataSize);
    }

    // The part of an allocation that leaves a remainder.
    method CarveRest(
      i: nat, rest: uint32, offset: uint32, ghost N0: seq<Node>, ghost T: seq<Tile>, ghost L: set<nat>,
      ghost F: set<nat>, ghost fs: nat, ghost k: nat, ghost need: uint32)
      returns (n: nat)
      requires Core() && freeOffset < currentCapacity
      requires TilesOk(N0, T, size, L, F, fs) && k < |T| && !T[k].used && need < T[k].size <= fs < UINT32
      requires i == T[k].node < nodes.Length && i in L && live == L && free == F - {i} && freeStorage == fs - T[k].size
      requires rest == T[k].size - need && offset == T[k].offset + need && |N0| == nodes.Length
      requires N0[i].neighborNext == UNUSED || (N0[i].neighborNext in L && N0[i].neighborNext != i)
      requires SameTile(N0[i].(dataSize := need, used := true), nodes[i])
      requires forall j | 0 <= j < nodes.Length && j != i :: TileKept(N0, nodes[..], j)
      modifies this`freeStorage, this`usedBinsTop, this`freeOffset, this`bins, this`live, this`free, usedBins,
        binIndices, nodes
      ensures Core() && n == old(freeNodes[freeOffset]) && n !in L
      ensures TilesOk(nodes[..], Split(T, k, need, n), size, live, free, freeStorage)
    {
      hide RoundDown, CoreOk, TilesOk, TileKept, SameTile, LinkedBehind, Split, Nodes;
      ghost var N1 := nodes[..];
      TileFields(N0[i].(dataSize := need, used := true), N1[i]);
      n := PushRemainder(i, rest, offset);
      CutKeeps(N0, N1, nodes[..], T, size, L, F, fs, k, need, n);
    }

    // Cut `need` bytes off the free tile k at the head of a bin.
    method Carve(binIndex: nat, need: uint32, ghost k: nat) returns (r: OffsetAllocation, ghost slot: nat)
      requires Valid() && freeOffset < currentCapacity
      requires binIndex < NUM_LEAF_BINS && |bins| == NUM_LEAF_BINS && bins[binIndex] != []
      requires k < |tiles| && tiles[k].node == bins[binIndex][0] && !tiles[k].used && need <= tiles[k].size
      modifies this`freeStorage, this`usedBinsTop, this`freeOffset, this`bins, this`live, this`free, this`tiles,
        usedBins, binIndices, nodes
      ensures Valid()
      ensures r == OffsetAllocation(old(tiles)[k].offset, old(tiles)[k].node)
      ensures slot == old(freeNodes[freeOffset]) && slot !in Nodes(old(tiles))
      ensures tiles == Split(old(tiles), k, need, slot)
    {
      hide RoundDown, CoreOk, TilesOk, TileKept, SameTile, LinkedBehind, Split, Nodes;
      HeadTile(State(), bins, tiles, size, live, free, freeStorage, binIndex, k);
      CoreWidths(State(), bins, live, free);
      ghost var T, N0, L, F, fs := tiles, nodes[..], live, free, freeStorage;
      var total, offset := nodes[binIndices[binIndex]].dataSize, nodes[binIndices[binIndex]].dataOffset;
      slot := freeNodes[freeOffset];
      tiles := Split(T, k, need, slot);
      var i := TakeHead(binIndex, need);
      r := OffsetAllocation(offset, i);
      if total == need {
        assert N0[i].(dataSize := need, used := true) == N0[i].(used := true);
        WholeKeeps(N0, nodes[..], T, size, L, F, fs, k, slot);
      } else {
        var n := CarveRest(i, total - need, offset + need, N0, T, L, F, fs, k, need);
      }
    }
  
    // A slot beyond the initial capacity is added when the stack is empty.
    method Grow()
      requires Valid() && freeOffset < maxCapacity
      modifies this`currentCapacity, freeNodes
      ensures Valid() && freeOffset < currentCapacity
    {
      ghost var a := State();
      CoreWidths(a, bins, live, free);
      if freeOffset == currentCapacity {
        SlotsGrow(a.stack, a.current, live);
        hide ListsOk, Binned, BitsOk, SlotsOk, TilesOk, Widths, Index;
        freeNodes[currentCapacity] := currentCapacity;
        currentCapacity := currentCapacity + 1;
        assert State() == a.(stack := a.stack[a.current := a.current], current := a.current + 1);
      }
    }

    // The bin allocate takes from: the lowest non-empty one at or above the rounded-up size.
    method FindBin(request: uint32) returns (binIndex: nat, ghost k: nat)
      requires Valid()
      ensures binIndex == NO_SPACE <==> !Meets(tiles, request)
      ensures binIndex != NO_SPACE ==>
        && binIndex < NUM_LEAF_BINS && |bins| == NUM_LEAF_BINS && bins[binIndex] != []
        && BestFit(tiles, RoundUp(request), k) && tiles[k].node == bins[binIndex][0]
        && FloatToUint(RoundUp(request)) <= tiles[k].size < UINT32
    {
      hide RoundDown, RoundUp, FloatToUint, ListsOk, Binned, SlotsOk, SearchBin, Chained, FreeBytes;
      ghost var a := State();
      BinRange(request);
      CoreWidths(a, bins, live, free);
      SearchBinLowest(usedBinsTop, usedBins[..], bins, RoundUp(request));
      k := 0;
      var minBinIndex := RoundUp(request);
      binIndex := SearchBin(usedBinsTop, usedBins[..], minBinIndex);
      if binIndex == NO_SPACE {
        NoFit(a, bins, tiles, live, free, minBinIndex);
      } else {
        k := LowestBinFits(a, bins, tiles, live, free, minBinIndex, binIndex);
        TileBounds(tiles, size, k);
        BinRange(tiles[k].size);
        GaloisDown(tiles[k].size, minBinIndex);
      }
    }

    // allocate: cut the rounded-up size off a free tile from the lowest bin that must fit it.
    method Allocate(request: uint32) returns (r: OffsetAllocation, ghost k: nat, ghost slot: nat)
      requires Valid()
      modifies this, usedBins, binIndices, nodes, freeNodes
      ensures Valid()
      ensures r.metadata == NO_SPACE <==> old(freeOffset) == maxCapacity || !Meets(old(tiles), request)
      ensures r.metadata == NO_SPACE ==> r == NONE && tiles == old(tiles)
      ensures r.metadata != NO_SPACE ==>
        && k < |old(tiles)| && !old(tiles)[k].used && BestFit(old(tiles), RoundUp(request), k)
        && FloatToUint(RoundUp(request)) <= old(tiles)[k].size
        && r == OffsetAllocation(old(tiles)[k].offset, old(tiles)[k].node)
        && slot !in Nodes(old(tiles))
        && tiles == Split(old(tiles), k, FloatToUint(RoundUp(request)), slot)
    {
      hide RoundDown, RoundUp, FloatToUint, CoreOk, Meets, Split, Nodes;
      CoreWidths(State(), bins, live, free);
      k, slot := 0, 0;
      if freeOffset == maxCapacity { return NONE, 0, 0; }
      Grow();
      var binIndex;
      binIndex, k := FindBin(request);
      if binIndex == NO_SPACE { return NONE, 0, 0; }
      r, slot := Carve(binIndex, FloatToUint(RoundUp(request)), k);
    }
  
    // A free left neighbour is taken out of its bin; node i takes over its left link.
    method AbsorbPrev(i: nat, ghost T: seq<Tile>, ghost k: nat) returns (offset: uint32, total: uint32)
      requires Core() && TilesOk(nodes[..], T, size, live, free, freeStorage)
      requires k < |T| && T[k].used && T[k].node == i
      modifies this`freeStorage, this`usedBinsTop, this`freeOffset, this`bins, this`live, this`free, usedBins,
        binIndices, nodes, freeNodes
      ensures Core()
      ensures live == old(live) - PrevFree(T, k) && free == old(free) - PrevFree(T, k)
      ensures offset == T[MergeFrom(T, k)].offset
      ensures total == T[k].size + PrevGain(T, k)
      ensures freeStorage == old(freeStorage) - (total - T[k].size)
      ensures Detached(old(nodes[..]), nodes[..], i, NodeBefore(T, MergeFrom(T, k)), NodeFrom(T, k + 1))
    {
      hide CoreOk, TilesOk, Merged, TileKept, SameTile, Detached, NextGain, NodeFrom, MergeTo;
      ghost var N0 := nodes[..];
      NeighborFacts(N0, T, size, live, free, freeStorage, k);
      offset, total := nodes[i].dataOffset, nodes[i].dataSize;
      var prev := nodes[i].neighborPrev;
      if prev != UNUSED && !nodes[prev].used {
        offset := nodes[prev].dataOffset;
        total := total + nodes[prev].dataSize;
        var beyond := nodes[prev].neighborPrev;
        RemoveNodeFromBin(prev);
        DetachedPrev(N0, nodes[..], i, beyond);
        SetNeighborPrev(i, beyond);
      } else {
        DetachedSelf(N0, i);
      }
    }
  
    // The same on the right.
    method AbsorbNext(
      i: nat, ghost prev: nat, ghost T: seq<Tile>, ghost k: nat, ghost N0: seq<Node>, ghost L: set<nat>,
      ghost F: set<nat>, ghost fs: nat)
      returns (more: uint32)
      requires Core() && TilesOk(N0, T, size, L, F, fs) && |N0| == nodes.Length
      requires k < |T| && T[k].used && T[k].node == i
      requires live == L - PrevFree(T, k) && free == F - PrevFree(T, k)
      requires freeStorage == fs - PrevGain(T, k)
      requires Detached(N0, nodes[..], i, prev, NodeFrom(T, k + 1))
      modifies this`freeStorage, this`usedBinsTop, this`freeOffset, this`bins, this`live, this`free, usedBins,
        binIndices, nodes, freeNodes
      ensures Core()
      ensures live == old(live) - NextFree(T, k) && free == old(free) - NextFree(T, k)
      ensures more == NextGain(T, k)
      ensures freeStorage == old(freeStorage) - more
      ensures Detached(N0, nodes[..], i, prev, NodeFrom(T, MergeTo(T, k)))
    {
      hide CoreOk, TilesOk, Merged, TileKept, SameTile, Detached, PrevFree, PrevGain, MergeFrom;
      ghost var N1 := nodes[..];
      NextFacts(N0, N1, T, size, L, F, fs, k, prev);
      more := 0;
      var next := nodes[i].neighborNext;
      if next != UNUSED && !nodes[next].used {
        more := nodes[next].dataSize;
        var beyond := nodes[next].neighborNext;
        RemoveNodeFromBin(next);
        DetachedNext(N0, N1, nodes[..], i, prev, next, beyond);
        SetNeighborNext(i, beyond);
      }
    }

    // The merged tile goes back into the slot of node i and is linked to its neighbours.
    method Reinsert(i: nat, total: uint32, offset: uint32, prev: nat, next: nat, ghost N0: seq<Node>)
      requires Core() && i in live && i !in free && i < nodes.Length == |N0|
      requires freeStorage + total < UINT32
      requires Detached(N0, nodes[..], i, prev, next)
      requires prev == UNUSED || (prev < nodes.Length && prev != i)
      requires next == UNUSED || (next < nodes.Length && next != i)
      requires prev != UNUSED ==> prev != next
      modifies this`freeStorage, this`usedBinsTop, this`freeOffset, this`bins, this`live, this`free, usedBins,
        binIndices, nodes, freeNodes
      ensures Core() && live == old(live) && free == old(free) + {i} && freeStorage == old(freeStorage) + total
      ensures Bridged(N0, nodes[..], i, prev, next, offset, total)
    {
      hide CoreOk, TileKept, SameTile, Detached, Bridged, Bridge;
      ghost var N1 := nodes[..];
      PushSlot(i);
      var combined := InsertNodeIntoBin(total, offset);
      assert live == old(live);
      BridgedBy(N0, N1, nodes[..], i, prev, next, offset, total);
      BridgeNode(combined, prev, next);
    }

    method PushSlot(i: nat)
      requires Core() && i in live && i !in free
      modifies this`freeOffset, this`live, freeNodes
      ensures Core() && live == old(live) - {i}
      ensures freeOffset == old(freeOffset) - 1 && freeOffset < currentCapacity && freeNodes[freeOffset] == i
    {
      hide CoreOk;
      ghost var a := State();
      PushedKeeps(a, bins, live, free, i);
      CoreWidths(a, bins, live, free);
      live := live - {i};
      freeOffset := freeOffset - 1;
      freeNodes[freeOffset] := i;
      assert State() == Pushed(a, i);
    }

    // The writes that connect a merged node with its neighbours.
    method BridgeNode(combined: nat, prev: nat, next: nat)
      requires Core() && combined < nodes.Length
      requires (prev != UNUSED ==> prev < nodes.Length) && (next != UNUSED ==> next < nodes.Length)
      modifies nodes
      ensures Core() && nodes[..] == Bridge(old(nodes[..]), combined, prev, next)
    {
      hide CoreOk;
      if next != UNUSED {
        SetNeighborNext(combined, next);
        SetNeighborPrev(next, combined);
      }
      if prev != UNUSED {
        SetNeighborPrev(combined, prev);
        SetNeighborNext(prev, combined);
      }
    }
  
    // Both sides: the offset and size of the merged tile and its two outer neighbours.
    method Absorb(i: nat, ghost T: seq<Tile>, ghost k: nat)
      returns (offset: uint32, total: uint32, prev: nat, next: nat)
      requires Core() && TilesOk(nodes[..], T, size, live, free, freeStorage)
      requires k < |T| && T[k].used && T[k].node == i
      modifies this`freeStorage, this`usedBinsTop, this`freeOffset, this`bins, this`live, this`free, usedBins,
        binIndices, nodes, freeNodes
      ensures Core()
      ensures live == old(live) - PrevFree(T, k) - NextFree(T, k) && free == old(free) - PrevFree(T, k) - NextFree(T, k)
      ensures Merged(T, k) == Tile(i, offset, total, false)
      ensures freeStorage == old(freeStorage) + T[k].size - total
      ensures prev == NodeBefore(T, MergeFrom(T, k)) && next == NodeFrom(T, MergeTo(T, k))
      ensures Detached(old(nodes[..]), nodes[..], i, prev, next)
    {
      hide CoreOk, TilesOk, TileKept, SameTile, Detached, Merged, PrevFree, NextFree, PrevGain, NextGain, MergeFrom,
        MergeTo, NodeBefore, NodeFrom;
      ghost var N0, L, F, fs := nodes[..], live, free, freeStorage;
      FreeFacts(N0, T, size, L, F, fs, k);
      FromWithin(T, k);
      ghost var p, n := NodeBefore(T, MergeFrom(T, k)), NodeFrom(T, MergeTo(T, k));
      offset, total := AbsorbPrev(i, T, k);
      var more := AbsorbNext(i, p, T, k, N0, L, F, fs);
      total := total + more;
      DetachedLinks(N0, nodes[..], i, p, n);
      next, prev := nodes[i].neighborNext, nodes[i].neighborPrev;
    }

    // free: tile k is merged with its free neighbours and goes back to a bin.
    method Free(allocation: OffsetAllocation, ghost k: nat)
      requires Valid() && k < |tiles| && tiles[k].used && tiles[k].node == allocation.metadata
      modifies this, usedBins, binIndices, nodes, freeNodes
      ensures Valid()
      ensures tiles == Release(old(tiles), k)
    {
      hide CoreOk, TilesOk, TileKept, SameTile, Detached, Bridged, Merged, Release, PrevFree, NextFree, PrevGain,
        NextGain, MergeFrom, MergeTo, NodeBefore, NodeFrom;
      ghost var T, N0, L, F, fs := tiles, nodes[..], live, free, freeStorage;
      FreeFacts(N0, T, size, L, F, fs, k);
      var i := allocation.metadata;
      tiles := Release(T, k);
      var offset, total, prev, next := Absorb(i, T, k);
      Reinsert(i, total, offset, prev, next, N0);
      ReleaseKept(N0, nodes[..], T, size, L, F, fs, k, offset, total, live, free, freeStorage);
    }

    // storageReport. A request of at least one byte can be met exactly when it is
    // no larger than the reported largest region.
    method StorageReport() returns (totalFreeSpace: nat, largestFreeRegion: nat)
      requires Valid()
      ensures totalFreeSpace == if freeOffset < maxCapacity then FreeBytes(tiles) else 0
      ensures freeOffset == maxCapacity ==> largestFreeRegion == 0
      ensures freeOffset < maxCapacity ==> forall s: uint32 | s >= 1 :: s <= largestFreeRegion <==> Meets(tiles, s)
      ensures freeOffset <= maxCapacity && largestFreeRegion < UINT32
    {
      hide RoundDown, RoundUp, FloatToUint, CoreOk, FreeBytes, Meets, Chained, Wf;
      largestFreeRegion, totalFreeSpace := 0, 0;
      ghost var a := State();
      CoreWidths(a, bins, live, free);
      if freeOffset < maxCapacity {
        totalFreeSpace := freeStorage;
        if !IsZero(usedBinsTop) {
          var topBinIndex := HighestSetBit(usedBinsTop);
          assert !IsZero(usedBins[topBinIndex]) by { TopBit(a, bins, live, free, topBinIndex); }
          var leafBinIndex := HighestSetBit(usedBins[topBinIndex]);
          LargestRequest(a, bins, tiles, size, live, free, topBinIndex, leafBinIndex);
          largestFreeRegion := FloatToUint(topBinIndex * 8 + leafBinIndex);
          ValueWidth(topBinIndex * 8 + leafBinIndex);
        } else {
          NoRequest(a, bins, tiles, live, free);
        }
      }
    }

    method WalkBin(i: nat) returns (count: nat)
      requires Valid() && i < NUM_LEAF_BINS
      ensures count == |FreeInBin(tiles, i)|
    {
      ghost var a := State();
      CoreWidths(a, bins, live, free);
      BinCount(a, bins, tiles, live, free, i);
      count := 0;
      var nodeIndex := binIndices[i];
      ghost var L := bins[i];
      assert ListOk(a.nodes, L, a.heads[i]);
      hide CoreOk, TilesOk, FreeInBin;
      while nodeIndex != UNUSED
        invariant count <= |L| && nodeIndex == (if count == |L| then UNUSED else L[count])
        decreases |L| - count
      {
        assert a.nodes[L[count]].binListNext == After(L, count);
        nodeIndex := nodes[nodeIndex].binListNext;
        count := count + 1;
      }
    }

    // storageReportFull: the number of free tiles in every bin, by walking the bin lists.
    method StorageReportFull() returns (regions: seq<(nat, nat)>)
      requires Valid()
      ensures |regions| == NUM_LEAF_BINS
      ensures forall b | 0 <= b < NUM_LEAF_BINS :: regions[b] == (FloatToUint(b), |FreeInBin(tiles, b)|)
    {
      hide CoreOk, TilesOk, FreeInBin, FloatToUint;
      regions := [];
      for i := 0 to NUM_LEAF_BINS
        invariant |regions| == i
        invariant forall b | 0 <= b < i :: regions[b] == (FloatToUint(b), |FreeInBin(tiles, b)|)
      {
        var count := WalkBin(i);
        regions := regions + [(FloatToUint(i), count)];
      }
    }

    // The array loops of reset.
    method ClearArrays()
      requires Shape()
      modifies usedBins, binIndices, freeNodes
      ensures forall t | 0 <= t < NUM_TOP_BINS :: usedBins[t] == Zeros(BINS_PER_LEAF)
      ensures forall b | 0 <= b < NUM_LEAF_BINS :: binIndices[b] == UNUSED
      ensures forall i | 0 <= i < currentCapacity :: freeNodes[i] == i
    {
      hide Zeros;
      for i := 0 to NUM_TOP_BINS
        invariant forall t | 0 <= t < i :: usedBins[t] == Zeros(BINS_PER_LEAF)
      {
        usedBins[i] := Zeros(BINS_PER_LEAF);
      }
      for i := 0 to NUM_LEAF_BINS
        modifies binIndices
        invariant forall b | 0 <= b < i :: binIndices[b] == UNUSED
      {
        binIndices[i] := UNUSED;
      }
      for i := 0 to currentCapacity
        modifies freeNodes
        invariant forall j | 0 <= j < i :: freeNodes[j] == j
      {
        freeNodes[i] := i;
      }
    }

    // reset: one free tile over the whole storage.
    method Reset()
      requires Shape() && currentCapacity >= 1
      modifies this, usedBins, binIndices, nodes, freeNodes
      ensures Valid() && tiles == [Tile(0, 0, size, false)] && freeOffset == 1
    {
      freeStorage := 0;
      usedBinsTop := Zeros(NUM_TOP_BINS);
      freeOffset := 0;
      tiles, bins, live, free := [Tile(0, 0, size, false)], seq(NUM_LEAF_BINS, _ => []), {}, {};
      ClearArrays();
      EmptyCore(State(), bins);
      hide CoreOk, TilesOk, TileKept, SameTile, RoundDown;
      var n := InsertNodeIntoBin(size, 0);
      WholeStorage(nodes[..], size);
    }

    constructor (size: uint32, initCapacity: nat, maxCapacity: nat)
      requires 1 <= initCapacity <= UNUSED && maxCapacity <= UNUSED
      ensures Valid() && this.size == size
      ensures this.maxCapacity == if initCapacity < maxCapacity then maxCapacity else initCapacity
      ensures fresh(usedBins) && fresh(binIndices) && fresh(nodes) && fresh(freeNodes)
      ensures tiles == [Tile(0, 0, size, false)] && freeOffset == 1
    {
      var capacity := if initCapacity < maxCapacity then maxCapacity else initCapacity;
      this.size := size;
      this.maxCapacity := capacity;
      currentCapacity, freeStorage, freeOffset, usedBinsTop := initCapacity, 0, 0, [];
      usedBins := new Word[NUM_TOP_BINS];
      binIndices := new nat[NUM_LEAF_BINS];
      nodes := new Node[capacity];
      freeNodes := new nat[capacity];
      new;
      hide CoreOk, TilesOk;
      Reset();
    }
  }

  function FreshNode(dataOffset: uint32, dataSize: uint32, next: nat): Node {
    Node(dataOffset, dataSize, UNUSED, next, UNUSED, UNUSED, false)
  }
}
