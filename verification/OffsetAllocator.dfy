/**
 The 64-bit offset allocator, which scales the 32-bit allocator by a power of two,
 and the RAII handles that own its allocations.
 */
module OffsetAllocators {
  import opened Options
  import opened SmallFloat
  import opened Bits
  import opened Tiling
  import opened BinLists
  import opened HeapArrays
  import opened HeapFacts
  import opened OffsetCore
  import opened Grants
  import opened Maps

  lemma FreshUnits(size: uint64, bits: nat)
    requires size / Pow2(bits) <= MAX_BIN_SIZE && bits <= 33
    ensures UnitsOf(size, bits) <= MAX_BIN_SIZE < UINT32 && Pow2(bits) <= MAX_UNIT
  {
    UnitBound(bits);
  }

  lemma FreshAccounted(units: nat, base: nat, bits: nat)
    ensures Accounted([Tile(0, 0, units, false)], map[], base, bits, 0, 0)
  {
    hide Pow2;
    assert UsedNodes([Tile(0, 0, units, false)]) == {};
  }

  class OffsetAllocator {
    const base: uint64
    const capacity: uint64
    const bits: nat
    const inner: Allocator
    var allocatedSize: uint64
    var allocatedNum: uint64

    ghost var grants: map<nat, Grant>

    ghost predicate Valid()
      reads this, inner, inner.usedBins, inner.binIndices, inner.nodes, inner.freeNodes
    {
      && inner.Valid() && Scale()
      && Accounted(inner.tiles, grants, base, bits, allocatedNum, allocatedSize)
    }

    // The allocator as a value.
    ghost function View(): Heap
      reads this, inner
    {
      Heap(inner.tiles, grants, base, bits, capacity)
    }

    // The objects an allocator is made of.
    ghost function Parts(): set<object>
      reads this, inner
    {
      {this, inner, inner.usedBins, inner.binIndices, inner.nodes, inner.freeNodes}
    }

    constructor (base: uint64, size: uint64, initCapacity: nat, maxCapacity: nat)
      requires 1 <= initCapacity <= UNUSED && maxCapacity <= UNUSED && base + size < UINT64
      ensures Valid() && this.base == base && capacity == size && grants == map[]
      ensures View() == NewHeap(base, size) && inner.freeOffset == 1
      ensures inner.maxCapacity == if initCapacity < maxCapacity then maxCapacity else initCapacity
      ensures fresh(inner) && fresh(inner.usedBins) && fresh(inner.binIndices) && fresh(inner.nodes) &&
        fresh(inner.freeNodes)
    {
      this.base, capacity, allocatedSize, allocatedNum, grants := base, size, 0, 0, map[];
      var multiplier := CalculateMultiplier(size);
      bits := multiplier;
      FreshUnits(size, multiplier);
      inner := new Allocator(UnitsOf(size, multiplier), initCapacity, maxCapacity);
      new;
      hide CoreOk, TilesOk, Accounted, UnitsOf, Pow2, Multiplier;
      FreshAccounted(UnitsOf(size, multiplier), base, multiplier);
    }

    // allocate. The result is the node and address of the grant.
    method Allocate(size: uint64) returns (r: Option<(OffsetAllocation, uint64)>)
      requires Valid()
      modifies this, inner, inner.usedBins, inner.binIndices, inner.nodes, inner.freeNodes
      ensures Valid()
      ensures r.None? <==>
        || size == 0 || FakeSize(size, bits) > MAX_BIN_SIZE
        || old(inner.freeOffset) == inner.maxCapacity || !Meets(old(inner.tiles), FakeSize(size, bits))
      ensures r.None? ==> grants == old(grants)
      ensures r.Some? ==>
        && r.value.0.metadata !in old(grants)
        && grants == old(grants)[r.value.0.metadata := Grant(r.value.1, size)]
        && exists k, slot :: Cuts(old(View()), View(), k, slot, size, r.value.0.metadata)
    {
      hide RoundUp, FakeSize, Meets, Cuts;
      if size == 0 { return None; }
      var fakeSize := FakeSize(size, bits);
      if fakeSize > MAX_BIN_SIZE { return None; }
      r := AllocateUnits(size, fakeSize);
    }

    method AllocateUnits(size: uint64, fakeSize: uint32) returns (r: Option<(OffsetAllocation, uint64)>)
      requires Valid() && size >= 1 && fakeSize == FakeSize(size, bits) <= MAX_BIN_SIZE
      modifies this, inner, inner.usedBins, inner.binIndices, inner.nodes, inner.freeNodes
      ensures Valid()
      ensures r.None? <==> old(inner.freeOffset) == inner.maxCapacity || !Meets(old(inner.tiles), fakeSize)
      ensures r.None? ==> grants == old(grants)
      ensures r.Some? ==>
        && r.value.0.metadata !in old(grants)
        && grants == old(grants)[r.value.0.metadata := Grant(r.value.1, size)]
        && exists k, slot :: Cuts(old(View()), View(), k, slot, size, r.value.0.metadata)
    {
      ghost var T := inner.tiles;
      assert Wf(T, inner.size);
      hide BestFit, RoundUp, RoundDown, FloatToUint, FakeSize, Pow2, Scaled, UnitsOf, Wf, CoreOk, TilesOk, Accounted,
        Wrap, Split, Nodes, Meets;
      var allocation, k, slot := inner.Allocate(fakeSize);
      if allocation.metadata != NO_SPACE { AddressFits(T, inner.size, k, capacity, bits); }
      if allocation.IsNoSpace() { return None; }
      var address := Record(allocation, size, T, k, slot);
      r := Some((allocation, address));
      assert Cuts(old(View()), View(), k, slot, size, allocation.metadata);
    }

    ghost predicate Scale()
      reads this
    {
      inner.size == UnitsOf(capacity, bits) <= MAX_BIN_SIZE && Pow2(bits) <= MAX_UNIT && base + capacity < UINT64
    }

    // The counters and the grant of a successful allocation.
    method Record(allocation: OffsetAllocation, size: uint64, ghost T: seq<Tile>, ghost k: nat, ghost slot: nat)
      returns (address: uint64)
      requires inner.Valid() && Scale() && Accounted(T, grants, base, bits, allocatedNum, allocatedSize)
      requires Wf(T, inner.size) && k < |T| && !T[k].used && slot !in Nodes(T)
      requires size >= 1 && FakeSize(size, bits) <= MAX_BIN_SIZE &&
        FloatToUint(RoundUp(FakeSize(size, bits))) <= T[k].size
      requires inner.tiles == Split(T, k, FloatToUint(RoundUp(FakeSize(size, bits))), slot)
      requires allocation == OffsetAllocation(T[k].offset, T[k].node)
      modifies this
      ensures Valid()
      ensures allocation.metadata !in old(grants) && grants == old(grants)[allocation.metadata := Grant(address, size)]
      ensures Cuts(old(Heap(T, grants, base, bits, capacity)), View(), k, slot, size, allocation.metadata)
    {
      hide UnitsOf, Scaled, Pow2, FakeSize, RoundUp, FloatToUint, Split, Nodes, Wf, Accounted, Wrap, CoreOk, TilesOk;
      AddressFits(T, inner.size, k, capacity, bits);
      GrantAdded(T, inner.size, grants, base, bits, k, slot, size, allocatedNum, allocatedSize, inner.tiles);
      address := base + Scaled(allocation.offset, bits);
      allocatedSize := Wrap(allocatedSize + size);
      allocatedNum := Wrap(allocatedNum + 1);
      grants := grants[allocation.metadata := Grant(address, size)];
    }

    // freeAllocation: the grant of a node goes back to the inner allocator.
    method FreeAllocation(allocation: OffsetAllocation, size: uint64)
      requires Valid() && allocation.metadata in grants && grants[allocation.metadata].size == size
      modifies this, inner, inner.usedBins, inner.binIndices, inner.nodes, inner.freeNodes
      ensures Valid()
      ensures grants == old(grants) - {allocation.metadata}
      ensures exists k :: Releases(old(View()), View(), k, allocation.metadata)
    {
      ghost var T := inner.tiles;
      ghost var k := GrantTile(T, inner.size, grants, base, bits, allocation.metadata);
      hide CoreOk, TilesOk, Accounted, Release, Wf, UnitsOf, Pow2, GrantsOk;
      inner.Free(allocation, k);
      Forget(allocation, size, T, k);
      assert Releases(old(View()), View(), k, allocation.metadata);
    }

    method Forget(allocation: OffsetAllocation, size: uint64, ghost T: seq<Tile>, ghost k: nat)
      requires inner.Valid() && Scale() && Accounted(T, grants, base, bits, allocatedNum, allocatedSize)
      requires Wf(T, inner.size) && k < |T| && T[k].used && T[k].node == allocation.metadata &&
        inner.tiles == Release(T, k)
      requires allocation.metadata in grants && grants[allocation.metadata].size == size
      modifies this
      ensures Valid() && grants == old(grants) - {allocation.metadata}
    {
      hide CoreOk, TilesOk, Accounted, Release, Wf, UnitsOf, Pow2, Wrap;
      GrantRemoved(T, inner.size, grants, base, bits, k, allocatedNum, allocatedSize);
      allocatedSize := Wrap(allocatedSize - size);
      allocatedNum := Wrap(allocatedNum - 1);
      grants := grants - {allocation.metadata};
    }

    // storageReport in bytes: a sound request can be met exactly when it is no
    // larger than the reported largest region.
    method StorageReport() returns (totalFreeSpace: nat, largestFreeRegion: nat)
      requires Valid()
      ensures totalFreeSpace == if inner.freeOffset < inner.maxCapacity then Scaled(FreeBytes(inner.tiles), bits) else 0
      ensures inner.freeOffset == inner.maxCapacity ==> largestFreeRegion == 0
      ensures inner.freeOffset < inner.maxCapacity ==>
        forall s: uint64 | s >= 1 && Sound(s, bits) ::
          s <= largestFreeRegion <==> FakeSize(s, bits) < UINT32 && Meets(inner.tiles, FakeSize(s, bits))
    {
      hide CoreOk, TilesOk, Accounted, UnitsOf, FreeBytes, Sound, FakeSize, Scaled, Pow2, Meets;
      var total, largest := inner.StorageReport();
      totalFreeSpace, largestFreeRegion := Scaled(total, bits), Scaled(largest, bits);
      ZeroScaled(bits);
      if inner.freeOffset < inner.maxCapacity {
        forall s: uint64 | s >= 1 && Sound(s, bits)
          ensures s <= largestFreeRegion <==> FakeSize(s, bits) < UINT32 && Meets(inner.tiles, FakeSize(s, bits))
        {
          UnitsNeeded(s, largest, bits);
        }
      }
    }
  }

  // ---- handles ----

  // The weak pointer is empty (null) or points at the allocator that made the handle.
  class Handle {
    var allocator: OffsetAllocator?
    var allocation: OffsetAllocation
    var realBase: uint64
    var requestedSize: uint64

    constructor (A: OffsetAllocator, allocation: OffsetAllocation, realBase: uint64, requestedSize: uint64)
      ensures allocator == A && this.allocation == allocation && this.realBase == realBase &&
        this.requestedSize == requestedSize
    {
      this.allocator, this.allocation, this.realBase, this.requestedSize := A, allocation, realBase, requestedSize;
    }

    // Empty, or made by A.
    ghost predicate Of(A: OffsetAllocator)
      reads this
    {
      allocator == null || allocator == A
    }

    // Move constructor: the grant changes hands, the other handle is left empty.
    constructor Move(other: Handle, ghost A: OffsetAllocator, ghost holder: map<nat, Handle>, ghost H: set<Handle>)
      requires Owns(A, H, holder) && other in H && other.Of(A)
      modifies other
      ensures allocator == old(other.allocator) && allocation == old(other.allocation)
      ensures realBase == old(other.realBase) && requestedSize == old(other.requestedSize)
      ensures other.allocator == null
      ensures Owns(A, H + {this}, Passed(holder, old(other.allocator), old(other.allocation.metadata), this))
    {
      hide OwnsIn, Passed;
      ghost var S := Snap(H);
      allocator, allocation := other.allocator, other.allocation;
      realBase, requestedSize := other.realBase, other.requestedSize;
      new;
      HandedOver(S, A, A.grants, holder, this, other);
      other.allocator, other.allocation, other.realBase, other.requestedSize := null, NONE, 0, 0;
      ghost var after: map<Handle, Content> := S[other := EMPTY];
      after := after[this := S[other]];
      assert Snap(H + {this}) == after;
    }

    // Destructor: a handle that still holds a grant gives it back.
    method Destroy(ghost A: OffsetAllocator, ghost holder: map<nat, Handle>, ghost H: set<Handle>)
      requires A.Valid() && Owns(A, H, holder) && this in H && Of(A)
      modifies if allocator == null then {} else A.Parts()
      ensures A.Valid()
      ensures A.grants == if allocator == null then old(A.grants) else old(A.grants) - {allocation.metadata}
      ensures Owns(A, H - {this}, if allocator == null then holder else holder - {allocation.metadata})
    {
      hide CoreOk, TilesOk, Accounted, UnitsOf, Pow2, OwnsIn;
      ghost var S := Snap(H);
      HandleGoes(S, A, A.grants, holder, this);
      assert Snap(H - {this}) == S - {this};
      if allocator != null {
        assert Snap(H)[this].allocator == A;
        allocator.FreeAllocation(allocation, requestedSize);
        assert Snap(H - {this}) == S - {this};
      }
    }

    // Move assignment: the old grant is given back, then the other's grant changes hands. The handles
    // may be of one allocator or of two.
    method MoveAssign(
      other: Handle, ghost A: OffsetAllocator, ghost holderA: map<nat, Handle>,
      ghost B: OffsetAllocator, ghost holderB: map<nat, Handle>, ghost H: set<Handle>)
      returns (ghost holderA': map<nat, Handle>, ghost holderB': map<nat, Handle>)
      requires A.Valid() && Owns(A, H, holderA) && this in H && Of(A)
      requires B.Valid() && Owns(B, H, holderB) && other in H && other.Of(B)
      requires if A == B then holderA == holderB else A.Parts() !! B.Parts()
      modifies this, other, A.Parts()
      ensures A.Valid() && B.Valid() && Owns(A, H, holderA') && Owns(B, H, holderB')
      ensures this == other ==>
        A.grants == old(A.grants) && allocator == old(allocator) && allocation == old(allocation)
      ensures this != other ==>
        && A.grants == (if old(allocator) == null then old(A.grants) else old(A.grants) - {old(allocation.metadata)})
        && allocator == old(other.allocator) && allocation == old(other.allocation)
        && realBase == old(other.realBase) && requestedSize == old(other.requestedSize)
        && other.allocator == null
      ensures A != B ==> B.grants == old(B.grants)
    {
      hide CoreOk, TilesOk, Accounted, UnitsOf, Pow2, OwnsIn, Passed;
      holderA', holderB' := holderA, holderB;
      if this != other {
        ghost var a0, n0 := allocator, allocation.metadata;
        if A != B { HandleGoes(Snap(H), B, B.grants, holderB, this); }
        assert Snap(H - {this}) == Snap(H) - {this};
        Destroy(A, holderA, H);
        holderA' := if a0 == null then holderA else holderA - {n0};
        if A == B { holderB' := holderA'; }
        ghost var a1, n1 := other.allocator, other.allocation.metadata;
        Steal(other, B, holderB', A, holderA', H - {this});
        assert H - {this} + {this} == H;
        holderB' := Passed(holderB', a1, n1, this);
        if A == B { holderA' := holderB'; }
      }
    }

    // The grant of another handle, which is of B, changes hands; nothing changes for another allocator A.
    method Steal(
      other: Handle, ghost B: OffsetAllocator, ghost holderB: map<nat, Handle>,
      ghost A: OffsetAllocator, ghost holderA: map<nat, Handle>, ghost H: set<Handle>)
      requires Owns(B, H, holderB) && Owns(A, H, holderA) && other in H && this !in H && other.Of(B)
      modifies this, other
      ensures allocator == old(other.allocator) && allocation == old(other.allocation)
      ensures realBase == old(other.realBase) && requestedSize == old(other.requestedSize)
      ensures other.allocator == null
      ensures Owns(B, H + {this}, Passed(holderB, old(other.allocator), old(other.allocation.metadata), this))
      ensures A != B ==> Owns(A, H + {this}, holderA)
    {
      hide OwnsIn, Passed;
      ghost var S := Snap(H);
      HandedOver(S, B, B.grants, holderB, this, other);
      if A != B { Bystander(S, A, A.grants, holderA, this, other); }
      allocator, allocation := other.allocator, other.allocation;
      realBase, requestedSize := other.realBase, other.requestedSize;
      other.allocator, other.allocation, other.realBase, other.requestedSize := null, NONE, 0, 0;
      ghost var after: map<Handle, Content> := S[other := EMPTY];
      after := after[this := S[other]];
      assert Snap(H + {this}) == after;
    }
  }

  ghost function Passed(holder: map<nat, Handle>, from: OffsetAllocator?, n: nat, to: Handle): map<nat, Handle> {
    if from == null then holder else holder[n := to]
  }

  // What a handle has in its fields.
  datatype Content = Content(
    allocator: OffsetAllocator?, allocation: OffsetAllocation, realBase: uint64, requestedSize: uint64)

  const EMPTY := Content(null, NONE, 0, 0)

  ghost function Snap(H: set<Handle>): map<Handle, Content>
    reads H
  {
    map h | h in H :: Content(h.allocator, h.allocation, h.realBase, h.requestedSize)
  }

  // Every grant of A is held by its holder, and every handle of A in H is the holder of its grant.
  ghost predicate Owns(A: OffsetAllocator, H: set<Handle>, holder: map<nat, Handle>)
    reads A, H
  {
    OwnsIn(Snap(H), A, A.grants, holder)
  }

  ghost predicate OwnsIn(
    S: map<Handle, Content>, A: OffsetAllocator, grants: map<nat, Grant>, holder: map<nat, Handle>)
  {
    && holder.Keys == grants.Keys
    && (forall n | n in holder ::
         holder[n] in S && S[holder[n]].allocator == A && S[holder[n]].allocation.metadata == n)
    && (forall h | h in S && S[h].allocator == A ::
          && S[h].allocation.metadata in holder && holder[S[h].allocation.metadata] == h
          && grants[S[h].allocation.metadata] == Grant(S[h].realBase, S[h].requestedSize))
  }

  lemma HandedOver(
    S: map<Handle, Content>, A: OffsetAllocator, grants: map<nat, Grant>, holder: map<nat, Handle>,
    to: Handle, from: Handle)
    requires OwnsIn(S, A, grants, holder) && from in S && to !in S
    requires S[from].allocator == null || S[from].allocator == A
    ensures OwnsIn(S[from := EMPTY][to := S[from]], A, grants,
      Passed(holder, S[from].allocator, S[from].allocation.metadata, to))
  {}

  // A new grant with a new handle.
  lemma HandleComes(
    S: map<Handle, Content>, A: OffsetAllocator, grants: map<nat, Grant>, holder: map<nat, Handle>,
    h: Handle, x: Content)
    requires OwnsIn(S, A, grants, holder) && h !in S && x.allocator == A && x.allocation.metadata !in grants
    ensures var n := x.allocation.metadata;
      OwnsIn(S[h := x], A, grants[n := Grant(x.realBase, x.requestedSize)], holder[n := h])
  {}

  // A handle goes, and its grant with it when it had one of A.
  lemma HandleGoes(
    S: map<Handle, Content>, A: OffsetAllocator, grants: map<nat, Grant>, holder: map<nat, Handle>, h: Handle)
    requires OwnsIn(S, A, grants, holder) && h in S
    ensures S[h].allocator != A ==> OwnsIn(S - {h}, A, grants, holder)
    ensures S[h].allocator == A ==>
      && S[h].allocation.metadata in grants
      && grants[S[h].allocation.metadata] == Grant(S[h].realBase, S[h].requestedSize)
      && OwnsIn(S - {h}, A, grants - {S[h].allocation.metadata}, holder - {S[h].allocation.metadata})
  {}

  // A grant of another allocator changes hands: nothing changes for A.
  lemma Bystander(
    S: map<Handle, Content>, A: OffsetAllocator, grants: map<nat, Grant>, holder: map<nat, Handle>,
    to: Handle, from: Handle)
    requires OwnsIn(S, A, grants, holder) && from in S && to !in S && S[from].allocator != A
    ensures OwnsIn(S[from := EMPTY][to := S[from]], A, grants, holder)
  {}

  // allocate, with the handle it returns.
  method AllocateHandle(A: OffsetAllocator, size: uint64, ghost holder: map<nat, Handle>, ghost H: set<Handle>)
    returns (h: Handle?, ghost holder': map<nat, Handle>)
    requires A.Valid() && Owns(A, H, holder)
    modifies A, A.inner, A.inner.usedBins, A.inner.binIndices, A.inner.nodes, A.inner.freeNodes
    ensures A.Valid()
    ensures h == null ==> A.grants == old(A.grants) && Owns(A, H, holder)
    ensures h != null ==>
      && fresh(h) && h.requestedSize == size && h.allocation.metadata !in old(A.grants)
      && A.grants == old(A.grants)[h.allocation.metadata := Grant(h.realBase, size)]
      && Owns(A, H + {h}, holder')
  {
    hide CoreOk, TilesOk, Accounted, UnitsOf, Pow2, FakeSize, Meets, OwnsIn;
    ghost var S, grants := Snap(H), A.grants;
    h, holder' := null, holder;
    var r := A.Allocate(size);
    assert Snap(H) == S;
    if r.Some? {
      h := new Handle(A, r.value.0, r.value.1, size);
      holder' := holder[r.value.0.metadata := h];
      HandleComes(S, A, grants, holder, h, Content(A, r.value.0, r.value.1, size));
      assert Snap(H + {h}) == S[h := Content(A, r.value.0, r.value.1, size)];
    }
  }

  // The handles of A.
  ghost function Mine(S: map<Handle, Content>, A: OffsetAllocator): map<Handle, Content> {
    map h | h in S && S[h].allocator == A :: S[h]
  }

  ghost function Requested(S: map<Handle, Content>): nat
    decreases |S|
  {
    if S == map[] then 0
    else
      var h := Pick(S);
      Smaller(S, h);
      S[h].requestedSize + Requested(S - {h})
  }

  lemma {:induction false} RequestedWithout(S: map<Handle, Content>, h: Handle)
    requires h in S
    ensures Requested(S) == S[h].requestedSize + Requested(S - {h})
    decreases |S|
  {
    Smaller(S, h);
    var g := Pick(S);
    if g != h {
      Smaller(S, g);
      RequestedWithout(S - {g}, h);
      RequestedWithout(S - {h}, g);
      assert S - {g} - {h} == S - {h} - {g};
    }
  }

  lemma {:induction false} RequestedIsGranted(
    S: map<Handle, Content>, A: OffsetAllocator, grants: map<nat, Grant>, holder: map<nat, Handle>)
    requires OwnsIn(S, A, grants, holder)
    ensures Requested(Mine(S, A)) == TotalSize(grants)
    decreases |grants|
  {
    hide OwnsIn, Requested, TotalSize, Mine;
    if grants == map[] {
      NoHandles(S, A, holder);
    } else {
      var n := Pick(grants);
      var h := HolderOf(S, A, grants, holder, n);
      Smaller(grants, n);
      HandleGoes(S, A, grants, holder, h);
      RequestedIsGranted(S - {h}, A, grants - {n}, holder - {n});
      MineWithout(S, A, h);
      RequestedWithout(Mine(S, A), h);
      TotalWithout(grants, n);
    }
  }

  lemma MineWithout(S: map<Handle, Content>, A: OffsetAllocator, h: Handle)
    requires h in S && S[h].allocator == A
    ensures h in Mine(S, A) && Mine(S, A)[h] == S[h] && Mine(S - {h}, A) == Mine(S, A) - {h}
  {}

  lemma NoHandles(S: map<Handle, Content>, A: OffsetAllocator, holder: map<nat, Handle>)
    requires OwnsIn(S, A, map[], holder)
    ensures Requested(Mine(S, A)) == 0 == TotalSize(map[])
  {
    assert Mine(S, A) == map[];
  }

  lemma HolderOf(S: map<Handle, Content>, A: OffsetAllocator, grants: map<nat, Grant>, holder: map<nat, Handle>, n: nat)
    returns (h: Handle)
    requires OwnsIn(S, A, grants, holder) && n in grants
    ensures h in S && S[h].allocator == A && S[h].allocation.metadata == n
  {
    h := holder[n];
  }

  // The handles of an allocator are exactly as many as its grants, and what they asked for adds up
  // to what is granted: so the counters of the allocator count handles and their bytes.
  lemma LiveHandles(A: OffsetAllocator, H: set<Handle>, holder: map<nat, Handle>)
    requires Owns(A, H, holder)
    ensures |set h | h in H && h.allocator == A| == |A.grants|
    ensures Requested(Mine(Snap(H), A)) == TotalSize(A.grants)
    ensures A.Valid() ==>
      && A.allocatedNum == Wrap(|set h | h in H && h.allocator == A|)
      && A.allocatedSize == Wrap(Requested(Mine(Snap(H), A)))
  {
    hide Wrap;
    RequestedIsGranted(Snap(H), A, A.grants, holder);
    var live := set h | h in H && h.allocator == A;
    assert forall h | h in H :: Snap(H)[h].allocator == h.allocator;
    assert live == holder.Values;
    CountHolders(holder);
    assert |holder| == |holder.Keys| == |A.grants.Keys| == |A.grants|;
  }

  lemma {:induction false} CountHolders(holder: map<nat, Handle>)
    requires forall m, n | m in holder && n in holder && m != n :: holder[m] != holder[n]
    ensures |holder.Values| == |holder|
    decreases |holder|
  {
    if |holder| > 0 {
      var n :| n in holder;
      var rest := holder - {n};
      assert rest.Keys == holder.Keys - {n};
      CountHolders(rest);
      assert forall m | m in holder && m != n :: m in rest && rest[m] == holder[m];
      assert holder.Values == rest.Values + {holder[n]} by {
        forall h | h in holder.Values ensures h in rest.Values + {holder[n]} {
          var m :| m in holder && holder[m] == h;
          assert m != n ==> rest[m] in rest.Values;
        }
      }
    }
  }

  // ---- a request that wraps ----

  // Two to the power of 33 bytes, counted in units of four.
  lemma WideUnits()
    ensures Multiplier(0x2_0000_0000, 0) == 2 && Pow2(2) == 4
  {
    assert Pow2(0) == 1 && Pow2(1) == 2 && Pow2(2) == 4;
    assert Multiplier(0x2_0000_0000, 2) == 2;
  }

  lemma WrapsToNothing()
    ensures !Sound(UINT64 - 1, 2) && FakeSize(UINT64 - 1, 2) == 0
  {
    WideUnits();
    FakeSizeMeaning(UINT64 - 1, 2);
  }

  // A new allocator of that size grants a request of all but one of 2^64 bytes: rounding it up wraps,
  // and it becomes a request of zero units.
  method GrantWrapped() returns (r: Option<(OffsetAllocation, uint64)>, request: uint64, capacity: uint64)
    ensures r.Some? && request > capacity
  {
    hide CoreOk, TilesOk, Accounted, UnitsOf, Pow2, FakeSize, Wf, Cuts, Multiplier;
    WideUnits();
    WrapsToNothing();
    request, capacity := UINT64 - 1, 0x2_0000_0000;
    var A := new OffsetAllocator(0, capacity, 2, 2);
    ZeroMeets(A.inner.tiles);
    r := A.Allocate(request);
  }

  lemma ZeroMeets(T: seq<Tile>)
    requires |T| == 1 && !T[0].used
    ensures Meets(T, 0)
  {
    assert RoundUp(0) == 0;
  }
}
