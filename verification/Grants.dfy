/**
 What the allocations of the 64-bit offset allocator mean in bytes: the scaling of
 sizes by a power of two, with the wrap-around of the computation written out, and
 the grants that the used tiles stand for.
 */
module Grants {
  import opened Maps
  import opened SmallFloat
  import opened Tiling
  import opened TilingFacts

  const UINT64: nat := 0x1_0000_0000_0000_0000

  type uint64 = x: int | 0 <= x < UINT64

  datatype Grant = Grant(address: nat, size: uint64)

  // ---- scaling ----

  // Units have at most this many bytes.
  const MAX_UNIT: nat := 0x2_0000_0000

  // The smallest shift from b on that brings a capacity down to the largest bin.
  function Multiplier(size: uint64, b: nat): nat
    decreases 33 - b
  {
    if b >= 33 || size / Pow2(b) <= MAX_BIN_SIZE then b else Multiplier(size, b + 1)
  }

  lemma {:induction false} MultiplierBound(size: uint64, b: nat)
    requires b <= 33
    ensures b <= Multiplier(size, b) <= 33
    decreases 33 - b
  {
    if b < 33 { MultiplierBound(size, b + 1); }
  }

  // The smallest shift that brings a capacity down to the largest bin.
  method CalculateMultiplier(size: uint64) returns (bits: nat)
    ensures bits == Multiplier(size, 0)
    ensures size / Pow2(bits) <= MAX_BIN_SIZE
    ensures forall b: nat | b < bits :: size / Pow2(b) > MAX_BIN_SIZE
    ensures bits <= 33
  {
    bits := 0;
    while MAX_BIN_SIZE < size / Pow2(bits)
      invariant forall b: nat | b < bits :: size / Pow2(b) > MAX_BIN_SIZE
      invariant bits <= 33 && Multiplier(size, bits) == Multiplier(size, 0)
      decreases 33 - bits
    {
      ShiftBound(size, bits);
      bits := bits + 1;
    }
  }

  lemma {:induction false} Pow2Mono(a: nat, b: nat)
    requires a <= b
    ensures Pow2(a) <= Pow2(b)
  {
    if a < b { Pow2Mono(a, b - 1); }
  }

  lemma Pow2At33()
    ensures Pow2(33) == 0x2_0000_0000
  {
    assert Pow2(8) == 0x100;
    assert Pow2(16) == 0x1_0000;
    assert Pow2(24) == 0x100_0000;
    assert Pow2(32) == 0x1_0000_0000;
  }

  lemma ShiftBound(size: uint64, bits: nat)
    requires MAX_BIN_SIZE < size / Pow2(bits)
    ensures bits < 33
  {
    if bits >= 33 {
      Pow2Mono(33, bits);
      Pow2At33();
      assert false;
    }
  }

  // The request in units of 2^bits, as the source computes it: the addition wraps at 2^64.
  function FakeSize(size: uint64, bits: nat): nat {
    if bits > 0 then (size + Pow2(bits) - 1) % UINT64 / Pow2(bits) else size
  }

  // The requests for which the addition does not wrap.
  predicate Sound(size: uint64, bits: nat) {
    size + Pow2(bits) - 1 < UINT64
  }

  // A sound request is rounded up to whole units; any other positive one becomes zero units.
  lemma FakeSizeMeaning(size: uint64, bits: nat)
    requires size >= 1 && Pow2(bits) <= UINT64
    ensures Sound(size, bits) ==>
      FakeSize(size, bits) >= 1 && (FakeSize(size, bits) - 1) * Pow2(bits) < size <= FakeSize(size, bits) * Pow2(bits)
    ensures !Sound(size, bits) ==> FakeSize(size, bits) == 0
  {
    var p := Pow2(bits);
    if Sound(size, bits) {
      CeilDiv(size, p);
      WholeUnits(size, p);
    } else {
      hide Pow2;
      assert (size + p - 1) % UINT64 == size + p - 1 - UINT64 by { WrapOnce(size + p - 1); }
      SmallDiv(size + p - 1 - UINT64, p);
    }
  }

  lemma WrapOnce(x: nat)
    requires UINT64 <= x < 2 * UINT64
    ensures x % UINT64 == x - UINT64
  {}

  lemma SmallDiv(x: nat, p: nat)
    requires x < p
    ensures x / p == 0
  {}

  lemma WholeUnits(size: nat, p: nat)
    requires p >= 1 && size + p - 1 < UINT64
    ensures (size + p - 1) % UINT64 / p == (size + p - 1) / p
  {}

  lemma CeilDiv(size: nat, p: nat)
    requires size >= 1 && p >= 1
    ensures var q := (size + p - 1) / p; q >= 1 && (q - 1) * p < size <= q * p
  {
    var q, r := (size + p - 1) / p, (size + p - 1) % p;
    assert size + p - 1 == q * p + r;
    assert (q - 1) * p == q * p - p;
  }

  // A number of bytes in whole units.
  function UnitsOf(capacity: nat, bits: nat): nat {
    DivNonNegative(capacity, Pow2(bits));
    capacity / Pow2(bits)
  }

  lemma DivNonNegative(a: nat, p: nat)
    requires p >= 1
    ensures a / p >= 0
  {}

  // A number of units in bytes.
  function Scaled(units: nat, bits: nat): nat {
    units * Pow2(bits)
  }

  // ---- grants: what the live allocations mean in bytes ----

  // The used tiles are the granted nodes; a grant sits at its tile's scaled offset,
  // and its tile covers the request exactly when the request was sound.
  ghost predicate GrantsOk(T: seq<Tile>, grants: map<nat, Grant>, base: nat, bits: nat) {
    && grants.Keys == UsedNodes(T)
    && forall q | 0 <= q < |T| && T[q].used ::
         T[q].node in grants && TileGrant(T[q], grants[T[q].node], base, bits)
  }

  ghost predicate TileGrant(t: Tile, g: Grant, base: nat, bits: nat) {
    && g.address == base + Scaled(t.offset, bits) && g.size >= 1
    && (Sound(g.size, bits) <==> g.size <= Scaled(t.size, bits))
  }

  lemma GrantsSplit(
    T: seq<Tile>, size: nat, grants: map<nat, Grant>, base: nat, bits: nat, k: nat, need: nat, slot: nat, g: Grant)
    requires GrantsOk(T, grants, base, bits) && Wf(T, size) && k < |T| && !T[k].used && need <= T[k].size &&
      slot !in Nodes(T)
    requires TileGrant(T[k].(size := need, used := true), g, base, bits)
    ensures T[k].node !in grants
    ensures GrantsOk(Split(T, k, need, slot), grants[T[k].node := g], base, bits)
  {
    hide TileGrant, Split, UsedNodes, Contiguous, Coalesced;
    var S := Split(T, k, need, slot);
    NotUsed(T, k);
    SplitUsed(T, k, need, slot);
    forall q | 0 <= q < |S| && S[q].used
      ensures S[q].node in grants[T[k].node := g] && TileGrant(S[q], grants[T[k].node := g][S[q].node], base, bits)
    {
      var p := SplitSource(T, k, need, slot, q);
    }
  }

  // A used tile after the cut is the cut tile or was there before.
  lemma SplitSource(T: seq<Tile>, k: nat, need: nat, slot: nat, q: nat) returns (p: nat)
    requires k < |T| && need <= T[k].size && q < |Split(T, k, need, slot)| && Split(T, k, need, slot)[q].used
    ensures p < |T| && Split(T, k, need, slot)[q] == if p == k then T[k].(size := need, used := true) else T[p]
  {
    var M := CutTile(T[k], need, slot);
    SpliceIndex(T, k, k + 1, M);
    p := if q <= k then q else q - |M| + 1;
  }

  lemma NotUsed(T: seq<Tile>, k: nat)
    requires DistinctNodes(T) && k < |T| && !T[k].used
    ensures T[k].node !in UsedNodes(T)
  {}

  // The cut tile joins the used nodes.
  lemma SplitUsed(T: seq<Tile>, k: nat, need: nat, slot: nat)
    requires DistinctNodes(T) && k < |T| && !T[k].used && need <= T[k].size
    ensures UsedNodes(Split(T, k, need, slot)) == UsedNodes(T) + {T[k].node}
  {
    var M := CutTile(T[k], need, slot);
    SpliceNodes(T, k, k + 1, M);
    assert T[k..k + 1][0] == T[k] && UsedNodes(T[k..k + 1]) == {};
    assert M[0].used && M[0].node == T[k].node;
    assert UsedNodes(M) == {T[k].node};
  }

  lemma GrantsRelease(T: seq<Tile>, size: nat, grants: map<nat, Grant>, base: nat, bits: nat, k: nat)
    requires GrantsOk(T, grants, base, bits) && Wf(T, size) && k < |T| && T[k].used
    ensures T[k].node in grants && GrantsOk(Release(T, k), grants - {T[k].node}, base, bits)
  {
    var i, j, m := MergeFrom(T, k), MergeTo(T, k), Merged(T, k);
    var S := Splice(T, i, j, [m]);
    hide TileGrant, Merged;
    SpliceIndex(T, i, j, [m]);
    ReleaseUsed(T, size, k);
    forall q | 0 <= q < |S| && S[q].used
      ensures S[q].node in grants - {T[k].node} && TileGrant(S[q], (grants - {T[k].node})[S[q].node], base, bits)
    {
      var p := if q < i then q else q - 1 + (j - i);
      assert q != i;
      assert S[q] == T[p];
    }
  }

  // Sound grants lie inside the region and never overlap.
  lemma GrantsDisjoint(T: seq<Tile>, size: nat, grants: map<nat, Grant>, base: nat, bits: nat, m: nat, n: nat)
    requires GrantsOk(T, grants, base, bits) && Wf(T, size) && m in grants && n in grants
    requires Sound(grants[m].size, bits) && Sound(grants[n].size, bits)
    ensures base <= grants[m].address && grants[m].address + grants[m].size <= base + Scaled(size, bits)
    ensures m != n ==>
      || grants[m].address + grants[m].size <= grants[n].address
      || grants[n].address + grants[n].size <= grants[m].address
  {
    var i, j := UsedAt(T, m), UsedAt(T, n);
    assert TileGrant(T[i], grants[m], base, bits) && TileGrant(T[j], grants[n], base, bits);
    EndMono(T, size, i);
    ScaledEnd(T[i], size, bits);
    if i < j {
      Ordered(T, size, i, j);
      ScaledEnd(T[i], T[j].offset, bits);
    } else if j < i {
      Ordered(T, size, j, i);
      ScaledEnd(T[j], T[i].offset, bits);
    }
  }

  lemma ScaledEnd(t: Tile, hi: nat, bits: nat)
    requires End(t) <= hi
    ensures Scaled(t.offset, bits) + Scaled(t.size, bits) <= Scaled(hi, bits)
  {
    MulMono(End(t), hi, Pow2(bits));
    assert End(t) * Pow2(bits) == t.offset * Pow2(bits) + t.size * Pow2(bits);
  }

  // ---- the total of the granted sizes ----

  ghost function TotalSize(grants: map<nat, Grant>): nat
    decreases |grants|
  {
    if |grants| == 0 then 0
    else
      var n := Pick(grants);
      Smaller(grants, n);
      grants[n].size + TotalSize(grants - {n})
  }

  lemma {:induction false} TotalWithout(grants: map<nat, Grant>, n: nat)
    requires n in grants
    ensures TotalSize(grants) == grants[n].size + TotalSize(grants - {n})
    ensures |grants - {n}| == |grants| - 1
    decreases |grants|
  {
    Smaller(grants, n);
    var m := Pick(grants);
    if m != n {
      Smaller(grants, m);
      TotalWithout(grants - {m}, n);
      TotalWithout(grants - {n}, m);
      assert grants - {m} - {n} == grants - {n} - {m};
    }
  }

  lemma TotalWith(grants: map<nat, Grant>, n: nat, g: Grant)
    requires n !in grants
    ensures TotalSize(grants[n := g]) == TotalSize(grants) + g.size
    ensures |grants[n := g]| == |grants| + 1
  {
    TotalWithout(grants[n := g], n);
    assert grants[n := g] - {n} == grants;
  }

  lemma Accumulate(part: nat, total: nat, rest: nat, units: nat, whole: nat, bits: nat)
    requires part <= Scaled(units, bits) && total <= Scaled(rest, bits) && whole == rest + units
    ensures part + total <= Scaled(whole, bits)
  {
    assert (rest + units) * Pow2(bits) == rest * Pow2(bits) + units * Pow2(bits);
  }

  // The grants of sound requests.
  ghost function SoundOnes(grants: map<nat, Grant>, bits: nat): map<nat, Grant> {
    map n | n in grants && Sound(grants[n].size, bits) :: grants[n]
  }

  ghost function SoundSize(grants: map<nat, Grant>, bits: nat): nat {
    TotalSize(SoundOnes(grants, bits))
  }

  lemma SoundWithout(grants: map<nat, Grant>, bits: nat, n: nat)
    requires n in grants
    ensures SoundSize(grants, bits) ==
      SoundSize(grants - {n}, bits) + if Sound(grants[n].size, bits) then grants[n].size else 0
  {
    hide TotalSize, Sound;
    assert SoundOnes(grants - {n}, bits) == SoundOnes(grants, bits) - {n};
    if Sound(grants[n].size, bits) {
      TotalWithout(SoundOnes(grants, bits), n);
    } else {
      assert SoundOnes(grants, bits) - {n} == SoundOnes(grants, bits);
    }
  }

  // The sound grants together take no more bytes than the used tiles have.
  lemma {:induction false} SoundTotal(T: seq<Tile>, size: nat, grants: map<nat, Grant>, base: nat, bits: nat)
    requires GrantsOk(T, grants, base, bits) && Wf(T, size)
    ensures FreeBytes(T) <= size && SoundSize(grants, bits) <= Scaled(size - FreeBytes(T), bits)
    decreases |grants|
  {
    hide *;
    FreeWithin(T, size);
    if |grants| == 0 {
      TotalNone(grants, size - FreeBytes(T), bits);
    } else {
      var k := SomeUsed(T, grants, base, bits);
      var n := T[k].node;
      var part := if Sound(grants[n].size, bits) then grants[n].size else 0;
      SoundTotalStep(T, size, grants, base, bits, k);
      SoundTotal(Release(T, k), size, grants - {n}, base, bits);
      Accumulate(part, SoundSize(grants - {n}, bits), size - FreeBytes(Release(T, k)), T[k].size,
        size - FreeBytes(T), bits);
    }
  }

  lemma FreeWithin(T: seq<Tile>, size: nat)
    requires Wf(T, size)
    ensures FreeBytes(T) <= size
  {
    FreeBelow(T, size, |T|);
  }

  lemma TotalNone(grants: map<nat, Grant>, units: nat, bits: nat)
    requires |grants| == 0
    ensures SoundSize(grants, bits) <= Scaled(units, bits)
  {
    hide Scaled, Sound;
    assert SoundOnes(grants, bits) == map[];
  }

  lemma SomeUsed(T: seq<Tile>, grants: map<nat, Grant>, base: nat, bits: nat) returns (k: nat)
    requires GrantsOk(T, grants, base, bits) && |grants| > 0
    ensures k < |T| && T[k].used && T[k].node in grants
    ensures (if Sound(grants[T[k].node].size, bits) then grants[T[k].node].size else 0) <= Scaled(T[k].size, bits)
  {
    hide Sound, Pow2;
    k := UsedAt(T, Pick(grants));
    assert TileGrant(T[k], grants[T[k].node], base, bits);
  }

  lemma SoundTotalStep(T: seq<Tile>, size: nat, grants: map<nat, Grant>, base: nat, bits: nat, k: nat)
    requires GrantsOk(T, grants, base, bits) && Wf(T, size) && k < |T| && T[k].used
    ensures T[k].node in grants && Wf(Release(T, k), size) && GrantsOk(Release(T, k), grants - {T[k].node}, base, bits)
    ensures |grants - {T[k].node}| == |grants| - 1
    ensures SoundSize(grants, bits) == SoundSize(grants - {T[k].node}, bits) +
      if Sound(grants[T[k].node].size, bits) then grants[T[k].node].size else 0
    ensures FreeBytes(Release(T, k)) == FreeBytes(T) + T[k].size
  {
    hide *;
    ReleaseKeeps(T, size, k);
    GrantsRelease(T, size, grants, base, bits, k);
    TotalWithout(grants, T[k].node);
    SoundWithout(grants, bits, T[k].node);
  }

  // What a granted tile holds of a request: all of it exactly when the request was sound.
  lemma GrantedTile(t: Tile, size: uint64, bits: nat, base: nat)
    requires size >= 1 && Pow2(bits) <= UINT64 && FakeSize(size, bits) <= MAX_BIN_SIZE
    ensures TileGrant(t.(size := FloatToUint(RoundUp(FakeSize(size, bits))), used := true),
      Grant(base + Scaled(t.offset, bits), size), base, bits)
  {
    var fake, p := FakeSize(size, bits), Pow2(bits);
    FakeSizeMeaning(size, bits);
    if Sound(size, bits) {
      hide RoundUp, FloatToUint, FakeSize, Pow2, Sound;
      RoundUpWaste(fake);
      MulMono(fake, FloatToUint(RoundUp(fake)), p);
    } else {
      assert FloatToUint(RoundUp(0)) == 0;
    }
  }

  lemma AddressFits(T: seq<Tile>, size: nat, k: nat, capacity: nat, bits: nat)
    requires Wf(T, size) && k < |T| && size == UnitsOf(capacity, bits)
    ensures T[k].offset <= size && Scaled(T[k].offset, bits) <= capacity
  {
    EndMono(T, size, k);
    hide Wf;
    MulMono(T[k].offset, size, Pow2(bits));
  }

  // Sound grants together never exceed the capacity of the region.
  lemma GrantsWithinCapacity(T: seq<Tile>, grants: map<nat, Grant>, base: nat, bits: nat, capacity: nat)
    requires GrantsOk(T, grants, base, bits) && Wf(T, UnitsOf(capacity, bits))
    ensures SoundSize(grants, bits) <= capacity
  {
    hide *;
    SoundTotal(T, UnitsOf(capacity, bits), grants, base, bits);
    UnitsFit(UnitsOf(capacity, bits) - FreeBytes(T), capacity, bits);
  }

  lemma UnitsFit(units: nat, capacity: nat, bits: nat)
    requires units <= UnitsOf(capacity, bits)
    ensures Scaled(units, bits) <= capacity
  {
    MulMono(units, UnitsOf(capacity, bits), Pow2(bits));
  }

  // 64-bit arithmetic.
  function Wrap(x: int): uint64 {
    x % UINT64
  }

  lemma ModAdd(x: nat, y: nat)
    ensures Wrap(Wrap(x) + y) == Wrap(x + y)
  {
    var q := x / UINT64;
    assert x == q * UINT64 + x % UINT64;
    ModShift(x % UINT64 + y, q);
  }

  lemma {:induction false} ModShift(x: nat, q: nat)
    ensures (x + q * UINT64) % UINT64 == x % UINT64
  {
    if q > 0 {
      ModShift(x, q - 1);
      assert x + q * UINT64 == x + (q - 1) * UINT64 + UINT64;
    }
  }

  // Grants agree with the tiles, and the 64-bit counters with the grants.
  ghost predicate Accounted(T: seq<Tile>, grants: map<nat, Grant>, base: nat, bits: nat, num: nat, total: nat) {
    && GrantsOk(T, grants, base, bits)
    && num == Wrap(|grants|) && total == Wrap(TotalSize(grants))
  }

  // The bookkeeping of one more grant.
  lemma GrantAdded(
    T: seq<Tile>, size: nat, grants: map<nat, Grant>, base: nat, bits: nat, k: nat, slot: nat, request: uint64,
    num: nat, total: nat, T': seq<Tile>)
    requires Accounted(T, grants, base, bits, num, total) && Wf(T, size) && k < |T| && !T[k].used && slot !in Nodes(T)
    requires request >= 1 && Pow2(bits) <= UINT64 && FakeSize(request, bits) <= MAX_BIN_SIZE
    requires FloatToUint(RoundUp(FakeSize(request, bits))) <= T[k].size
    requires T' == Split(T, k, FloatToUint(RoundUp(FakeSize(request, bits))), slot)
    ensures T[k].node !in grants
    ensures Accounted(T', grants[T[k].node := Grant(base + Scaled(T[k].offset, bits), request)], base, bits,
      Wrap(num + 1), Wrap(total + request))
  {
    hide Scaled, Pow2, FakeSize, RoundUp, FloatToUint, Wrap, GrantsOk, TileGrant, Wf, TotalSize, Split, Nodes;
    var g, need := Grant(base + Scaled(T[k].offset, bits), request), FloatToUint(RoundUp(FakeSize(request, bits)));
    ModAdd(TotalSize(grants), request);
    ModAdd(|grants|, 1);
    GrantedTile(T[k], request, bits, base);
    GrantsSplit(T, size, grants, base, bits, k, need, slot, g);
    TotalWith(grants, T[k].node, g);
  }

  // The bookkeeping of one grant less.
  lemma GrantRemoved(
    T: seq<Tile>, size: nat, grants: map<nat, Grant>, base: nat, bits: nat, k: nat, num: nat, total: nat)
    requires Accounted(T, grants, base, bits, num, total) && Wf(T, size) && k < |T| && T[k].used
    ensures T[k].node in grants
    ensures Accounted(Release(T, k), grants - {T[k].node}, base, bits, Wrap(num - 1),
      Wrap(total - grants[T[k].node].size))
  {
    hide Wrap, TotalSize, GrantsOk;
    GrantsRelease(T, size, grants, base, bits, k);
    TotalWithout(grants, T[k].node);
    ModSub(TotalSize(grants), grants[T[k].node].size);
    ModSub(|grants|, 1);
  }

  lemma ModSub(x: nat, y: nat)
    requires y <= x
    ensures Wrap(Wrap(x) - y) == Wrap(x - y)
  {
    var q := x / UINT64;
    assert x == q * UINT64 + x % UINT64;
    ModShiftDown(x - y, q);
  }

  lemma {:induction false} ModShiftDown(x: int, q: nat)
    ensures (x - q * UINT64) % UINT64 == x % UINT64
  {
    if q > 0 {
      ModShiftDown(x, q - 1);
      assert x - q * UINT64 == x - (q - 1) * UINT64 - UINT64;
    }
  }

  lemma ZeroScaled(bits: nat)
    ensures Scaled(0, bits) == 0
  {}

  // A byte count is covered by a number of units exactly when its rounded-up units are.
  lemma UnitsNeeded(size: uint64, units: nat, bits: nat)
    requires size >= 1 && Sound(size, bits) && Pow2(bits) <= UINT64
    ensures FakeSize(size, bits) >= 1
    ensures size <= Scaled(units, bits) <==> FakeSize(size, bits) <= units
  {
    hide FakeSize, Pow2, Sound;
    FakeSizeMeaning(size, bits);
    var fake, p := FakeSize(size, bits), Pow2(bits);
    if fake <= units { MulMono(fake, units, p); } else { MulMono(units, fake - 1, p); }
  }

  lemma GrantTile(T: seq<Tile>, size: nat, grants: map<nat, Grant>, base: nat, bits: nat, n: nat) returns (k: nat)
    requires GrantsOk(T, grants, base, bits) && n in grants
    ensures k < |T| && T[k].used && T[k].node == n
  {
    k := UsedAt(T, n);
  }

  // ---- heaps as values ----

  // An allocator of the given capacity: its tiles, and what was granted of them.
  datatype Heap = Heap(tiles: seq<Tile>, grants: map<nat, Grant>, base: nat, bits: nat, capacity: nat)

  ghost predicate HeapOk(h: Heap) {
    && GrantsOk(h.tiles, h.grants, h.base, h.bits) && Wf(h.tiles, UnitsOf(h.capacity, h.bits))
    && Pow2(h.bits) <= MAX_UNIT
  }

  ghost function NewHeap(base: nat, size: uint64): Heap {
    Heap([Tile(0, 0, UnitsOf(size, Multiplier(size, 0)), false)], map[], base, Multiplier(size, 0), size)
  }

  lemma NewHeapOk(base: nat, size: uint64)
    ensures HeapOk(NewHeap(base, size)) && NewHeap(base, size).grants == map[]
  {
    hide Pow2;
    var h := NewHeap(base, size);
    MultiplierBound(size, 0);
    UnitBound(h.bits);
    assert UsedNodes(h.tiles) == {};
  }

  lemma UnitBound(bits: nat)
    requires bits <= 33
    ensures Pow2(bits) <= MAX_UNIT
  {
    Pow2Mono(bits, 33);
    Pow2At33();
  }

  // The units a request is rounded up to.
  ghost function Need(size: uint64, bits: nat): nat {
    FloatToUint(RoundUp(FakeSize(size, bits)))
  }

  // Tile k can be cut for a request; the rest gets the node slot.
  ghost predicate CanCut(h: Heap, k: nat, slot: nat, size: nat) {
    && k < |h.tiles| && !h.tiles[k].used && slot !in Nodes(h.tiles)
    && 1 <= size < UINT64 && FakeSize(size, h.bits) <= MAX_BIN_SIZE && Need(size, h.bits) <= h.tiles[k].size
  }

  ghost function CutHeap(h: Heap, k: nat, slot: nat, size: nat): Heap
    requires CanCut(h, k, slot, size)
  {
    h.(tiles := Split(h.tiles, k, Need(size, h.bits), slot),
       grants := h.grants[h.tiles[k].node := Grant(h.base + Scaled(h.tiles[k].offset, h.bits), size)])
  }

  lemma CutHeapKeeps(h: Heap, k: nat, slot: nat, size: nat)
    requires HeapOk(h) && CanCut(h, k, slot, size)
    ensures HeapOk(CutHeap(h, k, slot, size)) && h.tiles[k].node !in h.grants
  {
    hide GrantsOk, TileGrant, Wf, Split, Scaled, Pow2, FakeSize, RoundUp, FloatToUint, UnitsOf;
    var g := Grant(h.base + Scaled(h.tiles[k].offset, h.bits), size);
    GrantedTile(h.tiles[k], size, h.bits, h.base);
    GrantsSplit(h.tiles, UnitsOf(h.capacity, h.bits), h.grants, h.base, h.bits, k, Need(size, h.bits), slot, g);
    SplitKeeps(h.tiles, UnitsOf(h.capacity, h.bits), k, Need(size, h.bits), slot);
  }

  // h' is h after a request that got the given node.
  ghost predicate Cuts(h: Heap, h': Heap, k: nat, slot: nat, size: nat, node: nat) {
    CanCut(h, k, slot, size) && h' == CutHeap(h, k, slot, size) && node == h.tiles[k].node
  }

  ghost predicate CanRelease(h: Heap, k: nat) {
    k < |h.tiles| && h.tiles[k].used
  }

  ghost function ReleaseHeap(h: Heap, k: nat): Heap
    requires CanRelease(h, k)
  {
    h.(tiles := Release(h.tiles, k), grants := h.grants - {h.tiles[k].node})
  }

  ghost predicate Releases(h: Heap, h': Heap, k: nat, node: nat) {
    CanRelease(h, k) && h' == ReleaseHeap(h, k) && node == h.tiles[k].node
  }

  // The grant of tile k is gone, and no other; its bytes are free again.
  ghost predicate GivenBack(h: Heap, h': Heap, k: nat) {
    && k < |h.tiles| && h'.grants == h.grants - {h.tiles[k].node}
    && FreeBytes(h'.tiles) == FreeBytes(h.tiles) + h.tiles[k].size
  }

  lemma ReleaseHeapKeeps(h: Heap, k: nat)
    requires HeapOk(h) && CanRelease(h, k)
    ensures HeapOk(ReleaseHeap(h, k)) && GivenBack(h, ReleaseHeap(h, k), k)
  {
    hide GrantsOk, Wf, Release, UnitsOf, Pow2;
    GrantsRelease(h.tiles, UnitsOf(h.capacity, h.bits), h.grants, h.base, h.bits, k);
    ReleaseKeeps(h.tiles, UnitsOf(h.capacity, h.bits), k);
  }

  lemma HeapWithin(h: Heap)
    requires HeapOk(h)
    ensures SoundSize(h.grants, h.bits) <= h.capacity
  {
    hide GrantsOk, Wf, SoundSize;
    GrantsWithinCapacity(h.tiles, h.grants, h.base, h.bits, h.capacity);
  }
}
