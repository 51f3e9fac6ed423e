/**
 The buffers of objects as grants of allocators: every live buffer holds a grant
 of its own, so what is live of an allocator fits into it.
 */
module LiveGrants {
  import opened Maps
  import opened Metadata
  import opened ByteSums
  import opened Grants
  import opened SmallFloat
  import opened Tiling

  type Heaps = map<nat, Heap>

  // How often a buffer is held, by installed objects and by puts under way.
  ghost function Copies(m: Objects, p: Objects): Buffer -> nat {
    (b: Buffer) => Bytes(m, Copy(b)) + Bytes(p, Copy(b))
  }

  // The grant that b holds, of a request that did not wrap.
  ghost predicate GrantedBy(heaps: Heaps, b: Buffer) {
    && b.allocator in heaps && b.node in heaps[b.allocator].grants
    && heaps[b.allocator].grants[b.node].size == b.size
    && Sound(heaps[b.allocator].grants[b.node].size, heaps[b.allocator].bits)
  }

  // Every buffer that is held holds a grant, and no other holds the same.
  ghost predicate Backs(heaps: Heaps, held: Buffer -> nat) {
    && (forall b :: held(b) <= 1)
    && (forall b | held(b) > 0 :: GrantedBy(heaps, b))
  }

  ghost predicate AllHeapsOk(heaps: Heaps) {
    forall a | a in heaps :: HeapOk(heaps[a])
  }

  // ---- granting buffers one after the other ----

  datatype Cut = Cut(tile: nat, slot: nat)

  // Each buffer can be cut from its allocator in turn and gets the node of its tile.
  ghost predicate CanGrant(heaps: Heaps, bs: seq<Buffer>, cuts: seq<Cut>)
    decreases |bs|, 0
  {
    && |cuts| == |bs|
    && (bs == [] ||
        (var n := |bs| - 1;
         && CanGrant(heaps, bs[..n], cuts[..n])
         && CanGrantOne(GrantAll(heaps, bs[..n], cuts[..n]), bs[n], cuts[n])))
  }

  ghost predicate CanGrantOne(heaps: Heaps, b: Buffer, cut: Cut) {
    && b.allocator in heaps && CanCut(heaps[b.allocator], cut.tile, cut.slot, b.size)
    && b.node == heaps[b.allocator].tiles[cut.tile].node
  }

  ghost function GrantOne(heaps: Heaps, b: Buffer, cut: Cut): Heaps
    requires CanGrantOne(heaps, b, cut)
  {
    heaps[b.allocator := CutHeap(heaps[b.allocator], cut.tile, cut.slot, b.size)]
  }

  ghost function GrantAll(heaps: Heaps, bs: seq<Buffer>, cuts: seq<Cut>): Heaps
    requires CanGrant(heaps, bs, cuts)
    decreases |bs|, 1
  {
    if bs == [] then heaps
    else
      var n := |bs| - 1;
      GrantOne(GrantAll(heaps, bs[..n], cuts[..n]), bs[n], cuts[n])
  }

  lemma GrantSingle(heaps: Heaps, b: Buffer, cut: Cut)
    requires CanGrantOne(heaps, b, cut)
    ensures CanGrant(heaps, [b], [cut]) && GrantAll(heaps, [b], [cut]) == GrantOne(heaps, b, cut)
  {
    hide CanGrantOne, GrantOne;
    assert [b][..0] == [] && [cut][..0] == [];
    assert CanGrant(heaps, [], []) && GrantAll(heaps, [], []) == heaps;
  }

  ghost predicate SameAllocators(heaps: Heaps, heaps': Heaps) {
    heaps'.Keys == heaps.Keys && forall a | a in heaps :: heaps'[a].capacity == heaps[a].capacity
  }

  lemma GrantOneKeeps(heaps: Heaps, b: Buffer, cut: Cut, held: Buffer -> nat, more: Buffer -> nat)
    requires AllHeapsOk(heaps) && Backs(heaps, held) && CanGrantOne(heaps, b, cut) && b.size <= MAX_SLICE
    requires forall x :: more(x) == held(x) + if x == b then 1 else 0
    ensures AllHeapsOk(GrantOne(heaps, b, cut)) && Backs(GrantOne(heaps, b, cut), more)
    ensures SameAllocators(heaps, GrantOne(heaps, b, cut))
  {
    hide HeapOk, CanCut, Pow2;
    var h := heaps[b.allocator];
    CutHeapKeeps(h, cut.tile, cut.slot, b.size);
    SmallIsSound(h, b.size);
    CutGrants(h, cut.tile, cut.slot, b.size);
    assert held(b) == 0;
  }

  lemma CutGrants(h: Heap, k: nat, slot: nat, size: nat)
    requires CanCut(h, k, slot, size)
    ensures var h' := CutHeap(h, k, slot, size);
      && h'.bits == h.bits && h'.capacity == h.capacity
      && h'.grants.Keys == h.grants.Keys + {h.tiles[k].node} && h'.grants[h.tiles[k].node].size == size
      && forall n | n in h.grants && n != h.tiles[k].node :: h'.grants[n] == h.grants[n]
  {
    hide Need, Split, Scaled;
  }

  lemma SmallIsSound(h: Heap, size: nat)
    requires HeapOk(h) && size <= MAX_SLICE
    ensures Sound(size, h.bits)
  {
    hide Pow2;
  }

  lemma {:induction false} GrantAllKeeps(heaps: Heaps, bs: seq<Buffer>, cuts: seq<Cut>, held: Buffer -> nat)
    requires AllHeapsOk(heaps) && Backs(heaps, held) && CanGrant(heaps, bs, cuts)
    requires forall b | b in bs :: b.size <= MAX_SLICE
    ensures AllHeapsOk(GrantAll(heaps, bs, cuts)) && Backs(GrantAll(heaps, bs, cuts), With(held, bs))
    ensures SameAllocators(heaps, GrantAll(heaps, bs, cuts))
    decreases |bs|
  {
    hide HeapOk, GrantedBy, CanGrantOne, GrantOne;
    if bs != [] {
      var n := |bs| - 1;
      assert bs == bs[..n] + [bs[n]];
      GrantAllKeeps(heaps, bs[..n], cuts[..n], held);
      GrantOneKeeps(GrantAll(heaps, bs[..n], cuts[..n]), bs[n], cuts[n], With(held, bs[..n]), With(held, bs));
    }
  }

  // A request of zero bytes is never granted.
  lemma {:induction false} GrantedPositive(heaps: Heaps, bs: seq<Buffer>, cuts: seq<Cut>, b: Buffer)
    requires CanGrant(heaps, bs, cuts) && b in bs
    ensures b.size >= 1
    decreases |bs|
  {
    if b != bs[|bs| - 1] { GrantedPositive(heaps, bs[..|bs| - 1], cuts[..|bs| - 1], b); }
  }

  ghost function With(held: Buffer -> nat, bs: seq<Buffer>): Buffer -> nat {
    (b: Buffer) => held(b) + multiset(bs)[b]
  }

  // Fewer buffers held.
  lemma BacksFewer(heaps: Heaps, held: Buffer -> nat, fewer: Buffer -> nat)
    requires Backs(heaps, held) && forall b :: fewer(b) <= held(b)
    ensures Backs(heaps, fewer)
  {
    hide GrantedBy;
  }

  // A new allocator.
  lemma BacksMount(heaps: Heaps, held: Buffer -> nat, a: nat, h: Heap)
    requires Backs(heaps, held) && a !in heaps
    ensures Backs(heaps[a := h], held)
  {}

  // ---- releasing ----

  // No buffer of allocator a at the node is held.
  ghost predicate Unheld(m: Objects, a: nat, node: nat) {
    forall k, b | k in m && Has(m[k], b) && b.allocator == a :: b.node != node
  }

  lemma UnheldCopies(m: Objects, b: Buffer)
    requires Unheld(m, b.allocator, b.node)
    ensures Bytes(m, Copy(b)) == 0
  {
    hide Bytes, Has;
    BytesSame(m, Copy(b), Nothing());
    BytesNothing(m);
  }

  lemma ReleaseBacks(heaps: Heaps, m: Objects, p: Objects, a: nat, k: nat)
    requires AllHeapsOk(heaps) && Backs(heaps, Copies(m, p)) && a in heaps && CanRelease(heaps[a], k)
    requires Unheld(m, a, heaps[a].tiles[k].node) && Unheld(p, a, heaps[a].tiles[k].node)
    ensures var heaps' := heaps[a := ReleaseHeap(heaps[a], k)];
      AllHeapsOk(heaps') && Backs(heaps', Copies(m, p)) && SameAllocators(heaps, heaps')
  {
    hide HeapOk, Release, Unheld, Bytes;
    ReleaseHeapKeeps(heaps[a], k);
    var heaps' := heaps[a := ReleaseHeap(heaps[a], k)];
    forall b | Copies(m, p)(b) > 0 ensures GrantedBy(heaps', b) {
      assert GrantedBy(heaps, b);
      if b.allocator == a && b.node == heaps[a].tiles[k].node {
        UnheldCopies(m, b);
        UnheldCopies(p, b);
      }
    }
  }

  // ---- what is live fits ----

  // The bytes of buffers of a that hold one of the grants.
  ghost function Of(a: nat, grants: map<nat, Grant>): Buffer -> nat {
    (b: Buffer) => if b.allocator == a && b.node in grants && grants[b.node].size == b.size then b.size else 0
  }

  lemma {:induction false} OfFits(m: Objects, p: Objects, a: nat, grants: map<nat, Grant>)
    requires forall b :: Copies(m, p)(b) <= 1
    ensures Bytes(m, Of(a, grants)) + Bytes(p, Of(a, grants)) <= TotalSize(grants)
    decreases |grants|
  {
    hide Bytes;
    if grants == map[] {
      BytesSame(m, Of(a, grants), Nothing());
      BytesSame(p, Of(a, grants), Nothing());
      BytesNothing(m);
      BytesNothing(p);
    } else {
      var n := Pick(grants);
      var s := grants[n].size;
      var b := Buffer(a, n, s);
      Smaller(grants, n);
      OfFits(m, p, a, grants - {n});
      OfSplits(a, grants, n);
      BytesLinear(m, Of(a, grants), Of(a, grants - {n}), s, Copy(b));
      BytesLinear(p, Of(a, grants), Of(a, grants - {n}), s, Copy(b));
      AtMostOnce(s, Bytes(m, Copy(b)), Bytes(p, Copy(b)), Copies(m, p)(b));
      TotalWithout(grants, n);
    }
  }

  lemma OfSplits(a: nat, grants: map<nat, Grant>, n: nat)
    requires n in grants
    ensures Splits(Of(a, grants), Of(a, grants - {n}), grants[n].size, Copy(Buffer(a, n, grants[n].size)))
  {}

  lemma AtMostOnce(s: nat, x: nat, y: nat, both: nat)
    requires x + y == both <= 1
    ensures s * x + s * y <= s
  {
    Distribute(s, x, y);
  }

  // The live bytes of an allocator are at most its sound grants, and so at most its capacity.
  lemma LoadFits(heaps: Heaps, m: Objects, p: Objects, a: nat)
    requires AllHeapsOk(heaps) && Backs(heaps, Copies(m, p)) && a in heaps
    ensures Bytes(m, In({a})) + Bytes(p, In({a})) <= SoundSize(heaps[a].grants, heaps[a].bits) <= heaps[a].capacity
  {
    hide Bytes, HeapOk, Has, Sound, TotalSize;
    var grants := SoundOnes(heaps[a].grants, heaps[a].bits);
    forall k, b | k in m && Has(m[k], b) ensures In({a})(b) == Of(a, grants)(b) {
      HasCounts(m, k, b);
      assert GrantedBy(heaps, b);
    }
    forall k, b | k in p && Has(p[k], b) ensures In({a})(b) == Of(a, grants)(b) {
      HasCounts(p, k, b);
      assert GrantedBy(heaps, b);
    }
    BytesSame(m, In({a}), Of(a, grants));
    BytesSame(p, In({a}), Of(a, grants));
    OfFits(m, p, a, grants);
    HeapWithin(heaps[a]);
  }
}
