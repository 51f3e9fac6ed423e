/**
 Sums over the buffers that objects hold, for any weight of a buffer: its bytes
 when it belongs to certain allocators, or one when it is a certain buffer. Every
 operation on the metadata either leaves all these sums alone or shrinks them.
 */
module ByteSums {
  import opened Maps
  import opened Metadata

  type Key = string
  type Objects = map<Key, Object>

  // ---- weights ----

  // The bytes of buffers of the allocators of S.
  ghost function In(S: set<nat>): Buffer -> nat {
    (b: Buffer) => if b.allocator in S then b.size else 0
  }

  // How often b is there.
  ghost function Copy(b: Buffer): Buffer -> nat {
    (x: Buffer) => if x == b then 1 else 0
  }

  ghost function BufferWeight(bs: seq<Buffer>, w: Buffer -> nat): nat {
    if bs == [] then 0 else BufferWeight(bs[..|bs| - 1], w) + w(bs[|bs| - 1])
  }

  ghost function ReplicaWeight(r: Replica, w: Buffer -> nat): nat {
    if r.Memory? then BufferWeight(r.buffers, w) else 0
  }

  ghost function ReplicasWeight(rs: seq<Replica>, w: Buffer -> nat): nat {
    if rs == [] then 0 else ReplicasWeight(rs[..|rs| - 1], w) + ReplicaWeight(rs[|rs| - 1], w)
  }

  ghost function Weight(o: Object, w: Buffer -> nat): nat {
    ReplicasWeight(o.replicas, w)
  }

  ghost predicate ReplicaHolds(r: Replica, a: nat) {
    r.Memory? && exists i :: 0 <= i < |r.buffers| && r.buffers[i].allocator == a
  }

  // Some memory replica has a buffer of allocator a.
  ghost predicate Holds(o: Object, a: nat) {
    exists i :: 0 <= i < |o.replicas| && ReplicaHolds(o.replicas[i], a)
  }

  // ---- sums over a map of objects ----

  ghost function Bytes(m: Objects, w: Buffer -> nat): nat
    decreases |m|
  {
    if m == map[] then 0
    else
      var k := Pick(m);
      Smaller(m, k);
      Weight(m[k], w) + Bytes(m - {k}, w)
  }

  lemma {:induction false} BytesWithout(m: Objects, w: Buffer -> nat, k: Key)
    requires k in m
    ensures Bytes(m, w) == Weight(m[k], w) + Bytes(m - {k}, w)
    decreases |m|
  {
    Smaller(m, k);
    var p := Pick(m);
    if p != k {
      Smaller(m, p);
      BytesWithout(m - {p}, w, k);
      BytesWithout(m - {k}, w, p);
      assert m - {p} - {k} == m - {k} - {p};
    }
  }

  lemma BytesPut(m: Objects, w: Buffer -> nat, k: Key, o: Object)
    ensures Bytes(m[k := o], w) == (if k in m then Bytes(m, w) - Weight(m[k], w) else Bytes(m, w)) + Weight(o, w)
  {
    hide Weight;
    BytesWithout(m[k := o], w, k);
    if k in m {
      BytesWithout(m, w, k);
      assert m[k := o] - {k} == m - {k};
    } else {
      assert m[k := o] - {k} == m;
    }
  }

  // ---- shrinking ----

  // o' holds no allocator o does not hold, and weighs no more.
  ghost predicate Below(o': Object, o: Object) {
    && (forall a :: Holds(o', a) ==> Holds(o, a))
    && (forall w: Buffer -> nat :: Weight(o', w) <= Weight(o, w))
  }

  ghost predicate Shrinks(m: Objects, m': Objects) {
    forall k | k in m' :: k in m && Below(m'[k], m[k])
  }

  lemma {:induction false} ShrinksBytes(m: Objects, m': Objects, w: Buffer -> nat)
    requires Shrinks(m, m')
    ensures Bytes(m', w) <= Bytes(m, w)
    decreases |m|
  {
    hide Weight, Holds;
    if m == map[] {
      assert m' == map[];
    } else {
      var k := Pick(m);
      Smaller(m, k);
      ShrinksBytes(m - {k}, m' - {k}, w);
      if k in m' {
        BytesWithout(m', w, k);
      } else {
        assert m' - {k} == m';
      }
    }
  }

  lemma BelowSelf(o: Object)
    ensures Below(o, o)
  {}

  lemma ShrinksOne(m: Objects, k: Key, o: Object)
    requires k in m && Below(o, m[k])
    ensures Shrinks(m, m[k := o]) && Shrinks(m, m - {k})
  {
    hide Below;
    forall j | j in m ensures Below(m[j], m[j]) { BelowSelf(m[j]); }
  }

  lemma ShrinksSelf(m: Objects)
    ensures Shrinks(m, m)
  {
    hide Below;
    forall j | j in m ensures Below(m[j], m[j]) { BelowSelf(m[j]); }
  }

  lemma BelowTrans(a: Object, b: Object, c: Object)
    requires Below(a, b) && Below(b, c)
    ensures Below(a, c)
  {}

  lemma ShrinksTrans(a: Objects, b: Objects, c: Objects)
    requires Shrinks(a, b) && Shrinks(b, c)
    ensures Shrinks(a, c)
  {
    hide Below;
    forall k | k in c ensures Below(c[k], a[k]) { BelowTrans(c[k], b[k], a[k]); }
  }

  // ---- the sub-operations on replica lists ----

  // A subsequence of the replicas, with statuses changed at will.
  ghost predicate SubReplicas(rs': seq<Replica>, rs: seq<Replica>)
    decreases |rs|
  {
    if rs == [] then rs' == []
    else
      || SubReplicas(rs', rs[..|rs| - 1])
      || (&& rs' != [] && SameBuffers(rs'[|rs'| - 1], rs[|rs| - 1])
          && SubReplicas(rs'[..|rs'| - 1], rs[..|rs| - 1]))
  }

  ghost predicate SameBuffers(r': Replica, r: Replica) {
    if r.Memory? then r'.Memory? && r'.buffers == r.buffers else r'.Disk?
  }

  lemma {:induction false} SubWeight(rs': seq<Replica>, rs: seq<Replica>, w: Buffer -> nat)
    requires SubReplicas(rs', rs)
    ensures ReplicasWeight(rs', w) <= ReplicasWeight(rs, w)
    decreases |rs|
  {
    if rs != [] {
      if SubReplicas(rs', rs[..|rs| - 1]) {
        SubWeight(rs', rs[..|rs| - 1], w);
      } else {
        SubWeight(rs'[..|rs'| - 1], rs[..|rs| - 1], w);
      }
    }
  }

  lemma {:induction false} SubHolds(rs': seq<Replica>, rs: seq<Replica>, i: nat, a: nat) returns (j: nat)
    requires SubReplicas(rs', rs) && i < |rs'| && ReplicaHolds(rs'[i], a)
    ensures j < |rs| && ReplicaHolds(rs[j], a)
    decreases |rs|
  {
    if SubReplicas(rs', rs[..|rs| - 1]) {
      j := SubHolds(rs', rs[..|rs| - 1], i, a);
    } else if i == |rs'| - 1 {
      j := |rs| - 1;
    } else {
      j := SubHolds(rs'[..|rs'| - 1], rs[..|rs| - 1], i, a);
    }
  }

  lemma SubBelow(o': Object, o: Object)
    requires SubReplicas(o'.replicas, o.replicas)
    ensures Below(o', o)
  {
    forall w: Buffer -> nat ensures Weight(o', w) <= Weight(o, w) { SubWeight(o'.replicas, o.replicas, w); }
    forall a | Holds(o', a) ensures Holds(o, a) {
      var i :| 0 <= i < |o'.replicas| && ReplicaHolds(o'.replicas[i], a);
      var j := SubHolds(o'.replicas, o.replicas, i, a);
    }
  }

  // ---- linearity ----

  // u is v and s times w.
  ghost predicate Splits(u: Buffer -> nat, v: Buffer -> nat, s: nat, w: Buffer -> nat) {
    forall b :: u(b) == v(b) + s * w(b)
  }

  lemma Distribute(s: nat, x: nat, y: nat)
    ensures s * (x + y) == s * x + s * y
  {}

  lemma {:induction false} BufferLinear(bs: seq<Buffer>, u: Buffer -> nat, v: Buffer -> nat, s: nat, w: Buffer -> nat)
    requires Splits(u, v, s, w)
    ensures BufferWeight(bs, u) == BufferWeight(bs, v) + s * BufferWeight(bs, w)
  {
    if bs != [] {
      BufferLinear(bs[..|bs| - 1], u, v, s, w);
      Distribute(s, BufferWeight(bs[..|bs| - 1], w), w(bs[|bs| - 1]));
    }
  }

  lemma {:induction false} ReplicasLinear(
    rs: seq<Replica>, u: Buffer -> nat, v: Buffer -> nat, s: nat, w: Buffer -> nat)
    requires Splits(u, v, s, w)
    ensures ReplicasWeight(rs, u) == ReplicasWeight(rs, v) + s * ReplicasWeight(rs, w)
  {
    hide Splits, BufferWeight;
    if rs != [] {
      var p, last := rs[..|rs| - 1], rs[|rs| - 1];
      ReplicasLinear(p, u, v, s, w);
      if last.Memory? { BufferLinear(last.buffers, u, v, s, w); }
      Distribute(s, ReplicasWeight(p, w), ReplicaWeight(last, w));
    }
  }

  lemma {:induction false} BytesLinear(m: Objects, u: Buffer -> nat, v: Buffer -> nat, s: nat, w: Buffer -> nat)
    requires Splits(u, v, s, w)
    ensures Bytes(m, u) == Bytes(m, v) + s * Bytes(m, w)
    decreases |m|
  {
    hide Splits, ReplicasWeight;
    if m != map[] {
      var k := Pick(m);
      Smaller(m, k);
      BytesLinear(m - {k}, u, v, s, w);
      ReplicasLinear(m[k].replicas, u, v, s, w);
      Distribute(s, Weight(m[k], w), Bytes(m - {k}, w));
    }
  }

  lemma BytesAdd(m: Objects, S: set<nat>, a: nat)
    requires a !in S
    ensures Bytes(m, In(S + {a})) == Bytes(m, In(S)) + Bytes(m, In({a}))
  {
    hide Bytes;
    BytesLinear(m, In(S + {a}), In(S), 1, In({a}));
  }

  // ---- weights that agree on what is there ----

  ghost predicate Has(o: Object, b: Buffer) {
    exists i :: 0 <= i < |o.replicas| && ReplicaHas(o.replicas[i], b)
  }

  ghost predicate ReplicaHas(r: Replica, b: Buffer) {
    r.Memory? && b in r.buffers
  }

  lemma {:induction false} BufferSame(bs: seq<Buffer>, u: Buffer -> nat, v: Buffer -> nat)
    requires forall b | b in bs :: u(b) == v(b)
    ensures BufferWeight(bs, u) == BufferWeight(bs, v)
  {
    if bs != [] {
      assert bs[|bs| - 1] in bs && forall b | b in bs[..|bs| - 1] :: b in bs;
      BufferSame(bs[..|bs| - 1], u, v);
    }
  }

  lemma {:induction false} ReplicasSame(rs: seq<Replica>, u: Buffer -> nat, v: Buffer -> nat)
    requires forall i, b | 0 <= i < |rs| && ReplicaHas(rs[i], b) :: u(b) == v(b)
    ensures ReplicasWeight(rs, u) == ReplicasWeight(rs, v)
  {
    hide BufferWeight;
    if rs != [] {
      var p, last := rs[..|rs| - 1], rs[|rs| - 1];
      assert forall i | 0 <= i < |p| :: p[i] == rs[i];
      ReplicasSame(p, u, v);
      if last.Memory? {
        assert forall b | b in last.buffers :: ReplicaHas(rs[|rs| - 1], b);
        BufferSame(last.buffers, u, v);
      }
    }
  }

  lemma WeightSame(o: Object, u: Buffer -> nat, v: Buffer -> nat)
    requires forall b | Has(o, b) :: u(b) == v(b)
    ensures Weight(o, u) == Weight(o, v)
  {
    hide ReplicasWeight;
    forall i, b | 0 <= i < |o.replicas| && ReplicaHas(o.replicas[i], b) ensures u(b) == v(b) { assert Has(o, b); }
    ReplicasSame(o.replicas, u, v);
  }

  lemma {:induction false} BytesSame(m: Objects, u: Buffer -> nat, v: Buffer -> nat)
    requires forall k, b | k in m && Has(m[k], b) :: u(b) == v(b)
    ensures Bytes(m, u) == Bytes(m, v)
    decreases |m|
  {
    hide Has, Weight;
    if m != map[] {
      var k := Pick(m);
      Smaller(m, k);
      BytesSame(m - {k}, u, v);
      WeightSame(m[k], u, v);
    }
  }

  ghost function Nothing(): Buffer -> nat {
    (b: Buffer) => 0
  }

  lemma {:induction false} BytesNothing(m: Objects)
    ensures Bytes(m, Nothing()) == 0
    decreases |m|
  {
    hide Weight;
    if m != map[] {
      var k := Pick(m);
      Smaller(m, k);
      BytesNothing(m - {k});
      WeightNothing(m[k].replicas);
      assert Weight(m[k], Nothing()) == ReplicasWeight(m[k].replicas, Nothing()) by { WeightIs(m[k], Nothing()); }
    }
  }

  lemma WeightIs(o: Object, w: Buffer -> nat)
    ensures Weight(o, w) == ReplicasWeight(o.replicas, w)
  {}

  lemma {:induction false} WeightNothing(rs: seq<Replica>)
    ensures ReplicasWeight(rs, Nothing()) == 0
  {
    if rs != [] {
      WeightNothing(rs[..|rs| - 1]);
      if rs[|rs| - 1].Memory? { BufferNothing(rs[|rs| - 1].buffers); }
    }
  }

  lemma {:induction false} BufferNothing(bs: seq<Buffer>)
    ensures BufferWeight(bs, Nothing()) == 0
  {
    if bs != [] { BufferNothing(bs[..|bs| - 1]); }
  }

  lemma BytesNone(m: Objects)
    ensures Bytes(m, In({})) == 0
  {
    hide Bytes, Has;
    BytesSame(m, In({}), Nothing());
    BytesNothing(m);
  }

  // No object of m holds allocator a: there are no bytes of a.
  lemma NoBytes(m: Objects, a: nat)
    requires forall k | k in m :: !Holds(m[k], a)
    ensures Bytes(m, In({a})) == 0
  {
    hide Bytes, Has, Holds;
    forall k, b | k in m && Has(m[k], b) ensures b.allocator != a { HasHolds(m[k], b); }
    BytesSame(m, In({a}), Nothing());
    BytesNothing(m);
  }

  lemma HasHolds(o: Object, b: Buffer)
    requires Has(o, b)
    ensures Holds(o, b.allocator)
  {
    var i :| 0 <= i < |o.replicas| && ReplicaHas(o.replicas[i], b);
    var j :| 0 <= j < |o.replicas[i].buffers| && o.replicas[i].buffers[j] == b;
    assert ReplicaHolds(o.replicas[i], b.allocator);
  }

  // ---- copies ----

  // A buffer that is there counts.
  lemma {:induction false} BufferCounts(bs: seq<Buffer>, b: Buffer)
    ensures BufferWeight(bs, Copy(b)) == multiset(bs)[b]
  {
    if bs != [] {
      BufferCounts(bs[..|bs| - 1], b);
      assert bs == bs[..|bs| - 1] + [bs[|bs| - 1]];
    }
  }

  lemma {:induction false} ReplicasCount(rs: seq<Replica>, i: nat, b: Buffer)
    requires i < |rs| && ReplicaHas(rs[i], b)
    ensures ReplicasWeight(rs, Copy(b)) > 0
  {
    hide BufferWeight;
    if i == |rs| - 1 {
      BufferCounts(rs[i].buffers, b);
    } else {
      ReplicasCount(rs[..|rs| - 1], i, b);
    }
  }

  lemma HasCounts(m: Objects, k: Key, b: Buffer)
    requires k in m && Has(m[k], b)
    ensures Bytes(m, Copy(b)) > 0
  {
    var i :| 0 <= i < |m[k].replicas| && ReplicaHas(m[k].replicas[i], b);
    ReplicasCount(m[k].replicas, i, b);
    BytesWithout(m, Copy(b), k);
  }

  // The buffers of all memory replicas, in order.
  function Flat(rs: seq<Replica>): seq<Buffer> {
    if rs == [] then []
    else Flat(rs[..|rs| - 1]) + if rs[|rs| - 1].Memory? then rs[|rs| - 1].buffers else []
  }

  lemma {:induction false} FlatHas(rs: seq<Replica>, i: nat, b: Buffer)
    requires i < |rs| && ReplicaHas(rs[i], b)
    ensures b in Flat(rs)
  {
    if i < |rs| - 1 { FlatHas(rs[..|rs| - 1], i, b); }
  }

  lemma {:induction false} FlatCounts(rs: seq<Replica>, b: Buffer)
    ensures ReplicasWeight(rs, Copy(b)) == multiset(Flat(rs))[b]
  {
    if rs != [] {
      FlatCounts(rs[..|rs| - 1], b);
      if rs[|rs| - 1].Memory? { BufferCounts(rs[|rs| - 1].buffers, b); }
    }
  }

  // ---- all bytes ----

  ghost function Sized(): Buffer -> nat {
    (b: Buffer) => b.size
  }

  lemma {:induction false} ReplicasSized(rs: seq<Replica>)
    ensures ReplicasWeight(rs, Sized()) == ReplicasBytes(rs)
  {
    if rs != [] {
      ReplicasSized(rs[..|rs| - 1]);
      if rs[|rs| - 1].Memory? { BufferSized(rs[|rs| - 1].buffers); }
    }
  }

  lemma {:induction false} BufferSized(bs: seq<Buffer>)
    ensures BufferWeight(bs, Sized()) == BufferBytes(bs)
  {
    if bs != [] { BufferSized(bs[..|bs| - 1]); }
  }

  // Every memory replica of every object has the size of its object.
  ghost predicate AllSizes(m: Objects) {
    forall k | k in m :: SizesOk(m[k])
  }

  // All bytes of all memory replicas.
  ghost function AllBytes(m: Objects): nat
    decreases |m|
  {
    if m == map[] then 0
    else
      var k := Pick(m);
      Smaller(m, k);
      ReplicasBytes(m[k].replicas) + AllBytes(m - {k})
  }

  // Over a set that has every allocator in use, the bytes are all there are.
  lemma BytesIsAll(m: Objects, S: set<nat>)
    requires forall k, a | k in m && Holds(m[k], a) :: a in S
    ensures Bytes(m, In(S)) == AllBytes(m)
  {
    hide Bytes, Has, Holds, AllBytes;
    forall k, b | k in m && Has(m[k], b) ensures b.allocator in S { HasHolds(m[k], b); }
    BytesSame(m, In(S), Sized());
    BytesSized(m);
  }

  lemma {:induction false} BytesSized(m: Objects)
    ensures Bytes(m, Sized()) == AllBytes(m)
    decreases |m|
  {
    hide ReplicasWeight, ReplicasBytes;
    if m != map[] {
      var k := Pick(m);
      Smaller(m, k);
      BytesSized(m - {k});
      ReplicasSized(m[k].replicas);
    }
  }

  lemma {:induction false} AllBytesWithout(m: Objects, k: Key)
    requires k in m
    ensures AllBytes(m) == ReplicasBytes(m[k].replicas) + AllBytes(m - {k})
    decreases |m|
  {
    hide ReplicasBytes;
    Smaller(m, k);
    var p := Pick(m);
    if p != k {
      Smaller(m, p);
      AllBytesWithout(m - {p}, k);
      AllBytesWithout(m - {k}, p);
      assert m - {p} - {k} == m - {k} - {p};
    }
  }

  lemma AllBytesPut(m: Objects, k: Key, o: Object)
    ensures AllBytes(m[k := o]) ==
      (if k in m then AllBytes(m) - ReplicasBytes(m[k].replicas) else AllBytes(m)) + ReplicasBytes(o.replicas)
  {
    hide ReplicasBytes;
    AllBytesWithout(m[k := o], k);
    if k in m {
      AllBytesWithout(m, k);
      assert m[k := o] - {k} == m - {k};
    } else {
      assert m[k := o] - {k} == m;
    }
  }
}
