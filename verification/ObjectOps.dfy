/**
 The operations of the master on object metadata, as functions on the map from
 keys to objects. `alive` is the set of allocators that still exist.
 */
module ObjectOps {
  import opened Metadata
  import opened ByteSums
  import BatchEvict

  datatype Status =
    | OK | INVALID_PARAMS | OBJECT_NOT_FOUND | OBJECT_HAS_LEASE | REPLICA_IS_NOT_READY
    | INVALID_WRITE | OBJECT_ALREADY_EXISTS | NO_AVAILABLE_HANDLE

  // ---- stale handles ----

  function Live(rs: seq<Replica>, alive: set<nat>): seq<Replica> {
    if rs == [] then []
    else
      var rest := Live(rs[..|rs| - 1], alive);
      if rs[|rs| - 1].Stale(alive) then rest else rest + [rs[|rs| - 1]]
  }

  function Cleanup(o: Object, alive: set<nat>): Object {
    o.(replicas := Live(o.replicas, alive))
  }

  // Opening an object drops its stale replicas, and the object when none is left.
  function Access(m: Objects, k: Key, alive: set<nat>): Objects {
    if k !in m then m
    else if Cleanup(m[k], alive).replicas == [] then m - {k}
    else m[k := Cleanup(m[k], alive)]
  }

  // ClearInvalidHandles on the objects of one shard.
  function SweepStale(m: Objects, shard: set<Key>, alive: set<nat>): Objects {
    map k | k in m && !(k in shard && Cleanup(m[k], alive).replicas == []) ::
      if k in shard then Cleanup(m[k], alive) else m[k]
  }

  // ---- reading ----

  predicate Readable(o: Object) {
    exists i :: 0 <= i < |o.replicas| && o.replicas[i].status == COMPLETE
  }

  function ExistKey(m: Objects, k: Key, alive: set<nat>, now: int, ttl: nat, softTtl: nat): Objects {
    var a := Access(m, k, alive);
    if k in a && Readable(a[k]) then a[k := a[k].GrantLease(now, ttl, softTtl)] else a
  }

  // With garbage collection on, a read schedules removal instead of granting a lease.
  function GetReplicaList(m: Objects, k: Key, alive: set<nat>, gc: bool, now: int, ttl: nat, softTtl: nat): Objects {
    if gc then Access(m, k, alive) else ExistKey(m, k, alive, now, ttl, softTtl)
  }

  // ---- writing ----

  function Completed(rs: seq<Replica>, ty: ReplicaType): (r: seq<Replica>)
    ensures |r| == |rs| && forall i | 0 <= i < |rs| ::
      r[i] == if rs[i].Type() == ty then rs[i].MarkComplete() else rs[i]
  {
    if rs == [] then []
    else
      var last := rs[|rs| - 1];
      Completed(rs[..|rs| - 1], ty) + [if last.Type() == ty then last.MarkComplete() else last]
  }

  function PutEnd(m: Objects, k: Key, ty: ReplicaType, alive: set<nat>, now: int, softTtl: nat): Objects {
    var a := Access(m, k, alive);
    if k !in a then a
    else a[k := a[k].(replicas := Completed(a[k].replicas, ty)).GrantLease(now, 0, softTtl)]
  }

  function PutRevokeStatus(m: Objects, k: Key, ty: ReplicaType, alive: set<nat>): Status {
    var a := Access(m, k, alive);
    if k !in a then OBJECT_NOT_FOUND
    else if a[k].HasDiffRepStatus(PROCESSING, ty) then INVALID_WRITE
    else OK
  }

  function PutRevoke(m: Objects, k: Key, ty: ReplicaType, alive: set<nat>): Objects {
    var a := Access(m, k, alive);
    if PutRevokeStatus(m, k, ty, alive) != OK then a
    else if a[k].EraseReplica(ty).IsValid() then a[k := a[k].EraseReplica(ty)]
    else a - {k}
  }

  // The entry PutStart finds: stale replicas go, the entry itself stays.
  function PutCheck(m: Objects, k: Key, alive: set<nat>): Objects {
    if k in m then m[k := Cleanup(m[k], alive)] else m
  }

  predicate PutBlocked(m: Objects, k: Key, alive: set<nat>) {
    k in m && Cleanup(m[k], alive).replicas != []
  }

  // emplace: an entry that is already there wins.
  function Emplace(m: Objects, k: Key, o: Object): Objects {
    if k in m then m else m[k := o]
  }

  // ---- removing ----

  predicate Removable(o: Object, now: int) {
    o.IsLeaseExpired(now) && o.IsAllReplicasComplete()
  }

  function RemoveStatus(m: Objects, k: Key, alive: set<nat>, now: int): Status {
    var a := Access(m, k, alive);
    if k !in a then OBJECT_NOT_FOUND
    else if !a[k].IsLeaseExpired(now) then OBJECT_HAS_LEASE
    else if !a[k].IsAllReplicasComplete() then REPLICA_IS_NOT_READY
    else OK
  }

  function Remove(m: Objects, k: Key, alive: set<nat>, now: int): Objects {
    var a := Access(m, k, alive);
    if RemoveStatus(m, k, alive, now) == OK then a - {k} else a
  }

  // One shard of RemoveByRegex; `matched` are the keys of the shard the pattern accepts.
  function RemoveMatched(m: Objects, matched: set<Key>, now: int): Objects {
    map k | k in m && !(k in matched && Removable(m[k], now)) :: m[k]
  }

  // One shard of RemoveAll; `now` was read once, before the first shard.
  function RemoveExpired(m: Objects, shard: set<Key>, now: int): Objects {
    map k | k in m && !(k in shard && m[k].IsLeaseExpired(now)) :: m[k]
  }

  // One eviction by a pass of BatchEvict.
  function Evict(m: Objects, k: Key, r: BatchEvict.Rule, now: int): Objects {
    if k !in m || !BatchEvict.Evicts(r, m[k], now) then m
    else if m[k].EraseReplica(MEMORY).IsValid() then m[k := m[k].EraseReplica(MEMORY)]
    else m - {k}
  }

  // An eviction on the map is the eviction of that entry by a pass of BatchEvict.
  lemma EvictIsStrip(m: Objects, k: Key, r: BatchEvict.Rule, now: int)
    requires k in m
    ensures var s := BatchEvict.Sweep([BatchEvict.Entry(k, m[k])], r, now, 1).kept;
            if k in Evict(m, k, r, now) then s == [BatchEvict.Entry(k, Evict(m, k, r, now)[k])] else s == []
    ensures forall j | j != k :: (j in Evict(m, k, r, now) <==> j in m) && (j in m ==> Evict(m, k, r, now)[j] == m[j])
  {
    var e := BatchEvict.Entry(k, m[k]);
    assert [e][..0] == [];
    var none: seq<BatchEvict.Entry> := [];
    assert none + [e] == [e] && none + BatchEvict.Strip(e) == BatchEvict.Strip(e);
  }

  // ---- every one of them only shrinks ----

  lemma {:induction false} SubSelf(rs: seq<Replica>)
    ensures SubReplicas(rs, rs)
  {
    if rs != [] { SubSelf(rs[..|rs| - 1]); }
  }

  lemma {:induction false} LiveSub(rs: seq<Replica>, alive: set<nat>)
    ensures SubReplicas(Live(rs, alive), rs)
  {
    if rs != [] {
      LiveSub(rs[..|rs| - 1], alive);
      var rest := Live(rs[..|rs| - 1], alive);
      assert (rest + [rs[|rs| - 1]])[..|rest|] == rest;
    }
  }

  lemma {:induction false} CompletedSub(rs: seq<Replica>, ty: ReplicaType)
    ensures SubReplicas(Completed(rs, ty), rs)
  {
    if rs != [] {
      CompletedSub(rs[..|rs| - 1], ty);
      var r := Completed(rs, ty);
      assert r[..|r| - 1] == Completed(rs[..|rs| - 1], ty);
    }
  }

  lemma {:induction false} WithoutSub(rs: seq<Replica>, ty: ReplicaType)
    ensures SubReplicas(Without(rs, ty), rs)
  {
    if rs != [] {
      WithoutSub(rs[..|rs| - 1], ty);
      var rest := Without(rs[..|rs| - 1], ty);
      assert (rest + [rs[|rs| - 1]])[..|rest|] == rest;
    }
  }

  lemma CleanupBelow(o: Object, alive: set<nat>)
    ensures Below(Cleanup(o, alive), o)
  {
    LiveSub(o.replicas, alive);
    SubBelow(Cleanup(o, alive), o);
  }

  lemma EraseBelow(o: Object, ty: ReplicaType)
    ensures Below(o.EraseReplica(ty), o)
  {
    WithoutSub(o.replicas, ty);
    SubBelow(o.EraseReplica(ty), o);
  }

  lemma GrantBelow(o: Object, now: int, ttl: nat, softTtl: nat)
    ensures Below(o.GrantLease(now, ttl, softTtl), o)
  {
    SubSelf(o.replicas);
    SubBelow(o.GrantLease(now, ttl, softTtl), o);
  }

  lemma PutEndBelow(o: Object, ty: ReplicaType, now: int, softTtl: nat)
    ensures Below(o.(replicas := Completed(o.replicas, ty)).GrantLease(now, 0, softTtl), o)
  {
    CompletedSub(o.replicas, ty);
    SubBelow(o.(replicas := Completed(o.replicas, ty)).GrantLease(now, 0, softTtl), o);
  }

  lemma AccessShrinks(m: Objects, k: Key, alive: set<nat>)
    ensures Shrinks(m, Access(m, k, alive))
  {
    hide Shrinks, Below, Cleanup;
    ShrinksSelf(m);
    if k in m {
      CleanupBelow(m[k], alive);
      ShrinksOne(m, k, Cleanup(m[k], alive));
    }
  }

  lemma PutCheckShrinks(m: Objects, k: Key, alive: set<nat>)
    ensures Shrinks(m, PutCheck(m, k, alive))
  {
    hide Shrinks, Below, Cleanup;
    ShrinksSelf(m);
    if k in m {
      CleanupBelow(m[k], alive);
      ShrinksOne(m, k, Cleanup(m[k], alive));
    }
  }

  lemma SweepShrinks(m: Objects, shard: set<Key>, alive: set<nat>)
    ensures Shrinks(m, SweepStale(m, shard, alive))
  {
    hide Below, Cleanup;
    forall k | k in m ensures Below(m[k], m[k]) && Below(Cleanup(m[k], alive), m[k]) {
      BelowSelf(m[k]);
      CleanupBelow(m[k], alive);
    }
  }

  lemma ExistKeyShrinks(m: Objects, k: Key, alive: set<nat>, now: int, ttl: nat, softTtl: nat)
    ensures Shrinks(m, ExistKey(m, k, alive, now, ttl, softTtl))
  {
    hide Shrinks, Below, Access;
    AccessShrinks(m, k, alive);
    var a := Access(m, k, alive);
    if k in a {
      GrantBelow(a[k], now, ttl, softTtl);
      ShrinksOne(a, k, a[k].GrantLease(now, ttl, softTtl));
      ShrinksTrans(m, a, a[k := a[k].GrantLease(now, ttl, softTtl)]);
    }
  }

  lemma PutEndShrinks(m: Objects, k: Key, ty: ReplicaType, alive: set<nat>, now: int, softTtl: nat)
    ensures Shrinks(m, PutEnd(m, k, ty, alive, now, softTtl))
  {
    hide Shrinks, Below, Access, Completed;
    AccessShrinks(m, k, alive);
    var a := Access(m, k, alive);
    if k in a {
      var o := a[k].(replicas := Completed(a[k].replicas, ty)).GrantLease(now, 0, softTtl);
      PutEndBelow(a[k], ty, now, softTtl);
      ShrinksOne(a, k, o);
      ShrinksTrans(m, a, a[k := o]);
    }
  }

  lemma PutRevokeShrinks(m: Objects, k: Key, ty: ReplicaType, alive: set<nat>)
    ensures Shrinks(m, PutRevoke(m, k, ty, alive))
  {
    hide Shrinks, Below, Access, Without;
    AccessShrinks(m, k, alive);
    var a := Access(m, k, alive);
    if k in a {
      EraseBelow(a[k], ty);
      ShrinksOne(a, k, a[k].EraseReplica(ty));
      ShrinksTrans(m, a, a[k := a[k].EraseReplica(ty)]);
      ShrinksTrans(m, a, a - {k});
    }
  }

  lemma RemoveShrinks(m: Objects, k: Key, alive: set<nat>, now: int)
    ensures Shrinks(m, Remove(m, k, alive, now))
  {
    hide Shrinks, Below, Access;
    AccessShrinks(m, k, alive);
    var a := Access(m, k, alive);
    if k in a {
      BelowSelf(a[k]);
      ShrinksOne(a, k, a[k]);
      ShrinksTrans(m, a, a - {k});
    }
  }

  lemma RemoveManyShrinks(m: Objects, keys: set<Key>, now: int)
    ensures Shrinks(m, RemoveMatched(m, keys, now)) && Shrinks(m, RemoveExpired(m, keys, now))
  {
    hide Below;
    forall k | k in m ensures Below(m[k], m[k]) { BelowSelf(m[k]); }
  }

  lemma EvictShrinks(m: Objects, k: Key, r: BatchEvict.Rule, now: int)
    ensures Shrinks(m, Evict(m, k, r, now))
  {
    hide Shrinks, Below, Without;
    ShrinksSelf(m);
    if k in m {
      EraseBelow(m[k], MEMORY);
      ShrinksOne(m, k, m[k].EraseReplica(MEMORY));
    }
  }

  // ---- what a sweep leaves ----

  lemma {:induction false} LiveExact(rs: seq<Replica>, alive: set<nat>)
    ensures forall r :: multiset(Live(rs, alive))[r] == if r.Stale(alive) then 0 else multiset(rs)[r]
  {
    if rs != [] {
      LiveExact(rs[..|rs| - 1], alive);
      assert rs == rs[..|rs| - 1] + [rs[|rs| - 1]];
    }
  }

  // A cleaned object only holds allocators that exist.
  lemma CleanupHolds(o: Object, alive: set<nat>, a: nat)
    requires Holds(Cleanup(o, alive), a)
    ensures a in alive
  {
    LiveExact(o.replicas, alive);
    var rs := Live(o.replicas, alive);
    var i :| 0 <= i < |rs| && ReplicaHolds(rs[i], a);
    assert rs[i] in multiset(rs);
  }

  // ---- sizes stay right ----

  // o' has only replicas of o, or such with another status.
  lemma PartSizes(o: Object, o': Object)
    requires SizesOk(o) && o'.size == o.size
    requires forall s | s in o'.replicas :: exists r :: r in o.replicas && SameBuffers(s, r)
    ensures SizesOk(o')
  {
    hide BufferBytes;
    forall s | s in o'.replicas && s.Memory? ensures BufferBytes(s.buffers) == o'.size {
      var r :| r in o.replicas && SameBuffers(s, r);
    }
  }

  lemma CleanupSizes(o: Object, alive: set<nat>)
    requires SizesOk(o)
    ensures SizesOk(Cleanup(o, alive))
  {
    hide BufferBytes;
    LiveExact(o.replicas, alive);
    forall s | s in Live(o.replicas, alive) ensures exists r :: r in o.replicas && SameBuffers(s, r) {
      assert s in multiset(Live(o.replicas, alive));
      assert s in o.replicas && SameBuffers(s, s);
    }
    PartSizes(o, Cleanup(o, alive));
  }

  lemma EraseSizes(o: Object, ty: ReplicaType)
    requires SizesOk(o)
    ensures SizesOk(o.EraseReplica(ty))
  {
    hide BufferBytes;
  }

  lemma CompletedSizes(o: Object, o': Object, ty: ReplicaType)
    requires SizesOk(o) && o'.size == o.size && o'.replicas == Completed(o.replicas, ty)
    ensures SizesOk(o')
  {
    hide BufferBytes, SizesOk;
    forall s | s in o'.replicas ensures exists r :: r in o.replicas && SameBuffers(s, r) {
      var i :| 0 <= i < |o'.replicas| && o'.replicas[i] == s;
      assert o.replicas[i] in o.replicas && SameBuffers(s, o.replicas[i]);
    }
    PartSizes(o, o');
  }
}
