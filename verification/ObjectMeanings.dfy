/**
 What each operation of module ObjectOps does, said in terms of the fields of
 objects and replicas alone.
 */
module ObjectMeanings {
  import opened Metadata
  import opened Options
  import opened ByteSums
  import opened Sequences
  import O = ObjectOps
  import B = BatchEvict

  // ---- which replicas ----

  // Every buffer belongs to an allocator that exists.
  ghost predicate Usable(r: Replica, alive: set<nat>) {
    r.Disk? || forall i | 0 <= i < |r.buffers| :: r.buffers[i].allocator in alive
  }

  ghost function UsableIn(alive: set<nat>): Replica -> bool {
    (r: Replica) => Usable(r, alive)
  }

  // The replica is of the type.
  predicate IsOf(r: Replica, ty: ReplicaType) {
    if ty == MEMORY then r.Memory? else r.Disk?
  }

  ghost function NotOf(ty: ReplicaType): Replica -> bool {
    (r: Replica) => !IsOf(r, ty)
  }

  lemma {:induction false} LiveMeans(rs: seq<Replica>, alive: set<nat>)
    ensures Filtered(rs, O.Live(rs, alive), UsableIn(alive))
  {
    hide Filtered;
    if rs == [] {
      FilteredNone(UsableIn(alive));
    } else {
      var p, x := rs[..|rs| - 1], rs[|rs| - 1];
      LiveMeans(p, alive);
      FilteredNext(p, O.Live(p, alive), UsableIn(alive), x);
      assert rs == p + [x];
    }
  }

  lemma {:induction false} WithoutMeans(rs: seq<Replica>, ty: ReplicaType)
    ensures Filtered(rs, Without(rs, ty), NotOf(ty))
  {
    hide Filtered;
    if rs == [] {
      FilteredNone(NotOf(ty));
    } else {
      var p, x := rs[..|rs| - 1], rs[|rs| - 1];
      WithoutMeans(p, ty);
      FilteredNext(p, Without(p, ty), NotOf(ty), x);
      assert rs == p + [x];
    }
  }

  lemma SomeLeft(rs: seq<Replica>, kept: seq<Replica>, keep: Replica -> bool)
    requires Filtered(rs, kept, keep)
    ensures kept != [] <==> exists r :: r in rs && keep(r)
  {
    hide Filtered;
    FilteredMembers(rs, kept, keep);
    if kept != [] { assert kept[0] in kept; }
  }

  // ---- opening an entry ----

  ghost predicate OthersSame(m: Objects, m': Objects, k: Key) {
    forall j | j != k :: (j in m' <==> j in m) && (j in m ==> m'[j] == m[j])
  }

  // o' is o with the replicas that keep says, and nothing else changed.
  ghost predicate Keeps(o: Object, o': Object, keep: Replica -> bool) {
    o'.size == o.size && o'.lease == o.lease && o'.softPin == o.softPin && Filtered(o.replicas, o'.replicas, keep)
  }

  lemma CleanupMeans(o: Object, alive: set<nat>)
    ensures Keeps(o, O.Cleanup(o, alive), UsableIn(alive))
    ensures O.Cleanup(o, alive).replicas != [] <==> exists r :: r in o.replicas && Usable(r, alive)
  {
    hide Filtered;
    LiveMeans(o.replicas, alive);
    SomeLeft(o.replicas, O.Live(o.replicas, alive), UsableIn(alive));
    assert forall r :: UsableIn(alive)(r) <==> Usable(r, alive);
  }

  // The entry loses exactly its unusable replicas, and goes when no usable one is there.
  lemma AccessMeans(m: Objects, k: Key, alive: set<nat>)
    ensures var a := O.Access(m, k, alive);
      && OthersSame(m, a, k)
      && (k in a <==> k in m && exists r :: r in m[k].replicas && Usable(r, alive))
      && (k in a ==> Keeps(m[k], a[k], UsableIn(alive)))
  {
    hide Filtered, Keeps, O.Cleanup, Usable;
    if k in m { CleanupMeans(m[k], alive); }
  }

  // PutStart finds an entry in the way iff it has a usable replica; an entry that has none stays, empty.
  lemma PutCheckMeans(m: Objects, k: Key, alive: set<nat>)
    ensures var a := O.PutCheck(m, k, alive);
      OthersSame(m, a, k) && (k in a <==> k in m) && (k in m ==> Keeps(m[k], a[k], UsableIn(alive)))
    ensures O.PutBlocked(m, k, alive) <==> k in m && exists r :: r in m[k].replicas && Usable(r, alive)
  {
    hide Filtered, Keeps, O.Cleanup, Usable;
    if k in m { CleanupMeans(m[k], alive); }
  }

  // One shard of ClearInvalidHandles.
  lemma SweepMeans(m: Objects, shard: set<Key>, alive: set<nat>, k: Key)
    ensures var s := O.SweepStale(m, shard, alive);
      && (k in s <==> k in m && (k in shard ==> exists r :: r in m[k].replicas && Usable(r, alive)))
      && (k in s ==> if k in shard then Keeps(m[k], s[k], UsableIn(alive)) else s[k] == m[k])
  {
    hide Filtered, Keeps, O.Cleanup, Usable;
    if k in m { CleanupMeans(m[k], alive); }
  }

  // ---- reading ----

  // o' is o with its lease, and its soft pin when it has one, extended to at least the given times.
  ghost predicate Extended(o: Object, o': Object, lease: int, pin: int) {
    && o'.replicas == o.replicas && o'.size == o.size
    && o'.lease == (if o.lease < lease then lease else o.lease)
    && o'.softPin.Some? == o.softPin.Some?
    && (o.softPin.Some? ==> o'.softPin.value == if o.softPin.value < pin then pin else o.softPin.value)
  }

  ghost predicate HasComplete(o: Object) {
    exists r :: r in o.replicas && r.status == COMPLETE
  }

  lemma ReadableMeans(o: Object)
    ensures O.Readable(o) <==> HasComplete(o)
  {
    if HasComplete(o) {
      var r :| r in o.replicas && r.status == COMPLETE;
      var i :| 0 <= i < |o.replicas| && o.replicas[i] == r;
    }
    if O.Readable(o) {
      var i :| 0 <= i < |o.replicas| && o.replicas[i].status == COMPLETE;
      assert o.replicas[i] in o.replicas;
    }
  }

  // After opening, an entry with a complete replica is granted the lease, any other stays as it is;
  // with garbage collection on, GetReplicaList grants nothing.
  lemma ReadMeans(m: Objects, k: Key, alive: set<nat>, now: int, ttl: nat, soft: nat)
    ensures var a, e := O.Access(m, k, alive), O.ExistKey(m, k, alive, now, ttl, soft);
      && OthersSame(a, e, k) && (k in e <==> k in a)
      && (k in a ==> if HasComplete(a[k]) then Extended(a[k], e[k], now + ttl, now + soft) else e[k] == a[k])
    ensures O.GetReplicaList(m, k, alive, true, now, ttl, soft) == O.Access(m, k, alive)
    ensures O.GetReplicaList(m, k, alive, false, now, ttl, soft) == O.ExistKey(m, k, alive, now, ttl, soft)
  {
    hide O.Access, O.Readable, HasComplete;
    var a := O.Access(m, k, alive);
    if k in a { ReadableMeans(a[k]); }
  }

  // ---- writing ----

  // s is r, complete when it was being written and is of the type.
  ghost predicate Ended(r: Replica, s: Replica, ty: ReplicaType) {
    && (r.Memory? ==> s.Memory? && s.buffers == r.buffers)
    && (r.Disk? ==> s.Disk? && s.objectSize == r.objectSize)
    && s.status == if IsOf(r, ty) && r.status == PROCESSING then COMPLETE else r.status
  }

  lemma PutEndMeans(m: Objects, k: Key, ty: ReplicaType, alive: set<nat>, now: int, soft: nat)
    ensures var a, e := O.Access(m, k, alive), O.PutEnd(m, k, ty, alive, now, soft);
      && OthersSame(a, e, k) && (k in e <==> k in a)
      && (k in a ==>
            && |e[k].replicas| == |a[k].replicas|
            && (forall i | 0 <= i < |a[k].replicas| :: Ended(a[k].replicas[i], e[k].replicas[i], ty))
            && Extended(a[k].(replicas := e[k].replicas), e[k], now, now + soft))
  {
    hide O.Access, O.Completed;
  }

  lemma PutRevokeMeans(m: Objects, k: Key, ty: ReplicaType, alive: set<nat>)
    ensures var a, e, st := O.Access(m, k, alive), O.PutRevoke(m, k, ty, alive), O.PutRevokeStatus(m, k, ty, alive);
      && (st == O.OBJECT_NOT_FOUND <==> k !in a)
      && (st == O.INVALID_WRITE <==> k in a && exists r :: r in a[k].replicas && IsOf(r, ty) && r.status != PROCESSING)
      && (st == O.OK || st == O.OBJECT_NOT_FOUND || st == O.INVALID_WRITE)
      && (st != O.OK ==> e == a)
      && (st == O.OK ==>
            && OthersSame(a, e, k)
            && (k in e <==> a[k].size > 0 && exists r :: r in a[k].replicas && !IsOf(r, ty))
            && (k in e ==> Keeps(a[k], e[k], NotOf(ty))))
  {
    hide Filtered, Without, O.Access;
    var a := O.Access(m, k, alive);
    if k in a {
      WithoutMeans(a[k].replicas, ty);
      SomeLeft(a[k].replicas, Without(a[k].replicas, ty), NotOf(ty));
      assert forall r :: NotOf(ty)(r) <==> !IsOf(r, ty);
      DiffMeans(a[k], PROCESSING, ty);
    }
  }

  lemma DiffMeans(o: Object, s: ReplicaStatus, ty: ReplicaType)
    ensures o.HasDiffRepStatus(s, ty) <==> exists r :: r in o.replicas && IsOf(r, ty) && r.status != s
  {
    if r :| r in o.replicas && IsOf(r, ty) && r.status != s {
      var i :| 0 <= i < |o.replicas| && o.replicas[i] == r;
    }
    if i :| 0 <= i < |o.replicas| && o.replicas[i].status != s && o.replicas[i].Type() == ty {
      assert o.replicas[i] in o.replicas;
    }
  }

  // ---- removing ----

  ghost predicate AllComplete(o: Object) {
    forall r | r in o.replicas :: r.status == COMPLETE
  }

  lemma CompleteMeans(o: Object)
    ensures o.IsAllReplicasComplete() <==> AllComplete(o)
  {
    assert forall i | 0 <= i < |o.replicas| :: o.replicas[i] in o.replicas;
  }

  // Each code exactly, and that an accepted removal takes the entry and no other.
  lemma RemoveMeans(m: Objects, k: Key, alive: set<nat>, now: int)
    ensures var a, e, st := O.Access(m, k, alive), O.Remove(m, k, alive, now), O.RemoveStatus(m, k, alive, now);
      && (st == O.OBJECT_NOT_FOUND <==> k !in a)
      && (st == O.OBJECT_HAS_LEASE <==> k in a && now < a[k].lease)
      && (st == O.REPLICA_IS_NOT_READY <==> k in a && a[k].lease <= now && !AllComplete(a[k]))
      && (st == O.OK <==> k in a && a[k].lease <= now && AllComplete(a[k]))
      && (st != O.OK ==> e == a)
      && (st == O.OK ==> k !in e && OthersSame(a, e, k))
  {
    hide O.Access, AllComplete;
    var a := O.Access(m, k, alive);
    if k in a { CompleteMeans(a[k]); }
  }

  lemma RemoveManyMeans(m: Objects, keys: set<Key>, now: int, k: Key)
    ensures var e := O.RemoveMatched(m, keys, now);
      && (k in e <==> k in m && !(k in keys && m[k].lease <= now && AllComplete(m[k])))
      && (k in e ==> e[k] == m[k])
    ensures var e := O.RemoveExpired(m, keys, now);
      && (k in e <==> k in m && !(k in keys && m[k].lease <= now))
      && (k in e ==> e[k] == m[k])
  {
    hide AllComplete;
    if k in m { CompleteMeans(m[k]); }
  }

  lemma EmplaceMeans(m: Objects, k: Key, o: Object)
    ensures OthersSame(m, O.Emplace(m, k, o), k) && k in O.Emplace(m, k, o)
    ensures O.Emplace(m, k, o)[k] == if k in m then m[k] else o
  {}

  // ---- evicting ----

  // When the rule lets an object go.
  lemma EvictsMeans(r: B.Rule, o: Object, now: int)
    ensures B.Evicts(r, o, now) <==>
      && B.InMemory(o) && (forall x | x in o.replicas && x.Memory? :: x.status == COMPLETE)
      && (r.First? ==> o.lease <= now && !B.SoftPinned(o, now) && o.lease <= r.timeout)
      && (r.SecondA? ==> !B.SoftPinned(o, now) && o.lease <= r.timeout)
      && (r.SecondB? ==> o.lease <= now && (!B.SoftPinned(o, now) || o.lease <= r.timeout))
  {
    DiffMeans(o, COMPLETE, MEMORY);
    B.InMemoryMeans(o);
  }

  // An object of positive size that is evicted is still there iff it has a replica that is not in
  // memory, and then it has exactly those replicas and is the same otherwise. No other entry changes.
  lemma EvictMeans(m: Objects, k: Key, r: B.Rule, now: int)
    ensures var e := O.Evict(m, k, r, now);
      && OthersSame(m, e, k)
      && (k !in m || !B.Evicts(r, m[k], now) ==> e == m)
      && (k in m && B.Evicts(r, m[k], now) ==>
            && (k in e <==> m[k].size > 0 && exists x :: x in m[k].replicas && x.Disk?)
            && (k in e ==> Keeps(m[k], e[k], NotOf(MEMORY))))
  {
    hide Filtered, Without, B.Evicts;
    if k in m {
      WithoutMeans(m[k].replicas, MEMORY);
      SomeLeft(m[k].replicas, Without(m[k].replicas, MEMORY), NotOf(MEMORY));
      assert forall x :: NotOf(MEMORY)(x) <==> x.Disk?;
    }
  }
}
