/**
 The master's operations on objects as it carries them out, loop by loop, on its
 metadata and on the gauge of allocated bytes. Each method is proved to do what
 the function of module ObjectOps says, and the gauge stays the sum of the bytes
 of the buffers that exist. Allocators are chosen by an outside strategy, whose
 answers are a parameter.
 */
module MasterService {
  import opened Maps
  import opened Metadata
  import opened Options
  import opened ByteSums
  import opened ObjectOps
  import opened Sequences

  // ---- what PutStart checks and builds ----

  // Replica r has, slice by slice, the buffers that were granted.
  ghost predicate Writes(r: Replica, slices: seq<nat>, replies: seq<Option<Slot>>) {
    && r.Memory? && r.status == PROCESSING && |r.buffers| == |slices| == |replies|
    && forall j | 0 <= j < |slices| ::
         && replies[j].Some? && r.buffers[j].allocator == replies[j].value.allocator
         && r.buffers[j].node == replies[j].value.node && r.buffers[j].size == slices[j]
  }

  // The replicas are one in memory per list of replies, and one more on disk if there is to be one.
  ghost predicate AllWrite(rs: seq<Replica>, slices: seq<nat>, replies: seq<seq<Option<Slot>>>, disk: bool) {
    && |rs| == |replies| + (if disk then 1 else 0)
    && (forall i | 0 <= i < |replies| :: Writes(rs[i], slices, replies[i]))
    && (disk ==> rs[|replies|] == Disk(Total(slices), PROCESSING))
  }

  // An object as PutStart installs it.
  ghost predicate Begun(o: Object, slices: seq<nat>, replies: seq<seq<Option<Slot>>>, disk: bool, softPin: bool) {
    && AllWrite(o.replicas, slices, replies, disk) && o.size == Total(slices) && o.lease == 0
    && (o.softPin.Some? <==> softPin) && (softPin ==> o.softPin.value == 0)
  }

  predicate ValidParams(k: Key, slices: seq<nat>, replicaNum: nat) {
    replicaNum > 0 && k != [] && slices != [] && forall j | 0 <= j < |slices| :: slices[j] <= MAX_SLICE
  }

  // Buffers for the slices, all granted.
  ghost function Buffers(slices: seq<nat>, replies: seq<Option<Slot>>): seq<Buffer>
    requires |slices| == |replies|
  {
    seq(|slices|, j requires 0 <= j < |slices| =>
      if replies[j].Some? then Buffer(replies[j].value.allocator, replies[j].value.node, slices[j])
      else Buffer(0, 0, slices[j]))
  }

  ghost predicate AllGranted(replies: seq<Option<Slot>>) {
    forall j | 0 <= j < |replies| :: replies[j].Some?
  }

  ghost function NewReplicas(slices: seq<nat>, replies: seq<seq<Option<Slot>>>, disk: bool): seq<Replica>
    requires forall i | 0 <= i < |replies| :: |replies[i]| == |slices|
  {
    seq(|replies|, i requires 0 <= i < |replies| => Memory(Buffers(slices, replies[i]), PROCESSING))
    + if disk then [Disk(Total(slices), PROCESSING)] else []
  }

  function Total(slices: seq<nat>): nat {
    if slices == [] then 0 else Total(slices[..|slices| - 1]) + slices[|slices| - 1]
  }

  lemma NewAllWrite(slices: seq<nat>, replies: seq<seq<Option<Slot>>>, disk: bool)
    requires forall i | 0 <= i < |replies| :: |replies[i]| == |slices| && AllGranted(replies[i])
    ensures AllWrite(NewReplicas(slices, replies, disk), slices, replies, disk)
  {}

  lemma NoNewReplicas(slices: seq<nat>, replies: seq<seq<Option<Slot>>>)
    ensures NewReplicas(slices, replies[..0], false) == []
  {}

  lemma OneNewReplica(slices: seq<nat>, replies: seq<seq<Option<Slot>>>, i: nat)
    requires i < |replies| && forall j | 0 <= j < |replies| :: |replies[j]| == |slices|
    ensures NewReplicas(slices, replies[..i + 1], false) ==
      NewReplicas(slices, replies[..i], false) + [Memory(Buffers(slices, replies[i]), PROCESSING)]
  {
    hide Buffers;
  }

  lemma {:induction false} BuffersTotal(slices: seq<nat>, replies: seq<Option<Slot>>)
    requires |slices| == |replies|
    ensures BufferBytes(Buffers(slices, replies)) == Total(slices)
  {
    if slices != [] {
      var n := |slices| - 1;
      BuffersTotal(slices[..n], replies[..n]);
      assert Buffers(slices, replies)[..n] == Buffers(slices[..n], replies[..n]);
    }
  }

  // Every memory replica PutStart installs adds up to the object's size.
  lemma NewSizesOk(slices: seq<nat>, replies: seq<seq<Option<Slot>>>, disk: bool, o: Object)
    requires forall i | 0 <= i < |replies| :: |replies[i]| == |slices|
    requires o.replicas == NewReplicas(slices, replies, disk) && o.size == Total(slices)
    ensures SizesOk(o)
  {
    forall r | r in o.replicas && r.Memory? ensures BufferBytes(r.buffers) == o.size {
      var i :| 0 <= i < |o.replicas| && o.replicas[i] == r;
      BuffersTotal(slices, replies[i]);
    }
  }

  lemma {:induction false} WrittenTotal(bs: seq<Buffer>, slices: seq<nat>)
    requires |bs| == |slices| && forall j | 0 <= j < |bs| :: bs[j].size == slices[j]
    ensures BufferBytes(bs) == Total(slices)
  {
    if bs != [] { WrittenTotal(bs[..|bs| - 1], slices[..|bs| - 1]); }
  }

  lemma BegunSizes(o: Object, slices: seq<nat>, replies: seq<seq<Option<Slot>>>, disk: bool, pin: bool)
    requires Begun(o, slices, replies, disk, pin)
    ensures SizesOk(o)
  {
    forall r | r in o.replicas && r.Memory? ensures BufferBytes(r.buffers) == o.size {
      var i :| 0 <= i < |o.replicas| && o.replicas[i] == r;
      assert Writes(o.replicas[i], slices, replies[i]);
      WrittenTotal(r.buffers, slices);
    }
  }

  class Master {
    const enableGc: bool
    const useDisk: bool
    const leaseTtl: nat
    const softTtl: nat
    var metadata: Objects
    var gauge: int
    var needEviction: bool

    // The gauge counts exactly the bytes of the buffers that exist, and the buffers of every memory
    // replica add up to the size of its object.
    ghost predicate Valid()
      reads this
    {
      gauge == AllBytes(metadata) && AllSizes(metadata)
    }

    constructor (enableGc: bool, useDisk: bool, leaseTtl: nat, softTtl: nat)
      ensures Valid() && metadata == map[] && gauge == 0
    {
      this.enableGc, this.useDisk, this.leaseTtl, this.softTtl := enableGc, useDisk, leaseTtl, softTtl;
      metadata, gauge, needEviction := map[], 0, false;
    }

    // ---- buffers ----

    // The destructors of the buffers of one replica: each gives its bytes back.
    method DestroyBuffers(bs: seq<Buffer>)
      modifies this`gauge
      ensures gauge == old(gauge) - BufferBytes(bs)
    {
      for i := 0 to |bs|
        invariant gauge == old(gauge) - BufferBytes(bs[..i])
      {
        assert bs[..i + 1][..i] == bs[..i];
        gauge := gauge - bs[i].size;
      }
      assert bs[..|bs|] == bs;
    }

    method Destroy(rs: seq<Replica>)
      modifies this`gauge
      ensures gauge == old(gauge) - ReplicasBytes(rs)
    {
      for i := 0 to |rs|
        invariant gauge == old(gauge) - ReplicasBytes(rs[..i])
      {
        assert rs[..i + 1][..i] == rs[..i];
        if rs[i].Memory? { DestroyBuffers(rs[i].buffers); }
      }
      assert rs[..|rs|] == rs;
    }

    method Erase(k: Key)
      requires Valid() && k in metadata
      modifies this`gauge, this`metadata
      ensures Valid() && metadata == old(metadata) - {k}
    {
      hide SizesOk, AllBytes;
      AllBytesWithout(metadata, k);
      Destroy(metadata[k].replicas);
      metadata := metadata - {k};
    }

    // ---- stale handles ----

    method CleanupStaleHandles(k: Key, alive: set<nat>) returns (empty: bool)
      requires Valid() && k in metadata
      modifies this`gauge, this`metadata
      ensures Valid() && metadata == old(metadata)[k := Cleanup(old(metadata)[k], alive)]
      ensures empty == (Cleanup(old(metadata)[k], alive).replicas == [])
    {
      hide AllBytes, ReplicasBytes, ReplicaBytes, Live, SizesOk;
      var o := metadata[k];
      CleanupSizes(o, alive);
      var kept: seq<Replica> := [];
      NoReplicas(alive);
      for i := 0 to |o.replicas|
        invariant kept == Live(o.replicas[..i], alive)
        invariant gauge == old(gauge) - ReplicasBytes(o.replicas[..i]) + ReplicasBytes(kept)
        invariant metadata == old(metadata)
      {
        NextReplica(o.replicas, i, alive);
        if o.replicas[i].Stale(alive) {
          Destroy([o.replicas[i]]);
          OneReplica(o.replicas[i]);
        } else {
          AppendBytes(kept, o.replicas[i]);
          kept := kept + [o.replicas[i]];
        }
      }
      assert o.replicas[..|o.replicas|] == o.replicas;
      AllBytesPut(metadata, k, o.(replicas := kept));
      metadata := metadata[k := o.(replicas := kept)];
      empty := kept == [];
    }

    // The metadata accessor: opens the entry, dropping it when nothing valid is left.
    method Open(k: Key, alive: set<nat>) returns (found: bool)
      requires Valid()
      modifies this`gauge, this`metadata
      ensures Valid() && metadata == Access(old(metadata), k, alive) && found == (k in metadata)
    {
      if k in metadata {
        var empty := CleanupStaleHandles(k, alive);
        if empty {
          Erase(k);
          assert metadata == old(metadata) - {k};
        }
      }
      return k in metadata;
    }

    // One shard, under its lock.
    method ClearShard(keys: set<Key>, alive: set<nat>)
      requires Valid() && keys <= metadata.Keys
      modifies this`gauge, this`metadata
      ensures Valid() && metadata == SweepStale(old(metadata), keys, alive)
    {
      hide SweepStale, Cleanup, AllBytes, SizesOk;
      ghost var done: set<Key> := {};
      SweepNone(metadata, alive);
      var todo := keys;
      while todo != {}
        invariant Valid() && todo + done == keys && todo !! done
        invariant metadata == SweepStale(old(metadata), done, alive)
      {
        var k :| k in todo;
        SweepOne(old(metadata), done, k, alive);
        var empty := CleanupStaleHandles(k, alive);
        if empty { Erase(k); }
        todo, done := todo - {k}, done + {k};
      }
      assert done == keys;
    }

    // Shard after shard; a key is in the shard its hash gives.
    method ClearInvalidHandles(shards: nat, shardOf: Key -> nat, alive: set<nat>)
      requires Valid() && forall k | k in metadata :: shardOf(k) < shards
      modifies this`gauge, this`metadata
      ensures Valid() && metadata == SweepStale(old(metadata), old(metadata).Keys, alive)
    {
      hide SweepStale, AllBytes, SizesOk;
      ghost var m := metadata;
      SweepNone(m, alive);
      assert FirstShards(m, shardOf, 0) == {};
      for i := 0 to shards
        invariant Valid() && metadata == SweepStale(m, FirstShards(m, shardOf, i), alive)
      {
        var keys := set k | k in metadata && shardOf(k) == i;
        SweepNext(m, shardOf, i, alive);
        ClearShard(keys, alive);
      }
      assert FirstShards(m, shardOf, shards) == m.Keys;
    }

    // ---- reading ----

    // Extends the lease of an entry, and its soft pin when it has one.
    method GrantLease(k: Key, now: int)
      requires Valid() && k in metadata
      modifies this`metadata
      ensures Valid() && metadata == old(metadata)[k := old(metadata)[k].GrantLease(now, leaseTtl, softTtl)]
    {
      var o := metadata[k];
      AllBytesPut(metadata, k, o.GrantLease(now, leaseTtl, softTtl));
      GrantSizes(o, now, leaseTtl, softTtl);
      metadata := metadata[k := o.GrantLease(now, leaseTtl, softTtl)];
    }

    method ExistKey(k: Key, alive: set<nat>, now: int) returns (found: bool)
      requires Valid()
      modifies this`gauge, this`metadata
      ensures Valid() && metadata == ObjectOps.ExistKey(old(metadata), k, alive, now, leaseTtl, softTtl)
      ensures found <==> k in metadata && Readable(metadata[k])
    {
      found := Open(k, alive);
      if !found { return; }
      var o := metadata[k];
      for i := 0 to |o.replicas|
        invariant forall j | 0 <= j < i :: o.replicas[j].status != COMPLETE
        invariant Valid() && metadata == Access(old(metadata), k, alive)
      {
        if o.replicas[i].status == COMPLETE {
          GrantLease(k, now);
          assert metadata[k].replicas[i].status == COMPLETE;
          return true;
        }
      }
      return false;
    }

    // The complete replicas of an object.
    static method CompleteReplicas(o: Object) returns (list: seq<Replica>)
      ensures list == CompleteOnes(o.replicas) && Filtered(o.replicas, list, Finished())
      ensures list == [] <==> !Readable(o)
    {
      list := [];
      for i := 0 to |o.replicas|
        invariant list == CompleteOnes(o.replicas[..i])
        invariant list == [] <==> forall j | 0 <= j < i :: o.replicas[j].status != COMPLETE
      {
        assert o.replicas[..i + 1][..i] == o.replicas[..i];
        if o.replicas[i].status == COMPLETE { list := list + [o.replicas[i]]; }
      }
      assert o.replicas[..|o.replicas|] == o.replicas;
      CompleteExactly(o.replicas);
    }

    method GetReplicaList(k: Key, alive: set<nat>, now: int) returns (st: Status, list: seq<Replica>)
      requires Valid()
      modifies this`gauge, this`metadata
      ensures Valid() && metadata == ObjectOps.GetReplicaList(old(metadata), k, alive, enableGc, now, leaseTtl, softTtl)
      ensures st == if k !in metadata then OBJECT_NOT_FOUND else if Readable(metadata[k]) then OK
        else REPLICA_IS_NOT_READY
      ensures st == OK ==> Filtered(metadata[k].replicas, list, Finished())
    {
      hide CompleteOnes, Filtered;
      list := [];
      var found := Open(k, alive);
      if !found { return OBJECT_NOT_FOUND, []; }
      var o := metadata[k];
      list := CompleteReplicas(o);
      if list == [] { return REPLICA_IS_NOT_READY, []; }
      if !enableGc { GrantLease(k, now); }
      assert metadata[k].replicas == o.replicas;
      assert Readable(metadata[k]);
      return OK, list;
    }

    // ---- writing ----

    method PutStart(
      k: Key, slices: seq<nat>, replicaNum: nat, softPin: bool, alive: set<nat>, replies: seq<seq<Option<Slot>>>)
      returns (st: Status)
      requires Valid() && |replies| == replicaNum && forall i | 0 <= i < |replies| :: |replies[i]| == |slices|
      modifies this
      ensures Valid()
      ensures var valid := ValidParams(k, slices, replicaNum);
              var blocked := PutBlocked(old(metadata), k, alive);
              var granted := forall i | 0 <= i < replicaNum :: AllGranted(replies[i]);
        st == if !valid then INVALID_PARAMS
              else if blocked then OBJECT_ALREADY_EXISTS
              else if granted then OK
              else NO_AVAILABLE_HANDLE
      ensures st == INVALID_PARAMS ==> metadata == old(metadata)
      ensures st == OBJECT_ALREADY_EXISTS || st == NO_AVAILABLE_HANDLE ==> metadata == PutCheck(old(metadata), k, alive)
      ensures st == OK ==>
        metadata == Emplace(PutCheck(old(metadata), k, alive), k,
          Object(NewReplicas(slices, replies, useDisk), Total(slices), 0, if softPin then Some(0) else None))
      ensures st == OK ==>
        && (forall j | j != k ::
              (j in metadata <==> j in old(metadata)) && (j in metadata ==> metadata[j] == old(metadata)[j]))
        && k in metadata
        && (k !in old(metadata) ==> Begun(metadata[k], slices, replies, useDisk, softPin))
        && (k in old(metadata) ==> metadata[k].replicas == [])
      ensures needEviction == (old(needEviction) || st == NO_AVAILABLE_HANDLE)
    {
      hide Cleanup, NewReplicas, AllGranted, AllBytes, SizesOk, AllWrite;
      if forall i | 0 <= i < replicaNum :: AllGranted(replies[i]) { NewAllWrite(slices, replies, useDisk); }
      if replicaNum == 0 || k == [] || slices == [] { return INVALID_PARAMS; }
      var fits, total := CheckSlices(slices);
      if !fits { return INVALID_PARAMS; }
      if k in metadata {
        var empty := CleanupStaleHandles(k, alive);
        if !empty { return OBJECT_ALREADY_EXISTS; }
      }
      st := PutReplicas(k, slices, total, softPin, replies);
    }

    method CheckSlices(slices: seq<nat>) returns (fits: bool, total: nat)
      ensures fits <==> forall j | 0 <= j < |slices| :: slices[j] <= MAX_SLICE
      ensures fits ==> total == Total(slices)
    {
      total := 0;
      for j := 0 to |slices|
        invariant total == Total(slices[..j]) && forall l | 0 <= l < j :: slices[l] <= MAX_SLICE
      {
        if slices[j] > MAX_SLICE { return false, 0; }
        assert slices[..j + 1][..j] == slices[..j];
        total := total + slices[j];
      }
      assert slices[..|slices|] == slices;
      fits := true;
    }

    method PutReplicas(k: Key, slices: seq<nat>, total: nat, softPin: bool, replies: seq<seq<Option<Slot>>>)
      returns (st: Status)
      requires Valid() && total == Total(slices) && forall i | 0 <= i < |replies| :: |replies[i]| == |slices|
      modifies this
      ensures Valid() && (st == OK || st == NO_AVAILABLE_HANDLE)
      ensures st == OK <==> forall i | 0 <= i < |replies| :: AllGranted(replies[i])
      ensures st != OK ==> metadata == old(metadata) && needEviction
      ensures st == OK ==> needEviction == old(needEviction)
      ensures st == OK ==>
        metadata == Emplace(old(metadata), k,
          Object(NewReplicas(slices, replies, useDisk), total, 0, if softPin then Some(0) else None))
    {
      hide AllGranted, AllBytes, SizesOk;
      var replicas;
      st, replicas := AllocateReplicas(slices, replies);
      if st != OK {
        needEviction := true;
        return;
      }
      if useDisk {
        AppendBytes(replicas, Disk(total, PROCESSING));
        replicas := replicas + [Disk(total, PROCESSING)];
      }
      assert replicas == NewReplicas(slices, replies, useDisk);
      NewSizesOk(slices, replies, useDisk, Object(replicas, total, 0, if softPin then Some(0) else None));
      Install(k, Object(replicas, total, 0, if softPin then Some(0) else None));
    }

    // emplace: when the key is taken, the new object is destroyed on the spot.
    method Install(k: Key, o: Object)
      requires gauge == AllBytes(metadata) + ReplicasBytes(o.replicas) && AllSizes(metadata) && SizesOk(o)
      modifies this`gauge, this`metadata
      ensures Valid() && metadata == Emplace(old(metadata), k, o)
    {
      hide SizesOk, AllBytes;
      if k in metadata {
        Destroy(o.replicas);
      } else {
        AllBytesPut(metadata, k, o);
        metadata := metadata[k := o];
      }
    }

    // A failure on the way gives back every byte that was taken.
    method AllocateReplicas(slices: seq<nat>, replies: seq<seq<Option<Slot>>>)
      returns (st: Status, replicas: seq<Replica>)
      requires forall i | 0 <= i < |replies| :: |replies[i]| == |slices|
      modifies this`gauge
      ensures st == OK || st == NO_AVAILABLE_HANDLE
      ensures st == OK <==> forall i | 0 <= i < |replies| :: AllGranted(replies[i])
      ensures st == OK ==> replicas == NewReplicas(slices, replies, false) && AllWrite(replicas, slices, replies, false)
      ensures gauge == old(gauge) + if st == OK then ReplicasBytes(replicas) else 0
    {
      hide NewReplicas, Buffers, AllGranted, AllWrite;
      NoNewReplicas(slices, replies);
      replicas := [];
      for i := 0 to |replies|
        invariant forall l | 0 <= l < i :: AllGranted(replies[l])
        invariant replicas == NewReplicas(slices, replies[..i], false)
        invariant gauge == old(gauge) + ReplicasBytes(replicas)
      {
        var handles;
        st, handles := AllocateSlices(slices, replies[i]);
        if st != OK {
          Destroy(replicas);
          return;
        }
        AppendBytes(replicas, Memory(handles, PROCESSING));
        OneNewReplica(slices, replies, i);
        replicas := replicas + [Memory(handles, PROCESSING)];
      }
      assert replies[..|replies|] == replies;
      NewAllWrite(slices, replies, false);
      st := OK;
    }

    method AllocateSlices(slices: seq<nat>, replies: seq<Option<Slot>>) returns (st: Status, handles: seq<Buffer>)
      requires |slices| == |replies|
      modifies this`gauge
      ensures st == OK || st == NO_AVAILABLE_HANDLE
      ensures st == OK <==> AllGranted(replies)
      ensures st == OK ==> handles == Buffers(slices, replies)
      ensures gauge == old(gauge) + if st == OK then BufferBytes(handles) else 0
    {
      handles := [];
      for j := 0 to |slices|
        invariant AllGranted(replies[..j]) && handles == Buffers(slices[..j], replies[..j])
        invariant gauge == old(gauge) + BufferBytes(handles)
      {
        if replies[j].None? {
          DestroyBuffers(handles);
          return NO_AVAILABLE_HANDLE, [];
        }
        gauge := gauge + slices[j];
        assert (handles + [Buffer(replies[j].value.allocator, replies[j].value.node, slices[j])])[..j] == handles;
        handles := handles + [Buffer(replies[j].value.allocator, replies[j].value.node, slices[j])];
        assert replies[..j + 1] == replies[..j] + [replies[j]];
        assert handles == Buffers(slices[..j + 1], replies[..j + 1]);
      }
      assert slices[..|slices|] == slices && replies[..|replies|] == replies;
      st := OK;
    }

    method PutEnd(k: Key, ty: ReplicaType, alive: set<nat>, now: int) returns (st: Status)
      requires Valid()
      modifies this`gauge, this`metadata
      ensures Valid() && metadata == ObjectOps.PutEnd(old(metadata), k, ty, alive, now, softTtl)
      ensures st == if k in metadata then OK else OBJECT_NOT_FOUND
    {
      hide Completed, Access;
      var found := Open(k, alive);
      if !found { return OBJECT_NOT_FOUND; }
      var rs := metadata[k].replicas;
      var done := MarkAll(rs, ty);
      CompletedBytes(rs, ty);
      var o := metadata[k].(replicas := done).GrantLease(now, 0, softTtl);
      CompletedSizes(metadata[k], o, ty);
      AllBytesPut(metadata, k, o);
      metadata := metadata[k := o];
      return OK;
    }

    static method MarkAll(rs: seq<Replica>, ty: ReplicaType) returns (done: seq<Replica>)
      ensures done == Completed(rs, ty)
    {
      done := rs;
      for i := 0 to |rs|
        invariant |done| == |rs| && forall j | 0 <= j < |rs| ::
          done[j] == if j < i && rs[j].Type() == ty then rs[j].MarkComplete() else rs[j]
      {
        if rs[i].Type() == ty { done := done[i := rs[i].MarkComplete()]; }
      }
    }

    method PutRevoke(k: Key, ty: ReplicaType, alive: set<nat>) returns (st: Status)
      requires Valid()
      modifies this`gauge, this`metadata
      ensures Valid() && metadata == ObjectOps.PutRevoke(old(metadata), k, ty, alive)
      ensures st == PutRevokeStatus(old(metadata), k, ty, alive)
    {
      var found := Open(k, alive);
      if !found { return OBJECT_NOT_FOUND; }
      if metadata[k].HasDiffRepStatus(PROCESSING, ty) { return INVALID_WRITE; }
      EraseReplica(k, ty);
      if !metadata[k].IsValid() { Erase(k); }
      return OK;
    }

    method EraseReplica(k: Key, ty: ReplicaType)
      requires Valid() && k in metadata
      modifies this`gauge, this`metadata
      ensures Valid() && metadata == old(metadata)[k := old(metadata)[k].EraseReplica(ty)]
    {
      hide AllBytes, ReplicasBytes, ReplicaBytes, Without, SizesOk;
      var o := metadata[k];
      EraseSizes(o, ty);
      var kept: seq<Replica> := [];
      NoneWithout(ty);
      for i := 0 to |o.replicas|
        invariant kept == Without(o.replicas[..i], ty)
        invariant gauge == old(gauge) - ReplicasBytes(o.replicas[..i]) + ReplicasBytes(kept)
        invariant metadata == old(metadata)
      {
        NextWithout(o.replicas, i, ty);
        if o.replicas[i].Type() == ty {
          Destroy([o.replicas[i]]);
          OneReplica(o.replicas[i]);
        } else {
          AppendBytes(kept, o.replicas[i]);
          kept := kept + [o.replicas[i]];
        }
      }
      assert o.replicas[..|o.replicas|] == o.replicas;
      AllBytesPut(metadata, k, o.(replicas := kept));
      metadata := metadata[k := o.(replicas := kept)];
    }

    // ---- removing ----

    method Remove(k: Key, alive: set<nat>, now: int) returns (st: Status)
      requires Valid()
      modifies this`gauge, this`metadata
      ensures Valid() && metadata == ObjectOps.Remove(old(metadata), k, alive, now)
      ensures st == RemoveStatus(old(metadata), k, alive, now)
    {
      var found := Open(k, alive);
      if !found { return OBJECT_NOT_FOUND; }
      if !metadata[k].IsLeaseExpired(now) { return OBJECT_HAS_LEASE; }
      if !metadata[k].IsAllReplicasComplete() { return REPLICA_IS_NOT_READY; }
      Erase(k);
      return OK;
    }

    method RemoveByRegex(matched: set<Key>, now: int) returns (removed: nat)
      requires Valid()
      modifies this`gauge, this`metadata
      ensures Valid() && metadata == RemoveMatched(old(metadata), matched, now)
      ensures removed == |old(metadata)| - |metadata|
    {
      hide RemoveMatched, Removable, AllBytes, AllSizes;
      removed := 0;
      ghost var done: set<Key> := {};
      RemoveNone(metadata, now);
      var todo := metadata.Keys;
      while todo != {}
        invariant Valid() && todo + done == old(metadata).Keys && todo !! done &&
          removed == |old(metadata)| - |metadata|
        invariant metadata == RemoveMatched(old(metadata), matched * done, now)
      {
        var k :| k in todo;
        MatchOne(old(metadata), matched, done, k, now);
        assert todo - {k} + (done + {k}) == todo + done;
        if k in matched && Removable(metadata[k], now) {
          Smaller(metadata, k);
          Erase(k);
          removed := removed + 1;
        }
        todo, done := todo - {k}, done + {k};
      }
      MatchAll(old(metadata), matched, done, now);
    }

    // The freed size it reports is the drop of the gauge.
    method RemoveAll(now: int) returns (removed: nat, freed: nat)
      requires Valid()
      modifies this`gauge, this`metadata
      ensures Valid() && metadata == RemoveExpired(old(metadata), old(metadata).Keys, now)
      ensures removed == |old(metadata)| - |metadata| && freed == old(gauge) - gauge
    {
      hide RemoveExpired, SizesOk, AllBytes;
      removed, freed := 0, 0;
      ghost var done: set<Key> := {};
      RemoveNone(metadata, now);
      var todo := metadata.Keys;
      while todo != {}
        invariant Valid() && todo + done == old(metadata).Keys && todo !! done
        invariant removed == |old(metadata)| - |metadata| && freed == old(gauge) - gauge
        invariant metadata == RemoveExpired(old(metadata), done, now)
      {
        var k :| k in todo;
        ExpireOne(old(metadata), done, k, now);
        if metadata[k].IsLeaseExpired(now) {
          Smaller(metadata, k);
          FreedSize(metadata[k]);
          AllBytesWithout(metadata, k);
          freed := freed + metadata[k].size * metadata[k].GetMemReplicaCount();
          Erase(k);
          removed := removed + 1;
        }
        todo, done := todo - {k}, done + {k};
      }
      assert done == old(metadata).Keys;
    }
  }

  // ---- one more key of a sweep over all keys ----

  lemma SweepNone(m: Objects, alive: set<nat>)
    ensures SweepStale(m, {}, alive) == m
  {}

  lemma RemoveNone(m: Objects, now: int)
    ensures RemoveExpired(m, {}, now) == m && RemoveMatched(m, {}, now) == m
    ensures forall matched: set<Key> :: matched * {} == {}
  {}

  // Keys in the first n shards.
  ghost function FirstShards(m: Objects, shardOf: Key -> nat, n: nat): set<Key> {
    set k | k in m && shardOf(k) < n
  }

  lemma SweepNext(m: Objects, shardOf: Key -> nat, i: nat, alive: set<nat>)
    ensures var s := SweepStale(m, FirstShards(m, shardOf, i), alive);
            var keys := set k | k in s && shardOf(k) == i;
      SweepStale(s, keys, alive) == SweepStale(m, FirstShards(m, shardOf, i + 1), alive)
  {
    hide Cleanup;
    var s := SweepStale(m, FirstShards(m, shardOf, i), alive);
    assert forall k | k in m && shardOf(k) == i :: k in s && s[k] == m[k];
  }

  lemma SweepOne(m: Objects, done: set<Key>, k: Key, alive: set<nat>)
    requires k in m && k !in done
    ensures var s := SweepStale(m, done, alive);
            && k in s && s[k] == m[k]
            && (if Cleanup(m[k], alive).replicas == [] then s[k := Cleanup(m[k], alive)] - {k}
                 else s[k := Cleanup(m[k], alive)])
               == SweepStale(m, done + {k}, alive)
  {
    hide Cleanup;
  }

  lemma MatchOne(m: Objects, matched: set<Key>, done: set<Key>, k: Key, now: int)
    requires k in m && k !in done
    ensures var s := RemoveMatched(m, matched * done, now);
            && k in s && s[k] == m[k]
            && (if k in matched && Removable(m[k], now) then s - {k} else s) ==
                 RemoveMatched(m, matched * (done + {k}), now)
  {
    hide Removable;
  }

  lemma MatchAll(m: Objects, matched: set<Key>, done: set<Key>, now: int)
    requires done == m.Keys
    ensures RemoveMatched(m, matched * done, now) == RemoveMatched(m, matched, now)
  {
    hide Removable;
  }

  lemma ExpireOne(m: Objects, done: set<Key>, k: Key, now: int)
    requires k in m && k !in done
    ensures var s := RemoveExpired(m, done, now);
            && k in s && s[k] == m[k]
            && (if m[k].IsLeaseExpired(now) then s - {k} else s) == RemoveExpired(m, done + {k}, now)
  {}

  // ---- small facts about bytes ----

  lemma GrantSizes(o: Object, now: int, ttl: nat, softTtl: nat)
    requires SizesOk(o)
    ensures SizesOk(o.GrantLease(now, ttl, softTtl))
  {}

  function CompleteOnes(rs: seq<Replica>): seq<Replica> {
    if rs == [] then []
    else CompleteOnes(rs[..|rs| - 1]) + if rs[|rs| - 1].status == COMPLETE then [rs[|rs| - 1]] else []
  }

  ghost function Finished(): Replica -> bool {
    (r: Replica) => r.status == COMPLETE
  }

  lemma {:induction false} CompleteExactly(rs: seq<Replica>)
    ensures Filtered(rs, CompleteOnes(rs), Finished())
  {
    hide Filtered;
    if rs == [] {
      FilteredNone(Finished());
    } else {
      var p, x := rs[..|rs| - 1], rs[|rs| - 1];
      CompleteExactly(p);
      FilteredNext(p, CompleteOnes(p), Finished(), x);
      assert rs == p + [x] && CompleteOnes(p) + [] == CompleteOnes(p);
    }
  }

  lemma NoReplicas(alive: set<nat>)
    ensures Live([], alive) == [] && ReplicasBytes([]) == 0
  {}

  lemma NoneWithout(ty: ReplicaType)
    ensures Without([], ty) == [] && ReplicasBytes([]) == 0
  {}

  lemma NextReplica(rs: seq<Replica>, i: nat, alive: set<nat>)
    requires i < |rs|
    ensures Live(rs[..i + 1], alive) == Live(rs[..i], alive) + if rs[i].Stale(alive) then [] else [rs[i]]
    ensures ReplicasBytes(rs[..i + 1]) == ReplicasBytes(rs[..i]) + ReplicaBytes(rs[i])
  {
    assert rs[..i + 1][..i] == rs[..i];
  }

  lemma NextWithout(rs: seq<Replica>, i: nat, ty: ReplicaType)
    requires i < |rs|
    ensures Without(rs[..i + 1], ty) == Without(rs[..i], ty) + if rs[i].Type() == ty then [] else [rs[i]]
    ensures ReplicasBytes(rs[..i + 1]) == ReplicasBytes(rs[..i]) + ReplicaBytes(rs[i])
  {
    assert rs[..i + 1][..i] == rs[..i];
  }

  lemma OneReplica(r: Replica)
    ensures ReplicasBytes([r]) == ReplicaBytes(r)
  {
    assert [r][..0] == [];
  }

  lemma AppendBytes(rs: seq<Replica>, r: Replica)
    ensures ReplicasBytes(rs + [r]) == ReplicasBytes(rs) + ReplicaBytes(r)
  {
    assert (rs + [r])[..|rs|] == rs;
  }

  lemma {:induction false} CompletedBytes(rs: seq<Replica>, ty: ReplicaType)
    ensures ReplicasBytes(Completed(rs, ty)) == ReplicasBytes(rs)
  {
    if rs != [] {
      CompletedBytes(rs[..|rs| - 1], ty);
      var d := Completed(rs, ty);
      assert d[..|rs| - 1] == Completed(rs[..|rs| - 1], ty);
    }
  }

  lemma FreedSize(o: Object)
    requires SizesOk(o)
    ensures o.size * o.GetMemReplicaCount() == ReplicasBytes(o.replicas)
  {
    MemoryBytes(o.replicas, o.size);
  }
}
