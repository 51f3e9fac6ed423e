/**
 Replicas and object metadata as the master keeps them: leases, soft pins and
 the status of every replica. Times are integers (milliseconds of one clock).
 */
module Metadata {
  import opened Options

  // kMaxSliceSize: a slab of 2^24 bytes, less 16.
  const MAX_SLICE: nat := 0x100_0000 - 16

  datatype ReplicaType = MEMORY | DISK

  datatype ReplicaStatus = UNDEFINED | INITIALIZED | PROCESSING | COMPLETE | REMOVED | FAILED

  // What an allocator answers: itself and the node of the grant.
  datatype Slot = Slot(allocator: nat, node: nat)

  // A buffer holds a grant of an allocator, named by its node; it is stale once that allocator is gone.
  datatype Buffer = Buffer(allocator: nat, node: nat, size: nat)

  datatype Replica =
    | Memory(buffers: seq<Buffer>, status: ReplicaStatus)
    | Disk(objectSize: nat, status: ReplicaStatus)
  {
    function Type(): ReplicaType {
      if Memory? then MEMORY else DISK
    }

    // mark_complete: only a replica being written becomes complete.
    function MarkComplete(): Replica {
      if status == PROCESSING then this.(status := COMPLETE) else this
    }

    // has_invalid_mem_handle
    predicate Stale(alive: set<nat>) {
      Memory? && exists i :: 0 <= i < |buffers| && buffers[i].allocator !in alive
    }
  }

  datatype Object = Object(replicas: seq<Replica>, size: nat, lease: int, softPin: Option<int>) {

    predicate IsLeaseExpired(now: int) { now >= lease }

    predicate IsSoftPinned(now: int) { softPin.Some? && now < softPin.value }

    predicate IsValid() { replicas != [] && size > 0 }

    predicate IsAllReplicasComplete() {
      forall i | 0 <= i < |replicas| :: replicas[i].status == COMPLETE
    }

    predicate HasMemReplica() {
      exists i :: 0 <= i < |replicas| && replicas[i].Memory?
    }

    // HasDiffRepStatus: some replica of the type has another status.
    predicate HasDiffRepStatus(status: ReplicaStatus, ty: ReplicaType) {
      exists i :: 0 <= i < |replicas| && replicas[i].status != status && replicas[i].Type() == ty
    }

    function EraseReplica(ty: ReplicaType): Object {
      this.(replicas := Without(replicas, ty))
    }

    function GetMemReplicaCount(): nat {
      CountMemory(replicas)
    }

    // GrantLease: both timeouts only ever move forward.
    function GrantLease(now: int, ttl: nat, softTtl: nat): Object {
      this.(lease := Max(lease, now + ttl),
            softPin := if softPin.Some? then Some(Max(softPin.value, now + softTtl)) else None)
    }
  }

  function Max(a: int, b: int): int {
    if a < b then b else a
  }

  function Without(rs: seq<Replica>, ty: ReplicaType): (r: seq<Replica>)
    ensures forall x :: x in r <==> x in rs && x.Type() != ty
  {
    if rs == [] then []
    else
      var rest := Without(rs[..|rs| - 1], ty);
      var last := rs[|rs| - 1];
      assert forall x :: x in rs <==> x in rs[..|rs| - 1] || x == last;
      if last.Type() == ty then rest else rest + [last]
  }

  function CountMemory(rs: seq<Replica>): nat {
    if rs == [] then 0 else CountMemory(rs[..|rs| - 1]) + (if rs[|rs| - 1].Memory? then 1 else 0)
  }

  // ---- bytes ----

  function BufferBytes(bs: seq<Buffer>): nat {
    if bs == [] then 0 else BufferBytes(bs[..|bs| - 1]) + bs[|bs| - 1].size
  }

  function ReplicaBytes(r: Replica): nat {
    if r.Memory? then BufferBytes(r.buffers) else 0
  }

  function ReplicasBytes(rs: seq<Replica>): nat {
    if rs == [] then 0 else ReplicasBytes(rs[..|rs| - 1]) + ReplicaBytes(rs[|rs| - 1])
  }

  // The buffers of every memory replica add up to the object's size.
  ghost predicate SizesOk(o: Object) {
    forall r | r in o.replicas && r.Memory? :: BufferBytes(r.buffers) == o.size
  }

  lemma OneMore(size: nat, c: nat)
    ensures size * (c + 1) == size * c + size
  {}

  lemma {:induction false} MemoryBytes(rs: seq<Replica>, size: nat)
    requires forall r | r in rs && r.Memory? :: BufferBytes(r.buffers) == size
    ensures ReplicasBytes(rs) == size * CountMemory(rs)
  {
    hide BufferBytes;
    if rs != [] {
      MemoryBytes(rs[..|rs| - 1], size);
      assert rs[|rs| - 1] in rs;
      OneMore(size, CountMemory(rs[..|rs| - 1]));
    }
  }

  lemma {:induction false} WithoutMemoryBytes(rs: seq<Replica>)
    ensures ReplicasBytes(Without(rs, MEMORY)) == 0
  {
    if rs != [] {
      WithoutMemoryBytes(rs[..|rs| - 1]);
      var rest := Without(rs[..|rs| - 1], MEMORY);
      assert (rest + [rs[|rs| - 1]])[..|rest|] == rest;
    }
  }

  lemma ErasedHasNoMemory(o: Object)
    ensures !o.EraseReplica(MEMORY).HasMemReplica()
  {
    var rs := o.EraseReplica(MEMORY).replicas;
    assert forall i | 0 <= i < |rs| :: rs[i] in rs;
  }
}
