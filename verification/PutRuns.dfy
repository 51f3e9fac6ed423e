/**
 What a put installs, whatever runs between its lock and its emplace.
 */
module PutRuns {
  import opened Metadata
  import opened Options
  import opened ByteSums
  import opened Cluster
  import opened ClusterProofs
  import O = ObjectOps
  import L = LiveGrants
  import M = MasterService

  // What PutStart installs is what the allocation step of the cluster has: when each of its buffers is
  // granted by an allocator in service, the step can be taken.
  lemma PutStartAllocates(
    c: State, o: Object, k: Key, slices: seq<nat>, replies: seq<seq<Option<Slot>>>, disk: bool, pin: bool,
    cuts: seq<L.Cut>)
    requires M.ValidParams(k, slices, |replies|) && M.Begun(o, slices, replies, disk, pin)
    requires forall i | 0 <= i < |replies| ::
      forall j | 0 <= j < |replies[i]| && replies[i][j].Some? :: replies[i][j].value.allocator in c.seg.allocators
    requires L.CanGrant(c.heaps, Flat(o.replicas), cuts)
    ensures Allocated(c, o, cuts)
  {
    hide L.CanGrant, BufferBytes, M.Total, M.Writes, Flat, ReplicaHolds, SizesOk;
    forall i | 0 <= i < |replies| ensures WritesFrom(c, o.replicas[i]) {
      WritesMeans(c, o.replicas[i], slices, replies[i]);
    }
    assert WritesFrom(c, o.replicas[0]);
    forall r | r in o.replicas ensures r.status == PROCESSING && (r.Memory? ==> r.buffers != []) {
      var i :| 0 <= i < |o.replicas| && o.replicas[i] == r;
      assert i < |replies| ==> WritesFrom(c, o.replicas[i]);
    }
    forall b | b in Flat(o.replicas) ensures b.size <= MAX_SLICE {
      var i := FlatFrom(o.replicas, b);
      assert WritesFrom(c, o.replicas[i]);
    }
    forall a | Holds(o, a) ensures a in c.seg.allocators {
      var i :| 0 <= i < |o.replicas| && ReplicaHolds(o.replicas[i], a);
      HeldBuffer(o.replicas[i], a);
      assert WritesFrom(c, o.replicas[i]);
    }
    M.BegunSizes(o, slices, replies, disk, pin);
  }

  // A replica being written to buffers within the limit, of allocators in service.
  ghost predicate WritesFrom(c: State, r: Replica) {
    && r.Memory? && r.status == PROCESSING && r.buffers != []
    && forall b | b in r.buffers :: b.size <= MAX_SLICE && b.allocator in c.seg.allocators
  }

  lemma WritesMeans(c: State, r: Replica, slices: seq<nat>, replies: seq<Option<Slot>>)
    requires M.Writes(r, slices, replies) && slices != [] && forall j | 0 <= j < |slices| :: slices[j] <= MAX_SLICE
    requires forall j | 0 <= j < |replies| && replies[j].Some? :: replies[j].value.allocator in c.seg.allocators
    ensures WritesFrom(c, r)
  {}

  lemma HeldBuffer(r: Replica, a: nat)
    requires ReplicaHolds(r, a)
    ensures r.Memory? && exists b :: b in r.buffers && b.allocator == a
  {
    var j :| 0 <= j < |r.buffers| && r.buffers[j].allocator == a;
    assert r.buffers[j] in r.buffers;
  }

  lemma {:induction false} FlatFrom(rs: seq<Replica>, b: Buffer) returns (i: nat)
    requires b in Flat(rs)
    ensures i < |rs| && ReplicaHas(rs[i], b)
  {
    if rs[|rs| - 1].Memory? && b in rs[|rs| - 1].buffers { i := |rs| - 1; } else { i := FlatFrom(rs[..|rs| - 1], b); }
  }

  // Other threads leave the entry of a key alone while a put has its shard locked.
  lemma LockedStep(cfg: Config, c: State, op: Op, k: Key)
    requires Enabled(cfg, c, op) && k in c.puts && op != PutEmplace(k) && op != PutAbort(k)
    ensures var c' := Apply(cfg, c, op);
            && k in c'.puts
            && (k in c'.objects <==> k in c.objects)
            && (k in c.objects ==> c'.objects[k] == c.objects[k])
            && (!op.PutAllocate? || op.key != k ==> c'.puts[k] == c.puts[k])
  {
    hide Alive, Allocated, MonitorStep, MonitorEnabled, MountsStep, MountsEnabled, ObjectStep, ObjectsEnabled,
      O.Cleanup;
    if op.OnObjects() {
      LockedObjects(cfg, c, op, k);
    } else if op.PutLock? {
      assert op.key != k;
    } else if !op.SweepShard? && !op.OnPuts() {
      StoreStays(cfg, c, op);
    }
  }

  lemma AccessOther(m: Objects, j: Key, alive: set<nat>, k: Key)
    requires j != k
    ensures (k in O.Access(m, j, alive) <==> k in m) && (k in m ==> O.Access(m, j, alive)[k] == m[k])
  {}

  lemma LockedObjects(cfg: Config, c: State, op: Op, k: Key)
    requires op.OnObjects() && ObjectsEnabled(cfg, c, op) && k in c.puts
    ensures var m' := ObjectStep(cfg, c, op);
      (k in m' <==> k in c.objects) && (k in c.objects ==> m'[k] == c.objects[k])
  {
    hide Alive, ShardKeys;
    hide O.PutCheck, O.ExistKey, O.GetReplicaList, O.PutEnd, O.PutRevoke, O.Remove, O.Evict;
    if op.RemoveMatched? || op.RemoveExpired? {
      InShard(cfg, c.objects, op.shard, k);
    } else {
      assert op.key != k;
      OthersStay(cfg, c, op, k);
    }
  }

  lemma InShard(cfg: Config, m: Objects, i: nat, k: Key)
    ensures k in ShardKeys(cfg, m, i) ==> cfg.shardOf(k) == i
  {}

  lemma OthersStay(cfg: Config, c: State, op: Op, k: Key)
    requires op.OnObjects() && !op.RemoveMatched? && !op.RemoveExpired? && op.key != k
    ensures var m' := ObjectStep(cfg, c, op);
      (k in m' <==> k in c.objects) && (k in c.objects ==> m'[k] == c.objects[k])
  {
    hide Alive, O.Access, O.Cleanup, O.Readable, O.Removable;
    AccessOther(c.objects, op.key, Alive(c), k);
  }

  lemma {:induction false} LockedRun(cfg: Config, c: State, ops: seq<Op>, k: Key)
    requires Legal(cfg, c, ops) && k in c.puts && PutEmplace(k) !in ops && PutAbort(k) !in ops
    ensures var c' := Run(cfg, c, ops);
            && k in c'.puts
            && (k in c'.objects <==> k in c.objects)
            && (k in c.objects ==> c'.objects[k] == c.objects[k])
    decreases |ops|
  {
    hide Apply, Enabled;
    if ops != [] {
      LockedRun(cfg, c, ops[..|ops| - 1], k);
      assert ops[|ops| - 1] in ops;
      LockedStep(cfg, Run(cfg, c, ops[..|ops| - 1]), ops[|ops| - 1], k);
    }
  }

  // Whatever runs between the lock and the emplace of a put, what it emplaces is installed
  // if and only if the key had no entry when it locked.
  lemma PutInstalls(cfg: Config, c: State, k: Key, ops: seq<Op>)
    requires Enabled(cfg, c, PutLock(k))
    requires Legal(cfg, Apply(cfg, c, PutLock(k)), ops) && PutEmplace(k) !in ops && PutAbort(k) !in ops
    requires var d := Run(cfg, Apply(cfg, c, PutLock(k)), ops); k in d.puts && d.puts[k].replicas != []
    ensures var d := Run(cfg, Apply(cfg, c, PutLock(k)), ops); var c' := Apply(cfg, d, PutEmplace(k));
            && k in c'.objects && k !in c'.puts
            && (c'.objects[k] == d.puts[k] <==> k !in c.objects)
            && (k in c.objects ==> c'.objects[k].replicas == [])
  {
    hide Run, Legal, Apply, Enabled;
    LockFacts(cfg, c, k);
    var l := Apply(cfg, c, PutLock(k));
    LockedRun(cfg, l, ops, k);
    EmplaceFacts(cfg, Run(cfg, l, ops), k);
  }

  lemma LockFacts(cfg: Config, c: State, k: Key)
    requires Enabled(cfg, c, PutLock(k))
    ensures var l := Apply(cfg, c, PutLock(k));
            k in l.puts && (k in l.objects <==> k in c.objects) && (k in c.objects ==> l.objects[k].replicas == [])
  {}

  lemma EmplaceFacts(cfg: Config, d: State, k: Key)
    requires k in d.puts && d.puts[k].replicas != []
    ensures Enabled(cfg, d, PutEmplace(k))
    ensures var c' := Apply(cfg, d, PutEmplace(k));
            k !in c'.puts && k in c'.objects && c'.objects[k] == if k in d.objects then d.objects[k] else d.puts[k]
  {}
}
