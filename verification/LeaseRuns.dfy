/**
 Leases and replica statuses over whole runs of the master.
 */
module LeaseRuns {
  import opened Metadata
  import opened ByteSums
  import opened Cluster
  import opened ClusterProofs
  import O = ObjectOps
  import B = BatchEvict
  import L = LiveGrants
  import M = ObjectMeanings

  // ---- counting replicas ----

  ghost function Count(o: Object, r: Replica): nat {
    multiset(o.replicas)[r]
  }

  // The entry of k is still there, with r as often as before and no shorter a lease.
  ghost predicate Kept(m: Objects, m': Objects, k: Key, r: Replica)
    requires k in m
  {
    && k in m' && m'[k].size == m[k].size && m'[k].lease >= m[k].lease
    && Count(m'[k], r) >= Count(m[k], r)
  }

  function Marked(r: Replica, ty: ReplicaType): Replica {
    if r.Type() == ty then r.MarkComplete() else r
  }

  lemma CompletedLast(rs: seq<Replica>, ty: ReplicaType)
    requires rs != []
    ensures O.Completed(rs, ty) == O.Completed(rs[..|rs| - 1], ty) + [Marked(rs[|rs| - 1], ty)]
  {}

  lemma {:induction false} CompletedCount(rs: seq<Replica>, ty: ReplicaType, r: Replica)
    requires r.status == COMPLETE || r.Type() != ty
    ensures multiset(O.Completed(rs, ty))[r] >= multiset(rs)[r]
  {
    hide O.Completed;
    if rs == [] {
      assert multiset(rs)[r] == 0;
    } else {
      var p, last := rs[..|rs| - 1], rs[|rs| - 1];
      CompletedCount(p, ty, r);
      CompletedLast(rs, ty);
      assert rs == p + [last];
      assert multiset(rs) == multiset(p) + multiset{last};
      assert multiset(O.Completed(rs, ty)) == multiset(O.Completed(p, ty)) + multiset{Marked(last, ty)};
    }
  }

  lemma {:induction false} WithoutCount(rs: seq<Replica>, ty: ReplicaType, r: Replica)
    requires r.Type() != ty
    ensures multiset(Without(rs, ty))[r] == multiset(rs)[r]
  {
    if rs != [] {
      WithoutCount(rs[..|rs| - 1], ty, r);
      assert rs == rs[..|rs| - 1] + [rs[|rs| - 1]];
    }
  }

  lemma CountMember(o: Object, r: Replica)
    ensures Count(o, r) > 0 <==> r in o.replicas
  {}

  lemma CleanupCount(o: Object, alive: set<nat>, r: Replica)
    requires !r.Stale(alive)
    ensures Count(O.Cleanup(o, alive), r) == Count(o, r)
  {
    O.LiveExact(o.replicas, alive);
  }

  // ---- the operations on one key ----

  lemma AccessKeeps(m: Objects, k: Key, j: Key, alive: set<nat>, r: Replica)
    requires k in m && Count(m[k], r) > 0 && !r.Stale(alive)
    ensures Kept(m, O.Access(m, j, alive), k, r) && Kept(m, O.PutCheck(m, j, alive), k, r)
    ensures O.Access(m, j, alive)[k].softPin == m[k].softPin
  {
    hide O.Cleanup;
    if j == k {
      CleanupCount(m[k], alive, r);
      CleanupSame(m[k], alive);
    }
  }

  lemma CleanupSame(o: Object, alive: set<nat>)
    ensures O.Cleanup(o, alive).size == o.size && O.Cleanup(o, alive).lease == o.lease
    ensures O.Cleanup(o, alive).softPin == o.softPin
  {}

  lemma SweepKept(m: Objects, shard: set<Key>, k: Key, alive: set<nat>, r: Replica)
    requires k in m && Count(m[k], r) > 0 && !r.Stale(alive)
    ensures Kept(m, O.SweepStale(m, shard, alive), k, r)
  {
    hide O.Cleanup;
    CleanupCount(m[k], alive, r);
    CleanupSame(m[k], alive);
  }

  lemma ExistKeyKeeps(m: Objects, k: Key, j: Key, alive: set<nat>, now: int, ttl: nat, soft: nat, r: Replica)
    requires k in m && Count(m[k], r) > 0 && !r.Stale(alive)
    ensures Kept(m, O.ExistKey(m, j, alive, now, ttl, soft), k, r)
  {
    hide O.Access;
    AccessKeeps(m, k, j, alive, r);
  }

  lemma PutEndKeeps(m: Objects, k: Key, j: Key, ty: ReplicaType, alive: set<nat>, now: int, soft: nat, r: Replica)
    requires k in m && Count(m[k], r) > 0 && !r.Stale(alive) && (j != k || r.status == COMPLETE || r.Type() != ty)
    ensures Kept(m, O.PutEnd(m, j, ty, alive, now, soft), k, r)
  {
    hide O.Access, O.Completed;
    AccessKeeps(m, k, j, alive, r);
    if j == k { CompletedCount(O.Access(m, k, alive)[k].replicas, ty, r); }
  }

  // A revoke that is accepted spares every replica it should not take, on an object with bytes.
  lemma PutRevokeKeeps(m: Objects, k: Key, j: Key, ty: ReplicaType, alive: set<nat>, r: Replica)
    requires k in m && Count(m[k], r) > 0 && !r.Stale(alive) && m[k].size > 0
    requires j != k || r.status != PROCESSING || r.Type() != ty
    ensures Kept(m, O.PutRevoke(m, j, ty, alive), k, r)
  {
    hide O.Access, Without;
    AccessKeeps(m, k, j, alive, r);
    var a := O.Access(m, j, alive);
    if j == k && O.PutRevokeStatus(m, j, ty, alive) == O.OK {
      CountMember(a[k], r);
      if r.status != PROCESSING { NoDiff(a[k], PROCESSING, ty, r); }
      WithoutCount(a[k].replicas, ty, r);
      CountMember(a[k].EraseReplica(ty), r);
    }
  }

  lemma NoDiff(o: Object, s: ReplicaStatus, ty: ReplicaType, r: Replica)
    requires !o.HasDiffRepStatus(s, ty) && r in o.replicas && r.status != s
    ensures r.Type() != ty
  {}

  // An accepted revoke erases the entry of an object with a COMPLETE replica if and only
  // if the object has no bytes.
  lemma PutRevokeExact(m: Objects, k: Key, ty: ReplicaType, alive: set<nat>, r: Replica)
    requires k in m && r in m[k].replicas && r.status == COMPLETE && !r.Stale(alive)
    requires O.PutRevokeStatus(m, k, ty, alive) == O.OK
    ensures k in O.PutRevoke(m, k, ty, alive) <==> m[k].size > 0
  {
    hide O.Cleanup, Without;
    CountMember(m[k], r);
    AccessKeeps(m, k, k, alive, r);
    if m[k].size > 0 { PutRevokeKeeps(m, k, k, ty, alive, r); }
  }

  // Removal needs an expired lease, and every replica complete.
  lemma RemoveKept(m: Objects, k: Key, j: Key, alive: set<nat>, now: int, r: Replica)
    requires k in m && Count(m[k], r) > 0 && !r.Stale(alive) && (now < m[k].lease || r.status != COMPLETE)
    ensures Kept(m, O.Remove(m, j, alive, now), k, r)
  {
    hide O.Access;
    AccessKeeps(m, k, j, alive, r);
    var a := O.Access(m, j, alive);
    CountMember(a[k], r);
  }

  lemma RemoveMatchedKeeps(m: Objects, k: Key, matched: set<Key>, now: int, r: Replica)
    requires k in m && Count(m[k], r) > 0 && (now < m[k].lease || r.status != COMPLETE)
    ensures Kept(m, O.RemoveMatched(m, matched, now), k, r)
  {
    CountMember(m[k], r);
  }

  // Eviction needs a lease that had expired when it started, and every memory replica complete.
  lemma EvictKeeps(m: Objects, k: Key, j: Key, rule: B.Rule, time: int, r: Replica)
    requires k in m && Count(m[k], r) > 0
    requires (B.RuleOk(rule, time) && time < m[k].lease) || (r.Memory? && r.status != COMPLETE)
    ensures Kept(m, O.Evict(m, j, rule, time), k, r)
  {
    CountMember(m[k], r);
    if j == k && B.Evicts(rule, m[k], time) && time >= m[k].lease { NoDiff(m[k], COMPLETE, MEMORY, r); }
  }

  // ---- the eviction thread ----

  // It started in the past, and every lease it listed was over then.
  ghost predicate EvictorOk(c: State) {
    c.evictor.time <= c.now && forall x | x in c.evictor.listed :: x <= c.evictor.time
  }

  // So the threshold of its second pass A, which is one of them, respects every lease that runs.
  lemma ThresholdOk(cfg: Config, c: State, k: Key, rule: B.Rule)
    requires EvictorOk(c) && ObjectsEnabled(cfg, c, Evict(k, rule))
    ensures B.RuleOk(rule, c.evictor.time) && c.evictor.time <= c.now
  {}

  lemma EvictorStep(cfg: Config, c: State, op: Op)
    requires EvictorOk(c) && Enabled(cfg, c, op)
    ensures EvictorOk(Apply(cfg, c, op))
  {
    hide MonitorStep, MonitorEnabled, MountsStep, MountsEnabled, UnmountsStep, UnmountsEnabled;
    hide ObjectStep, ObjectsEnabled, Alive, Unlocked, Allocated, ShardKeys;
    if op.OnMonitor() { MonitorStays(cfg, c, op); }
    else if op.OnMounts() { MountsStay(cfg, c, op); }
    else if op.OnUnmounts() { UnmountsStay(cfg, c, op); }
  }

  lemma {:induction false} EvictorRun(cfg: Config, c: State, ops: seq<Op>)
    requires EvictorOk(c) && Legal(cfg, c, ops)
    ensures EvictorOk(Run(cfg, c, ops))
    decreases |ops|
  {
    hide Enabled, Apply, EvictorOk;
    if ops != [] {
      EvictorRun(cfg, c, ops[..|ops| - 1]);
      EvictorStep(cfg, Run(cfg, c, ops[..|ops| - 1]), ops[|ops| - 1]);
    }
  }

  // ---- one step ----

  // RemoveAll, in the shard of k and with a time past its lease.
  ghost predicate Wipes(cfg: Config, c: State, op: Op, k: Key)
    requires k in c.objects
  {
    op.RemoveExpired? && op.shard == cfg.shardOf(k) && op.time >= c.objects[k].lease
  }

  // RemoveAll takes the entry of a key if and only if it wipes it; statuses do not matter.
  lemma RemoveAllExactly(cfg: Config, c: State, i: nat, time: int, k: Key)
    requires Enabled(cfg, c, RemoveExpired(i, time)) && k in c.objects
    ensures k in Apply(cfg, c, RemoveExpired(i, time)).objects <==> !Wipes(cfg, c, RemoveExpired(i, time), k)
    ensures k in Apply(cfg, c, RemoveExpired(i, time)).objects ==>
      Apply(cfg, c, RemoveExpired(i, time)).objects[k] == c.objects[k]
  {
    hide PutStep, PutsEnabled, MonitorStep, MonitorEnabled, MountsStep, MountsEnabled, UnmountsStep, UnmountsEnabled;
  }

  // Time, unmounts and other keys aside, what may take replica r of k: nothing while the lease
  // runs and r is complete; only PutRevoke, PutEnd and a wiping RemoveAll while r is written to memory.
  ghost predicate Guarded(cfg: Config, c: State, op: Op, k: Key, r: Replica)
    requires k in c.objects
  {
    || (r.status == COMPLETE && c.now < c.objects[k].lease)
    || (&& r.status == PROCESSING && r.Memory? && !Wipes(cfg, c, op, k)
        && op != PutRevoke(k, MEMORY) && op != PutEnd(k, MEMORY))
  }

  lemma ObjectsKept(cfg: Config, c: State, op: Op, k: Key, r: Replica)
    requires op.OnObjects() && ObjectsEnabled(cfg, c, op) && k in c.objects && c.objects[k].size > 0
    requires Count(c.objects[k], r) > 0 && !r.Stale(Alive(c)) && Guarded(cfg, c, op, k, r)
    requires r.status == COMPLETE ==> EvictorOk(c)
    ensures Kept(c.objects, ObjectStep(cfg, c, op), k, r)
  {
    hide Kept, Count, Alive, Unlocked, ShardKeys, Wipes, EvictorOk;
    hide O.Access, O.RemoveMatched, O.RemoveExpired, O.Evict;
    match op
    case RemoveMatched(_, matched) => RemoveMatchedKeeps(c.objects, k, matched, c.now, r);
    case RemoveExpired(i, t) =>
      InShard(cfg, c.objects, i, k);
      if r.status != COMPLETE || c.now >= c.objects[k].lease { NotWiped(cfg, c, i, t, k); }
      RemoveExpiredKeeps(c.objects, k, ShardKeys(cfg, c.objects, i), t, r);
    case Evict(j, rule) =>
      if r.status == COMPLETE { ThresholdOk(cfg, c, j, rule); }
      EvictKeeps(c.objects, k, j, rule, c.evictor.time, r);
    case _ => KeyKept(cfg, c, op, k, r);
  }

  lemma NotWiped(cfg: Config, c: State, i: nat, t: int, k: Key)
    requires k in c.objects && !Wipes(cfg, c, RemoveExpired(i, t), k)
    ensures i != cfg.shardOf(k) || t < c.objects[k].lease
  {}

  lemma KeyKept(cfg: Config, c: State, op: Op, k: Key, r: Replica)
    requires op.OnObjects() && !op.RemoveMatched? && !op.RemoveExpired? && !op.Evict?
    requires k in c.objects && c.objects[k].size > 0
    requires Count(c.objects[k], r) > 0 && !r.Stale(Alive(c)) && Guarded(cfg, c, op, k, r)
    ensures Kept(c.objects, ObjectStep(cfg, c, op), k, r)
  {
    hide Kept, Count, Alive, Wipes;
    hide O.Access, O.PutCheck, O.ExistKey, O.PutEnd, O.PutRevoke, O.Remove;
    match op
    case PutBlocked(j) => AccessKeeps(c.objects, k, j, Alive(c), r);
    case ExistKey(j) => ExistKeyKeeps(c.objects, k, j, Alive(c), c.now, cfg.leaseTtl, cfg.softTtl, r);
    case GetReplicaList(j) =>
      AccessKeeps(c.objects, k, j, Alive(c), r);
      ExistKeyKeeps(c.objects, k, j, Alive(c), c.now, cfg.leaseTtl, cfg.softTtl, r);
    case PutEnd(j, ty) => PutEndKeeps(c.objects, k, j, ty, Alive(c), c.now, cfg.softTtl, r);
    case PutRevoke(j, ty) => PutRevokeKeeps(c.objects, k, j, ty, Alive(c), r);
    case Remove(j) => RemoveKept(c.objects, k, j, Alive(c), c.now, r);
  }

  lemma InShard(cfg: Config, m: Objects, i: nat, k: Key)
    ensures k in ShardKeys(cfg, m, i) ==> cfg.shardOf(k) == i
  {}

  lemma RemoveExpiredKeeps(m: Objects, k: Key, shard: set<Key>, time: int, r: Replica)
    requires k in m && (time < m[k].lease || k !in shard)
    ensures Kept(m, O.RemoveExpired(m, shard, time), k, r)
  {}

  lemma SelfKept(m: Objects, k: Key, r: Replica)
    requires k in m
    ensures Kept(m, m, k, r)
  {}

  lemma StepKept(cfg: Config, c: State, op: Op, k: Key, r: Replica)
    requires Enabled(cfg, c, op) && k in c.objects && c.objects[k].size > 0
    requires Count(c.objects[k], r) > 0 && !r.Stale(Alive(c)) && Guarded(cfg, c, op, k, r)
    requires r.status == COMPLETE ==> EvictorOk(c)
    ensures Kept(c.objects, Apply(cfg, c, op).objects, k, r)
  {
    hide Count, Alive, Unlocked, Guarded, ObjectStep, ObjectsEnabled, O.PutCheck, O.SweepStale, Allocated;
    hide MonitorStep, MonitorEnabled, MountsStep, MountsEnabled;
    if op.OnObjects() {
      ObjectsKept(cfg, c, op, k, r);
    } else {
      match op {
        case PutLock(j) => AccessKeeps(c.objects, k, j, Alive(c), r);
        case SweepShard(t) => SweepKept(c.objects, ShardKeys(cfg, c.objects, c.jobs[t].next), k, Alive(c), r);
        case PutEmplace(j) => assert Apply(cfg, c, op).objects[k] == c.objects[k];
        case PutAllocate(_, _, _) => SelfKept(c.objects, k, r);
        case PutAbort(_) => SelfKept(c.objects, k, r);
        case _ =>
          StoreStays(cfg, c, op);
          SelfKept(c.objects, k, r);
      }
    }
  }

  // ---- leases over runs ----

  lemma {:induction false} TimePasses(cfg: Config, c: State, ops: seq<Op>)
    requires Legal(cfg, c, ops)
    ensures Run(cfg, c, ops).now >= c.now
    decreases |ops|
  {
    hide Enabled, Apply;
    if ops != [] {
      TimePasses(cfg, c, ops[..|ops| - 1]);
      TimeStep(cfg, Run(cfg, c, ops[..|ops| - 1]), ops[|ops| - 1]);
    }
  }

  lemma TimeStep(cfg: Config, c: State, op: Op)
    requires Enabled(cfg, c, op)
    ensures Apply(cfg, c, op).now >= c.now
  {
    hide MonitorStep, MonitorEnabled, MountsStep, MountsEnabled, UnmountsStep, UnmountsEnabled;
    hide ObjectStep, ObjectsEnabled, Alive, Unlocked, Allocated;
    if op.OnMonitor() { MonitorStays(cfg, c, op); }
    else if op.OnMounts() { MountsStay(cfg, c, op); }
    else if op.OnUnmounts() { UnmountsStay(cfg, c, op); }
  }

  // No segment of replica r went away during the run.
  ghost predicate AliveThroughout(cfg: Config, c: State, ops: seq<Op>, r: Replica)
    requires Legal(cfg, c, ops)
    decreases |ops|
  {
    !r.Stale(Alive(Run(cfg, c, ops))) && (ops == [] || AliveThroughout(cfg, c, ops[..|ops| - 1], r))
  }

  // A complete replica of an object with bytes stays until the lease is over, unless a segment goes.
  lemma {:induction false} LeaseHolds(cfg: Config, c: State, ops: seq<Op>, k: Key, r: Replica)
    requires Legal(cfg, c, ops) && k in c.objects && c.objects[k].size > 0
    requires r in c.objects[k].replicas && r.status == COMPLETE
    requires Run(cfg, c, ops).now < c.objects[k].lease && AliveThroughout(cfg, c, ops, r) && EvictorOk(c)
    ensures Kept(c.objects, Run(cfg, c, ops).objects, k, r)
    decreases |ops|
  {
    hide Enabled, Apply, Alive, Count, EvictorOk;
    CountMember(c.objects[k], r);
    if ops != [] {
      var before := ops[..|ops| - 1];
      var d := Run(cfg, c, before);
      EvictorRun(cfg, c, before);
      TimeStep(cfg, d, ops[|ops| - 1]);
      LeaseHolds(cfg, c, before, k, r);
      StepKept(cfg, d, ops[|ops| - 1], k, r);
    }
  }

  // No step of the run wipes, ends or revokes what is being written under k.
  ghost predicate LeftAlone(cfg: Config, c: State, ops: seq<Op>, k: Key)
    requires Legal(cfg, c, ops)
    decreases |ops|
  {
    ops == [] ||
    (var before, op := ops[..|ops| - 1], ops[|ops| - 1];
     && LeftAlone(cfg, c, before, k) && op != PutRevoke(k, MEMORY) && op != PutEnd(k, MEMORY)
     && (k in Run(cfg, c, before).objects ==> !Wipes(cfg, Run(cfg, c, before), op, k)))
  }

  // A memory replica that is being written stays until its writer ends or revokes it, a segment goes,
  // or RemoveAll reaches its shard with a time past its lease: eviction and the other removals never take it.
  lemma {:induction false} WriteHolds(cfg: Config, c: State, ops: seq<Op>, k: Key, r: Replica)
    requires Legal(cfg, c, ops) && k in c.objects && c.objects[k].size > 0
    requires r in c.objects[k].replicas && r.status == PROCESSING && r.Memory?
    requires AliveThroughout(cfg, c, ops, r) && LeftAlone(cfg, c, ops, k)
    ensures Kept(c.objects, Run(cfg, c, ops).objects, k, r)
    decreases |ops|
  {
    hide Enabled, Apply, Alive, Count, Wipes;
    CountMember(c.objects[k], r);
    if ops != [] {
      var before := ops[..|ops| - 1];
      WriteHolds(cfg, c, before, k, r);
      StepKept(cfg, Run(cfg, c, before), ops[|ops| - 1], k, r);
    }
  }

  // ExistKey, and GetReplicaList without garbage collection, on a readable object.
  ghost predicate Grants(cfg: Config, c: State, op: Op, k: Key) {
    && (op == ExistKey(k) || (op == GetReplicaList(k) && !cfg.gc))
    && Enabled(cfg, c, op)
    && k in O.Access(c.objects, k, Alive(c)) && O.Readable(O.Access(c.objects, k, Alive(c))[k])
  }

  lemma GrantSets(cfg: Config, c: State, op: Op, k: Key)
    requires Grants(cfg, c, op, k)
    ensures Enabled(cfg, c, op)
    ensures var d := Apply(cfg, c, op);
            k in d.objects && d.objects[k].lease >= c.now + cfg.leaseTtl
  {}

  // ---- statuses over runs ----

  // Replicas of one type share one status, which is PROCESSING or COMPLETE.
  ghost predicate Uniform(o: Object) {
    && (forall r | r in o.replicas :: r.status == PROCESSING || r.status == COMPLETE)
    && (forall r, s | r in o.replicas && s in o.replicas && r.Type() == s.Type() :: r.status == s.status)
  }

  // o' has only replicas of o, some of them completed since.
  ghost predicate Forward(o: Object, o': Object) {
    forall s | s in o'.replicas :: s in o.replicas || exists r :: r in o.replicas && Finished(r, s)
  }

  ghost predicate Finished(r: Replica, s: Replica) {
    r.status == PROCESSING && s == r.MarkComplete()
  }

  ghost predicate AllUniform(m: Objects) {
    forall k | k in m :: Uniform(m[k])
  }

  // The entry of a key moves forward as long as there is one, and keeps its size.
  ghost predicate AllForward(m: Objects, m': Objects) {
    forall k | k in m' ::
      && k in m && Forward(m[k], m'[k]) && (Uniform(m[k]) ==> Uniform(m'[k]))
      && m'[k].size == m[k].size && Later(m[k], m'[k])
  }

  // Lease and soft pin end no earlier; a soft pin is not gained or lost.
  ghost predicate Later(o: Object, o': Object) {
    && o'.lease >= o.lease && o'.softPin.Some? == o.softPin.Some?
    && (o.softPin.Some? ==> o'.softPin.value >= o.softPin.value)
  }

  lemma ForwardSizes(o: Object, o': Object)
    requires SizesOk(o) && Forward(o, o') && o'.size == o.size
    ensures SizesOk(o')
  {
    hide BufferBytes;
    forall s | s in o'.replicas && s.Memory? ensures BufferBytes(s.buffers) == o'.size {
      if s !in o.replicas { var r :| r in o.replicas && Finished(r, s); }
    }
  }

  lemma AllForwardSizes(m: Objects, m': Objects)
    requires AllForward(m, m') && AllSizes(m)
    ensures AllSizes(m')
  {
    hide Forward, Uniform, SizesOk;
    forall k | k in m' ensures SizesOk(m'[k]) { ForwardSizes(m[k], m'[k]); }
  }

  lemma LiveMembers(rs: seq<Replica>, alive: set<nat>, r: Replica)
    requires r in O.Live(rs, alive)
    ensures r in rs
  {
    O.LiveExact(rs, alive);
    assert r in multiset(O.Live(rs, alive));
  }

  lemma CleanupForward(o: Object, alive: set<nat>)
    ensures Forward(o, O.Cleanup(o, alive)) && (Uniform(o) ==> Uniform(O.Cleanup(o, alive)))
  {
    forall r | r in O.Live(o.replicas, alive) ensures r in o.replicas { LiveMembers(o.replicas, alive, r); }
  }

  lemma CompletedMember(rs: seq<Replica>, ty: ReplicaType, s: Replica) returns (r: Replica)
    requires s in O.Completed(rs, ty)
    ensures r in rs && r.Type() == s.Type() && s == Marked(r, ty)
  {
    var i :| 0 <= i < |O.Completed(rs, ty)| && O.Completed(rs, ty)[i] == s;
    r := rs[i];
  }

  lemma PutEndForward(o: Object, ty: ReplicaType, now: int, soft: nat)
    ensures var o' := o.(replicas := O.Completed(o.replicas, ty)).GrantLease(now, 0, soft);
            Forward(o, o') && (Uniform(o) ==> Uniform(o'))
  {
    hide O.Completed;
    var o' := o.(replicas := O.Completed(o.replicas, ty)).GrantLease(now, 0, soft);
    forall s | s in o'.replicas ensures s in o.replicas || exists r :: r in o.replicas && Finished(r, s) {
      var r := CompletedMember(o.replicas, ty, s);
      if s != r { assert Finished(r, s); }
    }
    if Uniform(o) { PutEndUniform(o, ty, o'); }
  }

  lemma PutEndUniform(o: Object, ty: ReplicaType, o': Object)
    requires Uniform(o) && o'.replicas == O.Completed(o.replicas, ty)
    ensures Uniform(o')
  {
    hide O.Completed;
    forall s | s in o'.replicas ensures s.status == PROCESSING || s.status == COMPLETE {
      var r := CompletedMember(o.replicas, ty, s);
    }
    forall s, s' | s in o'.replicas && s' in o'.replicas && s.Type() == s'.Type() ensures s.status == s'.status {
      var r := CompletedMember(o.replicas, ty, s);
      var r' := CompletedMember(o.replicas, ty, s');
      assert r.status == r'.status;
    }
  }

  lemma AccessForward(m: Objects, k: Key, alive: set<nat>)
    ensures AllForward(m, O.Access(m, k, alive)) && AllForward(m, O.PutCheck(m, k, alive))
  {
    hide O.Cleanup;
    if k in m {
      CleanupForward(m[k], alive);
      CleanupSame(m[k], alive);
    }
  }

  // Replacing or dropping one entry after opening it.
  lemma OneForward(m: Objects, k: Key, alive: set<nat>, o: Object)
    requires var a := O.Access(m, k, alive);
      k in a && Forward(a[k], o) && (Uniform(a[k]) ==> Uniform(o)) && o.size == a[k].size && Later(a[k], o)
    requires var a := O.Access(m, k, alive);
      (forall r | r in o.replicas :: r in a[k].replicas) || (forall r | r in a[k].replicas :: r in m[k].replicas)
    ensures AllForward(m, O.Access(m, k, alive)[k := o]) && AllForward(m, O.Access(m, k, alive) - {k})
  {
    hide O.Access, Uniform, Finished;
    AccessForward(m, k, alive);
    var a := O.Access(m, k, alive);
    forall s | s in o.replicas ensures s in m[k].replicas || exists r :: r in m[k].replicas && Finished(r, s) {
      if s !in a[k].replicas {
        var r :| r in a[k].replicas && Finished(r, s);
        assert r in m[k].replicas && Finished(r, s);
      }
    }
  }

  lemma AccessSubset(m: Objects, k: Key, alive: set<nat>)
    requires k in O.Access(m, k, alive)
    ensures k in m && forall r | r in O.Access(m, k, alive)[k].replicas :: r in m[k].replicas
  {
    forall r | r in O.Live(m[k].replicas, alive) ensures r in m[k].replicas { LiveMembers(m[k].replicas, alive, r); }
  }

  lemma ReadForward(m: Objects, k: Key, alive: set<nat>, now: int, ttl: nat, soft: nat)
    ensures AllForward(m, O.ExistKey(m, k, alive, now, ttl, soft))
  {
    hide O.Access, AllForward, Uniform;
    AccessForward(m, k, alive);
    var a := O.Access(m, k, alive);
    if k in a {
      AccessSubset(m, k, alive);
      SameForward(a[k], a[k].GrantLease(now, ttl, soft));
      OneForward(m, k, alive, a[k].GrantLease(now, ttl, soft));
    }
  }

  lemma SameForward(o: Object, o': Object)
    requires forall r | r in o'.replicas :: r in o.replicas
    ensures Forward(o, o') && (Uniform(o) ==> Uniform(o'))
  {}

  lemma EndForward(m: Objects, k: Key, ty: ReplicaType, alive: set<nat>, now: int, soft: nat)
    ensures AllForward(m, O.PutEnd(m, k, ty, alive, now, soft))
  {
    hide O.Access, O.Completed, AllForward, Uniform, Forward;
    AccessForward(m, k, alive);
    var a := O.Access(m, k, alive);
    if k in a {
      AccessSubset(m, k, alive);
      PutEndForward(a[k], ty, now, soft);
      OneForward(m, k, alive, a[k].(replicas := O.Completed(a[k].replicas, ty)).GrantLease(now, 0, soft));
    }
  }

  lemma DropForward(m: Objects, k: Key, ty: ReplicaType, alive: set<nat>, now: int)
    ensures AllForward(m, O.PutRevoke(m, k, ty, alive)) && AllForward(m, O.Remove(m, k, alive, now))
  {
    hide O.Access, Without, AllForward, Uniform, Forward;
    AccessForward(m, k, alive);
    var a := O.Access(m, k, alive);
    if k in a {
      AccessSubset(m, k, alive);
      SameForward(a[k], a[k].EraseReplica(ty));
      OneForward(m, k, alive, a[k].EraseReplica(ty));
    }
  }

  lemma KeyForward(cfg: Config, c: State, op: Op)
    requires op.PutBlocked? || op.ExistKey? || op.GetReplicaList? || op.PutEnd? || op.PutRevoke? || op.Remove?
    ensures AllForward(c.objects, ObjectStep(cfg, c, op))
  {
    hide Alive, AllForward, O.Access, O.PutCheck, O.ExistKey, O.PutEnd, O.PutRevoke, O.Remove;
    var m, k, alive := c.objects, op.key, Alive(c);
    match op
    case PutBlocked(_) => AccessForward(m, k, alive);
    case ExistKey(_) => ReadForward(m, k, alive, c.now, cfg.leaseTtl, cfg.softTtl);
    case GetReplicaList(_) =>
      AccessForward(m, k, alive);
      ReadForward(m, k, alive, c.now, cfg.leaseTtl, cfg.softTtl);
    case PutEnd(_, ty) => EndForward(m, k, ty, alive, c.now, cfg.softTtl);
    case PutRevoke(_, ty) => DropForward(m, k, ty, alive, c.now);
    case Remove(_) => DropForward(m, k, MEMORY, alive, c.now);
  }

  lemma ObjectsForward(cfg: Config, c: State, op: Op)
    requires op.OnObjects()
    ensures AllForward(c.objects, ObjectStep(cfg, c, op))
  {
    hide Alive, ShardKeys, Without, O.Removable;
    match op
    case RemoveMatched(_, _) =>
    case RemoveExpired(_, _) =>
    case Evict(_, _) =>
    case _ => KeyForward(cfg, c, op);
  }

  // Statuses are uniform, sizes right, and no object is without bytes.
  ghost predicate StoreOk(c: State) {
    && AllUniform(c.objects) && AllUniform(c.puts) && AllSizes(c.objects) && AllSizes(c.puts)
    && (forall k | k in c.objects :: c.objects[k].size > 0)
    && (forall k | k in c.puts :: c.puts[k] == NothingYet || c.puts[k].size > 0)
  }

  // The entry of k in c' comes from the one in c, or from the put that was under way.
  ghost predicate Comes(c: State, c': State, k: Key)
    requires k in c'.objects
  {
    if k in c.objects
    then
      && Forward(c.objects[k], c'.objects[k]) && c'.objects[k].size == c.objects[k].size
      && Later(c.objects[k], c'.objects[k])
    else k in c.puts && c.puts[k] != NothingYet && c'.objects[k] == c.puts[k]
  }

  // One step: an entry that is there before and after only moves forward; entries that appear
  // are puts; statuses stay uniform, sizes right and positive.
  lemma StepForward(cfg: Config, c: State, op: Op)
    requires Enabled(cfg, c, op) && StoreOk(c)
    ensures var c' := Apply(cfg, c, op); StoreOk(c') && forall k | k in c'.objects :: Comes(c, c', k)
  {
    hide Alive, ObjectStep, ObjectsEnabled, PutStep, PutsEnabled, MonitorStep, MonitorEnabled;
    hide MountsStep, MountsEnabled;
    hide StoreOk, Comes, AllForward, O.SweepStale;
    var c' := Apply(cfg, c, op);
    if op.OnObjects() {
      ObjectsForward(cfg, c, op);
      MovedOn(c, c');
    } else if op.OnPuts() {
      PutsForward(cfg, c, op);
    } else if op.SweepShard? {
      SweepForward(c.objects, ShardKeys(cfg, c.objects, c.jobs[op.job].next), Alive(c));
      MovedOn(c, c');
    } else {
      StoreStays(cfg, c, op);
      StaysForward(c.objects);
      MovedOn(c, c');
    }
  }

  lemma StaysForward(m: Objects)
    ensures AllForward(m, m)
  {}

  // The puts are the same, and every entry comes from an entry.
  lemma MovedOn(c: State, c': State)
    requires StoreOk(c) && AllForward(c.objects, c'.objects) && c'.puts == c.puts
    ensures StoreOk(c') && forall k | k in c'.objects :: Comes(c, c', k)
  {
    hide Uniform, SizesOk, Forward;
    AllForwardSizes(c.objects, c'.objects);
  }

  lemma PutsForward(cfg: Config, c: State, op: Op)
    requires op.OnPuts() && PutsEnabled(cfg, c, op) && StoreOk(c)
    ensures var c' := PutStep(cfg, c, op); StoreOk(c') && forall k | k in c'.objects :: Comes(c, c', k)
  {
    hide Alive, Unlocked, O.PutCheck, O.PutBlocked, Uniform, Allocated, SizesOk, Forward, L.GrantAll;
    StaysForward(c.objects);
    match op
    case PutLock(k) =>
      AccessForward(c.objects, k, Alive(c));
      AllForwardSizes(c.objects, O.PutCheck(c.objects, k, Alive(c)));
      NothingUniform();
    case PutAllocate(k, o, cuts) => WritesUniform(c, o, cuts);
    case PutAbort(k) =>
    case PutEmplace(k) =>
  }

  lemma NothingUniform()
    ensures Uniform(NothingYet) && SizesOk(NothingYet)
  {}

  lemma WritesUniform(c: State, o: Object, cuts: seq<L.Cut>)
    requires Allocated(c, o, cuts)
    ensures Uniform(o) && SizesOk(o) && o.size > 0
  {
    hide BufferBytes;
    var i :| 0 <= i < |o.replicas| && o.replicas[i].Memory?;
    var bs := o.replicas[i].buffers;
    assert o.replicas[i] in o.replicas;
    FlatHas(o.replicas, i, bs[|bs| - 1]);
    L.GrantedPositive(c.heaps, Flat(o.replicas), cuts, bs[|bs| - 1]);
    LastBytes(bs);
  }

  lemma LastBytes(bs: seq<Buffer>)
    requires bs != []
    ensures BufferBytes(bs) >= bs[|bs| - 1].size
  {}

  lemma SweepForward(m: Objects, shard: set<Key>, alive: set<nat>)
    ensures AllForward(m, O.SweepStale(m, shard, alive))
  {
    hide O.Cleanup;
    forall k | k in m
      ensures Forward(m[k], O.Cleanup(m[k], alive)) && (Uniform(m[k]) ==> Uniform(O.Cleanup(m[k], alive)))
      ensures O.Cleanup(m[k], alive).size == m[k].size && Later(m[k], O.Cleanup(m[k], alive))
    {
      CleanupForward(m[k], alive);
      CleanupSame(m[k], alive);
    }
  }

  // In every reachable state replicas of one key and type share one status, the buffers of every
  // memory replica add up to the size of its object, and that is positive.
  lemma {:induction false} StatusesUniform(cfg: Config, ops: seq<Op>)
    requires Legal(cfg, Initial, ops)
    ensures StoreOk(Run(cfg, Initial, ops))
    decreases |ops|
  {
    hide Enabled, Apply, Uniform, SizesOk;
    if ops != [] {
      StatusesUniform(cfg, ops[..|ops| - 1]);
      StepForward(cfg, Run(cfg, Initial, ops[..|ops| - 1]), ops[|ops| - 1]);
    }
  }

  // The key has an entry in every state of the run.
  ghost predicate Lasts(cfg: Config, c: State, ops: seq<Op>, k: Key)
    requires Legal(cfg, c, ops)
    decreases |ops|
  {
    k in Run(cfg, c, ops).objects && (ops == [] || Lasts(cfg, c, ops[..|ops| - 1], k))
  }

  lemma ForwardTrans(a: Object, b: Object, c: Object)
    requires Forward(a, b) && Forward(b, c)
    ensures Forward(a, c)
  {
    forall s | s in c.replicas ensures s in a.replicas || exists r :: r in a.replicas && Finished(r, s) {
      if s !in b.replicas { var r :| r in b.replicas && Finished(r, s); assert r in a.replicas; }
    }
  }

  // Over every run in which the entry lasts, replicas only go or become complete, and neither the lease
  // nor the soft pin ends earlier.
  lemma {:induction false} RunForward(cfg: Config, c: State, ops: seq<Op>, k: Key)
    requires Legal(cfg, c, ops) && StoreOk(c) && Lasts(cfg, c, ops, k)
    ensures StoreOk(Run(cfg, c, ops)) && k in c.objects
    ensures var o, o' := c.objects[k], Run(cfg, c, ops).objects[k]; Forward(o, o') && o'.size == o.size && Later(o, o')
    decreases |ops|
  {
    hide Enabled, Apply, StoreOk, Forward;
    if ops == [] {
      SameForward(c.objects[k], c.objects[k]);
    } else {
      var before := ops[..|ops| - 1];
      RunForward(cfg, c, before, k);
      StepForward(cfg, Run(cfg, c, before), ops[|ops| - 1]);
      ForwardTrans(c.objects[k], Run(cfg, c, before).objects[k], Run(cfg, c, ops).objects[k]);
    }
  }

  // In every reachable state, a read at time t protects every complete replica of the key before t + ttl.
  lemma LeaseProtects(cfg: Config, before: seq<Op>, op: Op, ops: seq<Op>, k: Key, r: Replica)
    requires Legal(cfg, Initial, before) && Grants(cfg, Run(cfg, Initial, before), op, k)
    requires var c := Run(cfg, Initial, before); var d := Apply(cfg, c, op);
             && Legal(cfg, d, ops) && k in d.objects && r in d.objects[k].replicas && r.status == COMPLETE
             && Run(cfg, d, ops).now < c.now + cfg.leaseTtl && AliveThroughout(cfg, d, ops, r)
    ensures var d := Apply(cfg, Run(cfg, Initial, before), op);
            k in Run(cfg, d, ops).objects && Count(Run(cfg, d, ops).objects[k], r) >= Count(d.objects[k], r)
  {
    hide Apply, Enabled, Run, Legal, AliveThroughout, Grants, EvictorOk, Uniform, SizesOk;
    var c := Run(cfg, Initial, before);
    GrantSets(cfg, c, op, k);
    StatusesUniform(cfg, before);
    StepForward(cfg, c, op);
    InitialEvictor();
    EvictorRun(cfg, Initial, before);
    EvictorStep(cfg, c, op);
    LeaseHolds(cfg, Apply(cfg, c, op), ops, k, r);
  }

  // A read, or the end of a put.
  ghost predicate Pins(cfg: Config, c: State, op: Op, k: Key) {
    || Grants(cfg, c, op, k)
    || (op.PutEnd? && op.key == k && Enabled(cfg, c, op) && k in O.Access(c.objects, k, Alive(c)))
  }

  lemma PinSets(cfg: Config, c: State, op: Op, k: Key)
    requires Pins(cfg, c, op, k)
    ensures Enabled(cfg, c, op)
    ensures var d := Apply(cfg, c, op);
      k in d.objects && (d.objects[k].softPin.Some? ==> d.objects[k].softPin.value >= c.now + cfg.softTtl)
  {
    hide O.Access, O.Readable, O.Completed, MonitorStep, MonitorEnabled, MountsStep, MountsEnabled, UnmountsStep;
    hide UnmountsEnabled, PutStep, PutsEnabled, CanDeallocate, Listable, Alive, Unlocked;
  }

  // In every reachable state, a read or the end of a put at time t keeps an object that has a soft pin
  // pinned before t + softTtl, as long as it is there; only pass B of an eviction can take it.
  lemma PinHolds(cfg: Config, before: seq<Op>, op: Op, ops: seq<Op>, k: Key, rule: B.Rule, time: int)
    requires Legal(cfg, Initial, before) && Pins(cfg, Run(cfg, Initial, before), op, k)
    requires var d := Apply(cfg, Run(cfg, Initial, before), op);
      && Legal(cfg, d, ops) && Lasts(cfg, d, ops, k) && k in d.objects && d.objects[k].softPin.Some?
    requires time < Run(cfg, Initial, before).now + cfg.softTtl
    ensures var o := Run(cfg, Apply(cfg, Run(cfg, Initial, before), op), ops).objects[k];
      B.SoftPinned(o, time) && (B.Evicts(rule, o, time) ==> rule.SecondB?)
  {
    hide Run, Legal, Apply, Enabled, Pins, Lasts, StoreOk, Forward, O.Access;
    var c := Run(cfg, Initial, before);
    StatusesUniform(cfg, before);
    PinSets(cfg, c, op, k);
    StepForward(cfg, c, op);
    LastsAtEnd(cfg, Apply(cfg, c, op), ops, k);
    RunForward(cfg, Apply(cfg, c, op), ops, k);
  }

  lemma LastsAtEnd(cfg: Config, c: State, ops: seq<Op>, k: Key)
    requires Legal(cfg, c, ops) && Lasts(cfg, c, ops, k)
    ensures k in Run(cfg, c, ops).objects
  {}

  lemma InitialEvictor()
    ensures EvictorOk(Initial)
  {}

  // In every reachable state objects have bytes, so a revoke that is accepted spares what is complete.
  lemma RevokeSpares(cfg: Config, ops: seq<Op>, k: Key, ty: ReplicaType, r: Replica)
    requires Legal(cfg, Initial, ops)
    requires var c := Run(cfg, Initial, ops);
      && k in c.objects && r in c.objects[k].replicas && r.status == COMPLETE && !r.Stale(Alive(c))
      && O.PutRevokeStatus(c.objects, k, ty, Alive(c)) == O.OK
    ensures k in O.PutRevoke(Run(cfg, Initial, ops).objects, k, ty, Alive(Run(cfg, Initial, ops)))
  {
    hide Run, Legal, Alive, Uniform, SizesOk, O.PutRevoke, O.PutRevokeStatus;
    StatusesUniform(cfg, ops);
    var c := Run(cfg, Initial, ops);
    PutRevokeExact(c.objects, k, ty, Alive(c), r);
  }

  // In every reachable state an evicted object is still there iff it has a replica on disk, and then it
  // has exactly those replicas and is the same otherwise; no other object changes.
  lemma EvictLeavesDisk(cfg: Config, ops: seq<Op>, k: Key, rule: B.Rule)
    requires Legal(cfg, Initial, ops) && Enabled(cfg, Run(cfg, Initial, ops), Evict(k, rule))
    requires var c := Run(cfg, Initial, ops); k in c.objects && B.Evicts(rule, c.objects[k], c.evictor.time)
    ensures var c := Run(cfg, Initial, ops); var e := Apply(cfg, c, Evict(k, rule)).objects;
      && M.OthersSame(c.objects, e, k)
      && (k in e <==> exists x :: x in c.objects[k].replicas && x.Disk?)
      && (k in e ==> M.Keeps(c.objects[k], e[k], M.NotOf(MEMORY)))
  {
    hide Run, Legal, PutStep, MonitorStep, MountsStep, UnmountsStep, SizesOk, Uniform, M.Keeps, M.OthersSame, O.Evict;
    StatusesUniform(cfg, ops);
    var c := Run(cfg, Initial, ops);
    M.EvictMeans(c.objects, k, rule, c.evictor.time);
  }

  // In every reachable state an eviction lowers the bytes held by exactly the size it counts as freed.
  lemma EvictionFrees(cfg: Config, ops: seq<Op>, k: Key, rule: B.Rule)
    requires Legal(cfg, Initial, ops) && Enabled(cfg, Run(cfg, Initial, ops), Evict(k, rule))
    requires var c := Run(cfg, Initial, ops); k in c.objects && B.Evicts(rule, c.objects[k], c.evictor.time)
    ensures var c := Run(cfg, Initial, ops);
      AllBytes(Apply(cfg, c, Evict(k, rule)).objects) + B.FreedBy(c.objects[k]) == AllBytes(c.objects)
  {
    hide Run, Legal, AllBytes, ReplicasBytes, PutStep, MonitorStep, MountsStep, UnmountsStep, SizesOk, Uniform;
    StatusesUniform(cfg, ops);
    var c := Run(cfg, Initial, ops);
    var o := c.objects[k];
    B.FreedIsHeld(o);
    WithoutMemoryBytes(o.replicas);
    AllBytesPut(c.objects, k, o.EraseReplica(MEMORY));
    AllBytesWithout(c.objects, k);
  }
}
