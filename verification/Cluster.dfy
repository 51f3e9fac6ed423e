/**
 The master as a state machine whose steps are split at lock boundaries. Clients
 mount and unmount segments, put, read and remove objects; the eviction thread and
 the client monitor run beside them. A step stands for one critical section.

 A PutStart keeps its shard locked from its check to its emplace: `puts` has an
 entry for every shard locked that way. Mounting and expiring hold the segment
 lock over several steps: `lock` says who does. `heaps` are the allocators with
 their tiles and grants; a buffer that no object holds any more gives its grant
 back in a step of its own. `pins` are the allocators that a buffer destructor of
 another thread keeps alive for a moment. `evictor` is what the eviction thread
 knows: when it started, and the leases it listed. `origin`, `missed` and `leaked`
 only record history.
 */
module Cluster {
  import opened Metadata
  import opened Options
  import opened ByteSums
  import O = ObjectOps
  import S = Segments
  import B = BatchEvict
  import G = Grants
  import L = LiveGrants

  datatype Config = Config(
    shards: nat, shardOf: Key -> nat, ha: bool, gc: bool, leaseTtl: nat, softTtl: nat, liveTtl: nat)

  ghost predicate ConfigOk(cfg: Config) {
    forall k :: cfg.shardOf(k) < cfg.shards
  }

  datatype Origin = Origin(owner: nat, allocator: nat)

  datatype Item = Item(id: nat, client: nat, capacity: nat)

  // An unmount under way: prepared segments still to commit, and the shards swept so far.
  datatype Job = Job(items: seq<Item>, next: nat, missed: set<nat>, open: bool)

  datatype Holder =
    | Nobody
    | Mounting(client: nat, segment: S.Segment)
    | Remounting(client: nat, segments: seq<S.Segment>)
    | Expiring(job: nat, todo: seq<Owned>)

  datatype Owned = Owned(client: nat, id: nat)

  // When the eviction thread started, and the leases it listed for its second pass.
  datatype Evictor = Evictor(time: int, listed: seq<int>)

  datatype State = State(
    seg: S.Indexes,
    heaps: L.Heaps,
    origin: map<nat, Origin>,
    made: nat,
    objects: Objects,
    puts: Objects,
    jobs: map<nat, Job>,
    pins: set<nat>,
    leaked: set<nat>,
    lock: Holder,
    ping: multiset<nat>,
    okClients: set<nat>,
    ttl: map<nat, int>,
    expired: set<nat>,
    evictor: Evictor,
    now: int)

  datatype Op =
    | Tick(time: int)
    | Pin(allocator: nat)
    | Unpin(allocator: nat)
    | Deallocate(allocator: nat, tile: nat)
    // the eviction thread, besides Evict
    | EvictBegin(time: int)
    | EvictList(shard: nat, leases: seq<int>)
    // clients and segments
    | Ping(client: nat)
    | MountBegin(client: nat, segment: S.Segment)
    | MountEnd
    | RemountBegin(client: nat, segments: seq<S.Segment>)
    | RemountOne
    | RemountEnd
    | UnmountBegin(job: nat, id: nat, client: nat)
    | SweepShard(job: nat)
    | CommitOne(job: nat)
    | JobEnd(job: nat)
    // the client monitor
    | PopPing(client: nat, time: int)
    | FindExpired(time: int)
    | ExpireBegin(job: nat, todo: seq<Owned>)
    | ExpireOne
    | ExpireEnd
    // puts
    | PutLock(key: Key)
    | PutAllocate(key: Key, obj: Object, cuts: seq<L.Cut>)
    | PutAbort(key: Key)
    | PutEmplace(key: Key)
    // objects
    | PutBlocked(key: Key)
    | ExistKey(key: Key)
    | GetReplicaList(key: Key)
    | PutEnd(key: Key, ty: ReplicaType)
    | PutRevoke(key: Key, ty: ReplicaType)
    | Remove(key: Key)
    | RemoveMatched(shard: nat, matched: set<Key>)
    | RemoveExpired(shard: nat, time: int)
    | Evict(key: Key, rule: B.Rule)
  {
    predicate OnObjects() {
      PutBlocked? || ExistKey? || GetReplicaList? || PutEnd? || PutRevoke? || Remove? ||
      RemoveMatched? || RemoveExpired? || Evict?
    }

    predicate OnPuts() { PutLock? || PutAllocate? || PutAbort? || PutEmplace? }

    predicate OnMonitor() { PopPing? || FindExpired? || ExpireBegin? || ExpireOne? || ExpireEnd? }

    predicate OnMounts() { MountBegin? || MountEnd? || RemountBegin? || RemountOne? || RemountEnd? }

    predicate OnUnmounts() { UnmountBegin? || SweepShard? || CommitOne? || JobEnd? }
  }

  // ---- views of a state ----

  ghost function Alive(c: State): set<nat> {
    (set a | a in c.seg.allocators) + c.pins
  }

  ghost predicate Unlocked(cfg: Config, c: State, shard: nat) {
    forall k | k in c.puts :: cfg.shardOf(k) != shard
  }

  ghost function ShardKeys(cfg: Config, m: Objects, shard: nat): set<Key> {
    set k | k in m && cfg.shardOf(k) == shard
  }

  // Bytes of live buffers of one allocator.
  ghost function Load(c: State, a: nat): nat {
    Bytes(c.objects, In({a})) + Bytes(c.puts, In({a}))
  }

  // What PutStart has when it asked for buffers: replicas being written, one of them in memory, with
  // buffers for slices within the limit, of allocators in service, each granted in turn; no lease yet.
  ghost predicate Allocated(c: State, o: Object, cuts: seq<L.Cut>) {
    && (forall r | r in o.replicas :: r.status == PROCESSING && (r.Memory? ==> r.buffers != []))
    && o.HasMemReplica()
    && SizesOk(o)
    && (forall b | b in Flat(o.replicas) :: b.size <= MAX_SLICE)
    && (forall a | Holds(o, a) :: a in c.seg.allocators)
    && o.lease == 0
    && L.CanGrant(c.heaps, Flat(o.replicas), cuts)
  }

  // The allocator exists, and the buffer that held the grant of its tile k is gone.
  ghost predicate CanDeallocate(c: State, a: nat, k: nat) {
    && a in Alive(c) && a in c.heaps && G.CanRelease(c.heaps[a], k)
    && L.Unheld(c.objects, a, c.heaps[a].tiles[k].node) && L.Unheld(c.puts, a, c.heaps[a].tiles[k].node)
  }

  // The lease of an object of the shard that the counting loop looks at.
  ghost predicate Listable(cfg: Config, c: State, shard: nat, lease: int) {
    exists k :: k in ShardKeys(cfg, c.objects, shard) && c.objects[k].lease == lease &&
      B.Matches(B.Candidate, c.objects[k], c.evictor.time)
  }

  const NothingYet := Object([], 0, 0, None)

  // ---- the steps ----

  ghost predicate ObjectsEnabled(cfg: Config, c: State, op: Op)
    requires op.OnObjects()
  {
    match op
    case PutBlocked(k) => Unlocked(cfg, c, cfg.shardOf(k)) && O.PutBlocked(c.objects, k, Alive(c))
    case RemoveMatched(i, matched) => Unlocked(cfg, c, i) && matched <= ShardKeys(cfg, c.objects, i)
    case RemoveExpired(i, t) => Unlocked(cfg, c, i) && t <= c.now
    case Evict(k, r) => Unlocked(cfg, c, cfg.shardOf(k)) && (r.SecondA? ==> r.timeout in c.evictor.listed)
    case _ => Unlocked(cfg, c, cfg.shardOf(op.key))
  }

  ghost predicate PutsEnabled(cfg: Config, c: State, op: Op)
    requires op.OnPuts()
  {
    match op
    case PutLock(k) => Unlocked(cfg, c, cfg.shardOf(k)) && !O.PutBlocked(c.objects, k, Alive(c))
    case PutAllocate(k, o, cuts) => c.lock.Nobody? && k in c.puts && c.puts[k] == NothingYet && Allocated(c, o, cuts)
    case PutAbort(k) => k in c.puts
    case PutEmplace(k) => k in c.puts && c.puts[k] != NothingYet
  }

  ghost predicate MonitorEnabled(c: State, op: Op)
    requires op.OnMonitor()
  {
    match op
    case PopPing(client, t) => client in c.ping && t <= c.now
    case FindExpired(t) => c.expired == {} && t <= c.now
    case ExpireBegin(t, todo) =>
      && c.lock.Nobody? && t !in c.jobs && c.expired != {}
      && forall o :: o in todo <==> o.client in c.expired && o.id in S.Listed(c.seg.clientSegments, o.client)
    case ExpireOne => c.lock.Expiring? && c.lock.todo != []
    case ExpireEnd => c.lock.Expiring? && c.lock.todo == []
  }

  ghost predicate MountsEnabled(cfg: Config, c: State, op: Op)
    requires op.OnMounts()
  {
    match op
    case MountBegin(_, _) => c.lock.Nobody?
    case MountEnd => c.lock.Mounting?
    case RemountBegin(client, _) => cfg.ha && c.lock.Nobody? && client !in c.okClients
    case RemountOne => c.lock.Remounting? && c.lock.segments != []
    case RemountEnd => c.lock.Remounting? && c.lock.segments == []
  }

  ghost predicate UnmountsEnabled(cfg: Config, c: State, op: Op)
    requires op.OnUnmounts()
  {
    match op
    case UnmountBegin(t, id, _) => c.lock.Nobody? && t !in c.jobs && S.PrepareError(c.seg, id) == S.SUCCESS
    case SweepShard(t) =>
      t in c.jobs && !c.jobs[t].open && c.jobs[t].next < cfg.shards && Unlocked(cfg, c, c.jobs[t].next)
    case CommitOne(t) =>
      c.lock.Nobody? && t in c.jobs && !c.jobs[t].open && c.jobs[t].next == cfg.shards && c.jobs[t].items != []
    case JobEnd(t) => t in c.jobs && !c.jobs[t].open && c.jobs[t].items == []
  }

  ghost predicate Enabled(cfg: Config, c: State, op: Op) {
    if op.OnObjects() then ObjectsEnabled(cfg, c, op)
    else if op.OnPuts() then PutsEnabled(cfg, c, op)
    else if op.OnMonitor() then MonitorEnabled(c, op)
    else if op.OnMounts() then MountsEnabled(cfg, c, op)
    else if op.OnUnmounts() then UnmountsEnabled(cfg, c, op)
    else
      match op
      case Tick(t) => t >= c.now
      case Pin(a) => a in Alive(c)
      case Deallocate(a, k) => CanDeallocate(c, a, k)
      case EvictBegin(t) => t <= c.now
      case EvictList(i, leases) => Unlocked(cfg, c, i) && forall x | x in leases :: Listable(cfg, c, i, x)
      case Ping(_) => cfg.ha
      case _ => true
  }

  ghost function ObjectStep(cfg: Config, c: State, op: Op): Objects
    requires op.OnObjects()
  {
    match op
    case PutBlocked(k) => O.PutCheck(c.objects, k, Alive(c))
    case ExistKey(k) => O.ExistKey(c.objects, k, Alive(c), c.now, cfg.leaseTtl, cfg.softTtl)
    case GetReplicaList(k) => O.GetReplicaList(c.objects, k, Alive(c), cfg.gc, c.now, cfg.leaseTtl, cfg.softTtl)
    case PutEnd(k, ty) => O.PutEnd(c.objects, k, ty, Alive(c), c.now, cfg.softTtl)
    case PutRevoke(k, ty) => O.PutRevoke(c.objects, k, ty, Alive(c))
    case Remove(k) => O.Remove(c.objects, k, Alive(c), c.now)
    case RemoveMatched(_, matched) => O.RemoveMatched(c.objects, matched, c.now)
    case RemoveExpired(i, t) => O.RemoveExpired(c.objects, ShardKeys(cfg, c.objects, i), t)
    case Evict(k, r) => O.Evict(c.objects, k, r, c.evictor.time)
  }

  // Mounts one segment for a client and records who owns it.
  ghost function MountStep(c: State, client: nat, g: S.Segment): State {
    c.(seg := S.Mount(c.seg, g, client, c.made),
       heaps := if S.MountError(c.seg, g) == S.SUCCESS then c.heaps[c.made := G.NewHeap(g.base, g.size)] else c.heaps,
       origin := if S.MountError(c.seg, g) == S.SUCCESS then c.origin[g.id := Origin(client, c.made)] else c.origin,
       made := c.made + 1)
  }

  // Prepares one segment on behalf of job t; nothing happens when that is refused.
  ghost function PrepareStep(c: State, t: nat, id: nat, client: nat): State
    requires t in c.jobs
  {
    if S.PrepareError(c.seg, id) != S.SUCCESS then c
    else
      var item := Item(id, client, c.seg.mounted[id].segment.size);
      c.(seg := S.PrepareUnmount(c.seg, id),
         jobs := c.jobs[t := c.jobs[t].(items := c.jobs[t].items + [item])])
  }

  ghost function CommitStep(c: State, t: nat): State
    requires t in c.jobs && c.jobs[t].items != []
  {
    var k := c.jobs[t];
    var item := k.items[0];
    c.(seg := S.CommitUnmount(c.seg, item.id, item.client, item.capacity),
       origin := c.origin - {item.id},
       jobs := c.jobs[t := k.(items := k.items[1..])],
       leaked := if item.id in c.origin && c.origin[item.id].allocator in k.missed
                 then c.leaked + {c.origin[item.id].allocator} else c.leaked)
  }

  ghost function PutStep(cfg: Config, c: State, op: Op): State
    requires op.OnPuts() && PutsEnabled(cfg, c, op)
  {
    match op
    case PutLock(k) => c.(objects := O.PutCheck(c.objects, k, Alive(c)), puts := c.puts[k := NothingYet])
    case PutAllocate(k, o, cuts) => c.(puts := c.puts[k := o], heaps := L.GrantAll(c.heaps, Flat(o.replicas), cuts))
    case PutAbort(k) => c.(puts := c.puts - {k})
    case PutEmplace(k) => c.(objects := O.Emplace(c.objects, k, c.puts[k]), puts := c.puts - {k})
  }

  ghost function MonitorStep(cfg: Config, c: State, op: Op): State
    requires op.OnMonitor() && MonitorEnabled(c, op)
  {
    match op
    case PopPing(client, t) =>
      c.(ping := c.ping - multiset{client}, ttl := c.ttl[client := t + cfg.liveTtl])
    case FindExpired(t) =>
      c.(expired := (set u | u in c.ttl && c.ttl[u] < t),
         ttl := map u | u in c.ttl && !(c.ttl[u] < t) :: c.ttl[u])
    case ExpireBegin(t, todo) =>
      c.(lock := Expiring(t, todo), okClients := c.okClients - c.expired,
         jobs := c.jobs[t := Job([], 0, {}, true)])
    case ExpireOne =>
      var o := c.lock.todo[0];
      if c.lock.job !in c.jobs then c
      else PrepareStep(c, c.lock.job, o.id, o.client).(lock := Expiring(c.lock.job, c.lock.todo[1..]))
    case ExpireEnd =>
      if c.lock.job !in c.jobs then c
      else c.(lock := Nobody, expired := {}, jobs := c.jobs[c.lock.job := c.jobs[c.lock.job].(open := false)])
  }

  ghost function MountsStep(cfg: Config, c: State, op: Op): State
    requires op.OnMounts() && MountsEnabled(cfg, c, op)
  {
    match op
    case MountBegin(client, g) =>
      c.(lock := Mounting(client, g), ping := if cfg.ha then c.ping + multiset{client} else c.ping)
    case MountEnd => MountStep(c, c.lock.client, c.lock.segment).(lock := Nobody)
    case RemountBegin(client, gs) => c.(lock := Remounting(client, gs), ping := c.ping + multiset{client})
    case RemountOne =>
      var g := c.lock.segments[0];
      if S.MountError(c.seg, g) == S.UNAVAILABLE_IN_CURRENT_STATUS then c.(lock := Nobody)
      else MountStep(c, c.lock.client, g).(lock := Remounting(c.lock.client, c.lock.segments[1..]))
    case RemountEnd => c.(lock := Nobody, okClients := c.okClients + {c.lock.client})
  }

  ghost function UnmountsStep(cfg: Config, c: State, op: Op): State
    requires op.OnUnmounts() && UnmountsEnabled(cfg, c, op)
  {
    match op
    case UnmountBegin(t, id, client) =>
      PrepareStep(c.(jobs := c.jobs[t := Job([], 0, {}, false)]), t, id, client)
    case SweepShard(t) =>
      var k := c.jobs[t];
      c.(objects := O.SweepStale(c.objects, ShardKeys(cfg, c.objects, k.next), Alive(c)),
         jobs := c.jobs[t := k.(next := k.next + 1, missed := k.missed + c.pins)])
    case CommitOne(t) => CommitStep(c, t)
    case JobEnd(t) => c.(jobs := c.jobs - {t})
  }

  ghost function Apply(cfg: Config, c: State, op: Op): State
    requires Enabled(cfg, c, op)
  {
    if op.OnObjects() then c.(objects := ObjectStep(cfg, c, op))
    else if op.OnPuts() then PutStep(cfg, c, op)
    else if op.OnMonitor() then MonitorStep(cfg, c, op)
    else if op.OnMounts() then MountsStep(cfg, c, op)
    else if op.OnUnmounts() then UnmountsStep(cfg, c, op)
    else
      match op
      case Tick(t) => c.(now := t)
      case Pin(a) => c.(pins := c.pins + {a})
      case Unpin(a) => c.(pins := c.pins - {a})
      case Deallocate(a, k) => c.(heaps := c.heaps[a := G.ReleaseHeap(c.heaps[a], k)])
      case EvictBegin(t) => c.(evictor := Evictor(t, []))
      case EvictList(_, leases) => c.(evictor := c.evictor.(listed := c.evictor.listed + leases))
      case Ping(client) => c.(ping := c.ping + multiset{client})
  }

  ghost predicate Legal(cfg: Config, c: State, ops: seq<Op>)
    decreases |ops|, 0
  {
    ops == [] ||
    (Legal(cfg, c, ops[..|ops| - 1]) && Enabled(cfg, Run(cfg, c, ops[..|ops| - 1]), ops[|ops| - 1]))
  }

  ghost function Run(cfg: Config, c: State, ops: seq<Op>): State
    requires Legal(cfg, c, ops)
    decreases |ops|, 1
  {
    if ops == [] then c else Apply(cfg, Run(cfg, c, ops[..|ops| - 1]), ops[|ops| - 1])
  }

  const Initial := State(
    S.Indexes([], map[], map[], map[], 0), map[], map[], 0, map[], map[], map[], {}, {},
    Nobody, multiset{}, {}, map[], {}, Evictor(0, []), 0)

  // ---- the invariant ----

  ghost predicate OriginOk(c: State) {
    && c.origin.Keys == c.seg.mounted.Keys
    && (forall id | id in c.origin :: c.origin[id].allocator < c.made)
    && (forall i, j | i in c.origin && j in c.origin && i != j :: c.origin[i].allocator != c.origin[j].allocator)
    && (forall id | id in c.origin && c.seg.mounted[id].status == S.OK ::
          c.seg.mounted[id].bufAllocator == Some(c.origin[id].allocator))
    && (forall a | a in c.leaked :: a < c.made)
  }

  // Item i of job t is segment id.
  ghost predicate Assigned(c: State, t: nat, i: nat, id: nat) {
    t in c.jobs && i < |c.jobs[t].items| && c.jobs[t].items[i].id == id
  }

  // Unmounting segments and items of jobs match one to one.
  ghost predicate ItemsOk(c: State) {
    && (forall t: nat, i: nat, id: nat | Assigned(c, t, i, id) ::
          && id in c.seg.mounted && c.seg.mounted[id].status == S.UNMOUNTING
          && c.jobs[t].items[i].capacity == c.seg.mounted[id].segment.size)
    && (forall t: nat, i: nat, u: nat, j: nat, id: nat | Assigned(c, t, i, id) && Assigned(c, u, j, id) ::
         t == u && i == j)
    && (forall id | id in c.seg.mounted && c.seg.mounted[id].status == S.UNMOUNTING ::
          exists t: nat, i: nat :: Assigned(c, t, i, id))
  }

  ghost predicate NextOk(cfg: Config, c: State) {
    && (forall t | t in c.jobs :: c.jobs[t].next <= cfg.shards && (c.jobs[t].open ==> c.jobs[t].next == 0))
    && (c.lock.Expiring? ==> c.lock.job in c.jobs && c.jobs[c.lock.job].open)
  }

  // No object in the first n shards holds allocator a.
  ghost predicate ClearBelow(cfg: Config, m: Objects, n: nat, a: nat) {
    forall k | k in m && cfg.shardOf(k) < n :: !Holds(m[k], a)
  }

  // Behind the sweep of a job no buffer of its segments is left, unless a pin hid it.
  ghost predicate SweptOk(cfg: Config, c: State) {
    forall t: nat, i: nat, id: nat | Assigned(c, t, i, id) && id in c.origin &&
      c.origin[id].allocator !in c.jobs[t].missed ::
      && ClearBelow(cfg, c.objects, c.jobs[t].next, c.origin[id].allocator)
      && ClearBelow(cfg, c.puts, c.jobs[t].next, c.origin[id].allocator)
  }

  // Allocator a belongs to a segment that is still counted as mounted.
  ghost predicate InUse(c: State, a: nat) {
    exists id :: id in c.origin && c.origin[id].allocator == a
  }

  ghost predicate AllHeld(c: State, m: Objects) {
    forall k, a | k in m && Holds(m[k], a) :: InUse(c, a) || a in c.leaked
  }

  ghost predicate HeldOk(c: State) {
    AllHeld(c, c.objects) && AllHeld(c, c.puts)
  }

  // The allocator of every mounted segment is there, with the capacity of the segment; every
  // buffer, of whatever allocator, holds a grant of its own.
  ghost predicate HeapsOk(c: State) {
    && L.AllHeapsOk(c.heaps) && (forall a | a in c.heaps :: a < c.made)
    && (forall id | id in c.origin && id in c.seg.mounted ::
          && c.origin[id].allocator in c.heaps
          && c.heaps[c.origin[id].allocator].capacity == c.seg.mounted[id].segment.size)
    && L.Backs(c.heaps, L.Copies(c.objects, c.puts))
  }

  // One PutStart at most has a shard locked.
  ghost predicate PutsOk(cfg: Config, c: State) {
    forall j, k | j in c.puts && k in c.puts && j != k :: cfg.shardOf(j) != cfg.shardOf(k)
  }

  // The monitor knows of the client, or is about to.
  ghost predicate Watched(c: State, client: nat) {
    client in c.ping || client in c.ttl || client in c.expired
  }

  ghost predicate OwnersListed(c: State) {
    forall id | id in c.origin :: id in S.Listed(c.seg.clientSegments, c.origin[id].owner)
  }

  ghost predicate WatchOk(cfg: Config, c: State) {
    && OwnersListed(c)
    && (cfg.ha ==>
          && (forall id | id in c.origin && id in c.seg.mounted && c.seg.mounted[id].status == S.OK ::
                Watched(c, c.origin[id].owner))
          && (forall u | u in c.okClients :: Watched(c, u))
          && (c.lock.Mounting? || c.lock.Remounting? ==> Watched(c, c.lock.client)))
    && (c.lock.Expiring? ==>
          && (forall id | id in c.origin && id in c.seg.mounted && c.seg.mounted[id].status == S.OK
                && c.origin[id].owner in c.expired :: Owned(c.origin[id].owner, id) in c.lock.todo)
          && c.okClients !! c.expired
          && c.expired != {})
  }

  ghost predicate Inv(cfg: Config, c: State) {
    && ConfigOk(cfg)
    && S.Agree(c.seg)
    && OriginOk(c)
    && ItemsOk(c)
    && NextOk(cfg, c)
    && SweptOk(cfg, c)
    && HeldOk(c)
    && HeapsOk(c)
    && PutsOk(cfg, c)
    && WatchOk(cfg, c)
  }
}
