/**
 What holds in every reachable state of the master, whatever the interleaving.
 */
module ClusterTheorems {
  import opened Maps
  import opened ByteSums
  import opened Cluster
  import opened ClusterProofs
  import O = ObjectOps
  import S = Segments
  import G = Grants
  import L = LiveGrants

  // ---- runs keep the invariant ----

  lemma MountsKeep(cfg: Config, c: State, op: Op)
    requires Inv(cfg, c) && op.OnMounts() && MountsEnabled(cfg, c, op)
    ensures Inv(cfg, MountsStep(cfg, c, op))
  {
    hide Inv, MountStep;
    match op
    case MountBegin(client, g) =>
      PingKeeps(cfg, c, client);
      MountBeginKeeps(cfg, if cfg.ha then c.(ping := c.ping + multiset{client}) else c, Mounting(client, g));
    case MountEnd =>
      MountKeeps(cfg, c, c.lock.client, c.lock.segment);
      MountStepLock(c, c.lock.client, c.lock.segment);
      UnlockKeeps(cfg, MountStep(c, c.lock.client, c.lock.segment));
    case RemountBegin(client, gs) =>
      PingKeeps(cfg, c, client);
      MountBeginKeeps(cfg, c.(ping := c.ping + multiset{client}), Remounting(client, gs));
    case RemountOne => RemountOneKeeps(cfg, c);
    case RemountEnd => RemountEndKeeps(cfg, c);
  }

  lemma MonitorKeeps(cfg: Config, c: State, op: Op)
    requires Inv(cfg, c) && op.OnMonitor() && MonitorEnabled(c, op)
    ensures Inv(cfg, MonitorStep(cfg, c, op))
  {
    hide Inv, MonitorStep;
    match op
    case PopPing(client, t) => PopPingKeeps(cfg, c, client, t);
    case FindExpired(t) => FindExpiredKeeps(cfg, c, t);
    case ExpireBegin(t, todo) => ExpireBeginKeeps(cfg, c, t, todo);
    case ExpireOne => ExpireOneKeeps(cfg, c);
    case ExpireEnd => ExpireEndKeeps(cfg, c);
  }

  lemma UnmountsKeep(cfg: Config, c: State, op: Op)
    requires Inv(cfg, c) && op.OnUnmounts() && UnmountsEnabled(cfg, c, op)
    ensures Inv(cfg, UnmountsStep(cfg, c, op))
  {
    hide Inv, UnmountsStep;
    match op
    case UnmountBegin(t, id, client) => UnmountBeginKeeps(cfg, c, t, id, client);
    case SweepShard(t) => SweepKeeps(cfg, c, t);
    case CommitOne(t) => CommitKeeps(cfg, c, t);
    case JobEnd(t) => JobEndKeeps(cfg, c, t);
  }

  lemma PutsKeep(cfg: Config, c: State, op: Op)
    requires Inv(cfg, c) && op.OnPuts() && PutsEnabled(cfg, c, op)
    ensures Inv(cfg, PutStep(cfg, c, op))
  {
    hide Inv;
    match op
    case PutLock(k) => PutLockKeeps(cfg, c, k);
    case PutAllocate(k, o, cuts) => PutAllocateKeeps(cfg, c, k, o, cuts);
    case PutAbort(k) => PutAbortKeeps(cfg, c, k);
    case PutEmplace(k) => PutEmplaceKeeps(cfg, c, k);
  }

  lemma StepKeeps(cfg: Config, c: State, op: Op)
    requires Inv(cfg, c) && Enabled(cfg, c, op)
    ensures Inv(cfg, Apply(cfg, c, op))
  {
    hide Inv, Shrinks, ObjectStep, ObjectsEnabled, PutStep, PutsEnabled, MonitorStep, MonitorEnabled;
    hide MountsStep, MountsEnabled, UnmountsStep, UnmountsEnabled;
    if op.OnObjects() {
      ObjectStepShrinks(cfg, c, op);
      ShrinkKeeps(cfg, c, ObjectStep(cfg, c, op));
    } else if op.OnPuts() {
      PutsKeep(cfg, c, op);
    } else if op.OnMonitor() {
      MonitorKeeps(cfg, c, op);
    } else if op.OnMounts() {
      MountsKeep(cfg, c, op);
    } else if op.OnUnmounts() {
      UnmountsKeep(cfg, c, op);
    } else {
      match op {
        case Tick(t) => TickKeeps(cfg, c, t);
        case Pin(a) => PinKeeps(cfg, c, c.pins + {a});
        case Unpin(a) => PinKeeps(cfg, c, c.pins - {a});
        case Ping(client) => PingKeeps(cfg, c, client);
        case Deallocate(a, k) => DeallocateKeeps(cfg, c, a, k);
        case EvictBegin(t) => EvictorKeeps(cfg, c, Evictor(t, []));
        case EvictList(_, leases) => EvictorKeeps(cfg, c, c.evictor.(listed := c.evictor.listed + leases));
      }
    }
  }

  lemma InitialInv(cfg: Config)
    requires ConfigOk(cfg)
    ensures Inv(cfg, Initial)
  {}

  lemma {:induction false} RunKeeps(cfg: Config, c: State, ops: seq<Op>)
    requires Inv(cfg, c) && Legal(cfg, c, ops)
    ensures Inv(cfg, Run(cfg, c, ops))
    decreases |ops|
  {
    hide Inv, Apply, Enabled;
    if ops != [] {
      RunKeeps(cfg, c, ops[..|ops| - 1]);
      StepKeeps(cfg, Run(cfg, c, ops[..|ops| - 1]), ops[|ops| - 1]);
    }
  }

  // ---- the indexes ----

  // In every reachable state the indexes agree, and every segment being unmounted is
  // the business of exactly one job.
  lemma IndexesAgree(cfg: Config, ops: seq<Op>)
    requires ConfigOk(cfg) && Legal(cfg, Initial, ops)
    ensures var c := Run(cfg, Initial, ops);
            && S.Agree(c.seg)
            && (forall id | id in c.seg.mounted && c.seg.mounted[id].status == S.UNMOUNTING ::
                  exists t: nat, i: nat :: Assigned(c, t, i, id))
            && (forall t: nat, i: nat, u: nat, j: nat, id: nat | Assigned(c, t, i, id) && Assigned(c, u, j, id) ::
                  t == u && i == j && id in c.seg.mounted && c.seg.mounted[id].status == S.UNMOUNTING)
  {
    hide S.Agree, Run, Legal, SweptOk, HeldOk, HeapsOk, WatchOk;
    InitialInv(cfg);
    RunKeeps(cfg, Initial, ops);
  }

  // ---- what is mounted ----

  // The segment this step mounts, when it is good and new.
  ghost predicate Mounts(c: State, op: Op, g: S.Segment) {
    && g.base > 0 && g.size > 0
    && ((op.MountEnd? && c.lock.Mounting? && c.lock.segment == g) ||
        (op.RemountOne? && c.lock.Remounting? && c.lock.segments != [] && c.lock.segments[0] == g))
  }

  // This step takes the segment out of service.
  ghost predicate TakesOut(c: State, op: Op, id: nat) {
    (op.UnmountBegin? && op.id == id) ||
    (op.ExpireOne? && c.lock.Expiring? && c.lock.todo != [] && c.lock.todo[0].id == id)
  }

  ghost predicate Commits(c: State, op: Op, id: nat) {
    op.CommitOne? && op.job in c.jobs && c.jobs[op.job].items != [] && c.jobs[op.job].items[0].id == id
  }

  ghost predicate Serving(m: map<nat, S.Mounted>, id: nat) {
    id in m && m[id].status == S.OK
  }

  // What mounting one segment does to the map.
  lemma MountStepMeans(c: State, client: nat, g: S.Segment, id: nat)
    ensures var m, m' := c.seg.mounted, MountStep(c, client, g).seg.mounted;
      var fits := g.base > 0 && g.size > 0 && g.id == id && id !in m;
      && (id in m' <==> id in m || fits)
      && (id in m ==> m'[id] == m[id]) && (fits ==> m'[id].segment == g && m'[id].status == S.OK)
  {
    hide G.NewHeap;
  }

  lemma PrepareStepMeans(c: State, t: nat, id: nat, client: nat, j: nat)
    requires S.Agree(c.seg) && t in c.jobs
    ensures var m, m' := c.seg.mounted, PrepareStep(c, t, id, client).seg.mounted;
      && (j in m' <==> j in m) && (j in m ==> m'[j].segment == m[j].segment)
      && (Serving(m', j) <==> Serving(m, j) && j != id)
  {
    hide S.RemoveFirst, S.Unlist;
    S.PrepareAgrees(c.seg, id);
  }

  // A segment comes in service only by being mounted, leaves it only by being taken out, and is gone
  // only when that is committed; its description never changes.
  ghost predicate MountedAs(c: State, op: Op, m': map<nat, S.Mounted>, id: nat) {
    var m, mounts := c.seg.mounted, exists g :: Mounts(c, op, g) && g.id == id;
    && (id in m' <==> (id in m && !Commits(c, op, id)) || mounts)
    && (Serving(m', id) <==> (Serving(m, id) && !TakesOut(c, op, id) && !Commits(c, op, id)) || (id !in m && mounts))
    && (id in m' ==> if id in m then m'[id].segment == m[id].segment else Mounts(c, op, m'[id].segment))
  }

  lemma StopsOnlyAtOld(s: S.Indexes, g: S.Segment)
    ensures S.MountError(s, g) == S.UNAVAILABLE_IN_CURRENT_STATUS <==> S.Leaving(s.mounted, g)
    ensures S.Leaving(s.mounted, g) ==> g.id in s.mounted
  {}

  lemma OneMountedAs(c: State, op: Op, client: nat, g: S.Segment, id: nat)
    requires op.MountEnd? || op.RemountOne?
    requires forall x :: Mounts(c, op, x) <==> x == g && g.base > 0 && g.size > 0
    ensures MountedAs(c, op, MountStep(c, client, g).seg.mounted, id)
  {
    hide MountStep, Mounts;
    MountStepMeans(c, client, g, id);
    assert g.base > 0 && g.size > 0 ==> Mounts(c, op, g);
  }

  lemma MountsMountAs(cfg: Config, c: State, op: Op, id: nat)
    requires op.OnMounts() && MountsEnabled(cfg, c, op)
    ensures MountedAs(c, op, MountsStep(cfg, c, op).seg.mounted, id)
  {
    hide MountStep, S.MountError, S.Leaving;
    if op.MountEnd? {
      OneMountedAs(c, op, c.lock.client, c.lock.segment, id);
    } else if op.RemountOne? {
      OneMountedAs(c, op, c.lock.client, c.lock.segments[0], id);
      StopsOnlyAtOld(c.seg, c.lock.segments[0]);
    }
  }

  lemma UnmountsMountAs(cfg: Config, c: State, op: Op, id: nat)
    requires op.OnUnmounts() && UnmountsEnabled(cfg, c, op) && S.Agree(c.seg) && ItemsOk(c)
    ensures MountedAs(c, op, UnmountsStep(cfg, c, op).seg.mounted, id)
  {
    hide PrepareStep, S.Agree, S.PrepareError, S.PrepareUnmount, Alive, Unlocked, O.SweepStale;
    if op.UnmountBegin? {
      PrepareStepMeans(c.(jobs := c.jobs[op.job := Job([], 0, {}, false)]), op.job, op.id, op.client, id);
    } else if op.CommitOne? {
      assert Assigned(c, op.job, 0, c.jobs[op.job].items[0].id);
    }
  }

  lemma MonitorMountAs(cfg: Config, c: State, op: Op, id: nat)
    requires op.OnMonitor() && MonitorEnabled(c, op) && S.Agree(c.seg) && NextOk(cfg, c)
    ensures MountedAs(c, op, MonitorStep(cfg, c, op).seg.mounted, id)
  {
    hide PrepareStep, S.Agree, S.PrepareError, S.PrepareUnmount;
    if op.ExpireOne? {
      PrepareStepMeans(c, c.lock.job, c.lock.todo[0].id, c.lock.todo[0].client, id);
    }
  }

  lemma MountedStep(cfg: Config, c: State, op: Op, id: nat)
    requires Inv(cfg, c) && Enabled(cfg, c, op)
    ensures MountedAs(c, op, Apply(cfg, c, op).seg.mounted, id)
  {
    hide ObjectStep, ObjectsEnabled, PutStep, PutsEnabled, Alive, Unlocked, CanDeallocate, Listable;
    hide MountsStep, MountsEnabled, UnmountsStep, UnmountsEnabled, MonitorStep, MonitorEnabled;
    hide S.Agree, OriginOk, ItemsOk, NextOk, SweptOk, HeldOk, HeapsOk, PutsOk, WatchOk;
    if op.OnPuts() { PutStays(cfg, c, op); }
    else if op.OnMounts() { MountsMountAs(cfg, c, op, id); }
    else if op.OnUnmounts() { UnmountsMountAs(cfg, c, op, id); }
    else if op.OnMonitor() { MonitorMountAs(cfg, c, op, id); }
  }

  // A remount stops exactly at a good segment that is still being unmounted, and otherwise goes on
  // with the next one.
  lemma RemountStops(cfg: Config, c: State)
    requires Enabled(cfg, c, RemountOne)
    ensures var g := c.lock.segments[0];
      Apply(cfg, c, RemountOne).lock ==
        if S.Leaving(c.seg.mounted, g) then Nobody else Remounting(c.lock.client, c.lock.segments[1..])
  {
    StopsOnlyAtOld(c.seg, c.lock.segments[0]);
  }

  // ---- the work of an unmount ----

  // A job is there from the step that prepares its segments to its end; a sweep takes it one shard on
  // and notes what is pinned then, and nothing else does.
  ghost predicate JobGoesOn(c: State, op: Op, jobs: map<nat, Job>, t: nat) {
    && (t in jobs <==>
          (t in c.jobs && op != JobEnd(t)) || ((op.UnmountBegin? || op.ExpireBegin?) && op.job == t))
    && (t in c.jobs && t in jobs ==>
          && jobs[t].next == c.jobs[t].next + (if op == SweepShard(t) then 1 else 0)
          && jobs[t].missed == c.jobs[t].missed + (if op == SweepShard(t) then c.pins else {}))
  }

  lemma JobStep(cfg: Config, c: State, op: Op, t: nat)
    requires Inv(cfg, c) && Enabled(cfg, c, op)
    ensures JobGoesOn(c, op, Apply(cfg, c, op).jobs, t)
  {
    hide ObjectStep, ObjectsEnabled, PutStep, PutsEnabled, Alive, Unlocked, CanDeallocate, Listable;
    hide MountsStep, MountsEnabled, UnmountsStep, UnmountsEnabled, MonitorStep, MonitorEnabled;
    hide S.Agree, OriginOk, ItemsOk, SweptOk, HeldOk, HeapsOk, PutsOk, WatchOk;
    if op.OnPuts() { PutStays(cfg, c, op); }
    else if op.OnMounts() { MountsStay(cfg, c, op); }
    else if op.OnUnmounts() { UnmountJobs(cfg, c, op, t); }
    else if op.OnMonitor() { MonitorJobs(cfg, c, op, t); }
  }

  lemma UnmountJobs(cfg: Config, c: State, op: Op, t: nat)
    requires op.OnUnmounts() && UnmountsEnabled(cfg, c, op)
    ensures JobGoesOn(c, op, UnmountsStep(cfg, c, op).jobs, t)
  {
    hide S.PrepareError, S.PrepareUnmount, S.CommitUnmount, O.SweepStale, Alive, Unlocked;
  }

  lemma MonitorJobs(cfg: Config, c: State, op: Op, t: nat)
    requires op.OnMonitor() && MonitorEnabled(c, op) && NextOk(cfg, c)
    ensures JobGoesOn(c, op, MonitorStep(cfg, c, op).jobs, t)
  {
    hide PrepareStep;
    if op.ExpireOne? { PrepareJobs(c, c.lock.job, c.lock.todo[0].id, c.lock.todo[0].client, t); }
  }

  lemma PrepareJobs(c: State, t: nat, id: nat, client: nat, u: nat)
    requires t in c.jobs
    ensures var jobs := PrepareStep(c, t, id, client).jobs;
      (u in jobs <==> u in c.jobs) &&
      (u in jobs ==> jobs[u].next == c.jobs[u].next && jobs[u].missed == c.jobs[u].missed)
  {
    hide S.PrepareError, S.PrepareUnmount;
  }

  // ---- memory given back ----

  // A deallocation takes the grant of its tile and gives its bytes back; no other grant changes.
  lemma DeallocateMeans(cfg: Config, c: State, a: nat, k: nat)
    requires CanDeallocate(c, a, k) && G.HeapOk(c.heaps[a])
    ensures Enabled(cfg, c, Deallocate(a, k))
    ensures var heaps := Apply(cfg, c, Deallocate(a, k)).heaps;
      heaps.Keys == c.heaps.Keys && G.GivenBack(c.heaps[a], heaps[a], k) && heaps == c.heaps[a := heaps[a]]
  {
    hide L.Unheld, Alive, G.HeapOk, G.ReleaseHeap, G.GivenBack, ObjectStep, ObjectsEnabled, PutStep, PutsEnabled;
    hide MonitorStep, MonitorEnabled, MountsStep, MountsEnabled, UnmountsStep, UnmountsEnabled, Listable, Unlocked;
    G.ReleaseHeapKeeps(c.heaps[a], k);
  }

  // ---- unmounting ----

  // Once the sweep of a job is past shard i, no object there, installed or being put,
  // has a buffer of a segment of the job; when it is committed none exists at all.
  lemma NothingBehindTheSweep(cfg: Config, ops: seq<Op>, t: nat, i: nat, id: nat)
    requires ConfigOk(cfg) && Legal(cfg, Initial, ops)
    requires var c := Run(cfg, Initial, ops);
             Assigned(c, t, i, id) && id in c.origin && c.origin[id].allocator !in c.jobs[t].missed
    ensures var c := Run(cfg, Initial, ops); var a := c.origin[id].allocator;
            && (forall k | k in c.objects && cfg.shardOf(k) < c.jobs[t].next :: !Holds(c.objects[k], a))
            && (forall k | k in c.puts && cfg.shardOf(k) < c.jobs[t].next :: !Holds(c.puts[k], a))
            && (c.jobs[t].next == cfg.shards ==> Load(c, a) == 0)
  {
    hide S.Agree, Run, Legal, HeldOk, HeapsOk, WatchOk, Holds, Bytes;
    InitialInv(cfg);
    RunKeeps(cfg, Initial, ops);
    var c := Run(cfg, Initial, ops);
    var a := c.origin[id].allocator;
    assert ClearBelow(cfg, c.objects, c.jobs[t].next, a) && ClearBelow(cfg, c.puts, c.jobs[t].next, a);
    if c.jobs[t].next == cfg.shards {
      NoBytes(c.objects, a);
      NoBytes(c.puts, a);
    }
  }

  // An allocator whose segment is gone, and that no pin hid from a sweep, never comes back.
  ghost predicate Gone(c: State, a: nat) {
    a < c.made && !InUse(c, a) && a !in c.leaked
  }

  // Only mounting and committing change who owns what.
  lemma OriginStays(cfg: Config, c: State, op: Op)
    requires Enabled(cfg, c, op) && !op.OnMounts() && !op.CommitOne?
    ensures var c' := Apply(cfg, c, op); c'.origin == c.origin && c'.made == c.made && c'.leaked == c.leaked
  {
    hide MonitorStep, MonitorEnabled, UnmountsStep, UnmountsEnabled, Alive, ObjectStep, ObjectsEnabled, Allocated,
      Unlocked;
    if op.OnMonitor() { MonitorStays(cfg, c, op); }
    else if op.OnUnmounts() { UnmountsStay(cfg, c, op); }
  }

  lemma MountGone(c: State, client: nat, g: S.Segment, a: nat)
    requires Gone(c, a)
    ensures Gone(MountStep(c, client, g), a)
  {
    var c' := MountStep(c, client, g);
    assert forall id | id in c'.origin ::
      (id in c.origin && c'.origin[id] == c.origin[id]) || c'.origin[id].allocator == c.made;
  }

  lemma CommitGone(c: State, t: nat, a: nat)
    requires Gone(c, a) && t in c.jobs && c.jobs[t].items != []
    ensures Gone(CommitStep(c, t), a)
  {
    var c' := CommitStep(c, t);
    assert forall id | id in c'.origin :: id in c.origin && c'.origin[id] == c.origin[id];
  }

  lemma SameGone(c: State, c': State, a: nat)
    requires Gone(c, a) && c'.origin == c.origin && c'.made == c.made && c'.leaked == c.leaked
    ensures Gone(c', a)
  {}

  lemma MountsGone(cfg: Config, c: State, op: Op, a: nat)
    requires op.OnMounts() && MountsEnabled(cfg, c, op) && Gone(c, a)
    ensures Gone(MountsStep(cfg, c, op), a)
  {
    hide Gone, MountStep;
    var c' := MountsStep(cfg, c, op);
    match op
    case MountEnd =>
      MountGone(c, c.lock.client, c.lock.segment, a);
      SameGone(MountStep(c, c.lock.client, c.lock.segment), c', a);
    case RemountOne =>
      MountGone(c, c.lock.client, c.lock.segments[0], a);
      if S.MountError(c.seg, c.lock.segments[0]) == S.UNAVAILABLE_IN_CURRENT_STATUS {
        SameGone(c, c', a);
      } else {
        SameGone(MountStep(c, c.lock.client, c.lock.segments[0]), c', a);
      }
    case _ => SameGone(c, c', a);
  }

  lemma GoneStays(cfg: Config, c: State, op: Op, a: nat)
    requires Enabled(cfg, c, op) && Gone(c, a)
    ensures Gone(Apply(cfg, c, op), a)
  {
    hide Gone, CommitStep, MountsStep, MountsEnabled;
    if op.OnMounts() {
      MountsGone(cfg, c, op, a);
    } else if op.CommitOne? {
      CommitGone(c, op.job, a);
    } else {
      OriginStays(cfg, c, op);
      SameGone(c, Apply(cfg, c, op), a);
    }
  }

  lemma {:induction false} GoneForGood(cfg: Config, c: State, ops: seq<Op>, a: nat)
    requires Inv(cfg, c) && Legal(cfg, c, ops) && Gone(c, a)
    ensures var c' := Run(cfg, c, ops);
            (forall k | k in c'.objects :: !Holds(c'.objects[k], a)) &&
              (forall k | k in c'.puts :: !Holds(c'.puts[k], a))
    ensures Gone(Run(cfg, c, ops), a)
    decreases |ops|
  {
    hide S.Agree, Holds, OriginOk, ItemsOk, NextOk, SweptOk, HeapsOk, PutsOk, WatchOk, Apply, Enabled;
    RunKeeps(cfg, c, ops);
    if ops != [] {
      RunKeeps(cfg, c, ops[..|ops| - 1]);
      GoneForGood(cfg, c, ops[..|ops| - 1], a);
      GoneStays(cfg, Run(cfg, c, ops[..|ops| - 1]), ops[|ops| - 1], a);
    }
  }

  lemma CommittedIsGone(cfg: Config, c: State, t: nat)
    requires Inv(cfg, c) && Enabled(cfg, c, CommitOne(t))
    ensures var id := c.jobs[t].items[0].id;
            && id in c.origin
            && (c.origin[id].allocator !in c.jobs[t].missed && c.origin[id].allocator !in c.leaked ==>
                  Gone(Apply(cfg, c, CommitOne(t)), c.origin[id].allocator))
  {
    hide S.Agree, NextOk, SweptOk, HeldOk, HeapsOk, PutsOk, WatchOk;
    assert Assigned(c, t, 0, c.jobs[t].items[0].id);
  }

  // ---- which allocators a pin can have hidden ----

  // Everything that is pinned, or that a pin hid from a sweep, is in A.
  ghost predicate Within(c: State, A: set<nat>) {
    c.pins <= A && c.leaked <= A && forall t | t in c.jobs :: c.jobs[t].missed <= A
  }

  lemma WithinMonitor(cfg: Config, c: State, op: Op, A: set<nat>)
    requires op.OnMonitor() && MonitorEnabled(c, op) && Within(c, A)
    ensures Within(MonitorStep(cfg, c, op), A)
  {
    hide S.PrepareError, S.PrepareUnmount;
  }

  lemma WithinUnmount(cfg: Config, c: State, op: Op, A: set<nat>)
    requires op.OnUnmounts() && UnmountsEnabled(cfg, c, op) && Within(c, A)
    ensures Within(UnmountsStep(cfg, c, op), A)
  {
    hide S.PrepareError, S.PrepareUnmount, S.CommitUnmount, O.SweepStale, Alive, Unlocked;
  }

  lemma WithinStep(cfg: Config, c: State, op: Op, A: set<nat>)
    requires Enabled(cfg, c, op) && Within(c, A) && (op.Pin? ==> op.allocator in A)
    ensures Within(Apply(cfg, c, op), A)
  {
    hide MonitorStep, MonitorEnabled, UnmountsStep, UnmountsEnabled, MountsStep, MountsEnabled, PutStep, PutsEnabled;
    hide Alive, ObjectStep, ObjectsEnabled, CanDeallocate, Listable, Within;
    var c' := Apply(cfg, c, op);
    if op.OnMonitor() {
      WithinMonitor(cfg, c, op, A);
    } else if op.OnUnmounts() {
      WithinUnmount(cfg, c, op, A);
    } else {
      JobsStay(cfg, c, op);
      SameWithin(c, c', op, A);
    }
  }

  lemma SameWithin(c: State, c': State, op: Op, A: set<nat>)
    requires Within(c, A) && c'.leaked == c.leaked && c'.jobs == c.jobs
    requires if op.Pin? then op.allocator in A && c'.pins == c.pins + {op.allocator} else c'.pins <= c.pins
    ensures Within(c', A)
  {}

  lemma JobsStay(cfg: Config, c: State, op: Op)
    requires Enabled(cfg, c, op) && !op.OnMonitor() && !op.OnUnmounts()
    ensures var c' := Apply(cfg, c, op);
      && c'.leaked == c.leaked && c'.jobs == c.jobs
      && if op.Pin? then c'.pins == c.pins + {op.allocator} else c'.pins <= c.pins
  {
    hide MonitorStep, MonitorEnabled, UnmountsStep, UnmountsEnabled, MountsStep, MountsEnabled, PutStep, PutsEnabled;
    hide Alive, ObjectStep, ObjectsEnabled, CanDeallocate, Listable;
    if op.OnMounts() { MountsStay(cfg, c, op); } else if op.OnPuts() { PutStays(cfg, c, op); }
  }

  lemma {:induction false} WithinRun(cfg: Config, c: State, ops: seq<Op>, A: set<nat>)
    requires Legal(cfg, c, ops) && Within(c, A) && forall i | 0 <= i < |ops| && ops[i].Pin? :: ops[i].allocator in A
    ensures Within(Run(cfg, c, ops), A)
    decreases |ops|
  {
    hide Within, Apply, Enabled;
    if ops != [] {
      WithinRun(cfg, c, ops[..|ops| - 1], A);
      WithinStep(cfg, Run(cfg, c, ops[..|ops| - 1]), ops[|ops| - 1], A);
    }
  }

  // The allocators that the run pins at some time.
  ghost function PinsOf(ops: seq<Op>): set<nat> {
    set i | 0 <= i < |ops| && ops[i].Pin? :: ops[i].allocator
  }

  // In every reachable state, an allocator that a sweep missed, or that leaked, was pinned before.
  lemma MissedWerePinned(cfg: Config, ops: seq<Op>)
    requires Legal(cfg, Initial, ops)
    ensures Within(Run(cfg, Initial, ops), PinsOf(ops))
  {
    hide Run, Legal;
    WithinRun(cfg, Initial, ops, PinsOf(ops));
  }

  // ---- bytes ----

  ghost function Allocators(m: map<nat, S.Mounted>, origin: map<nat, Origin>): set<nat> {
    set id | id in m && id in origin :: origin[id].allocator
  }

  ghost predicate Injective(origin: map<nat, Origin>) {
    forall i, j | i in origin && j in origin && i != j :: origin[i].allocator != origin[j].allocator
  }

  lemma {:induction false} LoadsAddUp(c: State, m: map<nat, S.Mounted>)
    requires m.Keys <= c.origin.Keys && Injective(c.origin)
    requires forall id | id in m :: Load(c, c.origin[id].allocator) <= m[id].segment.size
    ensures Bytes(c.objects, In(Allocators(m, c.origin))) + Bytes(c.puts, In(Allocators(m, c.origin))) <= S.Sizes(m)
    decreases |m|
  {
    hide Bytes;
    if m == map[] {
      assert Allocators(m, c.origin) == {};
      BytesNone(c.objects);
      BytesNone(c.puts);
    } else {
      var id := Pick(m);
      var rest, a := m - {id}, c.origin[id].allocator;
      Smaller(m, id);
      LoadsAddUp(c, rest);
      AllocatorsSplit(m, c.origin, id);
      BytesAdd(c.objects, Allocators(rest, c.origin), a);
      BytesAdd(c.puts, Allocators(rest, c.origin), a);
    }
  }

  lemma AllocatorsSplit(m: map<nat, S.Mounted>, origin: map<nat, Origin>, id: nat)
    requires id in m && m.Keys <= origin.Keys && Injective(origin)
    ensures Allocators(m, origin) == Allocators(m - {id}, origin) + {origin[id].allocator}
    ensures origin[id].allocator !in Allocators(m - {id}, origin)
  {}

  ghost function LiveBytes(c: State): nat {
    AllBytes(c.objects) + AllBytes(c.puts)
  }

  // In every reachable state the live bytes of an allocator are at most what it granted, and that is
  // at most its capacity; the allocator of a mounted segment has the size of the segment.
  lemma LoadWithinGrants(cfg: Config, ops: seq<Op>, a: nat)
    requires ConfigOk(cfg) && Legal(cfg, Initial, ops) && a in Run(cfg, Initial, ops).heaps
    ensures var c := Run(cfg, Initial, ops); var h := c.heaps[a];
            && Load(c, a) <= G.SoundSize(h.grants, h.bits) <= h.capacity
            && forall id | id in c.origin && id in c.seg.mounted && c.origin[id].allocator == a ::
                 h.capacity == c.seg.mounted[id].segment.size
  {
    hide S.Agree, Run, Legal, OriginOk, ItemsOk, NextOk, SweptOk, HeldOk, PutsOk, WatchOk, Bytes, L.Backs, L.AllHeapsOk;
    InitialInv(cfg);
    RunKeeps(cfg, Initial, ops);
    var c := Run(cfg, Initial, ops);
    L.LoadFits(c.heaps, c.objects, c.puts, a);
  }

  lemma BytesWithinCapacity(cfg: Config, c: State)
    requires Inv(cfg, c) && c.leaked == {}
    ensures LiveBytes(c) <= c.seg.capacity
  {
    hide Holds, Bytes, ItemsOk, NextOk, SweptOk, PutsOk, WatchOk, AllBytes, S.Exact, S.NamesOk, L.Backs, L.AllHeapsOk;
    var A := Allocators(c.seg.mounted, c.origin);
    forall id | id in c.seg.mounted ensures Load(c, c.origin[id].allocator) <= c.seg.mounted[id].segment.size {
      L.LoadFits(c.heaps, c.objects, c.puts, c.origin[id].allocator);
    }
    LoadsAddUp(c, c.seg.mounted);
    assert forall a | InUse(c, a) :: a in A;
    BytesIsAll(c.objects, A);
    BytesIsAll(c.puts, A);
  }

  // Live buffers never exceed the mounted capacity, over every run without pins.
  lemma CapacityNeverExceeded(cfg: Config, ops: seq<Op>)
    requires ConfigOk(cfg) && Legal(cfg, Initial, ops) && forall i | 0 <= i < |ops| :: !ops[i].Pin?
    ensures LiveBytes(Run(cfg, Initial, ops)) <= Run(cfg, Initial, ops).seg.capacity
  {
    hide Inv, Run, Legal, LiveBytes;
    InitialInv(cfg);
    RunKeeps(cfg, Initial, ops);
    MissedWerePinned(cfg, ops);
    BytesWithinCapacity(cfg, Run(cfg, Initial, ops));
  }

  // ---- no orphans ----

  // With high availability on, the monitor knows, or is about to know, the owner of every
  // segment in service and every client it calls OK.
  lemma NoOrphans(cfg: Config, ops: seq<Op>)
    requires ConfigOk(cfg) && Legal(cfg, Initial, ops) && cfg.ha
    ensures var c := Run(cfg, Initial, ops);
            && (forall id | id in c.seg.mounted && c.seg.mounted[id].status == S.OK ::
                  id in c.origin && Watched(c, c.origin[id].owner))
            && (forall u | u in c.okClients :: Watched(c, u))
  {
    hide S.Agree, Run, Legal, ItemsOk, NextOk, SweptOk, HeldOk, HeapsOk, PutsOk;
    InitialInv(cfg);
    RunKeeps(cfg, Initial, ops);
  }

  // When the monitor is done with a batch, none of its clients is OK or has a segment in service.
  lemma ExpiredAreOut(cfg: Config, c: State)
    requires Inv(cfg, c) && Enabled(cfg, c, ExpireEnd)
    ensures var c' := Apply(cfg, c, ExpireEnd);
            && c'.okClients !! c.expired
            && forall id | id in c'.seg.mounted && c'.seg.mounted[id].status == S.OK ::
                 id in c'.origin && c'.origin[id].owner !in c.expired
  {
    hide S.Agree, ItemsOk, SweptOk, HeldOk, HeapsOk, PutsOk;
  }
}
