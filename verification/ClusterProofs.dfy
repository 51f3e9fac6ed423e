/**
 Every step of the master keeps the invariant of module Cluster. One lemma per
 kind of step; the theorems over whole runs are in module ClusterTheorems.
 */
module ClusterProofs {
  import opened Metadata
  import opened Options
  import opened ByteSums
  import opened Cluster
  import O = ObjectOps
  import S = Segments
  import G = Grants
  import L = LiveGrants

  // ---- steps that leave the objects alone ----

  lemma MonitorStays(cfg: Config, c: State, op: Op)
    requires op.OnMonitor() && MonitorEnabled(c, op)
    ensures var c' := MonitorStep(cfg, c, op);
            c'.objects == c.objects && c'.puts == c.puts && c'.origin == c.origin && c'.made == c.made &&
              c'.leaked == c.leaked && c'.now == c.now && c'.heaps == c.heaps && c'.evictor == c.evictor
  {
    hide S.PrepareError, S.PrepareUnmount;
  }

  lemma MountsStay(cfg: Config, c: State, op: Op)
    requires op.OnMounts() && MountsEnabled(cfg, c, op)
    ensures var c' := MountsStep(cfg, c, op);
      && c'.objects == c.objects && c'.puts == c.puts && c'.leaked == c.leaked
      && c'.now == c.now && c'.evictor == c.evictor && c'.jobs == c.jobs && c'.pins == c.pins
      && c'.ttl == c.ttl && c'.expired == c.expired
  {
    hide S.MountError, MountStep;
    match op
    case MountEnd => MountStepSame(c, c.lock.client, c.lock.segment);
    case RemountOne => MountStepSame(c, c.lock.client, c.lock.segments[0]);
    case _ =>
  }

  lemma MountStepSame(c: State, client: nat, g: S.Segment)
    ensures var c' := MountStep(c, client, g);
      c' == c.(seg := c'.seg, heaps := c'.heaps, origin := c'.origin, made := c'.made)
  {
    hide S.MountError, S.Mount, G.NewHeap;
  }

  // A put changes the store and the allocators.
  lemma PutStays(cfg: Config, c: State, op: Op)
    requires op.OnPuts() && PutsEnabled(cfg, c, op)
    ensures var c' := PutStep(cfg, c, op); c' == c.(objects := c'.objects, puts := c'.puts, heaps := c'.heaps)
  {
    hide O.PutCheck, O.Emplace, L.GrantAll, Allocated, Alive, Unlocked, O.PutBlocked;
  }

  lemma UnmountsStay(cfg: Config, c: State, op: Op)
    requires op.OnUnmounts() && UnmountsEnabled(cfg, c, op)
    ensures var c' := UnmountsStep(cfg, c, op);
      (!op.SweepShard? ==> c'.objects == c.objects) && c'.puts == c.puts && c'.now == c.now
    ensures var c' := UnmountsStep(cfg, c, op);
      && c'.heaps == c.heaps && c'.evictor == c.evictor
      && c'.ttl == c.ttl && c'.expired == c.expired && c'.okClients == c.okClients
      && (!op.CommitOne? ==> c'.origin == c.origin && c'.made == c.made && c'.leaked == c.leaked)
  {
    hide S.PrepareError, S.PrepareUnmount, S.CommitUnmount, O.SweepStale, Alive, Unlocked;
  }

  // Only puts, sweeps and the operations on objects change the store.
  lemma StoreStays(cfg: Config, c: State, op: Op)
    requires Enabled(cfg, c, op) && !op.OnObjects() && !op.OnPuts() && !op.SweepShard?
    ensures Apply(cfg, c, op).objects == c.objects && Apply(cfg, c, op).puts == c.puts
  {
    hide MonitorStep, MonitorEnabled, MountsStep, MountsEnabled, UnmountsStep, UnmountsEnabled, Alive;
    if op.OnMonitor() { MonitorStays(cfg, c, op); }
    else if op.OnMounts() { MountsStay(cfg, c, op); }
    else if op.OnUnmounts() { UnmountsStay(cfg, c, op); }
  }

  // ---- states that agree on all but clocks, pins and the monitor ----

  ghost predicate SameItems(c: State, c': State) {
    forall t: nat, i: nat, id: nat ::
      && (Assigned(c', t, i, id) <==> Assigned(c, t, i, id))
      && (Assigned(c, t, i, id) ==> c'.jobs[t].items[i] == c.jobs[t].items[i])
  }

  lemma ItemsFrame(c: State, c': State)
    requires ItemsOk(c) && SameItems(c, c') && c'.seg.mounted == c.seg.mounted
    ensures ItemsOk(c')
  {
    forall id | id in c.seg.mounted && c.seg.mounted[id].status == S.UNMOUNTING
      ensures exists t: nat, i: nat :: Assigned(c', t, i, id)
    {
      var t: nat, i: nat :| Assigned(c, t, i, id);
      assert Assigned(c', t, i, id);
    }
  }

  lemma SweptFrame(cfg: Config, c: State, c': State)
    requires SweptOk(cfg, c) && SameItems(c, c') && c'.origin == c.origin
    requires c'.objects == c.objects && c'.puts == c.puts
    requires forall t | t in c.jobs && t in c'.jobs ::
      c'.jobs[t].next == c.jobs[t].next && c'.jobs[t].missed == c.jobs[t].missed
    ensures SweptOk(cfg, c')
  {
    hide ClearBelow;
  }

  // What does not depend on jobs, locks, pins and the monitor.
  lemma StaticFrame(cfg: Config, c: State, c': State)
    requires Inv(cfg, c)
    requires c'.seg == c.seg && c'.origin == c.origin && c'.made == c.made && c'.leaked == c.leaked &&
      c'.heaps == c.heaps
    requires c'.objects == c.objects && c'.puts == c.puts
    ensures S.Agree(c'.seg) && OriginOk(c') && HeldOk(c') && HeapsOk(c') && PutsOk(cfg, c')
  {
    hide S.Agree, L.Backs, L.AllHeapsOk, AllHeld, WatchOk, SweptOk, ItemsOk, NextOk;
    FrameHeld(c, c', c.objects);
    FrameHeld(c, c', c.puts);
  }

  lemma JobsFrame(cfg: Config, c: State, c': State)
    requires Inv(cfg, c)
    requires c'.seg == c.seg && c'.origin == c.origin && c'.made == c.made && c'.leaked == c.leaked &&
      c'.heaps == c.heaps
    requires c'.objects == c.objects && c'.puts == c.puts && SameItems(c, c')
    requires forall t | t in c.jobs && t in c'.jobs ::
      c'.jobs[t].next == c.jobs[t].next && c'.jobs[t].missed == c.jobs[t].missed
    requires NextOk(cfg, c') && WatchOk(cfg, c')
    ensures Inv(cfg, c')
  {
    hide S.Agree, OriginOk, HeldOk, HeapsOk, PutsOk, WatchOk, SweptOk, ItemsOk, NextOk, SameItems;
    StaticFrame(cfg, c, c');
    ItemsFrame(c, c');
    SweptFrame(cfg, c, c');
  }

  lemma FrameKeeps(cfg: Config, c: State, c': State)
    requires Inv(cfg, c)
    requires c'.seg == c.seg && c'.origin == c.origin && c'.made == c.made && c'.leaked == c.leaked &&
      c'.heaps == c.heaps
    requires c'.objects == c.objects && c'.puts == c.puts && c'.jobs == c.jobs
    requires c'.lock == c.lock || !c'.lock.Expiring?
    requires WatchOk(cfg, c')
    ensures Inv(cfg, c')
  {
    hide S.Agree, OriginOk, HeldOk, HeapsOk, PutsOk, WatchOk, SweptOk, ItemsOk;
    JobsFrame(cfg, c, c');
  }

  lemma FrameHeld(c: State, c': State, m: Objects)
    requires AllHeld(c, m)
    requires forall id | id in c.origin :: id in c'.origin && c'.origin[id] == c.origin[id]
    requires c.leaked <= c'.leaked
    ensures AllHeld(c', m)
  {
    hide Holds;
    forall k, a | k in m && Holds(m[k], a) ensures InUse(c', a) || a in c'.leaked {
      if a !in c.leaked {
        var id :| id in c.origin && c.origin[id].allocator == a;
        assert id in c'.origin && c'.origin[id].allocator == a;
      }
    }
  }

  lemma TickKeeps(cfg: Config, c: State, t: int)
    requires Inv(cfg, c)
    ensures Inv(cfg, c.(now := t))
  {
    hide S.Agree, OriginOk, HeldOk, HeapsOk, PutsOk, SweptOk, ItemsOk, NextOk;
    FrameKeeps(cfg, c, c.(now := t));
  }

  lemma PinKeeps(cfg: Config, c: State, pins: set<nat>)
    requires Inv(cfg, c)
    ensures Inv(cfg, c.(pins := pins))
  {
    hide S.Agree, OriginOk, HeldOk, HeapsOk, PutsOk, SweptOk, ItemsOk, NextOk;
    FrameKeeps(cfg, c, c.(pins := pins));
  }

  lemma EvictorKeeps(cfg: Config, c: State, e: Evictor)
    requires Inv(cfg, c)
    ensures Inv(cfg, c.(evictor := e))
  {
    hide S.Agree, OriginOk, HeldOk, HeapsOk, PutsOk, SweptOk, ItemsOk, NextOk;
    FrameKeeps(cfg, c, c.(evictor := e));
  }

  // A grant that no buffer holds goes back.
  lemma DeallocateKeeps(cfg: Config, c: State, a: nat, k: nat)
    requires Inv(cfg, c) && CanDeallocate(c, a, k)
    ensures Inv(cfg, c.(heaps := c.heaps[a := G.ReleaseHeap(c.heaps[a], k)]))
  {
    hide S.Agree, Alive, L.Unheld, L.Backs, L.AllHeapsOk, G.CanRelease, AllHeld, ClearBelow, SweptOk, ItemsOk, NextOk;
    var c' := c.(heaps := c.heaps[a := G.ReleaseHeap(c.heaps[a], k)]);
    L.ReleaseBacks(c.heaps, c.objects, c.puts, a, k);
    PutFrame(cfg, c, c');
  }

  lemma PingKeeps(cfg: Config, c: State, client: nat)
    requires Inv(cfg, c)
    ensures Inv(cfg, c.(ping := c.ping + multiset{client}))
  {
    hide S.Agree, OriginOk, HeldOk, HeapsOk, PutsOk, SweptOk, ItemsOk, NextOk;
    var c' := c.(ping := c.ping + multiset{client});
    assert forall u :: Watched(c, u) ==> Watched(c', u);
    FrameKeeps(cfg, c, c');
  }

  lemma MountBeginKeeps(cfg: Config, c: State, lock: Holder)
    requires Inv(cfg, c) && (lock.Mounting? || lock.Remounting?) && (cfg.ha ==> lock.client in c.ping)
    requires c.lock.Nobody?
    ensures Inv(cfg, c.(lock := lock))
  {
    hide S.Agree, OriginOk, HeldOk, HeapsOk, PutsOk, SweptOk, ItemsOk, NextOk;
    var c' := c.(lock := lock);
    assert forall u :: Watched(c, u) ==> Watched(c', u);
    FrameKeeps(cfg, c, c');
  }

  lemma UnlockKeeps(cfg: Config, c: State)
    requires Inv(cfg, c) && !c.lock.Expiring?
    ensures Inv(cfg, c.(lock := Nobody))
  {
    hide S.Agree, OriginOk, HeldOk, HeapsOk, PutsOk, SweptOk, ItemsOk, NextOk;
    var c' := c.(lock := Nobody);
    assert forall u :: Watched(c, u) ==> Watched(c', u);
    FrameKeeps(cfg, c, c');
  }

  lemma RemountEndKeeps(cfg: Config, c: State)
    requires Inv(cfg, c) && c.lock.Remounting?
    ensures Inv(cfg, c.(lock := Nobody, okClients := c.okClients + {c.lock.client}))
  {
    hide S.Agree, OriginOk, HeldOk, HeapsOk, PutsOk, SweptOk, ItemsOk, NextOk;
    var c' := c.(lock := Nobody, okClients := c.okClients + {c.lock.client});
    assert forall u :: Watched(c, u) ==> Watched(c', u);
    FrameKeeps(cfg, c, c');
  }

  lemma PopPingKeeps(cfg: Config, c: State, client: nat, t: int)
    requires Inv(cfg, c) && client in c.ping && t <= c.now
    ensures Inv(cfg, MonitorStep(cfg, c, PopPing(client, t)))
  {
    hide S.Agree, OriginOk, HeldOk, HeapsOk, PutsOk, SweptOk, ItemsOk, NextOk;
    var c' := MonitorStep(cfg, c, PopPing(client, t));
    assert forall u :: Watched(c, u) ==> Watched(c', u);
    FrameKeeps(cfg, c, c');
  }

  lemma FindExpiredKeeps(cfg: Config, c: State, t: int)
    requires Inv(cfg, c) && c.expired == {} && t <= c.now
    ensures Inv(cfg, MonitorStep(cfg, c, FindExpired(t)))
  {
    hide S.Agree, OriginOk, HeldOk, HeapsOk, PutsOk, SweptOk, ItemsOk, NextOk;
    var c' := MonitorStep(cfg, c, FindExpired(t));
    assert forall u :: Watched(c, u) ==> Watched(c', u);
    FrameKeeps(cfg, c, c');
  }

  // ---- objects that only shrink ----

  lemma ShrinkKeeps(cfg: Config, c: State, m: Objects)
    requires Inv(cfg, c) && Shrinks(c.objects, m)
    ensures Inv(cfg, c.(objects := m))
  {
    hide S.Agree, Bytes, Holds, Weight, ItemsOk, NextOk, WatchOk, OriginOk, HeapsOk;
    var c' := c.(objects := m);
    assert HeapsOk(c') by { ShrinkHeaps(c, m); }
    assert OriginOk(c') by { ShrinkOrigin(c, m); }
    assert ItemsOk(c') by { ItemsFrame(c, c'); }
    assert NextOk(cfg, c') by { ShrinkNext(cfg, c, m); }
    assert WatchOk(cfg, c') by { ShrinkWatch(cfg, c, m); }
    assert forall t: nat, i: nat, id: nat :: Assigned(c', t, i, id) <==> Assigned(c, t, i, id);
    assert forall n: nat, a :: ClearBelow(cfg, c.objects, n, a) ==> ClearBelow(cfg, m, n, a);
    assert AllHeld(c, m);
    FrameHeld(c, c', m);
    FrameHeld(c, c', c.puts);
  }

  lemma ShrinkHeaps(c: State, m: Objects)
    requires HeapsOk(c) && Shrinks(c.objects, m)
    ensures HeapsOk(c.(objects := m))
  {
    hide Bytes, Shrinks, L.Backs, L.AllHeapsOk;
    forall b ensures L.Copies(m, c.puts)(b) <= L.Copies(c.objects, c.puts)(b) { ShrinksBytes(c.objects, m, Copy(b)); }
    L.BacksFewer(c.heaps, L.Copies(c.objects, c.puts), L.Copies(m, c.puts));
  }

  lemma ShrinkOrigin(c: State, m: Objects)
    requires OriginOk(c)
    ensures OriginOk(c.(objects := m))
  {}

  lemma ShrinkNext(cfg: Config, c: State, m: Objects)
    requires NextOk(cfg, c)
    ensures NextOk(cfg, c.(objects := m))
  {}

  lemma ShrinkWatch(cfg: Config, c: State, m: Objects)
    requires WatchOk(cfg, c)
    ensures WatchOk(cfg, c.(objects := m))
  {
    assert forall u :: Watched(c, u) ==> Watched(c.(objects := m), u);
  }

  lemma ObjectStepShrinks(cfg: Config, c: State, op: Op)
    requires op.OnObjects()
    ensures Shrinks(c.objects, ObjectStep(cfg, c, op))
  {
    hide Shrinks;
    match op
    case PutBlocked(k) => O.PutCheckShrinks(c.objects, k, Alive(c));
    case ExistKey(k) => O.ExistKeyShrinks(c.objects, k, Alive(c), c.now, cfg.leaseTtl, cfg.softTtl);
    case GetReplicaList(k) =>
      O.AccessShrinks(c.objects, k, Alive(c));
      O.ExistKeyShrinks(c.objects, k, Alive(c), c.now, cfg.leaseTtl, cfg.softTtl);
    case PutEnd(k, ty) => O.PutEndShrinks(c.objects, k, ty, Alive(c), c.now, cfg.softTtl);
    case PutRevoke(k, ty) => O.PutRevokeShrinks(c.objects, k, ty, Alive(c));
    case Remove(k) => O.RemoveShrinks(c.objects, k, Alive(c), c.now);
    case RemoveMatched(_, matched) => O.RemoveManyShrinks(c.objects, matched, c.now);
    case RemoveExpired(i, t) => O.RemoveManyShrinks(c.objects, ShardKeys(cfg, c.objects, i), t);
    case Evict(k, r) => O.EvictShrinks(c.objects, k, r, c.evictor.time);
  }

  // ---- mounting ----

  lemma MadeIsNew(c: State)
    requires S.Agree(c.seg) && OriginOk(c) && HeldOk(c)
    ensures S.Unused(c.seg, c.made)
  {
    hide Holds;
    assert !InUse(c, c.made);
  }

  lemma MountIndexes(cfg: Config, c: State, client: nat, g: S.Segment)
    requires Inv(cfg, c)
    ensures S.Agree(MountStep(c, client, g).seg) && OriginOk(MountStep(c, client, g))
  {
    hide HeldOk, ItemsOk, SweptOk, WatchOk, HeapsOk, S.Agree;
    MadeIsNew(c);
    S.MountAgrees(c.seg, g, client, c.made);
    MountOrigin(c, client, g);
  }

  lemma MountOrigin(c: State, client: nat, g: S.Segment)
    requires OriginOk(c)
    ensures OriginOk(MountStep(c, client, g))
  {}

  lemma MountJobs(cfg: Config, c: State, client: nat, g: S.Segment)
    requires ItemsOk(c) && NextOk(cfg, c)
    ensures ItemsOk(MountStep(c, client, g)) && NextOk(cfg, MountStep(c, client, g))
  {
    var c' := MountStep(c, client, g);
    assert forall t: nat, i: nat, id: nat :: Assigned(c', t, i, id) <==> Assigned(c, t, i, id);
    forall id | id in c'.seg.mounted && c'.seg.mounted[id].status == S.UNMOUNTING
      ensures exists t: nat, i: nat :: Assigned(c', t, i, id)
    {
      var t: nat, i: nat :| Assigned(c, t, i, id);
      assert Assigned(c', t, i, id);
    }
  }

  lemma MountHeld(cfg: Config, c: State, client: nat, g: S.Segment)
    requires Inv(cfg, c)
    ensures SweptOk(cfg, MountStep(c, client, g)) && HeldOk(MountStep(c, client, g)) && HeapsOk(MountStep(c, client, g))
  {
    hide Holds, S.Agree, WatchOk, ClearBelow, AllHeld, HeapsOk;
    var c' := MountStep(c, client, g);
    MountHeaps(c, client, g);
    assert forall t: nat, i: nat, id: nat :: Assigned(c', t, i, id) <==> Assigned(c, t, i, id);
    FrameHeld(c, c', c.objects);
    FrameHeld(c, c', c.puts);
  }

  lemma MountHeaps(c: State, client: nat, g: S.Segment)
    requires OriginOk(c) && HeapsOk(c)
    ensures HeapsOk(MountStep(c, client, g))
  {
    hide L.Backs, G.HeapOk, G.NewHeap;
    G.NewHeapOk(g.base, g.size);
    NewCapacity(g);
    L.BacksMount(c.heaps, L.Copies(c.objects, c.puts), c.made, G.NewHeap(g.base, g.size));
  }

  lemma NewCapacity(g: S.Segment)
    ensures G.NewHeap(g.base, g.size).capacity == g.size
  {}

  lemma MountWatch(cfg: Config, c: State, client: nat, g: S.Segment)
    requires OriginOk(c) && WatchOk(cfg, c) && (c.lock.Mounting? || c.lock.Remounting?) && c.lock.client == client
    ensures WatchOk(cfg, MountStep(c, client, g))
  {
    var c' := MountStep(c, client, g);
    assert forall u :: Watched(c, u) ==> Watched(c', u);
    forall id | id in c'.origin ensures id in S.Listed(c'.seg.clientSegments, c'.origin[id].owner) {
      if id in c.origin { assert id in S.Listed(c.seg.clientSegments, c.origin[id].owner); }
    }
  }

  lemma MountKeeps(cfg: Config, c: State, client: nat, g: S.Segment)
    requires Inv(cfg, c) && (c.lock.Mounting? || c.lock.Remounting?) && c.lock.client == client
    ensures Inv(cfg, MountStep(c, client, g))
  {
    hide S.Agree, OriginOk, ItemsOk, NextOk, SweptOk, HeldOk, HeapsOk, WatchOk;
    MountIndexes(cfg, c, client, g);
    MountJobs(cfg, c, client, g);
    MountHeld(cfg, c, client, g);
    MountWatch(cfg, c, client, g);
  }

  // The lock passes on within a remount.
  lemma RelockKeeps(cfg: Config, c: State, lock: Holder)
    requires Inv(cfg, c) && c.lock.Remounting? && lock.Remounting? && lock.client == c.lock.client
    ensures Inv(cfg, c.(lock := lock))
  {
    hide S.Agree, OriginOk, HeldOk, HeapsOk, PutsOk, SweptOk, ItemsOk, NextOk;
    var c' := c.(lock := lock);
    assert forall u :: Watched(c, u) ==> Watched(c', u);
    FrameKeeps(cfg, c, c');
  }

  lemma RemountOneKeeps(cfg: Config, c: State)
    requires Inv(cfg, c) && MountsEnabled(cfg, c, RemountOne)
    ensures Inv(cfg, MountsStep(cfg, c, RemountOne))
  {
    hide Inv, MountStep;
    var g := c.lock.segments[0];
    if S.MountError(c.seg, g) == S.UNAVAILABLE_IN_CURRENT_STATUS {
      UnlockKeeps(cfg, c);
    } else {
      MountKeeps(cfg, c, c.lock.client, g);
      MountStepLock(c, c.lock.client, g);
      RelockKeeps(cfg, MountStep(c, c.lock.client, g), Remounting(c.lock.client, c.lock.segments[1..]));
    }
  }

  lemma MountStepLock(c: State, client: nat, g: S.Segment)
    ensures MountStep(c, client, g).lock == c.lock
  {}

  // ---- preparing ----

  lemma NewJobKeeps(cfg: Config, c: State, t: nat)
    requires Inv(cfg, c) && t !in c.jobs
    ensures Inv(cfg, c.(jobs := c.jobs[t := Job([], 0, {}, false)]))
  {
    hide S.Agree, OriginOk, HeldOk, HeapsOk, PutsOk, SweptOk, ItemsOk;
    var c' := c.(jobs := c.jobs[t := Job([], 0, {}, false)]);
    assert forall u :: Watched(c, u) ==> Watched(c', u);
    JobsFrame(cfg, c, c');
  }

  lemma PrepareJobs(cfg: Config, c: State, t: nat, id: nat, client: nat)
    requires ItemsOk(c) && NextOk(cfg, c) && t in c.jobs && S.PrepareError(c.seg, id) == S.SUCCESS &&
      c.seg.mounted[id].bufAllocator.Some?
    ensures var c' := PrepareStep(c, t, id, client); ItemsOk(c') && NextOk(cfg, c')
  {
    var c' := PrepareStep(c, t, id, client);
    var n := |c.jobs[t].items|;
    assert forall u: nat, i: nat, j: nat ::
      Assigned(c', u, i, j) <==> Assigned(c, u, i, j) || (u == t && i == n && j == id);
    forall j | j in c'.seg.mounted && c'.seg.mounted[j].status == S.UNMOUNTING
      ensures exists u: nat, i: nat :: Assigned(c', u, i, j)
    {
      if j == id {
        assert Assigned(c', t, n, id);
      } else {
        var u: nat, i: nat :| Assigned(c, u, i, j);
        assert Assigned(c', u, i, j);
      }
    }
  }

  // What preparing leaves alone, and what it takes out of service.
  lemma PrepareSame(c: State, t: nat, id: nat, client: nat)
    requires t in c.jobs
    ensures var c' := PrepareStep(c, t, id, client);
      && c' == c.(seg := c'.seg, jobs := c'.jobs)
      && c'.seg.clientSegments == c.seg.clientSegments && c'.seg.mounted.Keys == c.seg.mounted.Keys
      && forall j | j in c.seg.mounted ::
           && c'.seg.mounted[j].segment == c.seg.mounted[j].segment
           && (c'.seg.mounted[j].status == S.OK ==> c.seg.mounted[j].status == S.OK)
  {
    hide S.RemoveFirst, S.Unlist;
  }

  lemma PrepareHeld(cfg: Config, c: State, t: nat, id: nat, client: nat)
    requires SweptOk(cfg, c) && HeldOk(c) && HeapsOk(c) && t in c.jobs && c.jobs[t].next == 0
    ensures var c' := PrepareStep(c, t, id, client); SweptOk(cfg, c') && HeldOk(c') && HeapsOk(c')
  {
    hide Holds, AllHeld, L.Backs, L.AllHeapsOk, PrepareStep, Assigned;
    var c' := PrepareStep(c, t, id, client);
    PrepareSame(c, t, id, client);
    PrepareAssigns(c, t, id, client);
    FrameHeld(c, c', c.objects);
    FrameHeld(c, c', c.puts);
  }

  lemma PrepareAssigns(c: State, t: nat, id: nat, client: nat)
    requires t in c.jobs
    ensures var c', n := PrepareStep(c, t, id, client), |c.jobs[t].items|;
      && (forall u: nat, i: nat, j: nat ::
            Assigned(c', u, i, j) ==> Assigned(c, u, i, j) || (u == t && i == n && j == id))
      && c'.jobs.Keys == c.jobs.Keys
      && (forall u | u in c.jobs :: c'.jobs[u].next == c.jobs[u].next && c'.jobs[u].missed == c.jobs[u].missed)
      && (forall u: nat, i: nat, j: nat | Assigned(c', u, i, j) :: u in c.jobs)
  {
    hide S.PrepareUnmount;
  }

  lemma PrepareWatch(cfg: Config, c: State, t: nat, id: nat, client: nat)
    requires WatchOk(cfg, c) && t in c.jobs
    ensures WatchOk(cfg, PrepareStep(c, t, id, client))
  {
    hide PrepareStep;
    var c' := PrepareStep(c, t, id, client);
    PrepareSame(c, t, id, client);
    assert forall u :: Watched(c, u) ==> Watched(c', u);
  }

  lemma PrepareKeeps(cfg: Config, c: State, t: nat, id: nat, client: nat)
    requires Inv(cfg, c) && t in c.jobs && c.jobs[t].next == 0
    ensures Inv(cfg, PrepareStep(c, t, id, client))
    ensures PrepareStep(c, t, id, client).lock == c.lock
  {
    hide S.Agree, OriginOk, ItemsOk, NextOk, SweptOk, HeldOk, HeapsOk, WatchOk;
    if S.PrepareError(c.seg, id) == S.SUCCESS {
      S.PrepareAgrees(c.seg, id);
      PrepareOrigin(c, t, id, client);
      PrepareJobs(cfg, c, t, id, client);
      PrepareHeld(cfg, c, t, id, client);
      PrepareWatch(cfg, c, t, id, client);
    }
  }

  lemma PrepareOrigin(c: State, t: nat, id: nat, client: nat)
    requires OriginOk(c) && t in c.jobs
    ensures OriginOk(PrepareStep(c, t, id, client))
  {}

  lemma UnmountBeginKeeps(cfg: Config, c: State, t: nat, id: nat, client: nat)
    requires Inv(cfg, c) && UnmountsEnabled(cfg, c, UnmountBegin(t, id, client))
    ensures Inv(cfg, UnmountsStep(cfg, c, UnmountBegin(t, id, client)))
  {
    hide Inv;
    NewJobKeeps(cfg, c, t);
    PrepareKeeps(cfg, c.(jobs := c.jobs[t := Job([], 0, {}, false)]), t, id, client);
  }

  // ---- expiring ----

  lemma ExpireBeginKeeps(cfg: Config, c: State, t: nat, todo: seq<Owned>)
    requires Inv(cfg, c) && MonitorEnabled(c, ExpireBegin(t, todo))
    ensures Inv(cfg, MonitorStep(cfg, c, ExpireBegin(t, todo)))
  {
    hide S.Agree, HeldOk, HeapsOk, PutsOk, SweptOk, ItemsOk;
    var c' := MonitorStep(cfg, c, ExpireBegin(t, todo));
    assert forall u :: Watched(c, u) ==> Watched(c', u);
    JobsFrame(cfg, c, c');
  }

  // Dropping the head of the list is right once its segment is out of service.
  lemma TodoKeeps(cfg: Config, c: State)
    requires Inv(cfg, c) && c.lock.Expiring? && c.lock.todo != []
    requires c.lock.todo[0].id in c.seg.mounted ==> c.seg.mounted[c.lock.todo[0].id].status != S.OK
    ensures Inv(cfg, c.(lock := Expiring(c.lock.job, c.lock.todo[1..])))
  {
    hide S.Agree, OriginOk, HeldOk, HeapsOk, PutsOk, SweptOk, ItemsOk;
    var c' := c.(lock := Expiring(c.lock.job, c.lock.todo[1..]));
    assert c.lock.todo == [c.lock.todo[0]] + c.lock.todo[1..];
    assert forall u :: Watched(c, u) ==> Watched(c', u);
    JobsFrame(cfg, c, c');
  }

  lemma ExpireOneKeeps(cfg: Config, c: State)
    requires Inv(cfg, c) && MonitorEnabled(c, ExpireOne)
    ensures Inv(cfg, MonitorStep(cfg, c, ExpireOne))
  {
    hide Inv;
    var o, t := c.lock.todo[0], c.lock.job;
    ExpiringJob(cfg, c);
    PrepareKeeps(cfg, c, t, o.id, o.client);
    PreparedNotOk(cfg, c, t, o.id, o.client);
    TodoKeeps(cfg, PrepareStep(c, t, o.id, o.client));
  }

  lemma ExpiringJob(cfg: Config, c: State)
    requires Inv(cfg, c) && c.lock.Expiring?
    ensures c.lock.job in c.jobs && c.jobs[c.lock.job].open && c.jobs[c.lock.job].next == 0
  {}

  lemma PreparedNotOk(cfg: Config, c: State, t: nat, id: nat, client: nat)
    requires Inv(cfg, c) && t in c.jobs
    ensures var s := PrepareStep(c, t, id, client).seg; id in s.mounted ==> s.mounted[id].status != S.OK
  {
    S.PrepareAgrees(c.seg, id);
  }

  lemma ExpireEndKeeps(cfg: Config, c: State)
    requires Inv(cfg, c) && MonitorEnabled(c, ExpireEnd)
    ensures Inv(cfg, MonitorStep(cfg, c, ExpireEnd))
  {
    hide S.Agree, OriginOk, HeldOk, HeapsOk, PutsOk, SweptOk, ItemsOk;
    var c' := MonitorStep(cfg, c, ExpireEnd);
    assert forall u :: Watched(c, u) && u !in c.expired ==> Watched(c', u);
    JobsFrame(cfg, c, c');
  }

  // ---- sweeping and committing ----

  // After the sweep of shard n the objects there hold only allocators that exist.
  lemma SweepClears(cfg: Config, m: Objects, n: nat, alive: set<nat>, a: nat)
    requires ClearBelow(cfg, m, n, a) && a !in alive
    ensures ClearBelow(cfg, O.SweepStale(m, ShardKeys(cfg, m, n), alive), n + 1, a)
  {
    hide Holds, O.Cleanup;
    var m' := O.SweepStale(m, ShardKeys(cfg, m, n), alive);
    forall k | k in m' && cfg.shardOf(k) < n + 1 ensures !Holds(m'[k], a) {
      if cfg.shardOf(k) == n && Holds(m'[k], a) { O.CleanupHolds(m[k], alive, a); }
    }
  }

  lemma SweepKeeps(cfg: Config, c: State, t: nat)
    requires Inv(cfg, c) && UnmountsEnabled(cfg, c, SweepShard(t))
    ensures Inv(cfg, UnmountsStep(cfg, c, SweepShard(t)))
  {
    hide S.Agree, OriginOk, HeldOk, HeapsOk, PutsOk, SweptOk, ItemsOk, Alive, O.SweepStale, Shrinks;
    var n := c.jobs[t].next;
    var m' := O.SweepStale(c.objects, ShardKeys(cfg, c.objects, n), Alive(c));
    O.SweepShrinks(c.objects, ShardKeys(cfg, c.objects, n), Alive(c));
    ShrinkKeeps(cfg, c, m');
    var d, c' := c.(objects := m'), UnmountsStep(cfg, c, SweepShard(t));
    ItemsFrame(d, c');
    SweepSwept(cfg, c, t);
    StaticFrame(cfg, d, c');
    assert forall u :: Watched(d, u) ==> Watched(c', u);
  }

  // The allocator of a segment that is being unmounted is in no list.
  lemma OutOfService(c: State, id: nat)
    requires S.Agree(c.seg) && OriginOk(c) && id in c.origin && c.seg.mounted[id].status != S.OK
    ensures c.origin[id].allocator !in c.seg.allocators
  {
    var a := c.origin[id].allocator;
    assert forall j | j in c.origin && c.seg.mounted[j].status == S.OK :: c.origin[j].allocator != a;
    assert forall j :: !S.Serves(c.seg.mounted, j, a, None);
  }

  lemma SweepSwept(cfg: Config, c: State, t: nat)
    requires Inv(cfg, c) && UnmountsEnabled(cfg, c, SweepShard(t))
    ensures SweptOk(cfg, UnmountsStep(cfg, c, SweepShard(t)))
  {
    hide S.Agree, Bytes, Holds, AllHeld, ClearBelow, O.SweepStale, HeapsOk, WatchOk;
    var n := c.jobs[t].next;
    var m' := O.SweepStale(c.objects, ShardKeys(cfg, c.objects, n), Alive(c));
    O.SweepShrinks(c.objects, ShardKeys(cfg, c.objects, n), Alive(c));
    var c' := UnmountsStep(cfg, c, SweepShard(t));
    forall u: nat, i: nat, id: nat | Assigned(c', u, i, id) && id in c'.origin &&
      c'.origin[id].allocator !in c'.jobs[u].missed
      ensures && ClearBelow(cfg, c'.objects, c'.jobs[u].next, c'.origin[id].allocator)
              && ClearBelow(cfg, c'.puts, c'.jobs[u].next, c'.origin[id].allocator)
    {
      assert Assigned(c, u, i, id);
      var a := c.origin[id].allocator;
      ShrinkClear(cfg, c.objects, m', c.jobs[u].next, a);
      if u == t {
        OutOfService(c, id);
        SweepClears(cfg, c.objects, n, Alive(c), a);
        PutsClear(cfg, c, n, a);
      }
    }
  }

  lemma ShrinkClear(cfg: Config, m: Objects, m': Objects, n: nat, a: nat)
    requires Shrinks(m, m') && ClearBelow(cfg, m, n, a)
    ensures ClearBelow(cfg, m', n, a)
  {
    hide Holds, Weight;
  }

  // No put is under way in a shard that is not locked.
  lemma PutsClear(cfg: Config, c: State, n: nat, a: nat)
    requires ClearBelow(cfg, c.puts, n, a) && Unlocked(cfg, c, n)
    ensures ClearBelow(cfg, c.puts, n + 1, a)
  {
    hide Holds;
  }

  lemma CommitKeeps(cfg: Config, c: State, t: nat)
    requires Inv(cfg, c) && UnmountsEnabled(cfg, c, CommitOne(t))
    ensures Inv(cfg, UnmountsStep(cfg, c, CommitOne(t)))
  {
    hide S.Agree, OriginOk, SweptOk, HeldOk, HeapsOk, WatchOk;
    var item := c.jobs[t].items[0];
    assert Assigned(c, t, 0, item.id);
    S.CommitAgrees(c.seg, item.id, item.client);
    CommitJobs(cfg, c, t);
    CommitHeld(cfg, c, t);
    CommitWatch(cfg, c, t);
  }

  lemma CommitJobs(cfg: Config, c: State, t: nat)
    requires ItemsOk(c) && NextOk(cfg, c) && t in c.jobs && c.jobs[t].items != [] && c.lock.Nobody?
    ensures ItemsOk(CommitStep(c, t)) && NextOk(cfg, CommitStep(c, t))
  {
    var c', item := CommitStep(c, t), c.jobs[t].items[0];
    assert Assigned(c, t, 0, item.id);
    forall u: nat, i: nat, id: nat | Assigned(c', u, i, id)
      ensures Assigned(c, u, if u == t then i + 1 else i, id) && id != item.id
    {
      assert Assigned(c, u, if u == t then i + 1 else i, id);
    }
    forall id | id in c'.seg.mounted && c'.seg.mounted[id].status == S.UNMOUNTING
      ensures exists u: nat, i: nat :: Assigned(c', u, i, id)
    {
      var u: nat, i: nat :| Assigned(c, u, i, id);
      assert Assigned(c', u, if u == t then i - 1 else i, id);
    }
    forall u: nat, i: nat, v: nat, j: nat, id: nat | Assigned(c', u, i, id) && Assigned(c', v, j, id)
      ensures u == v && i == j
    {
      assert Assigned(c, u, if u == t then i + 1 else i, id) && Assigned(c, v, if v == t then j + 1 else j, id);
    }
  }

  // Nothing of the committed segment is left, except where a pin hid it.
  lemma CommitHeld(cfg: Config, c: State, t: nat)
    requires Inv(cfg, c) && UnmountsEnabled(cfg, c, CommitOne(t))
    ensures var c' := CommitStep(c, t); OriginOk(c') && SweptOk(cfg, c') && HeldOk(c') && HeapsOk(c')
  {
    hide S.Agree, Holds, AllHeld, ClearBelow, WatchOk, L.Backs, L.AllHeapsOk;
    var c', item := CommitStep(c, t), c.jobs[t].items[0];
    assert Assigned(c, t, 0, item.id);
    forall u: nat, i: nat, id: nat | Assigned(c', u, i, id)
      ensures Assigned(c, u, if u == t then i + 1 else i, id)
    {}
    CommitAllHeld(cfg, c, t, c.objects);
    CommitAllHeld(cfg, c, t, c.puts);
  }

  lemma CommitAllHeld(cfg: Config, c: State, t: nat, m: Objects)
    requires Inv(cfg, c) && UnmountsEnabled(cfg, c, CommitOne(t)) && (m == c.objects || m == c.puts)
    ensures AllHeld(CommitStep(c, t), m)
  {
    hide S.Agree, Bytes, Holds, WatchOk, HeapsOk;
    var c', item := CommitStep(c, t), c.jobs[t].items[0];
    assert Assigned(c, t, 0, item.id);
    forall k, a | k in m && Holds(m[k], a) ensures InUse(c', a) || a in c'.leaked {
      if a !in c.leaked {
        var id :| id in c.origin && c.origin[id].allocator == a;
        assert cfg.shardOf(k) < cfg.shards;
        if id != item.id { assert id in c'.origin && c'.origin[id].allocator == a; }
      }
    }
  }

  lemma CommitWatch(cfg: Config, c: State, t: nat)
    requires WatchOk(cfg, c) && t in c.jobs && c.jobs[t].items != []
    ensures WatchOk(cfg, CommitStep(c, t))
  {
    var c', item := CommitStep(c, t), c.jobs[t].items[0];
    assert forall u :: Watched(c, u) ==> Watched(c', u);
    forall id | id in c'.origin ensures id in S.Listed(c'.seg.clientSegments, c'.origin[id].owner) {
      assert id in S.Listed(c.seg.clientSegments, c.origin[id].owner);
      UnlistKeeps(c.seg.clientSegments, item.client, item.id, c.origin[id].owner, id);
    }
  }

  lemma UnlistKeeps(m: map<nat, seq<nat>>, k: nat, x: nat, j: nat, y: nat)
    requires y in S.Listed(m, j) && x != y
    ensures y in S.Listed(S.Unlist(m, k, x), j)
  {
    if k in m { RemoveKeeps(m[k], x, y); }
  }

  lemma {:induction false} RemoveKeeps(s: seq<nat>, x: nat, y: nat)
    requires x != y
    ensures y in S.RemoveFirst(s, x) <==> y in s
  {
    if s != [] {
      assert s == [s[0]] + s[1..];
      if s[0] != x { RemoveKeeps(s[1..], x, y); }
    }
  }

  lemma JobEndKeeps(cfg: Config, c: State, t: nat)
    requires Inv(cfg, c) && UnmountsEnabled(cfg, c, JobEnd(t))
    ensures Inv(cfg, UnmountsStep(cfg, c, JobEnd(t)))
  {
    hide S.Agree, OriginOk, HeldOk, HeapsOk, PutsOk, SweptOk, ItemsOk;
    var c' := UnmountsStep(cfg, c, JobEnd(t));
    assert forall u :: Watched(c, u) ==> Watched(c', u);
    JobsFrame(cfg, c, c');
  }

  // ---- puts ----

  // What Inv says of the objects under way and installed, all other fields being equal.
  lemma PutFrame(cfg: Config, c: State, c': State)
    requires Inv(cfg, c)
    requires c' == c.(objects := c'.objects, puts := c'.puts, heaps := c'.heaps)
    requires forall n: nat, a | ClearBelow(cfg, c.objects, n, a) && ClearBelow(cfg, c.puts, n, a) &&
      a !in c.seg.allocators ::
               ClearBelow(cfg, c'.objects, n, a) && ClearBelow(cfg, c'.puts, n, a)
    requires AllHeld(c, c'.objects) && AllHeld(c, c'.puts) && HeapsOk(c') && PutsOk(cfg, c')
    ensures Inv(cfg, c')
  {
    hide S.Agree, AllHeld, HeapsOk, PutsOk, ItemsOk, WatchOk, SweptOk;
    ItemsFrame(c, c');
    WatchFrame(cfg, c, c');
    FrameHeld(c, c', c'.objects);
    FrameHeld(c, c', c'.puts);
    PutSwept(cfg, c, c');
  }

  lemma WatchFrame(cfg: Config, c: State, c': State)
    requires WatchOk(cfg, c) && c' == c.(objects := c'.objects, puts := c'.puts, heaps := c'.heaps)
    ensures WatchOk(cfg, c')
  {
    assert forall u :: Watched(c, u) ==> Watched(c', u);
  }

  lemma PutSwept(cfg: Config, c: State, c': State)
    requires Inv(cfg, c)
    requires c' == c.(objects := c'.objects, puts := c'.puts, heaps := c'.heaps)
    requires forall n: nat, a | ClearBelow(cfg, c.objects, n, a) && ClearBelow(cfg, c.puts, n, a) &&
      a !in c.seg.allocators ::
               ClearBelow(cfg, c'.objects, n, a) && ClearBelow(cfg, c'.puts, n, a)
    ensures SweptOk(cfg, c')
  {
    hide S.Agree, ClearBelow, HeldOk, HeapsOk, PutsOk, NextOk, WatchOk;
    forall t: nat, i: nat, id: nat | Assigned(c', t, i, id) && id in c'.origin &&
      c'.origin[id].allocator !in c'.jobs[t].missed
      ensures && ClearBelow(cfg, c'.objects, c'.jobs[t].next, c'.origin[id].allocator)
              && ClearBelow(cfg, c'.puts, c'.jobs[t].next, c'.origin[id].allocator)
    {
      assert Assigned(c, t, i, id);
      OutOfService(c, id);
    }
  }

  // Putting o at k changes every sum by the weight of o alone when nothing was there.
  lemma PutBytes(m: Objects, k: Key, o: Object, w: Buffer -> nat)
    requires k in m ==> m[k].replicas == []
    ensures Bytes(m[k := o], w) == Bytes(m, w) + Weight(o, w)
  {
    BytesPut(m, w, k, o);
  }

  // With the same allocators and no more buffers the heaps stay right.
  lemma FewerHeaps(c: State, c': State)
    requires HeapsOk(c) && c' == c.(objects := c'.objects, puts := c'.puts)
    requires forall b :: L.Copies(c'.objects, c'.puts)(b) <= L.Copies(c.objects, c.puts)(b)
    ensures HeapsOk(c')
  {
    hide L.Backs, L.AllHeapsOk, L.Copies;
    L.BacksFewer(c.heaps, L.Copies(c.objects, c.puts), L.Copies(c'.objects, c'.puts));
  }

  lemma PutLockKeeps(cfg: Config, c: State, k: Key)
    requires Inv(cfg, c) && PutsEnabled(cfg, c, PutLock(k))
    ensures Inv(cfg, PutStep(cfg, c, PutLock(k)))
  {
    hide S.Agree, Bytes, OriginOk, ItemsOk, NextOk, WatchOk, Shrinks, Alive, O.PutCheck, O.PutBlocked, HeapsOk;
    var m' := O.PutCheck(c.objects, k, Alive(c));
    O.PutCheckShrinks(c.objects, k, Alive(c));
    ShrinkKeeps(cfg, c, m');
    var d, c' := c.(objects := m'), PutStep(cfg, c, PutLock(k));
    assert forall a :: !Holds(NothingYet, a);
    assert k !in d.puts;
    forall b ensures L.Copies(c'.objects, c'.puts)(b) <= L.Copies(d.objects, d.puts)(b) {
      PutBytes(d.puts, k, NothingYet, Copy(b));
    }
    FewerHeaps(d, c');
    PutFrame(cfg, d, c');
  }

  // Every buffer of the new object gets a grant of its own.
  lemma PutAllocateHeaps(c: State, k: Key, o: Object, cuts: seq<L.Cut>)
    requires HeapsOk(c) && k in c.puts && c.puts[k] == NothingYet && Allocated(c, o, cuts)
    ensures HeapsOk(c.(puts := c.puts[k := o], heaps := L.GrantAll(c.heaps, Flat(o.replicas), cuts)))
  {
    hide Bytes, Holds, SizesOk, L.Backs, L.AllHeapsOk, L.CanGrant, L.GrantAll;
    var held, more := L.Copies(c.objects, c.puts), L.Copies(c.objects, c.puts[k := o]);
    var bs := Flat(o.replicas);
    L.GrantAllKeeps(c.heaps, bs, cuts, held);
    forall b ensures more(b) <= L.With(held, bs)(b) {
      PutBytes(c.puts, k, o, Copy(b));
      FlatCounts(o.replicas, b);
    }
    L.BacksFewer(L.GrantAll(c.heaps, bs, cuts), L.With(held, bs), more);
  }

  lemma PutAllocateKeeps(cfg: Config, c: State, k: Key, o: Object, cuts: seq<L.Cut>)
    requires Inv(cfg, c) && PutsEnabled(cfg, c, PutAllocate(k, o, cuts))
    ensures Inv(cfg, PutStep(cfg, c, PutAllocate(k, o, cuts)))
  {
    hide S.Agree, Holds, SizesOk, ItemsOk, NextOk, WatchOk, HeapsOk, L.CanGrant;
    forall a | Holds(o, a) ensures InUse(c, a) { InService(cfg, c, a); }
    PutAllocateHeaps(c, k, o, cuts);
    PutFrame(cfg, c, PutStep(cfg, c, PutAllocate(k, o, cuts)));
  }

  lemma InService(cfg: Config, c: State, a: nat)
    requires S.Agree(c.seg) && OriginOk(c) && a in c.seg.allocators
    ensures InUse(c, a)
  {
    var id :| S.Serves(c.seg.mounted, id, a, None);
    assert id in c.origin && c.origin[id].allocator == a;
  }

  lemma PutAbortKeeps(cfg: Config, c: State, k: Key)
    requires Inv(cfg, c) && k in c.puts
    ensures Inv(cfg, c.(puts := c.puts - {k}))
  {
    hide S.Agree, Bytes, Holds, Weight, ItemsOk, NextOk, WatchOk, HeapsOk;
    var c' := c.(puts := c.puts - {k});
    forall b ensures L.Copies(c'.objects, c'.puts)(b) <= L.Copies(c.objects, c.puts)(b) {
      BytesWithout(c.puts, Copy(b), k);
    }
    FewerHeaps(c, c');
    PutFrame(cfg, c, c');
  }

  lemma PutEmplaceKeeps(cfg: Config, c: State, k: Key)
    requires Inv(cfg, c) && PutsEnabled(cfg, c, PutEmplace(k))
    ensures Inv(cfg, PutStep(cfg, c, PutEmplace(k)))
  {
    hide S.Agree, Bytes, Holds, Weight, ItemsOk, NextOk, WatchOk, HeapsOk;
    if k in c.objects {
      PutAbortKeeps(cfg, c, k);
    } else {
      var c' := PutStep(cfg, c, PutEmplace(k));
      forall b ensures L.Copies(c'.objects, c'.puts)(b) <= L.Copies(c.objects, c.puts)(b) {
        BytesWithout(c.puts, Copy(b), k);
        PutBytes(c.objects, k, c.puts[k], Copy(b));
      }
      FewerHeaps(c, c');
      PutFrame(cfg, c, c');
    }
  }
}
