/**
 Runs that show where the guarantees end. In one an unmount leaves a buffer
 behind, because the destructor of another buffer keeps the allocator alive while
 the first shard is swept. In the other RemoveAll takes an object that is still
 being written.
 */
module RunWitness {
  import opened Metadata
  import opened Options
  import opened ByteSums
  import opened Cluster
  import opened ClusterTheorems
  import T = Tiling
  import O = ObjectOps
  import S = Segments
  import G = Grants
  import L = LiveGrants

  lemma Extend(cfg: Config, ops: seq<Op>, op: Op)
    requires Legal(cfg, Initial, ops) && Enabled(cfg, Run(cfg, Initial, ops), op)
    ensures Legal(cfg, Initial, ops + [op]) && Run(cfg, Initial, ops + [op]) == Apply(cfg, Run(cfg, Initial, ops), op)
  {
    hide Enabled, Apply;
    assert (ops + [op])[..|ops|] == ops;
  }

  const Disk0 := S.Segment(1, "node", 1, 10)
  const Small := FourBytes(0)

  // An object of four bytes, being written to one buffer of allocator a.
  function FourBytes(a: nat): Object {
    Object([Memory([Buffer(a, 0, 4)], PROCESSING)], 4, 0, None)
  }

  // An allocator of ten bytes, new and with four bytes granted.
  function TenFree(base: nat): G.Heap {
    G.Heap([T.Tile(0, 0, 10, false)], map[], base, 0, 10)
  }

  function TenCut(base: nat): G.Heap {
    G.Heap([T.Tile(0, 0, 4, true), T.Tile(1, 4, 6, false)], map[0 := G.Grant(base, 4)], base, 0, 10)
  }

  function TwoShards(): Config {
    Config(2, (k: Key) => if k == "b" then 1 else 0, false, false, 1, 1, 1)
  }

  // The states of the run: a segment mounted by client 7, an object put into it ...
  const Locked := Initial.(lock := Mounting(7, Disk0))
  const Up := Initial.(
    seg := S.Indexes([0], map["node" := [0]], map[1 := S.Mounted(Disk0, S.OK, Some(0))], map[7 := [1]], 10),
    heaps := map[0 := TenFree(1)],
    origin := map[1 := Origin(7, 0)], made := 1)
  const Asked := Up.(puts := map["a" := NothingYet])
  const Cut0: L.Heaps := map[0 := TenCut(1)]
  const Granted := Up.(puts := map["a" := Small], heaps := Cut0)
  const Stored := Up.(objects := map["a" := Small], heaps := Cut0)
  // ... a destructor of another buffer starts, the unmount sweeps the first shard meanwhile ...
  const Pinned := Stored.(pins := {0})
  const Preparing := Pinned.(
    seg := S.Indexes([], map[], map[1 := S.Mounted(Disk0, S.UNMOUNTING, None)], map[7 := [1]], 10),
    jobs := map[0 := Job([Item(1, 7, 10)], 0, {}, false)])
  const Missed := Preparing.(jobs := map[0 := Job([Item(1, 7, 10)], 1, {0}, false)])
  // ... the destructor ends, the second shard is swept and the unmount commits.
  const Unpinned0 := Missed.(pins := {})
  const Passed := Unpinned0.(jobs := map[0 := Job([Item(1, 7, 10)], 2, {0}, false)])
  const Ended := Stored.(
    seg := S.Indexes([], map[], map[], map[], 0), origin := map[], leaked := {0},
    jobs := map[0 := Job([], 2, {0}, false)])

  ghost predicate Leads(c: State, op: Op, c': State) {
    Enabled(TwoShards(), c, op) && Apply(TwoShards(), c, op) == c'
  }

  // A new allocator of ten bytes counts in bytes.
  lemma SmallHeap(base: nat)
    ensures G.NewHeap(base, 10) == TenFree(base)
  {
    assert G.Multiplier(10, 0) == 0;
  }

  lemma MountLeads()
    ensures Leads(Initial, MountBegin(7, Disk0), Locked) && Leads(Locked, MountEnd, Up)
  {
    hide G.NewHeap, ObjectStep, ObjectsEnabled, PutStep, PutsEnabled, MonitorStep, MonitorEnabled, UnmountsStep,
      UnmountsEnabled;
    SmallHeap(1);
    var empty: seq<nat> := [];
    assert empty + [0] == [0] && empty + [1] == [1];
    var s := S.Mount(Locked.seg, Disk0, 7, 0);
    assert s.byName == Up.seg.byName && s.mounted == Up.seg.mounted && s.clientSegments == Up.seg.clientSegments;
    assert Apply(TwoShards(), Locked, MountEnd).origin == Up.origin;
    assert Apply(TwoShards(), Locked, MountEnd).heaps == Up.heaps;
  }

  lemma PutLeads()
    ensures Leads(Up, PutLock("a"), Asked) && Leads(Granted, PutEmplace("a"), Stored)
  {
    hide ObjectStep, ObjectsEnabled, MonitorStep, MonitorEnabled, MountsStep, MountsEnabled, UnmountsStep,
      UnmountsEnabled;
    assert Granted.puts - {"a"} == map[];
  }

  lemma FlatFour(a: nat)
    ensures Flat(FourBytes(a).replicas) == [Buffer(a, 0, 4)]
  {
    assert FourBytes(a).replicas[..0] == [];
    assert Flat([]) == [];
  }

  lemma OneNode(t: T.Tile)
    ensures T.Nodes([t]) == {t.node}
  {
    assert [t][0] == t;
  }

  lemma CutTen(base: nat)
    ensures G.CanCut(TenFree(base), 0, 1, 4) && G.CutHeap(TenFree(base), 0, 1, 4) == TenCut(base)
  {
    var h := TenFree(base);
    assert G.FakeSize(4, 0) == 4;
    assert G.Need(4, 0) == 4;
    OneNode(h.tiles[0]);
    assert T.Split(h.tiles, 0, 4, 1) == TenCut(base).tiles;
    assert G.Scaled(0, 0) == 0;
  }

  // Four bytes granted by allocator a, six left.
  lemma FourGranted(heaps: L.Heaps, a: nat, base: nat)
    requires a in heaps && heaps[a] == TenFree(base)
    ensures var bs, cuts := Flat(FourBytes(a).replicas), [L.Cut(0, 1)];
      L.CanGrant(heaps, bs, cuts) && L.GrantAll(heaps, bs, cuts) == heaps[a := TenCut(base)]
  {
    hide L.CanGrant, L.GrantAll, G.CanCut, G.CutHeap;
    FlatFour(a);
    CutTen(base);
    L.GrantSingle(heaps, Buffer(a, 0, 4), L.Cut(0, 1));
  }

  // So PutStart can have it.
  lemma FourAllocated(c: State, a: nat, base: nat)
    requires a in c.heaps && c.heaps[a] == TenFree(base) && a in c.seg.allocators
    ensures Allocated(c, FourBytes(a), [L.Cut(0, 1)])
  {
    hide L.CanGrant, L.GrantAll;
    var o := FourBytes(a);
    FourGranted(c.heaps, a, base);
    FlatFour(a);
    assert o.replicas[0] in o.replicas;
    assert BufferBytes([Buffer(a, 0, 4)]) == 4;
    assert forall x | Holds(o, x) :: x == a;
  }

  lemma AllocateLeads()
    ensures Leads(Asked, PutAllocate("a", Small, [L.Cut(0, 1)]), Granted)
  {
    hide ObjectStep, ObjectsEnabled, MonitorStep, MonitorEnabled, MountsStep, MountsEnabled, UnmountsStep,
      UnmountsEnabled;
    hide L.CanGrant, L.GrantAll, Allocated;
    FourAllocated(Asked, 0, 1);
    FourGranted(Asked.heaps, 0, 1);
    assert Asked.heaps[0 := TenCut(1)] == Cut0;
    assert Asked.puts["a" := Small] == Granted.puts;
  }

  lemma PinLeads()
    ensures Leads(Stored, Pin(0), Pinned)
  {
    hide ObjectStep, ObjectsEnabled, PutStep, PutsEnabled, MonitorStep, MonitorEnabled, MountsStep, MountsEnabled;
    assert Stored.pins + {0} == {0};
  }

  lemma PreparedIndexes()
    ensures S.PrepareError(Pinned.seg, 1) == S.SUCCESS && S.PrepareUnmount(Pinned.seg, 1) == Preparing.seg
  {
    var s := S.PrepareUnmount(Pinned.seg, 1);
    assert S.RemoveFirst([0], 0) == [];
    assert s.byName == map[] && s.mounted == Preparing.seg.mounted;
  }

  lemma PrepareLeads()
    ensures Leads(Pinned, UnmountBegin(0, 1, 7), Preparing)
  {
    hide ObjectStep, ObjectsEnabled, PutStep, PutsEnabled, MonitorStep, MonitorEnabled, MountsStep, MountsEnabled;
    hide S.PrepareUnmount, S.PrepareError;
    PreparedIndexes();
    var empty: seq<Item> := [];
    assert empty + [Item(1, 7, 10)] == [Item(1, 7, 10)];
    assert Apply(TwoShards(), Pinned, UnmountBegin(0, 1, 7)).jobs == Preparing.jobs;
  }

  lemma SmallStays()
    ensures var m := map["a" := Small];
            && ShardKeys(TwoShards(), m, 0) == {"a"} && ShardKeys(TwoShards(), m, 1) == {}
            && O.SweepStale(m, {"a"}, {0}) == m && O.SweepStale(m, {}, {}) == m
  {
    assert !Small.replicas[0].Stale({0});
    assert O.Cleanup(Small, {0}) == Small;
  }

  lemma SweepLeads()
    ensures Leads(Preparing, SweepShard(0), Missed)
  {
    hide O.SweepStale, ShardKeys;
    hide ObjectStep, ObjectsEnabled, PutStep, PutsEnabled, MonitorStep, MonitorEnabled, MountsStep, MountsEnabled;
    SmallStays();
    assert Alive(Preparing) == {0};
    assert Preparing.jobs[0].missed + Preparing.pins == {0};
    assert Apply(TwoShards(), Preparing, SweepShard(0)).jobs == Missed.jobs;
  }

  lemma UnpinLeads()
    ensures Leads(Missed, Unpin(0), Unpinned0)
  {
    hide ObjectStep, ObjectsEnabled, PutStep, PutsEnabled, MonitorStep, MonitorEnabled, MountsStep, MountsEnabled;
    assert Missed.pins - {0} == {};
  }

  lemma PassLeads()
    ensures Leads(Unpinned0, SweepShard(0), Passed)
  {
    hide O.SweepStale, ShardKeys;
    hide ObjectStep, ObjectsEnabled, PutStep, PutsEnabled, MonitorStep, MonitorEnabled, MountsStep, MountsEnabled;
    SmallStays();
    assert Alive(Unpinned0) == {};
    assert Unpinned0.jobs[0].missed + Unpinned0.pins == {0};
    assert Apply(TwoShards(), Unpinned0, SweepShard(0)).jobs == Passed.jobs;
  }

  lemma CommittedIndexes()
    ensures S.CommitUnmount(Passed.seg, 1, 7, 10) == Ended.seg
  {
    assert S.RemoveFirst([1], 1) == [];
    var s := S.CommitUnmount(Passed.seg, 1, 7, 10);
    assert s.clientSegments == map[] && s.mounted == map[];
  }

  lemma CommitLeads()
    ensures Leads(Passed, CommitOne(0), Ended)
  {
    hide ObjectStep, ObjectsEnabled, PutStep, PutsEnabled, MonitorStep, MonitorEnabled, MountsStep, MountsEnabled;
    hide S.CommitUnmount;
    CommittedIndexes();
    assert Passed.jobs[0].items[1..] == [];
    assert Passed.leaked + {0} == {0};
    assert Apply(TwoShards(), Passed, CommitOne(0)).jobs == Ended.jobs;
    assert Apply(TwoShards(), Passed, CommitOne(0)).origin == Ended.origin;
  }

  lemma EndedLeaks()
    ensures Holds(Ended.objects["a"], 0) && LiveBytes(Ended) == 4 && Ended.seg.capacity == 0
  {
    assert Small.replicas[0].buffers[0].allocator == 0;
    assert ReplicaHolds(Small.replicas[0], 0);
    assert map["a" := Small] - {"a"} == map[];
    assert BufferBytes([Buffer(0, 0, 4)]) == 4;
    assert ReplicasBytes(Small.replicas) == 4;
  }

  lemma Follow(ops: seq<Op>, c: State, op: Op, c': State) returns (more: seq<Op>)
    requires Legal(TwoShards(), Initial, ops) && Run(TwoShards(), Initial, ops) == c && Leads(c, op, c')
    ensures more == ops + [op] && Legal(TwoShards(), Initial, more) && Run(TwoShards(), Initial, more) == c'
  {
    hide Enabled, Apply;
    Extend(TwoShards(), ops, op);
    more := ops + [op];
  }

  lemma WipeLeads()
    ensures Leads(Stored, RemoveExpired(0, 0), Stored.(objects := map[]))
  {
    hide PutStep, PutsEnabled, MonitorStep, MonitorEnabled, MountsStep, MountsEnabled, UnmountsStep, UnmountsEnabled;
    assert O.RemoveExpired(Stored.objects, ShardKeys(TwoShards(), Stored.objects, 0), 0) == map[];
  }

  // The put is done up to its emplace: the object is there, with a replica being written.
  lemma PutBegun() returns (ops: seq<Op>)
    ensures Legal(TwoShards(), Initial, ops) && Run(TwoShards(), Initial, ops) == Stored
  {
    hide Run, Legal, Leads;
    MountLeads();
    PutLeads();
    AllocateLeads();
    NoOps();
    ops := Follow([], Initial, MountBegin(7, Disk0), Locked);
    ops := Follow(ops, Locked, MountEnd, Up);
    ops := Follow(ops, Up, PutLock("a"), Asked);
    ops := Follow(ops, Asked, PutAllocate("a", Small, [L.Cut(0, 1)]), Granted);
    ops := Follow(ops, Granted, PutEmplace("a"), Stored);
  }

  // RemoveAll does not ask for statuses: after this run an object being written is there, and one
  // step of RemoveAll later it is gone.
  lemma RemoveAllTakesWrites() returns (ops: seq<Op>)
    ensures ConfigOk(TwoShards()) && Legal(TwoShards(), Initial, ops)
    ensures Enabled(TwoShards(), Run(TwoShards(), Initial, ops), RemoveExpired(0, 0))
    ensures var c := Run(TwoShards(), Initial, ops);
            && "a" in c.objects && c.objects["a"].replicas == [Memory([Buffer(0, 0, 4)], PROCESSING)]
            && "a" !in Apply(TwoShards(), c, RemoveExpired(0, 0)).objects
  {
    hide Run, Legal, Enabled, Apply;
    ops := PutBegun();
    WipeLeads();
  }

  // Without the side condition on pins the unmount is not clean: after this run the segment is
  // gone, its capacity is zero, and an object still has a buffer of it.
  lemma PinnedBufferSurvives() returns (ops: seq<Op>)
    ensures ConfigOk(TwoShards()) && Legal(TwoShards(), Initial, ops)
    ensures var c := Run(TwoShards(), Initial, ops);
            && c.seg.mounted == map[] && c.seg.capacity == 0
            && "a" in c.objects && Holds(c.objects["a"], 0) && LiveBytes(c) == 4
  {
    hide Run, Legal, Leads, Holds, LiveBytes;
    PinLeads();
    PrepareLeads();
    SweepLeads();
    UnpinLeads();
    PassLeads();
    CommitLeads();
    EndedLeaks();
    ops := PutBegun();
    ops := Follow(ops, Stored, Pin(0), Pinned);
    ops := Follow(ops, Pinned, UnmountBegin(0, 1, 7), Preparing);
    ops := Follow(ops, Preparing, SweepShard(0), Missed);
    ops := Follow(ops, Missed, Unpin(0), Unpinned0);
    ops := Follow(ops, Unpinned0, SweepShard(0), Passed);
    ops := Follow(ops, Passed, CommitOne(0), Ended);
  }

  lemma NoOps()
    ensures Legal(TwoShards(), Initial, []) && Run(TwoShards(), Initial, []) == Initial
  {}
}
