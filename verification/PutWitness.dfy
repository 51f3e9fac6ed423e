/**
 A run in which a put succeeds and installs nothing: the entry of its key was
 emptied, because its segment is being unmounted, but is still there.
 */
module PutWitness {
  import opened Metadata
  import opened Options
  import opened ByteSums
  import opened Cluster
  import opened RunWitness
  import O = ObjectOps
  import S = Segments
  import G = Grants
  import L = LiveGrants

  const Disk1 := S.Segment(2, "other", 20, 10)
  const Unmounting0 := S.Mounted(Disk0, S.UNMOUNTING, None)
  const Emptied := Small.(replicas := [])

  // The segment of the object is being unmounted, another one is mounted ...
  const Dying := Stored.(seg := Preparing.seg, jobs := Preparing.jobs)
  const Relocked := Dying.(lock := Mounting(8, Disk1))
  const Two := Dying.(
    seg := S.Indexes([1], map["other" := [1]], map[1 := Unmounting0, 2 := S.Mounted(Disk1, S.OK, Some(1))],
                     map[7 := [1], 8 := [2]], 20),
    heaps := Cut0[1 := TenFree(20)],
    origin := map[1 := Origin(7, 0), 2 := Origin(8, 1)], made := 2)
  // ... and the key is put again.
  const Reasked := Two.(objects := map["a" := Emptied], puts := map["a" := NothingYet])
  const Regranted := Reasked.(puts := map["a" := FourBytes(1)], heaps := Two.heaps[1 := TenCut(20)])
  const Unchanged := Regranted.(puts := map[])

  lemma DyingLeads()
    ensures Leads(Stored, UnmountBegin(0, 1, 7), Dying)
  {
    hide ObjectStep, ObjectsEnabled, PutStep, PutsEnabled, MonitorStep, MonitorEnabled, MountsStep, MountsEnabled;
    hide S.PrepareUnmount, S.PrepareError;
    PreparedIndexes();
    var empty: seq<Item> := [];
    assert empty + [Item(1, 7, 10)] == [Item(1, 7, 10)];
    assert Apply(TwoShards(), Stored, UnmountBegin(0, 1, 7)).jobs == Dying.jobs;
  }

  lemma SecondIndexes()
    ensures S.MountError(Relocked.seg, Disk1) == S.SUCCESS && S.Mount(Relocked.seg, Disk1, 8, 1) == Two.seg
  {
    var empty: seq<nat> := [];
    assert empty + [1] == [1] && empty + [2] == [2];
    var s := S.Mount(Relocked.seg, Disk1, 8, 1);
    assert s.byName == Two.seg.byName && s.mounted == Two.seg.mounted && s.clientSegments == Two.seg.clientSegments;
  }

  lemma SecondLeads()
    ensures Leads(Dying, MountBegin(8, Disk1), Relocked) && Leads(Relocked, MountEnd, Two)
  {
    hide S.Mount, S.MountError, G.NewHeap;
    hide ObjectStep, ObjectsEnabled, PutStep, PutsEnabled, MonitorStep, MonitorEnabled, UnmountsStep, UnmountsEnabled;
    SmallHeap(20);
    SecondIndexes();
    assert Apply(TwoShards(), Relocked, MountEnd).origin == Two.origin;
    assert Apply(TwoShards(), Relocked, MountEnd).heaps == Two.heaps;
  }

  lemma ReaskLeads()
    ensures Leads(Two, PutLock("a"), Reasked)
  {
    hide ObjectStep, ObjectsEnabled, MonitorStep, MonitorEnabled, MountsStep, MountsEnabled, UnmountsStep,
      UnmountsEnabled;
    assert Alive(Two) == {1};
    assert Small.replicas[0].buffers[0].allocator !in {1};
    assert O.Cleanup(Small, {1}) == Emptied;
    assert O.PutCheck(Two.objects, "a", {1}) == Reasked.objects;
    assert Two.puts["a" := NothingYet] == Reasked.puts;
  }

  lemma RegrantLeads()
    ensures Leads(Reasked, PutAllocate("a", FourBytes(1), [L.Cut(0, 1)]), Regranted)
  {
    hide ObjectStep, ObjectsEnabled, MonitorStep, MonitorEnabled, MountsStep, MountsEnabled, UnmountsStep,
      UnmountsEnabled;
    hide L.CanGrant, L.GrantAll, Allocated;
    FourAllocated(Reasked, 1, 20);
    FourGranted(Reasked.heaps, 1, 20);
    assert Reasked.puts["a" := FourBytes(1)] == Regranted.puts;
  }

  lemma UnchangedLeads()
    ensures Leads(Regranted, PutEmplace("a"), Unchanged)
  {
    hide ObjectStep, ObjectsEnabled, MonitorStep, MonitorEnabled, MountsStep, MountsEnabled, UnmountsStep,
      UnmountsEnabled;
    assert Regranted.puts - {"a"} == map[];
  }

  // The put was granted its buffers and emplaced, and the key has an entry without replicas.
  lemma PutInstallsNothing() returns (ops: seq<Op>)
    ensures ConfigOk(TwoShards()) && Legal(TwoShards(), Initial, ops + [PutEmplace("a")])
    ensures Legal(TwoShards(), Initial, ops)
    ensures var c := Run(TwoShards(), Initial, ops); "a" in c.puts && c.puts["a"] == FourBytes(1)
    ensures var c := Run(TwoShards(), Initial, ops + [PutEmplace("a")]);
            "a" !in c.puts && "a" in c.objects && c.objects["a"].replicas == []
  {
    hide Run, Legal, Leads;
    DyingLeads();
    SecondLeads();
    ReaskLeads();
    RegrantLeads();
    UnchangedLeads();
    ops := PutBegun();
    ops := Follow(ops, Stored, UnmountBegin(0, 1, 7), Dying);
    ops := Follow(ops, Dying, MountBegin(8, Disk1), Relocked);
    ops := Follow(ops, Relocked, MountEnd, Two);
    ops := Follow(ops, Two, PutLock("a"), Reasked);
    ops := Follow(ops, Reasked, PutAllocate("a", FourBytes(1), [L.Cut(0, 1)]), Regranted);
    var all := Follow(ops, Regranted, PutEmplace("a"), Unchanged);
  }

  // A revoke that is accepted takes an object without bytes, and with it a replica that is complete.
  lemma RevokeTakesComplete()
    ensures var m: Objects := map["a" := Object([Memory([], PROCESSING), Disk(0, COMPLETE)], 0, 0, None)];
      O.PutRevokeStatus(m, "a", MEMORY, {}) == O.OK && "a" !in O.PutRevoke(m, "a", MEMORY, {})
  {
    var o := Object([Memory([], PROCESSING), Disk(0, COMPLETE)], 0, 0, None);
    assert !o.replicas[0].Stale({}) && !o.replicas[1].Stale({});
    assert o.replicas[..1] == [o.replicas[0]] && [o.replicas[0]][..0] == [];
    assert O.Live([o.replicas[0]], {}) == [o.replicas[0]];
    assert O.Cleanup(o, {}) == o;
  }
}
