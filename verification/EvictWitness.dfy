/**
 Two inputs of BatchEvict: one where a candidate without a memory replica keeps
 the lower bound from being met, and one where equal leases let an older object
 stay while younger ones go.
 */
module EvictWitness {
  import opened Metadata
  import opened Options
  import opened Selection
  import opened BatchEvict
  import opened EvictPasses
  import opened EvictOrder
  import opened EvictFront

  function OnDisk(key: string, lease: int): Entry {
    Entry(key, Object([Disk(1, COMPLETE)], 1, lease, None))
  }

  function Cached(key: string, lease: int): Entry {
    Entry(key, Object([Memory([Buffer(0, 0, 1)], COMPLETE)], 1, lease, None))
  }

  // n objects under lease until 100.
  function Leased(n: nat): seq<Entry> {
    seq(n, i requires 0 <= i < n => Cached(seq(i, _ => 'x'), 100))
  }

  lemma CachedFacts(key: string, lease: int)
    ensures Matches(Unpinned, Cached(key, lease).obj, 10) <==> lease <= 10
    ensures Matches(Candidate, Cached(key, lease).obj, 10) <==> lease <= 10
    ensures !Matches(Bare, Cached(key, lease).obj, 10) && !Matches(Pinned, Cached(key, lease).obj, 10)
    ensures Strip(Cached(key, lease)) == []
    ensures forall t :: Evicts(SecondA(t), Cached(key, lease).obj, 10) <==> lease <= t
    ensures forall t :: Evicts(First(t), Cached(key, lease).obj, 10) <==> lease <= t && lease <= 10
  {
    var o := Cached(key, lease).obj;
    assert o.replicas[0].Memory?;
    assert o.replicas[..0] == [];
  }

  lemma OnDiskFacts(key: string, lease: int)
    requires lease <= 10
    ensures Matches(Candidate, OnDisk(key, lease).obj, 10) && Matches(Bare, OnDisk(key, lease).obj, 10)
    ensures !Matches(Unpinned, OnDisk(key, lease).obj, 10) && !Matches(Pinned, OnDisk(key, lease).obj, 10)
  {
    var o := OnDisk(key, lease).obj;
    assert forall i | 0 <= i < |o.replicas| :: o.replicas[i].Disk?;
  }

  lemma {:induction false} NoneMatch(s: seq<Entry>, k: Kind)
    requires forall i | 0 <= i < |s| :: !Matches(k, s[i].obj, 10)
    ensures Leases(s, k, 10) == []
  {
    hide Matches;
    if s != [] { NoneMatch(s[..|s| - 1], k); }
  }

  lemma {:induction false} NoneGo(s: seq<Entry>, r: Rule, budget: int)
    requires forall i | 0 <= i < |s| :: !Evicts(r, s[i].obj, 10)
    ensures Sweep(s, r, 10, budget) == Swept(s, 0, 0, 0)
  {
    hide Evicts;
    if s != [] {
      NoneGo(s[..|s| - 1], r, budget);
      assert s[..|s| - 1] + [s[|s| - 1]] == s;
    }
  }

  lemma LeasedFacts(n: nat)
    ensures Leases(Leased(n), Candidate, 10) == [] && Leases(Leased(n), Unpinned, 10) == [] && |Leased(n)| == n
  {
    hide Matches, Leases;
    forall i | 0 <= i < n ensures !Matches(Candidate, Leased(n)[i].obj, 10) &&
      !Matches(Unpinned, Leased(n)[i].obj, 10) {
      CachedFacts(seq(i, _ => 'x'), 100);
    }
    NoneMatch(Leased(n), Candidate);
    NoneMatch(Leased(n), Unpinned);
  }

  lemma LeasedStay(n: nat, t: int, budget: int)
    requires t < 100
    ensures Sweep(Leased(n), SecondA(t), 10, budget) == Swept(Leased(n), 0, 0, 0)
  {
    hide Evicts, Sweep;
    forall i | 0 <= i < n ensures !Evicts(SecondA(t), Leased(n)[i].obj, 10) { CachedFacts(seq(i, _ => 'x'), 100); }
    NoneGo(Leased(n), SecondA(t), budget);
  }

  lemma Triple(a: seq<Entry>, b: seq<Entry>, c: seq<Entry>)
    ensures ([] + [a] + [b]) + [c] == [a, b, c]
  {}

  // The first shard of both inputs loses its one object, of lease 1.
  lemma OldestGoes(key: string)
    ensures Leases([Cached(key, 1)], Candidate, 10) == [1] && Leases([Cached(key, 1)], Unpinned, 10) == [1]
    ensures FirstShard([Cached(key, 1)], 10, 1).kept == [] && FirstShard([Cached(key, 1)], 10, 1).count == 1
  {
    CachedFacts(key, 1);
    var e := Cached(key, 1);
    hide Matches, Evicts, Strip;
    assert [e][..0] == [];
    assert Leases([e], Candidate, 10) == [1];
    assert Cut([1], 1) == 1 by { assert NthSmallest([1], 0) == 1; }
    var none: seq<Entry> := [];
    assert none + Strip(e) == [];
    assert Evicts(First(1), e.obj, 10);
    assert Sweep([e], First(1), 10, 1).kept == none + Strip(e);
  }

  lemma Shares()
    ensures Share(1, 0.1) == 1 && Share(3, 0.1) == 1 && Share(4, 0.1) == 1 && Share(11, 0.1) == 2 && Share(21, 0.1) == 3
  {
    assert -(1.0 * 0.1) == -0.1 && -(3.0 * 0.1) == -0.3 && -(4.0 * 0.1) == -0.4;
    assert -(11.0 * 0.1) == -1.1 && -(21.0 * 0.1) == -2.1;
  }

  // The first pass over three shards: one object in the first, a second one that is passed over, and
  // one without candidates.
  lemma FirstOver(key: string, s: seq<Entry>, n: nat)
    requires (|s| == 2 && n == 8) || (|s| == 3 && n == 17)
    ensures var ss := [[Cached(key, 1)], s, Leased(n)];
      && FirstAll(ss, 10, 0.1).out == [[], s, Leased(n)] && FirstAll(ss, 10, 0.1).count == 1
      && NoPin(ss, 10, 0.1) == Leases(s, Candidate, 10) && EntryCount(ss) == 1 + |s| + n
  {
    hide *;
    var a, c := [Cached(key, 1)], Leased(n);
    LeasedFacts(n);
    StepOne(key);
    StepTwo([] + [a], s);
    StepThree([] + [a] + [s], c);
    Triple(a, s, c);
    Triple([], s, c);
  }

  lemma StepOne(key: string)
    ensures var p: Shards := [] + [[Cached(key, 1)]];
      FirstAll(p, 10, 0.1).out == [] + [[]] && FirstAll(p, 10, 0.1).count == 1 && NoPin(p, 10, 0.1) == [] &&
        EntryCount(p) == 1
  {
    hide Leases, FirstShard, ShardNoPin, Share, FirstAll, NoPin, EntryCount, Sweep;
    OldestGoes(key);
    Shares();
    FirstNone();
    FirstSnoc([], [Cached(key, 1)], 10, 0.1);
    FirstListed([Cached(key, 1)]);
  }

  // A shard that is passed over lists all its candidates.
  lemma StepTwo(p: Shards, s: seq<Entry>)
    requires FirstAll(p, 10, 0.1).count == 1 && NoPin(p, 10, 0.1) == [] && EntryCount(p) == 1 && 2 <= |s| <= 3
    ensures var f := FirstAll(p + [s], 10, 0.1);
      && f.out == FirstAll(p, 10, 0.1).out + [s] && f.count == 1
      && NoPin(p + [s], 10, 0.1) == Leases(s, Candidate, 10) && EntryCount(p + [s]) == 1 + |s|
  {
    hide Leases, FirstShard, ShardNoPin, Share, FirstAll, NoPin, EntryCount;
    Shares();
    FirstSnoc(p, s, 10, 0.1);
    PassedList(s);
  }

  // A shard without candidates changes nothing.
  lemma StepThree(q: Shards, c: seq<Entry>)
    requires Leases(c, Candidate, 10) == [] && Leases(c, Unpinned, 10) == []
    ensures var f, g := FirstAll(q, 10, 0.1), FirstAll(q + [c], 10, 0.1);
      && g.out == f.out + [c] && g.count == f.count
      && NoPin(q + [c], 10, 0.1) == NoPin(q, 10, 0.1) && EntryCount(q + [c]) == EntryCount(q) + |c|
  {
    hide Leases, FirstShard, ShardNoPin, Share, FirstAll, NoPin, EntryCount;
    FirstSnoc(q, c, 10, 0.1);
    NoCandidatesLeft(c, Share(EntryCount(q) + |c|, 0.1) - FirstAll(q, 10, 0.1).count);
  }

  lemma LeasesOver(key: string, s: seq<Entry>, n: nat)
    ensures AllLeases([[], s, Leased(n)], Unpinned, 10) == Leases(s, Unpinned, 10)
    ensures AllLeases([[Cached(key, 1)], s, Leased(n)], Unpinned, 10) == [1] + Leases(s, Unpinned, 10)
  {
    hide Leases, AllLeases, FirstShard, Leased, Cached, Sweep;
    OldestGoes(key);
    LeasedFacts(n);
    EmptyLeases(Unpinned, 10);
    ThreeShards([], s, Leased(n));
    ThreeShards([Cached(key, 1)], s, Leased(n));
    var L := Leases(s, Unpinned, 10);
    assert [] + L + [] == L && [1] + L + [] == [1] + L;
  }

  lemma ThreeShards(a: seq<Entry>, b: seq<Entry>, c: seq<Entry>)
    ensures AllLeases([a, b, c], Unpinned, 10) == Leases(a, Unpinned, 10) + Leases(b, Unpinned, 10) +
      Leases(c, Unpinned, 10)
  {
    hide Leases, AllLeases;
    var none: Shards := [];
    NoShards(Unpinned, 10, 0);
    Snoc(none, a, Unpinned, 10);
    Snoc(none + [a], b, Unpinned, 10);
    Snoc(none + [a] + [b], c, Unpinned, 10);
    assert none + [a] + [b] + [c] == [a, b, c];
    assert [] + Leases(a, Unpinned, 10) == Leases(a, Unpinned, 10);
  }

  lemma FirstNone()
    ensures FirstAll([], 10, 0.1) == Done([], 0, 0, 0) && NoPin([], 10, 0.1) == [] && EntryCount([]) == 0
  {}

  lemma NoCandidatesLeft(s: seq<Entry>, ideal: int)
    requires Leases(s, Candidate, 10) == [] && Leases(s, Unpinned, 10) == []
    ensures FirstShard(s, 10, ideal) == Swept(s, 0, 0, 0) && ShardNoPin(s, 10, ideal) == []
  {}

  lemma PassedList(s: seq<Entry>)
    ensures ShardNoPin(s, 10, 0) == Leases(s, Candidate, 10) && FirstShard(s, 10, 0) == Swept(s, 0, 0, 0)
  {}

  lemma FirstListed(a: seq<Entry>)
    requires FirstShard(a, 10, 1).kept == []
    ensures ShardNoPin(a, 10, 1) == []
  {
    hide FirstShard;
  }

  // ---- a bare candidate in the way ----

  function BareInput(): Shards {
    [[Cached("a", 1)], [OnDisk("b", 0), Cached("c", 5)], Leased(8)]
  }

  lemma BareShard()
    ensures var s := [OnDisk("b", 0), Cached("c", 5)];
      Leases(s, Candidate, 10) == [0, 5] && Leases(s, Unpinned, 10) == [5]
  {
    CachedFacts("c", 5);
    OnDiskFacts("b", 0);
    var d, m := OnDisk("b", 0), Cached("c", 5);
    hide Matches, Leases;
    var none: seq<Entry> := [];
    assert none + [d] == [d] && [d] + [m] == [d, m];
    EmptyLeases(Candidate, 10);
    EmptyLeases(Unpinned, 10);
    LeasesAppend(none, d, Candidate, 10);
    LeasesAppend(none, d, Unpinned, 10);
    LeasesAppend([d], m, Candidate, 10);
    LeasesAppend([d], m, Unpinned, 10);
  }

  lemma LowestOfTwo()
    ensures NthSmallest([0, 5], 0) == 0 && AtMost([5], 0) == 0
  {
    hide NthSmallest;
    assert [0, 5][..1] == [0] && [0][..0] == [] && [5][..0] == [];
    assert AtMost([0], 0) == 1 && Below([0], 0) == 0;
    assert [0, 5][0] == 0;
    NthUnique([0, 5], 0, 0);
  }

  // One object is evicted where two are promised and two could go: the candidate on disk takes up
  // the threshold of pass A.
  lemma DiskOnlyCandidateBlocks()
    ensures var d := EvictAll(BareInput(), 10, true, 0.1, 0.1);
      d.count == 1 && Promised(BareInput(), 10, true, 0.1) == 2
    ensures !BareLeaveRoom(ListsOf(BareInput(), 10, true, 0.1), Need(BareInput(), 10, 0.1, 0.1))
  {
    hide Leases, FirstAll, NoPin, NoPinBare, AllLeases, EntryCount, Share, NthSmallest, AtMost, FirstTaken, SweepAll,
      BareLeaveRoom;
    var ss := BareInput();
    BareShard();
    FirstOver("a", ss[1], 8);
    LeasesOver("a", ss[1], 8);
    NonePinned(ss);
    Shares();
    LowestOfTwo();
    FirstCounts(ss, 10, 0.1);
    EvictCounts(ss, 10, true, 0.1, 0.1);
    BoundExactly(ss, 10, true, 0.1, 0.1);
  }

  // ---- ties ----

  function TieInput(): Shards {
    [[Cached("a", 1)], [Cached("b", 5), Cached("c", 5), Cached("d", 3)], Leased(17)]
  }

  ghost predicate OnlyPlain(ss: Shards) {
    forall i, j | 0 <= i < |ss| && 0 <= j < |ss[i]| :: ss[i][j].obj.softPin == None
  }

  lemma {:induction false} NonePinned(ss: Shards)
    requires OnlyPlain(ss)
    ensures AllLeases(ss, Pinned, 10) == [] && AllLeases(ss, PinnedCandidate, 10) == []
  {
    hide Leases;
    if ss != [] {
      NonePinned(ss[..|ss| - 1]);
      var s := ss[|ss| - 1];
      NoneMatch(s, Pinned);
      NoneMatch(s, PinnedCandidate);
    }
  }

  lemma TieShard()
    ensures var s := [Cached("b", 5), Cached("c", 5), Cached("d", 3)];
      && Leases(s, Candidate, 10) == [5, 5, 3] && Leases(s, Unpinned, 10) == [5, 5, 3]
      && Sweep(s, SecondA(5), 10, 2).kept == [Cached("d", 3)] && Sweep(s, SecondA(5), 10, 2).count == 2
  {
    hide Matches, Evicts, Strip, FreedBy, Leases, Sweep, Cached;
    CachedFacts("b", 5);
    CachedFacts("c", 5);
    CachedFacts("d", 3);
    LeaseOf("b", 5);
    LeaseOf("c", 5);
    LeaseOf("d", 3);
    var b, c, d := Cached("b", 5), Cached("c", 5), Cached("d", 3);
    var none: seq<Entry> := [];
    assert none + [b] + [c] + [d] == [b, c, d];
    forall k | k == Candidate || k == Unpinned ensures Leases([b, c, d], k, 10) == [5, 5, 3] {
      EmptyLeases(k, 10);
      LeasesAppend(none, b, k, 10);
      LeasesAppend(none + [b], c, k, 10);
      LeasesAppend(none + [b] + [c], d, k, 10);
    }
    NoneGo(none, SecondA(5), 2);
    SweepAppend(none, b, SecondA(5), 10, 2);
    assert Evicts(SecondA(5), b.obj, 10) && Evicts(SecondA(5), c.obj, 10);
    SweepAppend(none + [b], c, SecondA(5), 10, 2);
    SweepAppend(none + [b] + [c], d, SecondA(5), 10, 2);
    assert none + Strip(b) + Strip(c) + [d] == [d];
  }

  lemma LeaseOf(key: string, lease: int)
    ensures Cached(key, lease).obj.lease == lease
  {}

  lemma SecondOfTies()
    ensures NthSmallest([5, 5, 3], 1) == 5
  {
    hide NthSmallest;
    assert [5, 5, 3][..2] == [5, 5] && [5, 5][..1] == [5] && [5][..0] == [];
    assert AtMost([5], 5) == 1 && Below([5], 5) == 0;
    assert AtMost([5, 5], 5) == 2 && Below([5, 5], 5) == 0;
    assert [5, 5, 3][0] == 5;
    NthUnique([5, 5, 3], 1, 5);
  }

  // Two objects of lease 5 go and the older one of lease 3 stays.
  lemma TiesBreakTheOrder()
    ensures var d := EvictAll(TieInput(), 10, true, 0.1, 0.1);
      d.count == 3 && d.out == [[], [Cached("d", 3)], Leased(17)]
    ensures var l, need := ListsOf(TieInput(), 10, true, 0.1), Need(TieInput(), 10, 0.1, 0.1);
      !KeepsOrder(l, need, FirstAll(TieInput(), 10, 0.1).out, EvictAll(TieInput(), 10, true, 0.1, 0.1).out, 10)
  {
    hide AllMarks, InOrder, InFront, NumEligible;
    hide Leases, FirstAll, NoPin, NoPinBare, AllLeases, EntryCount, Share, NthSmallest, Sweep, SweepAll;
    var ss := TieInput();
    TieShard();
    FirstOver("a", ss[1], 17);
    LeasesOver("a", ss[1], 17);
    NonePinned(ss);
    Shares();
    SecondOfTies();
    TieSweep();
    TieMarks();
    OrderExactly(ss, 10, true, 0.1, 0.1);
  }

  // The older object is visited after the two that the pass aims at.
  lemma TieMarks()
    ensures !InFront(AllMarks([[], [Cached("b", 5), Cached("c", 5), Cached("d", 3)], Leased(17)], 10), SecondA(5), 2)
  {
    hide Matches, Marks, MarkOf, Cached, AllMarks, Leased;
    var b, c, d := Cached("b", 5), Cached("c", 5), Cached("d", 3);
    CachedMark("b", 5);
    CachedMark("c", 5);
    CachedMark("d", 3);
    var none: seq<Entry>, shards: Shards := [], [];
    assert none + [b] + [c] + [d] == [b, c, d];
    NoMarks(10, SecondA(5), 2);
    StripMarks(none, b, 10);
    StripMarks(none + [b], c, 10);
    StripMarks(none + [b] + [c], d, 10);
    LeasedMarks(17);
    var L := Leased(17);
    assert [none][..0] == shards && [none, [b, c, d]][..1] == [none] && [none, [b, c, d], L][..2] == [none, [b, c, d]];
    AllMarksLast([none], 10);
    AllMarksLast([none, [b, c, d]], 10);
    AllMarksLast([none, [b, c, d], L], 10);
    var M := [Mark(false, 5), Mark(false, 5), Mark(false, 3)];
    assert Marks([b, c, d], 10) == M;
    assert AllMarks([none, [b, c, d], L], 10) == M;
    assert M[..2] == [Mark(false, 5), Mark(false, 5)] && M[..2][..1] == [Mark(false, 5)] && M[..2][..1][..0] == [];
    assert NumEligible(M[..2], SecondA(5)) == 2;
    assert Urgent(SecondA(5), M[2]);
  }

  lemma CachedMark(key: string, lease: int)
    requires lease <= 10
    ensures MarkOf(Cached(key, lease).obj, 10) == [Mark(false, lease)]
  {
    var o := Cached(key, lease).obj;
    assert o.replicas[0].Memory?;
  }

  lemma {:induction false} LeasedMarks(n: nat)
    ensures Marks(Leased(n), 10) == []
  {
    if n > 0 {
      LeasedMarks(n - 1);
      assert Leased(n)[..n - 1] == Leased(n - 1);
    }
  }

  lemma TieSweep()
    ensures var s := [Cached("b", 5), Cached("c", 5), Cached("d", 3)];
      var w := SweepAll([[], s, Leased(17)], SecondA(5), 10, 2);
      w.out == [[], [Cached("d", 3)], Leased(17)] && w.count == 2
  {
    hide Leases, Sweep, SweepAll;
    var s, c := [Cached("b", 5), Cached("c", 5), Cached("d", 3)], Leased(17);
    TieShard();
    LeasedStay(17, 5, 0);
    var e: seq<Entry>, none: Shards := [], [];
    NoneGo(e, SecondA(5), 2);
    NothingSwept(SecondA(5), 10, 2);
    assert [e][..0] == none && [e, s][..1] == [e] && [e, s, c][..2] == [e, s];
    assert none + [e] == [e];
    SweepAllLast([e], SecondA(5), 10, 2);
    SweepAllLast([e, s], SecondA(5), 10, 2);
    SweepAllLast([e, s, c], SecondA(5), 10, 2);
  }
}
