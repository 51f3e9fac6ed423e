/**
 BatchEvict as the master carries it out, loop by loop, from a random start shard,
 with its gauge of allocated bytes. The call is not interfered with.
 */
module EvictMaster {
  import opened Metadata
  import opened Selection
  import opened BatchEvict
  import opened EvictPasses
  import opened EvictOrder
  import opened EvictFront

  // One shard of the first pass, with the number of objects still missing.
  method FirstPassShard(shard: seq<Entry>, now: int, ideal: int) returns (w: Swept, noPin: seq<int>)
    ensures w == FirstShard(shard, now, ideal) && noPin == ShardNoPin(shard, now, ideal)
    ensures var C, U := Leases(shard, Candidate, now), Leases(shard, Unpinned, now);
      w.count == TakenFrom(C, U, ideal) && Leases(w.kept, Unpinned, now) == LeftIn(C, U, ideal)
    ensures Safe(shard, w.kept, now, false)
  {
    hide Sweep, Leases, AtMost, Above, NthSmallest, Safe, TakenFrom, LeftIn;
    FirstShardLeases(shard, now, ideal);
    FirstShardSafe(shard, now, ideal);
    var candidates := CollectLeases(shard, Candidate, now);
    if ideal <= 0 { return Swept(shard, 0, 0, 0), candidates; }
    if candidates == [] {
      NoCandidates(shard, now);
      return Swept(shard, 0, 0, 0), [];
    }
    var evictNum := MinOf(ideal, |candidates|);
    w := SweepShard(shard, First(NthSmallest(candidates, evictNum - 1)), now, |shard|);
    noPin := CollectLeases(w.kept, Unpinned, now);
  }

  lemma NoCandidates(s: seq<Entry>, now: int)
    requires Leases(s, Candidate, now) == []
    ensures Leases(s, Unpinned, now) == []
  {
    hide Leases;
    CandidatesSplit(s, now, 0);
  }

  method FirstPass(ss: Shards, now: int, allow: bool, target: real)
    returns (out: Shards, evicted: nat, freed: nat, released: nat, objectCount: nat, noPin: seq<int>, softPin: seq<int>)
    ensures Done(out, evicted, freed, released) == FirstAll(ss, now, target) && objectCount == EntryCount(ss)
    ensures noPin == NoPin(ss, now, target) && softPin == if allow then AllLeases(ss, PinnedCandidate, now) else []
    ensures |out| == |ss| && evicted == FirstTaken(ss, now, target)
    ensures forall i | 0 <= i < |ss| ::
      Leases(out[i], Unpinned, now) ==
        LeftIn(Leases(ss[i], Candidate, now), Leases(ss[i], Unpinned, now),
               Share(EntryCount(ss[..i + 1]), target) - FirstTaken(ss[..i], now, target))
    ensures DistinctLeases(ss, now) && target >= 0.0 ==> evicted <= Share(EntryCount(ss), target)
  {
    hide Leases, LeftIn, TakenFrom, AllLeases, EntryCount, Share, Distinct, FirstAll, FirstShard, ShardNoPin, NoPin,
      FirstTaken, Missing;
    out, evicted, freed, released, objectCount, noPin, softPin := [], 0, 0, 0, 0, [], [];
    NoFirst(now, target);
    assert ss[..0] == [];
    for i := 0 to |ss|
      invariant |out| == i && Done(out, evicted, freed, released) == FirstAll(ss[..i], now, target)
      invariant objectCount == EntryCount(ss[..i]) && noPin == NoPin(ss[..i], now, target)
      invariant softPin == if allow then AllLeases(ss[..i], PinnedCandidate, now) else []
    {
      var shard := ss[i];
      FirstNext(ss, i, now, target);
      objectCount := objectCount + |shard|;
      var ideal := Share(objectCount, target) - evicted;
      var w, more := FirstPassShard(shard, now, ideal);
      var soft := CollectLeases(shard, PinnedCandidate, now);
      out, evicted, freed, released := out + [w.kept], evicted + w.count, freed + w.freed, released + w.released;
      noPin := noPin + more;
      if allow { softPin := softPin + soft; }
    }
    assert ss[..|ss|] == ss;
    FirstCounts(ss, now, target);
    forall i | 0 <= i < |ss|
      ensures Leases(out[i], Unpinned, now) ==
        LeftIn(Leases(ss[i], Candidate, now), Leases(ss[i], Unpinned, now),
               Share(EntryCount(ss[..i + 1]), target) - FirstTaken(ss[..i], now, target))
    { FirstLeaves(ss, now, target, i); }
    if DistinctLeases(ss, now) && target >= 0.0 { FirstWithinTarget(ss, now, target); }
  }

  lemma NoFirst(now: int, target: real)
    ensures FirstAll([], now, target) == Done([], 0, 0, 0) && NoPin([], now, target) == []
    ensures EntryCount([]) == 0 && AllLeases([], PinnedCandidate, now) == []
  {}

  method SecondPass(ss: Shards, r: Rule, now: int, budget: nat)
    returns (out: Shards, count: nat, freed: nat, released: nat)
    requires !r.First? && RuleOk(r, now)
    ensures Done(out, count, freed, released) == SweepAll(ss, r, now, budget)
    ensures r.SecondA? ==>
      var L := AllLeases(ss, Unpinned, now);
      && count == MinOf(budget, AtMost(L, r.timeout))
      && (AllLeases(out, Unpinned, now) == Above(L, r.timeout) <==> AtMost(L, r.timeout) <= budget)
    ensures r.SecondB? ==>
      var U, P := AllLeases(ss, Unpinned, now), AllLeases(ss, Pinned, now);
      && count == MinOf(budget, |U| + AtMost(P, r.timeout))
      && ((AllLeases(out, Unpinned, now) == [] && AllLeases(out, Pinned, now) == Above(P, r.timeout)) <==>
            |U| + AtMost(P, r.timeout) <= budget)
  {
    hide Sweep, SweepAll, AllLeases, AtMost, Above;
    out, count, freed, released := [], 0, 0, 0;
    NothingSwept(r, now, budget);
    assert ss[..0] == [];
    for i := 0 to |ss|
      invariant |out| == i && Done(out, count, freed, released) == SweepAll(ss[..i], r, now, budget)
    {
      SweepAllLast(ss[..i + 1], r, now, budget);
      assert ss[..i + 1][..i] == ss[..i];
      var w := SweepShard(ss[i], r, now, budget - count);
      out, count, freed, released := out + [w.kept], count + w.count, freed + w.freed, released + w.released;
    }
    assert ss[..|ss|] == ss;
    if r.SecondA? {
      SweepAllA(ss, r.timeout, now, budget);
      AtMostSplits(AllLeases(ss, Unpinned, now), r.timeout);
    } else {
      SweepAllB(ss, r.timeout, now, budget);
      AtMostSplits(AllLeases(ss, Pinned, now), r.timeout);
    }
  }

  // Both passes. Safe, with exact bytes and an exact count; the promised minimum is met if and only
  // if bare candidates leave room; everything up to the threshold goes if and only if no ties are in
  // the way; and the order is kept if and only if what is urgent comes first.
  method EvictShards(ss: Shards, now: int, allow: bool, target: real, lowerbound: real)
    returns (out: Shards, evicted: nat, freed: nat, released: nat, objectCount: nat)
    ensures Done(out, evicted, freed, released) == EvictAll(ss, now, allow, target, lowerbound) &&
      objectCount == EntryCount(ss)
    ensures AllSafe(ss, out, now, allow) && ShardBytes(out) + released == ShardBytes(ss)
    ensures ShardsSizesOk(ss) ==> freed == released && ShardsSizesOk(out)
    ensures evicted >= Promised(ss, now, allow, lowerbound) <==>
      BareLeaveRoom(ListsOf(ss, now, allow, target), Need(ss, now, target, lowerbound))
    ensures NoneBare(ListsOf(ss, now, allow, target)) ==>
      evicted == Max(FirstTaken(ss, now, target), Promised(ss, now, allow, lowerbound))
    ensures var l, need := ListsOf(ss, now, allow, target), Need(ss, now, target, lowerbound);
      var mid := FirstAll(ss, now, target).out;
      && (OldestTaken(l, need, mid, out, now) <==> NoTiesBeyond(l, need))
      && FirstOnesTaken(l, need, mid, out, now)
      && (KeepsOrder(l, need, mid, out, now) <==> UrgentInFront(l, need, mid, now))
    ensures Distinct(AllLeases(ss, Unpinned, now)) && Distinct(AllLeases(ss, Pinned, now)) ==>
      OldestTaken(ListsOf(ss, now, allow, target), Need(ss, now, target, lowerbound), FirstAll(ss, now, target).out,
        out, now)
  {
    hide AllSafe, ShardsSizesOk, ShardBytes, Promised, BareLeaveRoom, NoneBare, OldestTaken, NoTiesBeyond, Distinct;
    hide FirstOnesTaken, KeepsOrder, UrgentInFront;
    hide FirstAll, SweepAll, AllLeases, NoPin, NoPinBare, NthSmallest, Share, EntryCount, FirstTaken, LeftIn, AtMost,
      Above;
    EvictAllSafe(ss, now, allow, target, lowerbound);
    BoundExactly(ss, now, allow, target, lowerbound);
    CutExactly(ss, now, allow, target, lowerbound);
    OrderExactly(ss, now, allow, target, lowerbound);
    if NoneBare(ListsOf(ss, now, allow, target)) { MemoryMeetsBound(ss, now, allow, target, lowerbound); }
    if Distinct(AllLeases(ss, Unpinned, now)) && Distinct(AllLeases(ss, Pinned, now)) {
      DistinctInOrder(ss, now, allow, target, lowerbound);
    }
    ghost var l, need := ListsOf(ss, now, allow, target), Need(ss, now, target, lowerbound);
    var noPin, softPin;
    out, evicted, freed, released, objectCount, noPin, softPin := FirstPass(ss, now, allow, target);
    var targetNum := MinOf(Share(objectCount, lowerbound) - evicted, |noPin| + |softPin|);
    assert targetNum == Aim(l, need);
    if targetNum > 0 {
      var count, more, gone;
      if targetNum <= |noPin| {
        CutsExpired(ss, now, allow, target, need);
        out, count, more, gone := SecondPass(out, SecondA(NthSmallest(noPin, targetNum - 1)), now, targetNum);
      } else if softPin != [] {
        var limit := NthSmallest(softPin, targetNum - |noPin| - 1);
        out, count, more, gone := SecondPass(out, SecondB(limit), now, targetNum);
      } else {
        // "This should not happen."
        assert false;
      }
      evicted, freed, released := evicted + count, freed + more, released + gone;
    }
  }

  // ---- shards visited from a random start ----

  lemma {:induction false} Concat(a: Shards, b: Shards, k: Kind, now: int)
    ensures AllLeases(a + b, k, now) == AllLeases(a, k, now) + AllLeases(b, k, now)
    ensures EntryCount(a + b) == EntryCount(a) + EntryCount(b)
    ensures ShardBytes(a + b) == ShardBytes(a) + ShardBytes(b)
  {
    hide Leases, EntryBytes, AllLeases, EntryCount, ShardBytes;
    NoShards(k, now, 0);
    if b == [] {
      assert a + b == a;
      assert AllLeases(a, k, now) + [] == AllLeases(a, k, now);
    } else {
      var c, last := b[..|b| - 1], b[|b| - 1];
      Concat(a, c, k, now);
      Snoc(a + c, last, k, now);
      Snoc(c, last, k, now);
      assert a + b == a + c + [last] && b == c + [last];
    }
  }

  function Rotate(ss: Shards, start: nat): Shards
    requires start <= |ss|
  {
    ss[start..] + ss[..start]
  }

  // The start shard changes neither what there is nor what is promised.
  lemma Rotated(ss: Shards, start: nat, now: int, allow: bool, lowerbound: real)
    requires start <= |ss|
    ensures var rs := Rotate(ss, start);
      && EntryCount(rs) == EntryCount(ss) && ShardBytes(rs) == ShardBytes(ss)
      && Promised(rs, now, allow, lowerbound) == Promised(ss, now, allow, lowerbound)
      && (DistinctLeases(ss, now) ==> DistinctLeases(rs, now)) && (ShardsSizesOk(ss) ==> ShardsSizesOk(rs))
    ensures forall k | Distinct(AllLeases(ss, k, now)) :: Distinct(AllLeases(Rotate(ss, start), k, now))
  {
    hide Leases, AllLeases, ShardBytes, EntryCount, DistinctLeases, ShardsSizesOk, Share, Distinct;
    var a, b := ss[..start], ss[start..];
    assert ss == a + b;
    forall k ensures AllLeases(ss, k, now) == AllLeases(a, k, now) + AllLeases(b, k, now)
      && AllLeases(Rotate(ss, start), k, now) == AllLeases(b, k, now) + AllLeases(a, k, now)
      && EntryCount(Rotate(ss, start)) == EntryCount(ss) && ShardBytes(Rotate(ss, start)) == ShardBytes(ss)
    {
      Concat(a, b, k, now);
      Concat(b, a, k, now);
    }
    assert AllLeases(ss, Unpinned, now) == AllLeases(a, Unpinned, now) + AllLeases(b, Unpinned, now);
    RotatedAll(ss, start, now);
    forall k | Distinct(AllLeases(ss, k, now)) ensures Distinct(AllLeases(Rotate(ss, start), k, now)) {
      DistinctParts(AllLeases(a, k, now), AllLeases(b, k, now));
      DistinctJoin(AllLeases(b, k, now), AllLeases(a, k, now));
    }
  }

  lemma RotatedAll(ss: Shards, start: nat, now: int)
    requires start <= |ss|
    ensures var rs := Rotate(ss, start);
      (DistinctLeases(ss, now) ==> DistinctLeases(rs, now)) && (ShardsSizesOk(ss) ==> ShardsSizesOk(rs))
  {
    hide Leases, Distinct, AllSizesOk;
    var rs := Rotate(ss, start);
    assert forall i | 0 <= i < |rs| :: rs[i] == ss[if i < |ss| - start then i + start else i - (|ss| - start)];
  }

  lemma RotatedBack(ss: Shards, out: Shards, start: nat, now: int, allow: bool)
    requires start <= |ss| && AllSafe(Rotate(ss, start), out, now, allow)
    ensures |out| == |ss| && AllSafe(ss, Rotate(out, |ss| - start), now, allow)
    ensures ShardBytes(Rotate(out, |ss| - start)) == ShardBytes(out)
    ensures ShardsSizesOk(out) ==> ShardsSizesOk(Rotate(out, |ss| - start))
  {
    hide Safe, ShardBytes, AllSizesOk, AllLeases, EntryCount;
    var rs, back := Rotate(ss, start), Rotate(out, |ss| - start);
    forall i | 0 <= i < |ss| ensures Safe(ss[i], back[i], now, allow) && back[i] in out {
      var j := if i < start then i + |ss| - start else i - start;
      assert rs[j] == ss[i] && back[i] == out[j];
    }
    var a, b := out[..|ss| - start], out[|ss| - start..];
    assert out == a + b;
    Concat(a, b, Unpinned, now);
    Concat(b, a, Unpinned, now);
    RotatedAll(out, |ss| - start, now);
  }

  class EvictionMaster {
    const allowEvictSoftPinned: bool
    var shards: Shards
    var gauge: int
    var needEviction: bool

    // The gauge counts the bytes of the buffers that exist, and every memory replica has the size
    // of its object.
    ghost predicate Valid()
      reads this
    {
      gauge == ShardBytes(shards) && ShardsSizesOk(shards)
    }

    constructor (shards: Shards, allow: bool, gauge: int)
      requires gauge == ShardBytes(shards) && ShardsSizesOk(shards)
      ensures Valid() && this.shards == shards && this.gauge == gauge && allowEvictSoftPinned == allow
    {
      this.shards, allowEvictSoftPinned, this.gauge, needEviction := shards, allow, gauge, false;
    }

    method BatchEvict(target: real, lowerbound: real, now: int, startIdx: nat) returns (evicted: nat, freed: nat)
      requires Valid() && startIdx < |shards|
      modifies this
      ensures Valid() && AllSafe(old(shards), shards, now, allowEvictSoftPinned)
      ensures freed == old(gauge) - gauge
      ensures var rs, lower := Rotate(old(shards), startIdx), if target < lowerbound then target else lowerbound;
              var d := EvictAll(rs, now, allowEvictSoftPinned, target, lower);
              var l, need := ListsOf(rs, now, allowEvictSoftPinned, target), Need(rs, now, target, lower);
        && |d.out| == |old(shards)| && shards == Rotate(d.out, |d.out| - startIdx) && evicted == d.count
        && (evicted >= Promised(old(shards), now, allowEvictSoftPinned, lower) <==> BareLeaveRoom(l, need))
        && (NoneBare(l) ==> evicted == Max(FirstTaken(rs, now, target),
             Promised(old(shards), now, allowEvictSoftPinned, lower)))
        && (OldestTaken(l, need, FirstAll(rs, now, target).out, d.out, now) <==> NoTiesBeyond(l, need))
        && FirstOnesTaken(l, need, FirstAll(rs, now, target).out, d.out, now)
        && (KeepsOrder(l, need, FirstAll(rs, now, target).out, d.out, now) <==>
              UrgentInFront(l, need, FirstAll(rs, now, target).out, now))
        && (Distinct(AllLeases(old(shards), Unpinned, now)) && Distinct(AllLeases(old(shards), Pinned, now)) ==>
              OldestTaken(l, need, FirstAll(rs, now, target).out, d.out, now))
        && (DistinctLeases(old(shards), now) && target >= 0.0 ==>
              FirstTaken(rs, now, target) <= Share(EntryCount(old(shards)), target))
      ensures needEviction == (if evicted > 0 || EntryCount(old(shards)) == 0 then false else old(needEviction))
    {
      hide AllSafe, Share, EntryCount, ShardBytes, ShardsSizesOk, DistinctLeases, Distinct, AllLeases, Rotate,
        FirstTaken, FirstAll;
      hide Promised, BareLeaveRoom, NoneBare, OldestTaken, NoTiesBeyond, EvictAll, ListsOf, Need;
      hide FirstOnesTaken, KeepsOrder, UrgentInFront;
      var lower := if target < lowerbound then target else lowerbound;
      ghost var ss := shards;
      Rotated(shards, startIdx, now, allowEvictSoftPinned, lower);
      var rs := Rotate(shards, startIdx);
      if DistinctLeases(ss, now) && target >= 0.0 { FirstWithinTarget(rs, now, target); }
      var out, released, objectCount;
      out, evicted, freed, released, objectCount := EvictShards(rs, now, allowEvictSoftPinned, target, lower);
      RotatedBack(ss, out, startIdx, now, allowEvictSoftPinned);
      shards := Rotate(out, |shards| - startIdx);
      gauge := gauge - released;
      if evicted > 0 || objectCount == 0 { needEviction := false; }
    }
  }
}
