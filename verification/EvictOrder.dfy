/**
 What the passes of BatchEvict take, in terms of lists of leases: how many, exactly
 when the lower bound is met, and when everything up to the threshold goes.
 */
module EvictOrder {
  import opened Metadata
  import opened Selection
  import opened BatchEvict
  import opened EvictPasses

  // ---- the first pass ----

  // What a shard with candidates C, of which U can be evicted, gives and keeps when `ideal` are missing.
  ghost function TakenFrom(C: seq<int>, U: seq<int>, ideal: int): nat {
    if ideal <= 0 || C == [] then 0 else AtMost(U, Cut(C, ideal))
  }

  ghost function LeftIn(C: seq<int>, U: seq<int>, ideal: int): seq<int> {
    if ideal <= 0 || C == [] then U else Above(U, Cut(C, ideal))
  }

  lemma FirstShardLeases(s: seq<Entry>, now: int, ideal: int)
    ensures var w, C, U := FirstShard(s, now, ideal), Leases(s, Candidate, now), Leases(s, Unpinned, now);
      && w.count == TakenFrom(C, U, ideal) && Leases(w.kept, Unpinned, now) == LeftIn(C, U, ideal)
      && w.count + |Leases(w.kept, Unpinned, now)| == |U|
      && Leases(w.kept, Pinned, now) == Leases(s, Pinned, now)
  {
    hide Sweep, Leases, AtMost, Above, NthSmallest;
    var C, U := Leases(s, Candidate, now), Leases(s, Unpinned, now);
    if ideal > 0 && C != [] {
      FirstSweep(s, Cut(C, ideal), now, |s|);
      AtMostSplits(U, Cut(C, ideal));
    }
  }

  // How many objects the first pass takes, from the lists of leases alone.
  ghost function FirstTaken(ss: Shards, now: int, target: real): nat {
    if ss == [] then 0
    else
      var before, s := FirstTaken(ss[..|ss| - 1], now, target), ss[|ss| - 1];
      before + TakenFrom(Leases(s, Candidate, now), Leases(s, Unpinned, now), Share(EntryCount(ss), target) - before)
  }

  lemma {:induction false} FirstCounts(ss: Shards, now: int, target: real)
    ensures var d := FirstAll(ss, now, target);
      && d.count == FirstTaken(ss, now, target) && |d.out| == |ss|
      && d.count + |AllLeases(d.out, Unpinned, now)| == |AllLeases(ss, Unpinned, now)|
      && AllLeases(d.out, Pinned, now) == AllLeases(ss, Pinned, now)
  {
    hide FirstShard, AllLeases, Leases, EntryCount, Share, TakenFrom, LeftIn;
    NoShards(Unpinned, now, 0);
    NoShards(Pinned, now, 0);
    if ss != [] {
      var p, s, ideal := ss[..|ss| - 1], ss[|ss| - 1], Missing(ss, now, target);
      FirstCounts(p, now, target);
      FirstShardLeases(s, now, ideal);
      var d, w := FirstAll(p, now, target), FirstShard(s, now, ideal);
      Snoc(d.out, w.kept, Unpinned, now);
      Snoc(d.out, w.kept, Pinned, now);
      Snoc(p, s, Unpinned, now);
      Snoc(p, s, Pinned, now);
      assert ss == p + [s];
    }
  }

  // Each shard is left with exactly its leases past its threshold.
  lemma {:induction false} FirstLeaves(ss: Shards, now: int, target: real, i: nat)
    requires i < |ss|
    ensures |FirstAll(ss, now, target).out| == |ss|
    ensures Leases(FirstAll(ss, now, target).out[i], Unpinned, now) ==
      LeftIn(Leases(ss[i], Candidate, now), Leases(ss[i], Unpinned, now),
             Share(EntryCount(ss[..i + 1]), target) - FirstTaken(ss[..i], now, target))
  {
    hide FirstShard, FirstAll, Missing, Leases, AllLeases, EntryCount, Share, LeftIn, TakenFrom, FirstTaken;
    FirstCounts(ss, now, target);
    FirstAllLast(ss, now, target);
    var n := |ss| - 1;
    FirstCounts(ss[..n], now, target);
    if i == n {
      FirstShardLeases(ss[n], now, Missing(ss, now, target));
      assert ss[..n + 1] == ss;
    } else {
      FirstLeaves(ss[..n], now, target, i);
      assert ss[..n][..i + 1] == ss[..i + 1] && ss[..n][..i] == ss[..i];
    }
  }

  ghost predicate DistinctLeases(ss: Shards, now: int) {
    forall i | 0 <= i < |ss| :: Distinct(Leases(ss[i], Unpinned, now))
  }

  // The n-th of a list N bounds how many of a distinct part M lie at or before it.
  lemma PartWithin(N: seq<int>, M: seq<int>, n: nat)
    requires n < |N| && Distinct(M) && Below(M, NthSmallest(N, n)) <= Below(N, NthSmallest(N, n))
    ensures AtMost(M, NthSmallest(N, n)) <= n + 1
  {
    hide NthSmallest;
    DistinctEqual(M, NthSmallest(N, n));
  }

  // With distinct leases a shard never gives more than is missing; without bare candidates it gives
  // exactly that, as far as it has it.
  lemma TakenWithin(s: seq<Entry>, now: int, ideal: int)
    requires Distinct(Leases(s, Unpinned, now))
    ensures var C, U := Leases(s, Candidate, now), Leases(s, Unpinned, now);
      && TakenFrom(C, U, ideal) <= Max(ideal, 0)
      && (Leases(s, Bare, now) == [] ==> TakenFrom(C, U, ideal) == MinOf(Max(ideal, 0), |U|))
  {
    hide Leases, NthSmallest, AtMost, Below, Distinct;
    var C, U := Leases(s, Candidate, now), Leases(s, Unpinned, now);
    CandidatesSplit(s, now, 0);
    if ideal > 0 && C != [] {
      var t := Cut(C, ideal);
      CandidatesSplit(s, now, t);
      EmptyCounts(t);
      PartWithin(C, U, MinOf(ideal, |C|) - 1);
    }
  }

  lemma ShareMono(a: nat, b: nat, ratio: real)
    requires a <= b && ratio >= 0.0
    ensures 0 <= Share(a, ratio) <= Share(b, ratio)
  {
    assert a as real * ratio <= b as real * ratio;
    assert 0.0 <= a as real * ratio;
  }

  // The target is never exceeded, after any number of shards.
  lemma {:induction false} FirstWithinTarget(ss: Shards, now: int, target: real)
    requires DistinctLeases(ss, now) && target >= 0.0
    ensures FirstTaken(ss, now, target) <= Share(EntryCount(ss), target)
  {
    hide Leases, Share, Distinct, TakenFrom;
    ShareMono(0, EntryCount(ss), target);
    if ss != [] {
      var p, s := ss[..|ss| - 1], ss[|ss| - 1];
      FirstWithinTarget(p, now, target);
      ShareMono(EntryCount(p), EntryCount(ss), target);
      TakenWithin(s, now, Share(EntryCount(ss), target) - FirstTaken(p, now, target));
    }
  }

  // ---- the lists of the second pass ----

  // N is made up of A and B, whatever the order.
  ghost predicate MadeOf(N: seq<int>, A: seq<int>, B: seq<int>) {
    |N| == |A| + |B| && forall t ::
      AtMost(N, t) == AtMost(A, t) + AtMost(B, t) && Below(N, t) == Below(A, t) + Below(B, t)
  }

  lemma MadeOfConcat(N: seq<int>, A: seq<int>, B: seq<int>, N': seq<int>, A': seq<int>, B': seq<int>)
    requires MadeOf(N, A, B) && MadeOf(N', A', B')
    ensures MadeOf(N + N', A + A', B + B')
  {
    hide AtMost, Below;
    forall t ensures AtMost(N + N', t) == AtMost(A + A', t) + AtMost(B + B', t) &&
      Below(N + N', t) == Below(A + A', t) + Below(B + B', t) {
      AtMostConcat(N, N', t);
      AtMostConcat(A, A', t);
      AtMostConcat(B, B', t);
    }
  }

  lemma MadeOfSelf(A: seq<int>)
    ensures MadeOf(A, A, [])
  {
    hide AtMost, Below;
    forall t ensures AtMost([], t) == 0 && Below([], t) == 0 { EmptyCounts(t); }
  }

  lemma CandidatesMade(s: seq<Entry>, now: int)
    ensures MadeOf(Leases(s, Candidate, now), Leases(s, Unpinned, now), Leases(s, Bare, now))
    ensures MadeOf(Leases(s, PinnedCandidate, now), Leases(s, Pinned, now), Leases(s, PinnedBare, now))
  {
    hide AtMost, Below, Leases;
    CandidatesSplit(s, now, 0);
    forall t { CandidatesSplit(s, now, t); }
  }

  lemma {:induction false} PinnedMade(ss: Shards, now: int)
    ensures MadeOf(AllLeases(ss, PinnedCandidate, now), AllLeases(ss, Pinned, now), AllLeases(ss, PinnedBare, now))
  {
    hide MadeOf, Leases;
    MadeOfSelf([]);
    if ss != [] {
      var p, s := ss[..|ss| - 1], ss[|ss| - 1];
      PinnedMade(p, now);
      CandidatesMade(s, now);
      MadeOfConcat(AllLeases(p, PinnedCandidate, now), AllLeases(p, Pinned, now), AllLeases(p, PinnedBare, now),
                   Leases(s, PinnedCandidate, now), Leases(s, Pinned, now), Leases(s, PinnedBare, now));
    }
  }

  // The no-pin list has the survivors that can be evicted, and the bare candidates of shards that
  // were passed over.
  lemma {:induction false} NoPinMade(ss: Shards, now: int, target: real)
    ensures MadeOf(NoPin(ss, now, target), AllLeases(FirstAll(ss, now, target).out, Unpinned, now),
      NoPinBare(ss, now, target))
  {
    hide MadeOf, Leases, FirstShard, Missing, AllLeases;
    MadeOfSelf([]);
    NoShards(Unpinned, now, 0);
    if ss != [] {
      var p, s, ideal := ss[..|ss| - 1], ss[|ss| - 1], Missing(ss, now, target);
      NoPinMade(p, now, target);
      var d, w := FirstAll(p, now, target), FirstShard(s, now, ideal);
      Snoc(d.out, w.kept, Unpinned, now);
      CandidatesMade(s, now);
      PassedOver(s, now, ideal);
      MadeOfSelf(Leases(w.kept, Unpinned, now));
      MadeOfConcat(NoPin(p, now, target), AllLeases(d.out, Unpinned, now), NoPinBare(p, now, target),
                   ShardNoPin(s, now, ideal), Leases(w.kept, Unpinned, now),
                   if ideal <= 0 then Leases(s, Bare, now) else []);
    }
  }

  lemma PassedOver(s: seq<Entry>, now: int, ideal: int)
    ensures ideal <= 0 ==> FirstShard(s, now, ideal).kept == s
  {}

  ghost predicate ListsOk(l: Lists) {
    MadeOf(l.noPin, l.left, l.bare) && MadeOf(l.softPin, l.pinned, l.pinnedBare)
  }

  lemma ListsAreOk(ss: Shards, now: int, allow: bool, target: real)
    ensures ListsOk(ListsOf(ss, now, allow, target))
  {
    hide MadeOf, NoPin, NoPinBare, AllLeases, FirstAll;
    NoPinMade(ss, now, target);
    PinnedMade(ss, now);
    MadeOfSelf([]);
  }

  // ---- the second pass: how many ----

  lemma BudgetSplits(budget: nat, a: nat, b: nat)
    ensures 0 <= MinOf(budget, a) <= budget &&
      MinOf(budget, a + b) == MinOf(budget, a) + MinOf(budget - MinOf(budget, a), b)
    ensures a + b <= budget ==> a <= budget && b <= budget - MinOf(budget, a)
  {}

  lemma {:induction false} SweepAllA(ss: Shards, t: int, now: int, budget: nat)
    requires t <= now
    ensures var d, L := SweepAll(ss, SecondA(t), now, budget), AllLeases(ss, Unpinned, now);
      && d.count == MinOf(budget, AtMost(L, t)) && d.count + |AllLeases(d.out, Unpinned, now)| == |L|
      && (AtMost(L, t) <= budget ==> AllLeases(d.out, Unpinned, now) == Above(L, t))
      && AllLeases(d.out, Pinned, now) == AllLeases(ss, Pinned, now)
  {
    hide Sweep, SweepAll, Leases, AllLeases, AtMost, Above, MinOf;
    NoShards(Unpinned, now, t);
    NoShards(Pinned, now, t);
    NothingSwept(SecondA(t), now, budget);
    BudgetNone(budget);
    if ss != [] {
      var p, s := ss[..|ss| - 1], ss[|ss| - 1];
      SweepAllLast(ss, SecondA(t), now, budget);
      SweepAllA(p, t, now, budget);
      var d := SweepAll(p, SecondA(t), now, budget);
      BudgetSplits(budget, AtMost(AllLeases(p, Unpinned, now), t), AtMost(Leases(s, Unpinned, now), t));
      var w := Sweep(s, SecondA(t), now, budget - d.count);
      SecondASweep(s, t, now, budget - d.count);
      Snoc(p, s, Unpinned, now);
      Snoc(p, s, Pinned, now);
      Snoc(d.out, w.kept, Unpinned, now);
      Snoc(d.out, w.kept, Pinned, now);
      AtMostConcat(AllLeases(p, Unpinned, now), Leases(s, Unpinned, now), t);
      assert ss == p + [s];
    }
  }

  lemma BudgetNone(budget: nat)
    ensures MinOf(budget, 0) == 0
  {}

  lemma {:induction false} SweepAllB(ss: Shards, t: int, now: int, budget: nat)
    ensures var d := SweepAll(ss, SecondB(t), now, budget);
      var U, P := AllLeases(ss, Unpinned, now), AllLeases(ss, Pinned, now);
      && d.count == MinOf(budget, |U| + AtMost(P, t))
      && d.count + |AllLeases(d.out, Unpinned, now)| + |AllLeases(d.out, Pinned, now)| == |U| + |P|
      && (|U| + AtMost(P, t) <= budget ==>
            AllLeases(d.out, Unpinned, now) == [] && AllLeases(d.out, Pinned, now) == Above(P, t))
  {
    hide Sweep, SweepAll, Leases, AllLeases, AtMost, Above, MinOf;
    NoShards(Unpinned, now, t);
    NoShards(Pinned, now, t);
    NothingSwept(SecondB(t), now, budget);
    BudgetNone(budget);
    if ss != [] {
      var p, s := ss[..|ss| - 1], ss[|ss| - 1];
      SweepAllLast(ss, SecondB(t), now, budget);
      SweepAllB(p, t, now, budget);
      var d := SweepAll(p, SecondB(t), now, budget);
      BudgetSplits(budget, |AllLeases(p, Unpinned, now)| + AtMost(AllLeases(p, Pinned, now), t),
                   |Leases(s, Unpinned, now)| + AtMost(Leases(s, Pinned, now), t));
      var w := Sweep(s, SecondB(t), now, budget - d.count);
      SecondBSweep(s, t, now, budget - d.count);
      Snoc(p, s, Unpinned, now);
      Snoc(p, s, Pinned, now);
      Snoc(d.out, w.kept, Unpinned, now);
      Snoc(d.out, w.kept, Pinned, now);
      AtMostConcat(AllLeases(p, Pinned, now), Leases(s, Pinned, now), t);
      assert ss == p + [s];
    }
  }

  // How many objects the second pass takes, from the lists alone.
  ghost function SecondTaken(l: Lists, need: int): nat {
    if PassA(l, need) then MinOf(Aim(l, need), AtMost(l.left, CutA(l, need)))
    else if PassB(l, need) then MinOf(Aim(l, need), |l.left| + AtMost(l.pinned, CutB(l, need)))
    else 0
  }

  // The number evicted, for every input.
  lemma EvictCounts(ss: Shards, now: int, allow: bool, target: real, lowerbound: real)
    ensures EvictAll(ss, now, allow, target, lowerbound).count ==
      FirstTaken(ss, now, target) +
      SecondTaken(ListsOf(ss, now, allow, target), Share(EntryCount(ss), lowerbound) - FirstTaken(ss, now, target))
  {
    hide FirstAll, SweepAll, NoPin, NoPinBare, AllLeases, AtMost, NthSmallest, Share, EntryCount, FirstTaken;
    FirstCounts(ss, now, target);
    var f, l, need := FirstAll(ss, now, target), ListsOf(ss, now, allow, target), Need(ss, now, target, lowerbound);
    if PassA(l, need) {
      CutsExpired(ss, now, allow, target, need);
      SweepAllA(f.out, CutA(l, need), now, Aim(l, need));
    } else if PassB(l, need) {
      SweepAllB(f.out, CutB(l, need), now, Aim(l, need));
    }
  }

  // ---- the lower bound ----

  // Up to the threshold, the bare candidates leave enough others for the number that is wanted.
  ghost predicate BareLeaveRoom(l: Lists, need: int) {
    var wanted := MinOf(need, |l.left| + |l.pinned|);
    && (PassA(l, need) ==> AtMost(l.bare, CutA(l, need)) + wanted <= AtMost(l.noPin, CutA(l, need)))
    && (PassB(l, need) ==>
          |l.bare| + AtMost(l.pinnedBare, CutB(l, need)) + wanted <= |l.noPin| + AtMost(l.softPin, CutB(l, need)))
  }

  lemma SecondMeets(l: Lists, need: int)
    requires ListsOk(l)
    ensures SecondTaken(l, need) <= Max(0, MinOf(need, |l.left| + |l.pinned|))
    ensures SecondTaken(l, need) >= MinOf(need, |l.left| + |l.pinned|) <==> BareLeaveRoom(l, need)
  {
    hide AtMost, Below, NthSmallest;
    if PassA(l, need) { AtMostSplits(l.left, CutA(l, need)); }
    if PassB(l, need) { AtMostSplits(l.pinned, CutB(l, need)); }
  }

  ghost function EvictableCount(ss: Shards, now: int, allow: bool): nat {
    |AllLeases(ss, Unpinned, now)| + (if allow then |AllLeases(ss, Pinned, now)| else 0)
  }

  // The promised minimum: the share of the lower bound, as far as there are objects to evict.
  ghost function Promised(ss: Shards, now: int, allow: bool, lowerbound: real): int {
    MinOf(Share(EntryCount(ss), lowerbound), EvictableCount(ss, now, allow))
  }

  // The minimum is met if and only if the bare candidates leave room; what is taken beyond the
  // first pass never exceeds it.
  lemma BoundExactly(ss: Shards, now: int, allow: bool, target: real, lowerbound: real)
    ensures var l, need := ListsOf(ss, now, allow, target), Need(ss, now, target, lowerbound);
            var evicted := EvictAll(ss, now, allow, target, lowerbound).count;
      && (evicted >= Promised(ss, now, allow, lowerbound) <==> BareLeaveRoom(l, need))
      && evicted <= Max(FirstTaken(ss, now, target), Promised(ss, now, allow, lowerbound))
  {
    hide FirstAll, SweepAll, NoPin, NoPinBare, AllLeases, AtMost, NthSmallest, Share, EntryCount, FirstTaken;
    hide ListsOk, SecondTaken, BareLeaveRoom, EvictAll;
    FirstCounts(ss, now, target);
    ListsAreOk(ss, now, allow, target);
    EvictCounts(ss, now, allow, target, lowerbound);
    SecondMeets(ListsOf(ss, now, allow, target), Need(ss, now, target, lowerbound));
  }

  // No bare candidate is listed for the second pass: every candidate of a shard that was passed over,
  // and every pinned one when those may go, has a memory replica.
  ghost predicate NoneBare(l: Lists) {
    l.bare == [] && l.pinnedBare == []
  }

  // Then the number evicted is the first pass, raised to the promised minimum.
  lemma MemoryMeetsBound(ss: Shards, now: int, allow: bool, target: real, lowerbound: real)
    requires NoneBare(ListsOf(ss, now, allow, target))
    ensures EvictAll(ss, now, allow, target, lowerbound).count ==
      Max(FirstTaken(ss, now, target), Promised(ss, now, allow, lowerbound))
  {
    hide FirstAll, SweepAll, NoPin, NoPinBare, AllLeases, AtMost, NthSmallest, Share, EntryCount, FirstTaken,
      EvictAll, Promised;
    var l, need := ListsOf(ss, now, allow, target), Need(ss, now, target, lowerbound);
    EvictCounts(ss, now, allow, target, lowerbound);
    FirstCounts(ss, now, target);
    ListsAreOk(ss, now, allow, target);
    NoneLeavesRoom(l, need);
    BoundExactly(ss, now, allow, target, lowerbound);
  }

  lemma NoneLeavesRoom(l: Lists, need: int)
    requires ListsOk(l) && NoneBare(l)
    ensures BareLeaveRoom(l, need)
  {
    hide AtMost, Below, NthSmallest;
    if PassA(l, need) { EmptyCounts(CutA(l, need)); }
    if PassB(l, need) { EmptyCounts(CutB(l, need)); }
  }

  // ---- the order of leases ----

  // Pass A took every survivor up to its threshold; pass B took every unpinned one, and every pinned
  // one up to its threshold.
  ghost predicate OldestTaken(l: Lists, need: int, mid: Shards, out: Shards, now: int) {
    && (PassA(l, need) ==>
          && AllLeases(out, Unpinned, now) == Above(AllLeases(mid, Unpinned, now), CutA(l, need))
          && AllLeases(out, Pinned, now) == AllLeases(mid, Pinned, now))
    && (PassB(l, need) ==>
          && AllLeases(out, Unpinned, now) == []
          && AllLeases(out, Pinned, now) == Above(AllLeases(mid, Pinned, now), CutB(l, need)))
    && (!PassA(l, need) && !PassB(l, need) ==> out == mid)
  }

  // The threshold does not take in more than the pass aims at: no ties push it beyond.
  ghost predicate NoTiesBeyond(l: Lists, need: int) {
    && (PassA(l, need) ==> AtMost(l.left, CutA(l, need)) <= Aim(l, need))
    && (PassB(l, need) ==> |l.left| + AtMost(l.pinned, CutB(l, need)) <= Aim(l, need))
  }

  // Everything up to the threshold goes if and only if no ties push it beyond the aim.
  lemma CutExactly(ss: Shards, now: int, allow: bool, target: real, lowerbound: real)
    ensures var l, need := ListsOf(ss, now, allow, target), Need(ss, now, target, lowerbound);
      OldestTaken(l, need, FirstAll(ss, now, target).out, EvictAll(ss, now, allow, target, lowerbound).out, now)
      <==> NoTiesBeyond(l, need)
  {
    hide FirstAll, SweepAll, NoPin, NoPinBare, AllLeases, AtMost, Above, NthSmallest, Share, EntryCount;
    FirstCounts(ss, now, target);
    var f, l, need := FirstAll(ss, now, target), ListsOf(ss, now, allow, target), Need(ss, now, target, lowerbound);
    if PassA(l, need) {
      CutsExpired(ss, now, allow, target, need);
      SweepAllA(f.out, CutA(l, need), now, Aim(l, need));
      AtMostSplits(l.left, CutA(l, need));
    } else if PassB(l, need) {
      SweepAllB(f.out, CutB(l, need), now, Aim(l, need));
      AtMostSplits(l.pinned, CutB(l, need));
    }
  }

  lemma {:induction false} AboveDistinct(L: seq<int>, t: int)
    requires Distinct(L)
    ensures Distinct(Above(L, t))
  {
    if L != [] {
      var p, x := L[..|L| - 1], L[|L| - 1];
      AboveDistinct(p, t);
      AboveMeans(p, t, x);
      var A := Above(p, t);
      assert x !in p;
      assert forall i | 0 <= i < |A| :: A[i] in A;
    }
  }

  lemma DistinctParts(A: seq<int>, B: seq<int>)
    requires Distinct(A + B)
    ensures Distinct(A) && Distinct(B) && forall x | x in A :: x !in B
  {
    assert forall i | 0 <= i < |A| :: (A + B)[i] == A[i];
    assert forall i | 0 <= i < |B| :: (A + B)[|A| + i] == B[i];
  }

  lemma DistinctJoin(A: seq<int>, B: seq<int>)
    requires Distinct(A) && Distinct(B) && forall x | x in A :: x !in B
    ensures Distinct(A + B)
  {
    assert forall i | 0 <= i < |A| :: A[i] in A;
    assert forall i | 0 <= i < |B| :: B[i] in B;
  }

  lemma LeftIsPart(C: seq<int>, U: seq<int>, ideal: int)
    ensures forall x | x in LeftIn(C, U, ideal) :: x in U
    ensures Distinct(U) ==> Distinct(LeftIn(C, U, ideal))
  {
    hide Above, NthSmallest, Distinct;
    if ideal > 0 && C != [] {
      forall x | x in Above(U, Cut(C, ideal)) ensures x in U { AboveMeans(U, Cut(C, ideal), x); }
      if Distinct(U) { AboveDistinct(U, Cut(C, ideal)); }
    }
  }

  // Distinct leases stay distinct through the first pass.
  lemma {:induction false} FirstKeepsDistinct(ss: Shards, now: int, target: real)
    requires Distinct(AllLeases(ss, Unpinned, now))
    ensures var M := AllLeases(FirstAll(ss, now, target).out, Unpinned, now);
      Distinct(M) && forall x | x in M :: x in AllLeases(ss, Unpinned, now)
  {
    hide Distinct, Leases, FirstShard, AllLeases, Missing, LeftIn;
    NoShards(Unpinned, now, 0);
    if ss != [] {
      var p, s, ideal := ss[..|ss| - 1], ss[|ss| - 1], Missing(ss, now, target);
      assert ss == p + [s];
      Snoc(p, s, Unpinned, now);
      var A, B := AllLeases(p, Unpinned, now), Leases(s, Unpinned, now);
      DistinctParts(A, B);
      FirstKeepsDistinct(p, now, target);
      var d, w := FirstAll(p, now, target), FirstShard(s, now, ideal);
      FirstShardLeases(s, now, ideal);
      LeftIsPart(Leases(s, Candidate, now), B, ideal);
      Snoc(d.out, w.kept, Unpinned, now);
      DistinctJoin(AllLeases(d.out, Unpinned, now), Leases(w.kept, Unpinned, now));
    }
  }

  // With distinct leases the second pass takes exactly the oldest survivors of the first.
  lemma DistinctInOrder(ss: Shards, now: int, allow: bool, target: real, lowerbound: real)
    requires Distinct(AllLeases(ss, Unpinned, now)) && Distinct(AllLeases(ss, Pinned, now))
    ensures var l, need := ListsOf(ss, now, allow, target), Need(ss, now, target, lowerbound);
      OldestTaken(l, need, FirstAll(ss, now, target).out, EvictAll(ss, now, allow, target, lowerbound).out, now)
  {
    hide FirstAll, NoPin, NoPinBare, AllLeases, AtMost, Below, Distinct, NthSmallest, OldestTaken, EvictAll;
    var l, need := ListsOf(ss, now, allow, target), Need(ss, now, target, lowerbound);
    FirstKeepsDistinct(ss, now, target);
    ListsAreOk(ss, now, allow, target);
    if PassA(l, need) { PartWithin(l.noPin, l.left, Aim(l, need) - 1); }
    if PassB(l, need) { PartWithin(l.softPin, l.pinned, Aim(l, need) - |l.noPin| - 1); }
    CutExactly(ss, now, allow, target, lowerbound);
  }
}
