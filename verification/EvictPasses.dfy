/**
 The two passes of BatchEvict over all shards, as functions, and what they take:
 how many objects, in which order of leases, and when the lower bound is met. The
 results are about the lists of leases the source collects, not about its loops.
 */
module EvictPasses {
  import opened Selection
  import opened BatchEvict

  type Shards = seq<seq<Entry>>

  function AllLeases(ss: Shards, k: Kind, now: int): seq<int> {
    if ss == [] then [] else AllLeases(ss[..|ss| - 1], k, now) + Leases(ss[|ss| - 1], k, now)
  }

  function EntryCount(ss: Shards): nat {
    if ss == [] then 0 else EntryCount(ss[..|ss| - 1]) + |ss[|ss| - 1]|
  }

  function ShardBytes(ss: Shards): nat {
    if ss == [] then 0 else ShardBytes(ss[..|ss| - 1]) + EntryBytes(ss[|ss| - 1])
  }

  // ceil(count * ratio)
  function Share(count: nat, ratio: real): int {
    -((-(count as real * ratio)).Floor)
  }

  ghost predicate AllSafe(ss: Shards, ss': Shards, now: int, allow: bool) {
    |ss| == |ss'| && forall i | 0 <= i < |ss| :: Safe(ss[i], ss'[i], now, allow)
  }

  ghost predicate ShardsSizesOk(ss: Shards) {
    forall i | 0 <= i < |ss| :: AllSizesOk(ss[i])
  }

  datatype Done = Done(out: Shards, count: nat, freed: nat, released: nat) {
    ghost function Then(w: Swept): Done {
      Done(out + [w.kept], count + w.count, freed + w.freed, released + w.released)
    }

    ghost function Plus(d: Done): Done {
      Done(d.out, count + d.count, freed + d.freed, released + d.released)
    }
  }

  // ---- the passes ----

  // The lease up to which a shard with candidates C gives, when `ideal` objects are missing.
  ghost function Cut(C: seq<int>, ideal: int): int
    requires ideal > 0 && C != []
  {
    NthSmallest(C, MinOf(ideal, |C|) - 1)
  }

  ghost function FirstShard(s: seq<Entry>, now: int, ideal: int): Swept {
    var C := Leases(s, Candidate, now);
    if ideal <= 0 || C == [] then Swept(s, 0, 0, 0) else Sweep(s, First(Cut(C, ideal)), now, |s|)
  }

  // How many objects are missing from the target when the last shard is reached.
  ghost function Missing(ss: Shards, now: int, target: real): int
    requires ss != []
    decreases |ss|, 0
  {
    Share(EntryCount(ss), target) - FirstAll(ss[..|ss| - 1], now, target).count
  }

  ghost function FirstAll(ss: Shards, now: int, target: real): Done
    decreases |ss|, 1
  {
    if ss == [] then Done([], 0, 0, 0)
    else FirstAll(ss[..|ss| - 1], now, target).Then(FirstShard(ss[|ss| - 1], now, Missing(ss, now, target)))
  }

  ghost function SweepAll(ss: Shards, r: Rule, now: int, budget: nat): Done {
    if ss == [] then Done([], 0, 0, 0)
    else
      var p := SweepAll(ss[..|ss| - 1], r, now, budget);
      p.Then(Sweep(ss[|ss| - 1], r, now, budget - p.count))
  }

  // The leases listed for the second pass by a shard of the first one: every candidate when the shard
  // was passed over, the surviving objects with memory otherwise.
  ghost function ShardNoPin(s: seq<Entry>, now: int, ideal: int): seq<int> {
    if ideal <= 0 then Leases(s, Candidate, now) else Leases(FirstShard(s, now, ideal).kept, Unpinned, now)
  }

  ghost function NoPin(ss: Shards, now: int, target: real): seq<int> {
    if ss == [] then []
    else NoPin(ss[..|ss| - 1], now, target) + ShardNoPin(ss[|ss| - 1], now, Missing(ss, now, target))
  }

  // The bare candidates among them.
  ghost function NoPinBare(ss: Shards, now: int, target: real): seq<int> {
    if ss == [] then []
    else
      NoPinBare(ss[..|ss| - 1], now, target) +
      if Missing(ss, now, target) <= 0 then Leases(ss[|ss| - 1], Bare, now) else []
  }

  // What the second pass works from: the two lists the source collects, and how they are made up
  // of objects that can be evicted and bare ones.
  datatype Lists = Lists(noPin: seq<int>, left: seq<int>, bare: seq<int>,
                         softPin: seq<int>, pinned: seq<int>, pinnedBare: seq<int>)

  ghost function ListsOf(ss: Shards, now: int, allow: bool, target: real): Lists {
    Lists(NoPin(ss, now, target), AllLeases(FirstAll(ss, now, target).out, Unpinned, now), NoPinBare(ss, now, target),
          if allow then AllLeases(ss, PinnedCandidate, now) else [],
          if allow then AllLeases(ss, Pinned, now) else [],
          if allow then AllLeases(ss, PinnedBare, now) else [])
  }

  // The number the second pass aims at.
  ghost function Aim(l: Lists, need: int): int {
    MinOf(need, |l.noPin| + |l.softPin|)
  }

  ghost predicate PassA(l: Lists, need: int) {
    0 < Aim(l, need) <= |l.noPin|
  }

  ghost predicate PassB(l: Lists, need: int) {
    0 < Aim(l, need) && |l.noPin| < Aim(l, need)
  }

  ghost function CutA(l: Lists, need: int): int
    requires PassA(l, need)
  {
    NthSmallest(l.noPin, Aim(l, need) - 1)
  }

  ghost function CutB(l: Lists, need: int): int
    requires PassB(l, need)
  {
    NthSmallest(l.softPin, Aim(l, need) - |l.noPin| - 1)
  }

  ghost function Second(mid: Shards, l: Lists, need: int, now: int): Done {
    if PassA(l, need) then SweepAll(mid, SecondA(CutA(l, need)), now, Aim(l, need))
    else if PassB(l, need) then SweepAll(mid, SecondB(CutB(l, need)), now, Aim(l, need))
    else Done(mid, 0, 0, 0)
  }

  ghost function Need(ss: Shards, now: int, target: real, lowerbound: real): int {
    Share(EntryCount(ss), lowerbound) - FirstAll(ss, now, target).count
  }

  ghost function EvictAll(ss: Shards, now: int, allow: bool, target: real, lowerbound: real): Done {
    var f := FirstAll(ss, now, target);
    f.Plus(Second(f.out, ListsOf(ss, now, allow, target), Need(ss, now, target, lowerbound), now))
  }

  // ---- one more shard ----

  lemma {:induction false} FirstAllLast(ss: Shards, now: int, target: real)
    requires ss != []
    ensures FirstAll(ss, now, target) ==
      FirstAll(ss[..|ss| - 1], now, target).Then(FirstShard(ss[|ss| - 1], now, Missing(ss, now, target)))
    ensures Missing(ss, now, target) == Share(EntryCount(ss), target) - FirstAll(ss[..|ss| - 1], now, target).count
  {}

  lemma {:induction false} SweepAllLast(ss: Shards, r: Rule, now: int, budget: nat)
    requires ss != []
    ensures var p := SweepAll(ss[..|ss| - 1], r, now, budget);
      SweepAll(ss, r, now, budget) == p.Then(Sweep(ss[|ss| - 1], r, now, budget - p.count))
  {
    hide Sweep;
  }

  lemma FirstNext(ss: Shards, i: nat, now: int, target: real)
    requires i < |ss|
    ensures var f, ideal := FirstAll(ss[..i], now, target), Missing(ss[..i + 1], now, target);
      && EntryCount(ss[..i + 1]) == EntryCount(ss[..i]) + |ss[i]|
      && ideal == Share(EntryCount(ss[..i + 1]), target) - f.count
      && FirstAll(ss[..i + 1], now, target) == f.Then(FirstShard(ss[i], now, ideal))
      && NoPin(ss[..i + 1], now, target) == NoPin(ss[..i], now, target) + ShardNoPin(ss[i], now, ideal)
      && AllLeases(ss[..i + 1], PinnedCandidate, now) == AllLeases(ss[..i], PinnedCandidate, now) +
        Leases(ss[i], PinnedCandidate, now)
  {
    hide FirstShard, ShardNoPin, Leases, Share;
    assert ss[..i + 1][..i] == ss[..i];
  }

  lemma FirstSnoc(p: Shards, s: seq<Entry>, now: int, target: real)
    ensures var f := FirstAll(p, now, target);
            var ideal := Share(EntryCount(p) + |s|, target) - f.count;
      && FirstAll(p + [s], now, target) == f.Then(FirstShard(s, now, ideal))
      && NoPin(p + [s], now, target) == NoPin(p, now, target) + ShardNoPin(s, now, ideal)
      && EntryCount(p + [s]) == EntryCount(p) + |s|
  {
    hide FirstShard, FirstAll, ShardNoPin, NoPin, Missing, EntryCount, Share, AllLeases, Leases;
    var ss := p + [s];
    assert ss[..|p| + 1] == ss && ss[..|p|] == p;
    FirstNext(ss, |p|, now, target);
  }

  lemma NothingSwept(r: Rule, now: int, budget: nat)
    ensures SweepAll([], r, now, budget) == Done([], 0, 0, 0)
  {}

  lemma Snoc(ss: Shards, s: seq<Entry>, k: Kind, now: int)
    ensures AllLeases(ss + [s], k, now) == AllLeases(ss, k, now) + Leases(s, k, now)
    ensures EntryCount(ss + [s]) == EntryCount(ss) + |s|
    ensures ShardBytes(ss + [s]) == ShardBytes(ss) + EntryBytes(s)
  {
    assert (ss + [s])[..|ss|] == ss;
  }

  lemma NoShards(k: Kind, now: int, t: int)
    ensures AllLeases([], k, now) == [] && EntryCount([]) == 0 && ShardBytes([]) == 0
    ensures AtMost([], t) == 0 && Below([], t) == 0 && Above([], t) == []
  {}

  // ---- safety and bytes of all passes ----

  lemma SnocSafe(p: Shards, q: Shards, s: seq<Entry>, w: seq<Entry>, now: int, allow: bool)
    requires AllSafe(p, q, now, allow) && Safe(s, w, now, allow)
    ensures AllSafe(p + [s], q + [w], now, allow)
    ensures ShardsSizesOk(p + [s]) ==> ShardsSizesOk(p) && AllSizesOk(s)
  {
    hide Safe, AllSizesOk;
    assert (p + [s])[|p|] == s && forall i | 0 <= i < |p| :: (p + [s])[i] == p[i];
  }

  lemma {:induction false} SweepAllSafe(ss: Shards, r: Rule, now: int, budget: nat)
    requires RuleOk(r, now)
    ensures var d := SweepAll(ss, r, now, budget);
      && AllSafe(ss, d.out, now, r.SecondB?) && ShardBytes(d.out) + d.released == ShardBytes(ss)
      && (ShardsSizesOk(ss) ==> d.freed == d.released)
  {
    hide Sweep, Safe, AllSizesOk, ShardBytes, RuleOk, AllSafe, ShardsSizesOk, SweepAll;
    NoneSafe(now, r.SecondB?);
    NoShards(Unpinned, now, 0);
    NothingSwept(r, now, budget);
    if ss != [] {
      var p, s := ss[..|ss| - 1], ss[|ss| - 1];
      SweepAllLast(ss, r, now, budget);
      SweepAllSafe(p, r, now, budget);
      var d := SweepAll(p, r, now, budget);
      SweepSafe(s, r, now, budget - d.count);
      SweepBytes(s, r, now, budget - d.count);
      SnocSafe(p, d.out, s, Sweep(s, r, now, budget - d.count).kept, now, r.SecondB?);
      Snoc(d.out, Sweep(s, r, now, budget - d.count).kept, Unpinned, now);
      Snoc(p, s, Unpinned, now);
      assert ss == p + [s];
    }
  }

  lemma NoneSafe(now: int, allow: bool)
    ensures AllSafe([], [], now, allow)
  {}

  lemma FirstShardSafe(s: seq<Entry>, now: int, ideal: int)
    ensures var w := FirstShard(s, now, ideal);
      && Safe(s, w.kept, now, false) && EntryBytes(w.kept) + w.released == EntryBytes(s) &&
        (AllSizesOk(s) ==> w.freed == w.released)
  {
    hide Sweep, Safe, AllSizesOk, EntryBytes, Leases, NthSmallest;
    SafeSelf(s, now, false);
    var C := Leases(s, Candidate, now);
    if ideal > 0 && C != [] {
      SweepSafe(s, First(Cut(C, ideal)), now, |s|);
      SweepBytes(s, First(Cut(C, ideal)), now, |s|);
    }
  }

  lemma {:induction false} FirstAllSafe(ss: Shards, now: int, target: real)
    ensures var d := FirstAll(ss, now, target);
      && AllSafe(ss, d.out, now, false) && ShardBytes(d.out) + d.released == ShardBytes(ss)
      && (ShardsSizesOk(ss) ==> d.freed == d.released)
  {
    hide FirstShard, Safe, AllSizesOk, ShardBytes, Missing, AllSafe, ShardsSizesOk;
    NoneSafe(now, false);
    NoShards(Unpinned, now, 0);
    if ss != [] {
      var p, s := ss[..|ss| - 1], ss[|ss| - 1];
      FirstAllSafe(p, now, target);
      FirstShardSafe(s, now, Missing(ss, now, target));
      SnocSafe(p, FirstAll(p, now, target).out, s, FirstShard(s, now, Missing(ss, now, target)).kept, now, false);
      Snoc(FirstAll(p, now, target).out, FirstShard(s, now, Missing(ss, now, target)).kept, Unpinned, now);
      Snoc(p, s, Unpinned, now);
      assert ss == p + [s];
    }
  }

  lemma AllSafeTrans(a: Shards, b: Shards, c: Shards, now: int, allow: bool)
    requires AllSafe(a, b, now, allow) && AllSafe(b, c, now, allow)
    ensures AllSafe(a, c, now, allow)
  {
    hide Safe;
    forall i | 0 <= i < |a| ensures Safe(a[i], c[i], now, allow) { SafeTrans(a[i], b[i], c[i], now, allow); }
  }

  lemma AllSafeAllowed(a: Shards, b: Shards, now: int, allow: bool)
    requires AllSafe(a, b, now, false)
    ensures AllSafe(a, b, now, allow)
  {
    hide Safe;
    forall i | 0 <= i < |a| ensures Safe(a[i], b[i], now, allow) { SafeAllowed(a[i], b[i], now, allow); }
  }

  lemma AllSafeSizes(a: Shards, b: Shards, now: int, allow: bool)
    requires AllSafe(a, b, now, allow) && ShardsSizesOk(a)
    ensures ShardsSizesOk(b)
  {
    hide Safe;
    forall i | 0 <= i < |b| ensures AllSizesOk(b[i]) { SafeSizes(a[i], b[i], now, allow); }
  }

  // Only expired objects with complete memory replicas lose anything, and soft-pinned ones only when
  // that is allowed; the gauge drops by what is counted as freed.
  lemma EvictAllSafe(ss: Shards, now: int, allow: bool, target: real, lowerbound: real)
    ensures var d := EvictAll(ss, now, allow, target, lowerbound);
      && AllSafe(ss, d.out, now, allow) && ShardBytes(d.out) + d.released == ShardBytes(ss)
      && (ShardsSizesOk(ss) ==> d.freed == d.released && ShardsSizesOk(d.out))
  {
    hide AllSafe, ShardsSizesOk, ShardBytes, FirstAll, SweepAll, CutA, CutB, Need, ListsOf, RuleOk;
    var f, l, need := FirstAll(ss, now, target), ListsOf(ss, now, allow, target), Need(ss, now, target, lowerbound);
    FirstAllSafe(ss, now, target);
    AllSafeAllowed(ss, f.out, now, allow);
    if ShardsSizesOk(ss) { AllSafeSizes(ss, f.out, now, allow); }
    if PassA(l, need) {
      var d := SweepAll(f.out, SecondA(CutA(l, need)), now, Aim(l, need));
      CutsExpired(ss, now, allow, target, need);
      assert RuleOk(SecondA(CutA(l, need)), now) by { RuleHolds(SecondA(CutA(l, need)), now); }
      SweepAllSafe(f.out, SecondA(CutA(l, need)), now, Aim(l, need));
      AllSafeAllowed(f.out, d.out, now, allow);
      AllSafeTrans(ss, f.out, d.out, now, allow);
    } else if PassB(l, need) {
      OnlyAllowed(ss, now, allow, target, need);
      assert RuleOk(SecondB(CutB(l, need)), now) by { RuleHolds(SecondB(CutB(l, need)), now); }
      SweepAllSafe(f.out, SecondB(CutB(l, need)), now, Aim(l, need));
      AllSafeTrans(ss, f.out, SweepAll(f.out, SecondB(CutB(l, need)), now, Aim(l, need)).out, now, allow);
    }
    if ShardsSizesOk(ss) { AllSafeSizes(ss, EvictAll(ss, now, allow, target, lowerbound).out, now, allow); }
  }

  lemma RuleHolds(r: Rule, now: int)
    requires r.SecondA? ==> r.timeout <= now
    ensures RuleOk(r, now)
  {}

  // Pass B is for soft-pinned objects, so they must be allowed to go.
  lemma OnlyAllowed(ss: Shards, now: int, allow: bool, target: real, need: int)
    requires PassB(ListsOf(ss, now, allow, target), need)
    ensures allow
  {}

  // The share is the product rounded up.
  lemma ShareMeans(count: nat, ratio: real)
    ensures (Share(count, ratio) - 1) as real < count as real * ratio <= Share(count, ratio) as real
  {}

  // Every listed lease has expired, so the threshold of pass A lies before now.
  lemma {:induction false} NoPinExpired(ss: Shards, now: int, target: real)
    ensures forall x | x in NoPin(ss, now, target) :: x <= now
  {
    hide Leases, FirstShard, Missing;
    if ss != [] {
      NoPinExpired(ss[..|ss| - 1], now, target);
      var s, ideal := ss[|ss| - 1], Missing(ss, now, target);
      LeasesExpired(s, Candidate, now);
      LeasesExpired(FirstShard(s, now, ideal).kept, Unpinned, now);
    }
  }

  lemma CutsExpired(ss: Shards, now: int, allow: bool, target: real, need: int)
    requires PassA(ListsOf(ss, now, allow, target), need)
    ensures CutA(ListsOf(ss, now, allow, target), need) <= now
  {
    hide NoPin, NthSmallest;
    NoPinExpired(ss, now, target);
  }
}
