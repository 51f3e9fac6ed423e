/**
 One shard under BatchEvict, the two-pass, near-LRU eviction of the master. A shard
 is the sequence of its entries in the iteration order of its hash map, whatever
 that order is.
 */
module BatchEvict {
  import opened Metadata
  import opened Selection
  import opened Sequences

  datatype Entry = Entry(key: string, obj: Object)

  // ---- which objects the passes look at ----

  // Candidates of the counting loops, without and with a soft pin. Those with a memory replica can
  // be evicted; the bare ones have only disk replicas.
  datatype Kind = Candidate | Unpinned | Bare | PinnedCandidate | Pinned | PinnedBare {
    predicate OnPinned() { PinnedCandidate? || Pinned? || PinnedBare? }
  }

  // Expired, and no memory replica still being written.
  predicate Ready(o: Object, now: int) {
    o.IsLeaseExpired(now) && !o.HasDiffRepStatus(COMPLETE, MEMORY)
  }

  predicate Matches(k: Kind, o: Object, now: int) {
    && Ready(o, now)
    && (o.IsSoftPinned(now) <==> k.OnPinned())
    && (k.Unpinned? || k.Pinned? ==> o.HasMemReplica())
    && (k.Bare? || k.PinnedBare? ==> !o.HasMemReplica())
  }

  function Leases(s: seq<Entry>, k: Kind, now: int): seq<int> {
    if s == [] then []
    else
      var last := s[|s| - 1].obj;
      Leases(s[..|s| - 1], k, now) + (if Matches(k, last, now) then [last.lease] else [])
  }

  // ---- in terms of fields ----

  ghost predicate InMemory(o: Object) {
    exists x :: x in o.replicas && x.Memory?
  }

  predicate SoftPinned(o: Object, now: int) {
    o.softPin.Some? && now < o.softPin.value
  }

  lemma InMemoryMeans(o: Object)
    ensures o.HasMemReplica() <==> InMemory(o)
  {
    if x :| x in o.replicas && x.Memory? { var i :| 0 <= i < |o.replicas| && o.replicas[i] == x; }
    if i :| 0 <= i < |o.replicas| && o.replicas[i].Memory? { assert o.replicas[i] in o.replicas; }
  }

  // ---- eviction of one object, and the sweeps ----

  datatype Rule = First(timeout: int) | SecondA(timeout: int) | SecondB(timeout: int)

  predicate Evicts(r: Rule, o: Object, now: int) {
    match r
    case First(t) =>
      Ready(o, now) && !o.IsSoftPinned(now) && o.HasMemReplica() && o.lease <= t
    case SecondA(t) =>
      o.lease <= t && !o.IsSoftPinned(now) && !o.HasDiffRepStatus(COMPLETE, MEMORY) && o.HasMemReplica()
    case SecondB(t) =>
      Ready(o, now) && o.HasMemReplica() && (!o.IsSoftPinned(now) || o.lease <= t)
  }

  function FreedBy(o: Object): nat {
    o.size * o.GetMemReplicaCount()
  }

  // The entry loses its memory replicas, and goes entirely when nothing valid is left.
  function Strip(e: Entry): seq<Entry> {
    var o := e.obj.EraseReplica(MEMORY);
    if o.IsValid() then [e.(obj := o)] else []
  }

  // What is left, how many objects were evicted, the size the source counts as freed, and the
  // bytes of the buffers that were in fact destroyed.
  datatype Swept = Swept(kept: seq<Entry>, count: nat, freed: nat, released: nat)

  // A sweep over a shard that evicts what the rule says, at most `budget` objects.
  function Sweep(s: seq<Entry>, r: Rule, now: int, budget: int): Swept {
    if s == [] then Swept([], 0, 0, 0)
    else
      var p := Sweep(s[..|s| - 1], r, now, budget);
      var e := s[|s| - 1];
      if p.count < budget && Evicts(r, e.obj, now)
      then Swept(p.kept + Strip(e), p.count + 1, p.freed + FreedBy(e.obj), p.released + ReplicasBytes(e.obj.replicas))
      else p.(kept := p.kept + [e])
  }

  lemma {:induction false} SweepAppend(s: seq<Entry>, e: Entry, r: Rule, now: int, budget: int)
    ensures var p := Sweep(s, r, now, budget);
      Sweep(s + [e], r, now, budget) ==
        if p.count < budget && Evicts(r, e.obj, now)
        then Swept(p.kept + Strip(e), p.count + 1, p.freed + FreedBy(e.obj), p.released + ReplicasBytes(e.obj.replicas))
        else p.(kept := p.kept + [e])
  {
    hide Evicts, Strip, FreedBy;
    assert (s + [e])[..|s|] == s;
  }

  method SweepShard(shard: seq<Entry>, r: Rule, now: int, budget: int) returns (w: Swept)
    ensures w == Sweep(shard, r, now, budget)
  {
    w := Swept([], 0, 0, 0);
    for j := 0 to |shard|
      invariant w == Sweep(shard[..j], r, now, budget)
    {
      assert shard[..j + 1][..j] == shard[..j];
      var e := shard[j];
      if w.count < budget && Evicts(r, e.obj, now) {
        w := Swept(w.kept + Strip(e), w.count + 1, w.freed + FreedBy(e.obj),
          w.released + ReplicasBytes(e.obj.replicas));
      } else {
        w := w.(kept := w.kept + [e]);
      }
    }
    assert shard[..|shard|] == shard;
  }

  method CollectLeases(shard: seq<Entry>, k: Kind, now: int) returns (leases: seq<int>)
    ensures leases == Leases(shard, k, now)
  {
    leases := [];
    for j := 0 to |shard|
      invariant leases == Leases(shard[..j], k, now)
    {
      assert shard[..j + 1][..j] == shard[..j];
      if Matches(k, shard[j].obj, now) { leases := leases + [shard[j].obj.lease]; }
    }
    assert shard[..|shard|] == shard;
  }

  // ---- what a sweep does to the leases and how much it evicts ----

  lemma StrippedMatchesNothing(e: Entry, k: Kind, now: int)
    requires k.Unpinned? || k.Pinned?
    ensures |Strip(e)| <= 1 && (Strip(e) != [] ==> !Matches(k, Strip(e)[0].obj, now))
  {
    ErasedHasNoMemory(e.obj);
  }

  lemma LeasesAppend(s: seq<Entry>, e: Entry, k: Kind, now: int)
    ensures Leases(s + [e], k, now) == Leases(s, k, now) + (if Matches(k, e.obj, now) then [e.obj.lease] else [])
  {
    assert (s + [e])[..|s|] == s;
  }

  lemma LeasesStrip(s: seq<Entry>, e: Entry, k: Kind, now: int)
    requires k.Unpinned? || k.Pinned?
    ensures Leases(s + Strip(e), k, now) == Leases(s, k, now)
  {
    StrippedMatchesNothing(e, k, now);
    if Strip(e) != [] {
      assert Strip(e) == [Strip(e)[0]];
      LeasesAppend(s, Strip(e)[0], k, now);
    } else {
      assert s + Strip(e) == s;
    }
  }

  // The first pass takes from a shard exactly the evictable leases up to the timeout.
  lemma {:induction false} FirstSweep(s: seq<Entry>, t: int, now: int, budget: int)
    requires budget >= |s|
    ensures var w, L := Sweep(s, First(t), now, budget), Leases(s, Unpinned, now);
      w.count == AtMost(L, t) <= |s| && Leases(w.kept, Unpinned, now) == Above(L, t)
    ensures Leases(Sweep(s, First(t), now, budget).kept, Pinned, now) == Leases(s, Pinned, now)
  {
    if s != [] {
      var p, e := s[..|s| - 1], s[|s| - 1];
      FirstSweep(p, t, now, budget);
      var w := Sweep(p, First(t), now, budget);
      var L := Leases(p, Unpinned, now);
      LeasesStrip(w.kept, e, Unpinned, now);
      LeasesStrip(w.kept, e, Pinned, now);
      LeasesAppend(w.kept, e, Unpinned, now);
      LeasesAppend(w.kept, e, Pinned, now);
      AtMostAppend(L, e.obj.lease, t);
      assert L + [] == L;
    }
  }

  lemma AtMostAppend(L: seq<int>, x: int, t: int)
    ensures AtMost(L + [x], t) == AtMost(L, t) + (if x <= t then 1 else 0)
    ensures Above(L + [x], t) == Above(L, t) + (if x > t then [x] else [])
  {
    assert (L + [x])[..|L|] == L;
  }

  // Second pass A evicts the unpinned objects up to the timeout, or as many as the
  // budget allows. A timeout no later than `now` makes the missing lease check harmless.
  lemma {:induction false} SecondASweep(s: seq<Entry>, t: int, now: int, budget: nat)
    requires t <= now
    ensures var w, L := Sweep(s, SecondA(t), now, budget), Leases(s, Unpinned, now);
      && w.count == MinOf(budget, AtMost(L, t)) && w.count + |Leases(w.kept, Unpinned, now)| == |L|
      && (AtMost(L, t) <= budget ==> Leases(w.kept, Unpinned, now) == Above(L, t))
      && Leases(w.kept, Pinned, now) == Leases(s, Pinned, now)
  {
    hide Evicts, Matches, Strip, FreedBy, Leases, AtMost, Above;
    EmptyLeases(Unpinned, now);
    EmptyLeases(Pinned, now);
    EmptyCounts(t);
    if s != [] {
      var p, e := s[..|s| - 1], s[|s| - 1];
      SecondASweep(p, t, now, budget);
      assert s == p + [e];
      var w, L := Sweep(p, SecondA(t), now, budget), Leases(p, Unpinned, now);
      EvictsA(e.obj, t, now);
      LeasesAppend(p, e, Unpinned, now);
      LeasesStrip(w.kept, e, Unpinned, now);
      LeasesAppend(w.kept, e, Unpinned, now);
      LeasesAppend(p, e, Pinned, now);
      LeasesStrip(w.kept, e, Pinned, now);
      LeasesAppend(w.kept, e, Pinned, now);
      AtMostAppend(L, e.obj.lease, t);
      assert L + [] == L;
    }
  }

  lemma EvictsA(o: Object, t: int, now: int)
    requires t <= now
    ensures Evicts(SecondA(t), o, now) <==> Matches(Unpinned, o, now) && o.lease <= t
    ensures !(Matches(Unpinned, o, now) && Matches(Pinned, o, now))
  {}

  lemma EvictsB(o: Object, t: int, now: int)
    ensures Evicts(SecondB(t), o, now) <==> Matches(Unpinned, o, now) || (Matches(Pinned, o, now) && o.lease <= t)
    ensures !(Matches(Unpinned, o, now) && Matches(Pinned, o, now))
  {}

  lemma EmptyLeases(k: Kind, now: int)
    ensures Leases([], k, now) == []
  {}

  // Second pass B evicts unpinned objects and pinned ones up to the timeout, as far as the budget goes.
  lemma {:induction false} SecondBSweep(s: seq<Entry>, t: int, now: int, budget: nat)
    ensures var w, U, P := Sweep(s, SecondB(t), now, budget), Leases(s, Unpinned, now), Leases(s, Pinned, now);
      && w.count == MinOf(budget, |U| + AtMost(P, t))
      && w.count + |Leases(w.kept, Unpinned, now)| + |Leases(w.kept, Pinned, now)| == |U| + |P|
      && (|U| + AtMost(P, t) <= budget ==>
           Leases(w.kept, Unpinned, now) == [] && Leases(w.kept, Pinned, now) == Above(P, t))
  {
    hide Evicts, Matches, Strip, FreedBy, Leases, AtMost, Above;
    EmptyLeases(Unpinned, now);
    EmptyLeases(Pinned, now);
    EmptyCounts(t);
    if s != [] {
      var p, e := s[..|s| - 1], s[|s| - 1];
      SecondBSweep(p, t, now, budget);
      assert s == p + [e];
      var w := Sweep(p, SecondB(t), now, budget);
      EvictsB(e.obj, t, now);
      LeasesAppend(p, e, Unpinned, now);
      LeasesAppend(p, e, Pinned, now);
      LeasesStrip(w.kept, e, Unpinned, now);
      LeasesStrip(w.kept, e, Pinned, now);
      LeasesAppend(w.kept, e, Unpinned, now);
      LeasesAppend(w.kept, e, Pinned, now);
      AtMostAppend(Leases(p, Pinned, now), e.obj.lease, t);
      assert Leases(p, Pinned, now) + [] == Leases(p, Pinned, now);
    }
  }

  lemma EmptyCounts(t: int)
    ensures AtMost([], t) == 0 && Below([], t) == 0 && Above([], t) == []
  {}

  // Candidates are those that can be evicted and the bare ones, whatever the order.
  lemma {:induction false} CandidatesSplit(s: seq<Entry>, now: int, t: int)
    ensures var C, U, D := Leases(s, Candidate, now), Leases(s, Unpinned, now), Leases(s, Bare, now);
      |C| == |U| + |D| && AtMost(C, t) == AtMost(U, t) + AtMost(D, t) && Below(C, t) == Below(U, t) + Below(D, t)
    ensures var C, U, D := Leases(s, PinnedCandidate, now), Leases(s, Pinned, now), Leases(s, PinnedBare, now);
      |C| == |U| + |D| && AtMost(C, t) == AtMost(U, t) + AtMost(D, t) && Below(C, t) == Below(U, t) + Below(D, t)
  {
    hide Matches, AtMost, Below, Leases;
    forall k ensures Leases([], k, now) == [] { EmptyLeases(k, now); }
    EmptyCounts(t);
    if s != [] {
      var p, e := s[..|s| - 1], s[|s| - 1];
      CandidatesSplit(p, now, t);
      assert s == p + [e];
      OneKind(e.obj, now);
      forall k ensures Leases(s, k, now) == Leases(p, k, now) + (if Matches(k, e.obj, now) then [e.obj.lease] else [])
      { LeasesAppend(p, e, k, now); }
      forall k
        ensures AtMost(Leases(p, k, now) + [e.obj.lease], t) == AtMost(Leases(p, k, now), t) +
          (if e.obj.lease <= t then 1 else 0)
        ensures Below(Leases(p, k, now) + [e.obj.lease], t) == Below(Leases(p, k, now), t) +
          (if e.obj.lease < t then 1 else 0)
        ensures Leases(p, k, now) + [] == Leases(p, k, now)
      { BelowAppend(Leases(p, k, now), e.obj.lease, t); }
    }
  }

  lemma OneKind(o: Object, now: int)
    ensures Matches(Candidate, o, now) <==> Matches(Unpinned, o, now) || Matches(Bare, o, now)
    ensures !(Matches(Unpinned, o, now) && Matches(Bare, o, now))
    ensures Matches(PinnedCandidate, o, now) <==> Matches(Pinned, o, now) || Matches(PinnedBare, o, now)
    ensures !(Matches(Pinned, o, now) && Matches(PinnedBare, o, now))
  {}

  lemma BelowAppend(L: seq<int>, x: int, t: int)
    ensures AtMost(L + [x], t) == AtMost(L, t) + (if x <= t then 1 else 0)
    ensures Below(L + [x], t) == Below(L, t) + (if x < t then 1 else 0)
  {
    assert (L + [x])[..|L|] == L;
  }

  lemma {:induction false} LeasesExpired(s: seq<Entry>, k: Kind, now: int)
    ensures forall x | x in Leases(s, k, now) :: x <= now
  {
    if s != [] { LeasesExpired(s[..|s| - 1], k, now); }
  }

  function MinOf(a: int, b: int): int {
    if a < b then a else b
  }

  // ---- safety and bytes of a sweep ----

  // The lease is over, there are memory replicas, and all of them are complete.
  ghost predicate Evictable(o: Object, now: int) {
    o.lease <= now && InMemory(o) && forall x | x in o.replicas && x.Memory? :: x.status == COMPLETE
  }

  lemma EvictableMeans(o: Object, now: int)
    ensures Evictable(o, now) <==> Ready(o, now) && o.HasMemReplica()
    ensures o.IsSoftPinned(now) <==> SoftPinned(o, now)
  {
    InMemoryMeans(o);
    if x :| x in o.replicas && x.Memory? && x.status != COMPLETE {
      var i :| 0 <= i < |o.replicas| && o.replicas[i] == x;
    }
    if i :| 0 <= i < |o.replicas| && o.replicas[i].status != COMPLETE && o.replicas[i].Type() == MEMORY {
      assert o.replicas[i] in o.replicas;
    }
  }

  ghost function OnDisk(): Replica -> bool {
    (x: Replica) => x.Disk?
  }

  // An evicted entry is still there: it has exactly its other replicas.
  ghost predicate Loses(e: Entry, x: Entry) {
    && x.key == e.key && x.obj.size == e.obj.size && x.obj.lease == e.obj.lease && x.obj.softPin == e.obj.softPin
    && Filtered(e.obj.replicas, x.obj.replicas, OnDisk())
  }

  // It stays iff there are other replicas, and the object has bytes.
  ghost predicate Remains(o: Object) {
    o.size > 0 && exists x :: x in o.replicas && x.Disk?
  }

  // What may become of one entry; soft-pinned objects may only go when that is allowed.
  ghost predicate Outcome(e: Entry, t: seq<Entry>, now: int, allow: bool) {
    || t == [e]
    || (&& Evictable(e.obj, now) && (allow || !SoftPinned(e.obj, now))
        && if Remains(e.obj) then |t| == 1 && Loses(e, t[0]) else t == [])
  }

  // Entry by entry, in order: s' is what became of s.
  ghost predicate Safe(s: seq<Entry>, s': seq<Entry>, now: int, allow: bool)
    decreases |s|
  {
    if s == [] then s' == []
    else
      var p, e := s[..|s| - 1], s[|s| - 1];
      || (Outcome(e, [], now, allow) && Safe(p, s', now, allow))
      || (s' != [] && Outcome(e, [s'[|s'| - 1]], now, allow) && Safe(p, s'[..|s'| - 1], now, allow))
  }

  ghost predicate RuleOk(r: Rule, now: int) {
    r.SecondA? ==> r.timeout <= now
  }

  lemma {:induction false} WithoutDisk(rs: seq<Replica>)
    ensures Filtered(rs, Without(rs, MEMORY), OnDisk())
  {
    hide Filtered;
    if rs == [] {
      FilteredNone(OnDisk());
    } else {
      var p, x := rs[..|rs| - 1], rs[|rs| - 1];
      WithoutDisk(p);
      FilteredNext(p, Without(p, MEMORY), OnDisk(), x);
      assert rs == p + [x];
    }
  }

  // An eviction by a rule is such an outcome.
  lemma StripOutcome(e: Entry, r: Rule, now: int)
    requires RuleOk(r, now) && Evicts(r, e.obj, now)
    ensures Outcome(e, Strip(e), now, r.SecondB?) && |Strip(e)| <= 1
  {
    hide Filtered, Without;
    EvictableMeans(e.obj, now);
    WithoutDisk(e.obj.replicas);
    FilteredMembers(e.obj.replicas, Without(e.obj.replicas, MEMORY), OnDisk());
    var rest := Without(e.obj.replicas, MEMORY);
    if rest != [] { assert rest[0] in rest; }
  }

  lemma SafeNext(s: seq<Entry>, s': seq<Entry>, e: Entry, t: seq<Entry>, now: int, allow: bool)
    requires Safe(s, s', now, allow) && Outcome(e, t, now, allow) && |t| <= 1
    ensures Safe(s + [e], s' + t, now, allow)
  {
    hide Outcome;
    assert (s + [e])[..|s|] == s;
    if t == [] {
      assert s' + t == s';
    } else {
      assert (s' + t)[..|s'|] == s' && t == [(s' + t)[|s'|]];
    }
  }

  // Only evictable objects lose anything, and they lose exactly their memory replicas.
  lemma {:induction false} SweepSafe(s: seq<Entry>, r: Rule, now: int, budget: int)
    requires RuleOk(r, now)
    ensures Safe(s, Sweep(s, r, now, budget).kept, now, r.SecondB?)
  {
    hide Outcome, Safe, Evicts, Strip, FreedBy, RuleOk;
    if s == [] {
      NothingSafe(now, r.SecondB?);
    } else {
      var p, e := s[..|s| - 1], s[|s| - 1];
      SweepSafe(p, r, now, budget);
      assert s == p + [e];
      var w := Sweep(p, r, now, budget);
      if w.count < budget && Evicts(r, e.obj, now) {
        StripOutcome(e, r, now);
        SafeNext(p, w.kept, e, Strip(e), now, r.SecondB?);
      } else {
        StaysOutcome(e, now, r.SecondB?);
        SafeNext(p, w.kept, e, [e], now, r.SecondB?);
      }
    }
  }

  lemma NothingSafe(now: int, allow: bool)
    ensures Safe([], [], now, allow)
  {}

  lemma StaysOutcome(e: Entry, now: int, allow: bool)
    ensures Outcome(e, [e], now, allow)
  {}

  lemma {:induction false} SafeSelf(s: seq<Entry>, now: int, allow: bool)
    ensures Safe(s, s, now, allow)
  {
    hide Outcome;
    if s != [] {
      SafeSelf(s[..|s| - 1], now, allow);
      StaysOutcome(s[|s| - 1], now, allow);
    }
  }

  // What is safe for pinned objects is safe when they may go.
  lemma {:induction false} SafeAllowed(s: seq<Entry>, s': seq<Entry>, now: int, allow: bool)
    requires Safe(s, s', now, false)
    ensures Safe(s, s', now, allow)
    decreases |s|
  {
    hide Loses, Evictable, Remains;
    if s != [] {
      var p, e := s[..|s| - 1], s[|s| - 1];
      if Outcome(e, [], now, false) && Safe(p, s', now, false) {
        SafeAllowed(p, s', now, allow);
      } else {
        SafeAllowed(p, s'[..|s'| - 1], now, allow);
      }
    }
  }

  // An entry that lost its memory replicas cannot lose them again.
  lemma LosesOnce(e: Entry, x: Entry, now: int)
    requires Loses(e, x)
    ensures !Evictable(x.obj, now)
  {
    FilteredMembers(e.obj.replicas, x.obj.replicas, OnDisk());
  }

  lemma OutcomeTrans(e: Entry, x: Entry, t: seq<Entry>, now: int, allow: bool)
    requires Outcome(e, [x], now, allow) && Outcome(x, t, now, allow)
    ensures Outcome(e, t, now, allow)
  {
    hide Evictable, Loses, Remains;
    if e != x { LosesOnce(e, x, now); }
  }

  lemma {:induction false} SafeTrans(a: seq<Entry>, b: seq<Entry>, c: seq<Entry>, now: int, allow: bool)
    requires Safe(a, b, now, allow) && Safe(b, c, now, allow)
    ensures Safe(a, c, now, allow)
    decreases |a|
  {
    hide Outcome;
    if a != [] {
      var p, e := a[..|a| - 1], a[|a| - 1];
      if Outcome(e, [], now, allow) && Safe(p, b, now, allow) {
        SafeTrans(p, b, c, now, allow);
      } else {
        var q, x := b[..|b| - 1], b[|b| - 1];
        if Outcome(x, [], now, allow) && Safe(q, c, now, allow) {
          OutcomeTrans(e, x, [], now, allow);
          SafeTrans(p, q, c, now, allow);
        } else {
          OutcomeTrans(e, x, [c[|c| - 1]], now, allow);
          SafeTrans(p, q, c[..|c| - 1], now, allow);
        }
      }
    }
  }

  function EntryBytes(s: seq<Entry>): nat {
    if s == [] then 0 else EntryBytes(s[..|s| - 1]) + ReplicasBytes(s[|s| - 1].obj.replicas)
  }

  lemma EntryBytesStrip(s: seq<Entry>, e: Entry)
    ensures EntryBytes(s + Strip(e)) == EntryBytes(s)
    ensures EntryBytes(s + [e]) == EntryBytes(s) + ReplicasBytes(e.obj.replicas)
  {
    WithoutMemoryBytes(e.obj.replicas);
    assert (s + [e])[..|s|] == s;
    if Strip(e) != [] {
      assert (s + Strip(e))[..|s|] == s;
    } else {
      assert s + Strip(e) == s;
    }
  }

  lemma NoBytes()
    ensures EntryBytes([]) == 0
  {}

  ghost predicate AllSizesOk(s: seq<Entry>) {
    forall e | e in s :: SizesOk(e.obj)
  }

  // The buffers destroyed are the drop in bytes held; the size that is counted as freed is the
  // same number, because every memory replica has the size of its object.
  lemma {:induction false} SweepBytes(s: seq<Entry>, r: Rule, now: int, budget: int)
    ensures var w := Sweep(s, r, now, budget); EntryBytes(w.kept) + w.released == EntryBytes(s)
    ensures AllSizesOk(s) ==> Sweep(s, r, now, budget).freed == Sweep(s, r, now, budget).released
  {
    hide ReplicasBytes, SizesOk, Evicts, Strip, FreedBy, EntryBytes;
    if s == [] {
      NoBytes();
    } else {
      var p, e := s[..|s| - 1], s[|s| - 1];
      assert e in s && forall x | x in p :: x in s;
      assert s == p + [e];
      SweepBytes(p, r, now, budget);
      EntryBytesStrip(Sweep(p, r, now, budget).kept, e);
      EntryBytesStrip(p, e);
      if SizesOk(e.obj) { FreedIsHeld(e.obj); }
    }
  }

  lemma FreedIsHeld(o: Object)
    requires SizesOk(o)
    ensures FreedBy(o) == ReplicasBytes(o.replicas)
  {
    MemoryBytes(o.replicas, o.size);
  }

  lemma OutcomeSizes(e: Entry, x: Entry, now: int, allow: bool)
    requires SizesOk(e.obj) && Outcome(e, [x], now, allow)
    ensures SizesOk(x.obj)
  {
    hide BufferBytes, Filtered;
    if e != x { FilteredMembers(e.obj.replicas, x.obj.replicas, OnDisk()); }
  }

  lemma {:induction false} SafeSizes(s: seq<Entry>, s': seq<Entry>, now: int, allow: bool)
    requires AllSizesOk(s) && Safe(s, s', now, allow)
    ensures AllSizesOk(s')
    decreases |s|
  {
    hide Outcome, SizesOk;
    if s != [] {
      var p, e := s[..|s| - 1], s[|s| - 1];
      assert e in s && forall x | x in p :: x in s;
      if Outcome(e, [], now, allow) && Safe(p, s', now, allow) {
        SafeSizes(p, s', now, allow);
      } else {
        SafeSizes(p, s'[..|s'| - 1], now, allow);
        OutcomeSizes(e, s'[|s'| - 1], now, allow);
        assert forall x :: x in s' <==> x in s'[..|s'| - 1] || x == s'[|s'| - 1];
      }
    }
  }
}
