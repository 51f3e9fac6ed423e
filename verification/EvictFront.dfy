/**
 Which objects the second pass takes when its budget is short: the first ones in
 the order in which the shards and their entries are visited. From that follows
 exactly when an object stays behind that should have gone before another.
 */
module EvictFront {
  import opened Metadata
  import opened Selection
  import opened BatchEvict
  import opened EvictPasses
  import opened EvictOrder

  // ---- the objects that can be evicted, in visiting order ----

  datatype Mark = Mark(pinned: bool, lease: int)

  ghost function MarkOf(o: Object, now: int): seq<Mark> {
    if Matches(Unpinned, o, now) then [Mark(false, o.lease)]
    else if Matches(Pinned, o, now) then [Mark(true, o.lease)]
    else []
  }

  ghost function Marks(s: seq<Entry>, now: int): seq<Mark> {
    if s == [] then [] else Marks(s[..|s| - 1], now) + MarkOf(s[|s| - 1].obj, now)
  }

  ghost function AllMarks(ss: Shards, now: int): seq<Mark> {
    if ss == [] then [] else AllMarks(ss[..|ss| - 1], now) + Marks(ss[|ss| - 1], now)
  }

  // ---- the rules of the second pass ----

  // What the rule evicts.
  predicate Eligible(r: Rule, x: Mark) {
    if r.SecondB? then !x.pinned || x.lease <= r.timeout else !x.pinned && x.lease <= r.timeout
  }

  // What the rule is there to evict: an eligible object that is not just at the threshold.
  predicate Urgent(r: Rule, x: Mark) {
    if r.SecondB? then !x.pinned || x.lease < r.timeout else !x.pinned && x.lease < r.timeout
  }

  // x should go before y: it is older, or, in pass B, it has no pin and y has one.
  predicate Sooner(r: Rule, x: Mark, y: Mark) {
    if r.SecondB? then y.pinned && (!x.pinned || x.lease < y.lease) else !x.pinned && !y.pinned && x.lease < y.lease
  }

  ghost function NumEligible(M: seq<Mark>, r: Rule): nat {
    if M == [] then 0 else NumEligible(M[..|M| - 1], r) + if Eligible(r, M[|M| - 1]) then 1 else 0
  }

  ghost function NumUrgent(M: seq<Mark>, r: Rule): nat {
    if M == [] then 0 else NumUrgent(M[..|M| - 1], r) + if Urgent(r, M[|M| - 1]) then 1 else 0
  }

  // The last one is among the first n eligible ones.
  ghost predicate LastGoes(M: seq<Mark>, r: Rule, n: nat)
    requires M != []
  {
    Eligible(r, M[|M| - 1]) && NumEligible(M[..|M| - 1], r) < n
  }

  // M without its first n eligible ones, and those.
  ghost function Rest(M: seq<Mark>, r: Rule, n: nat): seq<Mark> {
    if M == [] then [] else Rest(M[..|M| - 1], r, n) + if LastGoes(M, r, n) then [] else [M[|M| - 1]]
  }

  ghost function Taken(M: seq<Mark>, r: Rule, n: nat): seq<Mark> {
    if M == [] then [] else Taken(M[..|M| - 1], r, n) + if LastGoes(M, r, n) then [M[|M| - 1]] else []
  }

  // ---- concatenation ----

  lemma {:induction false} CountConcat(A: seq<Mark>, B: seq<Mark>, r: Rule)
    ensures NumEligible(A + B, r) == NumEligible(A, r) + NumEligible(B, r)
    ensures NumUrgent(A + B, r) == NumUrgent(A, r) + NumUrgent(B, r)
  {
    if B == [] {
      assert A + B == A;
    } else {
      CountConcat(A, B[..|B| - 1], r);
      assert (A + B)[..|A + B| - 1] == A + B[..|B| - 1];
    }
  }

  lemma {:induction false} RestConcat(A: seq<Mark>, B: seq<Mark>, r: Rule, n: nat)
    ensures 0 <= MinOf(n, NumEligible(A, r)) <= n
    ensures Rest(A + B, r, n) == Rest(A, r, n) + Rest(B, r, n - MinOf(n, NumEligible(A, r)))
  {
    if B == [] {
      assert A + B == A;
      assert Rest(A, r, n) + [] == Rest(A, r, n);
    } else {
      var p := B[..|B| - 1];
      RestConcat(A, p, r, n);
      CountConcat(A, p, r);
      assert (A + B)[..|A + B| - 1] == A + p;
    }
  }

  // ---- sweeps ----

  // The rule evicts exactly the objects whose mark is eligible.
  lemma EvictsMark(o: Object, r: Rule, now: int)
    requires !r.First? && RuleOk(r, now)
    ensures Evicts(r, o, now) <==> MarkOf(o, now) != [] && Eligible(r, MarkOf(o, now)[0])
  {}

  lemma StripMarks(s: seq<Entry>, e: Entry, now: int)
    ensures Marks(s + Strip(e), now) == Marks(s, now)
    ensures Marks(s + [e], now) == Marks(s, now) + MarkOf(e.obj, now)
  {
    assert (s + [e])[..|s|] == s;
    ErasedHasNoMemory(e.obj);
    if Strip(e) != [] {
      assert (s + Strip(e))[..|s|] == s;
    } else {
      assert s + Strip(e) == s;
    }
  }

  lemma OneMark(M: seq<Mark>, x: Mark, r: Rule, n: nat)
    ensures NumEligible(M + [x], r) == NumEligible(M, r) + if Eligible(r, x) then 1 else 0
    ensures Rest(M + [x], r, n) == Rest(M, r, n) + if Eligible(r, x) && NumEligible(M, r) < n then [] else [x]
  {
    assert (M + [x])[..|M|] == M;
  }

  // A sweep over a shard takes the first eligible objects, as many as the budget allows, and no other.
  lemma {:induction false} SweepRest(s: seq<Entry>, r: Rule, now: int, budget: nat)
    requires !r.First? && RuleOk(r, now)
    ensures var w := Sweep(s, r, now, budget);
      && Marks(w.kept, now) == Rest(Marks(s, now), r, budget)
      && w.count == MinOf(budget, NumEligible(Marks(s, now), r))
  {
    hide Evicts, MarkOf, Strip, FreedBy, Marks, Rest, NumEligible, Eligible;
    NoMarks(now, r, budget);
    if s != [] {
      var p, e := s[..|s| - 1], s[|s| - 1];
      SweepRest(p, r, now, budget);
      var w, M := Sweep(p, r, now, budget), Marks(p, now);
      assert s == p + [e];
      EvictsMark(e.obj, r, now);
      StripMarks(p, e, now);
      StripMarks(w.kept, e, now);
      AtMostOne(e.obj, now);
      if MarkOf(e.obj, now) != [] {
        OneMark(M, MarkOf(e.obj, now)[0], r, budget);
        assert Rest(M, r, budget) + [] == Rest(M, r, budget);
      } else {
        assert M + [] == M && Rest(M, r, budget) + [] == Rest(M, r, budget);
      }
    }
  }

  lemma AtMostOne(o: Object, now: int)
    ensures MarkOf(o, now) == [] || MarkOf(o, now) == [MarkOf(o, now)[0]]
  {}

  lemma NoMarks(now: int, r: Rule, n: nat)
    ensures Marks([], now) == [] && AllMarks([], now) == []
    ensures Rest([], r, n) == [] && NumEligible([], r) == 0
  {}

  lemma {:induction false} AllMarksLast(ss: Shards, now: int)
    requires ss != []
    ensures AllMarks(ss, now) == AllMarks(ss[..|ss| - 1], now) + Marks(ss[|ss| - 1], now)
  {}

  // The same over all shards: for every budget, who survives.
  lemma {:induction false} SweepAllRest(ss: Shards, r: Rule, now: int, budget: nat)
    requires !r.First? && RuleOk(r, now)
    ensures var d, M := SweepAll(ss, r, now, budget), AllMarks(ss, now);
      AllMarks(d.out, now) == Rest(M, r, budget) && d.count == MinOf(budget, NumEligible(M, r))
  {
    hide Sweep, Marks, AllMarks, Rest, NumEligible, SweepAll, RuleOk;
    NoMarks(now, r, budget);
    NothingSwept(r, now, budget);
    if ss != [] {
      var p, s := ss[..|ss| - 1], ss[|ss| - 1];
      SweepAllRest(p, r, now, budget);
      var d := SweepAll(p, r, now, budget);
      SweepAllLast(ss, r, now, budget);
      RestConcat(AllMarks(p, now), Marks(s, now), r, budget);
      CountConcat(AllMarks(p, now), Marks(s, now), r);
      var w := Sweep(s, r, now, budget - d.count);
      SweepRest(s, r, now, budget - d.count);
      AllMarksLast(ss, now);
      AllMarksLast(d.out + [w.kept], now);
      assert (d.out + [w.kept])[..|d.out|] == d.out;
    }
  }

  // ---- marks and lists of leases ----

  lemma {:induction false} MarksCount(s: seq<Entry>, now: int, r: Rule)
    requires !r.First?
    ensures var M, U, P := Marks(s, now), Leases(s, Unpinned, now), Leases(s, Pinned, now);
      && (r.SecondA? ==> NumUrgent(M, r) == Below(U, r.timeout))
      && (r.SecondB? ==> NumUrgent(M, r) == |U| + Below(P, r.timeout))
  {
    hide MarkOf, Marks, Leases, Below, NumUrgent;
    NoneCounted(now, r);
    if s != [] {
      var p, e := s[..|s| - 1], s[|s| - 1];
      MarksCount(p, now, r);
      assert s == p + [e];
      StripMarks(p, e, now);
      CountConcat(Marks(p, now), MarkOf(e.obj, now), r);
      forall k | k == Unpinned || k == Pinned ensures Leases(s, k, now) == Leases(p, k, now) + LeaseOf(e.obj, k, now) {
        LeasesAppend(p, e, k, now);
      }
      AtMostConcat(Leases(p, Unpinned, now), LeaseOf(e.obj, Unpinned, now), r.timeout);
      AtMostConcat(Leases(p, Pinned, now), LeaseOf(e.obj, Pinned, now), r.timeout);
      MarkCount(e.obj, now, r);
    }
  }

  ghost function LeaseOf(o: Object, k: Kind, now: int): seq<int> {
    if Matches(k, o, now) then [o.lease] else []
  }

  lemma NoneCounted(now: int, r: Rule)
    ensures Marks([], now) == [] && NumUrgent([], r) == 0 && Below([], r.timeout) == 0
    ensures Leases([], Unpinned, now) == [] && Leases([], Pinned, now) == []
  {}

  // One object.
  lemma MarkCount(o: Object, now: int, r: Rule)
    requires !r.First?
    ensures var M, U, P := MarkOf(o, now), LeaseOf(o, Unpinned, now), LeaseOf(o, Pinned, now);
      && (r.SecondA? ==> NumUrgent(M, r) == Below(U, r.timeout))
      && (r.SecondB? ==> NumUrgent(M, r) == |U| + Below(P, r.timeout))
  {
    assert !(Matches(Unpinned, o, now) && Matches(Pinned, o, now));
    hide Matches;
    var L := [o.lease];
    assert L[..0] == [];
    forall b ensures [Mark(b, o.lease)][..0] == [] {}
  }

  lemma {:induction false} AllMarksCount(ss: Shards, now: int, r: Rule)
    requires !r.First?
    ensures var M, U, P := AllMarks(ss, now), AllLeases(ss, Unpinned, now), AllLeases(ss, Pinned, now);
      && (r.SecondA? ==> NumUrgent(M, r) == Below(U, r.timeout))
      && (r.SecondB? ==> NumUrgent(M, r) == |U| + Below(P, r.timeout))
  {
    hide Leases, Marks, Below;
    NoneBelowNone(r.timeout);
    if ss != [] {
      var p, s := ss[..|ss| - 1], ss[|ss| - 1];
      AllMarksCount(p, now, r);
      MarksCount(s, now, r);
      CountConcat(AllMarks(p, now), Marks(s, now), r);
      AtMostConcat(AllLeases(p, Unpinned, now), Leases(s, Unpinned, now), r.timeout);
      AtMostConcat(AllLeases(p, Pinned, now), Leases(s, Pinned, now), r.timeout);
    }
  }

  lemma NoneBelowNone(t: int)
    ensures Below([], t) == 0
  {}

  // ---- the order ----

  // No survivor should have gone before something that went.
  ghost predicate InOrder(M: seq<Mark>, kept: seq<Mark>, r: Rule) {
    forall x, y | x in kept && multiset(M)[y] > multiset(kept)[y] :: !Sooner(r, x, y)
  }

  // Fewer than n eligible objects are visited before any urgent one.
  ghost predicate InFront(M: seq<Mark>, r: Rule, n: nat) {
    forall i | 0 <= i < |M| && Urgent(r, M[i]) :: NumEligible(M[..i], r) < n
  }

  lemma NoneTaken(r: Rule, n: nat)
    ensures Taken([], r, n) == [] && Rest([], r, n) == []
  {}

  lemma {:induction false} TakenLast(M: seq<Mark>, r: Rule, n: nat)
    requires M != []
    ensures var p, x := M[..|M| - 1], M[|M| - 1];
      if LastGoes(M, r, n)
      then Taken(M, r, n) == Taken(p, r, n) + [x] && Rest(M, r, n) == Rest(p, r, n)
      else Taken(M, r, n) == Taken(p, r, n) && Rest(M, r, n) == Rest(p, r, n) + [x]
  {}

  lemma OneMore(p: seq<Mark>, T: seq<Mark>, R: seq<Mark>, x: Mark)
    requires multiset(p) == multiset(T) + multiset(R)
    ensures multiset(p + [x]) == multiset(T + [x]) + multiset(R) == multiset(T) + multiset(R + [x])
  {}

  lemma {:induction false} TakenAndRest(M: seq<Mark>, r: Rule, n: nat)
    ensures multiset(M) == multiset(Taken(M, r, n)) + multiset(Rest(M, r, n))
  {
    hide *;
    if M == [] {
      NoneTaken(r, n);
    } else {
      var p, x := M[..|M| - 1], M[|M| - 1];
      TakenAndRest(p, r, n);
      TakenLast(M, r, n);
      OneMore(p, Taken(p, r, n), Rest(p, r, n), x);
      assert M == p + [x];
    }
  }

  lemma {:induction false} TakenCount(M: seq<Mark>, r: Rule, n: nat)
    ensures forall y | y in Taken(M, r, n) :: Eligible(r, y)
    ensures |Taken(M, r, n)| == MinOf(n, NumEligible(M, r)) && NumUrgent(Taken(M, r, n), r) <= NumUrgent(M, r)
  {
    hide Eligible, Urgent;
    if M != [] {
      TakenCount(M[..|M| - 1], r, n);
      var T, x := Taken(M[..|M| - 1], r, n), M[|M| - 1];
      assert (T + [x])[..|T|] == T && T + [] == T;
    }
  }

  lemma WentWasTaken(M: seq<Mark>, r: Rule, n: nat, y: Mark)
    ensures multiset(M)[y] > multiset(Rest(M, r, n))[y] <==> y in Taken(M, r, n)
  {
    TakenAndRest(M, r, n);
    assert y in Taken(M, r, n) <==> multiset(Taken(M, r, n))[y] > 0;
  }

  // An urgent object stays if and only if it is visited after n eligible ones.
  lemma {:induction false} UrgentStays(M: seq<Mark>, r: Rule, n: nat)
    ensures InFront(M, r, n) <==> forall x | x in Rest(M, r, n) :: !Urgent(r, x)
  {
    if M != [] {
      var p, x := M[..|M| - 1], M[|M| - 1];
      UrgentStays(p, r, n);
      assert M == p + [x];
      assert forall i | 0 <= i < |p| :: p[..i] == M[..i] && p[i] == M[i];
      FrontLast(p, x, r, n);
    }
  }

  lemma FrontLast(p: seq<Mark>, x: Mark, r: Rule, n: nat)
    ensures InFront(p + [x], r, n) <==> InFront(p, r, n) && (Urgent(r, x) ==> NumEligible(p, r) < n)
  {
    var M := p + [x];
    assert forall i | 0 <= i < |p| :: p[..i] == M[..i] && p[i] == M[i];
    assert M[..|p|] == p && M[|p|] == x;
  }

  lemma {:induction false} AllUrgent(T: seq<Mark>, r: Rule)
    requires forall y | y in T :: Urgent(r, y)
    ensures NumUrgent(T, r) == |T|
  {
    if T != [] {
      assert T[|T| - 1] in T && forall y | y in T[..|T| - 1] :: y in T;
      AllUrgent(T[..|T| - 1], r);
    }
  }

  lemma {:induction false} StaysIsFull(M: seq<Mark>, r: Rule, n: nat, x: Mark)
    requires x in Rest(M, r, n) && Eligible(r, x)
    ensures NumEligible(M, r) >= n
  {
    if M != [] && x in Rest(M[..|M| - 1], r, n) { StaysIsFull(M[..|M| - 1], r, n, x); }
  }

  // When fewer than n objects are urgent: the sweep keeps to the order if and only if every urgent
  // object comes among the first n eligible ones.
  lemma FrontExactly(M: seq<Mark>, r: Rule, n: nat)
    requires !r.First? && NumUrgent(M, r) < n
    ensures InOrder(M, Rest(M, r, n), r) <==> InFront(M, r, n)
  {
    hide Rest, Taken, NumEligible, NumUrgent;
    var T, R := Taken(M, r, n), Rest(M, r, n);
    TakenCount(M, r, n);
    UrgentStays(M, r, n);
    forall y ensures multiset(M)[y] > multiset(R)[y] <==> y in T { WentWasTaken(M, r, n, y); }
    if !InFront(M, r, n) {
      var x :| x in R && Urgent(r, x);
      StaysIsFull(M, r, n, x);
      if forall y | y in T :: Urgent(r, y) { AllUrgent(T, r); }
      var y :| y in T && !Urgent(r, y);
      assert Eligible(r, y) && Sooner(r, x, y);
    }
  }

  // ---- the second pass of a call ----

  ghost predicate Passes(l: Lists, need: int) {
    PassA(l, need) || PassB(l, need)
  }

  ghost function PassRule(l: Lists, need: int): Rule
    requires Passes(l, need)
  {
    if PassA(l, need) then SecondA(CutA(l, need)) else SecondB(CutB(l, need))
  }

  // The second pass left exactly what comes after the first eligible objects it aimed at.
  ghost predicate FirstOnesTaken(l: Lists, need: int, mid: Shards, out: Shards, now: int) {
    if Passes(l, need)
    then AllMarks(out, now) == Rest(AllMarks(mid, now), PassRule(l, need), Aim(l, need))
    else out == mid
  }

  ghost predicate KeepsOrder(l: Lists, need: int, mid: Shards, out: Shards, now: int) {
    Passes(l, need) ==> InOrder(AllMarks(mid, now), AllMarks(out, now), PassRule(l, need))
  }

  ghost predicate UrgentInFront(l: Lists, need: int, mid: Shards, now: int) {
    Passes(l, need) ==> InFront(AllMarks(mid, now), PassRule(l, need), Aim(l, need))
  }

  lemma FewUrgent(ss: Shards, now: int, allow: bool, target: real, need: int)
    requires Passes(ListsOf(ss, now, allow, target), need)
    ensures var l := ListsOf(ss, now, allow, target);
      NumUrgent(AllMarks(FirstAll(ss, now, target).out, now), PassRule(l, need)) < Aim(l, need)
  {
    hide FirstAll, NoPin, NoPinBare, AllLeases, AtMost, Below, NthSmallest, AllMarks, NumUrgent;
    var l := ListsOf(ss, now, allow, target);
    FirstCounts(ss, now, target);
    ListsAreOk(ss, now, allow, target);
    AllMarksCount(FirstAll(ss, now, target).out, now, PassRule(l, need));
  }

  // Who survives the second pass, and exactly when it keeps to the order of leases and pins: if and
  // only if every urgent object is visited among the first eligible ones it aims at.
  lemma OrderExactly(ss: Shards, now: int, allow: bool, target: real, lowerbound: real)
    ensures var l, need := ListsOf(ss, now, allow, target), Need(ss, now, target, lowerbound);
      var mid, out := FirstAll(ss, now, target).out, EvictAll(ss, now, allow, target, lowerbound).out;
      && FirstOnesTaken(l, need, mid, out, now)
      && (KeepsOrder(l, need, mid, out, now) <==> UrgentInFront(l, need, mid, now))
  {
    hide FirstAll, SweepAll, NoPin, NoPinBare, AllLeases, NthSmallest, Share, EntryCount;
    hide AllMarks, Rest, InOrder, InFront, NumUrgent, NumEligible;
    var l, need := ListsOf(ss, now, allow, target), Need(ss, now, target, lowerbound);
    var mid := FirstAll(ss, now, target).out;
    if Passes(l, need) {
      var r := PassRule(l, need);
      if PassA(l, need) { CutsExpired(ss, now, allow, target, need); }
      SweepAllRest(mid, r, now, Aim(l, need));
      FewUrgent(ss, now, allow, target, need);
      FrontExactly(AllMarks(mid, now), r, Aim(l, need));
    }
  }
}
