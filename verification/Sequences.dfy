/**
 Facts about sequences that several modules need.
 */
module Sequences {

  ghost predicate NoDup<T>(s: seq<T>) {
    forall i, j | 0 <= i < j < |s| :: s[i] != s[j]
  }

  ghost predicate Increasing(s: seq<nat>) {
    forall p, q | 0 <= p < q < |s| :: s[p] < s[q]
  }

  // The positions at lead from t back to s, in order, and are exactly the positions to keep.
  ghost predicate Picks<T(!new)>(s: seq<T>, t: seq<T>, keep: T -> bool, at: seq<nat>) {
    && |at| == |t| && Increasing(at)
    && (forall j | 0 <= j < |at| :: at[j] < |s| && t[j] == s[at[j]])
    && (forall i | 0 <= i < |s| :: keep(s[i]) <==> i in at)
  }

  // t has exactly the elements of s to keep, as often as they are there and in the same order.
  ghost predicate Filtered<T(!new)>(s: seq<T>, t: seq<T>, keep: T -> bool) {
    exists at: seq<nat> :: Picks(s, t, keep, at)
  }

  lemma FilteredNone<T(!new)>(keep: T -> bool)
    ensures Filtered([], [], keep)
  {
    var none: seq<T> := [];
    assert Picks(none, none, keep, []);
  }

  lemma PickNext<T(!new)>(s: seq<T>, t: seq<T>, keep: T -> bool, x: T, at: seq<nat>)
    requires Picks(s, t, keep, at) && keep(x)
    ensures Picks(s + [x], t + [x], keep, at + [|s|])
  {
    var s', t', at' := s + [x], t + [x], at + [|s|];
    assert forall j | 0 <= j < |at| :: at'[j] == at[j] && t'[j] == t[j] && s'[at[j]] == s[at[j]];
    forall i | 0 <= i < |s'| ensures keep(s'[i]) <==> i in at' {
      if i < |s| { assert s'[i] == s[i] && (i in at' <==> i in at); } else { assert at'[|at|] == i; }
    }
  }

  lemma SkipNext<T(!new)>(s: seq<T>, t: seq<T>, keep: T -> bool, x: T, at: seq<nat>)
    requires Picks(s, t, keep, at) && !keep(x)
    ensures Picks(s + [x], t, keep, at)
  {
    var s' := s + [x];
    assert forall i | 0 <= i < |s| :: s'[i] == s[i];
  }

  lemma FilteredNext<T(!new)>(s: seq<T>, t: seq<T>, keep: T -> bool, x: T)
    requires Filtered(s, t, keep)
    ensures Filtered(s + [x], if keep(x) then t + [x] else t, keep)
  {
    hide Picks;
    var at: seq<nat> :| Picks(s, t, keep, at);
    if keep(x) { PickNext(s, t, keep, x, at); } else { SkipNext(s, t, keep, x, at); }
  }

  lemma FilteredMembers<T(!new)>(s: seq<T>, t: seq<T>, keep: T -> bool)
    requires Filtered(s, t, keep)
    ensures forall x :: x in t <==> x in s && keep(x)
  {
    var at: seq<nat> :| Picks(s, t, keep, at);
    forall x ensures x in t <==> x in s && keep(x) {
      if x in t {
        var j :| 0 <= j < |t| && t[j] == x;
        assert at[j] in at;
      }
      if x in s && keep(x) {
        var i :| 0 <= i < |s| && s[i] == x;
        var j :| 0 <= j < |at| && at[j] == i;
        assert t[j] == x;
      }
    }
  }
}
