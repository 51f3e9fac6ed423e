/**
 Mounted segments and the indexes the segment manager keeps over them. Every
 operation is given twice: as a function on the value of the five indexes, which
 the interleaving model of module Cluster reuses, and as a method of the class
 that updates them in place.
 */
module Segments {
  import opened Maps
  import opened Sequences
  import G = Grants
  import opened Options

  datatype Segment = Segment(id: nat, name: string, base: G.uint64, size: G.uint64)

  datatype SegmentStatus = OK | UNMOUNTING

  datatype Mounted = Mounted(segment: Segment, status: SegmentStatus, bufAllocator: Option<nat>)

  datatype ErrorCode =
    | SUCCESS | INVALID_PARAMS | SEGMENT_ALREADY_EXISTS | SEGMENT_NOT_FOUND | UNAVAILABLE_IN_CURRENT_STATUS

  // Allocators are named by numbers, clients by numbers.
  datatype Indexes = Indexes(
    allocators: seq<nat>,
    byName: map<string, seq<nat>>,
    mounted: map<nat, Mounted>,
    clientSegments: map<nat, seq<nat>>,
    capacity: int)

  // ---- the operations on values ----

  function Listed<K>(m: map<K, seq<nat>>, k: K): seq<nat> {
    if k in m then m[k] else []
  }

  // std::find followed by erase.
  function RemoveFirst(s: seq<nat>, x: nat): seq<nat> {
    if s == [] then []
    else if s[0] == x then s[1..]
    else [s[0]] + RemoveFirst(s[1..], x)
  }

  // Takes x off the list of k; a list left empty goes.
  function Unlist<K>(m: map<K, seq<nat>>, k: K, x: nat): map<K, seq<nat>> {
    if k !in m then m
    else
      var rest := RemoveFirst(m[k], x);
      if rest == [] then m - {k} else m[k := rest]
  }

  function MountError(s: Indexes, g: Segment): ErrorCode {
    if g.base == 0 || g.size == 0 then INVALID_PARAMS
    else if g.id in s.mounted then
      if s.mounted[g.id].status == OK then SEGMENT_ALREADY_EXISTS else UNAVAILABLE_IN_CURRENT_STATUS
    else SUCCESS
  }

  function Mount(s: Indexes, g: Segment, client: nat, allocator: nat): Indexes {
    if MountError(s, g) != SUCCESS then s
    else
      Indexes(
        s.allocators + [allocator],
        s.byName[g.name := Listed(s.byName, g.name) + [allocator]],
        s.mounted[g.id := Mounted(g, OK, Some(allocator))],
        s.clientSegments[client := Listed(s.clientSegments, client) + [g.id]],
        s.capacity + g.size)
  }

  function PrepareError(s: Indexes, id: nat): ErrorCode {
    if id !in s.mounted then SEGMENT_NOT_FOUND
    else if s.mounted[id].status == UNMOUNTING then UNAVAILABLE_IN_CURRENT_STATUS
    else SUCCESS
  }

  function PrepareUnmount(s: Indexes, id: nat): Indexes {
    if PrepareError(s, id) != SUCCESS || s.mounted[id].bufAllocator.None? then s
    else
      var m := s.mounted[id];
      var a := m.bufAllocator.value;
      s.(allocators := RemoveFirst(s.allocators, a),
         byName := Unlist(s.byName, m.segment.name, a),
         mounted := s.mounted[id := m.(status := UNMOUNTING, bufAllocator := None)])
  }

  function CommitUnmount(s: Indexes, id: nat, client: nat, decCapacity: nat): Indexes {
    s.(clientSegments := Unlist(s.clientSegments, client, id),
       mounted := s.mounted - {id},
       capacity := s.capacity - decCapacity)
  }

  // ---- what the indexes must agree on ----

  // Segment id is in service with allocator a, and has the name when one is given.
  ghost predicate Serves(m: map<nat, Mounted>, id: nat, a: nat, name: Option<string>) {
    && id in m && m[id].status == OK && m[id].bufAllocator == Some(a)
    && (name.Some? ==> m[id].segment.name == name.value)
  }

  // The list has exactly the allocators of the segments in service, each once.
  ghost predicate Exact(m: map<nat, Mounted>, list: seq<nat>, name: Option<string>) {
    && NoDup(list)
    && forall a :: a in list <==> exists id :: Serves(m, id, a, name)
  }

  ghost predicate MountedOk(m: map<nat, Mounted>) {
    && (forall id | id in m :: m[id].segment.id == id && m[id].segment.size > 0)
    && (forall id | id in m :: m[id].status == OK <==> m[id].bufAllocator.Some?)
    && (forall i, j | i in m && j in m && i != j && m[i].status == OK && m[j].status == OK ::
          m[i].bufAllocator != m[j].bufAllocator)
  }

  ghost predicate NamesOk(m: map<nat, Mounted>, byName: map<string, seq<nat>>) {
    && (forall n | n in byName :: byName[n] != [])
    && (forall n :: Exact(m, Listed(byName, n), Some(n)))
  }

  // The sum of the sizes of the mounted segments.
  ghost function Sizes(m: map<nat, Mounted>): nat
    decreases |m|
  {
    if m == map[] then 0
    else
      var id := Pick(m);
      Smaller(m, id);
      m[id].segment.size + Sizes(m - {id})
  }

  ghost predicate Agree(s: Indexes) {
    && MountedOk(s.mounted)
    && Exact(s.mounted, s.allocators, None)
    && NamesOk(s.mounted, s.byName)
    && s.capacity == Sizes(s.mounted)
  }

  // ---- the sum ----

  lemma {:induction false} SizesWithout(m: map<nat, Mounted>, id: nat)
    requires id in m
    ensures Sizes(m) == m[id].segment.size + Sizes(m - {id})
    decreases |m|
  {
    Smaller(m, id);
    var p := Pick(m);
    if p != id {
      Smaller(m, p);
      SizesWithout(m - {p}, id);
      SizesWithout(m - {id}, p);
      assert m - {p} - {id} == m - {id} - {p};
    }
  }

  lemma SizesPut(m: map<nat, Mounted>, id: nat, v: Mounted)
    ensures Sizes(m[id := v]) == v.segment.size + (if id in m then Sizes(m) - m[id].segment.size else Sizes(m))
  {
    SizesWithout(m[id := v], id);
    if id in m {
      SizesWithout(m, id);
      assert m[id := v] - {id} == m - {id};
    } else {
      assert m[id := v] - {id} == m;
    }
  }

  // ---- the lists ----

  lemma {:induction false} RemoveFirstExact(s: seq<nat>, x: nat)
    requires NoDup(s)
    ensures NoDup(RemoveFirst(s, x))
    ensures forall y :: y in RemoveFirst(s, x) <==> y in s && y != x
  {
    if s != [] {
      assert s == [s[0]] + s[1..];
      if s[0] != x {
        RemoveFirstExact(s[1..], x);
        var r := RemoveFirst(s[1..], x);
        assert forall i | 0 <= i < |r| :: r[i] in r;
      }
    }
  }

  lemma AppendNoDup(s: seq<nat>, x: nat)
    requires NoDup(s) && x !in s
    ensures NoDup(s + [x])
  {}

  // Adding a segment in service appends its allocator where the name fits.
  lemma ExactMount(m: map<nat, Mounted>, list: seq<nat>, name: Option<string>, g: Segment, a: nat)
    requires Exact(m, list, name) && g.id !in m && (forall id :: !Serves(m, id, a, name))
    ensures name.None? || name.value == g.name ==> Exact(m[g.id := Mounted(g, OK, Some(a))], list + [a], name)
    ensures name.Some? && name.value != g.name ==> Exact(m[g.id := Mounted(g, OK, Some(a))], list, name)
  {
    var m' := m[g.id := Mounted(g, OK, Some(a))];
    assert forall id, b :: Serves(m, id, b, name) ==> Serves(m', id, b, name);
    assert forall id, b :: Serves(m', id, b, name) && id != g.id ==> Serves(m, id, b, name);
    assert a !in list;
    AppendNoDup(list, a);
    if name.None? || name.value == g.name {
      assert Serves(m', g.id, a, name);
      forall b ensures b in list + [a] <==> exists id :: Serves(m', id, b, name) {
        if id :| Serves(m', id, b, name) { assert id == g.id || Serves(m, id, b, name); }
      }
    } else {
      forall b ensures b in list <==> exists id :: Serves(m', id, b, name) {
        if id :| Serves(m', id, b, name) { assert Serves(m, id, b, name); }
      }
    }
  }

  // Taking a segment out of service takes its allocator off the lists that have it.
  lemma ExactPrepare(m: map<nat, Mounted>, list: seq<nat>, name: Option<string>, id: nat, v: Mounted, a: nat)
    requires MountedOk(m) && Exact(m, list, name) && Serves(m, id, a, None) && v.status == UNMOUNTING
    ensures name.None? || name.value == m[id].segment.name ==> Exact(m[id := v], RemoveFirst(list, a), name)
    ensures name.Some? && name.value != m[id].segment.name ==> Exact(m[id := v], list, name)
  {
    var m' := m[id := v];
    assert forall j, b :: Serves(m', j, b, name) <==> j != id && Serves(m, j, b, name);
    RemoveFirstExact(list, a);
    if name.None? || name.value == m[id].segment.name {
      forall b ensures b in RemoveFirst(list, a) <==> exists j :: Serves(m', j, b, name) {
        if b in RemoveFirst(list, a) {
          var j :| Serves(m, j, b, name);
          assert Serves(m', j, b, name);
        }
        if j :| Serves(m', j, b, name) {
          assert Serves(m, j, b, name);
        }
      }
    } else {
      forall b ensures b in list <==> exists j :: Serves(m', j, b, name) {
        if b in list {
          var j :| Serves(m, j, b, name);
          assert Serves(m', j, b, name);
        }
        if j :| Serves(m', j, b, name) { assert Serves(m, j, b, name); }
      }
    }
  }

  lemma ExactCommit(m: map<nat, Mounted>, list: seq<nat>, name: Option<string>, id: nat)
    requires Exact(m, list, name) && (id in m ==> m[id].status == UNMOUNTING)
    ensures Exact(m - {id}, list, name)
  {
    var m' := m - {id};
    assert forall j, b :: Serves(m', j, b, name) <==> Serves(m, j, b, name);
    forall b ensures b in list <==> exists j :: Serves(m', j, b, name) {
      if b in list {
        var j :| Serves(m, j, b, name);
        assert Serves(m', j, b, name);
      }
      if j :| Serves(m', j, b, name) { assert Serves(m, j, b, name); }
    }
  }

  // ---- every operation keeps the agreement ----

  // The allocator object is new: no segment has it.
  ghost predicate Unused(s: Indexes, allocator: nat) {
    forall id | id in s.mounted :: s.mounted[id].bufAllocator != Some(allocator)
  }

  lemma MountAgrees(s: Indexes, g: Segment, client: nat, a: nat)
    requires Agree(s) && Unused(s, a)
    ensures Agree(Mount(s, g, client, a))
    ensures MountError(s, g) == SUCCESS ==> Mount(s, g, client, a).capacity == s.capacity + g.size
    ensures MountError(s, g) != SUCCESS ==> Mount(s, g, client, a) == s
  {
    hide Exact, Sizes;
    if MountError(s, g) == SUCCESS {
      var m' := s.mounted[g.id := Mounted(g, OK, Some(a))];
      ExactMount(s.mounted, s.allocators, None, g, a);
      SizesPut(s.mounted, g.id, Mounted(g, OK, Some(a)));
      var names := s.byName[g.name := Listed(s.byName, g.name) + [a]];
      forall n ensures Exact(m', Listed(names, n), Some(n)) {
        ExactMount(s.mounted, Listed(s.byName, n), Some(n), g, a);
      }
    }
  }

  lemma PrepareAgrees(s: Indexes, id: nat)
    requires Agree(s)
    ensures Agree(PrepareUnmount(s, id))
    ensures PrepareError(s, id) == SUCCESS ==> s.mounted[id].bufAllocator.Some?
  {
    hide Exact, Sizes;
    if PrepareError(s, id) == SUCCESS {
      var m := s.mounted[id];
      var a := m.bufAllocator.value;
      var v := m.(status := UNMOUNTING, bufAllocator := None);
      assert Serves(s.mounted, id, a, None);
      ExactPrepare(s.mounted, s.allocators, None, id, v, a);
      SizesPut(s.mounted, id, v);
      forall n ensures Exact(s.mounted[id := v], Listed(Unlist(s.byName, m.segment.name, a), n), Some(n)) {
        ExactPrepare(s.mounted, Listed(s.byName, n), Some(n), id, v, a);
      }
    }
  }

  lemma CommitAgrees(s: Indexes, id: nat, client: nat)
    requires Agree(s) && id in s.mounted && s.mounted[id].status == UNMOUNTING
    ensures Agree(CommitUnmount(s, id, client, s.mounted[id].segment.size))
  {
    hide Exact, Sizes;
    ExactCommit(s.mounted, s.allocators, None, id);
    SizesWithout(s.mounted, id);
    forall n ensures Exact(s.mounted - {id}, Listed(s.byName, n), Some(n)) {
      ExactCommit(s.mounted, Listed(s.byName, n), Some(n), id);
    }
  }

  // Commit keeps the agreement if and only if the segment is not in service and the capacity goes
  // down by its size, or by nothing when there is no such segment.
  lemma CommitAgreesExactly(s: Indexes, id: nat, client: nat, dec: nat)
    requires Agree(s)
    ensures Agree(CommitUnmount(s, id, client, dec)) <==>
      if id in s.mounted then s.mounted[id].status == UNMOUNTING && dec == s.mounted[id].segment.size else dec == 0
  {
    hide Sizes;
    var s' := CommitUnmount(s, id, client, dec);
    if id !in s.mounted {
      assert s'.mounted == s.mounted;
    } else {
      SizesWithout(s.mounted, id);
      if s.mounted[id].status == UNMOUNTING {
        CommitAgrees(s, id, client);
      } else {
        var a := s.mounted[id].bufAllocator.value;
        assert Serves(s.mounted, id, a, None);
        assert a in s.allocators;
        assert forall j :: Serves(s'.mounted, j, a, None) ==> j != id && Serves(s.mounted, j, a, None);
        assert forall j :: !Serves(s'.mounted, j, a, None);
      }
    }
  }

  // Prepare takes the segment out of service for good: its allocator is in no list.
  lemma PreparedIsOut(s: Indexes, id: nat)
    requires Agree(s) && PrepareError(s, id) == SUCCESS && s.mounted[id].bufAllocator.Some?
    ensures var s' := PrepareUnmount(s, id); var a := s.mounted[id].bufAllocator.value;
            && (forall b :: b in s'.allocators <==> b in s.allocators && b != a)
            && forall n | n in s'.byName :: a !in s'.byName[n]
  {
    PrepareAgrees(s, id);
    var s', a := PrepareUnmount(s, id), s.mounted[id].bufAllocator.value;
    RemoveFirstExact(s.allocators, a);
    assert Serves(s.mounted, id, a, None);
    forall n | n in s'.byName ensures a !in s'.byName[n] {
      assert Exact(s'.mounted, Listed(s'.byName, n), Some(n));
      assert forall j :: Serves(s'.mounted, j, a, Some(n)) ==> j != id && Serves(s.mounted, j, a, None);
      assert forall j :: !Serves(s'.mounted, j, a, Some(n));
    }
  }

  // ---- whose segments ----

  // Every list of a client names exactly the mounted segments that client owns.
  ghost predicate OwnersExact(s: Indexes, owner: map<nat, nat>) {
    && owner.Keys == s.mounted.Keys
    && (forall c | c in s.clientSegments :: NoDup(s.clientSegments[c]))
    && forall c, id :: id in Listed(s.clientSegments, c) <==> id in owner && owner[id] == c
  }

  lemma MountOwners(s: Indexes, owner: map<nat, nat>, g: Segment, client: nat, a: nat)
    requires OwnersExact(s, owner) && MountError(s, g) == SUCCESS
    ensures OwnersExact(Mount(s, g, client, a), owner[g.id := client])
  {
    var s', owner' := Mount(s, g, client, a), owner[g.id := client];
    assert g.id !in Listed(s.clientSegments, client);
    if client in s.clientSegments { AppendNoDup(s.clientSegments[client], g.id); }
    forall c, id ensures id in Listed(s'.clientSegments, c) <==> id in owner' && owner'[id] == c {
      assert id in Listed(s.clientSegments, c) <==> id in owner && owner[id] == c;
    }
  }

  // Commit keeps the client lists exact if and only if the owner is the client it is given.
  lemma CommitOwners(s: Indexes, owner: map<nat, nat>, id: nat, client: nat, dec: nat)
    requires OwnersExact(s, owner) && id in s.mounted
    ensures OwnersExact(CommitUnmount(s, id, client, dec), owner - {id}) <==> client == owner[id]
  {
    var s' := CommitUnmount(s, id, client, dec);
    var list := Listed(s.clientSegments, client);
    RemoveFirstExact(list, id);
    assert Listed(s'.clientSegments, client) == RemoveFirst(list, id);
    if client != owner[id] {
      assert id in Listed(s.clientSegments, owner[id]);
      assert id in Listed(s'.clientSegments, owner[id]);
    } else {
      forall c, j ensures j in Listed(s'.clientSegments, c) <==> j in owner - {id} && (owner - {id})[j] == c {
        assert j in Listed(s.clientSegments, c) <==> j in owner && owner[j] == c;
      }
    }
  }

  // ---- the manager ----

  class SegmentManager {
    var allocators: seq<nat>
    var allocatorsByName: map<string, seq<nat>>
    var mountedSegments: map<nat, Mounted>
    var clientSegments: map<nat, seq<nat>>
    var capacity: int

    ghost function View(): Indexes
      reads this
    {
      Indexes(allocators, allocatorsByName, mountedSegments, clientSegments, capacity)
    }

    constructor ()
      ensures View() == Indexes([], map[], map[], map[], 0) && Agree(View())
    {
      allocators, allocatorsByName, mountedSegments, clientSegments, capacity := [], map[], map[], map[], 0;
    }

    // Position of the first x, or the length when there is none.
    static method Find(list: seq<nat>, x: nat) returns (i: nat)
      ensures i <= |list| && (i < |list| ==> list[i] == x)
      ensures forall j | 0 <= j < i :: list[j] != x
      ensures i < |list| ==> list[..i] + list[i + 1..] == RemoveFirst(list, x)
      ensures i == |list| ==> RemoveFirst(list, x) == list
    {
      i := 0;
      while i < |list| && list[i] != x
        invariant i <= |list| && forall j | 0 <= j < i :: list[j] != x
      {
        i := i + 1;
      }
      RemoveFirstAt(list, x, i);
    }

    method MountSegment(segment: Segment, client: nat, allocator: nat) returns (err: ErrorCode)
      requires Agree(View()) && Unused(View(), allocator)
      modifies this
      ensures err == MountError(old(View()), segment)
      ensures var m, id := old(mountedSegments), segment.id; var good := segment.base > 0 && segment.size > 0;
        && (err == INVALID_PARAMS <==> !good)
        && (err == SEGMENT_ALREADY_EXISTS <==> good && id in m && m[id].status == OK)
        && (err == UNAVAILABLE_IN_CURRENT_STATUS <==> good && id in m && m[id].status == UNMOUNTING)
        && (err == SUCCESS <==> good && id !in m)
      ensures mountedSegments ==
        if err == SUCCESS then old(mountedSegments)[segment.id := Mounted(segment, OK, Some(allocator))]
        else old(mountedSegments)
      ensures View() == Mount(old(View()), segment, client, allocator) && Agree(View())
    {
      MountAgrees(View(), segment, client, allocator);
      if segment.base == 0 || segment.size == 0 { return INVALID_PARAMS; }
      if segment.id in mountedSegments {
        if mountedSegments[segment.id].status == OK { return SEGMENT_ALREADY_EXISTS; }
        return UNAVAILABLE_IN_CURRENT_STATUS;
      }
      allocators := allocators + [allocator];
      allocatorsByName := allocatorsByName[segment.name := Listed(allocatorsByName, segment.name) + [allocator]];
      clientSegments := clientSegments[client := Listed(clientSegments, client) + [segment.id]];
      mountedSegments := mountedSegments[segment.id := Mounted(segment, OK, Some(allocator))];
      capacity := capacity + segment.size;
      return SUCCESS;
    }

    // Stops at the first segment that is still being unmounted; skips every other error.
    method ReMountSegment(segments: seq<Segment>, client: nat, first: nat) returns (err: ErrorCode)
      requires Agree(View()) && forall a | a >= first :: Unused(View(), a)
      modifies this
      ensures Agree(View())
      ensures err == SUCCESS || err == UNAVAILABLE_IN_CURRENT_STATUS
      ensures View() == Remount(old(View()), segments, client, first)
      ensures err == SUCCESS <==> RemountOk(old(View()), segments, client, first)
      ensures err == SUCCESS <==> NoneLeaving(old(mountedSegments), segments)
      ensures Remounted(old(mountedSegments), segments, mountedSegments)
    {
      hide Agree, NoneLeaving, Remounted;
      RemountMeans(View(), segments, client, first);
      for i := 0 to |segments|
        invariant Agree(View()) && forall a | a >= first + i :: Unused(View(), a)
        invariant View() == Remount(old(View()), segments[..i], client, first)
        invariant RemountOk(old(View()), segments[..i], client, first)
      {
        assert segments[..i + 1][..i] == segments[..i];
        RemountPrefix(old(View()), segments, client, first, i + 1);
        MountUnused(View(), segments[i], client, first + i);
        err := MountSegment(segments[i], client, first + i);
        if err == UNAVAILABLE_IN_CURRENT_STATUS { return; }
      }
      assert segments[..|segments|] == segments;
      return SUCCESS;
    }

    method PrepareUnmountSegment(id: nat) returns (err: ErrorCode, decCapacity: nat)
      requires Agree(View())
      modifies this
      ensures err == PrepareError(old(View()), id)
      ensures var m := old(mountedSegments);
        && (err == SEGMENT_NOT_FOUND <==> id !in m)
        && (err == UNAVAILABLE_IN_CURRENT_STATUS <==> id in m && m[id].status == UNMOUNTING)
        && (err == SUCCESS <==> id in m && m[id].status == OK)
      ensures var m := old(mountedSegments);
        mountedSegments ==
          if err == SUCCESS then m[id := m[id].(status := UNMOUNTING, bufAllocator := None)] else m
      ensures View() == PrepareUnmount(old(View()), id) && Agree(View())
      ensures decCapacity == if err == SUCCESS then old(mountedSegments[id].segment.size) else 0
    {
      PrepareAgrees(View(), id);
      decCapacity := 0;
      if id !in mountedSegments { return SEGMENT_NOT_FOUND, 0; }
      if mountedSegments[id].status == UNMOUNTING { return UNAVAILABLE_IN_CURRENT_STATUS, 0; }
      var m := mountedSegments[id];
      decCapacity := m.segment.size;
      var a := m.bufAllocator.value;
      var i := Find(allocators, a);
      if i < |allocators| { allocators := allocators[..i] + allocators[i + 1..]; }
      if m.segment.name in allocatorsByName {
        var list := allocatorsByName[m.segment.name];
        i := Find(list, a);
        if i < |list| { list := list[..i] + list[i + 1..]; }
        if list == [] {
          allocatorsByName := allocatorsByName - {m.segment.name};
        } else {
          allocatorsByName := allocatorsByName[m.segment.name := list];
        }
      }
      mountedSegments := mountedSegments[id := m.(bufAllocator := None, status := UNMOUNTING)];
      return SUCCESS, decCapacity;
    }

    method CommitUnmountSegment(id: nat, client: nat, decCapacity: nat)
      modifies this
      ensures View() == CommitUnmount(old(View()), id, client, decCapacity)
    {
      if client in clientSegments {
        var list := clientSegments[client];
        var i := Find(list, id);
        if i < |list| { list := list[..i] + list[i + 1..]; }
        if list == [] {
          clientSegments := clientSegments - {client};
        } else {
          clientSegments := clientSegments[client := list];
        }
      }
      mountedSegments := mountedSegments - {id};
      capacity := capacity - decCapacity;
    }

    // The mounted ones of the client's segments, in the order of its list.
    method GetClientSegments(client: nat) returns (err: ErrorCode, segments: seq<Segment>)
      ensures err == if client in clientSegments then SUCCESS else SEGMENT_NOT_FOUND
      ensures segments == SegmentsOf(mountedSegments, Listed(clientSegments, client))
    {
      segments := [];
      if client !in clientSegments { return SEGMENT_NOT_FOUND, []; }
      var list := clientSegments[client];
      for i := 0 to |list|
        invariant segments == SegmentsOf(mountedSegments, list[..i])
      {
        assert list[..i + 1][..i] == list[..i];
        if list[i] in mountedSegments { segments := segments + [mountedSegments[list[i]].segment]; }
      }
      assert list[..|list|] == list;
      return SUCCESS, segments;
    }

    // The size and the use of the first allocator under a name, which serves a mounted segment of that name.
    method QuerySegments(name: string, counters: map<nat, Counters>) returns (err: ErrorCode, used: nat, capacity: nat)
      requires Agree(View()) && Counted(mountedSegments, counters)
      ensures err == SUCCESS <==> exists id, a :: Serves(mountedSegments, id, a, Some(name))
      ensures err == SUCCESS ==> exists id, a ::
        && Serves(mountedSegments, id, a, Some(name))
        && Listed(allocatorsByName, name) != [] && a == Listed(allocatorsByName, name)[0]
        && capacity == mountedSegments[id].segment.size && used == counters[a].used
      ensures err == SUCCESS || err == SEGMENT_NOT_FOUND
    {
      assert Exact(mountedSegments, Listed(allocatorsByName, name), Some(name));
      if name in allocatorsByName {
        var a := allocatorsByName[name][0];
        assert a in Listed(allocatorsByName, name);
        ghost var id :| Serves(mountedSegments, id, a, Some(name));
        assert Serves(mountedSegments, id, a, None);
        return SUCCESS, counters[a].used, counters[a].capacity;
      }
      assert forall id, a :: Serves(mountedSegments, id, a, Some(name)) ==> a in Listed(allocatorsByName, name);
      return SEGMENT_NOT_FOUND, 0, 0;
    }
  }

  // What an allocator reports of itself.
  datatype Counters = Counters(capacity: nat, used: nat)

  ghost predicate Counted(m: map<nat, Mounted>, counters: map<nat, Counters>) {
    forall id, a | Serves(m, id, a, None) :: a in counters && counters[a].capacity == m[id].segment.size
  }

  function SegmentsOf(m: map<nat, Mounted>, list: seq<nat>): seq<Segment> {
    if list == [] then []
    else
      var id := list[|list| - 1];
      SegmentsOf(m, list[..|list| - 1]) + (if id in m then [m[id].segment] else [])
  }

  ghost predicate Names(segments: seq<Segment>, id: nat) {
    exists i :: 0 <= i < |segments| && segments[i].id == id
  }

  lemma {:induction false} SegmentsOfLast(m: map<nat, Mounted>, list: seq<nat>)
    requires list != []
    ensures var before, id := SegmentsOf(m, list[..|list| - 1]), list[|list| - 1];
      SegmentsOf(m, list) == if id in m then before + [m[id].segment] else before
  {}

  // One more segment at the end.
  lemma NamesMore(before: seq<Segment>, g: Segment, id: nat)
    ensures Names(before + [g], id) <==> Names(before, id) || g.id == id
  {
    var all := before + [g];
    assert all[|before|] == g;
    if Names(before, id) {
      var i :| 0 <= i < |before| && before[i].id == id;
      assert all[i].id == id;
    }
    if Names(all, id) {
      var i :| 0 <= i < |all| && all[i].id == id;
      assert i < |before| ==> before[i].id == id;
    }
  }

  // What the list of a client names and is mounted, and nothing else.
  lemma {:induction false} SegmentsOfExact(m: map<nat, Mounted>, list: seq<nat>)
    requires MountedOk(m)
    ensures forall id :: Names(SegmentsOf(m, list), id) <==> id in list && id in m
  {
    hide Names;
    if list == [] {
      NoneNamed();
    } else {
      var p, last := list[..|list| - 1], list[|list| - 1];
      SegmentsOfExact(m, p);
      SegmentsOfLast(m, list);
      assert list == p + [last];
      forall id ensures Names(SegmentsOf(m, list), id) <==> id in list && id in m {
        if last in m { NamesMore(SegmentsOf(m, p), m[last].segment, id); }
      }
    }
  }

  lemma NoneNamed()
    ensures forall id :: !Names([], id)
  {}

  // The segments come as they are mounted, each once when the list has it once.
  lemma {:induction false} SegmentsOfOnce(m: map<nat, Mounted>, list: seq<nat>)
    requires MountedOk(m)
    ensures var gs := SegmentsOf(m, list);
      && (forall i | 0 <= i < |gs| :: gs[i].id in m && gs[i] == m[gs[i].id].segment)
      && (NoDup(list) ==> forall i, j | 0 <= i < j < |gs| :: gs[i].id != gs[j].id)
  {
    if list != [] {
      var p := list[..|list| - 1];
      SegmentsOfOnce(m, p);
      SegmentsOfExact(m, p);
      SegmentsOfLast(m, list);
      assert list == p + [list[|list| - 1]];
      var before := SegmentsOf(m, p);
      forall i | 0 <= i < |before| ensures before[i].id in p { assert Names(before, before[i].id); }
    }
  }

  lemma HeadAndRest(s: seq<nat>, i: nat)
    requires 1 <= i <= |s|
    ensures [s[0]] + s[1..] == s
    ensures i < |s| ==> [s[0]] + (s[1..][..i - 1] + s[1..][i..]) == s[..i] + s[i + 1..]
  {}

  lemma {:induction false} RemoveFirstAt(s: seq<nat>, x: nat, i: nat)
    requires i <= |s| && (forall j | 0 <= j < i :: s[j] != x) && (i < |s| ==> s[i] == x)
    ensures RemoveFirst(s, x) == if i < |s| then s[..i] + s[i + 1..] else s
  {
    if s == [] || s[0] == x {
      assert i == 0 || s == [];
      assert s == [] || s[..0] + s[1..] == s[1..];
    } else {
      RemoveFirstAt(s[1..], x, i - 1);
      HeadAndRest(s, i);
    }
  }

  // ---- remounting ----

  lemma MountUnused(s: Indexes, g: Segment, client: nat, a: nat)
    requires forall b | b >= a :: Unused(s, b)
    ensures forall b | b >= a + 1 :: Unused(Mount(s, g, client, a), b)
  {
    forall b | b >= a + 1 ensures Unused(Mount(s, g, client, a), b) { assert Unused(s, b); }
  }

  // All segments were tried: none of them is still being unmounted.
  predicate RemountOk(s: Indexes, gs: seq<Segment>, client: nat, first: nat) {
    gs == [] ||
    (RemountOk(s, gs[..|gs| - 1], client, first) &&
     MountError(Remount(s, gs[..|gs| - 1], client, first), gs[|gs| - 1]) != UNAVAILABLE_IN_CURRENT_STATUS)
  }

  // The i-th segment gets allocator first + i when it is mounted.
  function Remount(s: Indexes, gs: seq<Segment>, client: nat, first: nat): Indexes {
    if gs == [] then s
    else
      var before := Remount(s, gs[..|gs| - 1], client, first);
      if RemountOk(s, gs[..|gs| - 1], client, first)
      then Mount(before, gs[|gs| - 1], client, first + |gs| - 1)
      else before
  }

  // A good segment that is still being unmounted.
  predicate Leaving(m: map<nat, Mounted>, g: Segment) {
    g.base > 0 && g.size > 0 && g.id in m && m[g.id].status == UNMOUNTING
  }

  ghost predicate NoneLeaving(m: map<nat, Mounted>, gs: seq<Segment>) {
    forall i | 0 <= i < |gs| :: !Leaving(m, gs[i])
  }

  predicate InService(m: map<nat, Mounted>, id: nat) {
    id in m && m[id].status == OK
  }

  // The i-th segment is tried: none up to it is in the way.
  ghost predicate Tried(m: map<nat, Mounted>, gs: seq<Segment>, i: nat) {
    i < |gs| && NoneLeaving(m, gs[..i + 1])
  }

  // m' is m with the new good segments of gs, up to the first one in the way: all good ones that were
  // tried are in service, what was mounted stays as it is, and nothing else is mounted.
  ghost predicate Remounted(m: map<nat, Mounted>, gs: seq<Segment>, m': map<nat, Mounted>) {
    && (forall i: nat | Tried(m, gs, i) :: gs[i].base > 0 && gs[i].size > 0 ==> InService(m', gs[i].id))
    && (forall id | id in m :: id in m' && m'[id] == m[id])
    && (forall id | id in m' && id !in m ::
          && m'[id].status == OK && m'[id].segment.base > 0 && m'[id].segment.size > 0
          && exists i: nat :: Tried(m, gs, i) && m'[id].segment == gs[i] && gs[i].id == id)
  }

  lemma NoneLeavingNext(m: map<nat, Mounted>, gs: seq<Segment>, g: Segment)
    ensures NoneLeaving(m, gs + [g]) <==> NoneLeaving(m, gs) && !Leaving(m, g)
  {
    var all := gs + [g];
    assert all[|gs|] == g && forall i | 0 <= i < |gs| :: all[i] == gs[i];
  }

  lemma TriedNext(m: map<nat, Mounted>, gs: seq<Segment>, g: Segment, i: nat)
    ensures i < |gs| ==> (Tried(m, gs + [g], i) <==> Tried(m, gs, i))
    ensures i == |gs| ==> (Tried(m, gs + [g], i) <==> NoneLeaving(m, gs) && !Leaving(m, g))
  {
    hide Leaving;
    if i < |gs| {
      assert (gs + [g])[..i + 1] == gs[..i + 1];
    } else if i == |gs| {
      assert (gs + [g])[..i + 1] == gs + [g];
      NoneLeavingNext(m, gs, g);
    }
  }

  // One more segment.
  lemma RemountedNext(m: map<nat, Mounted>, gs: seq<Segment>, g: Segment, b: map<nat, Mounted>, b': map<nat, Mounted>)
    requires Remounted(m, gs, b)
    requires NoneLeaving(m, gs) ==>
      if g.base > 0 && g.size > 0 && g.id !in b
      then g.id in b' && b'[g.id].segment == g && b'[g.id].status == OK && b' == b[g.id := b'[g.id]]
      else b' == b
    requires !NoneLeaving(m, gs) ==> b' == b
    ensures Remounted(m, gs + [g], b')
  {
    hide NoneLeaving;
    var all := gs + [g];
    forall i: nat { TriedNext(m, gs, g, i); }
    forall i: nat | Tried(m, all, i) ensures all[i].base > 0 && all[i].size > 0 ==> InService(b', all[i].id) {
      if i < |gs| { assert Tried(m, gs, i) && all[i] == gs[i]; } else { TriedLast(m, gs, g, b); }
    }
    forall id | id in b' && id !in m
      ensures
        && b'[id].status == OK && b'[id].segment.base > 0 && b'[id].segment.size > 0
        && exists i: nat :: Tried(m, all, i) && b'[id].segment == all[i] && all[i].id == id
    {
      if id in b {
        var i: nat :| Tried(m, gs, i) && b[id].segment == gs[i] && gs[i].id == id;
        assert Tried(m, all, i) && b'[id].segment == all[i];
      } else {
        assert Tried(m, all, |gs|) && b'[id].segment == all[|gs|];
      }
    }
  }

  // A good segment that is not in the way and is there already is in service.
  lemma TriedLast(m: map<nat, Mounted>, gs: seq<Segment>, g: Segment, b: map<nat, Mounted>)
    requires Remounted(m, gs, b) && Tried(m, gs + [g], |gs|)
    ensures g.base > 0 && g.size > 0 && g.id in b ==> InService(b, g.id)
  {
    TriedNext(m, gs, g, |gs|);
  }

  lemma MountMeans(s: Indexes, g: Segment, client: nat, a: nat)
    ensures var m := Mount(s, g, client, a).mounted;
      if g.base > 0 && g.size > 0 && g.id !in s.mounted
      then g.id in m && m[g.id].segment == g && m[g.id].status == OK && m == s.mounted[g.id := m[g.id]]
      else m == s.mounted
    ensures MountError(s, g) == UNAVAILABLE_IN_CURRENT_STATUS <==> Leaving(s.mounted, g)
  {}

  lemma {:induction false} RemountMeans(s: Indexes, gs: seq<Segment>, client: nat, first: nat)
    ensures RemountOk(s, gs, client, first) <==> NoneLeaving(s.mounted, gs)
    ensures Remounted(s.mounted, gs, Remount(s, gs, client, first).mounted)
  {
    hide NoneLeaving, Remounted, Leaving, Mount, MountError;
    if gs == [] {
      NothingRemounted(s.mounted);
    } else {
      var p, g := gs[..|gs| - 1], gs[|gs| - 1];
      RemountMeans(s, p, client, first);
      assert gs == p + [g];
      var before := Remount(s, p, client, first);
      NoneLeavingNext(s.mounted, p, g);
      MountMeans(before, g, client, first + |gs| - 1);
      LeavingStays(s.mounted, p, before.mounted, g);
      RemountedNext(s.mounted, p, g, before.mounted, Remount(s, gs, client, first).mounted);
    }
  }

  lemma NothingRemounted(m: map<nat, Mounted>)
    ensures NoneLeaving(m, []) && Remounted(m, [], m)
  {}

  lemma LeavingStays(m: map<nat, Mounted>, gs: seq<Segment>, m': map<nat, Mounted>, g: Segment)
    requires Remounted(m, gs, m')
    ensures Leaving(m', g) <==> Leaving(m, g)
  {}

  // Once stopped, the rest of the list changes nothing.
  lemma {:induction false} RemountPrefix(s: Indexes, gs: seq<Segment>, client: nat, first: nat, n: nat)
    requires n <= |gs|
    ensures !RemountOk(s, gs[..n], client, first) ==>
              !RemountOk(s, gs, client, first) && Remount(s, gs, client, first) == Remount(s, gs[..n], client, first)
    decreases |gs|
  {
    if n == |gs| {
      assert gs[..n] == gs;
    } else {
      RemountPrefix(s, gs[..|gs| - 1], client, first, n);
      assert gs[..|gs| - 1][..n] == gs[..n];
    }
  }
}
