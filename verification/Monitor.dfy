/**
 One round of the client monitor: heartbeats extend the time-to-live of their
 clients, clients whose time is over are found, and their segments are taken out
 of service together and committed together.
 */
module Monitor {
  import opened Options
  import opened Segments
  import opened Sequences

  // ---- heartbeats ----

  // Every client in the queue lives until now + live.
  function Refreshed(ttl: map<nat, int>, queue: seq<nat>, now: int, live: nat): map<nat, int> {
    if queue == [] then ttl else Refreshed(ttl, queue[..|queue| - 1], now, live)[queue[|queue| - 1] := now + live]
  }

  lemma {:induction false} RefreshedMeans(ttl: map<nat, int>, queue: seq<nat>, now: int, live: nat, u: nat)
    ensures u in queue ==> u in Refreshed(ttl, queue, now, live) && Refreshed(ttl, queue, now, live)[u] == now + live
    ensures u !in queue ==> (u in Refreshed(ttl, queue, now, live) <==> u in ttl)
    ensures u !in queue && u in ttl ==> Refreshed(ttl, queue, now, live)[u] == ttl[u]
  {
    if queue != [] {
      RefreshedMeans(ttl, queue[..|queue| - 1], now, live, u);
      assert queue == queue[..|queue| - 1] + [queue[|queue| - 1]];
    }
  }

  // The time-to-live table after a round, and the clients whose time is over. A client that was
  // heard of in this round is not among them.
  method FindExpired(ttl: map<nat, int>, queue: seq<nat>, now: int, live: nat)
    returns (left: map<nat, int>, expired: seq<nat>)
    ensures NoDup(expired) && forall u | u in queue :: u in left && left[u] == now + live && u !in expired
    ensures forall u :: u in left || u in expired <==> u in ttl || u in queue
    ensures forall u | u in expired :: u !in left && u in ttl && ttl[u] < now
    ensures forall u | u in left :: left[u] >= now && (u !in queue ==> u in ttl && left[u] == ttl[u])
  {
    var table := ttl;
    for i := 0 to |queue|
      invariant table == Refreshed(ttl, queue[..i], now, live)
    {
      assert queue[..i + 1][..i] == queue[..i];
      table := table[queue[i] := now + live];
    }
    assert queue[..|queue|] == queue;
    forall u
      ensures u in queue ==> u in table && table[u] == now + live
      ensures u !in queue ==> (u in table <==> u in ttl)
      ensures u !in queue && u in ttl ==> table[u] == ttl[u]
    { RefreshedMeans(ttl, queue, now, live, u); }
    left, expired := table, [];
    var todo := table.Keys;
    while todo != {}
      invariant todo <= left.Keys && NoDup(expired)
      invariant forall u :: u in left || u in expired <==> u in table
      invariant forall u | u in left :: left[u] == table[u] && (u !in todo ==> table[u] >= now)
      invariant forall u | u in expired :: u !in left && table[u] < now
    {
      var u :| u in todo;
      if left[u] < now {
        AppendNoDup(expired, u);
        expired := expired + [u];
        left := left - {u};
      }
      todo := todo - {u};
    }
  }

  // ---- segments of expired clients ----

  datatype Prepared = Prepared(id: nat, client: nat, capacity: nat)

  ghost predicate InBatch(batch: seq<Prepared>, id: nat) {
    exists i :: 0 <= i < |batch| && batch[i].id == id
  }

  ghost predicate Distinct(batch: seq<Prepared>) {
    forall i, j | 0 <= i < j < |batch| :: batch[i].id != batch[j].id
  }

  ghost predicate Serving(m: map<nat, Mounted>, id: nat) {
    id in m && m[id].status == OK
  }

  // m' is m with exactly the segments of the batch, all of them in service before, taken out.
  ghost predicate TakenOut(m: map<nat, Mounted>, m': map<nat, Mounted>, batch: seq<Prepared>) {
    && m'.Keys == m.Keys && Distinct(batch)
    && (forall i | 0 <= i < |batch| :: Serving(m, batch[i].id) && batch[i].capacity == m[batch[i].id].segment.size)
    && (forall id | id in m ::
          m'[id] == if InBatch(batch, id) then m[id].(status := UNMOUNTING, bufAllocator := None) else m[id])
  }

  lemma TakeOne(m: map<nat, Mounted>, m': map<nat, Mounted>, batch: seq<Prepared>, id: nat, client: nat)
    requires TakenOut(m, m', batch) && Serving(m', id)
    ensures Serving(m, id)
    ensures var more := batch + [Prepared(id, client, m'[id].segment.size)];
            && TakenOut(m, m'[id := m'[id].(status := UNMOUNTING, bufAllocator := None)], more)
            && forall j :: InBatch(more, j) <==> InBatch(batch, j) || j == id
  {
    var p := Prepared(id, client, m'[id].segment.size);
    var more := batch + [p];
    assert !InBatch(batch, id);
    forall j ensures InBatch(more, j) <==> InBatch(batch, j) || j == id {
      assert more[|batch|] == p;
      if InBatch(batch, j) {
        var i :| 0 <= i < |batch| && batch[i].id == j;
        assert more[i].id == j;
      }
      if InBatch(more, j) {
        var i :| 0 <= i < |more| && more[i].id == j;
        assert i < |batch| ==> batch[i].id == j;
      }
    }
    forall i | 0 <= i < |more| ensures Serving(m, more[i].id) && more[i].capacity == m[more[i].id].segment.size {
      assert i < |batch| ==> more[i] == batch[i];
    }
    assert forall i | 0 <= i < |batch| :: InBatch(batch, batch[i].id);
  }

  lemma NamesNext(segments: seq<Segment>, j: nat, id: nat)
    requires j < |segments|
    ensures Names(segments[..j + 1], id) <==> Names(segments[..j], id) || segments[j].id == id
  {
    var p, q := segments[..j], segments[..j + 1];
    assert q == p + [segments[j]] && q[j] == segments[j];
    if Names(p, id) {
      var i :| 0 <= i < |p| && p[i].id == id;
      assert q[i].id == id;
    }
    if Names(q, id) {
      var i :| 0 <= i < |q| && q[i].id == id;
      assert i < j ==> p[i].id == id;
    }
  }

  // Prepares the segments of one client; what is refused is left out.
  method PrepareSegments(
    s: SegmentManager, client: nat, segments: seq<Segment>, before: seq<Prepared>, ghost m: map<nat, Mounted>)
    returns (batch: seq<Prepared>)
    requires Agree(s.View()) && TakenOut(m, s.mountedSegments, before)
    modifies s
    ensures Agree(s.View()) && TakenOut(m, s.mountedSegments, batch)
    ensures s.clientSegments == old(s.clientSegments) && s.capacity == old(s.capacity)
    ensures forall id :: InBatch(batch, id) <==> InBatch(before, id) || (Serving(m, id) && Names(segments, id))
    ensures |before| <= |batch| && batch[..|before|] == before
    ensures forall i | |before| <= i < |batch| :: batch[i].client == client && Names(segments, batch[i].id)
  {
    hide Agree, TakenOut, InBatch, Names;
    batch := before;
    NoNames(segments);
    for j := 0 to |segments|
      invariant Agree(s.View()) && TakenOut(m, s.mountedSegments, batch)
      invariant s.clientSegments == old(s.clientSegments) && s.capacity == old(s.capacity)
      invariant forall id :: InBatch(batch, id) <==> InBatch(before, id) || (Serving(m, id) && Names(segments[..j], id))
      invariant |before| <= |batch| && batch[..|before|] == before
      invariant forall i | |before| <= i < |batch| :: batch[i].client == client && Names(segments[..j], batch[i].id)
    {
      forall id ensures Names(segments[..j + 1], id) <==> Names(segments[..j], id) || segments[j].id == id {
        NamesNext(segments, j, id);
      }
      var id := segments[j].id;
      ghost var now := s.mountedSegments;
      PrepareAgrees(s.View(), id);
      RefusedMeans(m, now, batch, id);
      if Serving(now, id) { TakeOne(m, now, batch, id, client); }
      var err, capacity := s.PrepareUnmountSegment(id);
      if err == SUCCESS { batch := batch + [Prepared(id, client, capacity)]; }
    }
    assert segments[..|segments|] == segments;
  }

  lemma NoNames(segments: seq<Segment>)
    ensures forall id :: !Names(segments[..0], id)
  {}

  // A segment in service at first, and no longer, is in the batch already.
  lemma RefusedMeans(m: map<nat, Mounted>, m': map<nat, Mounted>, batch: seq<Prepared>, id: nat)
    requires TakenOut(m, m', batch)
    ensures Serving(m, id) && !Serving(m', id) ==> InBatch(batch, id)
    ensures Serving(m', id) ==> Serving(m, id) && !InBatch(batch, id)
  {}

  // Every segment of the batch is on the list of the client it is recorded for, one of the given ones.
  ghost predicate Recorded(batch: seq<Prepared>, lists: map<nat, seq<nat>>, clients: seq<nat>) {
    forall i | 0 <= i < |batch| :: batch[i].client in clients && batch[i].id in Listed(lists, batch[i].client)
  }

  lemma RecordedMore(batch: seq<Prepared>, more: seq<Prepared>, lists: map<nat, seq<nat>>, clients: seq<nat>, n: nat)
    requires n < |clients| && Recorded(batch, lists, clients[..n]) && |batch| <= |more| && more[..|batch|] == batch
    requires forall i | |batch| <= i < |more| :: more[i].client == clients[n] && more[i].id in Listed(lists, clients[n])
    ensures Recorded(more, lists, clients[..n + 1])
  {
    assert clients[..n + 1] == clients[..n] + [clients[n]];
    forall i | 0 <= i < |more|
      ensures more[i].client in clients[..n + 1] && more[i].id in Listed(lists, more[i].client)
    {
      if i < |batch| { assert more[i] == more[..|batch|][i]; }
    }
  }

  ghost predicate ListedFor(lists: map<nat, seq<nat>>, clients: seq<nat>, id: nat) {
    exists i :: 0 <= i < |clients| && id in Listed(lists, clients[i])
  }

  lemma ListedNext(lists: map<nat, seq<nat>>, clients: seq<nat>, n: nat, id: nat)
    requires n < |clients|
    ensures ListedFor(lists, clients[..n + 1], id) <==>
      ListedFor(lists, clients[..n], id) || id in Listed(lists, clients[n])
  {
    var p, q := clients[..n], clients[..n + 1];
    assert q == p + [clients[n]] && q[n] == clients[n];
    if ListedFor(lists, p, id) {
      var i :| 0 <= i < |p| && id in Listed(lists, p[i]);
      assert id in Listed(lists, q[i]);
    }
    if ListedFor(lists, q, id) {
      var i :| 0 <= i < |q| && id in Listed(lists, q[i]);
      assert i < n ==> id in Listed(lists, p[i]);
    }
  }

  // The batch has exactly the segments in service of the expired clients, each once; afterwards
  // none of those clients has a segment in service.
  method PrepareExpired(s: SegmentManager, expired: seq<nat>) returns (batch: seq<Prepared>)
    requires Agree(s.View())
    modifies s
    ensures Agree(s.View()) && TakenOut(old(s.mountedSegments), s.mountedSegments, batch)
    ensures s.clientSegments == old(s.clientSegments) && s.capacity == old(s.capacity)
    ensures forall id :: InBatch(batch, id) <==>
      Serving(old(s.mountedSegments), id) && ListedFor(s.clientSegments, expired, id)
    ensures forall id | ListedFor(s.clientSegments, expired, id) :: !Serving(s.mountedSegments, id)
    ensures Recorded(batch, s.clientSegments, expired)
  {
    hide Agree, TakenOut, InBatch, ListedFor, Names, MountedOk, Recorded;
    batch := [];
    ghost var m, lists := s.mountedSegments, s.clientSegments;
    NothingTaken(m, lists, expired);
    for i := 0 to |expired|
      invariant Agree(s.View()) && TakenOut(m, s.mountedSegments, batch)
      invariant s.clientSegments == lists && s.capacity == old(s.capacity)
      invariant forall id :: InBatch(batch, id) <==> Serving(m, id) && ListedFor(lists, expired[..i], id)
      invariant Recorded(batch, lists, expired[..i])
    {
      forall id ensures ListedFor(lists, expired[..i + 1], id) <==>
        ListedFor(lists, expired[..i], id) || id in Listed(lists, expired[i]) {
        ListedNext(lists, expired, i, id);
      }
      var err, segments := s.GetClientSegments(expired[i]);
      MountedFine(s.View());
      SegmentsOfExact(s.mountedSegments, Listed(lists, expired[i]));
      SameKeys(m, s.mountedSegments, batch);
      ghost var before := batch;
      batch := PrepareSegments(s, expired[i], segments, batch, m);
      RecordedMore(before, batch, lists, expired, i);
    }
    assert expired[..|expired|] == expired;
    forall id | ListedFor(s.clientSegments, expired, id) ensures !Serving(s.mountedSegments, id) {
      RefusedMeans(m, s.mountedSegments, batch, id);
    }
  }

  lemma NothingTaken(m: map<nat, Mounted>, lists: map<nat, seq<nat>>, expired: seq<nat>)
    ensures TakenOut(m, m, []) && (forall id :: !InBatch([], id)) && forall id :: !ListedFor(lists, expired[..0], id)
    ensures Recorded([], lists, expired[..0])
  {}

  lemma MountedFine(s: Indexes)
    requires Agree(s)
    ensures MountedOk(s.mounted)
  {}

  lemma SameKeys(m: map<nat, Mounted>, m': map<nat, Mounted>, batch: seq<Prepared>)
    requires TakenOut(m, m', batch)
    ensures m'.Keys == m.Keys
  {}

  // The commits of a batch, one after the other.
  function CommitAll(s: Indexes, batch: seq<Prepared>): Indexes {
    if batch == [] then s
    else
      var last := batch[|batch| - 1];
      CommitUnmount(CommitAll(s, batch[..|batch| - 1]), last.id, last.client, last.capacity)
  }

  ghost function Ids(batch: seq<Prepared>): set<nat> {
    set i | 0 <= i < |batch| :: batch[i].id
  }

  lemma NoIds()
    ensures Ids([]) == {}
  {}

  lemma IdsLast(batch: seq<Prepared>)
    requires batch != []
    ensures Ids(batch) == Ids(batch[..|batch| - 1]) + {batch[|batch| - 1].id}
    ensures Distinct(batch) ==> Distinct(batch[..|batch| - 1]) && batch[|batch| - 1].id !in Ids(batch[..|batch| - 1])
  {
    var p := batch[..|batch| - 1];
    assert forall i | 0 <= i < |p| :: p[i] == batch[i];
    forall i | 0 <= i < |batch| ensures batch[i].id in Ids(p) + {batch[|batch| - 1].id} {
      if i < |p| { assert p[i].id in Ids(p); }
    }
  }

  // Exactly the segments of the batch go.
  lemma {:induction false} CommitAllGone(s: Indexes, batch: seq<Prepared>)
    ensures CommitAll(s, batch).mounted == s.mounted - Ids(batch)
    ensures CommitAll(s, batch).allocators == s.allocators && CommitAll(s, batch).byName == s.byName
  {
    if batch != [] {
      CommitAllGone(s, batch[..|batch| - 1]);
      IdsLast(batch);
    }
  }

  // The lists of the clients stay exact when every segment goes on behalf of its owner.
  lemma {:induction false} CommitAllOwners(s: Indexes, owner: map<nat, nat>, batch: seq<Prepared>)
    requires OwnersExact(s, owner) && Distinct(batch)
    requires forall i | 0 <= i < |batch| :: batch[i].id in owner && batch[i].client == owner[batch[i].id]
    ensures OwnersExact(CommitAll(s, batch), owner - Ids(batch))
  {
    hide OwnersExact, Ids, CommitUnmount;
    if batch == [] {
      NoIds();
      assert owner - {} == owner;
    } else {
      var p, last := batch[..|batch| - 1], batch[|batch| - 1];
      IdsLast(batch);
      CommitAllOwners(s, owner, p);
      SameOwners(CommitAll(s, p), owner - Ids(p));
      CommitOwners(CommitAll(s, p), owner - Ids(p), last.id, last.client, last.capacity);
      assert owner - Ids(p) - {last.id} == owner - Ids(batch);
    }
  }

  lemma SameOwners(s: Indexes, owner: map<nat, nat>)
    requires OwnersExact(s, owner)
    ensures owner.Keys == s.mounted.Keys
  {}

  // Commits a batch: exactly its segments go, from the lists of the clients too, and the capacity
  // stays the sum of what is mounted.
  method CommitBatch(s: SegmentManager, batch: seq<Prepared>)
    requires Agree(s.View()) && Distinct(batch)
    requires forall i | 0 <= i < |batch| ::
      && batch[i].id in s.mountedSegments && s.mountedSegments[batch[i].id].status == UNMOUNTING
      && batch[i].capacity == s.mountedSegments[batch[i].id].segment.size
    modifies s
    ensures Agree(s.View()) && s.View() == CommitAll(old(s.View()), batch)
    ensures s.mountedSegments == old(s.mountedSegments) - Ids(batch)
    ensures s.allocators == old(s.allocators) && s.allocatorsByName == old(s.allocatorsByName)
  {
    hide Agree, Ids, CommitUnmount;
    for i := 0 to |batch|
      invariant Agree(s.View()) && s.View() == CommitAll(old(s.View()), batch[..i])
    {
      assert batch[..i + 1][..i] == batch[..i];
      assert Distinct(batch[..i + 1]);
      IdsLast(batch[..i + 1]);
      CommitAllGone(old(s.View()), batch[..i]);
      CommitAgreesExactly(s.View(), batch[i].id, batch[i].client, batch[i].capacity);
      s.CommitUnmountSegment(batch[i].id, batch[i].client, batch[i].capacity);
    }
    assert batch[..|batch|] == batch;
    CommitAllGone(old(s.View()), batch);
  }

  // ---- the whole round ----

  // The segments in service of the given clients.
  ghost function Lost(m: map<nat, Mounted>, owner: map<nat, nat>, clients: seq<nat>): set<nat> {
    set id | id in m && id in owner && Serving(m, id) && owner[id] in clients
  }

  lemma BatchIsLost(
    m: map<nat, Mounted>, s: Indexes, owner: map<nat, nat>, batch: seq<Prepared>, expired: seq<nat>)
    requires OwnersExact(s, owner) && m.Keys == owner.Keys
    requires forall id :: InBatch(batch, id) <==> Serving(m, id) && ListedFor(s.clientSegments, expired, id)
    ensures Ids(batch) == Lost(m, owner, expired)
  {
    hide OwnersExact;
    forall id ensures id in Ids(batch) <==> id in Lost(m, owner, expired) {
      assert id in Ids(batch) <==> InBatch(batch, id);
      ListedOwner(s, owner, expired, id);
    }
  }

  lemma ListedOwner(s: Indexes, owner: map<nat, nat>, expired: seq<nat>, id: nat)
    requires OwnersExact(s, owner)
    ensures ListedFor(s.clientSegments, expired, id) <==> id in owner && owner[id] in expired
  {
    if id in owner && owner[id] in expired {
      var i :| 0 <= i < |expired| && expired[i] == owner[id];
      assert id in Listed(s.clientSegments, expired[i]);
    }
  }

  // A batch as PrepareExpired leaves it can be committed, and every segment goes on behalf of its owner.
  lemma Committable(
    m: map<nat, Mounted>, s: Indexes, owner: map<nat, nat>, batch: seq<Prepared>, expired: seq<nat>)
    requires TakenOut(m, s.mounted, batch) && OwnersExact(s, owner) && Recorded(batch, s.clientSegments, expired)
    ensures Distinct(batch)
    ensures forall i | 0 <= i < |batch| ::
      && batch[i].id in s.mounted && s.mounted[batch[i].id].status == UNMOUNTING
      && batch[i].capacity == s.mounted[batch[i].id].segment.size
      && batch[i].id in owner && batch[i].client == owner[batch[i].id]
  {
    forall i | 0 <= i < |batch|
      ensures batch[i].id in s.mounted && s.mounted[batch[i].id].status == UNMOUNTING
      ensures batch[i].capacity == s.mounted[batch[i].id].segment.size
    {
      assert Serving(m, batch[i].id) && InBatch(batch, batch[i].id);
    }
  }

  // Prepare and commit: exactly the segments in service of the expired clients go, the indexes
  // agree, and the list of every client is exact again.
  method ExpireClients(s: SegmentManager, expired: seq<nat>, ghost owner: map<nat, nat>)
    requires Agree(s.View()) && OwnersExact(s.View(), owner)
    modifies s
    ensures Agree(s.View())
    ensures var lost := Lost(old(s.mountedSegments), owner, expired);
      s.mountedSegments == old(s.mountedSegments) - lost && OwnersExact(s.View(), owner - lost)
  {
    hide Agree, OwnersExact, TakenOut, Recorded, InBatch, ListedFor, Distinct, Ids, Lost, CommitAll;
    ghost var m := s.mountedSegments;
    SameOwners(s.View(), owner);
    var batch := PrepareExpired(s, expired);
    SameKeys(m, s.mountedSegments, batch);
    ghost var v := s.View();
    PreparedOwners(old(s.View()), v, owner);
    Committable(m, v, owner, batch, expired);
    BatchIsLost(m, v, owner, batch, expired);
    CommitAllOwners(v, owner, batch);
    CommitBatch(s, batch);
    WithoutTaken(m, v.mounted, batch);
  }

  lemma PreparedOwners(s: Indexes, s': Indexes, owner: map<nat, nat>)
    requires OwnersExact(s, owner) && s'.clientSegments == s.clientSegments && s'.mounted.Keys == s.mounted.Keys
    ensures OwnersExact(s', owner)
  {}

  lemma WithoutTaken(m: map<nat, Mounted>, m': map<nat, Mounted>, batch: seq<Prepared>)
    requires TakenOut(m, m', batch)
    ensures m' - Ids(batch) == m - Ids(batch)
  {
    forall id | id in m && id !in Ids(batch) ensures m'[id] == m[id] {
      assert !InBatch(batch, id);
    }
  }
}
