/**
 Heartbeats and expiry over whole runs of the master: a client is expired exactly
 when it was not heard of for too long.
 */
module MonitorRuns {
  import opened Options
  import opened Cluster
  import opened ClusterProofs
  import S = Segments

  // When the client was last heard of: the time at which its last heartbeat was taken off the queue.
  function LastPop(ops: seq<Op>, u: nat): Option<int> {
    if ops == [] then None
    else
      var op := ops[|ops| - 1];
      if op.PopPing? && op.client == u then Some(op.time) else LastPop(ops[..|ops| - 1], u)
  }

  // ---- one step ----

  // Which clients have a deadline, and which one.
  lemma DeadlineStep(cfg: Config, c: State, op: Op, u: nat)
    requires Enabled(cfg, c, op)
    ensures var c' := Apply(cfg, c, op); var heard := op.PopPing? && op.client == u;
      && (u in c'.ttl <==> heard || (u in c.ttl && !(op.FindExpired? && c.ttl[u] < op.time)))
      && (heard ==> c'.ttl[u] == op.time + cfg.liveTtl)
      && (!heard && u in c'.ttl ==> c'.ttl[u] == c.ttl[u])
  {
    hide ObjectStep, ObjectsEnabled, PutStep, PutsEnabled, MountsStep, MountsEnabled, UnmountsStep, UnmountsEnabled;
    hide Alive, CanDeallocate, Listable, S.PrepareError, S.PrepareUnmount;
    if op.OnPuts() { PutStays(cfg, c, op); }
    else if op.OnMounts() { MountsStay(cfg, c, op); }
    else if op.OnUnmounts() { UnmountsStay(cfg, c, op); }
  }

  // Who is in the batch to be expired.
  lemma BatchStep(cfg: Config, c: State, op: Op, u: nat)
    requires Enabled(cfg, c, op)
    ensures var c' := Apply(cfg, c, op);
      if op.FindExpired? then u in c'.expired <==> u in c.ttl && c.ttl[u] < op.time
      else
        && (u in c'.expired ==> u in c.expired)
        && ((op.ExpireEnd? ==> c.lock.job in c.jobs) ==> (u in c'.expired <==> u in c.expired && !op.ExpireEnd?))
  {
    hide ObjectStep, ObjectsEnabled, PutStep, PutsEnabled, MountsStep, MountsEnabled, UnmountsStep, UnmountsEnabled;
    hide Alive, CanDeallocate, Listable, S.PrepareError, S.PrepareUnmount;
    if op.OnPuts() { PutStays(cfg, c, op); }
    else if op.OnMounts() { MountsStay(cfg, c, op); }
    else if op.OnUnmounts() { UnmountsStay(cfg, c, op); }
  }

  // Who is OK: a client becomes so by ending a remount, and ceases to be so with the batch it is in.
  lemma OkStep(cfg: Config, c: State, op: Op, u: nat)
    requires Enabled(cfg, c, op)
    ensures u in Apply(cfg, c, op).okClients <==>
      || (u in c.okClients && !(op.ExpireBegin? && u in c.expired))
      || (op == RemountEnd && c.lock.Remounting? && c.lock.client == u)
  {
    hide ObjectStep, ObjectsEnabled, PutStep, PutsEnabled, UnmountsStep, UnmountsEnabled;
    hide Alive, CanDeallocate, Listable, S.PrepareError, S.PrepareUnmount, S.MountError, MountStep;
    if op.OnPuts() { PutStays(cfg, c, op); }
    else if op.MountEnd? { MountStepSame(c, c.lock.client, c.lock.segment); }
    else if op.RemountOne? { MountStepSame(c, c.lock.client, c.lock.segments[0]); }
    else if op.OnUnmounts() { UnmountsStay(cfg, c, op); }
  }

  // ---- runs ----

  // The deadline of a client is its last heartbeat plus the time to live.
  ghost predicate Timed(cfg: Config, c: State, ops: seq<Op>) {
    forall u | u in c.ttl :: LastPop(ops, u).Some? && c.ttl[u] == LastPop(ops, u).value + cfg.liveTtl
  }

  lemma {:induction false} TimedRun(cfg: Config, ops: seq<Op>)
    requires Legal(cfg, Initial, ops)
    ensures Timed(cfg, Run(cfg, Initial, ops), ops)
    decreases |ops|
  {
    hide Enabled, Apply;
    if ops != [] {
      var before, op := ops[..|ops| - 1], ops[|ops| - 1];
      TimedRun(cfg, before);
      forall u { DeadlineStep(cfg, Run(cfg, Initial, before), op, u); }
    }
  }

  // In every reachable state: the monitor expires exactly the clients that have a deadline and were
  // last heard of more than the time to live before; every other client keeps its deadline.
  lemma ExpiresExactly(cfg: Config, ops: seq<Op>, t: int, u: nat)
    requires Legal(cfg, Initial, ops) && Enabled(cfg, Run(cfg, Initial, ops), FindExpired(t))
    ensures var c := Run(cfg, Initial, ops); var c' := Apply(cfg, c, FindExpired(t)); var last := LastPop(ops, u);
      && (u in c.ttl ==> last.Some? && c.ttl[u] == last.value + cfg.liveTtl)
      && (u in c'.expired <==> u in c.ttl && last.value + cfg.liveTtl < t)
      && (u in c'.ttl <==> u in c.ttl && t <= last.value + cfg.liveTtl)
      && (u in c'.ttl ==> c'.ttl[u] == c.ttl[u])
  {
    hide Enabled, Apply, Run, Legal;
    TimedRun(cfg, ops);
    DeadlineStep(cfg, Run(cfg, Initial, ops), FindExpired(t), u);
    BatchStep(cfg, Run(cfg, Initial, ops), FindExpired(t), u);
  }

  // A search of the run that found u silent.
  ghost predicate FoundSilent(cfg: Config, ops: seq<Op>, n: nat, u: nat) {
    && n < |ops| && ops[n].FindExpired? && LastPop(ops[..n], u).Some?
    && LastPop(ops[..n], u).value + cfg.liveTtl < ops[n].time
  }

  // Over every run: whoever is in the batch was found silent; so a client that is heard of within its
  // time to live is never expired.
  lemma {:induction false} ExpiredWereSilent(cfg: Config, ops: seq<Op>, u: nat)
    requires Legal(cfg, Initial, ops) && u in Run(cfg, Initial, ops).expired
    ensures exists n: nat :: FoundSilent(cfg, ops, n, u)
    decreases |ops|
  {
    hide Enabled, Apply;
    var before, op := ops[..|ops| - 1], ops[|ops| - 1];
    BatchStep(cfg, Run(cfg, Initial, before), op, u);
    if op.FindExpired? {
      ExpiresExactly(cfg, before, op.time, u);
      assert FoundSilent(cfg, ops, |ops| - 1, u);
    } else {
      ExpiredWereSilent(cfg, before, u);
      var n: nat :| FoundSilent(cfg, before, n, u);
      assert before[..n] == ops[..n] && before[n] == ops[n];
      assert FoundSilent(cfg, ops, n, u);
    }
  }

  // A client with a deadline stays known until a search finds it silent.
  lemma {:induction false} HeardStays(cfg: Config, c: State, ops: seq<Op>, u: nat)
    requires Legal(cfg, c, ops) && u in c.ttl
    requires forall i | 0 <= i < |ops| && ops[i].FindExpired? :: ops[i].time <= c.ttl[u]
    requires forall i | 0 <= i < |ops| && ops[i].PopPing? && ops[i].client == u :: c.ttl[u] <= ops[i].time + cfg.liveTtl
    ensures u in Run(cfg, c, ops).ttl && Run(cfg, c, ops).ttl[u] >= c.ttl[u]
    decreases |ops|
  {
    hide Enabled, Apply;
    if ops != [] {
      var before := ops[..|ops| - 1];
      HeardStays(cfg, c, before, u);
      DeadlineStep(cfg, Run(cfg, c, before), ops[|ops| - 1], u);
    }
  }
}
