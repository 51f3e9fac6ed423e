/**
 The client's batched put: start, submit, wait, finalize, collect, each a loop over
 the operations of the batch. The answers of the master and of the transfer engine
 are a parameter; which operations are ended and which revoked is a result.
 */
module BatchPut {
  import opened Sequences

  datatype ErrorCode =
    | INTERNAL_ERROR | RPC_FAIL | INVALID_PARAMS | TRANSFER_FAIL | OBJECT_ALREADY_EXISTS | Other(code: int)

  datatype Result = Ok | Err(error: ErrorCode)

  datatype Descriptor = MemoryReplica | DiskReplica

  datatype Start = Refused(error: ErrorCode) | Granted(replicas: seq<Descriptor>)

  datatype OpState = PENDING | MASTER_FAILED | TRANSFER_FAILED | FINALIZE_FAILED | SUCCESS

  // transfers: the outcomes that the futures of the submitted transfers will deliver.
  datatype Operation = Operation(state: OpState, result: Result, replicas: seq<Descriptor>, transfers: seq<Result>) {
    function SetError(e: ErrorCode): Operation {
      this.(result := Err(e),
            state := if replicas == [] then MASTER_FAILED
                     else if transfers == [] then TRANSFER_FAILED
                     else FINALIZE_FAILED)
    }

    function SetSuccess(): Operation { this.(state := SUCCESS, result := Ok) }

    predicate IsResolved() { state != PENDING }

    predicate NeedsEnd() { !IsResolved() && replicas != [] && transfers != [] }

    predicate NeedsRevoke() { IsResolved() && replicas != [] }
  }

  const Fresh := Operation(PENDING, Err(INTERNAL_ERROR), [], [])

  // What the batch meets: the answer to BatchPutStart, whether there is a submitter, for each
  // operation and replica whether submitting works and what the transfer then delivers, and the
  // answers to BatchPutEnd and BatchPutRevoke.
  datatype World = World(
    starts: seq<Start>, ready: bool, submits: seq<seq<Submit>>, ends: seq<Result>, revokes: seq<Result>)

  datatype Submit = Failed | Submitted(outcome: Result)

  ghost predicate WorldOk(w: World, n: nat) {
    && |w.submits| == n
    && (|w.starts| == n ==> forall i | 0 <= i < n && w.starts[i].Granted? :: |w.submits[i]| == |w.starts[i].replicas|)
  }

  // ---- the stages of one operation ----

  function Started(op: Operation, s: Start): Operation {
    match s
    case Refused(e) => op.SetError(e)
    case Granted(rs) => op.(replicas := rs)
  }

  // Every memory replica was submitted.
  ghost predicate AllSubmitted(rs: seq<Descriptor>, subs: seq<Submit>)
    requires |subs| == |rs|
  {
    forall i | 0 <= i < |rs| && rs[i].MemoryReplica? :: subs[i].Submitted?
  }

  ghost function Futures(rs: seq<Descriptor>, subs: seq<Submit>): seq<Result>
    requires |subs| == |rs|
  {
    if rs == [] then []
    else
      var n := |rs| - 1;
      Futures(rs[..n], subs[..n]) + if rs[n].MemoryReplica? && subs[n].Submitted? then [subs[n].outcome] else []
  }

  ghost function AfterSubmit(op: Operation, subs: seq<Submit>): Operation
    requires |subs| == |op.replicas|
  {
    if op.IsResolved() then op
    else if op.replicas == [] then op.SetError(INTERNAL_ERROR)
    else if AllSubmitted(op.replicas, subs) then op.(transfers := op.transfers + Futures(op.replicas, subs))
    else op.(state := AfterSubmitFailure(op, subs), result := Err(TRANSFER_FAIL), transfers := [])
  }

  // Submission stops at the first failure; what was submitted before it decides the state.
  ghost function AfterSubmitFailure(op: Operation, subs: seq<Submit>): OpState
    requires |subs| == |op.replicas|
  {
    var n := FirstFailure(op.replicas, subs);
    if op.transfers + Futures(op.replicas[..n], subs[..n]) == [] then TRANSFER_FAILED else FINALIZE_FAILED
  }

  ghost function FirstFailure(rs: seq<Descriptor>, subs: seq<Submit>): (n: nat)
    requires |subs| == |rs|
    ensures n <= |rs| && forall i | 0 <= i < n && rs[i].MemoryReplica? :: subs[i].Submitted?
    ensures n < |rs| ==> rs[n].MemoryReplica? && subs[n].Failed?
  {
    if rs == [] then 0
    else if rs[0].MemoryReplica? && subs[0].Failed? then 0
    else 1 + FirstFailure(rs[1..], subs[1..])
  }

  // The first outcome that is not OK.
  function FirstError(rs: seq<Result>): Result {
    if rs == [] then Ok else if rs[0].Err? then rs[0] else FirstError(rs[1..])
  }

  function AfterWait(op: Operation): Operation {
    if op.IsResolved() then op
    else if op.transfers == [] then op.SetError(INTERNAL_ERROR)
    else if FirstError(op.transfers).Err? then op.SetError(FirstError(op.transfers).error)
    else op
  }

  function AfterEnd(op: Operation, reply: Result): Operation {
    if reply.Ok? then op.SetSuccess() else op.SetError(reply.error)
  }

  // ---- the stages of a batch ----

  method StartBatchPut(ops: array<Operation>, starts: seq<Start>)
    modifies ops
    ensures |starts| == ops.Length ==> forall i | 0 <= i < ops.Length :: ops[i] == Started(old(ops[i]), starts[i])
    ensures |starts| != ops.Length ==> forall i | 0 <= i < ops.Length :: ops[i] == old(ops[i]).SetError(RPC_FAIL)
  {
    if |starts| != ops.Length {
      SetErrors(ops, RPC_FAIL);
      return;
    }
    for i := 0 to ops.Length
      invariant forall j | 0 <= j < i :: ops[j] == Started(old(ops[j]), starts[j])
      invariant forall j | i <= j < ops.Length :: ops[j] == old(ops[j])
    {
      match starts[i]
      case Refused(e) => ops[i] := ops[i].SetError(e);
      case Granted(rs) => ops[i] := ops[i].(replicas := rs);
    }
  }

  method SetErrors(ops: array<Operation>, e: ErrorCode)
    modifies ops
    ensures forall i | 0 <= i < ops.Length :: ops[i] == old(ops[i]).SetError(e)
  {
    for i := 0 to ops.Length
      invariant forall j | 0 <= j < i :: ops[j] == old(ops[j]).SetError(e)
      invariant forall j | i <= j < ops.Length :: ops[j] == old(ops[j])
    {
      ops[i] := ops[i].SetError(e);
    }
  }

  method SubmitReplicas(op: Operation, subs: seq<Submit>) returns (done: Operation)
    requires |subs| == |op.replicas| && !op.IsResolved() && op.replicas != []
    ensures done == AfterSubmit(op, subs)
  {
    var rs, transfers := op.replicas, op.transfers;
    for i := 0 to |rs|
      invariant forall j | 0 <= j < i && rs[j].MemoryReplica? :: subs[j].Submitted?
      invariant transfers == op.transfers + Futures(rs[..i], subs[..i])
    {
      if rs[i].MemoryReplica? && subs[i].Failed? {
        FailsFirst(rs, subs, i);
        done := op.(transfers := transfers).SetError(TRANSFER_FAIL).(transfers := []);
        return;
      }
      assert rs[..i + 1][..i] == rs[..i] && subs[..i + 1][..i] == subs[..i];
      if rs[i].MemoryReplica? { transfers := transfers + [subs[i].outcome]; }
    }
    assert rs[..|rs|] == rs && subs[..|rs|] == subs;
    done := op.(transfers := transfers);
  }

  lemma {:induction false} FailsFirst(rs: seq<Descriptor>, subs: seq<Submit>, i: nat)
    requires |subs| == |rs| && i < |rs| && rs[i].MemoryReplica? && subs[i].Failed?
    requires forall j | 0 <= j < i && rs[j].MemoryReplica? :: subs[j].Submitted?
    ensures FirstFailure(rs, subs) == i && !AllSubmitted(rs, subs)
  {
    if i > 0 { FailsFirst(rs[1..], subs[1..], i - 1); }
  }

  method SubmitTransfers(ops: array<Operation>, ready: bool, submits: seq<seq<Submit>>)
    requires |submits| == ops.Length
    requires forall i | 0 <= i < ops.Length && !ops[i].IsResolved() :: |submits[i]| == |ops[i].replicas|
    modifies ops
    ensures !ready ==> forall i | 0 <= i < ops.Length :: ops[i] == old(ops[i]).SetError(INVALID_PARAMS)
    ensures ready ==> forall i | 0 <= i < ops.Length ::
      ops[i] == if old(ops[i]).IsResolved() then old(ops[i]) else AfterSubmit(old(ops[i]), submits[i])
  {
    if !ready {
      SetErrors(ops, INVALID_PARAMS);
      return;
    }
    for i := 0 to ops.Length
      invariant forall j | 0 <= j < i ::
        ops[j] == if old(ops[j]).IsResolved() then old(ops[j]) else AfterSubmit(old(ops[j]), submits[j])
      invariant forall j | i <= j < ops.Length :: ops[j] == old(ops[j])
    {
      if !ops[i].IsResolved() {
        if ops[i].replicas == [] {
          ops[i] := ops[i].SetError(INTERNAL_ERROR);
        } else {
          var done := SubmitReplicas(ops[i], submits[i]);
          ops[i] := done;
        }
      }
    }
  }

  method WaitOne(transfers: seq<Result>) returns (first: Result)
    ensures first == FirstError(transfers)
  {
    first := Ok;
    for i := 0 to |transfers|
      invariant first == FirstError(transfers[..i])
    {
      ExtendError(transfers, i);
      if transfers[i].Err? && first.Ok? { first := transfers[i]; }
    }
    assert transfers[..|transfers|] == transfers;
  }

  lemma {:induction false} ExtendError(rs: seq<Result>, i: nat)
    requires i < |rs|
    ensures FirstError(rs[..i + 1]) == if FirstError(rs[..i]).Err? then FirstError(rs[..i]) else rs[i]
  {
    if i == 0 {
      assert rs[..1][1..] == [] && rs[..0] == [];
    } else {
      assert rs[..i + 1][1..] == rs[1..][..i] && rs[..i][1..] == rs[1..][..i - 1];
      ExtendError(rs[1..], i - 1);
    }
  }

  method WaitForTransfers(ops: array<Operation>)
    modifies ops
    ensures forall i | 0 <= i < ops.Length :: ops[i] == AfterWait(old(ops[i]))
  {
    for i := 0 to ops.Length
      invariant forall j | 0 <= j < i :: ops[j] == AfterWait(old(ops[j]))
      invariant forall j | i <= j < ops.Length :: ops[j] == old(ops[j])
    {
      if !ops[i].IsResolved() {
        if ops[i].transfers == [] {
          ops[i] := ops[i].SetError(INTERNAL_ERROR);
        } else {
          var first := WaitOne(ops[i].transfers);
          if first.Err? { ops[i] := ops[i].SetError(first.error); }
        }
      }
    }
  }

  method Classify(ops: array<Operation>) returns (ended: seq<nat>, revoked: seq<nat>)
    ensures Increasing(ended) && Increasing(revoked)
    ensures forall i :: i in ended <==> 0 <= i < ops.Length && ops[i].NeedsEnd()
    ensures forall i :: i in revoked <==> 0 <= i < ops.Length && ops[i].NeedsRevoke()
  {
    ended, revoked := [], [];
    for i := 0 to ops.Length
      invariant Increasing(ended) && Increasing(revoked)
      invariant forall j :: j in ended <==> 0 <= j < i && ops[j].NeedsEnd()
      invariant forall j :: j in revoked <==> 0 <= j < i && ops[j].NeedsRevoke()
    {
      assert forall p | 0 <= p < |ended| :: ended[p] in ended;
      assert forall p | 0 <= p < |revoked| :: revoked[p] in revoked;
      if !ops[i].IsResolved() && ops[i].replicas != [] && ops[i].transfers != [] {
        ended := ended + [i];
      } else if ops[i].state != PENDING && ops[i].replicas != [] {
        revoked := revoked + [i];
      }
    }
  }

  // The answer to the p-th of n calls, or an RPC failure when the number of answers is wrong.
  function Reply(replies: seq<Result>, n: nat, p: nat): Result
    requires p < n
  {
    if |replies| == n then replies[p] else Err(RPC_FAIL)
  }

  method ProcessEnds(ops: array<Operation>, ended: seq<nat>, ends: seq<Result>)
    requires Increasing(ended) && forall p | 0 <= p < |ended| :: ended[p] < ops.Length
    modifies ops
    ensures forall p | 0 <= p < |ended| :: ops[ended[p]] == AfterEnd(old(ops[ended[p]]), Reply(ends, |ended|, p))
    ensures forall i | 0 <= i < ops.Length && i !in ended :: ops[i] == old(ops[i])
  {
    for p := 0 to |ended|
      invariant forall q | 0 <= q < p :: ops[ended[q]] == AfterEnd(old(ops[ended[q]]), Reply(ends, |ended|, q))
      invariant forall i | 0 <= i < ops.Length && i !in ended[..p] :: ops[i] == old(ops[i])
    {
      assert ended[p] !in ended[..p];
      if |ends| != |ended| {
        ops[ended[p]] := ops[ended[p]].SetError(RPC_FAIL);
      } else if ends[p].Err? {
        ops[ended[p]] := ops[ended[p]].SetError(ends[p].error);
      } else {
        ops[ended[p]] := ops[ended[p]].SetSuccess();
      }
      assert ended[..p + 1] == ended[..p] + [ended[p]];
    }
    assert ended[..|ended|] == ended;
  }

  // A refused revoke only changes the error text; a wrong number of answers is an error.
  method ProcessRevokes(ops: array<Operation>, revoked: seq<nat>, revokes: seq<Result>)
    requires Increasing(revoked) && forall p | 0 <= p < |revoked| :: revoked[p] < ops.Length
    modifies ops
    ensures forall i | 0 <= i < ops.Length ::
      ops[i] == if i in revoked && |revokes| != |revoked| then old(ops[i]).SetError(RPC_FAIL) else old(ops[i])
  {
    if |revokes| != |revoked| {
      for p := 0 to |revoked|
        invariant forall i | 0 <= i < ops.Length ::
          ops[i] == if i in revoked[..p] then old(ops[i]).SetError(RPC_FAIL) else old(ops[i])
      {
        assert revoked[p] !in revoked[..p];
        ops[revoked[p]] := ops[revoked[p]].SetError(RPC_FAIL);
        assert revoked[..p + 1] == revoked[..p] + [revoked[p]];
      }
      assert revoked[..|revoked|] == revoked;
    }
  }

  method ResolveRest(ops: array<Operation>)
    modifies ops
    ensures forall i | 0 <= i < ops.Length ::
      ops[i] == if old(ops[i]).IsResolved() then old(ops[i]) else old(ops[i]).SetError(INTERNAL_ERROR)
  {
    for i := 0 to ops.Length
      invariant forall j | 0 <= j < i ::
        ops[j] == if old(ops[j]).IsResolved() then old(ops[j]) else old(ops[j]).SetError(INTERNAL_ERROR)
      invariant forall j | i <= j < ops.Length :: ops[j] == old(ops[j])
    {
      if !ops[i].IsResolved() { ops[i] := ops[i].SetError(INTERNAL_ERROR); }
    }
  }

  method FinalizeBatchPut(ops: array<Operation>, ends: seq<Result>, revokes: seq<Result>)
    returns (ended: seq<nat>, revoked: seq<nat>)
    modifies ops
    ensures Increasing(ended) && Increasing(revoked)
    ensures forall i :: i in ended <==> 0 <= i < ops.Length && old(ops[i].NeedsEnd())
    ensures forall i :: i in revoked <==> 0 <= i < ops.Length && old(ops[i].NeedsRevoke())
    ensures forall p | 0 <= p < |ended| ::
      0 <= ended[p] < ops.Length && ops[ended[p]] == AfterEnd(old(ops[ended[p]]), Reply(ends, |ended|, p))
    ensures forall i | 0 <= i < ops.Length && i in revoked ::
      ops[i] == if |revokes| != |revoked| then old(ops[i]).SetError(RPC_FAIL) else old(ops[i])
    ensures forall i | 0 <= i < ops.Length && i !in ended && i !in revoked ::
      ops[i] == if old(ops[i]).IsResolved() then old(ops[i]) else old(ops[i]).SetError(INTERNAL_ERROR)
  {
    ended, revoked := Classify(ops);
    assert forall p | 0 <= p < |ended| :: ended[p] in ended;
    assert forall p | 0 <= p < |revoked| :: revoked[p] in revoked;
    if ended != [] { ProcessEnds(ops, ended, ends); }
    if revoked != [] { ProcessRevokes(ops, revoked, revokes); }
    ResolveRest(ops);
  }

  method CollectResults(ops: array<Operation>) returns (results: seq<Result>)
    ensures |results| == ops.Length
    ensures forall i | 0 <= i < ops.Length ::
      results[i] == if ops[i].result == Err(OBJECT_ALREADY_EXISTS) then Ok else ops[i].result
  {
    results := [];
    for i := 0 to ops.Length
      invariant |results| == i
      invariant forall j | 0 <= j < i ::
        results[j] == if ops[j].result == Err(OBJECT_ALREADY_EXISTS) then Ok else ops[j].result
    {
      if ops[i].result == Err(OBJECT_ALREADY_EXISTS) {
        results := results + [Ok];
      } else {
        results := results + [ops[i].result];
      }
    }
  }

  // ---- what the batch as a whole does ----

  // The master granted operation i replicas, and the answer reached the client.
  predicate GrantedTo(w: World, n: nat, i: nat)
    requires i < n
  {
    |w.starts| == n && w.starts[i].Granted? && w.starts[i].replicas != []
  }

  // Some replica of operation i is in memory, all of those were submitted, and all transfers are OK.
  ghost predicate Delivered(w: World, n: nat, i: nat)
    requires i < n && WorldOk(w, n)
  {
    && GrantedTo(w, n, i) && w.ready
    && HasMemory(w.starts[i].replicas) && SubmittedOk(w.starts[i].replicas, w.submits[i])
  }

  // Operation i when it comes to finalizing.
  ghost function Waited(w: World, n: nat, i: nat): Operation
    requires i < n && WorldOk(w, n)
  {
    var op := if |w.starts| == n then Started(Fresh, w.starts[i]) else Fresh.SetError(RPC_FAIL);
    AfterWait(
      if !w.ready then op.SetError(INVALID_PARAMS)
      else if op.IsResolved() then op
      else AfterSubmit(op, w.submits[i]))
  }

  ghost predicate HasMemory(rs: seq<Descriptor>) {
    exists r :: 0 <= r < |rs| && rs[r].MemoryReplica?
  }

  ghost predicate AllOk(rs: seq<Result>) {
    forall j | 0 <= j < |rs| :: rs[j].Ok?
  }

  ghost predicate SubmittedOk(rs: seq<Descriptor>, subs: seq<Submit>)
    requires |subs| == |rs|
  {
    forall r | 0 <= r < |rs| && rs[r].MemoryReplica? :: subs[r] == Submitted(Ok)
  }

  lemma HasMemoryLast(rs: seq<Descriptor>)
    requires rs != []
    ensures HasMemory(rs) <==> HasMemory(rs[..|rs| - 1]) || rs[|rs| - 1].MemoryReplica?
  {
    var n := |rs| - 1;
    if HasMemory(rs[..n]) {
      var r :| 0 <= r < n && rs[..n][r].MemoryReplica?;
      assert rs[r].MemoryReplica?;
    } else if r :| 0 <= r < n && rs[r].MemoryReplica? {
      assert rs[..n][r].MemoryReplica?;
    }
  }

  lemma SubmittedOkLast(rs: seq<Descriptor>, subs: seq<Submit>)
    requires rs != [] && |subs| == |rs|
    ensures var n := |rs| - 1;
            SubmittedOk(rs, subs) <==>
              SubmittedOk(rs[..n], subs[..n]) && (rs[n].MemoryReplica? ==> subs[n] == Submitted(Ok))
  {
    var n := |rs| - 1;
    assert forall r | 0 <= r < n :: rs[..n][r] == rs[r] && subs[..n][r] == subs[r];
    if SubmittedOk(rs[..n], subs[..n]) {
      forall r | 0 <= r < n && rs[r].MemoryReplica? ensures subs[r] == Submitted(Ok) {
        assert rs[..n][r].MemoryReplica?;
      }
    }
  }

  lemma AllOkLast(rs: seq<Result>, x: Result)
    ensures AllOk(rs + [x]) <==> AllOk(rs) && x.Ok?
  {
    var s := rs + [x];
    assert s[|rs|] == x;
    assert forall j | 0 <= j < |rs| :: s[j] == rs[j];
  }

  // The futures are one per memory replica, and all OK when all submissions are.
  lemma {:induction false} FuturesOk(rs: seq<Descriptor>, subs: seq<Submit>)
    requires |subs| == |rs| && AllSubmitted(rs, subs)
    ensures Futures(rs, subs) != [] <==> HasMemory(rs)
    ensures AllOk(Futures(rs, subs)) <==> SubmittedOk(rs, subs)
  {
    hide HasMemory, AllOk, SubmittedOk;
    if rs == [] {
      NoFutures(subs);
    } else {
      var n := |rs| - 1;
      FuturesOk(rs[..n], subs[..n]);
      HasMemoryLast(rs);
      SubmittedOkLast(rs, subs);
      var f := Futures(rs[..n], subs[..n]);
      if rs[n].MemoryReplica? {
        assert Futures(rs, subs) == f + [subs[n].outcome];
        AllOkLast(f, subs[n].outcome);
      } else {
        assert Futures(rs, subs) == f + [];
        assert f + [] == f;
      }
    }
  }

  lemma NoFutures(subs: seq<Submit>)
    requires subs == []
    ensures !HasMemory([]) && AllOk([]) && SubmittedOk([], subs)
  {}

  lemma {:induction false} NoError(rs: seq<Result>)
    ensures FirstError(rs).Ok? <==> AllOk(rs)
  {
    if rs != [] {
      NoError(rs[1..]);
      assert rs == [rs[0]] + rs[1..];
      assert forall j | 0 <= j < |rs| - 1 :: rs[1..][j] == rs[j + 1];
    }
  }

  // A granted operation comes to finalizing with its replicas, to be ended if everything was
  // delivered and to be revoked otherwise; any other operation has failed without replicas.
  lemma WaitedMeans(w: World, n: nat, i: nat)
    requires i < n && WorldOk(w, n)
    ensures Waited(w, n, i).NeedsEnd() <==> Delivered(w, n, i)
    ensures Waited(w, n, i).NeedsRevoke() <==> GrantedTo(w, n, i) && !Delivered(w, n, i)
    ensures !GrantedTo(w, n, i) ==> Waited(w, n, i).IsResolved()
  {
    if GrantedTo(w, n, i) && w.ready {
      var rs, subs := w.starts[i].replicas, w.submits[i];
      if AllSubmitted(rs, subs) {
        FuturesOk(rs, subs);
        NoError(Futures(rs, subs));
        assert Fresh.transfers + Futures(rs, subs) == Futures(rs, subs);
      }
    }
  }

  // The error operation i is left with when it is not ended.
  ghost function Blame(w: World, n: nat, i: nat): Result
    requires i < n && WorldOk(w, n)
  {
    if !w.ready then Err(INVALID_PARAMS)
    else if |w.starts| != n then Err(RPC_FAIL)
    else if w.starts[i].Refused? then Err(w.starts[i].error)
    else if w.starts[i].replicas == [] then Err(INTERNAL_ERROR)
    else if !AllSubmitted(w.starts[i].replicas, w.submits[i]) then Err(TRANSFER_FAIL)
    else if Futures(w.starts[i].replicas, w.submits[i]) == [] then Err(INTERNAL_ERROR)
    else FirstError(Futures(w.starts[i].replicas, w.submits[i]))
  }

  // The transfer an operation is blamed for is the first one, in the order of the replicas, that failed.
  lemma FirstBlame(w: World, n: nat, i: nat)
    requires i < n && WorldOk(w, n) && w.ready && GrantedTo(w, n, i) && !Delivered(w, n, i)
    requires HasMemory(w.starts[i].replicas) && AllSubmitted(w.starts[i].replicas, w.submits[i])
    ensures var rs, subs := w.starts[i].replicas, w.submits[i];
      exists r :: 0 <= r < |rs| && BlamedFor(rs, subs, r) && subs[r].outcome == Blame(w, n, i)
  {
    var rs, subs := w.starts[i].replicas, w.submits[i];
    FuturesOk(rs, subs);
    NoError(Futures(rs, subs));
    FirstFails(rs, subs);
  }

  // Replica r is the first one in memory whose transfer failed.
  ghost predicate BlamedFor(rs: seq<Descriptor>, subs: seq<Submit>, r: nat)
    requires r < |rs| == |subs|
  {
    && rs[r].MemoryReplica? && subs[r].Submitted? && subs[r].outcome.Err?
    && forall q | 0 <= q < r && rs[q].MemoryReplica? :: subs[q] == Submitted(Ok)
  }

  lemma {:induction false} FirstErrorLast(rs: seq<Result>, x: Result)
    ensures FirstError(rs + [x]) == if FirstError(rs).Err? then FirstError(rs) else x
  {
    if rs == [] {
      assert rs + [x] == [x] && [x][1..] == [];
    } else {
      FirstErrorLast(rs[1..], x);
      assert (rs + [x])[1..] == rs[1..] + [x];
    }
  }

  lemma {:induction false} FirstFails(rs: seq<Descriptor>, subs: seq<Submit>)
    requires |subs| == |rs| && AllSubmitted(rs, subs) && FirstError(Futures(rs, subs)).Err?
    ensures exists r :: 0 <= r < |rs| && BlamedFor(rs, subs, r) && subs[r].outcome == FirstError(Futures(rs, subs))
  {
    var n := |rs| - 1;
    var p, q := rs[..n], subs[..n];
    var f := Futures(p, q);
    assert forall r | 0 <= r < n :: p[r] == rs[r] && q[r] == subs[r];
    assert f + [] == f;
    if rs[n].MemoryReplica? { FirstErrorLast(f, subs[n].outcome); }
    if FirstError(f).Err? {
      FirstFails(p, q);
      var r :| 0 <= r < |p| && BlamedFor(p, q, r) && q[r].outcome == FirstError(f);
      assert BlamedFor(rs, subs, r);
    } else {
      NoError(f);
      FuturesOk(p, q);
      forall r | 0 <= r < n && rs[r].MemoryReplica? ensures subs[r] == Submitted(Ok) { assert p[r].MemoryReplica?; }
      assert BlamedFor(rs, subs, n);
    }
  }

  lemma WaitedBlames(w: World, n: nat, i: nat)
    requires i < n && WorldOk(w, n) && !Waited(w, n, i).NeedsEnd()
    ensures Waited(w, n, i).result == Blame(w, n, i) && Blame(w, n, i).Err?
    ensures Waited(w, n, i).IsResolved()
  {
    WaitedMeans(w, n, i);
    if GrantedTo(w, n, i) && w.ready {
      var rs, subs := w.starts[i].replicas, w.submits[i];
      assert Fresh.transfers + Futures(rs, subs) == Futures(rs, subs);
      if AllSubmitted(rs, subs) { FuturesOk(rs, subs); NoError(Futures(rs, subs)); }
    }
  }

  // BatchPut over the whole batch. Each grant the client knows of is settled exactly once:
  // ended when every transfer was delivered, revoked otherwise. Success is reported exactly for
  // what was ended with an OK, and for what failed because the object is already there.
  method BatchPut(n: nat, w: World) returns (results: seq<Result>, ended: seq<nat>, revoked: seq<nat>)
    requires WorldOk(w, n)
    ensures |results| == n && Increasing(ended) && Increasing(revoked)
    ensures forall i :: i in ended <==> 0 <= i < n && Delivered(w, n, i)
    ensures forall i :: i in revoked <==> 0 <= i < n && GrantedTo(w, n, i) && !Delivered(w, n, i)
    ensures forall p | 0 <= p < |ended| ::
      && 0 <= ended[p] < n
      && var reply := if |w.ends| == |ended| then w.ends[p] else Err(RPC_FAIL);
         results[ended[p]] == if reply == Err(OBJECT_ALREADY_EXISTS) then Ok else reply
    ensures forall i | 0 <= i < n && i !in ended ::
      var left := if i in revoked && |w.revokes| != |revoked| then Err(RPC_FAIL) else Blame(w, n, i);
      results[i] == if left == Err(OBJECT_ALREADY_EXISTS) then Ok else left
  {
    hide Waited, Delivered, GrantedTo, Blame;
    var ops := new Operation[n](_ => Fresh);
    Stages(ops, n, w);
    forall i | 0 <= i < n
      ensures (Waited(w, n, i).NeedsEnd() <==> Delivered(w, n, i))
              && (Waited(w, n, i).NeedsRevoke() <==> GrantedTo(w, n, i) && !Delivered(w, n, i))
    { WaitedMeans(w, n, i); }
    forall i | 0 <= i < n && !Waited(w, n, i).NeedsEnd()
      ensures Waited(w, n, i).result == Blame(w, n, i) && Blame(w, n, i).Err? && Waited(w, n, i).IsResolved()
    { WaitedBlames(w, n, i); }
    ended, revoked := FinalizeBatchPut(ops, w.ends, w.revokes);
    results := CollectResults(ops);
  }

  // The three stages before finalizing.
  method Stages(ops: array<Operation>, n: nat, w: World)
    requires WorldOk(w, n) && ops.Length == n && forall i | 0 <= i < n :: ops[i] == Fresh
    modifies ops
    ensures forall i | 0 <= i < n :: ops[i] == Waited(w, n, i)
  {
    StartBatchPut(ops, w.starts);
    SubmitTransfers(ops, w.ready, w.submits);
    WaitForTransfers(ops);
  }

  // What the client hears is the master's answer for each key, or a refusal made on the way, or
  // answers of the wrong number.
  ghost predicate Heard(w: World, n: nat, master: seq<Start>) {
    |master| == n && (|w.starts| == n ==> forall i | 0 <= i < n :: w.starts[i] == master[i] || w.starts[i].Refused?)
  }

  // A grant of the master is settled, by an end or a revoke, if and only if the client hears of it.
  // A grant whose answer got lost stays as it is.
  lemma LostAnswers(w: World, n: nat, i: nat, master: seq<Start>)
    requires i < n && WorldOk(w, n) && Heard(w, n, master) && master[i].Granted? && master[i].replicas != []
    ensures Waited(w, n, i).NeedsEnd() || Waited(w, n, i).NeedsRevoke() <==> |w.starts| == n && w.starts[i] == master[i]
  {
    hide Waited;
    WaitedMeans(w, n, i);
  }
}
