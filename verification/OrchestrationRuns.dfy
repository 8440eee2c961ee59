/** What every history of calls on run manifests keeps, whoever makes the calls and wherever they crash. */
module OrchestrationRuns {
  import opened Common
  import opened Orchestration

  // ----- histories -----

  datatype Call =
    | Initialize(airflowRunId: string, logicalDate: string, parameters: RunParameters, revision: string, at: int)
    | Execute(context: Context, stage: nat, upstream: Upstream, work: Work)
    | Finalize(finished: Context, verification: Verification, at: int)

  /** A call, which may crash before it replaces the manifest file. */
  datatype Op = Op(call: Call, crashes: bool)

  function StoreAfter(p: Platform, store: Manifests, op: Op): Manifests
  {
    if op.crashes then store else
      match op.call
      case Initialize(a, d, r, v, at) => InitializeOutcome(p, store, a, d, r, v, at).manifests
      case Execute(c, stage, u, w) => ExecuteOutcome(p, store, c, stage, u, w).manifests
      case Finalize(c, v, at) => FinalizeOutcome(store, c, v, at).manifests
  }

  function Run(p: Platform, ops: seq<Op>): Manifests
  {
    if ops == [] then map[] else StoreAfter(p, Run(p, ops[..|ops| - 1]), ops[|ops| - 1])
  }

  function At(store: Manifests, id: Digest): Option<Manifest>
  {
    if id in store then Some(store[id]) else None
  }

  /** Does a context lead to this manifest? */
  predicate Leads(c: Context, id: Digest, existing: Option<Manifest>)
  {
    c.path == id && existing.Some? && existing.value.identity.runId == c.runId
  }

  /** What one call does to the manifest of one run id. */
  function After(p: Platform, existing: Option<Manifest>, id: Digest, op: Op): Option<Manifest>
  {
    if op.crashes then existing else
      match op.call
      case Initialize(a, d, r, v, at) =>
        var identity := RunIdentity(id, d, r, v);
        if ValidParameters(p, r) && p.identity(d, r) == id && (existing.Some? ==> existing.value.identity == identity)
        then Some(Joined(existing, identity, a, at)) else existing
      case Execute(c, stage, u, w) =>
        if Leads(c, id, existing) && stage < STAGES then Some(Executed(p, existing.value, c, stage, u, w)) else existing
      case Finalize(c, v, at) =>
        if Leads(c, id, existing) && v == Verification("verification", "SUCCEEDED") && AllSucceeded(existing.value)
        then Some(Finalized(existing.value, at)) else existing
  }

  lemma StoreAfterAt(p: Platform, store: Manifests, op: Op, id: Digest)
    ensures At(StoreAfter(p, store, op), id) == After(p, At(store, id), id, op)
  {
  }

  // ----- one step keeps -----

  /** How many leading stages have succeeded, from this one on. */
  function FrontierFrom(m: Manifest, i: nat): (frontier: nat)
    requires i <= STAGES
    ensures i <= frontier <= STAGES
    ensures frontier < STAGES ==> !Succeeded(m, frontier)
    ensures forall j :: i <= j < frontier ==> Succeeded(m, j)
    decreases STAGES - i
  {
    if i == STAGES || !Succeeded(m, i) then i else FrontierFrom(m, i + 1)
  }

  function Frontier(m: Manifest): nat
  {
    FrontierFrom(m, 0)
  }

  /** Every receipt stands behind a success of the stage before it. */
  ghost predicate Ordered(m: Manifest)
  {
    forall i :: i in m.stages ==> i < STAGES && m.stages[i].stage == i && (i > 0 ==> Succeeded(m, i - 1))
  }

  ghost predicate StatusFits(m: Manifest)
  {
    && (m.status == FAILED <==> exists i :: i in m.stages && m.stages[i].end.Failure?)
    && (m.status == SUCCEEDED ==> AllSucceeded(m))
    && (m.completedAt.Some? <==> m.status == SUCCEEDED)
    && m.reconciliation == if m.status == SUCCEEDED then Some(Reconciliation(STAGES, STAGES, m.identity.parameters.gateSize, true)) else None
  }

  ghost predicate RunsListed(m: Manifest)
  {
    && |m.airflowRunIds| == |m.reruns| + 1
    && Distinct(m.airflowRunIds)
    && forall i :: 0 <= i < |m.reruns| ==> m.reruns[i].airflowRunId == m.airflowRunIds[i + 1]
  }

  ghost predicate Sound(m: Manifest, id: Digest)
  {
    m.identity.runId == id && Ordered(m) && StatusFits(m) && RunsListed(m)
  }

  lemma {:induction false} OrderedPrefix(m: Manifest, i: nat, j: nat)
    requires Ordered(m) && i < j && j in m.stages
    ensures Succeeded(m, i)
  {
    if i < j - 1 { OrderedPrefix(m, i, j - 1); }
  }

  lemma RecordingIsAtFrontier(m: Manifest, stage: nat, upstream: Upstream)
    requires Ordered(m) && stage < STAGES && Records(m, stage, upstream)
    ensures forall i :: i in m.stages ==> i <= stage
    ensures forall i :: i in m.stages && i < stage ==> Succeeded(m, i)
    ensures forall i: nat :: i < stage ==> Succeeded(m, i)
  {
    forall i | i in m.stages ensures i <= stage {
      if stage < i { OrderedPrefix(m, stage, i); }
    }
    forall i: nat | i < stage ensures Succeeded(m, i) {
      if i < stage - 1 { OrderedPrefix(m, i, stage - 1); }
    }
  }

  lemma WithReceiptKeepsSound(m: Manifest, id: Digest, r: Receipt, upstream: Upstream)
    requires Sound(m, id) && r.stage < STAGES && Records(m, r.stage, upstream)
    ensures Sound(WithReceipt(m, r), id)
  {
    RecordingIsAtFrontier(m, r.stage, upstream);
    WithReceiptKeepsOrder(m, r);
    assert m.status != SUCCEEDED;
    WithReceiptFitsStatus(m, r);
    assert RunsListed(WithReceipt(m, r));
  }

  lemma WithReceiptKeepsOrder(m: Manifest, r: Receipt)
    requires Ordered(m) && r.stage < STAGES
    requires forall i :: i in m.stages ==> i <= r.stage
    requires r.stage > 0 ==> Succeeded(m, r.stage - 1)
    ensures Ordered(WithReceipt(m, r))
  {
    var after := WithReceipt(m, r);
    forall i | i in after.stages ensures i < STAGES && after.stages[i].stage == i && (i > 0 ==> Succeeded(after, i - 1)) {
      if i != r.stage { assert i in m.stages; }
    }
  }

  lemma WithReceiptFitsStatus(m: Manifest, r: Receipt)
    requires StatusFits(m) && m.status != SUCCEEDED
    requires forall i :: i in m.stages && i != r.stage ==> Succeeded(m, i)
    ensures StatusFits(WithReceipt(m, r))
  {
    var after := WithReceipt(m, r);
    assert after.stages[r.stage] == r;
    assert forall i :: i in after.stages && i != r.stage ==> after.stages[i].end.Success?;
  }

  lemma JoinedKeepsSound(m: Manifest, id: Digest, airflowRunId: string, now: int)
    requires Sound(m, id)
    ensures Sound(Joined(Some(m), m.identity, airflowRunId, now), id)
  {
    var after := Joined(Some(m), m.identity, airflowRunId, now);
    SameStages(m, after);
    assert RunsListed(after);
  }

  /** Order and status depend on the stages alone. */
  lemma SameStages(m: Manifest, after: Manifest)
    requires after.stages == m.stages
    ensures Ordered(m) <==> Ordered(after)
    ensures AllSucceeded(m) <==> AllSucceeded(after)
  {
    assert forall i :: Succeeded(m, i) <==> Succeeded(after, i);
  }

  lemma FinalizedKeepsSound(m: Manifest, id: Digest, now: int)
    requires Sound(m, id) && AllSucceeded(m)
    ensures Sound(Finalized(m, now), id)
  {
    var after := Finalized(m, now);
    SameStages(m, after);
    forall i | i in after.stages ensures Succeeded(m, i) {
    }
    assert forall i :: i in after.stages ==> after.stages[i].end.Success?;
  }

  lemma AfterKeepsSound(p: Platform, existing: Option<Manifest>, id: Digest, op: Op)
    requires existing.Some? ==> Sound(existing.value, id)
    ensures After(p, existing, id, op).Some? ==> Sound(After(p, existing, id, op).value, id)
  {
    if !op.crashes && existing.Some? {
      var m := existing.value;
      match op.call
      case Initialize(a, d, r, v, at) => JoinedKeepsSound(m, id, a, at);
      case Execute(c, stage, u, w) =>
        if stage < STAGES && Records(m, stage, u) { WithReceiptKeepsSound(m, id, NewReceipt(p, m, c, stage, u, w), u); }
      case Finalize(c, v, at) => if AllSucceeded(m) { FinalizedKeepsSound(m, id, at); }
    }
  }

  lemma {:induction false} RunsAreSound(p: Platform, ops: seq<Op>, id: Digest)
    ensures id in Run(p, ops) ==> Sound(Run(p, ops)[id], id)
  {
    if ops != [] {
      var before, op := ops[..|ops| - 1], ops[|ops| - 1];
      RunsAreSound(p, before, id);
      StoreAfterAt(p, Run(p, before), op, id);
      AfterKeepsSound(p, At(Run(p, before), id), id, op);
    }
  }

  /**
   * In every reachable manifest the successful stages form a prefix of the stage order; a failed receipt can only stand
   * at the frontier; the status is FAILED exactly when one stands there, and SUCCEEDED, with the completion time and the
   * reconciliation, only when every stage succeeded.
   */
  lemma ReachableManifests(p: Platform, ops: seq<Op>, id: Digest)
    requires id in Run(p, ops)
    ensures var m := Run(p, ops)[id];
      && (forall i: nat :: Succeeded(m, i) <==> i < Frontier(m))
      && (forall i: nat :: i in m.stages && !Succeeded(m, i) ==> i == Frontier(m))
      && (m.status == FAILED <==> Frontier(m) in m.stages)
      && (m.status == SUCCEEDED ==> Frontier(m) == STAGES)
      && (m.completedAt.Some? <==> m.status == SUCCEEDED) && (m.reconciliation.Some? <==> m.status == SUCCEEDED)
      && m.identity.runId == id && RunsListed(m)
  {
    var m := Run(p, ops)[id];
    RunsAreSound(p, ops, id);
    forall i: nat ensures i in m.stages ==> i <= Frontier(m) && (i < Frontier(m) <==> Succeeded(m, i)) {
      if i in m.stages && Frontier(m) < i { OrderedPrefix(m, Frontier(m), i); }
    }
    if m.status == FAILED {
      var i :| i in m.stages && m.stages[i].end.Failure?;
      assert i == Frontier(m);
    }
  }

  // ----- what no call undoes -----

  /** What a later state of a manifest keeps: its successes, its identity and its list of runs, and its completion. */
  ghost predicate Keeps(m: Manifest, later: Manifest)
  {
    && later.identity == m.identity && later.createdAt == m.createdAt
    && (forall i :: Succeeded(m, i) ==> i in later.stages && later.stages[i] == m.stages[i])
    && m.airflowRunIds <= later.airflowRunIds && m.reruns <= later.reruns
    && (m.status == SUCCEEDED ==> OnlyRerun(m, later))
  }

  /** They differ in run ids, rerun events and times alone. */
  ghost predicate OnlyRerun(m: Manifest, later: Manifest)
  {
    later == m.(airflowRunIds := later.airflowRunIds, reruns := later.reruns, updatedAt := later.updatedAt, completedAt := later.completedAt)
  }

  lemma AfterKeeps(p: Platform, m: Manifest, id: Digest, op: Op)
    requires Sound(m, id)
    ensures After(p, Some(m), id, op).Some? && Keeps(m, After(p, Some(m), id, op).value)
  {
    if op.crashes {
    } else if op.call.Execute? {
      ExecutedKeeps(p, m, op.call.context, op.call.stage, op.call.upstream, op.call.work);
    } else if op.call.Finalize? {
      assert Keeps(m, Finalized(m, op.call.at));
    }
  }

  lemma ExecutedKeeps(p: Platform, m: Manifest, c: Context, stage: nat, upstream: Upstream, w: Work)
    requires m.status == SUCCEEDED ==> AllSucceeded(m)
    ensures stage < STAGES ==> Keeps(m, Executed(p, m, c, stage, upstream, w))
  {
  }

  lemma KeepsTransitive(a: Manifest, b: Manifest, c: Manifest)
    requires Keeps(a, b) && Keeps(b, c)
    ensures Keeps(a, c)
  {
    forall i | Succeeded(a, i) ensures i in c.stages && c.stages[i] == a.stages[i] {
      assert Succeeded(b, i);
    }
  }

  /**
   * No later call, crash or rerun changes a success receipt; a finalised manifest gains run ids, rerun events and new
   * times, and nothing else of it ever changes.
   */
  lemma {:induction false} LaterCallsKeep(p: Platform, ops: seq<Op>, more: seq<Op>, id: Digest)
    requires id in Run(p, ops)
    ensures id in Run(p, ops + more) && Keeps(Run(p, ops)[id], Run(p, ops + more)[id])
    decreases |more|
  {
    if more == [] {
      assert ops + more == ops;
    } else {
      var n := |more| - 1;
      LaterCallsKeep(p, ops, more[..n], id);
      var all := ops + more;
      assert all[..|all| - 1] == ops + more[..n] && all[|all| - 1] == more[n];
      var store := Run(p, ops + more[..n]);
      RunsAreSound(p, ops + more[..n], id);
      StoreAfterAt(p, store, more[n], id);
      AfterKeeps(p, store[id], id, more[n]);
      KeepsTransitive(Run(p, ops)[id], store[id], Run(p, all)[id]);
    }
  }

  // ----- attempts -----

  /** Does this call write a receipt for the stage, and does that receipt report success? */
  predicate Writes(store: Manifests, op: Op, id: Digest, stage: nat)
  {
    && !op.crashes && op.call.Execute? && op.call.stage == stage && stage < STAGES
    && Leads(op.call.context, id, At(store, id)) && Records(store[id], stage, op.call.upstream)
  }

  predicate WritesSuccess(p: Platform, store: Manifests, op: Op, id: Digest, stage: nat)
  {
    && Writes(store, op, id, stage)
    && NewReceipt(p, store[id], op.call.context, stage, op.call.upstream, op.call.work).end.Success?
  }

  /** How many calls of a history wrote a receipt for a stage, and how many of those were successes. */
  function Written(p: Platform, ops: seq<Op>, id: Digest, stage: nat): (nat, nat)
  {
    if ops == [] then (0, 0) else
      var before, op := ops[..|ops| - 1], ops[|ops| - 1];
      var (all, successes) := Written(p, before, id, stage);
      (all + (if Writes(Run(p, before), op, id, stage) then 1 else 0),
       successes + (if WritesSuccess(p, Run(p, before), op, id, stage) then 1 else 0))
  }

  function AttemptOf(existing: Option<Manifest>, stage: nat): nat
  {
    if existing.Some? && stage in existing.value.stages then existing.value.stages[stage].attempt else 0
  }

  function SuccessOf(existing: Option<Manifest>, stage: nat): nat
  {
    if existing.Some? && Succeeded(existing.value, stage) then 1 else 0
  }

  /** One call moves the attempt number of a stage exactly when it writes a receipt for it. */
  lemma AttemptStep(p: Platform, store: Manifests, op: Op, id: Digest, stage: nat)
    ensures var after := After(p, At(store, id), id, op);
      && AttemptOf(after, stage) == AttemptOf(At(store, id), stage) + (if Writes(store, op, id, stage) then 1 else 0)
      && SuccessOf(after, stage) == SuccessOf(At(store, id), stage) + (if WritesSuccess(p, store, op, id, stage) then 1 else 0)
  {
  }

  /** `attempt` counts the receipts ever written for its stage, and at most one of them was a success. */
  lemma {:induction false} AttemptsCountReceipts(p: Platform, ops: seq<Op>, id: Digest, stage: nat)
    ensures Written(p, ops, id, stage) == (AttemptOf(At(Run(p, ops), id), stage), SuccessOf(At(Run(p, ops), id), stage))
  {
    if ops != [] {
      var before, op := ops[..|ops| - 1], ops[|ops| - 1];
      AttemptsCountReceipts(p, before, id, stage);
      StoreAfterAt(p, Run(p, before), op, id);
      AttemptStep(p, Run(p, before), op, id, stage);
    }
  }

  // ----- what a success receipt holds -----

  function StageOf(o: Output): nat
  {
    match o
    case IntegrationOutput(stage, _, _, _) => stage
    case LocalOutput(stage, _, _, _) => stage
  }

  function UpstreamOf(o: Output): Digest
  {
    match o
    case IntegrationOutput(_, _, upstream, _) => upstream
    case LocalOutput(_, upstream, _, _) => upstream
  }

  /** The output belongs to the stage, names the receipt's upstream, and is what the checksum was computed from. */
  predicate Consistent(p: Platform, r: Receipt)
  {
    r.end.Success? ==>
      && StageOf(r.end.output) == r.stage && UpstreamOf(r.end.output) == r.upstream
      && r.end.checksum == p.checksum(r.end.output)
  }

  lemma AfterKeepsConsistent(p: Platform, existing: Option<Manifest>, id: Digest, op: Op)
    requires existing.Some? ==> forall i :: i in existing.value.stages ==> Consistent(p, existing.value.stages[i])
    ensures var after := After(p, existing, id, op);
      after.Some? ==> forall i :: i in after.value.stages ==> Consistent(p, after.value.stages[i])
  {
    if existing.Some? && op.call.Execute? && Records(existing.value, op.call.stage, op.call.upstream) {
      assert Consistent(p, NewReceipt(p, existing.value, op.call.context, op.call.stage, op.call.upstream, op.call.work));
    }
  }

  /** Over every history of calls, each success receipt's output is of its own stage and upstream, and its checksum is of that output. */
  lemma {:induction false} ReceiptsAreConsistent(p: Platform, ops: seq<Op>, id: Digest)
    ensures id in Run(p, ops) ==> forall i :: i in Run(p, ops)[id].stages ==> Consistent(p, Run(p, ops)[id].stages[i])
  {
    if ops != [] {
      var before, op := ops[..|ops| - 1], ops[|ops| - 1];
      ReceiptsAreConsistent(p, before, id);
      StoreAfterAt(p, Run(p, before), op, id);
      AfterKeepsConsistent(p, At(Run(p, before), id), id, op);
    }
  }

  // ----- the chain of checksums -----

  /** The checksum a stage's receipt should name as its upstream. */
  function ExpectedUpstream(m: Manifest, stage: nat): Digest
  {
    if stage > 0 && Succeeded(m, stage - 1) then m.stages[stage - 1].end.checksum else ROOT
  }

  ghost predicate Chained(m: Manifest)
  {
    forall i :: i in m.stages ==> m.stages[i].upstream == ExpectedUpstream(m, i)
  }

  /** A written receipt keeps the chain exactly when the caller passed the predecessor's output checksum. */
  lemma ChainKeptExactly(p: Platform, m: Manifest, c: Context, stage: nat, upstream: Upstream, w: Work)
    requires Ordered(m) && Chained(m) && stage < STAGES && Records(m, stage, upstream)
    ensures Chained(Executed(p, m, c, stage, upstream, w)) <==> UpstreamChecksum(upstream) == ExpectedUpstream(m, stage)
  {
    RecordingIsAtFrontier(m, stage, upstream);
    LinkAtFrontier(m, NewReceipt(p, m, c, stage, upstream, w));
  }

  lemma LinkAtFrontier(m: Manifest, r: Receipt)
    requires Chained(m) && !Succeeded(m, r.stage)
    requires forall i :: i in m.stages ==> i <= r.stage
    ensures Chained(WithReceipt(m, r)) <==> r.upstream == ExpectedUpstream(m, r.stage)
  {
    var after := WithReceipt(m, r);
    forall i: nat | i <= r.stage ensures ExpectedUpstream(after, i) == ExpectedUpstream(m, i) {
      if i > 0 { assert Succeeded(after, i - 1) <==> Succeeded(m, i - 1); }
    }
    assert after.stages[r.stage] == r;
    forall i | i in after.stages && i != r.stage ensures after.stages[i].upstream == ExpectedUpstream(after, i) {
      assert i in m.stages;
    }
  }

  /** A caller who leaves out the upstream of a later stage breaks the chain, unless the predecessor's checksum is the word ROOT. */
  lemma MissingUpstreamBreaksTheChain(p: Platform, m: Manifest, c: Context, stage: nat, w: Work)
    requires Ordered(m) && Chained(m) && 0 < stage < STAGES && Records(m, stage, Absent)
    requires m.stages[stage - 1].end.checksum != ROOT
    ensures !Chained(Executed(p, m, c, stage, Absent, w))
  {
    ChainKeptExactly(p, m, c, stage, Absent, w);
  }

  /** Once a success names a wrong upstream, no later call mends it, and every execution with the right one is a conflict. */
  lemma BrokenLinkIsPermanent(p: Platform, ops: seq<Op>, more: seq<Op>, id: Digest, c: Context, stage: nat, upstream: Upstream, w: Work)
    requires id in Run(p, ops) && stage < STAGES && c.path == id && c.runId == id && !upstream.NoChecksum?
    requires var m := Run(p, ops)[id]; Succeeded(m, stage) && m.stages[stage].upstream != UpstreamChecksum(upstream)
    ensures ExecuteOutcome(p, Run(p, ops + more), c, stage, upstream, w).result == Err(StageConflict)
    ensures ExecuteOutcome(p, Run(p, ops + more), c, stage, upstream, w).manifests == Run(p, ops + more)
  {
    LaterCallsKeep(p, ops, more, id);
    RunsAreSound(p, ops + more, id);
    var m := Run(p, ops + more)[id];
    assert Succeeded(m, stage);
    assert Run(p, ops + more)[id := m] == Run(p, ops + more);
  }

  // ----- identity -----

  /** No stored manifest has this run id for another logical date or other parameters. */
  ghost predicate NoCollision(p: Platform, store: Manifests, logicalDate: string, r: RunParameters)
  {
    forall id :: id in store && p.identity(store[id].identity.logicalDate, store[id].identity.parameters) == p.identity(logicalDate, r) ==>
      store[id].identity.logicalDate == logicalDate && store[id].identity.parameters == r
  }

  ghost predicate Identified(p: Platform, m: Manifest, id: Digest)
  {
    m.identity.runId == id && p.identity(m.identity.logicalDate, m.identity.parameters) == id && ValidParameters(p, m.identity.parameters)
  }

  lemma {:induction false} RunsAreIdentified(p: Platform, ops: seq<Op>, id: Digest)
    ensures id in Run(p, ops) ==> Identified(p, Run(p, ops)[id], id)
  {
    if ops != [] {
      var before, op := ops[..|ops| - 1], ops[|ops| - 1];
      RunsAreIdentified(p, before, id);
      StoreAfterAt(p, Run(p, before), op, id);
    }
  }

  /** Initialising an existing run is refused exactly when the pipeline revision has changed, and adopted otherwise. */
  lemma InitializeExact(p: Platform, ops: seq<Op>, airflowRunId: string, logicalDate: string, r: RunParameters, revision: string, now: int)
    requires NoCollision(p, Run(p, ops), logicalDate, r) && ValidParameters(p, r)
    ensures var store, id := Run(p, ops), p.identity(logicalDate, r);
      var answer := InitializeOutcome(p, store, airflowRunId, logicalDate, r, revision, now);
      && (answer.result.Ok? <==> (id in store ==> store[id].identity.pipelineRevision == revision))
      && (answer.result.Ok? ==> id in answer.manifests && airflowRunId in answer.manifests[id].airflowRunIds)
      && (answer.result.Ok? && id in store && airflowRunId in store[id].airflowRunIds ==> answer.manifests == store)
      && (answer.result.Err? ==> answer.manifests == store)
  {
    var store, id := Run(p, ops), p.identity(logicalDate, r);
    RunsAreIdentified(p, ops, id);
    if id in store { assert store[id := store[id]] == store; }
    var identity := RunIdentity(id, logicalDate, r, revision);
    var after := Joined(At(store, id), identity, airflowRunId, now);
    assert airflowRunId in after.airflowRunIds by {
      if id in store { assert airflowRunId !in store[id].airflowRunIds ==> after.airflowRunIds[|store[id].airflowRunIds|] == airflowRunId; }
    }
  }
}
