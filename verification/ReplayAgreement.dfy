/** Generator and verifier against each other. */
module ReplayAgreement {
  import opened Common
  import opened ReplayRecords
  import opened ReplayGenerator
  import opened ReplayVerifier

  // ----- soundness -----

  /**
   * Whatever artifact the verifier accepts is, record for record and field for field, the generator's sequence for
   * that plan and source, up to Python's equality of JSON values.
   */
  lemma AcceptedIsThePlan(p: Platform, m: Manifest, source: seq<Line>, artifact: seq<Line>)
    requires AcceptsArtifact(p, m, source, artifact)
    ensures var records := PlanRecords(p, m.plan, source, m.pipelineVersion);
      && |artifact| == |records| == m.plan.sourceRecordCount * m.plan.replayFactor
      && forall s :: 0 <= s < |artifact| ==> p.parse(artifact[s]).Some? && Agrees(p.parse(artifact[s]).value, records[s])
  {
    var originals := Originals(p, source);
    PlanSizeIsProduct(m.plan);
    ItemsArePlanItems(p, m.plan, originals, m.pipelineVersion, PlanSize(m.plan));
    forall s: nat | s < |artifact|
      ensures p.parse(artifact[s]).Some?
      ensures Agrees(p.parse(artifact[s]).value, PlanRecords(p, m.plan, source, m.pipelineVersion)[s])
    {
      assert LineAgrees(p, m.plan, originals, m.pipelineVersion, artifact[s], s);
      assert ItemAt(p, m.plan, originals, m.pipelineVersion, s).record == RecordAt(p, m.plan, originals, m.pipelineVersion, s);
    }
  }

  /** Where the plan's record holds text or null, an agreeing record holds exactly the same. */
  lemma AgreementIsExactOnText(event: Event, expected: Event, f: Field)
    requires Agrees(event, expected) && f in expected && (expected[f].Str? || expected[f].Null?)
    ensures event[f] == expected[f]
  {
    if expected[f].Str? { PyEqOnText(event[f], expected[f].s); } else { PyEqOnText(event[f], ""); }
  }

  // ----- completeness -----

  /** The records of a plan read back as written. */
  ghost predicate ReadsBack(p: Platform, plan: Plan, originals: seq<Event>, pipelineVersion: string)
    requires plan.replayFactor > 0 && |originals| == plan.sourceRecordCount > 0
  {
    forall s: nat :: s < PlanSize(plan) ==> RecordReadsBack(p, RecordAt(p, plan, originals, pipelineVersion, s))
  }

  predicate RecordReadsBack(p: Platform, record: Event)
  {
    p.parse(p.render(record)) == Some(record)
  }

  /** No field the replay preserves is a bare NaN. */
  ghost predicate NaNFree(original: Event)
  {
    forall f :: f in original && !f.Overwritten? ==> original[f] != NotANumber
  }

  /** A replay record agrees with itself exactly when no preserved field of its original is NaN. */
  lemma AgreesWithItself(p: Platform, original: Event, r: Replay)
    ensures Agrees(BuildReplayEvent(p, original, r), BuildReplayEvent(p, original, r)) <==> NaNFree(original)
  {
    var record := BuildReplayEvent(p, original, r);
    forall f | f in record ensures PyEq(record[f], record[f]) <==> (f.Overwritten? || original[f] != NotANumber) {
      PyEqReflexive(record[f]);
    }
    forall f | f in original && !f.Overwritten? ensures f in record && record[f] == original[f] {
    }
  }

  lemma LineOfRecordAgrees(p: Platform, plan: Plan, originals: seq<Event>, pipelineVersion: string, s: nat)
    requires plan.sourceRecordCount > 0 && |originals| == plan.sourceRecordCount
    requires RecordReadsBack(p, RecordAt(p, plan, originals, pipelineVersion, s))
    ensures LineAgrees(p, plan, originals, pipelineVersion, p.render(RecordAt(p, plan, originals, pipelineVersion, s)), s)
      <==> NaNFree(originals[IndexOf(plan.sourceRecordCount, s)])
  {
    AgreesWithItself(p, originals[IndexOf(plan.sourceRecordCount, s)], ReplayAt(p, plan, pipelineVersion, s));
  }

  ghost predicate AllNaNFree(originals: seq<Event>)
  {
    forall i :: 0 <= i < |originals| ==> NaNFree(originals[i])
  }

  lemma RenderedPlanAgrees(p: Platform, plan: Plan, originals: seq<Event>, pipelineVersion: string, lines: seq<Line>)
    requires ValidPlan(plan) && |originals| == plan.sourceRecordCount && ReadsBack(p, plan, originals, pipelineVersion)
    requires lines == RenderAll(p, RecordsOf(PlanItems(p, plan, originals, pipelineVersion)))
    ensures LinesAgree(p, plan, originals, pipelineVersion, lines) <==> AllNaNFree(originals)
  {
    PlanSizeIsProduct(plan);
    ItemsArePlanItems(p, plan, originals, pipelineVersion, PlanSize(plan));
    forall s: nat | s < |lines|
      ensures LineAgrees(p, plan, originals, pipelineVersion, lines[s], s) <==> NaNFree(originals[IndexOf(plan.sourceRecordCount, s)])
    {
      assert PlanItems(p, plan, originals, pipelineVersion)[s] == ItemAt(p, plan, originals, pipelineVersion, s);
      LineOfRecordAgrees(p, plan, originals, pipelineVersion, s);
    }
    if LinesAgree(p, plan, originals, pipelineVersion, lines) {
      forall i: nat | i < |originals| ensures NaNFree(originals[i]) {
        FirstIterationIsWhole(plan);
        assert IndexOf(plan.sourceRecordCount, i) == i;
        assert LineAgrees(p, plan, originals, pipelineVersion, lines[i], i);
      }
    }
  }

  lemma FirstIterationIsWhole(plan: Plan)
    requires ValidPlan(plan)
    ensures plan.sourceRecordCount <= PlanSize(plan)
  {
    FirstsIncrease(plan.sourceRecordCount, 2, plan.replayFactor + 1);
  }

  /**
   * The verifier accepts the artifact and manifest of a finished generation exactly when no preserved field of an original
   * is NaN: Python's NaN differs from itself, so the verifier then refuses even a faithful artifact.
   */
  lemma GeneratedIsAccepted(p: Platform, plan: Plan, source: seq<Line>, pipelineVersion: string)
    requires ValidPlan(plan) && SourceAdmitted(p, plan, source) && ReadsBack(p, plan, Originals(p, source), pipelineVersion)
    ensures var lines := RenderAll(p, PlanRecords(p, plan, source, pipelineVersion));
      AcceptsArtifact(p, ManifestFor(p, plan, pipelineVersion, lines), source, lines) <==> AllNaNFree(Originals(p, source))
  {
    var originals := Originals(p, source);
    var lines := RenderAll(p, PlanRecords(p, plan, source, pipelineVersion));
    ArtifactOfPlan(p, plan, originals, pipelineVersion, lines);
  }

  lemma ArtifactOfPlan(p: Platform, plan: Plan, originals: seq<Event>, pipelineVersion: string, lines: seq<Line>)
    requires ValidPlan(plan) && |originals| == plan.sourceRecordCount && ReadsBack(p, plan, originals, pipelineVersion)
    requires lines == RenderAll(p, RecordsOf(PlanItems(p, plan, originals, pipelineVersion)))
    ensures ArtifactMatches(p, ManifestFor(p, plan, pipelineVersion, lines), originals, lines) <==> AllNaNFree(originals)
  {
    RenderedPlanAgrees(p, plan, originals, pipelineVersion, lines);
    LinesOfPlan(p, plan, originals, pipelineVersion, lines);
    TotalsOfManifest(p, plan, pipelineVersion, lines);
  }

  lemma LinesOfPlan(p: Platform, plan: Plan, originals: seq<Event>, pipelineVersion: string, lines: seq<Line>)
    requires ValidPlan(plan) && |originals| == plan.sourceRecordCount
    requires lines == RenderAll(p, RecordsOf(PlanItems(p, plan, originals, pipelineVersion)))
    ensures |lines| == PlanSize(plan)
  {
    ItemsArePlanItems(p, plan, originals, pipelineVersion, PlanSize(plan));
  }

  lemma TotalsOfManifest(p: Platform, plan: Plan, pipelineVersion: string, lines: seq<Line>)
    requires ValidPlan(plan) && |lines| == PlanSize(plan)
    ensures TotalsMatch(p, ManifestFor(p, plan, pipelineVersion, lines), lines)
  {
    PlanSizeIsProduct(plan);
  }

  // ----- what acceptance does not see -----

  /** The record of a plan with the number 0 for its synthetic flag. */
  function WithZeroFlag(record: Event): Event
  {
    record[Overwritten(IsSynthetic) := Int(0)]
  }

  lemma ZeroFlagAgrees(p: Platform, original: Event, r: Replay)
    requires NaNFree(original)
    ensures var record := BuildReplayEvent(p, original, r);
      WithZeroFlag(record) != record && Agrees(WithZeroFlag(record), record)
  {
    var record := BuildReplayEvent(p, original, r);
    assert Overwritten(IsSynthetic) in record && record[Overwritten(IsSynthetic)] == Bool(false);
    AgreesWithItself(p, original, r);
    var altered := WithZeroFlag(record);
    assert altered[Overwritten(IsSynthetic)] != record[Overwritten(IsSynthetic)];
    assert altered.Keys == record.Keys;
    forall f | f in record ensures PyEq(Get(altered, f), record[f]) {
      if f != Overwritten(IsSynthetic) { assert altered[f] == record[f]; }
    }
  }

  /**
   * Acceptance is only up to Python's equality: an artifact in which any one record carries 0 for false, with a manifest of
   * its own bytes, is accepted, although it is not what the generator writes.
   */
  lemma ZeroPassesForFalse(p: Platform, plan: Plan, source: seq<Line>, pipelineVersion: string, s: nat)
    requires ValidPlan(plan) && SourceAdmitted(p, plan, source) && ReadsBack(p, plan, Originals(p, source), pipelineVersion)
    requires AllNaNFree(Originals(p, source)) && s < PlanSize(plan)
    requires RecordReadsBack(p, WithZeroFlag(RecordAt(p, plan, Originals(p, source), pipelineVersion, s)))
    ensures var lines := RenderAll(p, PlanRecords(p, plan, source, pipelineVersion));
      && |lines| == PlanSize(plan)
      && var record := RecordAt(p, plan, Originals(p, source), pipelineVersion, s);
      && var forged := lines[s := p.render(WithZeroFlag(record))];
      && forged != lines
      && AcceptsArtifact(p, ManifestFor(p, plan, pipelineVersion, forged), source, forged)
  {
    var originals := Originals(p, source);
    var lines := RenderAll(p, PlanRecords(p, plan, source, pipelineVersion));
    LinesOfPlan(p, plan, originals, pipelineVersion, lines);
    RenderedPlanAgrees(p, plan, originals, pipelineVersion, lines);
    var altered := WithZeroFlag(RecordAt(p, plan, originals, pipelineVersion, s));
    var forged := lines[s := p.render(altered)];
    ZeroFlagAgrees(p, originals[IndexOf(plan.sourceRecordCount, s)], ReplayAt(p, plan, pipelineVersion, s));
    ForgedLinesAgree(p, plan, originals, pipelineVersion, lines, s, altered);
    LineOfPlan(p, plan, originals, pipelineVersion, lines, s);
    assert RecordReadsBack(p, RecordAt(p, plan, originals, pipelineVersion, s));
    assert p.parse(forged[s]) != p.parse(lines[s]);
    TotalsOfManifest(p, plan, pipelineVersion, forged);
  }

  lemma LineOfPlan(p: Platform, plan: Plan, originals: seq<Event>, pipelineVersion: string, lines: seq<Line>, s: nat)
    requires ValidPlan(plan) && |originals| == plan.sourceRecordCount && s < |lines|
    requires lines == RenderAll(p, RecordsOf(PlanItems(p, plan, originals, pipelineVersion)))
    ensures lines[s] == p.render(RecordAt(p, plan, originals, pipelineVersion, s))
  {
    ItemsArePlanItems(p, plan, originals, pipelineVersion, PlanSize(plan));
    assert PlanItems(p, plan, originals, pipelineVersion)[s] == ItemAt(p, plan, originals, pipelineVersion, s);
  }

  lemma ForgedLinesAgree(p: Platform, plan: Plan, originals: seq<Event>, pipelineVersion: string, lines: seq<Line>, s: nat, altered: Event)
    requires plan.sourceRecordCount > 0 && |originals| == plan.sourceRecordCount && s < |lines|
    requires LinesAgree(p, plan, originals, pipelineVersion, lines)
    requires RecordReadsBack(p, altered) && Agrees(altered, RecordAt(p, plan, originals, pipelineVersion, s))
    ensures LinesAgree(p, plan, originals, pipelineVersion, lines[s := p.render(altered)])
  {
    var forged := lines[s := p.render(altered)];
    forall i: nat | i < |forged| ensures LineAgrees(p, plan, originals, pipelineVersion, forged[i], i) {
      if i != s { assert LineAgrees(p, plan, originals, pipelineVersion, lines[i], i); }
    }
  }

  // ----- what an accepted plan contains -----

  predicate InPlan(plan: Plan, originals: seq<Event>, id: string, iteration: int)
  {
    id in Ids(originals) && 1 <= iteration <= plan.replayFactor
  }

  /** No two of the plan's (original, iteration) pairs share an event id. */
  ghost predicate NoCollision(p: Platform, plan: Plan, originals: seq<Event>)
  {
    forall a, b, i, j :: InPlan(plan, originals, a, i) && InPlan(plan, originals, b, j) ==>
      (p.eventId(p.runId(plan), a, i) == p.eventId(p.runId(plan), b, j) ==> a == b && i == j)
  }

  /** Without hash collisions the event ids of a plan are pairwise distinct, as the verifier reports unchecked. */
  lemma EventIdsAreUnique(p: Platform, plan: Plan, originals: seq<Event>, pipelineVersion: string, s: nat, t: nat)
    requires ValidPlan(plan) && |originals| == plan.sourceRecordCount && Distinct(Ids(originals))
    requires NoCollision(p, plan, originals) && s < t < PlanSize(plan)
    ensures IdOf(RecordAt(p, plan, originals, pipelineVersion, s)) != IdOf(RecordAt(p, plan, originals, pipelineVersion, t))
  {
    var n := plan.sourceRecordCount;
    RecordIds(p, plan, originals, pipelineVersion, s);
    RecordIds(p, plan, originals, pipelineVersion, t);
    PlacesDiffer(n, s, t);
    IterationInPlan(n, plan.replayFactor, s);
    IterationInPlan(n, plan.replayFactor, t);
    assert Ids(originals)[IndexOf(n, s)] in Ids(originals) && Ids(originals)[IndexOf(n, t)] in Ids(originals);
    IdsDiffer(originals, IndexOf(n, s), IndexOf(n, t));
  }

  lemma {:induction false} IterationInPlan(n: nat, factor: int, s: nat)
    requires n > 0 && factor > 0 && s < FirstOf(n, factor + 1)
    ensures 1 <= IterationOf(n, s) <= factor
    decreases factor
  {
    if s >= n { IterationInPlan(n, factor - 1, s - n); }
  }

  lemma IdsDiffer(originals: seq<Event>, i: nat, j: nat)
    requires Distinct(Ids(originals)) && i < |originals| && j < |originals|
    ensures IdOf(originals[i]) == IdOf(originals[j]) ==> i == j
  {
    assert Ids(originals)[i] == IdOf(originals[i]) && Ids(originals)[j] == IdOf(originals[j]);
  }

  lemma PlacesDiffer(n: nat, s: nat, t: nat)
    requires n > 0 && s != t
    ensures IterationOf(n, s) != IterationOf(n, t) || IndexOf(n, s) != IndexOf(n, t)
  {
    PlaceDetermines(n, s);
    PlaceDetermines(n, t);
  }

  lemma {:induction false} PlaceDetermines(n: nat, s: nat)
    requires n > 0
    ensures s == FirstOf(n, IterationOf(n, s)) + IndexOf(n, s)
    decreases s
  {
    if s >= n { PlaceDetermines(n, s - n); }
  }

  /** The sequence numbers of a plan that replay original k. */
  function ReplaysOf(n: nat, count: nat, k: nat): set<nat>
    requires n > 0
  {
    set s | 0 <= s < count && IndexOf(n, s) == k
  }

  lemma {:induction false} RoundsCount(n: nat, count: nat, k: nat)
    requires k < n
    ensures |ReplaysOf(n, count, k)| == Rounds(n, count, k)
  {
    if count == 0 {
      assert ReplaysOf(n, count, k) == {};
    } else {
      RoundsCount(n, count - 1, k);
      RoundsStep(n, count - 1, k);
      OneMoreReplay(n, count - 1, k);
    }
  }

  lemma OneMoreReplay(n: nat, s: nat, k: nat)
    requires n > 0
    ensures |ReplaysOf(n, s + 1, k)| == |ReplaysOf(n, s, k)| + if IndexOf(n, s) == k then 1 else 0
  {
    var before := ReplaysOf(n, s, k);
    assert ReplaysOf(n, s + 1, k) == if IndexOf(n, s) == k then before + {s} else before;
  }

  /** In a whole plan every original, and so every detection, is replayed exactly replay_factor times. */
  lemma EveryDetectionOccursFactorTimes(plan: Plan, k: nat)
    requires ValidPlan(plan) && k < plan.sourceRecordCount
    ensures |ReplaysOf(plan.sourceRecordCount, PlanSize(plan), k)| == plan.replayFactor
  {
    RoundsCount(plan.sourceRecordCount, PlanSize(plan), k);
    PlaceInIteration(plan.sourceRecordCount, plan.replayFactor + 1, 0);
  }

  /** The schedule stamps of an accepted artifact name strictly increasing milliseconds. */
  lemma AcceptedScheduleIncreases(p: Platform, m: Manifest, source: seq<Line>, artifact: seq<Line>, s: nat, t: nat)
    requires AcceptsArtifact(p, m, source, artifact) && s < t < |artifact|
    ensures p.parse(artifact[s]).Some? && p.parse(artifact[t]).Some?
    ensures Get(p.parse(artifact[s]).value, Overwritten(ScheduledReplayTimestamp)) == Str(p.stamp(ScheduledMillisecond(m.plan, s)))
    ensures Get(p.parse(artifact[t]).value, Overwritten(ScheduledReplayTimestamp)) == Str(p.stamp(ScheduledMillisecond(m.plan, t)))
    ensures ScheduledMillisecond(m.plan, s) < ScheduledMillisecond(m.plan, t)
  {
    var originals := Originals(p, source);
    ScheduleIncreases(m.plan, s, t);
    StampOfLine(p, m.plan, originals, m.pipelineVersion, artifact[s], s);
    StampOfLine(p, m.plan, originals, m.pipelineVersion, artifact[t], t);
  }

  lemma StampOfLine(p: Platform, plan: Plan, originals: seq<Event>, pipelineVersion: string, line: Line, s: nat)
    requires plan.sourceRecordCount > 0 && |originals| == plan.sourceRecordCount
    requires LineAgrees(p, plan, originals, pipelineVersion, line, s)
    ensures Get(p.parse(line).value, Overwritten(ScheduledReplayTimestamp)) == Str(p.stamp(ScheduledMillisecond(plan, s)))
  {
    var record := RecordAt(p, plan, originals, pipelineVersion, s);
    assert Overwritten(ScheduledReplayTimestamp) in record;
    AgreementIsExactOnText(p.parse(line).value, record, Overwritten(ScheduledReplayTimestamp));
  }
}
