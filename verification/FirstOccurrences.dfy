/** The canonicaliser's lists as a partition of the rows, and what Spark makes of the events it accepts. */
module FirstOccurrences {
  import opened Common
  import opened Identity
  import opened Canonicalizer
  import S = SparkClassification

  // ----- the lists partition the rows -----

  lemma {:induction false} WithIs(outcomes: seq<RowOutcome>, fate: Fate, n: nat)
    requires n <= |outcomes|
    ensures forall i: nat :: i in With(outcomes, fate, n) <==> i < n && FateOf(outcomes, i) == fate
    ensures forall k, l :: 0 <= k < l < |With(outcomes, fate, n)| ==> With(outcomes, fate, n)[k] < With(outcomes, fate, n)[l]
  {
    if n > 0 { WithIs(outcomes, fate, n - 1); }
  }

  /**
   * Accepted are exactly the first valid rows of each id, in file order; rejected exactly the invalid ones; duplicates exactly
   * the other valid ones. Every row is in one list, once.
   */
  lemma ListsPartitionTheRows(outcomes: seq<RowOutcome>)
    ensures var l := ListsAfter(outcomes, |outcomes|);
      var kept, refused, repeated := With(outcomes, Kept, |outcomes|), With(outcomes, Refused, |outcomes|), With(outcomes, Repeated, |outcomes|);
      && l.accepted == EventsAt(outcomes, kept) && l.rejected == OutcomesAt(outcomes, refused) && l.duplicates == NotesAt(outcomes, repeated)
      && |kept| + |refused| + |repeated| == |outcomes|
      && (forall i: nat :: i < |outcomes| ==>
            && (i in kept <==> outcomes[i].Accepted? && FirstValid(outcomes, i))
            && (i in refused <==> outcomes[i].Rejected?)
            && (i in repeated <==> outcomes[i].Accepted? && !FirstValid(outcomes, i)))
      && (forall k, j :: 0 <= k < j < |kept| ==> kept[k] < kept[j])
  {
    ListsHoldFates(outcomes, |outcomes|);
    WithIs(outcomes, Kept, |outcomes|);
    WithIs(outcomes, Refused, |outcomes|);
    WithIs(outcomes, Repeated, |outcomes|);
  }

  /** Accepted events have pairwise distinct ids. */
  lemma AcceptedIdsDiffer(outcomes: seq<RowOutcome>, k: nat, j: nat)
    requires k < j < |ListsAfter(outcomes, |outcomes|).accepted|
    ensures ListsAfter(outcomes, |outcomes|).accepted[k].eventId != ListsAfter(outcomes, |outcomes|).accepted[j].eventId
  {
    ListsPartitionTheRows(outcomes);
    var kept := With(outcomes, Kept, |outcomes|);
    assert kept[k] < kept[j] && FirstValid(outcomes, kept[j]);
  }

  /** Every valid row's id is that of exactly one accepted event, which comes from its first valid row. */
  lemma {:induction false} EveryValidIdIsAccepted(outcomes: seq<RowOutcome>, i: nat) returns (first: nat)
    requires i < |outcomes| && outcomes[i].Accepted?
    ensures first <= i && FateOf(outcomes, first) == Kept && outcomes[first].event.eventId == outcomes[i].event.eventId
    decreases i
  {
    if FirstValid(outcomes, i) {
      first := i;
    } else {
      var j :| 0 <= j < i && outcomes[j].Accepted? && outcomes[j].event.eventId == outcomes[i].event.eventId;
      first := EveryValidIdIsAccepted(outcomes, j);
    }
  }

  // ----- which rows are valid -----

  /** A required coordinate: finite and within its bound. */
  predicate GoodCoordinate(p: Platform, row: RawRow, column: Column, bound: real)
  {
    Trimmed(row, column) != "" && p.float(Trimmed(row, column)).Finite? && -bound <= p.float(Trimmed(row, column)).r <= bound
  }

  /** A measurement: absent, or finite and in its domain. */
  predicate GoodMeasurement(p: Platform, row: RawRow, column: Column, bounds: Bounds)
  {
    var text := Trimmed(row, column);
    text == "" ||
    (p.float(text).Finite? && (bounds == Positive ==> p.float(text).r > 0.0) && (bounds == NonNegative ==> p.float(text).r >= 0.0))
  }

  predicate GoodTexts(p: Platform, row: RawRow)
  {
    && Trimmed(row, Satellite) != "" && Trimmed(row, Confidence) != "" && Trimmed(row, Version) != ""
    && Trimmed(row, Instrument) != "" && p.upper(Trimmed(row, Instrument)) == "VIIRS"
    && (Trimmed(row, DayNight) == "D" || Trimmed(row, DayNight) == "N")
  }

  predicate GoodMeasurements(p: Platform, row: RawRow)
  {
    && GoodMeasurement(p, row, BrightTi4, Positive) && GoodMeasurement(p, row, BrightTi5, Positive)
    && GoodMeasurement(p, row, Frp, NonNegative) && GoodMeasurement(p, row, Scan, Positive) && GoodMeasurement(p, row, Track, Positive)
  }

  lemma TextsExactly(p: Platform, row: RawRow)
    ensures TextErrors(p, row) == {} <==> GoodTexts(p, row)
  {
    var errors := TextErrors(p, row);
    assert Trimmed(row, Satellite) != "" <==> ErrorCode(MISSING, Satellite) !in errors;
    assert Trimmed(row, Confidence) != "" <==> ErrorCode(MISSING, Confidence) !in errors;
    assert Trimmed(row, Version) != "" <==> ErrorCode(MISSING, Version) !in errors;
    assert Trimmed(row, Instrument) != "" <==> ErrorCode(MISSING, Instrument) !in errors;
    assert Trimmed(row, DayNight) != "" <==> ErrorCode(MISSING, DayNight) !in errors;
  }

  lemma MeasurementExactly(p: Platform, row: RawRow, column: Column, bounds: Bounds)
    ensures Measure(p, row, column, bounds) == {} <==> GoodMeasurement(p, row, column, bounds)
  {
  }

  lemma MeasurementsExactly(p: Platform, row: RawRow)
    ensures MeasurementErrors(p, row) == {} <==> GoodMeasurements(p, row)
  {
    MeasurementExactly(p, row, BrightTi4, Positive);
    MeasurementExactly(p, row, BrightTi5, Positive);
    MeasurementExactly(p, row, Frp, NonNegative);
    MeasurementExactly(p, row, Scan, Positive);
    MeasurementExactly(p, row, Track, Positive);
  }

  lemma CoordinateExactly(p: Platform, row: RawRow, column: Column, bound: real)
    ensures CoordinateErrors(p, row, column, bound) == {} <==> GoodCoordinate(p, row, column, bound)
  {
  }

  /** A row is accepted exactly when its coordinates, texts, time and measurements are good and its identity can be built. */
  lemma RowAcceptedExactly(p: Platform, run: Run, row: RawRow, rowNumber: nat)
    ensures OutcomeOf(p, run, row, rowNumber).Accepted? <==>
      && GoodCoordinate(p, row, Latitude, 90.0) && GoodCoordinate(p, row, Longitude, 180.0)
      && EventTimestamp(p, row).Some? && GoodTexts(p, row) && GoodMeasurements(p, row)
      && SourceRecordId(p, row, run.sourceDataset).Some?
  {
    CoordinateExactly(p, row, Latitude, 90.0);
    CoordinateExactly(p, row, Longitude, 180.0);
    TextsExactly(p, row);
    MeasurementsExactly(p, row);
    ErrorsSplit(p, row);
  }

  lemma ErrorsSplit(p: Platform, row: RawRow)
    ensures RowErrors(p, row) == {} <==>
      && CoordinateErrors(p, row, Latitude, 90.0) == {} && CoordinateErrors(p, row, Longitude, 180.0) == {}
      && EventTimestamp(p, row).Some? && TextErrors(p, row) == {} && MeasurementErrors(p, row) == {}
  {
    var errors := RowErrors(p, row);
    assert CoordinateErrors(p, row, Latitude, 90.0) <= errors && CoordinateErrors(p, row, Longitude, 180.0) <= errors;
    assert TextErrors(p, row) <= errors && MeasurementErrors(p, row) <= errors;
    assert EventTimestamp(p, row).None? ==> INVALID_EVENT_TIMESTAMP in errors;
  }

  // ----- accepted events in Spark -----

  /** An accepted event as the Bronze row Spark reads. */
  function BronzeRow(e: CanonicalEvent): S.Row
  {
    S.Row(None, Some(e.eventId), Some(e.detectionId), Some(e.lineageRootId), Some(S.NASA_ORIGINAL), Some(e.sourceDataset),
          Some(e.sourceRecordId), Some(e.ingestionRunId), Some(e.pipelineVersion), Some(false), Some(e.eventTimestamp),
          Some(e.ingestionTimestamp), Some(e.latitude), Some(e.longitude), Some("1.0.0"), None, None, None, None, None,
          Some(e.dayNight), e.brightTi4, e.brightTi5, e.firePower, e.scan, e.track, Some(e.rawRowNumber), Some(e.rawPayloadHash))
  }

  /** What Spark asks beyond the canonicaliser: names of the run that are not blank, and no event from the future. */
  predicate RunIsSound(run: Run, e: CanonicalEvent)
  {
    && !S.Blank(run.sourceDataset) && !S.Blank(run.ingestionRunId) && !S.Blank(run.pipelineVersion)
    && e.eventTimestamp <= run.ingestionTimestamp
  }

  lemma CoordinateInBounds(p: Platform, row: RawRow, column: Column, bound: real)
    requires CoordinateErrors(p, row, column, bound) == {}
    ensures RequiredFloat(p, row, column).Ok? && -bound <= RequiredFloat(p, row, column).value <= bound
  {
  }

  lemma MeasurementFits(p: Platform, row: RawRow, column: Column, bounds: Bounds)
    requires Measure(p, row, column, bounds) == {}
    ensures bounds == Positive ==> S.NullOrPositive(OptionalFloat(p, row, column, bounds).0)
    ensures bounds == NonNegative ==> OptionalFloat(p, row, column, bounds).0.Some? ==> OptionalFloat(p, row, column, bounds).0.value >= 0.0
  {
  }

  lemma MeasurementsFit(p: Platform, row: RawRow)
    requires RowErrors(p, row) == {}
    ensures S.NullOrPositive(OptionalFloat(p, row, BrightTi4, Positive).0) && S.NullOrPositive(OptionalFloat(p, row, BrightTi5, Positive).0)
    ensures S.NullOrPositive(OptionalFloat(p, row, Scan, Positive).0) && S.NullOrPositive(OptionalFloat(p, row, Track, Positive).0)
    ensures OptionalFloat(p, row, Frp, NonNegative).0.Some? ==> OptionalFloat(p, row, Frp, NonNegative).0.value >= 0.0
  {
    assert MeasurementErrors(p, row) <= RowErrors(p, row);
    MeasurementFits(p, row, BrightTi4, Positive);
    MeasurementFits(p, row, BrightTi5, Positive);
    MeasurementFits(p, row, Frp, NonNegative);
    MeasurementFits(p, row, Scan, Positive);
    MeasurementFits(p, row, Track, Positive);
  }

  lemma IdIsText(p: Platform, row: RawRow, dataset: string)
    requires SourceRecordId(p, row, dataset).Some?
    ensures !S.Blank(SourceRecordId(p, row, dataset).value)
  {
    assert SourceRecordId(p, row, dataset).value[0] == 'n';
  }

  /** An accepted row keeps its four identities equal, and is valid for Spark exactly when its run is sound. */
  lemma AcceptedIsValidExactly(p: Platform, run: Run, row: RawRow, rowNumber: nat)
    requires OutcomeOf(p, run, row, rowNumber).Accepted?
    ensures var e := OutcomeOf(p, run, row, rowNumber).event;
      && e.eventId == e.detectionId == e.lineageRootId == e.sourceRecordId
      && (S.Valid(BronzeRow(e)) <==> RunIsSound(run, e))
  {
    NoErrorsMeansParsed(p, row);
    NoErrorsMeansDayNight(p, row);
    CoordinatesFit(p, row);
    MeasurementsFit(p, row);
    IdIsText(p, row, run.sourceDataset);
    var e := EventOf(p, run, row, rowNumber, SourceRecordId(p, row, run.sourceDataset).value);
    ValidRowExactly(e);
  }

  lemma CoordinatesFit(p: Platform, row: RawRow)
    requires RowErrors(p, row) == {}
    ensures RequiredFloat(p, row, Latitude).Ok? && -90.0 <= RequiredFloat(p, row, Latitude).value <= 90.0
    ensures RequiredFloat(p, row, Longitude).Ok? && -180.0 <= RequiredFloat(p, row, Longitude).value <= 180.0
  {
    assert CoordinateErrors(p, row, Latitude, 90.0) <= RowErrors(p, row) && CoordinateErrors(p, row, Longitude, 180.0) <= RowErrors(p, row);
    CoordinateInBounds(p, row, Latitude, 90.0);
    CoordinateInBounds(p, row, Longitude, 180.0);
  }

  /** Validity of the Bronze row of an event whose identities are one text. */
  lemma ValidRowExactly(e: CanonicalEvent)
    requires e.eventId == e.detectionId == e.lineageRootId == e.sourceRecordId && !S.Blank(e.eventId)
    requires -90.0 <= e.latitude <= 90.0 && -180.0 <= e.longitude <= 180.0 && (e.dayNight == "D" || e.dayNight == "N")
    requires S.NullOrPositive(e.brightTi4) && S.NullOrPositive(e.brightTi5) && S.NullOrPositive(e.scan) && S.NullOrPositive(e.track)
    requires e.firePower.Some? ==> e.firePower.value >= 0.0
    ensures S.Valid(BronzeRow(e)) <==>
      !S.Blank(e.sourceDataset) && !S.Blank(e.ingestionRunId) && !S.Blank(e.pipelineVersion) && e.eventTimestamp <= e.ingestionTimestamp
  {
    S.ValidExactly(BronzeRow(e));
  }

  function BronzeRows(events: seq<CanonicalEvent>): (rows: seq<S.Row>)
    ensures |rows| == |events| && forall i :: 0 <= i < |events| ==> rows[i] == BronzeRow(events[i])
  {
    seq(|events|, i requires 0 <= i < |events| => BronzeRow(events[i]))
  }

  /** Classifying the accepted list never yields a duplicate: each event is accepted if valid and rejected if not. */
  lemma AcceptedListHasNoDuplicates(outcomes: seq<RowOutcome>, ties: seq<int>, i: nat)
    requires var rows := BronzeRows(ListsAfter(outcomes, |outcomes|).accepted); |ties| == |rows| && i < |rows| && Distinct(ties)
    ensures var rows := BronzeRows(ListsAfter(outcomes, |outcomes|).accepted);
      S.OutcomeOf(rows, ties, i) == if S.Valid(rows[i]) then S.ACCEPTED else S.REJECTED
  {
    var accepted := ListsAfter(outcomes, |outcomes|).accepted;
    var rows := BronzeRows(accepted);
    forall j, k | 0 <= j < k < |rows| ensures rows[j].eventId != rows[k].eventId {
      AcceptedIdsDiffer(outcomes, j, k);
    }
    S.DistinctIdsAreNeverDuplicates(rows, ties, i);
  }

  /** The accepted events of a whole run reach Silver exactly when the run is sound for them. */
  lemma AcceptedReachSilverExactly(p: Platform, run: Run, rawRows: seq<RawRow>, ties: seq<int>, i: nat)
    requires var events := ListsAfter(OutcomesOf(p, run, rawRows), |rawRows|).accepted; |ties| == |events| && i < |events| && Distinct(ties)
    ensures var events := ListsAfter(OutcomesOf(p, run, rawRows), |rawRows|).accepted;
      S.OutcomeOf(BronzeRows(events), ties, i) == if RunIsSound(run, events[i]) then S.ACCEPTED else S.REJECTED
  {
    var outcomes := OutcomesOf(p, run, rawRows);
    AcceptedListHasNoDuplicates(outcomes, ties, i);
    ListsPartitionTheRows(outcomes);
    var at := With(outcomes, Kept, |outcomes|)[i];
    OutcomeAt(p, run, rawRows, at);
    AcceptedIsValidExactly(p, run, rawRows[at], at + 2);
  }
}
