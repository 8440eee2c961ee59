/** Spark's validation and windowed deduplication of Bronze events, in SQL's three-valued logic. */
module SparkClassification {
  import opened Common
  import opened TextOrder

  // ----- three-valued logic -----

  /** A SQL condition: true, false, or unknown. */
  datatype Tri = Yes | No | Unknown

  function Of(b: bool): Tri { if b then Yes else No }

  function Not(a: Tri): Tri
  {
    match a
    case Yes => No
    case No => Yes
    case Unknown => Unknown
  }

  function And(a: Tri, b: Tri): Tri
  {
    if a == No || b == No then No else if a == Yes && b == Yes then Yes else Unknown
  }

  function Or(a: Tri, b: Tri): Tri
  {
    Not(And(Not(a), Not(b)))
  }

  function IsNull<T(0)>(v: Option<T>): Tri { Of(v.None?) }

  function Equal<T(==)>(v: Option<T>, w: Option<T>): Tri
  {
    if v.None? || w.None? then Unknown else Of(v == w)
  }

  function Less(v: Option<real>, w: Option<real>): Tri
  {
    if v.None? || w.None? then Unknown else Of(v.value < w.value)
  }

  function AtMost(v: Option<real>, w: Option<real>): Tri
  {
    if v.None? || w.None? then Unknown else Of(v.value <= w.value)
  }

  function LessInt(v: Option<int>, w: Option<int>): Tri
  {
    if v.None? || w.None? then Unknown else Of(v.value < w.value)
  }

  function Truth(v: Option<bool>): Tri
  {
    if v.None? then Unknown else Of(v.value)
  }

  /** trim removes spaces: nothing is left of a text of spaces. */
  predicate Blank(s: string)
  {
    forall i :: 0 <= i < |s| ==> s[i] == ' '
  }

  function MissingText(v: Option<string>): Tri
  {
    Or(IsNull(v), if v.None? then Unknown else Of(Blank(v.value)))
  }

  // ----- rows and checks -----

  /** The approved source types, and any other text. */
  datatype SourceType = NASA_ORIGINAL | NASA_REPLAY | SYNTHETIC_SCALE_TEST | OtherSource(text: string)

  /** The columns of a Bronze row that validation and deduplication look at; timestamps are microseconds. */
  datatype Row = Row(
    corruptRecord: Option<string>, eventId: Option<string>, detectionId: Option<string>, lineageRootId: Option<string>,
    sourceType: Option<SourceType>, sourceDataset: Option<string>, sourceRecordId: Option<string>, ingestionRunId: Option<string>,
    pipelineVersion: Option<string>, isSynthetic: Option<bool>, eventTimestamp: Option<int>, ingestionTimestamp: Option<int>,
    latitude: Option<real>, longitude: Option<real>, schemaVersion: Option<string>, replayRunId: Option<string>,
    scheduledReplay: Option<int>, replayIteration: Option<int>, replaySequence: Option<int>, syntheticGenerationId: Option<string>,
    dayNight: Option<string>, brightTi4: Option<real>, brightTi5: Option<real>, firePower: Option<real>, scan: Option<real>,
    track: Option<real>, rawRowNumber: Option<int>, rawPayloadHash: Option<string>)

  datatype Code =
    | CORRUPT_JSON | MISSING_EVENT_ID | MISSING_DETECTION_ID | MISSING_LINEAGE_ROOT_ID | MISSING_SOURCE_TYPE | MISSING_SOURCE_DATASET
    | MISSING_SOURCE_RECORD_ID | MISSING_INGESTION_RUN_ID | MISSING_PIPELINE_VERSION | MISSING_IS_SYNTHETIC
    | MISSING_OR_INVALID_EVENT_TIMESTAMP | MISSING_OR_INVALID_INGESTION_TIMESTAMP | INVALID_LATITUDE | INVALID_LONGITUDE
    | INVALID_SOURCE_TYPE | INVALID_SCHEMA_VERSION | ORIGINAL_MARKED_SYNTHETIC | ORIGINAL_IDENTITY_MISMATCH
    | INVALID_REPLAY_CLASSIFICATION | MISSING_SCHEDULED_REPLAY_TIMESTAMP | INVALID_REPLAY_ITERATION
    | INVALID_REPLAY_SEQUENCE_NUMBER | INVALID_SYNTHETIC_CLASSIFICATION | EVENT_AFTER_INGESTION | INVALID_DAY_NIGHT
    | NON_POSITIVE_BRIGHT_TI4 | NON_POSITIVE_BRIGHT_TI5 | NEGATIVE_FIRE_RADIATIVE_POWER | NON_POSITIVE_SCAN | NON_POSITIVE_TRACK

  function Outside(v: Option<real>, bound: real): Tri
  {
    Or(Or(IsNull(v), Less(v, Some(-bound))), Less(Some(bound), v))
  }

  function SourceIs(r: Row, source: SourceType): Tri
  {
    Equal(r.sourceType, Some(source))
  }

  function BlankSource(source: Option<SourceType>): Tri
  {
    match source
    case None => Unknown
    case Some(OtherSource(text)) => Of(Blank(text))
    case _ => No
  }

  function PresentAndAtMostZero(v: Option<real>): Tri
  {
    And(Not(IsNull(v)), AtMost(v, Some(0.0)))
  }

  /** The condition of each check. */
  function Fires(r: Row, c: Code): Tri
  {
    match c
    case CORRUPT_JSON => Not(IsNull(r.corruptRecord))
    case MISSING_EVENT_ID => MissingText(r.eventId)
    case MISSING_DETECTION_ID => MissingText(r.detectionId)
    case MISSING_LINEAGE_ROOT_ID => MissingText(r.lineageRootId)
    case MISSING_SOURCE_TYPE => Or(IsNull(r.sourceType), BlankSource(r.sourceType))
    case MISSING_SOURCE_DATASET => MissingText(r.sourceDataset)
    case MISSING_SOURCE_RECORD_ID => MissingText(r.sourceRecordId)
    case MISSING_INGESTION_RUN_ID => MissingText(r.ingestionRunId)
    case MISSING_PIPELINE_VERSION => MissingText(r.pipelineVersion)
    case MISSING_IS_SYNTHETIC => IsNull(r.isSynthetic)
    case MISSING_OR_INVALID_EVENT_TIMESTAMP => IsNull(r.eventTimestamp)
    case MISSING_OR_INVALID_INGESTION_TIMESTAMP => IsNull(r.ingestionTimestamp)
    case INVALID_LATITUDE => Outside(r.latitude, 90.0)
    case INVALID_LONGITUDE => Outside(r.longitude, 180.0)
    case INVALID_SOURCE_TYPE =>
      Not(Or(Or(SourceIs(r, NASA_ORIGINAL), SourceIs(r, NASA_REPLAY)), SourceIs(r, SYNTHETIC_SCALE_TEST)))
    case INVALID_SCHEMA_VERSION => Not(Equal(r.schemaVersion, Some("1.0.0")))
    case ORIGINAL_MARKED_SYNTHETIC => And(SourceIs(r, NASA_ORIGINAL), Truth(r.isSynthetic))
    case ORIGINAL_IDENTITY_MISMATCH =>
      And(SourceIs(r, NASA_ORIGINAL),
          Or(Or(Not(Equal(r.eventId, r.detectionId)), Not(Equal(r.eventId, r.lineageRootId))), Not(Equal(r.eventId, r.sourceRecordId))))
    case INVALID_REPLAY_CLASSIFICATION => And(SourceIs(r, NASA_REPLAY), Or(Truth(r.isSynthetic), MissingText(r.replayRunId)))
    case MISSING_SCHEDULED_REPLAY_TIMESTAMP => And(SourceIs(r, NASA_REPLAY), IsNull(r.scheduledReplay))
    case INVALID_REPLAY_ITERATION =>
      And(SourceIs(r, NASA_REPLAY), Or(IsNull(r.replayIteration), LessInt(r.replayIteration, Some(1))))
    case INVALID_REPLAY_SEQUENCE_NUMBER =>
      And(SourceIs(r, NASA_REPLAY), Or(IsNull(r.replaySequence), LessInt(r.replaySequence, Some(0))))
    case INVALID_SYNTHETIC_CLASSIFICATION =>
      And(SourceIs(r, SYNTHETIC_SCALE_TEST), Or(Not(Truth(r.isSynthetic)), MissingText(r.syntheticGenerationId)))
    case EVENT_AFTER_INGESTION => LessInt(r.ingestionTimestamp, r.eventTimestamp)
    case INVALID_DAY_NIGHT => Not(Or(Equal(r.dayNight, Some("D")), Equal(r.dayNight, Some("N"))))
    case NON_POSITIVE_BRIGHT_TI4 => PresentAndAtMostZero(r.brightTi4)
    case NON_POSITIVE_BRIGHT_TI5 => PresentAndAtMostZero(r.brightTi5)
    case NEGATIVE_FIRE_RADIATIVE_POWER => And(Not(IsNull(r.firePower)), Less(r.firePower, Some(0.0)))
    case NON_POSITIVE_SCAN => PresentAndAtMostZero(r.scan)
    case NON_POSITIVE_TRACK => PresentAndAtMostZero(r.track)
  }

  /** The codes whose condition is true; an unknown one adds none. */
  function ErrorCodes(r: Row): set<Code>
  {
    set c: Code | Fires(r, c) == Yes
  }

  predicate Valid(r: Row)
  {
    ErrorCodes(r) == {}
  }

  // ----- what validity means, nulls included -----

  predicate HasText(v: Option<string>)
  {
    v.Some? && !Blank(v.value)
  }

  predicate InBounds(v: Option<real>, bound: real)
  {
    v.Some? && -bound <= v.value <= bound
  }

  predicate NullOrPositive(v: Option<real>)
  {
    v.Some? ==> v.value > 0.0
  }

  predicate IdentifiedRow(r: Row)
  {
    && r.corruptRecord.None?
    && HasText(r.eventId) && HasText(r.detectionId) && HasText(r.lineageRootId) && HasText(r.sourceDataset)
    && HasText(r.sourceRecordId) && HasText(r.ingestionRunId) && HasText(r.pipelineVersion)
  }

  predicate PlacedRow(r: Row)
  {
    && r.eventTimestamp.Some? && r.ingestionTimestamp.Some? && r.eventTimestamp.value <= r.ingestionTimestamp.value
    && InBounds(r.latitude, 90.0) && InBounds(r.longitude, 180.0)
    && (r.schemaVersion.Some? ==> r.schemaVersion.value == "1.0.0")
    && (r.dayNight.Some? ==> r.dayNight.value == "D" || r.dayNight.value == "N")
  }

  predicate MeasuredRow(r: Row)
  {
    && NullOrPositive(r.brightTi4) && NullOrPositive(r.brightTi5) && NullOrPositive(r.scan) && NullOrPositive(r.track)
    && (r.firePower.Some? ==> r.firePower.value >= 0.0)
  }

  /** What is asked of the row's own source type. */
  predicate ClassifiedRow(r: Row)
  {
    && r.isSynthetic.Some?
    && ((r.sourceType == Some(NASA_ORIGINAL) && !r.isSynthetic.value
         && r.eventId == r.detectionId == r.lineageRootId == r.sourceRecordId)
        || (r.sourceType == Some(NASA_REPLAY) && !r.isSynthetic.value && HasText(r.replayRunId) && r.scheduledReplay.Some?
            && r.replayIteration.Some? && r.replayIteration.value > 0 && r.replaySequence.Some? && r.replaySequence.value >= 0)
        || (r.sourceType == Some(SYNTHETIC_SCALE_TEST) && r.isSynthetic.value && HasText(r.syntheticGenerationId)))
  }

  lemma MissingTextIs(v: Option<string>)
    ensures MissingText(v) == Yes <==> !HasText(v)
  {
  }

  predicate Passes(r: Row, c: Code)
  {
    Fires(r, c) != Yes
  }

  lemma IdentifiedExactly(r: Row)
    ensures IdentifiedRow(r) <==>
      && Passes(r, CORRUPT_JSON) && Passes(r, MISSING_EVENT_ID) && Passes(r, MISSING_DETECTION_ID)
      && Passes(r, MISSING_LINEAGE_ROOT_ID) && Passes(r, MISSING_SOURCE_DATASET) && Passes(r, MISSING_SOURCE_RECORD_ID)
      && Passes(r, MISSING_INGESTION_RUN_ID) && Passes(r, MISSING_PIPELINE_VERSION)
  {
  }

  lemma TimesExactly(r: Row)
    ensures r.eventTimestamp.Some? && r.ingestionTimestamp.Some? && r.eventTimestamp.value <= r.ingestionTimestamp.value <==>
      && Passes(r, MISSING_OR_INVALID_EVENT_TIMESTAMP) && Passes(r, MISSING_OR_INVALID_INGESTION_TIMESTAMP)
      && Passes(r, EVENT_AFTER_INGESTION)
  {
  }

  lemma BoundsExactly(r: Row)
    ensures InBounds(r.latitude, 90.0) <==> Passes(r, INVALID_LATITUDE)
    ensures InBounds(r.longitude, 180.0) <==> Passes(r, INVALID_LONGITUDE)
  {
  }

  lemma PlacedExactly(r: Row)
    ensures PlacedRow(r) <==>
      && Passes(r, MISSING_OR_INVALID_EVENT_TIMESTAMP) && Passes(r, MISSING_OR_INVALID_INGESTION_TIMESTAMP)
      && Passes(r, EVENT_AFTER_INGESTION) && Passes(r, INVALID_LATITUDE) && Passes(r, INVALID_LONGITUDE)
      && Passes(r, INVALID_SCHEMA_VERSION) && Passes(r, INVALID_DAY_NIGHT)
  {
    TimesExactly(r);
    BoundsExactly(r);
  }

  lemma MeasuredExactly(r: Row)
    ensures MeasuredRow(r) <==>
      && Passes(r, NON_POSITIVE_BRIGHT_TI4) && Passes(r, NON_POSITIVE_BRIGHT_TI5) && Passes(r, NON_POSITIVE_SCAN)
      && Passes(r, NON_POSITIVE_TRACK) && Passes(r, NEGATIVE_FIRE_RADIATIVE_POWER)
  {
  }

  predicate PassesSource(r: Row)
  {
    && Passes(r, MISSING_IS_SYNTHETIC) && Passes(r, MISSING_SOURCE_TYPE) && Passes(r, INVALID_SOURCE_TYPE)
    && Passes(r, ORIGINAL_MARKED_SYNTHETIC) && Passes(r, ORIGINAL_IDENTITY_MISMATCH)
    && Passes(r, INVALID_REPLAY_CLASSIFICATION) && Passes(r, MISSING_SCHEDULED_REPLAY_TIMESTAMP)
    && Passes(r, INVALID_REPLAY_ITERATION) && Passes(r, INVALID_REPLAY_SEQUENCE_NUMBER)
    && Passes(r, INVALID_SYNTHETIC_CLASSIFICATION)
  }

  lemma ApprovedExactly(r: Row)
    ensures Passes(r, MISSING_SOURCE_TYPE) && Passes(r, INVALID_SOURCE_TYPE) <==>
      r.sourceType == Some(NASA_ORIGINAL) || r.sourceType == Some(NASA_REPLAY) || r.sourceType == Some(SYNTHETIC_SCALE_TEST)
  {
  }

  lemma OriginalExactly(r: Row)
    requires r.sourceType == Some(NASA_ORIGINAL)
    requires HasText(r.eventId) && HasText(r.detectionId) && HasText(r.lineageRootId) && HasText(r.sourceRecordId)
    ensures ClassifiedRow(r) <==> PassesSource(r)
  {
    ApprovedExactly(r);
  }

  lemma ReplayExactly(r: Row)
    requires r.sourceType == Some(NASA_REPLAY)
    ensures ClassifiedRow(r) <==> PassesSource(r)
  {
    ApprovedExactly(r);
    ReplayNumbers(r);
    ReplayClass(r);
    FlagExactly(r);
    OtherSourcesPass(r);
  }

  lemma ReplayNumbers(r: Row)
    requires r.sourceType == Some(NASA_REPLAY)
    ensures Passes(r, INVALID_REPLAY_ITERATION) <==> r.replayIteration.Some? && r.replayIteration.value > 0
    ensures Passes(r, INVALID_REPLAY_SEQUENCE_NUMBER) <==> r.replaySequence.Some? && r.replaySequence.value >= 0
    ensures Passes(r, MISSING_SCHEDULED_REPLAY_TIMESTAMP) <==> r.scheduledReplay.Some?
  {
  }

  lemma ReplayClass(r: Row)
    requires r.sourceType == Some(NASA_REPLAY)
    ensures Passes(r, INVALID_REPLAY_CLASSIFICATION) <==> HasText(r.replayRunId) && r.isSynthetic != Some(true)
  {
    MissingTextIs(r.replayRunId);
  }

  lemma SyntheticExactly(r: Row)
    requires r.sourceType == Some(SYNTHETIC_SCALE_TEST)
    ensures ClassifiedRow(r) <==> PassesSource(r)
  {
    ApprovedExactly(r);
    SyntheticClass(r);
    FlagExactly(r);
    OtherSourcesPass(r);
  }

  lemma FlagExactly(r: Row)
    ensures Passes(r, MISSING_IS_SYNTHETIC) <==> r.isSynthetic.Some?
  {
  }

  /** The checks of a source type do not fire for another one. */
  lemma OtherSourcesPass(r: Row)
    requires r.sourceType.Some?
    ensures r.sourceType != Some(NASA_ORIGINAL) ==> Passes(r, ORIGINAL_MARKED_SYNTHETIC) && Passes(r, ORIGINAL_IDENTITY_MISMATCH)
    ensures r.sourceType != Some(NASA_REPLAY) ==>
      && Passes(r, INVALID_REPLAY_CLASSIFICATION) && Passes(r, MISSING_SCHEDULED_REPLAY_TIMESTAMP)
      && Passes(r, INVALID_REPLAY_ITERATION) && Passes(r, INVALID_REPLAY_SEQUENCE_NUMBER)
    ensures r.sourceType != Some(SYNTHETIC_SCALE_TEST) ==> Passes(r, INVALID_SYNTHETIC_CLASSIFICATION)
  {
  }

  lemma SyntheticClass(r: Row)
    requires r.sourceType == Some(SYNTHETIC_SCALE_TEST)
    ensures Passes(r, INVALID_SYNTHETIC_CLASSIFICATION) <==> HasText(r.syntheticGenerationId) && r.isSynthetic != Some(false)
  {
    MissingTextIs(r.syntheticGenerationId);
  }

  lemma ClassifiedExactly(r: Row)
    requires HasText(r.eventId) && HasText(r.detectionId) && HasText(r.lineageRootId) && HasText(r.sourceRecordId)
    ensures ClassifiedRow(r) <==> PassesSource(r)
  {
    if r.sourceType == Some(NASA_ORIGINAL) {
      OriginalExactly(r);
    } else if r.sourceType == Some(NASA_REPLAY) {
      ReplayExactly(r);
    } else if r.sourceType == Some(SYNTHETIC_SCALE_TEST) {
      SyntheticExactly(r);
    } else {
      ApprovedExactly(r);
    }
  }

  /**
   * Validity without three-valued logic. A null schema version or day_night passes, as do null measurements, because an
   * unknown condition adds no code.
   */
  lemma ValidExactly(r: Row)
    ensures Valid(r) <==> IdentifiedRow(r) && PlacedRow(r) && MeasuredRow(r) && ClassifiedRow(r)
  {
    IdentifiedExactly(r);
    PlacedExactly(r);
    MeasuredExactly(r);
    if IdentifiedRow(r) { ClassifiedExactly(r); }
    CodesFire(r);
    NoCodes(ErrorCodes(r));
  }

  lemma CodesFire(r: Row)
    ensures forall c: Code :: c in ErrorCodes(r) <==> !Passes(r, c)
  {
  }

  /** All the codes there are. */
  lemma NoCodes(codes: set<Code>)
    ensures codes == {} <==>
      && CORRUPT_JSON !in codes && MISSING_EVENT_ID !in codes && MISSING_DETECTION_ID !in codes && MISSING_LINEAGE_ROOT_ID !in codes
      && MISSING_SOURCE_DATASET !in codes && MISSING_SOURCE_RECORD_ID !in codes && MISSING_INGESTION_RUN_ID !in codes
      && MISSING_PIPELINE_VERSION !in codes
      && MISSING_OR_INVALID_EVENT_TIMESTAMP !in codes && MISSING_OR_INVALID_INGESTION_TIMESTAMP !in codes
      && EVENT_AFTER_INGESTION !in codes && INVALID_LATITUDE !in codes && INVALID_LONGITUDE !in codes
      && INVALID_SCHEMA_VERSION !in codes && INVALID_DAY_NIGHT !in codes
      && NON_POSITIVE_BRIGHT_TI4 !in codes && NON_POSITIVE_BRIGHT_TI5 !in codes && NON_POSITIVE_SCAN !in codes
      && NON_POSITIVE_TRACK !in codes && NEGATIVE_FIRE_RADIATIVE_POWER !in codes
      && MISSING_IS_SYNTHETIC !in codes && MISSING_SOURCE_TYPE !in codes && INVALID_SOURCE_TYPE !in codes
      && ORIGINAL_MARKED_SYNTHETIC !in codes && ORIGINAL_IDENTITY_MISMATCH !in codes
      && INVALID_REPLAY_CLASSIFICATION !in codes && MISSING_SCHEDULED_REPLAY_TIMESTAMP !in codes
      && INVALID_REPLAY_ITERATION !in codes && INVALID_REPLAY_SEQUENCE_NUMBER !in codes
      && INVALID_SYNTHETIC_CLASSIFICATION !in codes
  {
    if codes != {} {
      var c :| c in codes;
      match c
      case CORRUPT_JSON => case MISSING_EVENT_ID => case MISSING_DETECTION_ID => case MISSING_LINEAGE_ROOT_ID =>
      case MISSING_SOURCE_TYPE => case MISSING_SOURCE_DATASET => case MISSING_SOURCE_RECORD_ID => case MISSING_INGESTION_RUN_ID =>
      case MISSING_PIPELINE_VERSION => case MISSING_IS_SYNTHETIC => case MISSING_OR_INVALID_EVENT_TIMESTAMP =>
      case MISSING_OR_INVALID_INGESTION_TIMESTAMP => case INVALID_LATITUDE => case INVALID_LONGITUDE => case INVALID_SOURCE_TYPE =>
      case INVALID_SCHEMA_VERSION => case ORIGINAL_MARKED_SYNTHETIC => case ORIGINAL_IDENTITY_MISMATCH =>
      case INVALID_REPLAY_CLASSIFICATION => case MISSING_SCHEDULED_REPLAY_TIMESTAMP => case INVALID_REPLAY_ITERATION =>
      case INVALID_REPLAY_SEQUENCE_NUMBER => case INVALID_SYNTHETIC_CLASSIFICATION => case EVENT_AFTER_INGESTION =>
      case INVALID_DAY_NIGHT => case NON_POSITIVE_BRIGHT_TI4 => case NON_POSITIVE_BRIGHT_TI5 =>
      case NEGATIVE_FIRE_RADIATIVE_POWER => case NON_POSITIVE_SCAN => case NON_POSITIVE_TRACK =>
    }
  }

  // ----- the deduplication window -----

  /** Ascending, nulls last. */
  predicate NumberBefore(a: Option<int>, b: Option<int>)
  {
    a.Some? && (b.None? || a.value < b.value)
  }

  predicate TextBefore(a: Option<string>, b: Option<string>)
  {
    a.Some? && (b.None? || TextLess(a.value, b.value))
  }

  predicate KeyBefore(a: Row, b: Row)
  {
    NumberBefore(a.rawRowNumber, b.rawRowNumber)
    || (a.rawRowNumber == b.rawRowNumber && TextBefore(a.rawPayloadHash, b.rawPayloadHash))
  }

  predicate SameKey(a: Row, b: Row)
  {
    a.rawRowNumber == b.rawRowNumber && a.rawPayloadHash == b.rawPayloadHash
  }

  /** The window's order: by the two keys, and rows that tie in both in whatever order Spark puts them. */
  predicate Before(rows: seq<Row>, ties: seq<int>, i: nat, j: nat)
    requires |ties| == |rows| && i < |rows| && j < |rows|
  {
    KeyBefore(rows[i], rows[j]) || (SameKey(rows[i], rows[j]) && ties[i] < ties[j])
  }

  lemma KeyOrder(a: Row, b: Row)
    ensures KeyBefore(a, b) || KeyBefore(b, a) || SameKey(a, b)
    ensures !(KeyBefore(a, b) && KeyBefore(b, a)) && (SameKey(a, b) ==> !KeyBefore(a, b))
  {
    if a.rawPayloadHash.Some? && b.rawPayloadHash.Some? { TextLessTotal(a.rawPayloadHash.value, b.rawPayloadHash.value); }
  }

  lemma KeyTransitive(a: Row, b: Row, c: Row)
    requires KeyBefore(a, b) && KeyBefore(b, c)
    ensures KeyBefore(a, c)
  {
    if a.rawRowNumber == b.rawRowNumber == c.rawRowNumber && b.rawPayloadHash.Some? && c.rawPayloadHash.Some? {
      TextLessTransitive(a.rawPayloadHash.value, b.rawPayloadHash.value, c.rawPayloadHash.value);
    }
  }

  /** The window's order is strict and total. */
  lemma BeforeTotal(rows: seq<Row>, ties: seq<int>, i: nat, j: nat)
    requires |ties| == |rows| && i < |rows| && j < |rows| && Distinct(ties)
    ensures i != j ==> Before(rows, ties, i, j) || Before(rows, ties, j, i)
    ensures !(Before(rows, ties, i, j) && Before(rows, ties, j, i))
  {
    KeyOrder(rows[i], rows[j]);
    if i != j { assert if i < j then ties[i] != ties[j] else ties[j] != ties[i]; }
  }

  lemma BeforeTransitive(rows: seq<Row>, ties: seq<int>, i: nat, j: nat, k: nat)
    requires |ties| == |rows| && i < |rows| && j < |rows| && k < |rows|
    requires Before(rows, ties, i, j) && Before(rows, ties, j, k)
    ensures Before(rows, ties, i, k)
  {
    if KeyBefore(rows[i], rows[j]) && KeyBefore(rows[j], rows[k]) {
      KeyTransitive(rows[i], rows[j], rows[k]);
    }
  }

  /** The rows of the same event id that stand before row i in the window. */
  function Ahead(rows: seq<Row>, ties: seq<int>, i: nat): set<nat>
    requires |ties| == |rows| && i < |rows|
  {
    set j: nat | j < |rows| && rows[j].eventId == rows[i].eventId && Before(rows, ties, j, i)
  }

  /** row_number() over the window. */
  function RowNumber(rows: seq<Row>, ties: seq<int>, i: nat): nat
    requires |ties| == |rows| && i < |rows|
  {
    |Ahead(rows, ties, i)| + 1
  }

  datatype Outcome = ACCEPTED | REJECTED | DUPLICATE

  function OutcomeOf(rows: seq<Row>, ties: seq<int>, i: nat): Outcome
    requires |ties| == |rows| && i < |rows|
  {
    var occurrence := if Valid(rows[i]) then Some(RowNumber(rows, ties, i)) else None;
    if !Valid(rows[i]) then REJECTED
    else if occurrence.Some? && occurrence.value > 1 then DUPLICATE
    else ACCEPTED
  }

  /** The positions with one outcome, in order: silver, quarantine, and duplicates are the rows at them. */
  function With(rows: seq<Row>, ties: seq<int>, o: Outcome, n: nat): (at: seq<nat>)
    requires |ties| == |rows| && n <= |rows|
    ensures forall k :: 0 <= k < |at| ==> at[k] < n
  {
    if n == 0 then [] else With(rows, ties, o, n - 1) + if OutcomeOf(rows, ties, n - 1) == o then [n - 1] else []
  }

  function Silver(rows: seq<Row>, ties: seq<int>): seq<nat> requires |ties| == |rows| { With(rows, ties, ACCEPTED, |rows|) }

  function Quarantine(rows: seq<Row>, ties: seq<int>): seq<nat> requires |ties| == |rows| { With(rows, ties, REJECTED, |rows|) }

  function Duplicates(rows: seq<Row>, ties: seq<int>): seq<nat> requires |ties| == |rows| { With(rows, ties, DUPLICATE, |rows|) }

  // ----- main results -----

  lemma {:induction false} WithIs(rows: seq<Row>, ties: seq<int>, o: Outcome, n: nat)
    requires |ties| == |rows| && n <= |rows|
    ensures forall i: nat :: i in With(rows, ties, o, n) <==> i < n && OutcomeOf(rows, ties, i) == o
    ensures Distinct(With(rows, ties, o, n))
  {
    if n > 0 { WithIs(rows, ties, o, n - 1); }
  }

  lemma {:induction false} WithCounts(rows: seq<Row>, ties: seq<int>, n: nat)
    requires |ties| == |rows| && n <= |rows|
    ensures |With(rows, ties, ACCEPTED, n)| + |With(rows, ties, REJECTED, n)| + |With(rows, ties, DUPLICATE, n)| == n
  {
    if n > 0 { WithCounts(rows, ties, n - 1); }
  }

  /** Every row is in exactly one output, once: the three outputs partition the input. */
  lemma OutputsPartition(rows: seq<Row>, ties: seq<int>)
    requires |ties| == |rows|
    ensures |Silver(rows, ties)| + |Quarantine(rows, ties)| + |Duplicates(rows, ties)| == |rows|
    ensures forall i: nat :: i < |rows| ==>
      && (i in Silver(rows, ties) <==> OutcomeOf(rows, ties, i) == ACCEPTED)
      && (i in Quarantine(rows, ties) <==> !Valid(rows[i]))
      && (i in Duplicates(rows, ties) <==> OutcomeOf(rows, ties, i) == DUPLICATE)
    ensures Distinct(Silver(rows, ties)) && Distinct(Quarantine(rows, ties)) && Distinct(Duplicates(rows, ties))
  {
    WithCounts(rows, ties, |rows|);
    WithIs(rows, ties, ACCEPTED, |rows|);
    WithIs(rows, ties, REJECTED, |rows|);
    WithIs(rows, ties, DUPLICATE, |rows|);
  }

  /** No row of the same id, valid or not, stands before this one. */
  ghost predicate FirstOfId(rows: seq<Row>, ties: seq<int>, i: nat)
    requires |ties| == |rows| && i < |rows|
  {
    forall j: nat :: j < |rows| && j != i && rows[j].eventId == rows[i].eventId ==> Before(rows, ties, i, j)
  }

  lemma RowNumberOne(rows: seq<Row>, ties: seq<int>, i: nat)
    requires |ties| == |rows| && i < |rows| && Distinct(ties)
    ensures RowNumber(rows, ties, i) == 1 <==> FirstOfId(rows, ties, i)
  {
    var ahead := Ahead(rows, ties, i);
    forall j: nat | j < |rows| && rows[j].eventId == rows[i].eventId
      ensures j in ahead <==> j != i && !Before(rows, ties, i, j)
    {
      BeforeTotal(rows, ties, i, j);
    }
    assert ahead == {} <==> forall j: nat :: j < |rows| && rows[j].eventId == rows[i].eventId ==> j !in ahead;
  }

  /** A row is accepted exactly when it is valid and first among all rows of its event id, invalid ones included. */
  lemma AcceptedExactly(rows: seq<Row>, ties: seq<int>, i: nat)
    requires |ties| == |rows| && i < |rows| && Distinct(ties)
    ensures OutcomeOf(rows, ties, i) == ACCEPTED <==> Valid(rows[i]) && FirstOfId(rows, ties, i)
    ensures OutcomeOf(rows, ties, i) == DUPLICATE <==> Valid(rows[i]) && !FirstOfId(rows, ties, i)
  {
    RowNumberOne(rows, ties, i);
  }

  /** Every event id with rows has a first one. */
  lemma {:induction false} FirstExists(rows: seq<Row>, ties: seq<int>, id: Option<string>, n: nat) returns (first: Option<nat>)
    requires |ties| == |rows| && n <= |rows| && Distinct(ties)
    ensures first.None? <==> forall i: nat :: i < n ==> rows[i].eventId != id
    ensures first.Some? ==> first.value < n && rows[first.value].eventId == id
    ensures first.Some? ==> forall j: nat :: j < n && j != first.value && rows[j].eventId == id ==> Before(rows, ties, first.value, j)
  {
    if n == 0 {
      first := None;
    } else {
      var before := FirstExists(rows, ties, id, n - 1);
      var last := n - 1;
      if rows[last].eventId != id {
        first := before;
      } else if before.None? {
        first := Some(last);
      } else {
        BeforeTotal(rows, ties, before.value, last);
        if Before(rows, ties, before.value, last) {
          first := before;
        } else {
          first := Some(last);
          forall j: nat | j < n && j != last && rows[j].eventId == id ensures Before(rows, ties, last, j) {
            if j != before.value { BeforeTransitive(rows, ties, last, before.value, j); }
          }
        }
      }
    }
  }

  /** An event id reaches Silver exactly when its first row is valid; behind an invalid one all its valid rows are duplicates. */
  lemma IdReachesSilverExactly(rows: seq<Row>, ties: seq<int>, first: nat)
    requires |ties| == |rows| && first < |rows| && Distinct(ties) && FirstOfId(rows, ties, first)
    ensures Valid(rows[first]) ==> OutcomeOf(rows, ties, first) == ACCEPTED
    ensures !Valid(rows[first]) ==> forall i: nat :: i < |rows| && rows[i].eventId == rows[first].eventId ==>
      OutcomeOf(rows, ties, i) == if Valid(rows[i]) then DUPLICATE else REJECTED
  {
    AcceptedExactly(rows, ties, first);
    if !Valid(rows[first]) {
      forall i: nat | i < |rows| && rows[i].eventId == rows[first].eventId
        ensures OutcomeOf(rows, ties, i) == if Valid(rows[i]) then DUPLICATE else REJECTED
      {
        AcceptedExactly(rows, ties, i);
        BeforeTotal(rows, ties, first, i);
      }
    }
  }

  /** For instance, a valid second row behind an invalid first one: nothing of that id reaches Silver. */
  lemma ValidRowBehindInvalidOne(bad: Row, good: Row)
    requires !Valid(bad) && Valid(good) && bad.eventId == good.eventId
    requires bad.rawRowNumber == Some(1) && good.rawRowNumber == Some(2)
    ensures OutcomeOf([bad, good], [0, 1], 1) == DUPLICATE && Silver([bad, good], [0, 1]) == []
  {
    var rows, ties := [bad, good], [0, 1];
    assert FirstOfId(rows, ties, 0);
    IdReachesSilverExactly(rows, ties, 0);
    assert OutcomeOf(rows, ties, 0) == REJECTED && OutcomeOf(rows, ties, 1) == DUPLICATE;
    assert With(rows, ties, ACCEPTED, 0) == With(rows, ties, ACCEPTED, 1) == [];
  }

  /** The event ids of the Silver rows. */
  function SilverIds(rows: seq<Row>, ties: seq<int>): (ids: seq<Option<string>>)
    requires |ties| == |rows|
    ensures |ids| == |Silver(rows, ties)|
  {
    seq(|Silver(rows, ties)|, k requires 0 <= k < |Silver(rows, ties)| => rows[Silver(rows, ties)[k]].eventId)
  }

  /** Silver event ids are present and pairwise distinct, so Gold's guard, which compares their distinct count, never fires. */
  lemma SilverIdsAreUnique(rows: seq<Row>, ties: seq<int>)
    requires |ties| == |rows| && Distinct(ties)
    ensures Distinct(SilverIds(rows, ties)) && |SetOf(SilverIds(rows, ties))| == |Silver(rows, ties)|
    ensures forall k :: 0 <= k < |SilverIds(rows, ties)| ==> SilverIds(rows, ties)[k].Some?
  {
    var silver, ids := Silver(rows, ties), SilverIds(rows, ties);
    WithIs(rows, ties, ACCEPTED, |rows|);
    forall k | 0 <= k < |ids| ensures ids[k].Some? {
      assert silver[k] in silver;
      AcceptedExactly(rows, ties, silver[k]);
      ValidExactly(rows[silver[k]]);
    }
    forall k, l | 0 <= k < l < |ids| ensures ids[k] != ids[l] {
      assert silver[k] in silver && silver[l] in silver && silver[k] != silver[l];
      AcceptedExactly(rows, ties, silver[k]);
      AcceptedExactly(rows, ties, silver[l]);
      BeforeTotal(rows, ties, silver[k], silver[l]);
    }
    DistinctCardinality(ids);
  }

  /** Rows whose event ids are pairwise distinct are never duplicates. */
  lemma DistinctIdsAreNeverDuplicates(rows: seq<Row>, ties: seq<int>, i: nat)
    requires |ties| == |rows| && i < |rows| && Distinct(ties)
    requires forall j, k :: 0 <= j < k < |rows| ==> rows[j].eventId != rows[k].eventId
    ensures OutcomeOf(rows, ties, i) == if Valid(rows[i]) then ACCEPTED else REJECTED
  {
    AcceptedExactly(rows, ties, i);
  }
}
