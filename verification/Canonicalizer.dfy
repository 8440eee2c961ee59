/** Turning raw rows into canonical events: parsers that collect errors, and the row loop that keeps the first of each id. */
module Canonicalizer {
  import opened Common
  import opened Identity

  // ----- raw rows and what is computed elsewhere -----

  datatype Column =
    | Latitude | Longitude | AcqDate | AcqTime | Satellite | Instrument | Confidence | Version | DayNight
    | BrightTi4 | BrightTi5 | Frp | Scan | Track | OtherColumn(name: string)

  type RawRow = map<Column, string>

  /** float(text): not a number's text, NaN or an infinity, or finite. */
  datatype FloatText = NotFloat | NonFinite | Finite(r: real)

  datatype Platform = Platform(
    float: string -> FloatText,
    timestamp: (string, string) -> Option<int>,
    upper: string -> string,
    rowHash: RawRow -> string,
    digest: RecordIdentity -> string)

  /** row.get(field, "").strip() */
  function Trimmed(row: RawRow, field: Column): string
  {
    if field in row then Strip(row[field]) else ""
  }

  datatype Problem = MISSING | INVALID | OUT_OF_RANGE | NON_POSITIVE | NEGATIVE | UNEXPECTED

  /** An error code: a kind of problem with a column, or one of the two that concern several. */
  datatype ErrorCode = ErrorCode(problem: Problem, column: Column) | INVALID_EVENT_TIMESTAMP | IDENTITY_CONSTRUCTION_FAILED

  datatype Bounds = Anything | Positive | NonNegative

  // ----- what the parsers find -----

  function RequiredFloat(p: Platform, row: RawRow, field: Column): Result<real, ErrorCode>
  {
    var value := Trimmed(row, field);
    if value == "" then Err(ErrorCode(MISSING, field)) else
      match p.float(value)
      case Finite(r) => Ok(r)
      case _ => Err(ErrorCode(INVALID, field))
  }

  /** An optional measurement: its value, if it has one, and its error. */
  function OptionalFloat(p: Platform, row: RawRow, field: Column, bounds: Bounds): (Option<real>, Option<ErrorCode>)
  {
    var value := Trimmed(row, field);
    if value == "" then (None, None) else
      match p.float(value)
      case Finite(r) =>
        (Some(r),
         if bounds == Positive && r <= 0.0 then Some(ErrorCode(NON_POSITIVE, field))
         else if bounds == NonNegative && r < 0.0 then Some(ErrorCode(NEGATIVE, field))
         else None)
      case _ => (None, Some(ErrorCode(INVALID, field)))
  }

  function EventTimestamp(p: Platform, row: RawRow): Option<int>
  {
    match NormalizeAcquisitionTime(Trimmed(row, AcqTime))
    case None => None
    case Some(time) => p.timestamp(Trimmed(row, AcqDate), time)
  }

  // ----- outcomes -----

  /** The payload of an accepted row; timestamps are microseconds. */
  datatype CanonicalEvent = CanonicalEvent(
    eventId: string, detectionId: string, lineageRootId: string, sourceRecordId: string, sourceDataset: string,
    ingestionRunId: string, pipelineVersion: string, eventTimestamp: int, ingestionTimestamp: int, latitude: real, longitude: real,
    brightTi4: Option<real>, brightTi5: Option<real>, firePower: Option<real>, scan: Option<real>, track: Option<real>,
    dayNight: string, rawRowNumber: nat, rawPayloadHash: string)

  datatype RowOutcome =
    | Accepted(event: CanonicalEvent)
    | Rejected(rowNumber: nat, hash: string, errors: set<ErrorCode>)

  /** What is the same for every row of a run. */
  datatype Run = Run(sourceDataset: string, ingestionRunId: string, pipelineVersion: string, ingestionTimestamp: int)

  /** The identity needs its six fields; a missing one raises KeyError. */
  function SourceRecordId(p: Platform, row: RawRow, dataset: string): Option<string>
  {
    if Satellite in row && AcqDate in row && AcqTime in row && Latitude in row && Longitude in row && Version in row then
      BuildSourceRecordId(p.digest, SourceRow(row[Satellite], row[AcqDate], row[AcqTime], row[Latitude], row[Longitude], row[Version]), dataset)
    else None
  }

  /** The parser functions append to the list of errors they share. */
  class ErrorList {
    var codes: set<ErrorCode>

    constructor ()
      ensures codes == {}
    {
      codes := {};
    }

    method Append(e: ErrorCode)
      modifies this
      ensures codes == old(codes) + {e}
    {
      codes := codes + {e};
    }

    method ParseRequiredFloat(p: Platform, row: RawRow, field: Column) returns (r: Option<real>)
      modifies this
      ensures RequiredFloat(p, row, field).Ok? ==> r == Some(RequiredFloat(p, row, field).value) && codes == old(codes)
      ensures RequiredFloat(p, row, field).Err? ==> r == None && codes == old(codes) + {RequiredFloat(p, row, field).error}
    {
      var value := Trimmed(row, field);
      if value == "" {
        Append(ErrorCode(MISSING, field));
        return None;
      }
      match p.float(value) {
        case Finite(parsed) => return Some(parsed);
        case _ =>
          Append(ErrorCode(INVALID, field));
          return None;
      }
    }

    method ParseOptionalFloat(p: Platform, row: RawRow, field: Column, bounds: Bounds) returns (r: Option<real>)
      modifies this
      ensures r == OptionalFloat(p, row, field, bounds).0
      ensures codes == old(codes) + Found(OptionalFloat(p, row, field, bounds).1)
    {
      var value := Trimmed(row, field);
      if value == "" {
        return None;
      }
      match p.float(value) {
        case Finite(parsed) =>
          if bounds == Positive && parsed <= 0.0 {
            Append(ErrorCode(NON_POSITIVE, field));
          } else if bounds == NonNegative && parsed < 0.0 {
            Append(ErrorCode(NEGATIVE, field));
          }
          return Some(parsed);
        case _ =>
          Append(ErrorCode(INVALID, field));
          return None;
      }
    }

    method RequiredText(row: RawRow, field: Column) returns (r: Option<string>)
      modifies this
      ensures r == (if Trimmed(row, field) == "" then None else Some(Trimmed(row, field)))
      ensures codes == old(codes) + MissingText(row, field)
    {
      var value := Trimmed(row, field);
      if value == "" {
        Append(ErrorCode(MISSING, field));
        return None;
      }
      return Some(value);
    }

    method ParseEventTimestamp(p: Platform, row: RawRow) returns (r: Option<int>)
      modifies this
      ensures r == EventTimestamp(p, row)
      ensures codes == old(codes) + Found(if r.None? then Some(INVALID_EVENT_TIMESTAMP) else None)
    {
      var time := NormalizeAcquisitionTime(Trimmed(row, AcqTime));
      r := None;
      if time.Some? {
        r := p.timestamp(Trimmed(row, AcqDate), time.value);
      }
      if r.None? {
        Append(INVALID_EVENT_TIMESTAMP);
      }
    }
  }

  function Found(e: Option<ErrorCode>): set<ErrorCode>
  {
    if e.Some? then {e.value} else {}
  }

  function CoordinateErrors(p: Platform, row: RawRow, field: Column, bound: real): set<ErrorCode>
  {
    match RequiredFloat(p, row, field)
    case Err(e) => {e}
    case Ok(r) => if -bound <= r <= bound then {} else {ErrorCode(OUT_OF_RANGE, field)}
  }

  function MissingText(row: RawRow, field: Column): set<ErrorCode>
  {
    if Trimmed(row, field) == "" then {ErrorCode(MISSING, field)} else {}
  }

  function MissingTexts(row: RawRow): set<ErrorCode>
  {
    MissingText(row, Satellite) + MissingText(row, Instrument) + MissingText(row, Confidence) + MissingText(row, Version)
    + MissingText(row, DayNight)
  }

  function UnexpectedTexts(p: Platform, row: RawRow): set<ErrorCode>
  {
    (if Trimmed(row, Instrument) != "" && p.upper(Trimmed(row, Instrument)) != "VIIRS" then {ErrorCode(UNEXPECTED, Instrument)} else {})
    + (if Trimmed(row, DayNight) != "" && Trimmed(row, DayNight) != "D" && Trimmed(row, DayNight) != "N"
       then {ErrorCode(INVALID, DayNight)} else {})
  }

  function TextErrors(p: Platform, row: RawRow): set<ErrorCode>
  {
    MissingTexts(row) + UnexpectedTexts(p, row)
  }

  function Measure(p: Platform, row: RawRow, field: Column, bounds: Bounds): set<ErrorCode>
  {
    Found(OptionalFloat(p, row, field, bounds).1)
  }

  function MeasurementErrors(p: Platform, row: RawRow): set<ErrorCode>
  {
    Measure(p, row, BrightTi4, Positive) + Measure(p, row, BrightTi5, Positive) + Measure(p, row, Frp, NonNegative)
    + Measure(p, row, Scan, Positive) + Measure(p, row, Track, Positive)
  }

  function PlaceAndTimeErrors(p: Platform, row: RawRow): set<ErrorCode>
  {
    CoordinateErrors(p, row, Latitude, 90.0) + CoordinateErrors(p, row, Longitude, 180.0)
    + Found(if EventTimestamp(p, row).None? then Some(INVALID_EVENT_TIMESTAMP) else None)
  }

  function RowErrors(p: Platform, row: RawRow): set<ErrorCode>
  {
    PlaceAndTimeErrors(p, row) + TextErrors(p, row) + MeasurementErrors(p, row)
  }

  /** What becomes of one row. */
  function OutcomeOf(p: Platform, run: Run, row: RawRow, rowNumber: nat): RowOutcome
  {
    if RowErrors(p, row) != {} then Rejected(rowNumber, p.rowHash(row), RowErrors(p, row))
    else match SourceRecordId(p, row, run.sourceDataset)
      case None => Rejected(rowNumber, p.rowHash(row), {IDENTITY_CONSTRUCTION_FAILED})
      case Some(id) =>
        NoErrorsMeansParsed(p, row);
        Accepted(EventOf(p, run, row, rowNumber, id))
  }

  lemma NoErrorsMeansParsed(p: Platform, row: RawRow)
    requires RowErrors(p, row) == {}
    ensures RequiredFloat(p, row, Latitude).Ok? && RequiredFloat(p, row, Longitude).Ok? && EventTimestamp(p, row).Some?
  {
    assert CoordinateErrors(p, row, Latitude, 90.0) <= RowErrors(p, row) && CoordinateErrors(p, row, Longitude, 180.0) <= RowErrors(p, row);
    assert EventTimestamp(p, row).None? ==> INVALID_EVENT_TIMESTAMP in RowErrors(p, row);
  }

  function EventOf(p: Platform, run: Run, row: RawRow, rowNumber: nat, id: string): CanonicalEvent
    requires RequiredFloat(p, row, Latitude).Ok? && RequiredFloat(p, row, Longitude).Ok? && EventTimestamp(p, row).Some?
  {
    CanonicalEvent(id, id, id, id, run.sourceDataset, run.ingestionRunId, run.pipelineVersion, EventTimestamp(p, row).value,
                   run.ingestionTimestamp, RequiredFloat(p, row, Latitude).value, RequiredFloat(p, row, Longitude).value,
                   OptionalFloat(p, row, BrightTi4, Positive).0, OptionalFloat(p, row, BrightTi5, Positive).0,
                   OptionalFloat(p, row, Frp, NonNegative).0, OptionalFloat(p, row, Scan, Positive).0,
                   OptionalFloat(p, row, Track, Positive).0, Trimmed(row, DayNight), rowNumber, p.rowHash(row))
  }

  // ----- canonicalize_row -----

  method ParseCoordinates(p: Platform, row: RawRow, errors: ErrorList) returns (latitude: Option<real>, longitude: Option<real>)
    modifies errors
    ensures errors.codes == old(errors.codes) + CoordinateErrors(p, row, Latitude, 90.0) + CoordinateErrors(p, row, Longitude, 180.0)
    ensures RequiredFloat(p, row, Latitude).Ok? ==> latitude == Some(RequiredFloat(p, row, Latitude).value)
    ensures RequiredFloat(p, row, Longitude).Ok? ==> longitude == Some(RequiredFloat(p, row, Longitude).value)
  {
    latitude := errors.ParseRequiredFloat(p, row, Latitude);
    longitude := errors.ParseRequiredFloat(p, row, Longitude);
    if latitude.Some? && !(-90.0 <= latitude.value <= 90.0) {
      errors.Append(ErrorCode(OUT_OF_RANGE, Latitude));
    }
    if longitude.Some? && !(-180.0 <= longitude.value <= 180.0) {
      errors.Append(ErrorCode(OUT_OF_RANGE, Longitude));
    }
  }

  method ParseTexts(p: Platform, row: RawRow, errors: ErrorList) returns (dayNight: Option<string>)
    modifies errors
    ensures errors.codes == old(errors.codes) + TextErrors(p, row)
    ensures dayNight == if Trimmed(row, DayNight) == "" then None else Some(Trimmed(row, DayNight))
  {
    var instrument;
    instrument, dayNight := RequireTexts(row, errors);
    if instrument.Some? && p.upper(instrument.value) != "VIIRS" {
      errors.Append(ErrorCode(UNEXPECTED, Instrument));
    }
    if dayNight.Some? && dayNight.value != "D" && dayNight.value != "N" {
      errors.Append(ErrorCode(INVALID, DayNight));
    }
  }

  method RequireTexts(row: RawRow, errors: ErrorList) returns (instrument: Option<string>, dayNight: Option<string>)
    modifies errors
    ensures errors.codes == old(errors.codes) + MissingTexts(row)
    ensures instrument == if Trimmed(row, Instrument) == "" then None else Some(Trimmed(row, Instrument))
    ensures dayNight == if Trimmed(row, DayNight) == "" then None else Some(Trimmed(row, DayNight))
  {
    ghost var before := errors.codes;
    var satellite := errors.RequiredText(row, Satellite);
    instrument := errors.RequiredText(row, Instrument);
    var confidence := errors.RequiredText(row, Confidence);
    var version := errors.RequiredText(row, Version);
    dayNight := errors.RequiredText(row, DayNight);
    FiveMore(before, MissingText(row, Satellite), MissingText(row, Instrument), MissingText(row, Confidence), MissingText(row, Version),
             MissingText(row, DayNight));
  }

  lemma FiveMore<T>(s: set<T>, a: set<T>, b: set<T>, c: set<T>, d: set<T>, e: set<T>)
    ensures s + a + b + c + d + e == s + (a + b + c + d + e)
  {
  }

  datatype Measurements = Measurements(brightTi4: Option<real>, brightTi5: Option<real>, firePower: Option<real>, scan: Option<real>,
                                       track: Option<real>)

  method ParseMeasurements(p: Platform, row: RawRow, errors: ErrorList) returns (m: Measurements)
    modifies errors
    ensures errors.codes == old(errors.codes) + MeasurementErrors(p, row)
    ensures m == Measurements(OptionalFloat(p, row, BrightTi4, Positive).0, OptionalFloat(p, row, BrightTi5, Positive).0,
                              OptionalFloat(p, row, Frp, NonNegative).0, OptionalFloat(p, row, Scan, Positive).0,
                              OptionalFloat(p, row, Track, Positive).0)
  {
    var brightTi4 := errors.ParseOptionalFloat(p, row, BrightTi4, Positive);
    var brightTi5 := errors.ParseOptionalFloat(p, row, BrightTi5, Positive);
    var firePower := errors.ParseOptionalFloat(p, row, Frp, NonNegative);
    var scan := errors.ParseOptionalFloat(p, row, Scan, Positive);
    var track := errors.ParseOptionalFloat(p, row, Track, Positive);
    m := Measurements(brightTi4, brightTi5, firePower, scan, track);
  }

  datatype Parsed = Parsed(latitude: Option<real>, longitude: Option<real>, timestamp: Option<int>, dayNight: Option<string>, m: Measurements)

  /** The parsed values are what the row's columns mean, wherever they mean something. */
  ghost predicate Faithful(p: Platform, row: RawRow, parsed: Parsed)
  {
    && (RequiredFloat(p, row, Latitude).Ok? ==> parsed.latitude == Some(RequiredFloat(p, row, Latitude).value))
    && (RequiredFloat(p, row, Longitude).Ok? ==> parsed.longitude == Some(RequiredFloat(p, row, Longitude).value))
    && parsed.timestamp == EventTimestamp(p, row)
    && parsed.dayNight == (if Trimmed(row, DayNight) == "" then None else Some(Trimmed(row, DayNight)))
    && parsed.m == Measurements(OptionalFloat(p, row, BrightTi4, Positive).0, OptionalFloat(p, row, BrightTi5, Positive).0,
                                OptionalFloat(p, row, Frp, NonNegative).0, OptionalFloat(p, row, Scan, Positive).0,
                                OptionalFloat(p, row, Track, Positive).0)
  }

  method ParsePlaceAndTime(p: Platform, row: RawRow, errors: ErrorList)
    returns (latitude: Option<real>, longitude: Option<real>, timestamp: Option<int>)
    modifies errors
    requires errors.codes == {}
    ensures errors.codes == PlaceAndTimeErrors(p, row)
    ensures RequiredFloat(p, row, Latitude).Ok? ==> latitude == Some(RequiredFloat(p, row, Latitude).value)
    ensures RequiredFloat(p, row, Longitude).Ok? ==> longitude == Some(RequiredFloat(p, row, Longitude).value)
    ensures timestamp == EventTimestamp(p, row)
  {
    latitude, longitude := ParseCoordinates(p, row, errors);
    timestamp := errors.ParseEventTimestamp(p, row);
  }

  method ParseRow(p: Platform, row: RawRow, errors: ErrorList) returns (parsed: Parsed)
    modifies errors
    requires errors.codes == {}
    ensures errors.codes == RowErrors(p, row) && Faithful(p, row, parsed)
  {
    var latitude, longitude, timestamp := ParsePlaceAndTime(p, row, errors);
    var dayNight := ParseTexts(p, row, errors);
    var m := ParseMeasurements(p, row, errors);
    parsed := Parsed(latitude, longitude, timestamp, dayNight, m);
  }

  method CanonicalizeRow(p: Platform, run: Run, row: RawRow, rowNumber: nat) returns (outcome: RowOutcome)
    ensures outcome == OutcomeOf(p, run, row, rowNumber)
  {
    var errors := new ErrorList();
    var parsed := ParseRow(p, row, errors);
    if errors.codes != {} {
      return Rejected(rowNumber, p.rowHash(row), errors.codes);
    }
    var id := SourceRecordId(p, row, run.sourceDataset);
    if id.None? {
      return Rejected(rowNumber, p.rowHash(row), {IDENTITY_CONSTRUCTION_FAILED});
    }
    var event := BuildEvent(p, run, row, rowNumber, id.value, parsed);
    return Accepted(event);
  }

  method BuildEvent(p: Platform, run: Run, row: RawRow, rowNumber: nat, id: string, parsed: Parsed) returns (event: CanonicalEvent)
    requires RowErrors(p, row) == {} && Faithful(p, row, parsed)
    ensures RequiredFloat(p, row, Latitude).Ok? && RequiredFloat(p, row, Longitude).Ok? && EventTimestamp(p, row).Some?
    ensures event == EventOf(p, run, row, rowNumber, id)
  {
    NoErrorsMeansParsed(p, row);
    NoErrorsMeansDayNight(p, row);
    var m := parsed.m;
    event := CanonicalEvent(id, id, id, id, run.sourceDataset, run.ingestionRunId, run.pipelineVersion, parsed.timestamp.value,
                            run.ingestionTimestamp, parsed.latitude.value, parsed.longitude.value, m.brightTi4, m.brightTi5, m.firePower,
                            m.scan, m.track, parsed.dayNight.value, rowNumber, p.rowHash(row));
  }

  lemma NoErrorsMeansDayNight(p: Platform, row: RawRow)
    requires RowErrors(p, row) == {}
    ensures Trimmed(row, DayNight) == "D" || Trimmed(row, DayNight) == "N"
  {
    assert TextErrors(p, row) <= RowErrors(p, row);
    assert Trimmed(row, DayNight) == "" ==> ErrorCode(MISSING, DayNight) in TextErrors(p, row);
    assert ErrorCode(INVALID, DayNight) !in TextErrors(p, row);
  }

  // ----- the row loop -----

  /** The outcomes of all rows; data rows are numbered from 2. */
  function OutcomesOf(p: Platform, run: Run, rows: seq<RawRow>): (outcomes: seq<RowOutcome>)
    ensures |outcomes| == |rows|
  {
    if rows == [] then [] else
      var n := |rows| - 1;
      OutcomesOf(p, run, rows[..n]) + [OutcomeOf(p, run, rows[n], n + 2)]
  }

  lemma {:induction false} OutcomeAt(p: Platform, run: Run, rows: seq<RawRow>, i: nat)
    requires i < |rows|
    ensures OutcomesOf(p, run, rows)[i] == OutcomeOf(p, run, rows[i], i + 2)
  {
    if i < |rows| - 1 { OutcomeAt(p, run, rows[..|rows| - 1], i); }
  }

  /** A valid row with an id that no earlier valid row has. */
  ghost predicate FirstValid(outcomes: seq<RowOutcome>, i: nat)
    requires i < |outcomes|
  {
    outcomes[i].Accepted? &&
    forall j :: 0 <= j < i && outcomes[j].Accepted? ==> outcomes[j].event.eventId != outcomes[i].event.eventId
  }

  datatype Fate = Kept | Refused | Repeated

  ghost function FateOf(outcomes: seq<RowOutcome>, i: nat): Fate
    requires i < |outcomes|
  {
    if outcomes[i].Rejected? then Refused else if FirstValid(outcomes, i) then Kept else Repeated
  }

  /** The first n rows with one fate, in file order. */
  ghost function With(outcomes: seq<RowOutcome>, fate: Fate, n: nat): (at: seq<nat>)
    requires n <= |outcomes|
    ensures forall k :: 0 <= k < |at| ==> at[k] < n && FateOf(outcomes, at[k]) == fate
  {
    if n == 0 then [] else With(outcomes, fate, n - 1) + if FateOf(outcomes, n - 1) == fate then [n - 1] else []
  }

  /** What is written about a repeated event. */
  datatype DuplicateNote = DuplicateNote(eventId: string, detectionId: string, rawRowNumber: nat, rawPayloadHash: string)

  function NoteOf(e: CanonicalEvent, rowNumber: nat): DuplicateNote
  {
    DuplicateNote(e.eventId, e.detectionId, rowNumber, e.rawPayloadHash)
  }

  ghost function EventsAt(outcomes: seq<RowOutcome>, at: seq<nat>): (events: seq<CanonicalEvent>)
    requires forall k :: 0 <= k < |at| ==> at[k] < |outcomes| && outcomes[at[k]].Accepted?
    ensures |events| == |at| && forall k :: 0 <= k < |at| ==> events[k] == outcomes[at[k]].event
  {
    seq(|at|, k requires 0 <= k < |at| => outcomes[at[k]].event)
  }

  ghost function NotesAt(outcomes: seq<RowOutcome>, at: seq<nat>): (notes: seq<DuplicateNote>)
    requires forall k :: 0 <= k < |at| ==> at[k] < |outcomes| && outcomes[at[k]].Accepted?
    ensures |notes| == |at| && forall k :: 0 <= k < |at| ==> notes[k] == NoteOf(outcomes[at[k]].event, at[k] + 2)
  {
    seq(|at|, k requires 0 <= k < |at| => NoteOf(outcomes[at[k]].event, at[k] + 2))
  }

  ghost function OutcomesAt(outcomes: seq<RowOutcome>, at: seq<nat>): (some: seq<RowOutcome>)
    requires forall k :: 0 <= k < |at| ==> at[k] < |outcomes|
    ensures |some| == |at| && forall k :: 0 <= k < |at| ==> some[k] == outcomes[at[k]]
  {
    seq(|at|, k requires 0 <= k < |at| => outcomes[at[k]])
  }

  datatype Lists = Lists(accepted: seq<CanonicalEvent>, rejected: seq<RowOutcome>, duplicates: seq<DuplicateNote>)

  /** The three lists after the first n rows. */
  ghost predicate ListsFit(outcomes: seq<RowOutcome>, n: nat, l: Lists)
    requires n <= |outcomes|
  {
    && l.accepted == EventsAt(outcomes, With(outcomes, Kept, n))
    && l.rejected == OutcomesAt(outcomes, With(outcomes, Refused, n))
    && l.duplicates == NotesAt(outcomes, With(outcomes, Repeated, n))
  }

  /** The ids seen are those of the valid rows so far. */
  ghost predicate SeenFits(outcomes: seq<RowOutcome>, n: nat, seen: set<string>)
    requires n <= |outcomes|
  {
    && (forall j :: 0 <= j < n && outcomes[j].Accepted? ==> outcomes[j].event.eventId in seen)
    && (forall id :: id in seen ==> exists j :: 0 <= j < n && outcomes[j].Accepted? && outcomes[j].event.eventId == id)
  }

  lemma SeenExactly(outcomes: seq<RowOutcome>, n: nat, seen: set<string>)
    requires n < |outcomes| && SeenFits(outcomes, n, seen) && outcomes[n].Accepted?
    ensures outcomes[n].event.eventId in seen <==> FateOf(outcomes, n) == Repeated
    ensures SeenFits(outcomes, n + 1, seen + {outcomes[n].event.eventId})
  {
    forall id | id in seen + {outcomes[n].event.eventId}
      ensures exists j :: 0 <= j < n + 1 && outcomes[j].Accepted? && outcomes[j].event.eventId == id
    {
      if id in seen {
        var j :| 0 <= j < n && outcomes[j].Accepted? && outcomes[j].event.eventId == id;
      } else {
        assert outcomes[n].event.eventId == id;
      }
    }
  }

  /** The lists as the first n rows fill them. */
  ghost function ListsAfter(outcomes: seq<RowOutcome>, n: nat): (l: Lists)
    requires n <= |outcomes|
    ensures |l.accepted| + |l.rejected| + |l.duplicates| == n
  {
    if n == 0 then Lists([], [], []) else
      var l := ListsAfter(outcomes, n - 1);
      match FateOf(outcomes, n - 1)
      case Kept => l.(accepted := l.accepted + [outcomes[n - 1].event])
      case Refused => l.(rejected := l.rejected + [outcomes[n - 1]])
      case Repeated => l.(duplicates := l.duplicates + [NoteOf(outcomes[n - 1].event, n + 1)])
  }

  /** They hold the rows of each fate, in file order. */
  lemma {:induction false} ListsHoldFates(outcomes: seq<RowOutcome>, n: nat)
    requires n <= |outcomes|
    ensures ListsFit(outcomes, n, ListsAfter(outcomes, n))
  {
    if n > 0 { ListsHoldFates(outcomes, n - 1); }
  }

  /** The whole loop, and the count that the source manifest promises. */
  method CanonicalizeRows(p: Platform, run: Run, rows: seq<RawRow>, expectedCount: int) returns (r: Result<Lists, int>)
    ensures r.Ok? <==> |rows| == expectedCount
    ensures r.Ok? ==> r.value == ListsAfter(OutcomesOf(p, run, rows), |rows|)
    ensures r.Err? ==> r.error == |rows|
  {
    OutcomesAre(p, run, rows);
    var lists := FillLists(p, run, rows, OutcomesOf(p, run, rows));
    var count := |lists.accepted| + |lists.rejected| + |lists.duplicates|;
    if count != expectedCount {
      return Err(count);
    }
    return Ok(lists);
  }

  /** These are the outcomes of the rows. */
  ghost predicate AreOutcomes(p: Platform, run: Run, rows: seq<RawRow>, outcomes: seq<RowOutcome>)
  {
    |outcomes| == |rows| && forall i {:trigger OutcomeOf(p, run, rows[i], i + 2)} :: 0 <= i < |rows| ==>
      outcomes[i] == OutcomeOf(p, run, rows[i], i + 2)
  }

  lemma OutcomesAre(p: Platform, run: Run, rows: seq<RawRow>)
    ensures AreOutcomes(p, run, rows, OutcomesOf(p, run, rows))
  {
    forall i | 0 <= i < |rows| ensures OutcomesOf(p, run, rows)[i] == OutcomeOf(p, run, rows[i], i + 2) {
      OutcomeAt(p, run, rows, i);
    }
  }

  method FillLists(p: Platform, run: Run, rows: seq<RawRow>, ghost outcomes: seq<RowOutcome>) returns (lists: Lists)
    requires AreOutcomes(p, run, rows, outcomes)
    ensures lists == ListsAfter(outcomes, |rows|)
  {
    lists := Lists([], [], []);
    var seen: set<string> := {};
    for i := 0 to |rows|
      invariant lists == ListsAfter(outcomes, i) && SeenFits(outcomes, i, seen)
    {
      var outcome := CanonicalizeRow(p, run, rows[i], i + 2);
      lists, seen := Sort(outcomes, i, outcome, lists, seen);
    }
  }

  /** The loop body: the outcome goes to one of the lists, and a new event id is remembered. */
  method Sort(ghost outcomes: seq<RowOutcome>, i: nat, outcome: RowOutcome, lists: Lists, seen: set<string>) returns (after: Lists, known: set<string>)
    requires i < |outcomes| && outcome == outcomes[i] && lists == ListsAfter(outcomes, i) && SeenFits(outcomes, i, seen)
    ensures after == ListsAfter(outcomes, i + 1) && SeenFits(outcomes, i + 1, known)
  {
    if outcome.Rejected? {
      SeenStays(outcomes, i, seen);
      return lists.(rejected := lists.rejected + [outcome]), seen;
    }
    SeenExactly(outcomes, i, seen);
    var eventId := outcome.event.eventId;
    if eventId in seen {
      SeenAgain(outcomes, i, seen);
      return lists.(duplicates := lists.duplicates + [NoteOf(outcome.event, i + 2)]), seen;
    }
    return lists.(accepted := lists.accepted + [outcome.event]), seen + {eventId};
  }

  lemma SeenStays(outcomes: seq<RowOutcome>, n: nat, seen: set<string>)
    requires n < |outcomes| && outcomes[n].Rejected? && SeenFits(outcomes, n, seen)
    ensures SeenFits(outcomes, n + 1, seen)
  {
    forall id | id in seen ensures exists j :: 0 <= j < n + 1 && outcomes[j].Accepted? && outcomes[j].event.eventId == id {
      var j :| 0 <= j < n && outcomes[j].Accepted? && outcomes[j].event.eventId == id;
    }
  }

  lemma SeenAgain(outcomes: seq<RowOutcome>, n: nat, seen: set<string>)
    requires n < |outcomes| && outcomes[n].Accepted? && outcomes[n].event.eventId in seen
    requires SeenFits(outcomes, n + 1, seen + {outcomes[n].event.eventId})
    ensures SeenFits(outcomes, n + 1, seen)
  {
    assert seen + {outcomes[n].event.eventId} == seen;
  }
}
