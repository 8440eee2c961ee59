/** The read-only queries: the platform summary in its fast and scanning forms, and keyset-paged event listings. */
module ApiRepository {
  import opened Common
  import opened ServingTables
  import opened KeyOrder
  import opened Cursor

  // ----- WHERE clauses -----

  datatype Condition =
    | SourceTypeIs(sourceType: SourceType)
    | SourceDatasetIs(dataset: string)
    | LineageIs(root: string)
    | ActivityWithin(start: int, end: int)
    | InsideEnvelope(minLongitude: real, minLatitude: real, maxLongitude: real, maxLatitude: real)
    | After(key: Key)

  predicate Holds(c: Condition, k: Key, r: Row)
  {
    match c
    case SourceTypeIs(s) => r.columns.sourceType == s
    case SourceDatasetIs(d) => r.columns.sourceDataset == d
    case LineageIs(root) => r.columns.lineageRootId == root
    case ActivityWithin(start, end) => start <= k.activity < end
    case InsideEnvelope(minLongitude, minLatitude, maxLongitude, maxLatitude) =>
      minLongitude <= r.columns.longitude <= maxLongitude && minLatitude <= r.columns.latitude <= maxLatitude
    case After(key) => KeyLess(key, k)
  }

  predicate HoldsAll(conditions: seq<Condition>, k: Key, r: Row)
  {
    forall j :: 0 <= j < |conditions| ==> Holds(conditions[j], k, r)
  }

  function KeyOf(t: EventTable, i: EventId): Key
    requires i in t
  {
    Key(Activity(t[i]), i)
  }

  function Where(t: EventTable, conditions: seq<Condition>): EventTable
  {
    map i | i in t && HoldsAll(conditions, KeyOf(t, i), t[i]) :: t[i]
  }

  function KeysOf(t: EventTable): set<Key>
  {
    set i | i in t :: KeyOf(t, i)
  }

  // ----- the platform summary -----

  datatype SummaryQuery = SummaryQuery(sourceType: Option<SourceType>, sourceDataset: Option<string>, window: Option<(int, int)>)

  datatype Summary = Summary(messages: nat, uniqueEvents: nat, uniqueDetections: nat,
                             originals: nat, replays: nat, synthetics: nat,
                             firstObservation: Option<int>, lastObservation: Option<int>,
                             firstActivity: Option<int>, lastActivity: Option<int>)

  /** The aggregate query over event_detail. */
  function Scan(t: EventTable): Summary
  {
    Summary(|t|, |t.Keys|, |Detections(t)|,
            |OfType(t, NASA_ORIGINAL)|, |OfType(t, NASA_REPLAY)|, |OfType(t, SYNTHETIC_SCALE_TEST)|,
            Least(EventTimes(t)), Greatest(EventTimes(t)), Least(Activities(t)), Greatest(Activities(t)))
  }

  /** One column of the daily summary, as a total function of its key. */
  function Column(daily: map<DayKey, DayCounts>, col: DayCounts -> nat): DayKey -> nat
  {
    k => if k in daily then col(daily[k]) else 0
  }

  function Messages(c: DayCounts): nat { c.messages }
  function UniqueEvents(c: DayCounts): nat { c.uniqueEvents }
  function Originals(c: DayCounts): nat { c.originals }
  function Replays(c: DayCounts): nat { c.replays }
  function Synthetics(c: DayCounts): nat { c.synthetics }

  /** SELECT coalesce(sum(column), 0) FROM serving.dataset_daily_summary */
  method SumColumn(daily: map<DayKey, DayCounts>, col: DayCounts -> nat) returns (total: nat)
    ensures total == SumOver(daily.Keys, Column(daily, col))
  {
    total := 0;
    var pending := daily.Keys;
    while pending != {}
      invariant pending <= daily.Keys
      invariant total + SumOver(pending, Column(daily, col)) == SumOver(daily.Keys, Column(daily, col))
      decreases |pending|
    {
      var k :| k in pending;
      SumOverRemove(pending, Column(daily, col), k);
      total := total + col(daily[k]);
      pending := pending - {k};
    }
  }

  /** The first_event_timestamp values of serving.detection_lineage_summary. */
  function FirstEventTimes(lineage: map<LineageKey, LineageTotals>): set<int>
  {
    set k | k in lineage && lineage[k].firstEventTime.Some? :: lineage[k].firstEventTime.value
  }

  /** Activity of the first and the last row in key order. */
  function FirstActivity(t: EventTable): Option<int>
  {
    var rows := Ordered(KeysOf(t));
    if rows == [] then None else Some(rows[0].activity)
  }

  function LastActivity(t: EventTable): Option<int>
  {
    var rows := Ordered(KeysOf(t));
    if rows == [] then None else Some(rows[|rows| - 1].activity)
  }

  /** What the unfiltered query reads from the materialised summaries. */
  ghost function Fast(t: Tables): Summary
  {
    Summary(SumOver(t.daily.Keys, Column(t.daily, Messages)), SumOver(t.daily.Keys, Column(t.daily, UniqueEvents)), |t.lineage|,
            SumOver(t.daily.Keys, Column(t.daily, Originals)), SumOver(t.daily.Keys, Column(t.daily, Replays)),
            SumOver(t.daily.Keys, Column(t.daily, Synthetics)),
            Least(FirstEventTimes(t.lineage)), Greatest(FirstEventTimes(t.lineage)),
            FirstActivity(t.events), LastActivity(t.events))
  }

  function FilterConditions(sourceType: Option<SourceType>, sourceDataset: Option<string>): seq<Condition>
  {
    (if sourceType.Some? then [SourceTypeIs(sourceType.value)] else [])
    + (if sourceDataset.Some? then [SourceDatasetIs(sourceDataset.value)] else [])
  }

  method Filters(sourceType: Option<SourceType>, sourceDataset: Option<string>) returns (conditions: seq<Condition>)
    ensures conditions == FilterConditions(sourceType, sourceDataset)
  {
    conditions := [];
    if sourceType.Some? {
      conditions := conditions + [SourceTypeIs(sourceType.value)];
    }
    if sourceDataset.Some? {
      conditions := conditions + [SourceDatasetIs(sourceDataset.value)];
    }
  }

  lemma HoldsAllSplits(a: seq<Condition>, b: seq<Condition>, k: Key, r: Row)
    ensures HoldsAll(a + b, k, r) <==> HoldsAll(a, k, r) && HoldsAll(b, k, r)
  {
    assert forall j :: 0 <= j < |a| ==> (a + b)[j] == a[j];
    assert forall j :: 0 <= j < |b| ==> (a + b)[|a| + j] == b[j];
  }

  /** What a summary query asks for. */
  predicate Selects(query: SummaryQuery, r: Row)
  {
    && (query.sourceType.Some? ==> r.columns.sourceType == query.sourceType.value)
    && (query.sourceDataset.Some? ==> r.columns.sourceDataset == query.sourceDataset.value)
    && (query.window.Some? ==> query.window.value.0 <= Activity(r) < query.window.value.1)
  }

  function Selected(t: EventTable, query: SummaryQuery): EventTable
  {
    map i | i in t && Selects(query, t[i]) :: t[i]
  }

  function SummaryConditions(query: SummaryQuery): seq<Condition>
  {
    FilterConditions(query.sourceType, query.sourceDataset)
    + if query.window.Some? then [ActivityWithin(query.window.value.0, query.window.value.1)] else []
  }

  lemma SummaryConditionsSelect(query: SummaryQuery, k: Key, r: Row)
    requires k.activity == Activity(r)
    ensures HoldsAll(SummaryConditions(query), k, r) <==> Selects(query, r)
  {
    var first := if query.sourceType.Some? then [SourceTypeIs(query.sourceType.value)] else [];
    var second := if query.sourceDataset.Some? then [SourceDatasetIs(query.sourceDataset.value)] else [];
    var third := if query.window.Some? then [ActivityWithin(query.window.value.0, query.window.value.1)] else [];
    HoldsAllSplits(first, second, k, r);
    HoldsAllSplits(first + second, third, k, r);
    assert HoldsAll(first, k, r) <==> (first != [] ==> Holds(first[0], k, r));
    assert HoldsAll(second, k, r) <==> (second != [] ==> Holds(second[0], k, r));
    assert HoldsAll(third, k, r) <==> (third != [] ==> Holds(third[0], k, r));
  }

  /** Unfiltered queries read the materialised aggregates; any filter makes the query scan the matching rows. */
  method PlatformSummary(t: Tables, query: SummaryQuery) returns (s: Summary)
    ensures query == SummaryQuery(None, None, None) ==> s == Fast(t)
    ensures query != SummaryQuery(None, None, None) ==>
      s == Scan(Selected(t.events, query))
  {
    var conditions := Filters(query.sourceType, query.sourceDataset);
    if query.window.Some? {
      conditions := conditions + [ActivityWithin(query.window.value.0, query.window.value.1)];
    }
    assert conditions == SummaryConditions(query);
    assert conditions == [] <==> query == SummaryQuery(None, None, None) by {
      assert |conditions| == (if query.sourceType.Some? then 1 else 0) + (if query.sourceDataset.Some? then 1 else 0)
                           + (if query.window.Some? then 1 else 0);
    }
    if conditions == [] {
      s := ReadAggregates(t);
    } else {
      s := Scan(Where(t.events, conditions));
      forall i | i in t.events ensures HoldsAll(conditions, KeyOf(t.events, i), t.events[i]) <==> Selects(query, t.events[i]) {
        SummaryConditionsSelect(query, KeyOf(t.events, i), t.events[i]);
      }
      assert Where(t.events, conditions) == Selected(t.events, query);
    }
  }

  method ReadAggregates(t: Tables) returns (s: Summary)
    ensures s == Fast(t)
  {
    var messages := SumColumn(t.daily, Messages);
    var uniqueEvents := SumColumn(t.daily, UniqueEvents);
    var originals := SumColumn(t.daily, Originals);
    var replays := SumColumn(t.daily, Replays);
    var synthetics := SumColumn(t.daily, Synthetics);
    var firstTimes := FirstEventTimes(t.lineage);
    s := Summary(messages, uniqueEvents, |t.lineage|, originals, replays, synthetics,
                 Least(firstTimes), Greatest(firstTimes), FirstActivity(t.events), LastActivity(t.events));
  }

  // ----- keyset pages -----

  datatype Page = Page(rows: seq<Key>, next: Option<string>)

  datatype PageQuery = PageQuery(limit: nat, cursor: Option<string>)

  /** The condition a decoded cursor adds. */
  function Resume(after: Option<Key>): seq<Condition>
  {
    if after.Some? then [After(after.value)] else []
  }

  /** The rows a page may still have to return, in order. */
  function Remaining(t: EventTable, conditions: seq<Condition>, after: Option<Key>): seq<Key>
  {
    Ordered(KeysOf(Where(t, conditions + Resume(after))))
  }

  /** The page: the first `limit` remaining rows, and the cursor of the last of them when a further row exists. */
  function PageOf(json: Json, t: EventTable, conditions: seq<Condition>, after: Option<Key>, limit: nat): Page
    requires limit >= 1
  {
    var rows := Remaining(t, conditions, after);
    if |rows| > limit then Page(rows[..limit], Some(EncodeCursor(json, rows[limit - 1]))) else Page(rows, None)
  }

  /** `ORDER BY activity, event_id LIMIT limit + 1`, then the boundary row turned into the next cursor. */
  method FetchPage(json: Json, t: EventTable, conditions: seq<Condition>, limit: nat) returns (page: Page)
    requires limit >= 1
    ensures page == PageOf(json, t, conditions, None, limit)
  {
    assert conditions + Resume(None) == conditions;
    var ordered := Ordered(KeysOf(Where(t, conditions)));
    var rows := ordered[..if limit + 1 < |ordered| then limit + 1 else |ordered|];
    var next: Option<string> := None;
    if |rows| > limit {
      var boundary := rows[limit - 1];
      next := Some(EncodeCursor(json, boundary));
      rows := rows[..limit];
    }
    return Page(rows, next);
  }

  function LineageConditions(root: string): seq<Condition>
  {
    [LineageIs(root)]
  }

  /**
   * The summary is read by one statement and the page by another, between which a load may commit. A lineage without events
   * has no page; otherwise the summary is over all its rows at the first statement, whatever the cursor, and the page over
   * those at the second.
   */
  method Lineage(json: Json, summarised: EventTable, listed: EventTable, root: string, query: PageQuery)
    returns (r: Result<Option<(LineageTotals, Page)>, CursorError>)
    requires query.limit >= 1
    ensures DecodeCursor(json, query.cursor).Err? ==> r.Err?
    ensures DecodeCursor(json, query.cursor).Ok? ==>
      var rows := Where(summarised, LineageConditions(root));
      r == Ok(if rows == map[] then None
              else Some((TotalLineage(rows),
                         PageOf(json, listed, LineageConditions(root), DecodeCursor(json, query.cursor).value, query.limit))))
  {
    var decoded := DecodeCursor(json, query.cursor);
    if decoded.Err? {
      return Err(decoded.error);
    }
    var conditions := [LineageIs(root)];
    if decoded.value.Some? {
      conditions := conditions + [After(decoded.value.value)];
    }
    var all := Where(summarised, [LineageIs(root)]);
    if all == map[] {
      return Ok(None);
    }
    var page := FetchPage(json, listed, conditions, query.limit);
    assert conditions == LineageConditions(root) + Resume(decoded.value);
    assert conditions + Resume(None) == conditions;
    return Ok(Some((TotalLineage(all), page)));
  }

  datatype BoundingBoxQuery = BoundingBoxQuery(
    minLongitude: real, minLatitude: real, maxLongitude: real, maxLatitude: real, start: int, end: int,
    sourceType: Option<SourceType>, sourceDataset: Option<string>, limit: nat, cursor: Option<string>)

  function BoxConditions(q: BoundingBoxQuery): seq<Condition>
  {
    [InsideEnvelope(q.minLongitude, q.minLatitude, q.maxLongitude, q.maxLatitude), ActivityWithin(q.start, q.end)]
    + FilterConditions(q.sourceType, q.sourceDataset)
  }

  method BoundingBox(json: Json, t: EventTable, query: BoundingBoxQuery) returns (r: Result<Page, CursorError>)
    requires query.limit >= 1
    ensures r == match DecodeCursor(json, query.cursor)
                 case Err(e) => Err(e)
                 case Ok(after) => Ok(PageOf(json, t, BoxConditions(query), after, query.limit))
  {
    var decoded := DecodeCursor(json, query.cursor);
    if decoded.Err? {
      return Err(decoded.error);
    }
    var conditions := Filters(query.sourceType, query.sourceDataset);
    conditions := [InsideEnvelope(query.minLongitude, query.minLatitude, query.maxLongitude, query.maxLatitude),
                   ActivityWithin(query.start, query.end)] + conditions;
    if decoded.value.Some? {
      conditions := conditions + [After(decoded.value.value)];
    }
    var page := FetchPage(json, t, conditions, query.limit);
    assert conditions == BoxConditions(query) + Resume(decoded.value);
    assert conditions + Resume(None) == conditions;
    return Ok(page);
  }
}
