/** When the fast, materialised platform summary and the scanning one give the same answer. */
module SummaryAgreement {
  import opened Common
  import opened Relational
  import opened ServingTables
  import opened KeyOrder
  import opened ApiRepository
  import LoadRuns
  import PostgresLoader

  // ----- counts -----

  /** A daily column that counts the kept rows of its group adds up to all kept rows. */
  lemma ColumnTotal(t: EventTable, col: DayCounts -> nat, keep: set<EventId>)
    requires forall k :: col(CountDay(Group(t, ObservedDayKey, k))) == |Group(t, ObservedDayKey, k).Keys * keep|
    ensures var daily := GroupBy(t, ObservedDayKey, CountDay);
      SumOver(daily.Keys, Column(daily, col)) == |t.Keys * keep|
  {
    var daily := GroupBy(t, ObservedDayKey, CountDay);
    assert daily.Keys == GroupKeys(t, ObservedDayKey);
    GroupSizesSum(t, ObservedDayKey, keep);
    SumOverAgrees(daily.Keys, Column(daily, col), Kept(t, ObservedDayKey, keep));
  }

  lemma MessagesAgree(t: EventTable)
    ensures var daily := GroupBy(t, ObservedDayKey, CountDay);
      && SumOver(daily.Keys, Column(daily, Messages)) == |t|
      && SumOver(daily.Keys, Column(daily, UniqueEvents)) == |t.Keys|
  {
    forall k ensures Group(t, ObservedDayKey, k).Keys * t.Keys == Group(t, ObservedDayKey, k).Keys {
    }
    assert t.Keys * t.Keys == t.Keys && |t| == |t.Keys|;
    ColumnTotal(t, Messages, t.Keys);
    ColumnTotal(t, UniqueEvents, t.Keys);
  }

  lemma TypeCountAgrees(t: EventTable, col: DayCounts -> nat, s: SourceType)
    requires forall g: EventTable :: col(CountDay(g)) == |OfType(g, s)|
    ensures var daily := GroupBy(t, ObservedDayKey, CountDay);
      SumOver(daily.Keys, Column(daily, col)) == |OfType(t, s)|
  {
    forall k ensures col(CountDay(Group(t, ObservedDayKey, k))) == |Group(t, ObservedDayKey, k).Keys * OfType(t, s)| {
      assert OfType(Group(t, ObservedDayKey, k), s) == Group(t, ObservedDayKey, k).Keys * OfType(t, s);
    }
    assert t.Keys * OfType(t, s) == OfType(t, s);
    ColumnTotal(t, col, OfType(t, s));
  }

  // ----- times -----

  lemma LeastIs(s: set<int>, m: int)
    requires m in s && forall x :: x in s ==> m <= x
    ensures Least(s) == Some(m)
  {
  }

  lemma GreatestIs(s: set<int>, m: int)
    requires m in s && forall x :: x in s ==> x <= m
    ensures Greatest(s) == Some(m)
  {
  }

  lemma ActivitiesAreKeys(t: EventTable)
    ensures Activities(t) == set k | k in KeysOf(t) :: k.activity
  {
    forall i | i in t ensures KeyOf(t, i) in KeysOf(t) && KeyOf(t, i).activity == Activity(t[i]) {
    }
  }

  lemma ActivitiesAgree(t: EventTable)
    ensures FirstActivity(t) == Least(Activities(t)) && LastActivity(t) == Greatest(Activities(t))
  {
    var rows := Ordered(KeysOf(t));
    OrderedIsIncreasing(KeysOf(t));
    ActivitiesAreKeys(t);
    if rows == [] {
      assert KeysOf(t) == {};
    } else {
      forall i | i in t ensures rows[0].activity <= Activity(t[i]) <= rows[|rows| - 1].activity {
        assert KeyOf(t, i) in KeysOf(t);
        var at :| 0 <= at < |rows| && rows[at] == KeyOf(t, i);
      }
      assert rows[0] in KeysOf(t) && rows[|rows| - 1] in KeysOf(t);
      LeastIs(Activities(t), rows[0].activity);
      GreatestIs(Activities(t), rows[|rows| - 1].activity);
    }
  }

  /** The first-event times the fast path reads: the earliest observation of each (gold run, lineage root). */
  function FirstTimes(t: EventTable): set<int>
  {
    FirstEventTimes(GroupBy(t, LineageKeyOf, TotalLineage))
  }

  /** Row j is an earliest observation of its own lineage group. */
  ghost predicate IsEarliest(t: EventTable, j: EventId)
    requires j in t
  {
    forall l :: l in t && LineageKeyOf(t[l]) == LineageKeyOf(t[j]) ==> t[j].columns.eventTime <= t[l].columns.eventTime
  }

  lemma EarliestInGroup(t: EventTable, k: LineageKey) returns (j: EventId)
    requires Group(t, LineageKeyOf, k) != map[]
    ensures j in t && LineageKeyOf(t[j]) == k && IsEarliest(t, j)
    ensures Least(EventTimes(Group(t, LineageKeyOf, k))) == Some(t[j].columns.eventTime)
  {
    var g := Group(t, LineageKeyOf, k);
    var i :| i in g;
    assert g[i].columns.eventTime in EventTimes(g);
    j :| j in g && g[j].columns.eventTime == MinOf(EventTimes(g));
    forall l | l in t && LineageKeyOf(t[l]) == LineageKeyOf(t[j]) ensures t[j].columns.eventTime <= t[l].columns.eventTime {
      assert l in g && g[l].columns.eventTime in EventTimes(g);
      assert MinOf(EventTimes(g)) <= g[l].columns.eventTime;
    }
  }

  /** The earliest row of the lineage group of row i, whose time the fast path reads. */
  lemma EarliestOf(t: EventTable, i: EventId) returns (j: EventId)
    requires i in t
    ensures j in t && LineageKeyOf(t[j]) == LineageKeyOf(t[i]) && IsEarliest(t, j)
    ensures t[j].columns.eventTime in FirstTimes(t)
  {
    var k := LineageKeyOf(t[i]);
    assert i in Group(t, LineageKeyOf, k);
    j := EarliestInGroup(t, k);
    var lineage := GroupBy(t, LineageKeyOf, TotalLineage);
    assert k in lineage && lineage[k].firstEventTime == Some(t[j].columns.eventTime);
  }

  lemma GroupOf(t: EventTable, x: int) returns (j: EventId)
    requires x in FirstTimes(t)
    ensures j in t && IsEarliest(t, j) && t[j].columns.eventTime == x
  {
    var lineage := GroupBy(t, LineageKeyOf, TotalLineage);
    var k :| k in lineage && lineage[k].firstEventTime == Some(x);
    KeyHasGroup(t, LineageKeyOf, k);
    j := EarliestInGroup(t, k);
  }

  lemma FirstTimesAreEventTimes(t: EventTable)
    ensures FirstTimes(t) <= EventTimes(t)
  {
    forall x | x in FirstTimes(t) ensures x in EventTimes(t) {
      var j := GroupOf(t, x);
    }
  }

  lemma FirstObservationAgrees(t: EventTable)
    ensures Least(FirstTimes(t)) == Least(EventTimes(t))
  {
    FirstTimesAreEventTimes(t);
    if EventTimes(t) == {} {
      assert FirstTimes(t) == {};
    } else {
      var m := MinOf(EventTimes(t));
      var i :| i in t && t[i].columns.eventTime == m;
      var j := EarliestOf(t, i);
      assert t[j].columns.eventTime in EventTimes(t);
      assert t[j].columns.eventTime == m;
      LeastIs(FirstTimes(t), m);
    }
  }

  ghost predicate IsLatest(t: EventTable, x: int)
  {
    forall k :: k in t ==> t[k].columns.eventTime <= x
  }

  /** Every observation of the lineage group of row i is at the latest observation time of the table. */
  ghost predicate SeenOnlyAtLatest(t: EventTable, i: EventId)
    requires i in t
  {
    forall j :: j in t && LineageKeyOf(t[j]) == LineageKeyOf(t[i]) ==> IsLatest(t, t[j].columns.eventTime)
  }

  /** The fast path's last observation is the latest first observation of a lineage: exact only when one is all-latest. */
  lemma LastObservationExact(t: EventTable)
    ensures Greatest(FirstTimes(t)) == Greatest(EventTimes(t)) <==> t == map[] || exists i :: i in t && SeenOnlyAtLatest(t, i)
  {
    FirstTimesAreEventTimes(t);
    if t == map[] {
      assert FirstTimes(t) == {} && EventTimes(t) == {};
    } else {
      TimesNotEmpty(t);
      LatestIsMax(t);
      LatestIsReached(t, MaxOf(EventTimes(t)));
      GreatestOfSubset(FirstTimes(t), EventTimes(t));
    }
  }

  lemma TimesNotEmpty(t: EventTable)
    requires t != map[]
    ensures EventTimes(t) != {} && FirstTimes(t) != {}
  {
    var i :| i in t;
    assert t[i].columns.eventTime in EventTimes(t);
    var j := EarliestOf(t, i);
  }

  lemma GreatestOfSubset(a: set<int>, b: set<int>)
    requires a <= b && a != {} && b != {}
    ensures Greatest(a) == Greatest(b) <==> MaxOf(b) in a
  {
    if MaxOf(b) in a { GreatestIs(a, MaxOf(b)); }
  }

  lemma LatestIsReached(t: EventTable, m: int)
    requires m in EventTimes(t) && IsLatest(t, m)
    requires forall x :: x in EventTimes(t) && IsLatest(t, x) ==> x == m
    ensures m in FirstTimes(t) <==> exists i :: i in t && SeenOnlyAtLatest(t, i)
  {
    if m in FirstTimes(t) {
      var i := GroupOf(t, m);
      forall j | j in t && LineageKeyOf(t[j]) == LineageKeyOf(t[i]) ensures IsLatest(t, t[j].columns.eventTime) {
        assert t[j].columns.eventTime == m;
      }
      assert SeenOnlyAtLatest(t, i);
    }
    if i :| i in t && SeenOnlyAtLatest(t, i) {
      var j := EarliestOf(t, i);
      assert IsLatest(t, t[j].columns.eventTime) && t[j].columns.eventTime in EventTimes(t);
    }
  }

  lemma LatestIsMax(t: EventTable)
    requires t != map[] && EventTimes(t) != {}
    ensures forall x :: x in EventTimes(t) && IsLatest(t, x) ==> x == MaxOf(EventTimes(t))
    ensures IsLatest(t, MaxOf(EventTimes(t)))
  {
    forall k | k in t ensures t[k].columns.eventTime <= MaxOf(EventTimes(t)) {
      assert t[k].columns.eventTime in EventTimes(t);
    }
    var at :| at in t && t[at].columns.eventTime == MaxOf(EventTimes(t));
  }

  // ----- detections -----

  ghost predicate OneDetectionPerLineage(t: EventTable)
  {
    forall i, j :: i in t && j in t && LineageKeyOf(t[i]) == LineageKeyOf(t[j]) ==>
      t[i].columns.detectionId == t[j].columns.detectionId
  }

  /** No detection is spread over two (gold run, lineage root) groups. */
  ghost predicate OneLineagePerDetection(t: EventTable)
  {
    forall i, j :: i in t && j in t && t[i].columns.detectionId == t[j].columns.detectionId ==>
      LineageKeyOf(t[i]) == LineageKeyOf(t[j])
  }

  ghost predicate Injective<A, B>(m: map<A, B>)
  {
    forall a, b :: a in m && b in m && m[a] == m[b] ==> a == b
  }

  lemma {:induction false} ImageCardinality<A, B>(m: map<A, B>)
    ensures |m.Values| <= |m.Keys|
    ensures |m.Values| == |m.Keys| <==> Injective(m)
    decreases |m|
  {
    if m.Keys != {} {
      var a :| a in m.Keys;
      var rest := m - {a};
      assert m.Keys == rest.Keys + {a};
      ImageCardinality(rest);
      assert m.Values == rest.Values + {m[a]} by {
        forall b | b in m.Values ensures b in rest.Values + {m[a]} {
          var k :| k in m && m[k] == b;
          if k != a { assert k in rest && rest[k] == b; }
        }
        forall b | b in rest.Values ensures b in m.Values {
          var k :| k in rest && rest[k] == b;
          assert m[k] == b;
        }
      }
      if m[a] in rest.Values {
        var k :| k in rest && rest[k] == m[a];
        assert !Injective(m);
      } else {
        assert Injective(m) <==> Injective(rest) by {
          assert forall k :: k in rest ==> rest[k] == m[k] && rest[k] in rest.Values;
        }
      }
    }
  }

  /** The detection id of each lineage group. */
  ghost function DetectionOf(t: EventTable): map<LineageKey, string>
  {
    map k | k in GroupKeys(t, LineageKeyOf) :: (var i :| i in t && LineageKeyOf(t[i]) == k; t[i].columns.detectionId)
  }

  lemma DetectionOfRow(t: EventTable, i: EventId)
    requires OneDetectionPerLineage(t) && i in t
    ensures LineageKeyOf(t[i]) in DetectionOf(t) && DetectionOf(t)[LineageKeyOf(t[i])] == t[i].columns.detectionId
  {
  }

  /** The fast path counts (gold run, lineage root) groups: never too few, and too many as soon as one detection has two. */
  lemma DetectionCountExact(t: EventTable)
    requires OneDetectionPerLineage(t)
    ensures |GroupKeys(t, LineageKeyOf)| >= |Detections(t)|
    ensures |GroupKeys(t, LineageKeyOf)| == |Detections(t)| <==> OneLineagePerDetection(t)
  {
    var m := DetectionOf(t);
    assert m.Keys == GroupKeys(t, LineageKeyOf);
    assert m.Values == Detections(t) by {
      forall d | d in Detections(t) ensures d in m.Values {
        var i :| i in t && t[i].columns.detectionId == d;
        DetectionOfRow(t, i);
      }
      forall d | d in m.Values ensures d in Detections(t) {
        var k :| k in m && m[k] == d;
        var i :| i in t && LineageKeyOf(t[i]) == k;
        DetectionOfRow(t, i);
      }
    }
    ImageCardinality(m);
    InjectiveDetections(t);
  }

  lemma InjectiveDetections(t: EventTable)
    requires OneDetectionPerLineage(t)
    ensures Injective(DetectionOf(t)) <==> OneLineagePerDetection(t)
  {
    var m := DetectionOf(t);
    if OneLineagePerDetection(t) {
      forall a, b | a in m && b in m && m[a] == m[b] ensures a == b {
        var i :| i in t && LineageKeyOf(t[i]) == a;
        var j :| j in t && LineageKeyOf(t[j]) == b;
        DetectionOfRow(t, i);
        DetectionOfRow(t, j);
      }
    }
    if Injective(m) {
      forall i, j | i in t && j in t && t[i].columns.detectionId == t[j].columns.detectionId
        ensures LineageKeyOf(t[i]) == LineageKeyOf(t[j])
      {
        DetectionOfRow(t, i);
        DetectionOfRow(t, j);
      }
    }
  }

  // ----- the two paths -----

  /** With exact summaries both paths agree on messages, unique events and every source type, on any rows. */
  lemma CountsAgree(t: Tables)
    requires SummariesMatch(t)
    ensures Fast(t).messages == Scan(t.events).messages && Fast(t).uniqueEvents == Scan(t.events).uniqueEvents
    ensures Fast(t).originals == Scan(t.events).originals && Fast(t).replays == Scan(t.events).replays
    ensures Fast(t).synthetics == Scan(t.events).synthetics
  {
    MessagesAgree(t.events);
    TypeCountAgrees(t.events, Originals, NASA_ORIGINAL);
    TypeCountAgrees(t.events, Replays, NASA_REPLAY);
    TypeCountAgrees(t.events, Synthetics, SYNTHETIC_SCALE_TEST);
  }

  /** Both paths agree on the first observation and on both activity bounds; on the last observation only as stated. */
  lemma TimesAgree(t: Tables)
    requires SummariesMatch(t)
    ensures Fast(t).firstObservation == Scan(t.events).firstObservation
    ensures Fast(t).firstActivity == Scan(t.events).firstActivity && Fast(t).lastActivity == Scan(t.events).lastActivity
    ensures Fast(t).lastObservation == Scan(t.events).lastObservation
      <==> t.events == map[] || exists i :: i in t.events && SeenOnlyAtLatest(t.events, i)
  {
    FirstObservationAgrees(t.events);
    ActivitiesAgree(t.events);
    LastObservationExact(t.events);
  }

  /** When lineages fix their detection, the fast detection count is never too low, and right only as stated. */
  lemma DetectionsAgree(t: Tables)
    requires SummariesMatch(t) && OneDetectionPerLineage(t.events)
    ensures Fast(t).uniqueDetections >= Scan(t.events).uniqueDetections
    ensures Fast(t).uniqueDetections == Scan(t.events).uniqueDetections <==> OneLineagePerDetection(t.events)
  {
    assert t.lineage.Keys == GroupKeys(t.events, LineageKeyOf) && |t.lineage| == |t.lineage.Keys|;
    DetectionCountExact(t.events);
  }

  /** In every database that governed loads can reach, the paths agree on all counts but detections, and on first times. */
  lemma ReachableDatabasesAgree(calls: seq<PostgresLoader.LoadCall>)
    requires forall i :: 0 <= i < |calls| ==> LoadRuns.Governed(calls[i])
    ensures var t := LoadRuns.RunLoads(EMPTY_DATABASE, calls);
      var fast, scan := Fast(t), Scan(t.events);
      && SummariesMatch(t)
      && fast == scan.(uniqueDetections := fast.uniqueDetections, lastObservation := fast.lastObservation)
  {
    LoadRuns.EmptyDatabaseMatches();
    LoadRuns.SummariesTrackDetail(EMPTY_DATABASE, calls);
    var t := LoadRuns.RunLoads(EMPTY_DATABASE, calls);
    CountsAgree(t);
    TimesAgree(t);
  }

  /** Rows in which a lineage root fixes its detection, its one observation time and its one gold run, and conversely. */
  ghost predicate LineageIsOneObservation(t: EventTable)
  {
    && (forall i, j :: i in t && j in t && t[i].columns.lineageRootId == t[j].columns.lineageRootId ==>
          && t[i].columns.detectionId == t[j].columns.detectionId
          && t[i].columns.eventTime == t[j].columns.eventTime
          && GoldOf(t[i]) == GoldOf(t[j]))
    && (forall i, j :: i in t && j in t && t[i].columns.detectionId == t[j].columns.detectionId ==>
          t[i].columns.lineageRootId == t[j].columns.lineageRootId)
  }

  /** On such rows the two paths give the same answer in every field. */
  lemma FastEqualsScan(t: Tables)
    requires SummariesMatch(t) && LineageIsOneObservation(t.events)
    ensures Fast(t) == Scan(t.events)
  {
    LineagesAreDetections(t.events);
    CountsAgree(t);
    TimesAgree(t);
    DetectionsAgree(t);
    if t.events != map[] {
      LatestLineage(t.events);
    }
  }

  lemma LineagesAreDetections(t: EventTable)
    requires LineageIsOneObservation(t)
    ensures OneDetectionPerLineage(t) && OneLineagePerDetection(t)
  {
  }

  lemma LatestLineage(t: EventTable)
    requires LineageIsOneObservation(t) && t != map[]
    ensures exists i :: i in t && SeenOnlyAtLatest(t, i)
  {
    TimesNotEmpty(t);
    LatestIsMax(t);
    var i :| i in t && t[i].columns.eventTime == MaxOf(EventTimes(t));
    assert SeenOnlyAtLatest(t, i);
  }
}
