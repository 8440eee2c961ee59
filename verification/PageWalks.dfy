/** Following next_cursor from page to page while loads keep adding rows. */
module PageWalks {
  import opened Common
  import opened ServingTables
  import opened KeyOrder
  import opened Cursor
  import opened ApiRepository
  import LoadRuns
  import PostgresLoader

  /** The rows a client has received, and whether it reached a page without a next cursor. */
  datatype Walk = Walk(rows: seq<Key>, finished: bool)

  /**
   * One client following cursors: request n is answered from table tables[n] with page limit limits[n], and carries
   * the cursor text of the page before. The walk stops early when there are no more requests or a cursor is refused.
   */
  function Follow(json: Json, tables: seq<EventTable>, limits: seq<nat>, conditions: seq<Condition>, cursor: Option<string>): Walk
    requires |limits| == |tables| && forall i :: 0 <= i < |limits| ==> limits[i] >= 1
    decreases |tables|
  {
    if tables == [] || !AdmittedCursor(cursor) then Walk([], false)
    else
      match DecodeCursor(json, cursor)
      case Err(_) => Walk([], false)
      case Ok(after) =>
        var page := PageOf(json, tables[0], conditions, after, limits[0]);
        if page.next.None? then Walk(page.rows, true)
        else
          var rest := Follow(json, tables[1..], limits[1..], conditions, page.next);
          Walk(page.rows + rest.rows, rest.finished)
  }

  /** Row k is served by table t to a request with these conditions. */
  ghost predicate Matches(t: EventTable, conditions: seq<Condition>, k: Key)
  {
    k.eventId in t && KeyOf(t, k.eventId) == k && HoldsAll(conditions, k, t[k.eventId])
  }

  /** k comes after the cursor. */
  ghost predicate Beyond(after: Option<Key>, k: Key)
  {
    after.None? || KeyLess(after.value, k)
  }

  lemma WhereKeeps(t: EventTable, conditions: seq<Condition>, after: Option<Key>, k: Key)
    ensures Matches(t, conditions + Resume(after), k) <==> Matches(t, conditions, k) && Beyond(after, k)
  {
    if k.eventId in t {
      HoldsAllSplits(conditions, Resume(after), k, t[k.eventId]);
      assert after.Some? ==> Resume(after)[0] == After(after.value);
    }
  }

  lemma KeysAreMatches(t: EventTable, conditions: seq<Condition>, k: Key)
    ensures k in KeysOf(Where(t, conditions)) <==> Matches(t, conditions, k)
  {
    var selected := Where(t, conditions);
    if k in KeysOf(selected) {
      var i :| i in selected && KeyOf(selected, i) == k;
    }
    if Matches(t, conditions, k) {
      assert k.eventId in selected && KeyOf(selected, k.eventId) == k;
    }
  }

  lemma RemainingRows(t: EventTable, conditions: seq<Condition>, after: Option<Key>)
    ensures Increasing(Remaining(t, conditions, after))
    ensures forall k :: k in Remaining(t, conditions, after) <==> Matches(t, conditions, k) && Beyond(after, k)
  {
    var filtered := conditions + Resume(after);
    OrderedIsIncreasing(KeysOf(Where(t, filtered)));
    forall k ensures k in Remaining(t, conditions, after) <==> Matches(t, conditions, k) && Beyond(after, k) {
      KeysAreMatches(t, filtered, k);
      WhereKeeps(t, conditions, after, k);
    }
  }

  /** Every page boundary can be sent back: the condition ResumableExact spells out. */
  ghost predicate Resumes(json: Json, tables: seq<EventTable>, conditions: seq<Condition>)
  {
    forall i, k :: 0 <= i < |tables| && Matches(tables[i], conditions, k) ==> Resumable(json, k)
  }

  ghost predicate Growing(tables: seq<EventTable>)
  {
    forall i, j :: 0 <= i <= j < |tables| ==> OnlyGrew(tables[i], tables[j])
  }

  ghost predicate ResumesAfter(json: Json, cursor: Option<string>, after: Option<Key>)
  {
    AdmittedCursor(cursor) && DecodeCursor(json, cursor) == Ok(after)
  }

  /**
   * A walk lists rows in strictly increasing order, each one matching in the table that served it and beyond the
   * cursor; when it finishes it has listed every matching row of the first table beyond the cursor.
   */
  lemma {:induction false} FollowLists(json: Json, tables: seq<EventTable>, limits: seq<nat>, conditions: seq<Condition>,
                                       cursor: Option<string>, after: Option<Key>)
    requires |limits| == |tables| && forall i :: 0 <= i < |limits| ==> limits[i] >= 1
    requires Growing(tables) && Resumes(json, tables, conditions) && ResumesAfter(json, cursor, after)
    ensures Lists(tables, conditions, after, Follow(json, tables, limits, conditions, cursor))
    decreases |tables|
  {
    if tables != [] {
      if |Remaining(tables[0], conditions, after)| > limits[0] {
        var boundary := Remaining(tables[0], conditions, after)[limits[0] - 1];
        BoundaryResumes(json, tables, conditions, after, limits[0]);
        LaterTables(json, tables, conditions);
        FollowLists(json, tables[1..], limits[1..], conditions, Some(EncodeCursor(json, boundary)), Some(boundary));
      }
      FirstPageLists(json, tables, limits, conditions, cursor, after);
    }
  }

  /** A walk lists what it should when the walk from its first page boundary does. */
  lemma FirstPageLists(json: Json, tables: seq<EventTable>, limits: seq<nat>, conditions: seq<Condition>,
                       cursor: Option<string>, after: Option<Key>)
    requires tables != [] && |limits| == |tables| && forall i :: 0 <= i < |limits| ==> limits[i] >= 1
    requires Growing(tables) && ResumesAfter(json, cursor, after)
    requires |Remaining(tables[0], conditions, after)| > limits[0] ==>
      var boundary := Remaining(tables[0], conditions, after)[limits[0] - 1];
      Lists(tables[1..], conditions, Some(boundary), Follow(json, tables[1..], limits[1..], conditions, Some(EncodeCursor(json, boundary))))
    ensures Lists(tables, conditions, after, Follow(json, tables, limits, conditions, cursor))
  {
    var all := Remaining(tables[0], conditions, after);
    RemainingRows(tables[0], conditions, after);
    FollowStep(json, tables, limits, conditions, cursor, after);
    if |all| > limits[0] {
      FollowPage(tables, conditions, after, all, limits[0],
                 Follow(json, tables[1..], limits[1..], conditions, Some(EncodeCursor(json, all[limits[0] - 1]))));
    } else {
      LastPage(tables, conditions, after, all);
    }
  }

  /** Some table of the walk has this matching row. */
  ghost predicate Listed(tables: seq<EventTable>, conditions: seq<Condition>, k: Key)
  {
    exists i :: 0 <= i < |tables| && Matches(tables[i], conditions, k)
  }

  /** What a walk from this cursor over these tables is promised to list. */
  ghost predicate Lists(tables: seq<EventTable>, conditions: seq<Condition>, after: Option<Key>, walk: Walk)
  {
    && Increasing(walk.rows)
    && (forall k :: k in walk.rows ==> Beyond(after, k) && Listed(tables, conditions, k))
    && (walk.finished ==> tables != [] && forall k :: Matches(tables[0], conditions, k) && Beyond(after, k) ==> k in walk.rows)
  }

  lemma BoundaryResumes(json: Json, tables: seq<EventTable>, conditions: seq<Condition>, after: Option<Key>, limit: nat)
    requires tables != [] && Resumes(json, tables, conditions) && 1 <= limit <= |Remaining(tables[0], conditions, after)|
    ensures var boundary := Remaining(tables[0], conditions, after)[limit - 1];
      ResumesAfter(json, Some(EncodeCursor(json, boundary)), Some(boundary))
  {
    var all := Remaining(tables[0], conditions, after);
    RemainingRows(tables[0], conditions, after);
    assert all[limit - 1] in all && Resumable(json, all[limit - 1]);
  }

  lemma LastPage(tables: seq<EventTable>, conditions: seq<Condition>, after: Option<Key>, all: seq<Key>)
    requires tables != [] && Increasing(all) && forall k :: k in all <==> Matches(tables[0], conditions, k) && Beyond(after, k)
    ensures Lists(tables, conditions, after, Walk(all, true))
  {
  }

  lemma LaterTables(json: Json, tables: seq<EventTable>, conditions: seq<Condition>)
    requires tables != [] && Growing(tables) && Resumes(json, tables, conditions)
    ensures Growing(tables[1..]) && Resumes(json, tables[1..], conditions)
  {
    var later := tables[1..];
    assert forall i :: 0 <= i < |later| ==> later[i] == tables[i + 1];
    forall i, j | 0 <= i <= j < |later| ensures OnlyGrew(later[i], later[j]) {
      assert OnlyGrew(tables[i + 1], tables[j + 1]);
    }
    forall i, k | 0 <= i < |later| && Matches(later[i], conditions, k) ensures Resumable(json, k) {
      assert Matches(tables[i + 1], conditions, k);
    }
  }

  /** Gluing one full page to the walk that resumes at its boundary. */
  lemma FollowPage(tables: seq<EventTable>, conditions: seq<Condition>, after: Option<Key>, all: seq<Key>, limit: nat, rest: Walk)
    requires tables != [] && 1 <= limit < |all| && Growing(tables)
    requires Increasing(all) && forall k :: k in all <==> Matches(tables[0], conditions, k) && Beyond(after, k)
    requires Lists(tables[1..], conditions, Some(all[limit - 1]), rest)
    ensures Lists(tables, conditions, after, Walk(all[..limit] + rest.rows, rest.finished))
  {
    var page, boundary := all[..limit], all[limit - 1];
    var rows := page + rest.rows;
    assert forall i :: 0 <= i < |rest.rows| ==> rest.rows[i] in rest.rows;
    IncreasingJoin(page, rest.rows);
    assert boundary in all;
    forall k | k in rows ensures Beyond(after, k) && Listed(tables, conditions, k) {
      if k in page {
        assert k in all && Matches(tables[0], conditions, k);
      } else {
        LaterRow(tables, conditions, after, boundary, k);
      }
    }
    if rest.finished {
      forall k | Matches(tables[0], conditions, k) && Beyond(after, k) ensures k in rows {
        FirstTableRow(tables, conditions, all, limit, rest, k);
      }
    }
  }

  lemma LaterRow(tables: seq<EventTable>, conditions: seq<Condition>, after: Option<Key>, boundary: Key, k: Key)
    requires tables != [] && Beyond(after, boundary) && Beyond(Some(boundary), k) && Listed(tables[1..], conditions, k)
    ensures Beyond(after, k) && Listed(tables, conditions, k)
  {
    var i :| 0 <= i < |tables| - 1 && Matches(tables[1..][i], conditions, k);
    assert Matches(tables[i + 1], conditions, k);
    if after.Some? { KeyLessTransitive(after.value, boundary, k); }
  }

  lemma FirstTableRow(tables: seq<EventTable>, conditions: seq<Condition>, all: seq<Key>, limit: nat, rest: Walk, k: Key)
    requires |tables| > 1 && 1 <= limit < |all| && Growing(tables) && Increasing(all) && k in all && Matches(tables[0], conditions, k)
    requires forall j :: Matches(tables[1], conditions, j) && Beyond(Some(all[limit - 1]), j) ==> j in rest.rows
    ensures k in all[..limit] + rest.rows
  {
    var at :| 0 <= at < |all| && all[at] == k;
    if at < limit {
      assert all[..limit][at] == k;
    } else {
      assert KeyLess(all[limit - 1], k);
      assert OnlyGrew(tables[0], tables[1]);
      assert Matches(tables[1], conditions, k);
    }
  }

  /**
   * Following next_cursor to its end, with any page limits, while the table only grows: rows come in strictly
   * increasing order, so none twice, and every matching row present at the first request is among them.
   */
  lemma GrowingWalk(json: Json, tables: seq<EventTable>, limits: seq<nat>, conditions: seq<Condition>)
    requires |limits| == |tables| && forall i :: 0 <= i < |limits| ==> limits[i] >= 1
    requires Growing(tables) && Resumes(json, tables, conditions)
    ensures var walk := Follow(json, tables, limits, conditions, None);
      && Increasing(walk.rows)
      && (walk.finished ==> forall k :: Matches(tables[0], conditions, k) ==> k in walk.rows)
      && (forall k :: k in walk.rows ==> exists i :: 0 <= i < |tables| && Matches(tables[i], conditions, k))
  {
    FollowLists(json, tables, limits, conditions, None, None);
  }

  // ----- a table that does not change -----

  lemma RemainingShrinks(t: EventTable, conditions: seq<Condition>, after: Option<Key>, boundary: Key)
    requires boundary in Remaining(t, conditions, after)
    ensures |Remaining(t, conditions, Some(boundary))| < |Remaining(t, conditions, after)|
  {
    RemainingRows(t, conditions, after);
    RemainingRows(t, conditions, Some(boundary));
    var now := KeysOf(Where(t, conditions + Resume(after)));
    var later := KeysOf(Where(t, conditions + Resume(Some(boundary))));
    OrderedIsIncreasing(now);
    OrderedIsIncreasing(later);
    forall k | k in later ensures k in now - {boundary} {
      assert k in Remaining(t, conditions, Some(boundary));
      KeyLessTotal(k, boundary);
      if after.Some? { KeyLessTransitive(after.value, boundary, k); }
      assert k in Remaining(t, conditions, after);
    }
    SubsetCardinality(later, now - {boundary});
  }

  lemma {:induction false} FixedWalkFinishes(json: Json, t: EventTable, tables: seq<EventTable>, limits: seq<nat>,
                                             conditions: seq<Condition>, cursor: Option<string>, after: Option<Key>)
    requires |limits| == |tables| && forall i :: 0 <= i < |limits| ==> limits[i] >= 1
    requires forall i :: 0 <= i < |tables| ==> tables[i] == t
    requires Resumes(json, [t], conditions) && ResumesAfter(json, cursor, after)
    requires |tables| > |Remaining(t, conditions, after)|
    ensures Follow(json, tables, limits, conditions, cursor).finished
    decreases |tables|
  {
    FinishStep(json, tables, limits, conditions, cursor, after);
    if |Remaining(t, conditions, after)| > limits[0] {
      var boundary := NextCursorResumes(json, t, conditions, after, limits[0]);
      FixedWalkFinishes(json, t, tables[1..], limits[1..], conditions, Some(EncodeCursor(json, boundary)), Some(boundary));
    }
  }

  lemma FollowStep(json: Json, tables: seq<EventTable>, limits: seq<nat>, conditions: seq<Condition>,
                   cursor: Option<string>, after: Option<Key>)
    requires tables != [] && |limits| == |tables| && forall i :: 0 <= i < |limits| ==> limits[i] >= 1
    requires ResumesAfter(json, cursor, after)
    ensures var all := Remaining(tables[0], conditions, after);
      Follow(json, tables, limits, conditions, cursor) ==
        if |all| <= limits[0] then Walk(all, true)
        else
          var rest := Follow(json, tables[1..], limits[1..], conditions, Some(EncodeCursor(json, all[limits[0] - 1])));
          Walk(all[..limits[0]] + rest.rows, rest.finished)
  {
  }

  lemma FinishStep(json: Json, tables: seq<EventTable>, limits: seq<nat>, conditions: seq<Condition>,
                   cursor: Option<string>, after: Option<Key>)
    requires tables != [] && |limits| == |tables| && forall i :: 0 <= i < |limits| ==> limits[i] >= 1
    requires ResumesAfter(json, cursor, after)
    ensures Follow(json, tables, limits, conditions, cursor).finished <==>
      |Remaining(tables[0], conditions, after)| <= limits[0]
      || Follow(json, tables[1..], limits[1..], conditions, PageOf(json, tables[0], conditions, after, limits[0]).next).finished
  {
    FollowStep(json, tables, limits, conditions, cursor, after);
  }

  lemma NextCursorResumes(json: Json, t: EventTable, conditions: seq<Condition>, after: Option<Key>, limit: nat) returns (boundary: Key)
    requires 1 <= limit < |Remaining(t, conditions, after)|
    requires Resumes(json, [t], conditions)
    ensures PageOf(json, t, conditions, after, limit).next == Some(EncodeCursor(json, boundary))
    ensures ResumesAfter(json, Some(EncodeCursor(json, boundary)), Some(boundary))
    ensures |Remaining(t, conditions, Some(boundary))| < |Remaining(t, conditions, after)|
  {
    boundary := Remaining(t, conditions, after)[limit - 1];
    RemainingRows(t, conditions, after);
    assert Matches([t][0], conditions, boundary) && Resumable(json, boundary);
    RemainingShrinks(t, conditions, after, boundary);
  }

  /** On a table that does not change, the walk ends and its pages join to exactly the full ordered result. */
  lemma FixedTableWalk(json: Json, t: EventTable, tables: seq<EventTable>, limits: seq<nat>, conditions: seq<Condition>)
    requires |limits| == |tables| && forall i :: 0 <= i < |limits| ==> limits[i] >= 1
    requires forall i :: 0 <= i < |tables| ==> tables[i] == t
    requires Resumes(json, [t], conditions)
    requires |tables| > |Ordered(KeysOf(Where(t, conditions)))|
    ensures Follow(json, tables, limits, conditions, None) == Walk(Ordered(KeysOf(Where(t, conditions))), true)
  {
    assert conditions + Resume(None) == conditions;
    FixedWalkFinishes(json, t, tables, limits, conditions, None, None);
    forall i, k | 0 <= i < |tables| && Matches(tables[i], conditions, k) ensures Resumable(json, k) {
      assert Matches([t][0], conditions, k);
    }
    GrowingWalk(json, tables, limits, conditions);
    RemainingRows(t, conditions, None);
    IncreasingIsUnique(Follow(json, tables, limits, conditions, None).rows, Remaining(t, conditions, None));
  }

  // ----- a table that loads keep growing -----

  /** The detail table before, between and after batches of loads. */
  function Observed(t: Tables, batches: seq<seq<PostgresLoader.LoadCall>>): (tables: seq<EventTable>)
    ensures |tables| == |batches| + 1 && tables[0] == t.events
    decreases |batches|
  {
    if batches == [] then [t.events] else [t.events] + Observed(LoadRuns.RunLoads(t, batches[0]), batches[1..])
  }

  lemma {:induction false} LoadsOnlyGrow(t: Tables, batches: seq<seq<PostgresLoader.LoadCall>>)
    ensures Growing(Observed(t, batches))
    decreases |batches|
  {
    if batches != [] {
      var later := LoadRuns.RunLoads(t, batches[0]);
      LoadRuns.RowsAreImmutable(t, batches[0]);
      LoadsOnlyGrow(later, batches[1..]);
      var tail := Observed(later, batches[1..]);
      forall i, j | 0 <= i <= j < |Observed(t, batches)| ensures OnlyGrew(Observed(t, batches)[i], Observed(t, batches)[j]) {
        if i > 0 {
          assert OnlyGrew(tail[i - 1], tail[j - 1]);
        } else if j > 0 {
          assert OnlyGrew(tail[0], tail[j - 1]);
        }
      }
    }
  }

  /** A client paging while loads run in between its requests misses no row that was there when it began. */
  lemma WalkAcrossLoads(json: Json, t: Tables, batches: seq<seq<PostgresLoader.LoadCall>>, limits: seq<nat>, conditions: seq<Condition>)
    requires |limits| == |batches| + 1 && forall i :: 0 <= i < |limits| ==> limits[i] >= 1
    requires Resumes(json, Observed(t, batches), conditions)
    ensures var walk := Follow(json, Observed(t, batches), limits, conditions, None);
      && Increasing(walk.rows)
      && (walk.finished ==> forall k :: Matches(t.events, conditions, k) ==> k in walk.rows)
  {
    LoadsOnlyGrow(t, batches);
    GrowingWalk(json, Observed(t, batches), limits, conditions);
  }
}
