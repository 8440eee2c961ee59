/** The aggregate endpoints around the cache: bypass, fallback on cache failures, and how stale an answer can be. */
module CachedAggregate {
  import opened Common
  import opened BoundedCache
  import CacheHistory

  // ----- Cache-Control -----

  function Split(s: string, separator: char): (parts: seq<string>)
    ensures parts != []
  {
    if s == "" then [""]
    else if s[0] == separator then [""] + Split(s[1..], separator)
    else Prefixed(s[0], Split(s[1..], separator))
  }

  /** A character put in front of the first part. */
  function Prefixed(c: char, parts: seq<string>): (prefixed: seq<string>)
    requires parts != []
    ensures prefixed != []
  {
    [[c] + parts[0]] + parts[1..]
  }

  function Lower(s: string): string
  {
    seq(|s|, i requires 0 <= i < |s| => if 'A' <= s[i] <= 'Z' then s[i] - 'A' + 'a' else s[i])
  }

  function Directive(item: string): string
  {
    Lower(Strip(Split(item, '=')[0]))
  }

  predicate Bypassing(item: string)
  {
    Directive(item) == "no-cache" || Directive(item) == "no-store"
  }

  predicate Bypassed(cacheControl: Option<string>)
  {
    cacheControl.Some? && cacheControl.value != "" &&
    exists item :: item in Split(cacheControl.value, ',') && Bypassing(item)
  }

  lemma {:induction false} SplitJoin(a: string, b: string, separator: char)
    ensures Split(a + [separator] + b, separator) == Split(a, separator) + Split(b, separator)
  {
    var joined := a + [separator] + b;
    if a == "" {
      assert joined == [separator] + b && joined[1..] == b;
    } else {
      assert joined[0] == a[0] && joined[1..] == a[1..] + [separator] + b;
      SplitJoin(a[1..], b, separator);
      PrefixedJoin(a[0], Split(a[1..], separator), Split(b, separator));
    }
  }

  lemma PrefixedJoin(c: char, first: seq<string>, second: seq<string>)
    requires first != []
    ensures Prefixed(c, first + second) == Prefixed(c, first) + second
    ensures [""] + (first + second) == ([""] + first) + second
  {
    assert (first + second)[1..] == first[1..] + second;
  }

  /** Listing further directives never hides one: a joined header bypasses exactly when one of its parts does. */
  lemma BypassOfJoinedHeaders(a: string, b: string)
    ensures Bypassed(Some(a + "," + b)) <==> Bypassed(Some(a)) || Bypassed(Some(b))
  {
    SplitJoin(a, b, ',');
    assert a + [','] + b == a + "," + b;
    assert !Bypassing("") by {
      assert Split("", '=')[0] == "";
      assert Directive("") == "";
    }
    assert Split("", ',') == [""];
    if Bypassed(Some(a)) {
      var item :| item in Split(a, ',') && Bypassing(item);
      assert item in Split(a + "," + b, ',');
    }
    if Bypassed(Some(b)) {
      var item :| item in Split(b, ',') && Bypassing(item);
      assert item in Split(a + "," + b, ',');
    }
  }

  // ----- cache keys -----

  const KEY_PREFIX := "astrayan-api:v1:"
  const DIGEST_LENGTH := 64

  function CacheKey(namespace: string, digest: string): string
  {
    KEY_PREFIX + namespace + ":" + digest
  }

  /** The digest has a fixed length, so a key determines both its namespace and its digest. */
  lemma KeyDetermines(n1: string, d1: string, n2: string, d2: string)
    requires |d1| == |d2| == DIGEST_LENGTH && CacheKey(n1, d1) == CacheKey(n2, d2)
    ensures n1 == n2 && d1 == d2
  {
    var key := CacheKey(n1, d1);
    var p := |KEY_PREFIX|;
    assert |n1| == |n2|;
    assert key[p..p + |n1|] == n1 && CacheKey(n2, d2)[p..p + |n2|] == n2;
    assert key[p + |n1| + 1..] == d1 && CacheKey(n2, d2)[p + |n2| + 1..] == d2;
  }

  // ----- one request -----

  /** model_dump/json.dumps of a response, and model_validate_json, which may refuse a payload. */
  datatype Codec<!R> = Codec(encode: R -> Bytes, decode: Bytes -> Option<R>)

  datatype Reply = Raised | Nothing | Found(payload: Bytes)

  datatype BackendCall = GetCall(key: string) | SetCall(key: string, payload: Bytes, ttl: int)

  /**
   * cached_aggregate over any backend, whose reply to the one get is given: loaded is what the loader gives or raises
   * if it is called. The calls made to the backend are returned; a set that raises changes nothing here.
   */
  method AggregateOver<R, E>(codec: Codec<R>, key: string, ttl: int, bypass: bool, reply: Reply, loaded: Result<R, E>)
    returns (response: Result<R, E>, calls: seq<BackendCall>)
    ensures bypass ==> response == loaded && calls == []
    ensures !bypass && reply.Found? && codec.decode(reply.payload).Some? ==>
      response == Ok(codec.decode(reply.payload).value) && calls == [GetCall(key)]
    ensures !bypass && !(reply.Found? && codec.decode(reply.payload).Some?) ==>
      && response == loaded
      && calls == [GetCall(key)] + if loaded.Ok? then [SetCall(key, codec.encode(loaded.value), ttl)] else []
  {
    calls := [];
    if !bypass {
      calls := calls + [GetCall(key)];
      if reply.Found? {
        var cached := codec.decode(reply.payload);
        if cached.Some? {
          return Ok(cached.value), calls;
        }
      }
    }
    if loaded.Err? {
      return loaded, calls;
    }
    if !bypass {
      calls := calls + [SetCall(key, codec.encode(loaded.value), ttl)];
    }
    return loaded, calls;
  }

  // ----- a server's history -----

  /** A request: what it asks, when it reads and writes the cache, and what the loader gives at that moment. */
  datatype Request<F, R, E> = Request(namespace: string, filters: F, cacheControl: Option<string>,
                                      readAt: int, writeAt: int, loaded: Result<R, E>)

  datatype Server<!F, !R> = Server(bounds: Bounds, ttl: int, codec: Codec<R>, digest: F -> string)

  function KeyOf<F, R, E>(server: Server<F, R>, request: Request<F, R, E>): string
  {
    CacheKey(request.namespace, server.digest(request.filters))
  }

  function Serve<F, R, E>(server: Server<F, R>, s: State, request: Request<F, R, E>): (State, Result<R, E>)
    requires ValidBounds(server.bounds)
  {
    if Bypassed(request.cacheControl) then (s, request.loaded)
    else
      var key := KeyOf(server, request);
      var (looked, cached) := GetStep(s, key, request.readAt);
      if cached.Some? && server.codec.decode(cached.value).Some? then (looked, Ok(server.codec.decode(cached.value).value))
      else if request.loaded.Err? then (looked, request.loaded)
      else
        (SetStep(server.bounds, looked, key, server.codec.encode(request.loaded.value), server.ttl, request.writeAt).0, request.loaded)
  }

  method Aggregate<F, R, E>(cache: BoundedTTLCache, server: Server<F, R>, request: Request<F, R, E>) returns (response: Result<R, E>)
    requires cache.Valid() && cache.bounds == server.bounds
    modifies cache
    ensures cache.Valid()
    ensures (cache.Model(), response) == Serve(server, old(cache.Model()), request)
  {
    var bypass := Bypassed(request.cacheControl);
    var key := KeyOf(server, request);
    if !bypass {
      var cached := cache.Get(key, request.readAt);
      if cached.Some? {
        var decoded := server.codec.decode(cached.value);
        if decoded.Some? {
          return Ok(decoded.value);
        }
      }
    }
    if request.loaded.Err? {
      return request.loaded;
    }
    if !bypass {
      var reply := cache.Set(key, server.codec.encode(request.loaded.value), server.ttl, request.writeAt);
    }
    return request.loaded;
  }

  // ----- histories of interleaved requests -----

  /** A request's lookup or its store; other requests' may fall between the two. */
  datatype CacheEvent<F, R, E> = Look(request: Request<F, R, E>) | Keep(request: Request<F, R, E>)

  /** A bypassed request does neither, and only what was loaded is stored. */
  function Happen<F, R, E>(server: Server<F, R>, s: State, e: CacheEvent<F, R, E>): State
    requires ValidBounds(server.bounds)
  {
    var r := e.request;
    if Bypassed(r.cacheControl) then s
    else match e
      case Look(_) => GetStep(s, KeyOf(server, r), r.readAt).0
      case Keep(_) =>
        if r.loaded.Err? then s
        else SetStep(server.bounds, s, KeyOf(server, r), server.codec.encode(r.loaded.value), server.ttl, r.writeAt).0
  }

  /** A fresh cache after any interleaving of lookups and stores. */
  function After<F, R, E>(server: Server<F, R>, events: seq<CacheEvent<F, R, E>>): State
    requires ValidBounds(server.bounds)
  {
    if events == [] then EMPTY else Happen(server, After(server, events[..|events| - 1]), events[|events| - 1])
  }

  /** The answer to a request whose lookup follows these events, whatever happens before its own store. */
  function Response<F, R, E>(server: Server<F, R>, earlier: seq<CacheEvent<F, R, E>>, request: Request<F, R, E>): Result<R, E>
    requires ValidBounds(server.bounds)
  {
    Serve(server, After(server, earlier), request).1
  }

  /** Does the request store what it loaded? */
  predicate Loads<F, R, E>(server: Server<F, R>, s: State, request: Request<F, R, E>)
  {
    var cached := GetStep(s, KeyOf(server, request), request.readAt).1;
    !(cached.Some? && server.codec.decode(cached.value).Some?)
  }

  /** A request served without interruption is its lookup, followed by its store unless the lookup answered it. */
  lemma ServeIsLookAndKeep<F, R, E>(server: Server<F, R>, s: State, request: Request<F, R, E>)
    requires ValidBounds(server.bounds)
    ensures var looked := Happen(server, s, Look(request));
      Serve(server, s, request).0 == if Loads(server, s, request) then Happen(server, looked, Keep(request)) else looked
  {
  }

  /**
   * What a request and the stores before it are trusted for: payloads read back as written, and digests of full length that
   * tell the request's filters from all others stored.
   */
  ghost predicate Trusted<F, R, E>(server: Server<F, R>, earlier: seq<CacheEvent<F, R, E>>, request: Request<F, R, E>)
  {
    && ValidBounds(server.bounds) && server.ttl > 0
    && |server.digest(request.filters)| == DIGEST_LENGTH
    && forall j :: 0 <= j < |earlier| && earlier[j].Keep? ==> Distinguished(server, earlier[j].request, request)
  }

  predicate Distinguished<F(==), R(==), E>(server: Server<F, R>, stored: Request<F, R, E>, request: Request<F, R, E>)
  {
    && |server.digest(stored.filters)| == DIGEST_LENGTH
    && (server.digest(stored.filters) == server.digest(request.filters) ==> stored.filters == request.filters)
    && (stored.loaded.Ok? ==> server.codec.decode(server.codec.encode(stored.loaded.value)) == Some(stored.loaded.value))
  }

  /** Event j stored this slot. */
  ghost predicate StoredBy<F, R, E>(server: Server<F, R>, events: seq<CacheEvent<F, R, E>>, j: int, slot: Slot)
  {
    && 0 <= j < |events| && events[j].Keep? && !Bypassed(events[j].request.cacheControl) && events[j].request.loaded.Ok?
    && slot == SlotOf(server, events[j].request)
  }

  function SlotOf<F, R, E>(server: Server<F, R>, r: Request<F, R, E>): Slot
    requires r.loaded.Ok?
  {
    Slot(KeyOf(server, r), Entry(server.codec.encode(r.loaded.value), r.writeAt + server.ttl))
  }

  ghost predicate Stored<F, R, E>(server: Server<F, R>, events: seq<CacheEvent<F, R, E>>, slot: Slot)
  {
    exists j :: StoredBy(server, events, j, slot)
  }

  ghost predicate AllStored<F, R, E>(server: Server<F, R>, events: seq<CacheEvent<F, R, E>>, slots: seq<Slot>)
  {
    UniqueKeys(slots) && forall i :: 0 <= i < |slots| ==> Stored(server, events, slots[i])
  }

  lemma StoredLonger<F, R, E>(server: Server<F, R>, events: seq<CacheEvent<F, R, E>>, slots: seq<Slot>)
    requires events != [] && AllStored(server, events[..|events| - 1], slots)
    ensures AllStored(server, events, slots)
  {
    var front := events[..|events| - 1];
    forall i | 0 <= i < |slots| ensures Stored(server, events, slots[i]) {
      assert Stored(server, front, slots[i]);
      var j :| StoredBy(server, front, j, slots[i]);
      assert StoredBy(server, events, j, slots[i]);
    }
  }

  lemma StepStored<F, R, E>(server: Server<F, R>, events: seq<CacheEvent<F, R, E>>, s: State, op: CacheHistory.Op)
    requires ValidBounds(server.bounds) && Sound(server.bounds, s) && AllStored(server, events, s.slots)
    requires op.Set? ==> Stored(server, events, CacheHistory.NewSlot(op))
    ensures var after := CacheHistory.Step(server.bounds, s, op);
      Sound(server.bounds, after) && AllStored(server, events, after.slots)
  {
    var after := CacheHistory.Step(server.bounds, s, op);
    match op {
      case Get(key, now) => GetKeepsSound(server.bounds, s, key, now);
      case Set(key, value, ttl, now) => SetKeepsSound(server.bounds, s, key, value, ttl, now);
    }
    forall i | 0 <= i < |after.slots| ensures Stored(server, events, after.slots[i]) {
      CacheHistory.SlotOrigin(server.bounds, s, op, i);
      if after.slots[i] in s.slots {
        var k :| 0 <= k < |s.slots| && s.slots[k] == after.slots[i];
        assert Stored(server, events, s.slots[k]);
      }
    }
  }

  lemma {:induction false} EntriesAreStored<F, R, E>(server: Server<F, R>, events: seq<CacheEvent<F, R, E>>)
    requires ValidBounds(server.bounds)
    ensures Sound(server.bounds, After(server, events)) && AllStored(server, events, After(server, events).slots)
  {
    if events != [] {
      var front, e := events[..|events| - 1], events[|events| - 1];
      var s, r := After(server, front), e.request;
      EntriesAreStored(server, front);
      StoredLonger(server, events, s.slots);
      if e.Look? {
        StepStored(server, events, s, CacheHistory.Get(KeyOf(server, r), r.readAt));
      } else if !Bypassed(r.cacheControl) && r.loaded.Ok? {
        assert StoredBy(server, events, |events| - 1, SlotOf(server, r));
        StepStored(server, events, s, CacheHistory.Set(KeyOf(server, r), server.codec.encode(r.loaded.value), server.ttl, r.writeAt));
      }
    }
  }

  /** Event j stored what its request, asking the same thing, had loaded, less than ttl before this request's lookup. */
  ghost predicate RecentLoad<F, R, E>(server: Server<F, R>, earlier: seq<CacheEvent<F, R, E>>, j: int, request: Request<F, R, E>, r: R)
  {
    && 0 <= j < |earlier| && earlier[j].Keep?
    && earlier[j].request.namespace == request.namespace && earlier[j].request.filters == request.filters
    && earlier[j].request.loaded == Ok(r)
    && request.readAt < earlier[j].request.writeAt + server.ttl
  }

  /**
   * Over any interleaving of lookups and stores, an answer is the request's own fresh load, or what another request for the
   * same namespace and filters loaded and stored less than ttl ago; a bypassed request always gets its own load.
   */
  lemma AnswersAreFreshOrRecent<F, R, E>(server: Server<F, R>, earlier: seq<CacheEvent<F, R, E>>, request: Request<F, R, E>)
    requires Trusted(server, earlier, request)
    ensures var response := Response(server, earlier, request);
      response == request.loaded
      || (!Bypassed(request.cacheControl) && response.Ok? && exists j :: RecentLoad(server, earlier, j, request, response.value))
  {
    var cached := GetStep(After(server, earlier), KeyOf(server, request), request.readAt).1;
    if !Bypassed(request.cacheControl) && cached.Some? {
      var j := HitIsRecent(server, earlier, request, cached.value);
    }
  }

  lemma HitIsRecent<F, R, E>(server: Server<F, R>, earlier: seq<CacheEvent<F, R, E>>, request: Request<F, R, E>, payload: Bytes)
    returns (j: int)
    requires Trusted(server, earlier, request)
    requires GetStep(After(server, earlier), KeyOf(server, request), request.readAt).1 == Some(payload)
    ensures server.codec.decode(payload).Some?
    ensures RecentLoad(server, earlier, j, request, server.codec.decode(payload).value)
  {
    EntriesAreStored(server, earlier);
    var s := After(server, earlier);
    var slot := s.slots[Find(s.slots, KeyOf(server, request))];
    assert Stored(server, earlier, slot);
    j :| StoredBy(server, earlier, j, slot);
    var stored := earlier[j].request;
    assert Distinguished(server, stored, request);
    KeyDetermines(request.namespace, server.digest(request.filters), stored.namespace, server.digest(stored.filters));
  }

  /** With a loader that depends only on the namespace and the filters, the cache cannot be seen. */
  lemma ConstantLoaderHidesTheCache<F, R, E>(server: Server<F, R>, earlier: seq<CacheEvent<F, R, E>>, request: Request<F, R, E>)
    requires Trusted(server, earlier, request)
    requires forall j :: 0 <= j < |earlier| && earlier[j].request.namespace == request.namespace && earlier[j].request.filters == request.filters ==>
      earlier[j].request.loaded == request.loaded
    ensures Response(server, earlier, request) == request.loaded
  {
    AnswersAreFreshOrRecent(server, earlier, request);
  }

  /** Answers as old as that do occur: a second request for the same thing within ttl gets what the first one loaded. */
  lemma StaleAnswersHappen<F, R, E>(server: Server<F, R>, first: Request<F, R, E>, second: Request<F, R, E>)
    requires Trusted(server, [Look(first), Keep(first)], second)
    requires first.namespace == second.namespace && first.filters == second.filters && first.loaded.Ok?
    requires !Bypassed(first.cacheControl) && !Bypassed(second.cacheControl)
    requires Accepts(server.bounds, server.codec.encode(first.loaded.value)) && second.readAt < first.writeAt + server.ttl
    ensures Response(server, [Look(first), Keep(first)], second) == first.loaded
  {
    LookThenKeep(server, first);
    var events := [Look(first), Keep(first)];
    assert events[1] == Keep(first) && Distinguished(server, first, second);
  }

  /** A first request, alone on an empty cache, leaves the entry it stores. */
  lemma LookThenKeep<F, R, E>(server: Server<F, R>, r: Request<F, R, E>)
    requires ValidBounds(server.bounds) && server.ttl > 0 && r.loaded.Ok? && !Bypassed(r.cacheControl)
    requires Accepts(server.bounds, server.codec.encode(r.loaded.value))
    ensures After(server, [Look(r), Keep(r)]).slots == [SlotOf(server, r)]
  {
    var events := [Look(r), Keep(r)];
    assert events[..1] == [Look(r)] && events[..1][..0] == [];
    var looked := After(server, [Look(r)]);
    assert After<F, R, E>(server, []) == EMPTY && looked.slots == [];
    StoreAlone(server, looked, r);
    assert After(server, events) == Happen(server, looked, Keep(r));
  }

  /** A store into an empty cache leaves that one entry. */
  lemma StoreAlone<F, R, E>(server: Server<F, R>, s: State, r: Request<F, R, E>)
    requires ValidBounds(server.bounds) && server.ttl > 0 && s.slots == [] && r.loaded.Ok? && !Bypassed(r.cacheControl)
    requires Accepts(server.bounds, server.codec.encode(r.loaded.value))
    ensures Happen(server, s, Keep(r)).slots == [SlotOf(server, r)]
  {
    assert Others(s.slots, KeyOf(server, r)) == [];
  }
}
