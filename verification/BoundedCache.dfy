/** The LRU cache with TTL, entry-count and byte bounds, as a class proved against a pure state machine. */
module BoundedCache {
  import opened Common

  type Bytes = seq<bv8>

  datatype Entry = Entry(value: Bytes, expiresAt: int)

  /** One item of the ordered dictionary; the oldest item comes first. */
  datatype Slot = Slot(key: string, entry: Entry)

  datatype Bounds = Bounds(maxEntries: int, maxEntryBytes: int, maxTotalBytes: int)

  datatype Counters = Counters(hits: nat, misses: nat, expirations: nat, evictions: nat, rejected: nat)

  datatype State = State(slots: seq<Slot>, totalBytes: int, counters: Counters)

  datatype SetReply = Stored | Rejected | InvalidTtl

  predicate ValidBounds(b: Bounds)
  {
    b.maxEntries > 0 && b.maxEntryBytes > 0 && b.maxTotalBytes > 0 && b.maxEntryBytes <= b.maxTotalBytes
  }

  // ----- the ordered dictionary -----

  function Find(slots: seq<Slot>, key: string): (i: int)
    ensures -1 <= i < |slots|
    ensures i >= 0 ==> slots[i].key == key
    ensures i == -1 ==> forall j :: 0 <= j < |slots| ==> slots[j].key != key
  {
    if slots == [] then -1
    else if slots[|slots| - 1].key == key then |slots| - 1
    else Find(slots[..|slots| - 1], key)
  }

  function Without(slots: seq<Slot>, i: int): seq<Slot>
    requires 0 <= i < |slots|
  {
    slots[..i] + slots[i + 1..]
  }

  ghost predicate UniqueKeys(slots: seq<Slot>)
  {
    forall i, j :: 0 <= i < j < |slots| ==> slots[i].key != slots[j].key
  }

  function Size(slots: seq<Slot>): nat
  {
    if slots == [] then 0 else |slots[0].entry.value| + Size(slots[1..])
  }

  lemma {:induction false} SizeJoin(a: seq<Slot>, b: seq<Slot>)
    ensures Size(a + b) == Size(a) + Size(b)
  {
    if a == [] {
      assert a + b == b;
    } else {
      assert (a + b)[1..] == a[1..] + b;
      SizeJoin(a[1..], b);
    }
  }

  lemma SizeWithout(slots: seq<Slot>, i: int)
    requires 0 <= i < |slots|
    ensures Size(Without(slots, i)) == Size(slots) - |slots[i].entry.value|
  {
    assert slots == slots[..i] + slots[i..];
    SizeJoin(slots[..i], slots[i..]);
    SizeJoin(slots[..i], slots[i + 1..]);
    assert slots[i..][1..] == slots[i + 1..];
  }

  // ----- the state machine -----

  const EMPTY := State([], 0, Counters(0, 0, 0, 0, 0))

  function Removed(s: State, i: int): State
    requires 0 <= i < |s.slots|
  {
    s.(slots := Without(s.slots, i), totalBytes := s.totalBytes - |s.slots[i].entry.value|)
  }

  /** A lookup at clock time now: a live entry is returned and becomes the newest, an expired one is removed. */
  function GetStep(s: State, key: string, now: int): (State, Option<Bytes>)
  {
    var i := Find(s.slots, key);
    var c := s.counters;
    if i < 0 then (s.(counters := c.(misses := c.misses + 1)), None)
    else if s.slots[i].entry.expiresAt <= now then
      (Removed(s, i).(counters := c.(expirations := c.expirations + 1, misses := c.misses + 1)), None)
    else
      (s.(slots := Without(s.slots, i) + [s.slots[i]], counters := c.(hits := c.hits + 1)), Some(s.slots[i].entry.value))
  }

  predicate Accepts(b: Bounds, value: Bytes)
  {
    |value| <= b.maxEntryBytes && |value| <= b.maxTotalBytes
  }

  predicate HasRoom(b: Bounds, slots: seq<Slot>, incoming: nat)
  {
    |slots| < b.maxEntries && Size(slots) + incoming <= b.maxTotalBytes
  }

  /** How many of the oldest entries go: the least number after which the rest leaves room for the incoming bytes. */
  function Evictions(b: Bounds, slots: seq<Slot>, incoming: nat): (n: nat)
    requires ValidBounds(b) && incoming <= b.maxTotalBytes
    ensures n <= |slots| && HasRoom(b, slots[n..], incoming)
    ensures forall m :: 0 <= m < n ==> !HasRoom(b, slots[m..], incoming)
  {
    if HasRoom(b, slots, incoming) then 0
    else
      var n := Evictions(b, slots[1..], incoming);
      assert forall m :: 0 < m <= |slots| ==> slots[m..] == slots[1..][m - 1..];
      n + 1
  }

  /** The entries of all other keys. */
  function Others(slots: seq<Slot>, key: string): seq<Slot>
  {
    var i := Find(slots, key);
    if i >= 0 then Without(slots, i) else slots
  }

  /** A store at clock time now: an old entry of the key goes first, then the oldest ones until the new one fits. */
  function SetStep(b: Bounds, s: State, key: string, value: Bytes, ttl: int, now: int): (State, SetReply)
    requires ValidBounds(b)
  {
    var c := s.counters;
    if ttl <= 0 then (s, InvalidTtl)
    else if !Accepts(b, value) then (s.(counters := c.(rejected := c.rejected + 1)), Rejected)
    else
      var others := Others(s.slots, key);
      var n := Evictions(b, others, |value|);
      var slots := others[n..] + [Slot(key, Entry(value, now + ttl))];
      (State(slots, Size(slots), c.(evictions := c.evictions + n)), Stored)
  }

  // ----- what every operation keeps -----

  ghost predicate WellFormed(b: Bounds, slots: seq<Slot>)
  {
    UniqueKeys(slots) && forall i :: 0 <= i < |slots| ==> |slots[i].entry.value| <= b.maxEntryBytes
  }

  /** Byte accounting is exact, keys are unique, and all three bounds hold. */
  ghost predicate Sound(b: Bounds, s: State)
  {
    && WellFormed(b, s.slots)
    && s.totalBytes == Size(s.slots) <= b.maxTotalBytes
    && |s.slots| <= b.maxEntries
  }

  lemma WithoutKeepsForm(b: Bounds, slots: seq<Slot>, i: int)
    requires WellFormed(b, slots) && 0 <= i < |slots|
    ensures WellFormed(b, Without(slots, i))
    ensures forall j :: 0 <= j < |slots| - 1 ==> Without(slots, i)[j].key != slots[i].key
  {
  }

  lemma AppendKeepsForm(b: Bounds, slots: seq<Slot>, slot: Slot)
    requires WellFormed(b, slots) && |slot.entry.value| <= b.maxEntryBytes
    requires forall j :: 0 <= j < |slots| ==> slots[j].key != slot.key
    ensures WellFormed(b, slots + [slot])
  {
  }

  lemma OthersKeepForm(b: Bounds, slots: seq<Slot>, key: string)
    requires WellFormed(b, slots)
    ensures WellFormed(b, Others(slots, key))
    ensures forall j :: 0 <= j < |Others(slots, key)| ==> Others(slots, key)[j].key != key
  {
    var i := Find(slots, key);
    if i >= 0 { WithoutKeepsForm(b, slots, i); }
  }

  lemma GetKeepsSound(b: Bounds, s: State, key: string, now: int)
    requires Sound(b, s)
    ensures Sound(b, GetStep(s, key, now).0)
  {
    var i := Find(s.slots, key);
    if i >= 0 {
      WithoutKeepsForm(b, s.slots, i);
      AppendKeepsForm(b, Without(s.slots, i), s.slots[i]);
      SizeWithout(s.slots, i);
      SizeJoin(Without(s.slots, i), [s.slots[i]]);
    }
  }

  lemma SetKeepsSound(b: Bounds, s: State, key: string, value: Bytes, ttl: int, now: int)
    requires ValidBounds(b) && Sound(b, s)
    ensures Sound(b, SetStep(b, s, key, value, ttl, now).0)
  {
    if ttl > 0 && Accepts(b, value) {
      OthersKeepForm(b, s.slots, key);
      StoreKeepsSound(b, Others(s.slots, key), Slot(key, Entry(value, now + ttl)));
    }
  }

  lemma StoreKeepsSound(b: Bounds, others: seq<Slot>, slot: Slot)
    requires ValidBounds(b) && WellFormed(b, others) && Accepts(b, slot.entry.value)
    requires forall j :: 0 <= j < |others| ==> others[j].key != slot.key
    ensures var kept := others[Evictions(b, others, |slot.entry.value|)..];
      && WellFormed(b, kept + [slot])
      && Size(kept + [slot]) == Size(kept) + |slot.entry.value| <= b.maxTotalBytes
      && |kept + [slot]| <= b.maxEntries
  {
    var n := Evictions(b, others, |slot.entry.value|);
    var kept := others[n..];
    SuffixKeepsForm(b, others, n);
    forall j | 0 <= j < |kept| ensures kept[j].key != slot.key { assert kept[j] == others[n + j]; }
    AppendKeepsForm(b, kept, slot);
    SizeJoin(kept, [slot]);
  }

  lemma SuffixKeepsForm(b: Bounds, slots: seq<Slot>, n: nat)
    requires WellFormed(b, slots) && n <= |slots|
    ensures WellFormed(b, slots[n..])
  {
    var kept := slots[n..];
    forall i, j | 0 <= i < j < |kept| ensures kept[i].key != kept[j].key {
      assert kept[i] == slots[n + i] && kept[j] == slots[n + j];
    }
    forall i | 0 <= i < |kept| ensures |kept[i].entry.value| <= b.maxEntryBytes { assert kept[i] == slots[n + i]; }
  }

  // ----- the cache object -----

  class BoundedTTLCache {
    const bounds: Bounds
    var entries: seq<Slot>
    var totalBytes: int
    var hits: nat
    var misses: nat
    var expirations: nat
    var evictions: nat
    var rejectedEntries: nat

    ghost function Model(): State
      reads this
    {
      State(entries, totalBytes, Counters(hits, misses, expirations, evictions, rejectedEntries))
    }

    ghost predicate Valid()
      reads this
    {
      ValidBounds(bounds) && Sound(bounds, Model())
    }

    constructor (b: Bounds)
      requires ValidBounds(b)
      ensures bounds == b && Model() == EMPTY && Valid()
    {
      bounds := b;
      entries, totalBytes := [], 0;
      hits, misses, expirations, evictions, rejectedEntries := 0, 0, 0, 0, 0;
    }

    method Get(key: string, now: int) returns (value: Option<Bytes>)
      requires Valid()
      modifies this
      ensures Valid()
      ensures (Model(), value) == GetStep(old(Model()), key, now)
    {
      GetKeepsSound(bounds, Model(), key, now);
      var i := Find(entries, key);
      if i < 0 {
        value := Miss(key, now);
      } else if entries[i].entry.expiresAt <= now {
        value := Expire(key, now, i);
      } else {
        value := Hit(key, now, i);
      }
    }

    method Miss(key: string, now: int) returns (value: Option<Bytes>)
      requires Find(entries, key) < 0
      modifies this`misses
      ensures (Model(), value) == GetStep(old(Model()), key, now)
    {
      misses := misses + 1;
      return None;
    }

    /** An entry past its deadline is removed, and counts as a miss. */
    method Expire(key: string, now: int, i: int) returns (value: Option<Bytes>)
      requires i == Find(entries, key) >= 0 && entries[i].entry.expiresAt <= now
      modifies this
      ensures (Model(), value) == GetStep(old(Model()), key, now)
    {
      Remove(i);
      expirations := expirations + 1;
      misses := misses + 1;
      return None;
    }

    /** A live entry moves to the end. */
    method Hit(key: string, now: int, i: int) returns (value: Option<Bytes>)
      requires i == Find(entries, key) >= 0 && entries[i].entry.expiresAt > now
      modifies this`entries, this`hits
      ensures (Model(), value) == GetStep(old(Model()), key, now)
    {
      var slot := entries[i];
      entries := Without(entries, i) + [slot];
      hits := hits + 1;
      return Some(slot.entry.value);
    }

    method Set(key: string, value: Bytes, ttl: int, now: int) returns (reply: SetReply)
      requires Valid()
      modifies this
      ensures Valid()
      ensures (Model(), reply) == SetStep(bounds, old(Model()), key, value, ttl, now)
    {
      ghost var (next, answer) := SetStep(bounds, Model(), key, value, ttl, now);
      SetKeepsSound(bounds, Model(), key, value, ttl, now);
      if ttl <= 0 {
        return InvalidTtl;
      }
      if |value| > bounds.maxEntryBytes || |value| > bounds.maxTotalBytes {
        rejectedEntries := rejectedEntries + 1;
        assert Model() == next;
        return Rejected;
      }
      Store(Slot(key, Entry(value, now + ttl)));
      assert Model() == next;
      return Stored;
    }

    method Store(slot: Slot)
      requires ValidBounds(bounds) && Accepts(bounds, slot.entry.value) && totalBytes == Size(entries)
      modifies this`entries, this`totalBytes, this`evictions
      ensures var others := Others(old(entries), slot.key);
        var n := Evictions(bounds, others, |slot.entry.value|);
        && entries == others[n..] + [slot]
        && totalBytes == Size(entries)
        && evictions == old(evictions) + n
    {
      RemoveExisting(slot.key);
      MakeRoom(|slot.entry.value|);
      Append(slot);
    }

    method Append(slot: Slot)
      requires totalBytes == Size(entries)
      modifies this`entries, this`totalBytes
      ensures entries == old(entries) + [slot] && totalBytes == Size(entries)
    {
      SizeJoin(entries, [slot]);
      entries := entries + [slot];
      totalBytes := totalBytes + |slot.entry.value|;
    }

    method RemoveExisting(key: string)
      requires totalBytes == Size(entries)
      modifies this`entries, this`totalBytes
      ensures entries == Others(old(entries), key) && totalBytes == Size(entries)
    {
      var existing := Find(entries, key);
      if existing >= 0 {
        SizeWithout(entries, existing);
        Remove(existing);
      }
    }

    /** The eviction loop of Set. */
    method MakeRoom(incoming: nat)
      requires ValidBounds(bounds) && incoming <= bounds.maxTotalBytes && totalBytes == Size(entries)
      modifies this`entries, this`totalBytes, this`evictions
      ensures var n := Evictions(bounds, old(entries), incoming);
        entries == old(entries)[n..] && totalBytes == Size(entries) && evictions == old(evictions) + n
    {
      ghost var all, n, gone := entries, Evictions(bounds, entries, incoming), 0;
      while entries != [] && (|entries| >= bounds.maxEntries || totalBytes + incoming > bounds.maxTotalBytes)
        invariant 0 <= gone <= n && evictions == old(evictions) + gone
        invariant entries == all[gone..]
        invariant totalBytes == Size(entries)
        decreases |entries|
      {
        assert !HasRoom(bounds, all[gone..], incoming);
        assert all[gone..][1..] == all[gone + 1..];
        EvictOldest();
        gone := gone + 1;
      }
      assert HasRoom(bounds, all[gone..], incoming);
    }

    method EvictOldest()
      requires entries != [] && totalBytes == Size(entries)
      modifies this`entries, this`totalBytes, this`evictions
      ensures entries == old(entries)[1..] && totalBytes == Size(entries) && evictions == old(evictions) + 1
    {
      SizeWithout(entries, 0);
      Remove(0);
      evictions := evictions + 1;
    }

    method Remove(i: int)
      requires 0 <= i < |entries|
      modifies this`entries, this`totalBytes
      ensures entries == Without(old(entries), i) && totalBytes == old(totalBytes) - |old(entries)[i].entry.value|
    {
      totalBytes := totalBytes - |entries[i].entry.value|;
      entries := Without(entries, i);
    }
  }

  /** The constructor's checks: bounds the source refuses with a ValueError give no cache. */
  method Create(b: Bounds) returns (cache: BoundedTTLCache?)
    ensures cache == null <==> !ValidBounds(b)
    ensures cache != null ==> fresh(cache) && cache.bounds == b && cache.Valid() && cache.Model() == EMPTY
  {
    if b.maxEntries <= 0 || b.maxEntryBytes <= 0 || b.maxTotalBytes <= 0 {
      return null;
    }
    if b.maxEntryBytes > b.maxTotalBytes {
      return null;
    }
    cache := new BoundedTTLCache(b);
  }
}
