/** What holds of the cache over any history of gets and sets. */
module CacheHistory {
  import opened Common
  import opened BoundedCache

  datatype Op =
    | Get(key: string, now: int)
    | Set(key: string, value: Bytes, ttl: int, now: int)

  function Step(b: Bounds, s: State, op: Op): State
    requires ValidBounds(b)
  {
    match op
    case Get(key, now) => GetStep(s, key, now).0
    case Set(key, value, ttl, now) => SetStep(b, s, key, value, ttl, now).0
  }

  function Run(b: Bounds, ops: seq<Op>): State
    requires ValidBounds(b)
  {
    if ops == [] then EMPTY else Step(b, Run(b, ops[..|ops| - 1]), ops[|ops| - 1])
  }

  lemma {:induction false} RunIsSound(b: Bounds, ops: seq<Op>)
    requires ValidBounds(b)
    ensures Sound(b, Run(b, ops))
  {
    if ops != [] {
      RunIsSound(b, ops[..|ops| - 1]);
      var s := Run(b, ops[..|ops| - 1]);
      match ops[|ops| - 1]
      case Get(key, now) => GetKeepsSound(b, s, key, now);
      case Set(key, value, ttl, now) => SetKeepsSound(b, s, key, value, ttl, now);
    }
  }

  // ----- the shape of one step -----

  /** A set that is stored, whatever the cache holds. */
  predicate Accepted(b: Bounds, op: Op)
  {
    op.Set? && op.ttl > 0 && Accepts(b, op.value)
  }

  function NewSlot(op: Op): Slot
    requires op.Set?
  {
    Slot(op.key, Entry(op.value, op.now + op.ttl))
  }

  predicate Resident(slots: seq<Slot>, key: string)
  {
    Find(slots, key) >= 0
  }

  /** Operation op, applied to these slots, is a hit. */
  predicate Hits(slots: seq<Slot>, op: Op)
  {
    op.Get? && Resident(slots, op.key) && slots[Find(slots, op.key)].entry.expiresAt > op.now
  }

  /** Operation op makes its key the most recent one: it is a stored set, or a hit. */
  predicate Touches(b: Bounds, slots: seq<Slot>, op: Op)
  {
    Accepted(b, op) || Hits(slots, op)
  }

  /** The entries of all other keys that an operation lets stand: a suffix when it evicts. */
  function Survivors(b: Bounds, slots: seq<Slot>, op: Op): seq<Slot>
    requires ValidBounds(b)
  {
    if Accepted(b, op) then Others(slots, op.key)[Evictions(b, Others(slots, op.key), |op.value|)..]
    else if op.Get? then Others(slots, op.key)
    else slots
  }

  /** One step in one line: the survivors in their old order, then the touched entry if there is one. */
  lemma StepShape(b: Bounds, s: State, op: Op)
    requires ValidBounds(b)
    ensures Step(b, s, op).slots ==
      Survivors(b, s.slots, op)
      + (if Accepted(b, op) then [NewSlot(op)] else if Hits(s.slots, op) then [s.slots[Find(s.slots, op.key)]] else [])
  {
    if op.Get? { GetShape(b, s, op); } else { SetShape(b, s, op); }
  }

  lemma GetShape(b: Bounds, s: State, op: Op)
    requires ValidBounds(b) && op.Get?
    ensures Step(b, s, op).slots == Others(s.slots, op.key) + if Hits(s.slots, op) then [s.slots[Find(s.slots, op.key)]] else []
  {
    if Hits(s.slots, op) {
      HitShape(s, op.key, op.now);
    } else {
      MissShape(s, op.key, op.now);
      assert Others(s.slots, op.key) + [] == Others(s.slots, op.key);
    }
  }

  lemma HitShape(s: State, key: string, now: int)
    requires Find(s.slots, key) >= 0 && s.slots[Find(s.slots, key)].entry.expiresAt > now
    ensures GetStep(s, key, now).0.slots == Others(s.slots, key) + [s.slots[Find(s.slots, key)]]
  {
  }

  lemma MissShape(s: State, key: string, now: int)
    requires Find(s.slots, key) < 0 || s.slots[Find(s.slots, key)].entry.expiresAt <= now
    ensures GetStep(s, key, now).0.slots == Others(s.slots, key)
  {
  }

  lemma SetShape(b: Bounds, s: State, op: Op)
    requires ValidBounds(b) && op.Set?
    ensures Step(b, s, op).slots == Survivors(b, s.slots, op) + if Accepted(b, op) then [NewSlot(op)] else []
  {
    if Accepted(b, op) {
      StoredShape(b, s, op);
    } else {
      assert Step(b, s, op).slots == s.slots == s.slots + [];
    }
  }

  lemma StoredShape(b: Bounds, s: State, op: Op)
    requires ValidBounds(b) && Accepted(b, op)
    ensures SetStep(b, s, op.key, op.value, op.ttl, op.now).0.slots == Survivors(b, s.slots, op) + [NewSlot(op)]
  {
  }

  lemma OthersAreSlots(slots: seq<Slot>, key: string)
    requires UniqueKeys(slots)
    ensures forall i :: 0 <= i < |Others(slots, key)| ==> Others(slots, key)[i] in slots && Others(slots, key)[i].key != key
    ensures forall i :: 0 <= i < |slots| && slots[i].key != key ==> slots[i] in Others(slots, key)
  {
    var at := Find(slots, key);
    if at >= 0 {
      WithoutAreSlots(slots, at);
    }
  }

  lemma WithoutAreSlots(slots: seq<Slot>, at: int)
    requires UniqueKeys(slots) && 0 <= at < |slots|
    ensures forall i :: 0 <= i < |slots| - 1 ==> Without(slots, at)[i] in slots && Without(slots, at)[i].key != slots[at].key
    ensures forall i :: 0 <= i < |slots| && i != at ==> slots[i] in Without(slots, at)
  {
    var rest := Without(slots, at);
    WithoutPlaces(slots, at);
    forall i | 0 <= i < |slots| - 1 ensures rest[i] in slots && rest[i].key != slots[at].key {
      assert rest[i] == slots[if i < at then i else i + 1];
    }
    forall i | 0 <= i < |slots| && i != at ensures slots[i] in rest {
      assert rest[if i < at then i else i - 1] == slots[i];
    }
  }

  lemma WithoutPlaces(slots: seq<Slot>, at: int)
    requires 0 <= at < |slots|
    ensures |Without(slots, at)| == |slots| - 1
    ensures forall i :: 0 <= i < |slots| - 1 ==> Without(slots, at)[i] == slots[if i < at then i else i + 1]
  {
  }

  lemma SurvivorsAreSlots(b: Bounds, slots: seq<Slot>, op: Op)
    requires ValidBounds(b) && UniqueKeys(slots)
    ensures var kept := Survivors(b, slots, op);
      forall i :: 0 <= i < |kept| ==> kept[i] in slots && (Touches(b, slots, op) ==> kept[i].key != op.key)
  {
    OthersAreSlots(slots, op.key);
    if Accepted(b, op) {
      SuffixIn(Others(slots, op.key), Evictions(b, Others(slots, op.key), |op.value|));
    }
  }

  lemma SurvivorsAvoidKey(b: Bounds, slots: seq<Slot>, op: Op)
    requires ValidBounds(b) && UniqueKeys(slots)
    ensures Touches(b, slots, op) ==>
      forall i :: 0 <= i < |Survivors(b, slots, op)| ==> Survivors(b, slots, op)[i].key != op.key
  {
    SurvivorsAreSlots(b, slots, op);
  }

  lemma SuffixIn(slots: seq<Slot>, n: nat)
    requires n <= |slots|
    ensures forall i :: 0 <= i < |slots[n..]| ==> slots[n..][i] == slots[n + i]
  {
  }

  /** A slot after one operation was there before, unless the operation stored it. */
  lemma SlotOrigin(b: Bounds, s: State, op: Op, i: int)
    requires ValidBounds(b) && UniqueKeys(s.slots) && 0 <= i < |Step(b, s, op).slots|
    ensures (Accepted(b, op) && Step(b, s, op).slots[i] == NewSlot(op)) || Step(b, s, op).slots[i] in s.slots
  {
    StepShape(b, s, op);
    SurvivorsAreSlots(b, s.slots, op);
  }

  // ----- where values come from -----

  /** The last stored set of each key. */
  function LastSets(b: Bounds, ops: seq<Op>): (sets: map<string, Op>)
    ensures forall k :: k in sets ==> sets[k].Set? && sets[k].key == k
  {
    if ops == [] then map[]
    else
      var op := ops[|ops| - 1];
      if Accepted(b, op) then LastSets(b, ops[..|ops| - 1])[op.key := op] else LastSets(b, ops[..|ops| - 1])
  }

  /** Every slot is the value and deadline of the last stored set of its key. */
  ghost predicate FromSets(sets: map<string, Op>, slots: seq<Slot>)
  {
    forall i :: 0 <= i < |slots| ==> slots[i].key in sets && sets[slots[i].key].Set? && slots[i] == NewSlot(sets[slots[i].key])
  }

  lemma StepFromSets(b: Bounds, s: State, op: Op, sets: map<string, Op>)
    requires ValidBounds(b) && UniqueKeys(s.slots) && FromSets(sets, s.slots)
    ensures FromSets(if Accepted(b, op) then sets[op.key := op] else sets, Step(b, s, op).slots)
  {
    StepShape(b, s, op);
    forall i | 0 <= i < |Step(b, s, op).slots|
      ensures var slot, after := Step(b, s, op).slots[i], if Accepted(b, op) then sets[op.key := op] else sets;
        slot.key in after && after[slot.key].Set? && slot == NewSlot(after[slot.key])
    {
      SlotOrigin(b, s, op, i);
      SlotKeyOrigin(b, s, op, i);
    }
  }

  lemma SlotKeyOrigin(b: Bounds, s: State, op: Op, i: int)
    requires ValidBounds(b) && UniqueKeys(s.slots) && 0 <= i < |Step(b, s, op).slots|
    ensures Accepted(b, op) ==> Step(b, s, op).slots[i] == NewSlot(op) || Step(b, s, op).slots[i].key != op.key
  {
    StepShape(b, s, op);
    SurvivorsAvoidKey(b, s.slots, op);
  }

  /** A refused set leaves the older entry of its key in place: entries always come from stored sets. */
  lemma {:induction false} EntriesAreLastSets(b: Bounds, ops: seq<Op>)
    requires ValidBounds(b)
    ensures FromSets(LastSets(b, ops), Run(b, ops).slots)
  {
    if ops != [] {
      var front := ops[..|ops| - 1];
      EntriesAreLastSets(b, front);
      RunIsSound(b, front);
      StepFromSets(b, Run(b, front), ops[|ops| - 1], LastSets(b, front));
    }
  }

  /** The answer to a get after a history of operations. */
  function Answer(b: Bounds, ops: seq<Op>, key: string, now: int): Option<Bytes>
    requires ValidBounds(b)
  {
    GetStep(Run(b, ops), key, now).1
  }

  /** A hit returns the value of the last stored set of the key, strictly before that set's deadline. */
  lemma HitIsLastSet(b: Bounds, ops: seq<Op>, key: string, now: int)
    requires ValidBounds(b) && Answer(b, ops, key, now).Some?
    ensures key in LastSets(b, ops)
    ensures var op := LastSets(b, ops)[key];
      Answer(b, ops, key, now) == Some(op.value) && now < op.now + op.ttl
  {
    EntriesAreLastSets(b, ops);
  }

  // ----- recency -----

  /** The position of the last operation that touched each key. */
  function LastTouches(b: Bounds, ops: seq<Op>): (touches: map<string, int>)
    requires ValidBounds(b)
    ensures forall k :: k in touches ==> 0 <= touches[k] < |ops|
  {
    if ops == [] then map[]
    else
      var front, op := ops[..|ops| - 1], ops[|ops| - 1];
      Touch(b, Run(b, front).slots, op, LastTouches(b, front), |front|)
  }

  function Touch(b: Bounds, slots: seq<Slot>, op: Op, touches: map<string, int>, time: int): map<string, int>
  {
    if Touches(b, slots, op) then touches[op.key := time] else touches
  }

  /** Slots stand in the order of the last touch of their keys. */
  ghost predicate InTouchOrder(touches: map<string, int>, slots: seq<Slot>)
  {
    && (forall i :: 0 <= i < |slots| ==> slots[i].key in touches)
    && (forall i, j :: 0 <= i < j < |slots| ==> touches[slots[i].key] < touches[slots[j].key])
  }

  lemma OthersInOrder(touches: map<string, int>, slots: seq<Slot>, key: string)
    requires InTouchOrder(touches, slots)
    ensures InTouchOrder(touches, Others(slots, key))
  {
  }

  lemma SurvivorsInOrder(b: Bounds, slots: seq<Slot>, op: Op, touches: map<string, int>)
    requires ValidBounds(b) && InTouchOrder(touches, slots)
    ensures InTouchOrder(touches, Survivors(b, slots, op))
  {
    OthersInOrder(touches, slots, op.key);
    if Accepted(b, op) {
      SuffixIn(Others(slots, op.key), Evictions(b, Others(slots, op.key), |op.value|));
    }
  }

  lemma NewestLast(touches: map<string, int>, slots: seq<Slot>, newest: Slot, time: int)
    requires InTouchOrder(touches, slots)
    requires forall k :: k in touches ==> touches[k] < time
    requires forall i :: 0 <= i < |slots| ==> slots[i].key != newest.key
    ensures InTouchOrder(touches[newest.key := time], slots + [newest])
  {
  }

  lemma StepKeepsTouchOrder(b: Bounds, s: State, op: Op, touches: map<string, int>, time: int)
    requires ValidBounds(b) && UniqueKeys(s.slots) && InTouchOrder(touches, s.slots)
    requires forall k :: k in touches ==> touches[k] < time
    ensures InTouchOrder(Touch(b, s.slots, op, touches, time), Step(b, s, op).slots)
  {
    StepShape(b, s, op);
    SurvivorsAvoidKey(b, s.slots, op);
    SurvivorsInOrder(b, s.slots, op, touches);
    var kept := Survivors(b, s.slots, op);
    if Accepted(b, op) {
      NewestLast(touches, kept, NewSlot(op), time);
    } else if Hits(s.slots, op) {
      NewestLast(touches, kept, s.slots[Find(s.slots, op.key)], time);
    } else {
      assert Step(b, s, op).slots == kept;
    }
  }

  /** The order of the entries is the order of their last touch: least recently used first. */
  lemma {:induction false} EntriesInTouchOrder(b: Bounds, ops: seq<Op>)
    requires ValidBounds(b)
    ensures InTouchOrder(LastTouches(b, ops), Run(b, ops).slots)
  {
    if ops != [] {
      var front := ops[..|ops| - 1];
      EntriesInTouchOrder(b, front);
      RunIsSound(b, front);
      StepKeepsTouchOrder(b, Run(b, front), ops[|ops| - 1], LastTouches(b, front), |front|);
    }
  }

  // ----- evictions -----

  function Keys(slots: seq<Slot>): set<string>
  {
    set i | 0 <= i < |slots| :: slots[i].key
  }

  lemma PlaceOf(slots: seq<Slot>, key: string) returns (i: int)
    requires key in Keys(slots)
    ensures 0 <= i < |slots| && slots[i].key == key
  {
    i :| 0 <= i < |slots| && slots[i].key == key;
  }

  /** The keys pushed out by a set of another key and not stored again since. */
  function EvictedKeys(b: Bounds, ops: seq<Op>): set<string>
    requires ValidBounds(b)
  {
    if ops == [] then {}
    else
      var front, op := ops[..|ops| - 1], ops[|ops| - 1];
      if Accepted(b, op) then EvictedKeys(b, front) + (Keys(Run(b, front).slots) - Keys(Run(b, ops).slots)) - {op.key}
      else EvictedKeys(b, front)
  }

  /** These keys are gone, and were last touched before every key that is still there. */
  ghost predicate OlderThanResidents(evicted: set<string>, touches: map<string, int>, slots: seq<Slot>)
  {
    && (forall k :: k in evicted ==> k in touches && k !in Keys(slots))
    && (forall i :: 0 <= i < |slots| ==> slots[i].key in touches)
    && (forall k, i :: k in evicted && 0 <= i < |slots| ==> touches[k] < touches[slots[i].key])
  }

  /** Keys gone for good stay older than the survivors. */
  lemma StillOlder(evicted: set<string>, touches: map<string, int>, slots: seq<Slot>, kept: seq<Slot>)
    requires OlderThanResidents(evicted, touches, slots)
    requires forall i :: 0 <= i < |kept| ==> kept[i] in slots
    ensures OlderThanResidents(evicted, touches, kept)
  {
    forall i | 0 <= i < |kept| ensures kept[i].key in Keys(slots) {
      assert kept[i] in slots;
      var j :| 0 <= j < |slots| && slots[j] == kept[i];
    }
    forall i | 0 <= i < |kept| ensures kept[i].key in touches && forall k :: k in evicted ==> touches[k] < touches[kept[i].key] {
      assert kept[i] in slots;
      var j :| 0 <= j < |slots| && slots[j] == kept[i];
    }
  }

  /** Evicting a prefix: the evicted keys are older than the rest. */
  lemma PrefixIsOlder(touches: map<string, int>, slots: seq<Slot>, n: nat)
    requires InTouchOrder(touches, slots) && UniqueKeys(slots) && n <= |slots|
    ensures OlderThanResidents(Keys(slots[..n]), touches, slots[n..])
  {
    var oldest, kept := slots[..n], slots[n..];
    forall k | k in Keys(oldest) ensures k in touches && k !in Keys(kept) {
      var i := PlaceOf(oldest, k);
      assert forall j :: 0 <= j < |kept| ==> kept[j].key == slots[n + j].key;
    }
  }

  lemma OlderThanNewest(evicted: set<string>, touches: map<string, int>, slots: seq<Slot>, newest: Slot, time: int)
    requires OlderThanResidents(evicted, touches, slots)
    requires forall k :: k in touches ==> touches[k] < time
    ensures OlderThanResidents(evicted - {newest.key}, touches[newest.key := time], slots + [newest])
  {
    assert Keys(slots + [newest]) == Keys(slots) + {newest.key} by {
      var all := slots + [newest];
      assert all[|slots|].key == newest.key;
      forall i | 0 <= i < |slots| ensures slots[i].key in Keys(all) {
        assert all[i].key == slots[i].key;
      }
    }
  }

  lemma UnionIsOlder(a: set<string>, b: set<string>, touches: map<string, int>, slots: seq<Slot>)
    requires OlderThanResidents(a, touches, slots) && OlderThanResidents(b, touches, slots)
    ensures OlderThanResidents(a + b, touches, slots)
  {
  }

  lemma FewerAreOlder(a: set<string>, b: set<string>, touches: map<string, int>, slots: seq<Slot>)
    requires OlderThanResidents(a, touches, slots) && b <= a
    ensures OlderThanResidents(b, touches, slots)
  {
  }

  lemma StoreKeepsEvicted(b: Bounds, s: State, op: Op, touches: map<string, int>, time: int, evicted: set<string>)
    requires ValidBounds(b) && UniqueKeys(s.slots) && InTouchOrder(touches, s.slots) && Accepted(b, op)
    requires forall k :: k in touches ==> touches[k] < time
    requires OlderThanResidents(evicted, touches, s.slots)
    ensures var after := Step(b, s, op).slots;
      OlderThanResidents(evicted + (Keys(s.slots) - Keys(after)) - {op.key}, touches[op.key := time], after)
  {
    StepShape(b, s, op);
    SurvivorsAreSlots(b, s.slots, op);
    var others := Others(s.slots, op.key);
    var n := Evictions(b, others, |op.value|);
    var kept := others[n..];
    StillOlder(evicted, touches, s.slots, kept);
    OthersInOrder(touches, s.slots, op.key);
    OthersUnique(s.slots, op.key);
    PrefixIsOlder(touches, others, n);
    UnionIsOlder(evicted, Keys(others[..n]), touches, kept);
    OlderThanNewest(evicted + Keys(others[..n]), touches, kept, NewSlot(op), time);
    var gone := evicted + (Keys(s.slots) - Keys(kept + [NewSlot(op)])) - {op.key};
    OthersAreSlots(s.slots, op.key);
    EvictedPrefix(s.slots, others, NewSlot(op), n);
    FewerAreOlder(evicted + Keys(others[..n]) - {op.key}, gone, touches[op.key := time], kept + [NewSlot(op)]);
  }

  lemma OthersUnique(slots: seq<Slot>, key: string)
    requires UniqueKeys(slots)
    ensures UniqueKeys(Others(slots, key))
  {
  }

  /** What a store pushed out is the oldest n of the other entries. */
  lemma EvictedPrefix(slots: seq<Slot>, others: seq<Slot>, newest: Slot, n: nat)
    requires n <= |others|
    requires forall i :: 0 <= i < |slots| && slots[i].key != newest.key ==> slots[i] in others
    ensures Keys(slots) - Keys(others[n..] + [newest]) - {newest.key} <= Keys(others[..n])
  {
    var after := others[n..] + [newest];
    assert forall j :: 0 <= j < |after| ==> after[j].key in Keys(after);
    assert forall j :: n <= j < |others| ==> after[j - n] == others[j];
    forall k | k in Keys(slots) - Keys(after) - {newest.key} ensures k in Keys(others[..n]) {
      var i :| 0 <= i < |slots| && slots[i].key == k;
      var at :| 0 <= at < |others| && others[at] == slots[i];
      assert others[..n][at].key == k;
    }
  }

  lemma StepKeepsEvicted(b: Bounds, s: State, op: Op, touches: map<string, int>, time: int, evicted: set<string>)
    requires ValidBounds(b) && UniqueKeys(s.slots) && InTouchOrder(touches, s.slots) && !Accepted(b, op)
    requires forall k :: k in touches ==> touches[k] < time
    requires OlderThanResidents(evicted, touches, s.slots)
    ensures OlderThanResidents(evicted, Touch(b, s.slots, op, touches, time), Step(b, s, op).slots)
  {
    StepShape(b, s, op);
    SurvivorsAreSlots(b, s.slots, op);
    var kept := Survivors(b, s.slots, op);
    StillOlder(evicted, touches, s.slots, kept);
    if Hits(s.slots, op) {
      var hit := s.slots[Find(s.slots, op.key)];
      assert hit.key in Keys(s.slots);
      OlderThanNewest(evicted, touches, kept, hit, time);
      assert evicted - {hit.key} == evicted;
    } else {
      assert kept + [] == kept;
    }
  }

  /** An evicted key, until it is stored again, was last touched before every key in the cache. */
  lemma {:induction false} EvictedBeforeResidents(b: Bounds, ops: seq<Op>)
    requires ValidBounds(b)
    ensures OlderThanResidents(EvictedKeys(b, ops), LastTouches(b, ops), Run(b, ops).slots)
  {
    if ops != [] {
      var front := ops[..|ops| - 1];
      EvictedBeforeResidents(b, front);
      EntriesInTouchOrder(b, front);
      RunIsSound(b, front);
      if Accepted(b, ops[|ops| - 1]) {
        StoreKeepsEvicted(b, Run(b, front), ops[|ops| - 1], LastTouches(b, front), |front|, EvictedKeys(b, front));
      } else {
        StepKeepsEvicted(b, Run(b, front), ops[|ops| - 1], LastTouches(b, front), |front|, EvictedKeys(b, front));
      }
    }
  }

  // ----- counters -----

  function CountGets(ops: seq<Op>): nat
  {
    if ops == [] then 0 else CountGets(ops[..|ops| - 1]) + if ops[|ops| - 1].Get? then 1 else 0
  }

  /** The stored sets of keys that were not in the cache at that moment. */
  function CountFreshSets(b: Bounds, ops: seq<Op>): nat
    requires ValidBounds(b)
  {
    if ops == [] then 0
    else
      var front, op := ops[..|ops| - 1], ops[|ops| - 1];
      CountFreshSets(b, front) + if Accepted(b, op) && !Resident(Run(b, front).slots, op.key) then 1 else 0
  }

  predicate RefusedForSize(b: Bounds, op: Op)
  {
    op.Set? && op.ttl > 0 && !Accepts(b, op.value)
  }

  function CountRefusedSets(b: Bounds, ops: seq<Op>): nat
  {
    if ops == [] then 0 else CountRefusedSets(b, ops[..|ops| - 1]) + if RefusedForSize(b, ops[|ops| - 1]) then 1 else 0
  }

  lemma StepCounts(b: Bounds, s: State, op: Op)
    requires ValidBounds(b)
    ensures var after := Step(b, s, op);
      var c, d := s.counters, after.counters;
      && d.hits + d.misses == c.hits + c.misses + (if op.Get? then 1 else 0)
      && |after.slots| + d.evictions + d.expirations
         == |s.slots| + c.evictions + c.expirations + (if Accepted(b, op) && !Resident(s.slots, op.key) then 1 else 0)
      && d.rejected == c.rejected + (if RefusedForSize(b, op) then 1 else 0)
  {
    if op.Get? { GetCounts(b, s, op); } else { SetCounts(b, s, op); }
  }

  lemma GetCounts(b: Bounds, s: State, op: Op)
    requires ValidBounds(b) && op.Get?
    ensures var c, after := s.counters, Step(b, s, op);
      && after.counters.hits + after.counters.misses == c.hits + c.misses + 1
      && after.counters.evictions == c.evictions && after.counters.rejected == c.rejected
      && |after.slots| + after.counters.expirations == |s.slots| + c.expirations
  {
  }

  lemma SetCounts(b: Bounds, s: State, op: Op)
    requires ValidBounds(b) && op.Set?
    ensures var c, after := s.counters, Step(b, s, op);
      && after.counters.hits == c.hits && after.counters.misses == c.misses && after.counters.expirations == c.expirations
      && |after.slots| + after.counters.evictions == |s.slots| + c.evictions + (if Accepted(b, op) && !Resident(s.slots, op.key) then 1 else 0)
      && after.counters.rejected == c.rejected + (if RefusedForSize(b, op) then 1 else 0)
  {
  }

  /** Every get is a hit or a miss, and every entry ever added is still there, was evicted, or expired. */
  lemma {:induction false} CountersReconcile(b: Bounds, ops: seq<Op>)
    requires ValidBounds(b)
    ensures var s := Run(b, ops);
      && s.counters.hits + s.counters.misses == CountGets(ops)
      && |s.slots| + s.counters.evictions + s.counters.expirations == CountFreshSets(b, ops)
      && s.counters.rejected == CountRefusedSets(b, ops)
  {
    if ops != [] {
      CountersReconcile(b, ops[..|ops| - 1]);
      StepCounts(b, Run(b, ops[..|ops| - 1]), ops[|ops| - 1]);
    }
  }
}
