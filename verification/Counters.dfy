/** Counting optional keys, as Python's Counter and set do over the messages of a read. */
module Counters {
  import opened Common

  /** How often a key occurs among optional keys. */
  function Occurrences(keys: seq<Option<string>>, k: string): nat
  {
    if keys == [] then 0
    else Occurrences(keys[..|keys| - 1], k) + if keys[|keys| - 1] == Some(k) then 1 else 0
  }

  /** How many of them are present. */
  function Present<T>(keys: seq<Option<T>>): nat
  {
    if keys == [] then 0 else Present(keys[..|keys| - 1]) + if keys[|keys| - 1].Some? then 1 else 0
  }

  /** The keys that are present. */
  function Entries<T(==)>(keys: seq<Option<T>>): set<T>
  {
    if keys == [] then {} else
      Entries(keys[..|keys| - 1]) + if keys[|keys| - 1].Some? then {keys[|keys| - 1].value} else {}
  }

  /** `counter[key] += 1` for a key that is present. */
  function Counted(counter: map<string, nat>, key: Option<string>): map<string, nat>
  {
    match key
    case None => counter
    case Some(k) => counter[k := (if k in counter then counter[k] else 0) + 1]
  }

  function CounterOf(keys: seq<Option<string>>): map<string, nat>
  {
    if keys == [] then map[] else Counted(CounterOf(keys[..|keys| - 1]), keys[|keys| - 1])
  }

  lemma {:induction false} CounterIs(keys: seq<Option<string>>)
    ensures CounterOf(keys).Keys == Entries(keys)
    ensures forall k :: k in CounterOf(keys) ==> CounterOf(keys)[k] == Occurrences(keys, k) > 0
    ensures forall k :: k !in CounterOf(keys) ==> Occurrences(keys, k) == 0
  {
    if keys != [] { CounterIs(keys[..|keys| - 1]); }
  }

  lemma {:induction false} EntriesAre<T>(keys: seq<Option<T>>)
    ensures forall k :: k in Entries(keys) <==> Some(k) in keys
  {
    if keys != [] {
      var front := keys[..|keys| - 1];
      EntriesAre(front);
      assert keys == front + [keys[|keys| - 1]];
    }
  }

  /** Every key is present and none occurs twice. */
  ghost predicate AllDifferent<T>(keys: seq<Option<T>>)
  {
    Distinct(keys) && forall i :: 0 <= i < |keys| ==> keys[i].Some?
  }

  /** There are as many different keys as places exactly when every place has one of its own. */
  lemma {:induction false} FullEntries<T>(keys: seq<Option<T>>)
    ensures |Entries(keys)| <= |keys|
    ensures |Entries(keys)| == |keys| <==> AllDifferent(keys)
  {
    if keys != [] {
      var n := |keys| - 1;
      var front, last := keys[..n], keys[n];
      FullEntries(front);
      EntriesAre(front);
      DifferentStep(front, last);
      assert keys == front + [last];
    }
  }

  lemma DifferentStep<T>(front: seq<Option<T>>, last: Option<T>)
    ensures AllDifferent(front + [last]) <==> AllDifferent(front) && last.Some? && last !in front
  {
    var keys := front + [last];
    if AllDifferent(keys) {
      forall i | 0 <= i < |front| ensures front[i].Some? && front[i] != last {
        assert keys[i] == front[i] && keys[i] != keys[|front|];
      }
      forall i, j | 0 <= i < j < |front| ensures front[i] != front[j] {
        assert keys[i] != keys[j];
      }
      assert keys[|front|] == last;
    }
  }

  lemma {:induction false} OccurrencesFull(keys: seq<Option<string>>, k: string)
    ensures Occurrences(keys, k) <= |keys|
    ensures Occurrences(keys, k) == |keys| <==> forall i :: 0 <= i < |keys| ==> keys[i] == Some(k)
  {
    if keys != [] { OccurrencesFull(keys[..|keys| - 1], k); }
  }

  /** A counter says one thing only, as often as there are places, exactly when every place says it. */
  lemma OnlyKey(keys: seq<Option<string>>, k: string)
    requires keys != []
    ensures CounterOf(keys) == map[k := |keys|] <==> forall i :: 0 <= i < |keys| ==> keys[i] == Some(k)
  {
    CounterIs(keys);
    EntriesAre(keys);
    OccurrencesFull(keys, k);
    if CounterOf(keys) == map[k := |keys|] {
      assert CounterOf(keys)[k] == |keys|;
    }
    if forall i :: 0 <= i < |keys| ==> keys[i] == Some(k) {
      assert keys[0] == Some(k);
      assert CounterOf(keys).Keys == {k};
      assert CounterOf(keys)[k] == |keys|;
    }
  }

  /** All counts are the same number exactly when every key that is present occurs so often, and one is. */
  lemma AllCounts(keys: seq<Option<string>>, n: int)
    ensures CounterOf(keys).Values == {n} <==>
      Entries(keys) != {} && forall k :: k in Entries(keys) ==> Occurrences(keys, k) == n
  {
    CounterIs(keys);
    var counter := CounterOf(keys);
    if counter.Values == {n} {
      assert n in counter.Values;
      forall k | k in Entries(keys) ensures Occurrences(keys, k) == n { assert counter[k] in counter.Values; }
    }
    if Entries(keys) != {} && forall k :: k in Entries(keys) ==> Occurrences(keys, k) == n {
      var k :| k in Entries(keys);
      assert counter[k] in counter.Values;
      forall v | v in counter.Values ensures v == n { var e :| e in counter && counter[e] == v; }
    }
  }

  /** The keys without one of them. */
  function Without(keys: seq<Option<string>>, k: string): (rest: seq<Option<string>>)
  {
    if keys == [] then [] else
      Without(keys[..|keys| - 1], k) + [if keys[|keys| - 1] == Some(k) then None else keys[|keys| - 1]]
  }

  lemma {:induction false} WithoutCounts(keys: seq<Option<string>>, k: string)
    ensures Present(keys) == Present(Without(keys, k)) + Occurrences(keys, k)
    ensures Entries(Without(keys, k)) == Entries(keys) - {k}
    ensures forall e :: e != k ==> Occurrences(Without(keys, k), e) == Occurrences(keys, e)
  {
    if keys != [] {
      var n := |keys| - 1;
      WithoutCounts(keys[..n], k);
      var last := if keys[n] == Some(k) then None else keys[n];
      assert (Without(keys[..n], k) + [last])[..|Without(keys[..n], k)|] == Without(keys[..n], k);
    }
  }

  lemma {:induction false} NothingPresent<T>(keys: seq<Option<T>>)
    ensures Entries(keys) == {} ==> Present(keys) == 0
  {
    if keys != [] { NothingPresent(keys[..|keys| - 1]); }
  }

  /** Keys that all occur equally often are as many as there are different ones, times that number. */
  lemma {:induction false} PresentIsProduct(keys: seq<Option<string>>, n: nat)
    requires forall k :: k in Entries(keys) ==> Occurrences(keys, k) == n
    ensures Present(keys) == |Entries(keys)| * n
    decreases |Entries(keys)|
  {
    if Entries(keys) == {} {
      NothingPresent(keys);
    } else {
      var k :| k in Entries(keys);
      WithoutCounts(keys, k);
      PresentIsProduct(Without(keys, k), n);
      var before := |Entries(keys)| - 1;
      assert before * n + n == (before + 1) * n;
    }
  }

  lemma {:induction false} PresentFull<T>(keys: seq<Option<T>>)
    ensures Present(keys) <= |keys|
    ensures Present(keys) == |keys| <==> forall i :: 0 <= i < |keys| ==> keys[i].Some?
  {
    if keys != [] { PresentFull(keys[..|keys| - 1]); }
  }

  /** n different integers with least 0 and greatest n - 1 are 0 to n - 1. */
  lemma {:induction false} FullNumbers(keys: seq<Option<int>>)
    requires keys != []
    ensures |Entries(keys)| == |keys| && MinOf(Entries(keys)) == 0 && MaxOf(Entries(keys)) == |keys| - 1
      <==> AllDifferent(keys) && forall i :: 0 <= i < |keys| ==> 0 <= keys[i].value < |keys|
  {
    FullEntries(keys);
    EntriesAre(keys);
    if AllDifferent(keys) {
      forall i | 0 <= i < |keys| ensures keys[i].value in Entries(keys) { assert Some(keys[i].value) == keys[i]; }
      if forall i :: 0 <= i < |keys| ==> 0 <= keys[i].value < |keys| {
        forall x | x in Entries(keys) ensures 0 <= x < |keys| {
          var i :| 0 <= i < |keys| && keys[i] == Some(x);
        }
        FullRange(Entries(keys), |keys|);
        assert 0 in Entries(keys) && |keys| - 1 in Entries(keys);
      }
    }
  }

  /** Then every number below n stands at exactly one place. */
  lemma EveryNumberOnce(keys: seq<Option<int>>, x: int) returns (i: nat)
    requires AllDifferent(keys) && forall i :: 0 <= i < |keys| ==> 0 <= keys[i].value < |keys|
    requires 0 <= x < |keys|
    ensures i < |keys| && keys[i] == Some(x) && forall j :: 0 <= j < |keys| && keys[j] == Some(x) ==> j == i
  {
    FullNumbers(keys);
    EntriesAre(keys);
    FullEntries(keys);
    assert forall y :: y in Entries(keys) ==> 0 <= y < |keys|;
    FullRange(Entries(keys), |keys|);
    assert Some(x) in keys;
    i :| 0 <= i < |keys| && keys[i] == Some(x);
  }

  /** The positions whose flag is set. */
  function Positions(flags: seq<bool>): set<int>
  {
    set i | 0 <= i < |flags| && flags[i]
  }

  lemma PositionsGrow(flags: seq<bool>, last: bool)
    ensures |Positions(flags + [last])| == |Positions(flags)| + if last then 1 else 0
  {
    assert Positions(flags + [last]) == if last then Positions(flags) + {|flags|} else Positions(flags);
  }
}
