/** The (activity, event id) order every event query sorts by, and strictly ordered listings of a set of keys. */
module KeyOrder {
  import opened TextOrder

  datatype Key = Key(activity: int, eventId: string)

  predicate KeyLess(a: Key, b: Key)
  {
    a.activity < b.activity || (a.activity == b.activity && TextLess(a.eventId, b.eventId))
  }

  lemma KeyLessTotal(a: Key, b: Key)
    ensures a == b || KeyLess(a, b) || KeyLess(b, a)
    ensures !(KeyLess(a, b) && KeyLess(b, a))
    ensures a == b ==> !KeyLess(a, b)
  {
    TextLessTotal(a.eventId, b.eventId);
  }

  lemma KeyLessTransitive(a: Key, b: Key, c: Key)
    requires KeyLess(a, b) && KeyLess(b, c)
    ensures KeyLess(a, c)
  {
    if a.activity == b.activity == c.activity {
      TextLessTransitive(a.eventId, b.eventId, c.eventId);
    }
  }

  predicate IsFirst(m: Key, s: set<Key>)
  {
    m in s && forall k :: k in s && k != m ==> KeyLess(m, k)
  }

  lemma {:induction false} HasFirst(s: set<Key>)
    requires s != {}
    ensures exists m :: IsFirst(m, s)
    ensures forall m, n :: IsFirst(m, s) && IsFirst(n, s) ==> m == n
  {
    var e :| e in s;
    if s != {e} {
      var rest := s - {e};
      assert s == rest + {e};
      HasFirst(rest);
      var m :| IsFirst(m, rest);
      KeyLessTotal(e, m);
      if KeyLess(e, m) {
        forall k | k in s && k != e ensures KeyLess(e, k) {
          if k != m { KeyLessTransitive(e, m, k); }
        }
        assert IsFirst(e, s);
      } else {
        assert IsFirst(m, s);
      }
    } else {
      assert IsFirst(e, s);
    }
    forall m, n | IsFirst(m, s) && IsFirst(n, s) ensures m == n { KeyLessTotal(m, n); }
  }

  function First(s: set<Key>): (m: Key)
    requires s != {}
    ensures IsFirst(m, s)
  {
    HasFirst(s);
    var m :| IsFirst(m, s) && m in s;
    m
  }

  /** ORDER BY activity, event_id over a set of rows. */
  function Ordered(s: set<Key>): (r: seq<Key>)
    ensures |r| == |s|
  {
    if s == {} then [] else [First(s)] + Ordered(s - {First(s)})
  }

  ghost predicate Increasing(ks: seq<Key>)
  {
    forall i, j :: 0 <= i < j < |ks| ==> KeyLess(ks[i], ks[j])
  }

  lemma {:induction false} OrderedIsIncreasing(s: set<Key>)
    ensures Increasing(Ordered(s))
    ensures forall k :: k in Ordered(s) <==> k in s
  {
    if s != {} {
      OrderedIsIncreasing(s - {First(s)});
    }
  }

  /** An increasing listing is determined by the keys it lists. */
  lemma {:induction false} IncreasingIsUnique(a: seq<Key>, b: seq<Key>)
    requires Increasing(a) && Increasing(b)
    requires forall k :: k in a <==> k in b
    ensures a == b
  {
    assert forall i :: 0 <= i < |a| ==> a[i] in b;
    assert forall i :: 0 <= i < |b| ==> b[i] in a;
    if a != [] && b != [] {
      KeyLessTotal(a[0], b[0]);
      assert a[0] in b && b[0] in a;
      assert a[0] == b[0];
      forall k ensures k in a[1..] <==> k in b[1..] {
        KeyLessTotal(a[0], a[0]);
        assert k in a[1..] ==> k in a && k != a[0];
        assert k in b[1..] ==> k in b && k != b[0];
        assert a == [a[0]] + a[1..] && b == [b[0]] + b[1..];
      }
      IncreasingIsUnique(a[1..], b[1..]);
      assert a == [a[0]] + a[1..] && b == [b[0]] + b[1..];
    }
  }

  lemma IncreasingJoin(a: seq<Key>, b: seq<Key>)
    requires Increasing(a) && Increasing(b)
    requires a != [] && forall i :: 0 <= i < |b| ==> KeyLess(a[|a| - 1], b[i])
    ensures Increasing(a + b)
  {
    forall i, j | 0 <= i < j < |a + b| ensures KeyLess((a + b)[i], (a + b)[j]) {
      if i < |a| <= j && i < |a| - 1 {
        KeyLessTransitive(a[i], a[|a| - 1], b[j - |a|]);
      }
    }
  }
}
