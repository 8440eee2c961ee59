/** Result types and small facts about finite sets shared by every component. */
module Common {

  datatype Option<+T> = None | Some(value: T)

  datatype Result<+T, +E> = Ok(value: T) | Err(error: E)

  /** The least element of a nonempty set of integers (SQL's MIN over a nonempty group). */
  function MinOf(s: set<int>): (m: int)
    requires s != {}
    ensures m in s && forall x :: x in s ==> m <= x
  {
    HasMinimum(s);
    var m :| m in s && forall x :: x in s ==> m <= x;
    m
  }

  lemma HasElement(s: set<int>)
    ensures s == {} || exists x :: x in s
  {
    if forall x :: x !in s { assert s == {}; }
  }

  lemma {:induction false} HasMinimum(s: set<int>)
    requires s != {}
    ensures exists m :: m in s && forall x :: x in s ==> m <= x
  {
    HasElement(s);
    var e :| e in s;
    if s == {e} {
    } else {
      var rest := s - {e};
      assert s == rest + {e};
      HasMinimum(rest);
      var m :| m in rest && forall x :: x in rest ==> m <= x;
      var least := if e < m then e else m;
      assert forall x :: x in s ==> x == e || x in rest;
      assert least in s && forall x :: x in s ==> least <= x;
    }
  }

  /** The greatest element of a nonempty set of integers (SQL's MAX over a nonempty group). */
  function MaxOf(s: set<int>): (m: int)
    requires s != {}
    ensures m in s && forall x :: x in s ==> x <= m
  {
    var negated := set x | x in s :: -x;
    HasElement(s);
    var e :| e in s;
    assert -e in negated;
    var m := -MinOf(negated);
    assert m in s;
    assert forall x :: x in s ==> x <= m by {
      forall x | x in s ensures x <= m { assert -x in negated; }
    }
    m
  }

  /** The sum of f over a finite set of keys (SQL's SUM over the rows of a table). */
  ghost function SumOver<K(!new)>(s: set<K>, f: K -> nat): nat
  {
    if s == {} then 0 else
      var k :| k in s;
      f(k) + SumOver(s - {k}, f)
  }

  lemma {:induction false} SumOverRemove<K(!new)>(s: set<K>, f: K -> nat, k: K)
    requires k in s
    ensures SumOver(s, f) == f(k) + SumOver(s - {k}, f)
    decreases |s|
  {
    var e :| e in s && SumOver(s, f) == f(e) + SumOver(s - {e}, f);
    if e != k {
      SumOverRemove(s - {e}, f, k);
      SumOverRemove(s - {k}, f, e);
      assert s - {e} - {k} == s - {k} - {e};
    }
  }

  lemma {:induction false} SumOverAgrees<K(!new)>(s: set<K>, f: K -> nat, g: K -> nat)
    requires forall k :: k in s ==> f(k) == g(k)
    ensures SumOver(s, f) == SumOver(s, g)
    decreases |s|
  {
    if s != {} {
      var e :| e in s;
      SumOverRemove(s, f, e);
      SumOverRemove(s, g, e);
      SumOverAgrees(s - {e}, f, g);
    }
  }

  lemma {:induction false} SubsetCardinality<T>(a: set<T>, b: set<T>)
    requires a <= b
    ensures |a| <= |b|
    ensures |a| == |b| ==> a == b
  {
    assert b == a + (b - a);
    assert |b| == |a| + |b - a|;
  }

  function RangeSet(n: nat): (r: set<int>)
    ensures forall x :: x in r <==> 0 <= x < n
    ensures |r| == n
  {
    if n == 0 then {} else RangeSet(n - 1) + {n - 1}
  }

  /** A set of n integers inside 0..n-1 is all of them. */
  lemma {:induction false} FullRange(s: set<int>, n: nat)
    requires forall x :: x in s ==> 0 <= x < n
    ensures |s| <= n
    ensures |s| == n ==> forall x :: 0 <= x < n ==> x in s
  {
    assert s <= RangeSet(n);
    SubsetCardinality(s, RangeSet(n));
  }

  ghost predicate Distinct<T>(xs: seq<T>)
  {
    forall i, j :: 0 <= i < j < |xs| ==> xs[i] != xs[j]
  }

  function SetOf<T(==)>(xs: seq<T>): set<T>
  {
    set x | x in xs
  }

  /** A listing is free of repetitions exactly when its set is as large as the listing is long. */
  lemma {:induction false} DistinctCardinality<T>(xs: seq<T>)
    ensures |SetOf(xs)| <= |xs|
    ensures |SetOf(xs)| == |xs| <==> Distinct(xs)
  {
    if xs == [] {
      assert SetOf(xs) == {};
    } else {
      var n := |xs| - 1;
      var front, last := xs[..n], xs[n];
      DistinctCardinality(front);
      assert xs == front + [last];
      assert SetOf(xs) == SetOf(front) + {last};
      if last in front {
        var i :| 0 <= i < n && front[i] == last;
        assert xs[i] == xs[n];
      }
    }
  }

  /** The ASCII characters that Python's strip removes. */
  predicate IsSpace(c: char)
  {
    c == ' ' || 9 <= c as int <= 13 || 28 <= c as int <= 31
  }

  /** text.strip() */
  function Strip(s: string): string
  {
    if s != "" && IsSpace(s[0]) then Strip(s[1..])
    else if s != "" && IsSpace(s[|s| - 1]) then Strip(s[..|s| - 1])
    else s
  }
}
