/** Lexicographic order on text, and sorting by a text key. */
module TextOrder {

  predicate TextLess(a: string, b: string)
  {
    if b == "" then false
    else if a == "" then true
    else if a[0] != b[0] then a[0] < b[0]
    else TextLess(a[1..], b[1..])
  }

  lemma {:induction false} TextLessTotal(a: string, b: string)
    ensures a == b || TextLess(a, b) || TextLess(b, a)
    ensures !(TextLess(a, b) && TextLess(b, a))
    ensures a == b ==> !TextLess(a, b)
  {
    if a != "" && b != "" && a[0] == b[0] {
      TextLessTotal(a[1..], b[1..]);
      assert a == [a[0]] + a[1..] && b == [b[0]] + b[1..];
    }
  }

  lemma {:induction false} TextLessTransitive(a: string, b: string, c: string)
    requires TextLess(a, b) && TextLess(b, c)
    ensures TextLess(a, c)
  {
    if a != "" && a[0] == b[0] && b[0] == c[0] {
      TextLessTransitive(a[1..], b[1..], c[1..]);
    }
  }

  /** Python's stable list.sort(key=...): insert every item after those whose key is not greater. */
  function SortByText<V>(xs: seq<V>, key: V -> string): (ys: seq<V>)
    ensures |ys| == |xs|
  {
    if xs == [] then [] else InsertByText(SortByText(xs[..|xs| - 1], key), xs[|xs| - 1], key)
  }

  function InsertByText<V>(ys: seq<V>, x: V, key: V -> string): (zs: seq<V>)
    ensures |zs| == |ys| + 1
  {
    if ys == [] then [x]
    else if TextLess(key(x), key(ys[|ys| - 1])) then InsertByText(ys[..|ys| - 1], x, key) + [ys[|ys| - 1]]
    else ys + [x]
  }

  ghost predicate SortedByText<V>(ys: seq<V>, key: V -> string)
  {
    forall i, j :: 0 <= i < j < |ys| ==> !TextLess(key(ys[j]), key(ys[i]))
  }

  lemma {:induction false} InsertIsSorted<V>(ys: seq<V>, x: V, key: V -> string)
    requires SortedByText(ys, key)
    ensures SortedByText(InsertByText(ys, x, key), key)
    ensures multiset(InsertByText(ys, x, key)) == multiset(ys) + multiset{x}
  {
    var zs := InsertByText(ys, x, key);
    if ys != [] {
      var n := |ys|;
      var last := ys[n - 1];
      assert ys == ys[..n - 1] + [last];
      if TextLess(key(x), key(last)) {
        InsertIsSorted(ys[..n - 1], x, key);
        var front := InsertByText(ys[..n - 1], x, key);
        assert zs == front + [last];
        forall i | 0 <= i < n ensures !TextLess(key(last), key(zs[i])) {
          assert zs[i] in multiset(front);
          assert zs[i] == x || zs[i] in ys[..n - 1];
          if zs[i] == x { TextLessTotal(key(x), key(last)); }
        }
      } else {
        forall i | 0 <= i < n ensures !TextLess(key(x), key(ys[i])) {
          if i < n - 1 && TextLess(key(x), key(ys[i])) {
            TextLessTotal(key(ys[i]), key(last));
            if key(ys[i]) != key(last) { TextLessTransitive(key(x), key(ys[i]), key(last)); }
          }
        }
      }
    }
  }

  lemma {:induction false} SortIsSorted<V>(xs: seq<V>, key: V -> string)
    ensures SortedByText(SortByText(xs, key), key)
    ensures multiset(SortByText(xs, key)) == multiset(xs)
  {
    if xs != [] {
      var n := |xs|;
      var front := SortByText(xs[..n - 1], key);
      SortIsSorted(xs[..n - 1], key);
      InsertIsSorted(front, xs[n - 1], key);
      assert SortByText(xs, key) == InsertByText(front, xs[n - 1], key);
      assert multiset(xs) == multiset(xs[..n - 1]) + multiset{xs[n - 1]} by {
        assert xs == xs[..n - 1] + [xs[n - 1]];
      }
    }
  }
}
