/** Decimal numbers as text: digit strings and their values, and the numbers a sign, digits and an exponent denote. */
module DecimalText {
  import opened Common

  // ----- digit strings -----

  predicate IsDigit(c: char)
  {
    '0' <= c <= '9'
  }

  predicate AllDigits(s: string)
  {
    forall i :: 0 <= i < |s| ==> IsDigit(s[i])
  }

  function DigitValue(c: char): nat
    requires IsDigit(c)
  {
    c as nat - '0' as nat
  }

  /** The number a digit string denotes; the empty one denotes zero. */
  function ValueOf(s: string): nat
    requires AllDigits(s)
  {
    if s == "" then 0 else 10 * ValueOf(s[..|s| - 1]) + DigitValue(s[|s| - 1])
  }

  function Zeros(k: nat): (z: string)
    ensures |z| == k && AllDigits(z) && forall i :: 0 <= i < k ==> z[i] == '0'
  {
    if k == 0 then "" else Zeros(k - 1) + "0"
  }

  lemma ZerosSplit(a: nat, b: nat)
    ensures Zeros(a) + Zeros(b) == Zeros(a + b)
  {
  }

  lemma ValueMore(s: string, c: char)
    requires AllDigits(s) && IsDigit(c)
    ensures AllDigits(s + [c]) && ValueOf(s + [c]) == 10 * ValueOf(s) + DigitValue(c)
  {
    assert (s + [c])[..|s|] == s;
  }

  /** Equally long digit strings denote the same number only if they are the same. */
  lemma {:induction false} ValueInjective(x: string, y: string)
    requires AllDigits(x) && AllDigits(y) && |x| == |y|
    ensures ValueOf(x) == ValueOf(y) <==> x == y
  {
    if x != "" && ValueOf(x) == ValueOf(y) {
      var n := |x| - 1;
      assert DigitValue(x[n]) == DigitValue(y[n]);
      ValueInjective(x[..n], y[..n]);
      assert x == x[..n] + [x[n]] && y == y[..n] + [y[n]];
    }
  }

  predicate NoLeadingZero(s: string)
  {
    s != "" ==> s[0] != '0'
  }

  predicate NoTrailingZero(s: string)
  {
    s != "" ==> s[|s| - 1] != '0'
  }

  lemma {:induction false} ValuePositive(y: string)
    requires AllDigits(y) && y != "" && NoLeadingZero(y)
    ensures ValueOf(y) > 0
  {
    if |y| > 1 { ValuePositive(y[..|y| - 1]); }
  }

  lemma {:induction false} LongerIsLarger(x: string, y: string)
    requires AllDigits(x) && AllDigits(y) && NoLeadingZero(y) && |x| < |y|
    ensures ValueOf(x) < ValueOf(y)
  {
    if x == "" {
      ValuePositive(y);
    } else {
      LongerIsLarger(x[..|x| - 1], y[..|y| - 1]);
    }
  }

  /** Without leading zeros a number has one digit string. */
  lemma ValueDetermines(x: string, y: string)
    requires AllDigits(x) && AllDigits(y) && NoLeadingZero(x) && NoLeadingZero(y)
    ensures ValueOf(x) == ValueOf(y) <==> x == y
  {
    if |x| < |y| {
      LongerIsLarger(x, y);
    } else if |y| < |x| {
      LongerIsLarger(y, x);
    } else {
      ValueInjective(x, y);
    }
  }

  function StripLeading(s: string): (t: string)
    requires AllDigits(s)
    ensures AllDigits(t) && NoLeadingZero(t)
  {
    if s != "" && s[0] == '0' then StripLeading(s[1..]) else s
  }

  lemma {:induction false} LeadingZeroValue(s: string)
    requires AllDigits(s)
    ensures AllDigits("0" + s) && ValueOf("0" + s) == ValueOf(s)
  {
    if s != "" {
      var n := |s| - 1;
      LeadingZeroValue(s[..n]);
      assert ("0" + s)[..|s|] == "0" + s[..n];
    }
  }

  lemma {:induction false} StripLeadingValue(s: string)
    requires AllDigits(s)
    ensures ValueOf(StripLeading(s)) == ValueOf(s)
  {
    if s != "" && s[0] == '0' {
      StripLeadingValue(s[1..]);
      LeadingZeroValue(s[1..]);
      assert s == "0" + s[1..];
    }
  }

  lemma {:induction false} StripLeadingOf(k: nat, s: string)
    requires AllDigits(s) && NoLeadingZero(s)
    ensures AllDigits(Zeros(k) + s) && StripLeading(Zeros(k) + s) == s
  {
    if k > 0 {
      StripLeadingOf(k - 1, s);
      ZerosSplit(1, k - 1);
      assert (Zeros(k) + s)[1..] == Zeros(k - 1) + s;
    } else {
      assert Zeros(0) + s == s;
    }
  }

  // ----- numbers -----

  /** A finite decimal: a sign, digits without leading zeros (none for zero), and an exponent. */
  datatype Number = Number(negative: bool, digits: string, exponent: int)

  predicate IsNumber(n: Number)
  {
    AllDigits(n.digits) && NoLeadingZero(n.digits)
  }

  /** The number in units of ten to the m, for an m not above its exponent. */
  function Scaled(n: Number, m: int): int
    requires AllDigits(n.digits) && m <= n.exponent
  {
    var v := ValueOf(n.digits + Zeros(n.exponent - m));
    if n.negative then -(v as int) else v
  }

  /** Two decimals denote the same number: equal integers once both are written in the smaller unit. */
  predicate SameNumber(a: Number, b: Number)
    requires AllDigits(a.digits) && AllDigits(b.digits)
  {
    var m := if a.exponent <= b.exponent then a.exponent else b.exponent;
    Scaled(a, m) == Scaled(b, m)
  }

  lemma ScaledShift(n: Number, m: int)
    requires AllDigits(n.digits) && m <= n.exponent
    ensures Scaled(n, m - 1) == 10 * Scaled(n, m)
  {
    var k := n.exponent - m;
    assert n.digits + Zeros(k + 1) == (n.digits + Zeros(k)) + ['0'];
    ValueMore(n.digits + Zeros(k), '0');
  }

  /** Any common unit will do. */
  lemma {:induction false} SameAt(a: Number, b: Number, m: int)
    requires AllDigits(a.digits) && AllDigits(b.digits) && m <= a.exponent && m <= b.exponent
    ensures SameNumber(a, b) <==> Scaled(a, m) == Scaled(b, m)
    decreases a.exponent + b.exponent - m - m
  {
    if m < a.exponent && m < b.exponent {
      SameAt(a, b, m + 1);
      ScaledShift(a, m + 1);
      ScaledShift(b, m + 1);
    }
  }

  lemma SameTransitive(a: Number, b: Number, c: Number)
    requires AllDigits(a.digits) && AllDigits(b.digits) && AllDigits(c.digits) && SameNumber(a, b)
    ensures SameNumber(b, c) <==> SameNumber(a, c)
    ensures SameNumber(b, a)
  {
    var ab := if a.exponent <= b.exponent then a.exponent else b.exponent;
    var m := if ab <= c.exponent then ab else c.exponent;
    SameAt(a, b, m);
    SameAt(b, c, m);
    SameAt(a, c, m);
  }

  /** Moving a trailing zero between digits and exponent changes nothing. */
  lemma TrailingZeroMoves(negative: bool, digits: string, exponent: int, k: nat)
    requires AllDigits(digits)
    ensures AllDigits(digits + Zeros(k)) && SameNumber(Number(negative, digits + Zeros(k), exponent), Number(negative, digits, exponent + k))
  {
    SameText(Number(negative, digits + Zeros(k), exponent), Number(negative, digits, exponent + k), k);
  }

  /** Numbers of one sign whose digits agree once written in a common unit are the same. */
  lemma SameText(long: Number, short: Number, k: nat)
    requires AllDigits(long.digits) && AllDigits(short.digits) && long.negative == short.negative
    requires long.digits == short.digits + Zeros(k) && short.exponent == long.exponent + k
    ensures SameNumber(long, short)
  {
    assert long.digits + Zeros(0) == long.digits;
  }

  // ----- the shortest form -----

  predicate Canonical(n: Number)
  {
    IsNumber(n) && n.digits != "" && NoTrailingZero(n.digits)
  }

  /** Trailing zeros moved into the exponent. */
  function StripTrailing(n: Number): (c: Number)
    requires IsNumber(n)
    ensures IsNumber(c) && NoTrailingZero(c.digits) && c.negative == n.negative
    ensures n.digits != "" ==> c.digits != ""
    decreases |n.digits|
  {
    if n.digits != "" && n.digits[|n.digits| - 1] == '0'
    then StripTrailing(Number(n.negative, n.digits[..|n.digits| - 1], n.exponent + 1))
    else n
  }

  lemma {:induction false} StripTrailingSame(n: Number)
    requires IsNumber(n)
    ensures SameNumber(n, StripTrailing(n))
    decreases |n.digits|
  {
    if n.digits != "" && n.digits[|n.digits| - 1] == '0' {
      var shorter := Number(n.negative, n.digits[..|n.digits| - 1], n.exponent + 1);
      var c := StripTrailing(shorter);
      StripTrailingSame(shorter);
      OneZeroMoves(n, shorter);
      SameTransitive(n, shorter, c);
      assert StripTrailing(n) == c;
    }
  }

  lemma OneZeroMoves(n: Number, shorter: Number)
    requires AllDigits(n.digits) && n.digits != "" && n.digits[|n.digits| - 1] == '0'
    requires shorter == Number(n.negative, n.digits[..|n.digits| - 1], n.exponent + 1)
    ensures SameNumber(n, shorter)
  {
    assert n.digits == shorter.digits + Zeros(1);
    TrailingZeroMoves(n.negative, shorter.digits, n.exponent, 1);
  }

  /** What is left is at most k digits exactly when all digits behind the first k are zeros. */
  lemma {:induction false} StripTrailingLength(n: Number, k: nat)
    requires IsNumber(n)
    ensures |StripTrailing(n).digits| <= k <==> forall i :: k <= i < |n.digits| ==> n.digits[i] == '0'
    decreases |n.digits|
  {
    if n.digits != "" {
      var last := |n.digits| - 1;
      if n.digits[last] == '0' {
        StripTrailingLength(Number(n.negative, n.digits[..last], n.exponent + 1), k);
        assert forall i :: 0 <= i < last ==> n.digits[..last][i] == n.digits[i];
      } else {
        assert k <= last ==> !(forall i :: k <= i < |n.digits| ==> n.digits[i] == '0');
      }
    }
  }

  lemma {:induction false} StripTrailingOf(n: Number, k: nat)
    requires IsNumber(n) && n.digits != "" && NoTrailingZero(n.digits)
    ensures var padded := Number(n.negative, n.digits + Zeros(k), n.exponent - k); IsNumber(padded) && StripTrailing(padded) == n
  {
    if k > 0 {
      StripTrailingOf(n, k - 1);
      assert (n.digits + Zeros(k))[..|n.digits| + k - 1] == n.digits + Zeros(k - 1);
    } else {
      assert n.digits + Zeros(0) == n.digits;
    }
  }

  /** A number other than zero has one canonical form. */
  lemma CanonicalUnique(a: Number, b: Number)
    requires Canonical(a) && Canonical(b) && SameNumber(a, b)
    ensures a == b
  {
    if a.exponent >= b.exponent { CanonicalNotLonger(a, b); } else { SameTransitive(a, b, a); CanonicalNotLonger(b, a); }
  }

  lemma CanonicalNotLonger(a: Number, b: Number)
    requires Canonical(a) && Canonical(b) && SameNumber(a, b) && a.exponent >= b.exponent
    ensures a == b
  {
    var k := a.exponent - b.exponent;
    var padded := a.digits + Zeros(k);
    assert k > 0 ==> padded[|padded| - 1] == '0';
    assert b.digits + Zeros(0) == b.digits;
    assert NoLeadingZero(padded);
    ValuePositive(padded);
    ValuePositive(b.digits);
    ValueDetermines(padded, b.digits);
  }

  /** Two decimals denote the same number exactly when both are zero or have the same canonical form. */
  lemma SameExactly(a: Number, b: Number)
    requires IsNumber(a) && IsNumber(b)
    ensures SameNumber(a, b) <==> if a.digits == "" || b.digits == "" then a.digits == b.digits else StripTrailing(a) == StripTrailing(b)
  {
    if a.digits == "" || b.digits == "" {
      ZeroExactly(a, b);
    } else {
      var c, d := StripTrailing(a), StripTrailing(b);
      StripTrailingSame(a);
      StripTrailingSame(b);
      SameTransitive(a, c, b);
      SameTransitive(b, d, c);
      if SameNumber(a, b) {
        SameTransitive(c, b, d);
        CanonicalUnique(c, d);
      }
      if c == d {
        SameTransitive(b, d, a);
      }
    }
  }

  lemma ZeroExactly(a: Number, b: Number)
    requires IsNumber(a) && IsNumber(b) && (a.digits == "" || b.digits == "")
    ensures SameNumber(a, b) <==> a.digits == b.digits
  {
    var m := if a.exponent <= b.exponent then a.exponent else b.exponent;
    ScaledZero(a, m);
    ScaledZero(b, m);
  }

  lemma ScaledZero(n: Number, m: int)
    requires IsNumber(n) && m <= n.exponent
    ensures Scaled(n, m) == 0 <==> n.digits == ""
  {
    var k := n.exponent - m;
    if n.digits == "" {
      assert n.digits + Zeros(k) == Zeros(k);
      ZerosValue(k);
    } else {
      ValuePositive(n.digits + Zeros(k));
    }
  }

  lemma {:induction false} ZerosValue(k: nat)
    ensures ValueOf(Zeros(k)) == 0
  {
    if k > 0 {
      ZerosValue(k - 1);
      ValueMore(Zeros(k - 1), '0');
    }
  }
}
