/** The decimal and time normal forms under the source identity, and the record identity itself. */
module Identity {
  import opened Common
  import opened DecimalText

  // ----- text -----

  function WithoutUnderscores(s: string): string
  {
    if s == "" then ""
    else WithoutUnderscores(s[..|s| - 1]) + if s[|s| - 1] == '_' then "" else [s[|s| - 1]]
  }

  /** The first place of one of two characters, or the length. */
  function FirstOf(s: string, a: char, b: char): (i: nat)
    ensures i <= |s| && (i < |s| ==> s[i] == a || s[i] == b) && forall j :: 0 <= j < i ==> s[j] != a && s[j] != b
  {
    if s == "" || s[0] == a || s[0] == b then 0 else FirstOf(s[1..], a, b) + 1
  }

  lemma {:induction false} FirstAt(s: string, a: char, b: char, i: nat)
    requires i <= |s| && (i < |s| ==> s[i] == a || s[i] == b) && forall j :: 0 <= j < i ==> s[j] != a && s[j] != b
    ensures FirstOf(s, a, b) == i
  {
    if i > 0 { FirstAt(s[1..], a, b, i - 1); }
  }

  // ----- Decimal(text) -----

  /** A sign is one leading plus or minus. */
  predicate Signed(s: string)
  {
    s != "" && (s[0] == '+' || s[0] == '-')
  }

  function Unsigned(s: string): string
  {
    if Signed(s) then s[1..] else s
  }

  predicate Minus(s: string)
  {
    s != "" && s[0] == '-'
  }

  /** A signed run of digits. */
  function ParseInteger(s: string): Option<int>
  {
    var digits := Unsigned(s);
    if digits == "" || !AllDigits(digits) then None
    else if Minus(s) then Some(-(ValueOf(digits) as int)) else Some(ValueOf(digits))
  }

  /** Digits with at most one point among them. */
  function ParseMantissa(negative: bool, s: string, exponent: int): (r: Option<Number>)
    ensures r.Some? ==> IsNumber(r.value)
  {
    var point := FirstOf(s, '.', '.');
    var fraction := if point == |s| then "" else s[point + 1..];
    var digits := s[..point] + fraction;
    if digits == "" || !AllDigits(digits) then None else Some(Number(negative, StripLeading(digits), exponent - |fraction|))
  }

  /** The finite decimals of Python's Decimal constructor: sign, digits with an optional point, and an optional exponent. */
  function ParseDecimal(text: string): (r: Option<Number>)
    ensures r.Some? ==> IsNumber(r.value)
  {
    var s := WithoutUnderscores(Strip(text));
    var body := Unsigned(s);
    var e := FirstOf(body, 'e', 'E');
    var exponent := if e == |body| then Some(0) else ParseInteger(body[e + 1..]);
    if exponent.None? then None else ParseMantissa(Minus(s), body[..e], exponent.value)
  }

  // ----- rounding to the context's 28 digits -----

  const PRECISION: nat := 28

  /** The digit string of the next number. */
  function Increment(s: string): (t: string)
    requires AllDigits(s)
    ensures AllDigits(t) && t != "" && ValueOf(t) == ValueOf(s) + 1
    ensures NoLeadingZero(s) ==> NoLeadingZero(t)
  {
    if s == "" then assert ValueOf("1"[..0]) == 0; "1" else
      var n := |s| - 1;
      if s[n] == '9' then
        var t := Increment(s[..n]) + "0";
        assert t[..|t| - 1] == Increment(s[..n]);
        t
      else
        var t := s[..n] + [s[n] + 1 as char];
        assert t[..n] == s[..n];
        t
  }

  predicate AllZeros(s: string)
  {
    forall i :: 0 <= i < |s| ==> s[i] == '0'
  }

  /** Half to even: up when the dropped digits exceed one half, or are one half behind an odd digit. */
  predicate RoundsUp(head: string, tail: string)
    requires AllDigits(head) && AllDigits(tail) && head != "" && tail != ""
  {
    if tail[0] == '5' && AllZeros(tail[1..]) then DigitValue(head[|head| - 1]) % 2 == 1 else tail[0] >= '5'
  }

  function Rounded(n: Number): (r: Number)
    requires IsNumber(n)
    ensures IsNumber(r) && r.negative == n.negative
    ensures n.digits != "" ==> r.digits != ""
  {
    if |n.digits| <= PRECISION then n else
      var head, tail := n.digits[..PRECISION], n.digits[PRECISION..];
      Number(n.negative, if RoundsUp(head, tail) then Increment(head) else head, n.exponent + |tail|)
  }

  /** Decimal.normalize: rounded to the context, without trailing zeros. */
  function Normal(n: Number): (c: Number)
    requires IsNumber(n)
    ensures IsNumber(c) && (n.digits != "" ==> Canonical(c))
  {
    StripTrailing(Rounded(n))
  }

  // ----- format(number, "f") -----

  function FormatDigits(digits: string, exponent: int): string
  {
    if exponent >= 0 then digits + Zeros(exponent)
    else if |digits| > -exponent then digits[..|digits| + exponent] + "." + digits[|digits| + exponent..]
    else "0" + "." + (Zeros(-exponent - |digits|) + digits)
  }

  function Format(n: Number): string
  {
    (if n.negative then "-" else "") + FormatDigits(n.digits, n.exponent)
  }

  /** normalize_decimal: None where it raises ValueError. */
  function NormalizeDecimal(value: string): Option<string>
  {
    match ParseDecimal(value)
    case None => None
    case Some(n) =>
      if n.digits == "" then Some("0") else Some(Format(Normal(n)))
  }

  // ----- reading a formatted number back -----

  predicate Plain(s: string)
  {
    forall i :: 0 <= i < |s| ==> IsDigit(s[i]) || s[i] == '.' || s[i] == '-'
  }

  lemma {:induction false} PlainText(s: string)
    requires Plain(s)
    ensures Strip(s) == s && WithoutUnderscores(s) == s
  {
    PlainWithoutUnderscores(s);
  }

  lemma {:induction false} PlainWithoutUnderscores(s: string)
    requires Plain(s)
    ensures WithoutUnderscores(s) == s
  {
    if s != "" {
      PlainWithoutUnderscores(s[..|s| - 1]);
      assert s == s[..|s| - 1] + [s[|s| - 1]];
    }
  }

  /** Unsigned text without letters is all mantissa. */
  lemma ParsePlain(negative: bool, body: string)
    requires Plain(body) && body != "" && body[0] != '-'
    ensures ParseDecimal((if negative then "-" else "") + body) == ParseMantissa(negative, body, 0)
  {
    var s := (if negative then "-" else "") + body;
    PlainText(s);
    assert Unsigned(s) == body && Minus(s) == negative;
    FirstAt(body, 'e', 'E', |body|);
    assert body[..|body|] == body;
  }

  lemma MantissaWhole(negative: bool, digits: string)
    requires AllDigits(digits) && digits != ""
    ensures ParseMantissa(negative, digits, 0) == Some(Number(negative, StripLeading(digits), 0))
  {
    FirstAt(digits, '.', '.', |digits|);
    assert digits[..|digits|] + "" == digits;
  }

  lemma MantissaPoint(negative: bool, whole: string, fraction: string)
    requires AllDigits(whole) && AllDigits(fraction) && whole + fraction != ""
    ensures ParseMantissa(negative, whole + "." + fraction, 0) == Some(Number(negative, StripLeading(whole + fraction), -|fraction|))
  {
    FirstPoint(whole, fraction);
  }

  lemma FirstPoint(whole: string, fraction: string)
    requires AllDigits(whole)
    ensures var s := whole + "." + fraction;
      FirstOf(s, '.', '.') == |whole| < |s| && s[..|whole|] == whole && s[|whole| + 1..] == fraction
  {
    var s := whole + "." + fraction;
    assert s[|whole|] == '.';
    assert forall j :: 0 <= j < |whole| ==> IsDigit(whole[j]) && s[j] == whole[j];
    FirstAt(s, '.', '.', |whole|);
  }

  /** What a formatted number reads back as: itself, or with its exponent written out as zeros. */
  function ReadBack(n: Number): Number
  {
    if n.exponent >= 0 then Number(n.negative, n.digits + Zeros(n.exponent), 0) else n
  }

  lemma FormatReadsBack(n: Number)
    requires IsNumber(n) && n.digits != ""
    ensures ParseDecimal(Format(n)) == Some(ReadBack(n)) && IsNumber(ReadBack(n))
  {
    if n.exponent >= 0 {
      WholeReadsBack(n.negative, n.digits + Zeros(n.exponent));
    } else {
      PointedReadsBack(n);
    }
  }

  lemma PointedReadsBack(n: Number)
    requires IsNumber(n) && n.digits != "" && n.exponent < 0
    ensures ParseDecimal(Format(n)) == Some(n)
  {
    var whole, fraction := FormatPointed(n);
    ParsePointed(n.negative, whole, fraction);
  }

  /** A formatted number with a negative exponent has a point, with as many digits behind it. */
  lemma FormatPointed(n: Number) returns (whole: string, fraction: string)
    requires IsNumber(n) && n.digits != "" && n.exponent < 0
    ensures AllDigits(whole) && AllDigits(fraction) && whole != ""
    ensures Format(n) == (if n.negative then "-" else "") + (whole + "." + fraction)
    ensures StripLeading(whole + fraction) == n.digits && |fraction| == -n.exponent
  {
    var k := |n.digits| + n.exponent;
    if k > 0 {
      whole, fraction := n.digits[..k], n.digits[k..];
      assert whole + fraction == n.digits;
      StripLeadingOf(0, n.digits);
      assert Zeros(0) + n.digits == n.digits;
    } else {
      whole, fraction := "0", Zeros(-k) + n.digits;
      StripLeadingZeros(-k, n.digits);
    }
  }

  lemma WholeReadsBack(negative: bool, digits: string)
    requires AllDigits(digits) && digits != "" && NoLeadingZero(digits)
    ensures ParseDecimal((if negative then "-" else "") + digits) == Some(Number(negative, digits, 0))
  {
    ParsePlain(negative, digits);
    MantissaWhole(negative, digits);
    StripLeadingOf(0, digits);
    assert Zeros(0) + digits == digits;
  }

  lemma ParsePointed(negative: bool, whole: string, fraction: string)
    requires AllDigits(whole) && AllDigits(fraction) && whole != ""
    ensures ParseDecimal((if negative then "-" else "") + (whole + "." + fraction))
         == Some(Number(negative, StripLeading(whole + fraction), -|fraction|))
  {
    ParsePlain(negative, whole + "." + fraction);
    MantissaPoint(negative, whole, fraction);
  }

  lemma StripLeadingZeros(k: nat, digits: string)
    requires AllDigits(digits) && NoLeadingZero(digits)
    ensures AllDigits("0" + (Zeros(k) + digits)) && StripLeading("0" + (Zeros(k) + digits)) == digits
  {
    assert Zeros(1) == "0";
    ZerosSplit(1, k);
    StripLeadingOf(k + 1, digits);
    assert "0" + (Zeros(k) + digits) == Zeros(k + 1) + digits;
  }

  lemma ReadBackSame(n: Number)
    requires IsNumber(n) && n.digits != ""
    ensures IsNumber(ReadBack(n)) && SameNumber(n, ReadBack(n))
  {
    if n.exponent >= 0 {
      TrailingZeroMoves(n.negative, n.digits, 0, n.exponent);
      SameTransitive(ReadBack(n), n, n);
    }
  }

  // ----- what rounding changes -----

  /** How many digits are significant, trailing zeros not counted. */
  function SignificantDigits(n: Number): nat
    requires IsNumber(n)
  {
    |StripTrailing(n).digits|
  }

  lemma {:induction false} ValueAppend(head: string, tail: string, more: string)
    requires AllDigits(head) && AllDigits(tail) && AllDigits(more) && |tail| == |more|
    ensures AllDigits(head + tail) && AllDigits(head + more)
    ensures ValueOf(head + tail) - ValueOf(head + more) == ValueOf(tail) - ValueOf(more)
  {
    var k := |tail| - 1;
    if tail == "" {
      assert head + tail == head && head + more == head;
    } else {
      ValueAppend(head, tail[..k], more[..k]);
      assert (head + tail)[..|head| + k] == head + tail[..k];
      assert (head + more)[..|head| + k] == head + more[..k];
    }
  }

  /** One more in front outweighs any digits behind. */
  lemma {:induction false} NextOutweighs(head: string, next: string, tail: string)
    requires AllDigits(head) && AllDigits(next) && AllDigits(tail) && ValueOf(next) == ValueOf(head) + 1
    ensures AllDigits(head + tail) && AllDigits(next + Zeros(|tail|))
    ensures ValueOf(head + tail) < ValueOf(next + Zeros(|tail|))
  {
    if tail == "" {
      assert head + tail == head && next + Zeros(0) == next;
    } else {
      var k := |tail| - 1;
      NextOutweighs(head, next, tail[..k]);
      assert (head + tail)[..|head| + k] == head + tail[..k];
      assert (next + Zeros(k + 1))[..|next| + k] == next + Zeros(k);
    }
  }

  /** Rounding keeps the number exactly when it drops zeros only. */
  lemma RoundedSameExactly(n: Number)
    requires IsNumber(n)
    ensures SameNumber(n, Rounded(n)) <==> forall i :: PRECISION <= i < |n.digits| ==> n.digits[i] == '0'
  {
    if |n.digits| > PRECISION {
      var head, tail := n.digits[..PRECISION], n.digits[PRECISION..];
      assert n.digits == head + tail && n.digits + Zeros(0) == n.digits;
      if RoundsUp(head, tail) {
        NextOutweighs(head, Increment(head), tail);
        assert tail[0] != '0';
      } else {
        ValueInjective(n.digits, head + Zeros(|tail|));
        SameTail(n.digits, head, tail);
      }
      RoundedScaled(n, Rounded(n), |tail|);
    }
  }

  // ----- rounding is to the nearest, ties to even -----

  /** Ten to the k. */
  function Unit(k: nat): nat
  {
    if k == 0 then 1 else 10 * Unit(k - 1)
  }

  lemma {:induction false} NextIsUnitAway(head: string, next: string, k: nat)
    requires AllDigits(head) && AllDigits(next) && ValueOf(next) == ValueOf(head) + 1
    ensures ValueOf(next + Zeros(k)) == ValueOf(head + Zeros(k)) + Unit(k)
  {
    if k == 0 {
      assert head + Zeros(0) == head && next + Zeros(0) == next;
    } else {
      NextIsUnitAway(head, next, k - 1);
      ZeroBehind(head, k);
      ZeroBehind(next, k);
    }
  }

  /** One more zero multiplies by ten. */
  lemma ZeroBehind(s: string, k: nat)
    requires AllDigits(s) && k > 0
    ensures ValueOf(s + Zeros(k)) == 10 * ValueOf(s + Zeros(k - 1))
  {
    assert s + Zeros(k) == (s + Zeros(k - 1)) + ['0'];
    ValueMore(s + Zeros(k - 1), '0');
  }

  /** Digits that start with 5 or more denote at least half a unit, and those that start lower denote less. */
  lemma {:induction false} HalfUnit(tail: string)
    requires AllDigits(tail) && tail != ""
    ensures tail[0] >= '5' ==> 2 * ValueOf(tail) >= Unit(|tail|)
    ensures tail[0] < '5' ==> 2 * ValueOf(tail) + 2 <= Unit(|tail|)
    ensures 2 * ValueOf(tail) == Unit(|tail|) <==> tail[0] == '5' && AllZeros(tail[1..])
  {
    var k := |tail| - 1;
    if k == 0 {
      assert tail[..0] == "" && Unit(1) == 10 * Unit(0);
    } else {
      HalfUnit(tail[..k]);
      assert tail[1..] == tail[..k][1..] + [tail[k]];
      ZerosBehind(tail[..k][1..], tail[k]);
      assert tail[..k][0] == tail[0];
    }
  }

  lemma ZerosBehind(s: string, c: char)
    ensures AllZeros(s + [c]) <==> AllZeros(s) && c == '0'
  {
    var t := s + [c];
    if AllZeros(t) {
      forall i | 0 <= i < |s| ensures s[i] == '0' { assert t[i] == '0'; }
      assert t[|s|] == '0';
    }
  }

  lemma IncrementParity(s: string)
    requires AllDigits(s) && s != ""
    ensures DigitValue(Increment(s)[|Increment(s)| - 1]) % 2 != DigitValue(s[|s| - 1]) % 2
  {
    LastOfIncrement(s);
    NextParity(DigitValue(s[|s| - 1]));
  }

  lemma NextParity(d: nat)
    requires d <= 9
    ensures (if d == 9 then 0 else d + 1) % 2 != d % 2
  {
  }

  lemma LastOfIncrement(s: string)
    requires AllDigits(s) && s != ""
    ensures var n, t := |s| - 1, Increment(s);
      DigitValue(t[|t| - 1]) == if DigitValue(s[n]) == 9 then 0 else DigitValue(s[n]) + 1
  {
    var n, t := |s| - 1, Increment(s);
    if s[n] == '9' {
      assert t[|t| - 1] == '0';
    } else {
      assert t[|t| - 1] == s[n] + 1 as char;
    }
  }

  /**
   * What rounding drops or adds is at most half a unit of the last place kept, and on a tie the last digit kept is even:
   * the context's half-to-even rounding.
   */
  lemma RoundingIsNearestEven(n: Number)
    requires IsNumber(n) && |n.digits| > PRECISION
    ensures var r, k := Rounded(n), |n.digits| - PRECISION;
      r.exponent == n.exponent + k && NearestEven(ValueOf(n.digits), ValueOf(r.digits + Zeros(k)), Unit(k), r.digits)
  {
    NearestOfHead(n.digits[..PRECISION], n.digits[PRECISION..]);
    assert n.digits == n.digits[..PRECISION] + n.digits[PRECISION..];
  }

  predicate NearestEven(exact: int, rounded: int, unit: int, digits: string)
    requires AllDigits(digits)
  {
    && -unit <= 2 * (rounded - exact) <= unit
    && (2 * (rounded - exact) == unit || 2 * (exact - rounded) == unit ==> digits != "" && DigitValue(digits[|digits| - 1]) % 2 == 0)
  }

  lemma NearestOfHead(head: string, tail: string)
    requires AllDigits(head) && AllDigits(tail) && head != "" && tail != ""
    ensures AllDigits(head + tail)
    ensures var digits := if RoundsUp(head, tail) then Increment(head) else head;
      NearestEven(ValueOf(head + tail), ValueOf(digits + Zeros(|tail|)), Unit(|tail|), digits)
  {
    if RoundsUp(head, tail) { NearestAbove(head, tail); } else { NearestBelow(head, tail); }
  }

  lemma DroppedTail(head: string, tail: string)
    requires AllDigits(head) && AllDigits(tail)
    ensures AllDigits(head + tail) && ValueOf(head + tail) - ValueOf(head + Zeros(|tail|)) == ValueOf(tail)
  {
    ValueAppend(head, tail, Zeros(|tail|));
    ZerosValue(|tail|);
  }

  lemma NearestAbove(head: string, tail: string)
    requires AllDigits(head) && AllDigits(tail) && head != "" && tail != "" && RoundsUp(head, tail)
    ensures AllDigits(head + tail)
    ensures NearestEven(ValueOf(head + tail), ValueOf(Increment(head) + Zeros(|tail|)), Unit(|tail|), Increment(head))
  {
    DroppedTail(head, tail);
    HalfUnit(tail);
    NextIsUnitAway(head, Increment(head), |tail|);
    IncrementParity(head);
    TailBelowUnit(tail);
  }

  lemma {:induction false} TailBelowUnit(tail: string)
    requires AllDigits(tail)
    ensures ValueOf(tail) < Unit(|tail|)
  {
    if tail != "" { TailBelowUnit(tail[..|tail| - 1]); }
  }

  lemma NearestBelow(head: string, tail: string)
    requires AllDigits(head) && AllDigits(tail) && head != "" && tail != "" && !RoundsUp(head, tail)
    ensures AllDigits(head + tail)
    ensures NearestEven(ValueOf(head + tail), ValueOf(head + Zeros(|tail|)), Unit(|tail|), head)
  {
    DroppedTail(head, tail);
    HalfUnit(tail);
  }

  lemma SameTail(digits: string, head: string, tail: string)
    requires digits == head + tail
    ensures digits == head + Zeros(|tail|) <==> forall i :: |head| <= i < |digits| ==> digits[i] == '0'
  {
    if forall i :: |head| <= i < |digits| ==> digits[i] == '0' {
      forall i | 0 <= i < |tail| ensures tail[i] == Zeros(|tail|)[i] { assert digits[|head| + i] == '0'; }
    }
    if digits == head + Zeros(|tail|) {
      forall i | |head| <= i < |digits| ensures digits[i] == '0' { assert (head + Zeros(|tail|))[i] == Zeros(|tail|)[i - |head|]; }
    }
  }

  lemma RoundedScaled(n: Number, r: Number, k: nat)
    requires AllDigits(n.digits) && AllDigits(r.digits) && r.negative == n.negative && r.exponent == n.exponent + k
    ensures SameNumber(n, r) <==> ValueOf(n.digits) == ValueOf(r.digits + Zeros(k))
  {
    assert n.digits + Zeros(0) == n.digits;
  }

  // ----- main results on decimals -----

  /** A decimal is normalised exactly when it is a finite decimal, and what comes out reads back as a decimal. */
  lemma NormalizedReadsBack(value: string)
    ensures NormalizeDecimal(value).Some? <==> ParseDecimal(value).Some?
    ensures NormalizeDecimal(value).Some? ==> ParseDecimal(NormalizeDecimal(value).value).Some?
    ensures NormalizeDecimal(value).Some? && ParseDecimal(value).value.digits != "" ==>
      ParseDecimal(NormalizeDecimal(value).value) == Some(ReadBack(Normal(ParseDecimal(value).value)))
    ensures NormalizeDecimal(value).Some? && ParseDecimal(value).value.digits == "" ==>
      ParseDecimal(NormalizeDecimal(value).value) == Some(Number(false, "", 0))
  {
    if ParseDecimal(value).Some? {
      var n := ParseDecimal(value).value;
      if n.digits == "" {
        ParsePlain(false, "0");
        assert "" + "0" == "0";
        MantissaWhole(false, "0");
        assert StripLeading("0") == "";
      } else {
        FormatReadsBack(Normal(n));
      }
    }
  }

  /** The output denotes the input's number if and only if the input has at most 28 significant digits. */
  lemma NormalizeKeepsTheNumber(value: string)
    requires ParseDecimal(value).Some?
    ensures NormalizeDecimal(value).Some? && ParseDecimal(NormalizeDecimal(value).value).Some?
    ensures var n, back := ParseDecimal(value).value, ParseDecimal(NormalizeDecimal(value).value).value;
      SameNumber(n, back) <==> SignificantDigits(n) <= PRECISION
  {
    var n := ParseDecimal(value).value;
    NormalizedReadsBack(value);
    StripTrailingLength(n, PRECISION);
    if n.digits == "" {
      ZeroExactly(n, Number(false, "", 0));
    } else {
      RoundedSameExactly(n);
      NormalSameAsRounded(n);
    }
  }

  /** Stripping and formatting lose nothing that rounding has left. */
  lemma NormalSameAsRounded(n: Number)
    requires IsNumber(n) && n.digits != ""
    ensures IsNumber(ReadBack(Normal(n))) && (SameNumber(n, ReadBack(Normal(n))) <==> SameNumber(n, Rounded(n)))
  {
    var r, c := Rounded(n), Normal(n);
    StripTrailingSame(r);
    ReadBackSame(c);
    SameTransitive(r, c, n);
    SameTransitive(c, ReadBack(c), n);
    SameSymmetric(n, r);
    SameSymmetric(n, ReadBack(c));
  }

  lemma SameSymmetric(a: Number, b: Number)
    requires AllDigits(a.digits) && AllDigits(b.digits)
    ensures SameNumber(a, b) <==> SameNumber(b, a)
  {
  }

  /** A number of at most 28 significant digits keeps its canonical form. */
  lemma NormalIsCanonical(n: Number)
    requires IsNumber(n) && n.digits != "" && SignificantDigits(n) <= PRECISION
    ensures Normal(n) == StripTrailing(n)
  {
    StripTrailingLength(n, PRECISION);
    RoundedSameExactly(n);
    SameExactly(n, Rounded(n));
  }

  /** Equal outputs mean equal numbers, and the other way round, among decimals of at most 28 significant digits. */
  lemma EqualOutputsExactly(v: string, w: string)
    requires ParseDecimal(v).Some? && ParseDecimal(w).Some?
    requires SignificantDigits(ParseDecimal(v).value) <= PRECISION && SignificantDigits(ParseDecimal(w).value) <= PRECISION
    ensures NormalizeDecimal(v) == NormalizeDecimal(w) <==> SameNumber(ParseDecimal(v).value, ParseDecimal(w).value)
  {
    var a, b := ParseDecimal(v).value, ParseDecimal(w).value;
    SameExactly(a, b);
    if a.digits != "" { NormalIsCanonical(a); }
    if b.digits != "" { NormalIsCanonical(b); }
    if NormalizeDecimal(v) == NormalizeDecimal(w) {
      NormalizeKeepsTheNumber(v);
      NormalizeKeepsTheNumber(w);
      var back := ParseDecimal(NormalizeDecimal(v).value).value;
      SameSymmetric(b, back);
      SameTransitive(a, back, b);
    }
  }

  /** Normalising twice is normalising once, whatever the number of digits. */
  lemma NormalizeIdempotent(value: string)
    requires NormalizeDecimal(value).Some?
    ensures NormalizeDecimal(NormalizeDecimal(value).value) == NormalizeDecimal(value)
  {
    NormalizedReadsBack(value);
    var n := ParseDecimal(value).value;
    if n.digits != "" {
      var c := Normal(n);
      NormalLength(n);
      ReadBackSame(c);
      StripTrailingOf(c, 0);
      assert c.digits + Zeros(0) == c.digits;
      SameExactly(c, ReadBack(c));
      NormalIsCanonical(ReadBack(c));
    }
  }

  /** Normal forms have at most 28 digits. */
  lemma NormalLength(n: Number)
    requires IsNumber(n) && n.digits != ""
    ensures |Normal(n).digits| <= PRECISION
  {
    var r := Rounded(n);
    StripTrailingLength(r, PRECISION);
    if |n.digits| > PRECISION { IncrementLength(n.digits[..PRECISION]); }
  }

  /** The next number has as many digits, or one more and then it ends in zero. */
  lemma {:induction false} IncrementLength(s: string)
    requires AllDigits(s) && s != ""
    ensures |Increment(s)| == |s| || (|Increment(s)| == |s| + 1 && Increment(s)[|s|] == '0')
  {
    if |s| > 1 { IncrementLength(s[..|s| - 1]); }
  }

  /** Beyond 28 digits different numbers can share a normal form. */
  lemma LongDecimalsCollide()
    ensures var long := "1" + Zeros(28) + "1";
      && ParseDecimal(long).Some? && ParseDecimal("1" + Zeros(29)).Some?
      && !SameNumber(ParseDecimal(long).value, ParseDecimal("1" + Zeros(29)).value)
      && NormalizeDecimal(long) == NormalizeDecimal("1" + Zeros(29))
  {
    var long, round := "1" + Zeros(28) + "1", "1" + Zeros(29);
    assert AllDigits(long) && AllDigits(round) && NoLeadingZero(long) && NoLeadingZero(round);
    LongNumbersCollide(long, round);
    CollisionOfRounded(long, round);
  }

  lemma CollisionOfRounded(a: string, b: string)
    requires AllDigits(a) && AllDigits(b) && a != "" && b != "" && NoLeadingZero(a) && NoLeadingZero(b)
    requires Rounded(Number(false, a, 0)) == Rounded(Number(false, b, 0)) && !SameNumber(Number(false, a, 0), Number(false, b, 0))
    ensures ParseDecimal(a).Some? && ParseDecimal(b).Some? && !SameNumber(ParseDecimal(a).value, ParseDecimal(b).value)
    ensures NormalizeDecimal(a) == NormalizeDecimal(b)
  {
    NormalizeWhole(a);
    NormalizeWhole(b);
  }

  lemma NormalizeWhole(digits: string)
    requires AllDigits(digits) && digits != "" && NoLeadingZero(digits)
    ensures ParseDecimal(digits) == Some(Number(false, digits, 0))
    ensures NormalizeDecimal(digits) == Some(Format(Normal(Number(false, digits, 0))))
  {
    WholeReadsBack(false, digits);
    assert "" + digits == digits;
  }

  lemma LongNumbersCollide(long: string, round: string)
    requires long == "1" + Zeros(28) + "1" && round == "1" + Zeros(29)
    ensures Rounded(Number(false, long, 0)) == Rounded(Number(false, round, 0))
    ensures !SameNumber(Number(false, long, 0), Number(false, round, 0))
  {
    assert long + Zeros(0) == long && round + Zeros(0) == round;
    assert long[29] == '1' && round[29] == '0';
    ValueInjective(long, round);
    assert long[..28] == round[..28] && AllZeros(round[29..]);
    assert long[28..][0] == '0' && round[28..][0] == '0';
  }

  // ----- acquisition times -----

  /** normalize_acquisition_time: None where it raises ValueError. */
  function NormalizeAcquisitionTime(value: string): Option<string>
  {
    var cleaned := Strip(value);
    if cleaned == "" || !AllDigits(cleaned) || |cleaned| > 4 then None else
      var normalized := Zeros(4 - |cleaned|) + cleaned;
      if ValueOf(normalized[..2]) > 23 || ValueOf(normalized[2..]) > 59 then None else Some(normalized)
  }

  lemma {:induction false} PaddedValue(k: nat, s: string)
    requires AllDigits(s)
    ensures AllDigits(Zeros(k) + s) && ValueOf(Zeros(k) + s) == ValueOf(s)
  {
    if s == "" {
      assert Zeros(k) + s == Zeros(k);
      ZerosValue(k);
    } else {
      var n := |s| - 1;
      PaddedValue(k, s[..n]);
      assert (Zeros(k) + s)[..k + n] == Zeros(k) + s[..n];
    }
  }

  lemma TwoMoreDigits(s: string)
    requires AllDigits(s) && |s| >= 2
    ensures ValueOf(s) == 100 * ValueOf(s[..|s| - 2]) + ValueOf(s[|s| - 2..])
  {
    var n := |s|;
    LastDigit(s);
    LastDigit(s[..n - 1]);
    assert s[..n - 1][..n - 2] == s[..n - 2];
    TwoDigits(s[n - 2..]);
  }

  lemma LastDigit(s: string)
    requires AllDigits(s) && s != ""
    ensures ValueOf(s) == 10 * ValueOf(s[..|s| - 1]) + DigitValue(s[|s| - 1])
  {
  }

  lemma TwoDigits(s: string)
    requires AllDigits(s) && |s| == 2
    ensures ValueOf(s) == 10 * DigitValue(s[0]) + DigitValue(s[1])
  {
    assert s[..1][..0] == "";
    assert ValueOf(s[..1]) == DigitValue(s[0]);
  }

  /** One to four digits are a time exactly when their number reads as HHMM of a clock. */
  lemma TimeAcceptedExactly(value: string)
    requires Strip(value) != "" && AllDigits(Strip(value)) && |Strip(value)| <= 4
    ensures NormalizeAcquisitionTime(value).Some? <==> ValueOf(Strip(value)) / 100 <= 23 && ValueOf(Strip(value)) % 100 <= 59
  {
    var cleaned := Strip(value);
    var normalized := Zeros(4 - |cleaned|) + cleaned;
    PaddedValue(4 - |cleaned|, cleaned);
    ClockDigits(normalized);
  }

  lemma ClockDigits(s: string)
    requires AllDigits(s) && |s| == 4
    ensures ValueOf(s) / 100 == ValueOf(s[..2]) && ValueOf(s) % 100 == ValueOf(s[2..])
  {
    TwoMoreDigits(s);
    TailBelowUnit(s[2..]);
    assert Unit(2) == 10 * Unit(1) && Unit(1) == 10 * Unit(0);
  }

  /** Two times agree exactly when their numbers do. */
  lemma TimesAgreeExactly(v: string, w: string)
    requires NormalizeAcquisitionTime(v).Some? && NormalizeAcquisitionTime(w).Some?
    ensures AllDigits(Strip(v)) && AllDigits(Strip(w))
    ensures NormalizeAcquisitionTime(v) == NormalizeAcquisitionTime(w) <==> ValueOf(Strip(v)) == ValueOf(Strip(w))
  {
    PaddedValue(4 - |Strip(v)|, Strip(v));
    PaddedValue(4 - |Strip(w)|, Strip(w));
    ValueInjective(NormalizeAcquisitionTime(v).value, NormalizeAcquisitionTime(w).value);
  }

  /** Normalising twice is normalising once. */
  lemma TimeIdempotent(value: string)
    requires NormalizeAcquisitionTime(value).Some?
    ensures var t := NormalizeAcquisitionTime(value).value; |t| == 4 && NormalizeAcquisitionTime(t) == Some(t)
  {
    var t := NormalizeAcquisitionTime(value).value;
    assert forall i :: 0 <= i < 4 ==> IsDigit(t[i]);
    assert Strip(t) == t;
    assert Zeros(0) + t == t;
  }

  // ----- record identity -----

  /** The identity fields of a row that are there; a missing one raises KeyError. */
  datatype SourceRow = SourceRow(satellite: string, acqDate: string, acqTime: string, latitude: string, longitude: string, version: string)

  datatype RecordIdentity = RecordIdentity(sourceDataset: string, satellite: string, acqDate: string, acqTime: string,
                                           latitude: string, longitude: string, version: string)

  function IdentityOf(row: SourceRow, dataset: string): Option<RecordIdentity>
  {
    var time, lat, lon := NormalizeAcquisitionTime(row.acqTime), NormalizeDecimal(row.latitude), NormalizeDecimal(row.longitude);
    if time.None? || lat.None? || lon.None? then None
    else Some(RecordIdentity(Strip(dataset), Strip(row.satellite), Strip(row.acqDate), time.value, lat.value, lon.value, Strip(row.version)))
  }

  /** The id is the version tag and the digest of the identity's canonical JSON, which is computed elsewhere. */
  function BuildSourceRecordId(digest: RecordIdentity -> string, row: SourceRow, dataset: string): Option<string>
  {
    match IdentityOf(row, dataset)
    case None => None
    case Some(identity) => Some("nasa-firms-viirs-v1:sha256:" + digest(identity))
  }

  /** A coordinate that the normal form keeps. */
  predicate KeptExactly(value: string)
  {
    ParseDecimal(value).Some? && SignificantDigits(ParseDecimal(value).value) <= PRECISION
  }

  /** The two rows denote the same source record: trimmed texts agree, times and coordinates agree as numbers. */
  predicate SameRecord(a: SourceRow, da: string, b: SourceRow, db: string)
    requires KeptExactly(a.latitude) && KeptExactly(a.longitude) && KeptExactly(b.latitude) && KeptExactly(b.longitude)
    requires AllDigits(Strip(a.acqTime)) && AllDigits(Strip(b.acqTime))
  {
    && Strip(da) == Strip(db) && Strip(a.satellite) == Strip(b.satellite) && Strip(a.acqDate) == Strip(b.acqDate)
    && Strip(a.version) == Strip(b.version)
    && ValueOf(Strip(a.acqTime)) == ValueOf(Strip(b.acqTime))
    && SameNumber(ParseDecimal(a.latitude).value, ParseDecimal(b.latitude).value)
    && SameNumber(ParseDecimal(a.longitude).value, ParseDecimal(b.longitude).value)
  }

  /** The digests of these two identities do not collide. */
  predicate TellsApart(digest: RecordIdentity -> string, a: Option<RecordIdentity>, b: Option<RecordIdentity>)
  {
    a.Some? && b.Some? && digest(a.value) == digest(b.value) ==> a == b
  }

  /** Without a digest collision between them two record ids agree if and only if the rows denote the same source record. */
  lemma RecordIdsAgreeExactly(digest: RecordIdentity -> string, a: SourceRow, da: string, b: SourceRow, db: string)
    requires TellsApart(digest, IdentityOf(a, da), IdentityOf(b, db))
    requires KeptExactly(a.latitude) && KeptExactly(a.longitude) && KeptExactly(b.latitude) && KeptExactly(b.longitude)
    requires NormalizeAcquisitionTime(a.acqTime).Some? && NormalizeAcquisitionTime(b.acqTime).Some?
    ensures BuildSourceRecordId(digest, a, da).Some? && BuildSourceRecordId(digest, b, db).Some?
    ensures BuildSourceRecordId(digest, a, da) == BuildSourceRecordId(digest, b, db) <==> SameRecord(a, da, b, db)
  {
    NormalizedReadsBack(a.latitude);
    NormalizedReadsBack(a.longitude);
    NormalizedReadsBack(b.latitude);
    NormalizedReadsBack(b.longitude);
    EqualOutputsExactly(a.latitude, b.latitude);
    EqualOutputsExactly(a.longitude, b.longitude);
    TimesAgreeExactly(a.acqTime, b.acqTime);
    IdentitiesAgree(a, da, b, db);
    IdsAgree(digest, a, da, b, db);
  }

  lemma IdentitiesAgree(a: SourceRow, da: string, b: SourceRow, db: string)
    requires NormalizeAcquisitionTime(a.acqTime).Some? && NormalizeDecimal(a.latitude).Some? && NormalizeDecimal(a.longitude).Some?
    requires NormalizeAcquisitionTime(b.acqTime).Some? && NormalizeDecimal(b.latitude).Some? && NormalizeDecimal(b.longitude).Some?
    ensures IdentityOf(a, da).Some? && IdentityOf(b, db).Some?
    ensures IdentityOf(a, da) == IdentityOf(b, db) <==>
      && Strip(da) == Strip(db) && Strip(a.satellite) == Strip(b.satellite) && Strip(a.acqDate) == Strip(b.acqDate)
      && Strip(a.version) == Strip(b.version)
      && NormalizeAcquisitionTime(a.acqTime) == NormalizeAcquisitionTime(b.acqTime)
      && NormalizeDecimal(a.latitude) == NormalizeDecimal(b.latitude) && NormalizeDecimal(a.longitude) == NormalizeDecimal(b.longitude)
  {
  }

  lemma IdsAgree(digest: RecordIdentity -> string, a: SourceRow, da: string, b: SourceRow, db: string)
    requires IdentityOf(a, da).Some? && IdentityOf(b, db).Some?
    requires digest(IdentityOf(a, da).value) == digest(IdentityOf(b, db).value) ==> IdentityOf(a, da) == IdentityOf(b, db)
    ensures BuildSourceRecordId(digest, a, da) == BuildSourceRecordId(digest, b, db) <==> IdentityOf(a, da) == IdentityOf(b, db)
  {
    var tag := "nasa-firms-viirs-v1:sha256:";
    var x, y := tag + digest(IdentityOf(a, da).value), tag + digest(IdentityOf(b, db).value);
    assert x[|tag|..] == digest(IdentityOf(a, da).value) && y[|tag|..] == digest(IdentityOf(b, db).value);
  }
}
