// Fixed-point rendering of an amount: the digit string divided by 10^9.

module Decimals {
  import opened Octets

  const ZERO: Byte := 48
  const DOT: Byte := 46
  const PLACES: nat := 9

  predicate IsDigit(b: Byte) {
    48 <= b <= 57
  }

  predicate AllDigits(a: Bytes) {
    forall i :: 0 <= i < |a| ==> IsDigit(a[i])
  }

  function Pow10(k: nat): (p: nat)
    ensures p >= 1
  {
    if k == 0 then 1 else 10 * Pow10(k - 1)
  }

  /** The number a digit string denotes. */
  function Value(a: Bytes): nat
    requires AllDigits(a)
  {
    if a == [] then 0 else Value(a[..|a| - 1]) * 10 + (a[|a| - 1] - 48)
  }

  function Zeros(k: nat): (z: Bytes)
    ensures |z| == k
    ensures forall i :: 0 <= i < k ==> z[i] == ZERO
  {
    seq(k, i => ZERO)
  }

  /** Decimal digits of `n` without leading zeros; "0" for zero. */
  function Decimal(n: nat): Bytes {
    if n < 10 then [48 + n] else Decimal(n / 10) + [48 + n % 10]
  }

  /** The last `k` decimal digits of `n`. */
  function Padded(k: nat, n: nat): (r: Bytes)
    ensures |r| == k
  {
    if k == 0 then [] else Padded(k - 1, n / 10) + [48 + n % 10]
  }

  function StripZeros(a: Bytes): (r: Bytes)
    ensures r <= a
  {
    if a != [] && a[|a| - 1] == ZERO then StripZeros(a[..|a| - 1]) else a
  }

  function OrZero(a: Bytes): Bytes {
    if a == [] then [ZERO] else a
  }

  /** `v` / 10^places, rounded down: the last `places` digits are cut off. */
  function Units(places: nat, v: nat): nat {
    if places == 0 then v else Units(places - 1, v / 10)
  }

  function Whole(places: nat, v: nat): Bytes {
    Decimal(Units(places, v))
  }

  function Fraction(places: nat, v: nat): Bytes {
    OrZero(StripZeros(Padded(places, v)))
  }

  /** The shortest decimal numeral of `v` / 10^places with a digit on either side of the point. */
  function Canonical(places: nat, v: nat): Bytes {
    Whole(places, v) + [DOT] + Fraction(places, v)
  }

  /** How a zero amount of `len` digits comes out: it keeps the number of digits it had. */
  function ZeroShape(places: nat, len: nat): Bytes
    requires len > 0
  {
    if len > places then Zeros(len - places) + [DOT, ZERO] else [ZERO, DOT] + Zeros(places - len + 1)
  }

  /** The renderer has no room: every one of `cap` digits would be printed, plus the point. */
  predicate Overflows(a: Bytes, cap: nat) {
    0 < |a| == cap && a[0] != ZERO && a[|a| - 1] != ZERO
  }

  /** What dividing `a` by 10^places into a buffer of `cap` bytes gives. */
  function RenderedAt(places: nat, a: Bytes, cap: nat): Option<Bytes>
    requires a != []
  {
    if !AllDigits(a) || Overflows(a, cap) then None
    else if Value(a) == 0 then Some(ZeroShape(places, |a|))
    else Some(Canonical(places, Value(a)))
  }

  /** The renderer of the app: 10^9 nhash make one HASH. */
  function Rendered(a: Bytes, cap: nat): Option<Bytes>
    requires a != []
  {
    RenderedAt(PLACES, a, cap)
  }

  function IndexOfDot(s: Bytes): (k: nat)
    ensures k <= |s|
    ensures k < |s| ==> s[k] == DOT
    ensures forall i :: 0 <= i < k ==> s[i] != DOT
  {
    if s == [] || s[0] == DOT then 0 else 1 + IndexOfDot(s[1..])
  }

  function ReadHalves(places: nat, whole: Bytes, frac: Bytes): Option<nat> {
    if whole == [] || frac == [] || |frac| > places || !AllDigits(whole) || !AllDigits(frac) then None
    else Some(Value(whole) * Pow10(places) + Value(frac) * Pow10(places - |frac|))
  }

  /** Reads an "integer.fraction" numeral back, in units of 10^-places. */
  function ReadBack(places: nat, s: Bytes): Option<nat> {
    var k := IndexOfDot(s);
    if k >= |s| then None else ReadHalves(places, s[..k], s[k + 1..])
  }

  // ---------------------------------------------------------------- arithmetic of digit strings

  lemma {:induction false} ValueConcat(a: Bytes, b: Bytes)
    requires AllDigits(a) && AllDigits(b)
    ensures AllDigits(a + b) && Value(a + b) == Value(a) * Pow10(|b|) + Value(b)
  {
    if b == [] {
      assert a + b == a;
    } else {
      var b' := b[..|b| - 1];
      assert (a + b)[..|a + b| - 1] == a + b';
      ValueConcat(a, b');
      assert Value(a) * Pow10(|b|) == Value(a) * Pow10(|b'|) * 10;
    }
  }

  lemma {:induction false} ValueBound(a: Bytes)
    requires AllDigits(a)
    ensures Value(a) < Pow10(|a|)
  {
    if a == [] {
    } else {
      ValueBound(a[..|a| - 1]);
    }
  }

  lemma {:induction false} ValueZeros(a: Bytes)
    requires AllDigits(a)
    ensures Value(a) == 0 <==> forall i :: 0 <= i < |a| ==> a[i] == ZERO
  {
    if a == [] {
    } else {
      ValueZeros(a[..|a| - 1]);
    }
  }

  lemma {:induction false} DecimalFacts(n: nat)
    ensures Decimal(n) != [] && AllDigits(Decimal(n)) && Value(Decimal(n)) == n
    ensures Decimal(n)[0] == ZERO <==> n == 0
    ensures n == 0 ==> Decimal(n) == [ZERO]
  {
    var d := Decimal(n);
    if n < 10 {
      assert d[..0] == [];
    } else {
      DecimalFacts(n / 10);
      assert d[..|d| - 1] == Decimal(n / 10);
    }
  }

  /** A digit string without a leading zero is the decimal numeral of its value. */
  lemma {:induction false} DecimalOfValue(a: Bytes)
    requires a != [] && AllDigits(a) && (a[0] != ZERO || |a| == 1)
    ensures Decimal(Value(a)) == a
  {
    var a' := a[..|a| - 1];
    if |a| == 1 {
      assert a' == [] && Value(a) == a[0] - 48;
    } else {
      DecimalOfValue(a');
      ValueZeros(a');
      assert a'[0] != ZERO;
      assert a == a' + [a[|a| - 1]];
    }
  }

  lemma {:induction false} Tenfold(v: nat, p: nat)
    ensures v * (10 * p) == 10 * (v * p)
  {
  }

  lemma {:induction false} PaddedFacts(k: nat, n: nat)
    ensures AllDigits(Padded(k, n)) && Units(k, n) * Pow10(k) + Value(Padded(k, n)) == n
  {
    var p := Padded(k, n);
    if k == 0 {
    } else {
      PaddedFacts(k - 1, n / 10);
      assert p[..|p| - 1] == Padded(k - 1, n / 10);
      Tenfold(Units(k, n), Pow10(k - 1));
    }
  }

  /** Stripping stops exactly behind the last non-zero digit. */
  lemma {:induction false} StripTo(a: Bytes, k: nat)
    requires k <= |a| && (k == 0 || a[k - 1] != ZERO)
    requires forall i :: k <= i < |a| ==> a[i] == ZERO
    ensures StripZeros(a) == a[..k]
  {
    if k == |a| {
      assert a[..k] == a;
    } else {
      var a' := a[..|a| - 1];
      StripTo(a', k);
      assert a'[..k] == a[..k];
    }
  }

  lemma {:induction false} StripValue(a: Bytes)
    requires AllDigits(a)
    ensures AllDigits(StripZeros(a))
    ensures Value(StripZeros(a)) * Pow10(|a| - |StripZeros(a)|) == Value(a)
    ensures StripZeros(a) != [] ==> StripZeros(a)[|StripZeros(a)| - 1] != ZERO
  {
    if a == [] || a[|a| - 1] != ZERO {
    } else {
      var a' := a[..|a| - 1];
      StripValue(a');
      var k := |a'| - |StripZeros(a)|;
      Tenfold(Value(StripZeros(a)), Pow10(k));
    }
  }

  lemma {:induction false} PaddedSnoc(k: nat, v: nat, d: nat)
    requires d < 10
    ensures Padded(k + 1, v * 10 + d) == Padded(k, v) + [48 + d] && Units(k + 1, v * 10 + d) == Units(k, v)
  {
    assert (v * 10 + d) / 10 == v && (v * 10 + d) % 10 == d;
  }

  lemma {:induction false} ValueSnoc(a: Bytes)
    requires AllDigits(a) && a != []
    ensures Value(a) == Value(a[..|a| - 1]) * 10 + (a[|a| - 1] - 48)
  {
  }

  lemma {:induction false} SliceSnoc(a: Bytes, i: nat)
    requires i < |a|
    ensures a[..|a| - 1][..i] == a[..i] && a[..|a| - 1][i..] + [a[|a| - 1]] == a[i..]
  {
  }

  /** Cutting a digit string is dividing its value by a power of ten: what stays in front, */
  lemma {:induction false} FrontOf(a: Bytes, k: nat)
    requires AllDigits(a) && k <= |a|
    ensures Units(k, Value(a)) == Value(a[..|a| - k])
  {
    if k == 0 {
      assert a[..|a|] == a;
    } else {
      var a', d := a[..|a| - 1], a[|a| - 1];
      FrontOf(a', k - 1);
      ValueSnoc(a);
      PaddedSnoc(k - 1, Value(a'), d - 48);
      SliceSnoc(a, |a| - k);
    }
  }

  /** and what is cut off. */
  lemma {:induction false} TailOf(a: Bytes, k: nat)
    requires AllDigits(a) && k <= |a|
    ensures Padded(k, Value(a)) == a[|a| - k..]
  {
    if k == 0 {
    } else {
      var a', d := a[..|a| - 1], a[|a| - 1];
      TailOf(a', k - 1);
      ValueSnoc(a);
      PaddedSnoc(k - 1, Value(a'), d - 48);
      SliceSnoc(a, |a| - k);
    }
  }

  lemma {:induction false} ZerosInFront(z: Bytes, t: Bytes)
    requires AllDigits(z) && AllDigits(t) && forall i :: 0 <= i < |z| ==> z[i] == ZERO
    ensures AllDigits(z + t) && Value(z + t) == Value(t)
  {
    if t == [] {
      ValueZeros(z);
      assert z + t == z;
    } else {
      ZerosInFront(z, t[..|t| - 1]);
      assert (z + t)[..|z + t| - 1] == z + t[..|t| - 1];
    }
  }

  lemma {:induction false} LeadingZeros(a: Bytes, s: nat)
    requires AllDigits(a) && s <= |a| && forall i :: 0 <= i < s ==> a[i] == ZERO
    ensures AllDigits(a[s..]) && Value(a[s..]) == Value(a)
  {
    assert a == a[..s] + a[s..];
    ZerosInFront(a[..s], a[s..]);
  }

  // ---------------------------------------------------------------- the four output shapes

  /** First and last non-zero positions of a digit string that has one. */
  ghost predicate NonZeroSpan(a: Bytes, s: nat, l: nat) {
    && s <= l < |a| && a[s] != ZERO && a[l] != ZERO
    && (forall i :: 0 <= i < s ==> a[i] == ZERO)
    && (forall i :: l < i < |a| ==> a[i] == ZERO)
  }

  function LongShape(places: nat, a: Bytes, s: nat, l: nat): Bytes
    requires s <= l < |a| && |a| - s > places
  {
    a[s..|a| - places] + [DOT] + if |a| - places <= l then a[|a| - places..l + 1] else [ZERO]
  }

  function ShortShape(places: nat, a: Bytes, s: nat, l: nat): Bytes
    requires s <= l < |a| && |a| - s <= places
  {
    [ZERO, DOT] + Zeros(places - (|a| - s)) + a[s..l + 1]
  }

  lemma {:induction false} LongWhole(places: nat, a: Bytes, s: nat, l: nat)
    requires AllDigits(a) && NonZeroSpan(a, s, l) && |a| - s > places
    ensures Whole(places, Value(a)) == a[s..|a| - places]
  {
    var hi := a[..|a| - places];
    FrontOf(a, places);
    LeadingZeros(hi, s);
    assert hi[s..] == a[s..|a| - places];
    DecimalOfValue(hi[s..]);
  }

  lemma {:induction false} FractionIs(places: nat, v: nat, tail: Bytes)
    requires Padded(places, v) == tail
    ensures Fraction(places, v) == OrZero(StripZeros(tail))
  {
  }

  lemma {:induction false} StripTail(a: Bytes, cut: nat, l: nat)
    requires l < |a| && cut <= |a| && a[l] != ZERO && forall i :: l < i < |a| ==> a[i] == ZERO
    ensures OrZero(StripZeros(a[cut..])) == if cut <= l then a[cut..l + 1] else [ZERO]
  {
    var lo := a[cut..];
    assert forall i :: 0 <= i < |lo| ==> lo[i] == a[cut + i];
    if cut <= l {
      StripTo(lo, l + 1 - cut);
      assert lo[..l + 1 - cut] == a[cut..l + 1];
    } else {
      StripTo(lo, 0);
    }
  }

  lemma {:induction false} LongFraction(places: nat, v: nat, a: Bytes, l: nat)
    requires places <= |a| && Padded(places, v) == a[|a| - places..]
    requires l < |a| && a[l] != ZERO && forall i :: l < i < |a| ==> a[i] == ZERO
    ensures Fraction(places, v) == if |a| - places <= l then a[|a| - places..l + 1] else [ZERO]
  {
    FractionIs(places, v, a[|a| - places..]);
    StripTail(a, |a| - places, l);
  }

  lemma {:induction false} NonZeroValue(a: Bytes, s: nat, l: nat)
    requires AllDigits(a) && NonZeroSpan(a, s, l)
    ensures Value(a) != 0
  {
    ValueZeros(a);
  }

  lemma {:induction false} LongShapeIsCanonical(places: nat, a: Bytes, s: nat, l: nat)
    requires AllDigits(a) && NonZeroSpan(a, s, l) && |a| - s > places
    ensures Value(a) != 0 && Canonical(places, Value(a)) == LongShape(places, a, s, l)
  {
    NonZeroValue(a, s, l);
    LongWhole(places, a, s, l);
    TailOf(a, places);
    LongFraction(places, Value(a), a, l);
  }

  /** Below one coin the fraction is the significant digits, padded on the left. */
  lemma {:induction false} ShortValue(places: nat, a: Bytes, s: nat)
    requires AllDigits(a) && s <= |a| <= s + places && forall i :: 0 <= i < s ==> a[i] == ZERO
    ensures Units(places, Value(a)) == 0
    ensures Padded(places, Value(a)) == Zeros(places - (|a| - s)) + a[s..]
  {
    LeadingZeros(a, s);
    var pad := Zeros(places - (|a| - s));
    var frac := pad + a[s..];
    LeadingZeros(frac, |pad|);
    assert frac[|pad|..] == a[s..];
    FrontOf(frac, places);
    TailOf(frac, places);
    assert frac[..0] == [] && frac[0..] == frac;
  }

  lemma {:induction false} ShortWhole(places: nat, a: Bytes, s: nat)
    requires AllDigits(a) && s <= |a| <= s + places && forall i :: 0 <= i < s ==> a[i] == ZERO
    ensures Whole(places, Value(a)) == [ZERO]
  {
    ShortValue(places, a, s);
    DecimalFacts(0);
  }

  lemma {:induction false} StripPadded(pad: nat, a: Bytes, s: nat, l: nat)
    requires s <= l < |a| && a[l] != ZERO && forall i :: l < i < |a| ==> a[i] == ZERO
    ensures OrZero(StripZeros(Zeros(pad) + a[s..])) == Zeros(pad) + a[s..l + 1]
  {
    var frac := Zeros(pad) + a[s..];
    StripTo(frac, pad + (l + 1 - s));
    assert frac[..pad + (l + 1 - s)] == Zeros(pad) + a[s..l + 1];
  }

  lemma {:induction false} ShortFraction(places: nat, a: Bytes, s: nat, l: nat)
    requires AllDigits(a) && NonZeroSpan(a, s, l) && |a| - s <= places
    ensures Fraction(places, Value(a)) == Zeros(places - (|a| - s)) + a[s..l + 1]
  {
    ShortValue(places, a, s);
    StripPadded(places - (|a| - s), a, s, l);
  }

  lemma {:induction false} ShortShapeIsCanonical(places: nat, a: Bytes, s: nat, l: nat)
    requires AllDigits(a) && NonZeroSpan(a, s, l) && |a| - s <= places
    ensures Value(a) != 0 && Canonical(places, Value(a)) == ShortShape(places, a, s, l)
  {
    NonZeroValue(a, s, l);
    ShortWhole(places, a, s);
    ShortFraction(places, a, s, l);
    Associate([ZERO] + [DOT], Zeros(places - (|a| - s)), a[s..l + 1]);
    assert [ZERO] + [DOT] == [ZERO, DOT];
  }

  /** The text for an accepted digit string, by the positions the scan finds. */
  function Shape(places: nat, a: Bytes, s: nat, l: nat): Bytes
    requires s <= l < |a|
  {
    if |a| - s > places then LongShape(places, a, s, l) else ShortShape(places, a, s, l)
  }

  lemma {:induction false} ShapeOverflows(places: nat, a: Bytes, cap: nat, s: nat, l: nat)
    requires 0 < |a| <= cap && cap >= places + 2 >= 4 && NonZeroSpan(a, s, l)
    ensures |Shape(places, a, s, l)| > cap <==> Overflows(a, cap)
  {
  }

  lemma {:induction false} ShapeIsRendered(places: nat, a: Bytes, cap: nat, s: nat, l: nat)
    requires 0 < |a| <= cap && cap >= places + 2 >= 4 && AllDigits(a)
    requires NonZeroSpan(a, s, l) || (s == l == 0 && forall i :: 0 <= i < |a| ==> a[i] == ZERO)
    ensures RenderedAt(places, a, cap) ==
            if |Shape(places, a, s, l)| <= cap then Some(Shape(places, a, s, l)) else None
  {
    ValueZeros(a);
    if NonZeroSpan(a, s, l) {
      ShapeOverflows(places, a, cap, s, l);
      if |a| - s > places {
        LongShapeIsCanonical(places, a, s, l);
      } else {
        ShortShapeIsCanonical(places, a, s, l);
      }
    } else {
      assert Shape(places, a, 0, 0) == ZeroShape(places, |a|);
    }
  }

  // ---------------------------------------------------------------- the renderer

  /** The value is one coin or more. */
  method LayLong(decValue: ArrayVec, charsAfterDecimal: nat, amount: Bytes, startIx: nat, lastNonZeroIx: nat)
    returns (ok: bool)
    requires decValue.Valid() && decValue.items == [] && |amount| <= decValue.cap
    requires startIx <= lastNonZeroIx < |amount| && |amount| - startIx > charsAfterDecimal
    modifies decValue
    ensures ok <==> |LongShape(charsAfterDecimal, amount, startIx, lastNonZeroIx)| <= decValue.cap
    ensures ok ==> decValue.items == LongShape(charsAfterDecimal, amount, startIx, lastNonZeroIx)
  {
    var cut := |amount| - charsAfterDecimal;
    ok := decValue.TryExtend(amount[startIx..cut]);
    if !ok { return; }
    assert decValue.items == amount[startIx..cut];
    ok := decValue.TryPush(DOT);
    if !ok { return; }
    if cut <= lastNonZeroIx {
      // significant digits behind the point
      ok := decValue.TryExtend(amount[cut..lastNonZeroIx + 1]);
    } else {
      // a whole number of coins
      ok := decValue.TryPush(ZERO);
    }
  }

  /** The value is less than one coin. */
  method LayShort(decValue: ArrayVec, charsAfterDecimal: nat, amount: Bytes, startIx: nat, lastNonZeroIx: nat)
    returns (ok: bool)
    requires decValue.Valid() && decValue.items == [] && decValue.cap >= charsAfterDecimal + 2
    requires startIx <= lastNonZeroIx < |amount| && |amount| - startIx <= charsAfterDecimal
    modifies decValue
    ensures ok <==> |ShortShape(charsAfterDecimal, amount, startIx, lastNonZeroIx)| <= decValue.cap
    ensures ok ==> decValue.items == ShortShape(charsAfterDecimal, amount, startIx, lastNonZeroIx)
  {
    var amtLen := |amount| - startIx;
    ok := decValue.TryPush(ZERO);
    ok := decValue.TryPush(DOT);
    var i := 0;
    while i < charsAfterDecimal - amtLen
      invariant 0 <= i <= charsAfterDecimal - amtLen
      invariant decValue.Valid() && decValue.items == [ZERO, DOT] + Zeros(i)
    {
      ok := decValue.TryPush(ZERO);
      assert Zeros(i) + [ZERO] == Zeros(i + 1);
      i := i + 1;
    }
    ok := decValue.TryExtend(amount[startIx..lastNonZeroIx + 1]);
  }

  /** The second half of the renderer: copy the digits around the point into the bounded buffer. */
  method Lay(charsAfterDecimal: nat, amount: Bytes, cap: nat, startIx: nat, lastNonZeroIx: nat)
    returns (r: Option<Bytes>)
    requires startIx <= lastNonZeroIx < |amount| <= cap && cap >= charsAfterDecimal + 2
    ensures r == if |Shape(charsAfterDecimal, amount, startIx, lastNonZeroIx)| <= cap
                 then Some(Shape(charsAfterDecimal, amount, startIx, lastNonZeroIx)) else None
  {
    var decValue := new ArrayVec(cap);
    var ok;
    if |amount| - startIx > charsAfterDecimal {
      ok := LayLong(decValue, charsAfterDecimal, amount, startIx, lastNonZeroIx);
    } else {
      ok := LayShort(decValue, charsAfterDecimal, amount, startIx, lastNonZeroIx);
    }
    r := if ok then Some(decValue.items) else None;
  }

  method GetAmountInDecimals(amount: Bytes, cap: nat) returns (r: Option<Bytes>)
    requires 0 < |amount| <= cap && cap >= PLACES + 2
    ensures r == Rendered(amount, cap)
  {
    var foundFirstNonZero := false;
    var startIx := 0;
    var lastNonZeroIx := 0;
    var ix := 0;
    while ix < |amount|
      invariant 0 <= ix <= |amount|
      invariant forall i :: 0 <= i < ix ==> IsDigit(amount[i])
      invariant !foundFirstNonZero ==> startIx == lastNonZeroIx == 0
      invariant !foundFirstNonZero ==> forall i :: 0 <= i < ix ==> amount[i] == ZERO
      invariant foundFirstNonZero ==> NonZeroSpan(amount[..ix], startIx, lastNonZeroIx)
    {
      var c := amount[ix];
      if c < 48 || c > 57 {
        assert !IsDigit(amount[ix]);
        return None;
      }
      if c != ZERO {
        lastNonZeroIx := ix;
      }
      if !foundFirstNonZero && c != ZERO {
        startIx := ix;
        foundFirstNonZero := true;
      }
      ix := ix + 1;
    }
    assert amount[..ix] == amount;
    r := Lay(PLACES, amount, cap, startIx, lastNonZeroIx);
    ShapeIsRendered(PLACES, amount, cap, startIx, lastNonZeroIx);
  }

  // ---------------------------------------------------------------- what the reader of the screen learns

  lemma {:induction false} ReadParts(places: nat, whole: Bytes, frac: Bytes)
    requires AllDigits(whole)
    ensures ReadBack(places, whole + [DOT] + frac) == ReadHalves(places, whole, frac)
  {
    var s := whole + [DOT] + frac;
    var k := IndexOfDot(s);
    assert forall i :: 0 <= i < |whole| ==> s[i] == whole[i] && IsDigit(whole[i]);
    assert s[|whole|] == DOT;
    assert k == |whole|;
    assert s[..k] == whole && s[k + 1..] == frac;
  }

  lemma {:induction false} FractionFacts(places: nat, v: nat)
    requires places > 0
    ensures var f := Fraction(places, v);
            && f != [] && |f| <= places && AllDigits(f)
            && (f[|f| - 1] != ZERO || f == [ZERO])
            && Units(places, v) * Pow10(places) + Value(f) * Pow10(places - |f|) == v
  {
    var p := Padded(places, v);
    PaddedFacts(places, v);
    StripValue(p);
    if StripZeros(p) == [] {
      assert Value([]) == 0;
      ValueZeros([ZERO]);
    }
  }

  /** Reading the canonical numeral gives the value back, so distinct values render differently. */
  lemma {:induction false} CanonicalReadsBack(places: nat, v: nat)
    requires places > 0
    ensures ReadBack(places, Canonical(places, v)) == Some(v)
  {
    DecimalFacts(Units(places, v));
    FractionFacts(places, v);
    ReadParts(places, Whole(places, v), Fraction(places, v));
  }

  lemma {:induction false} ZeroReadsBack(places: nat, len: nat)
    requires len > 0 && places > 0
    ensures ReadBack(places, ZeroShape(places, len)) == Some(0)
  {
    var whole := if len > places then Zeros(len - places) else [ZERO];
    var frac := if len > places then [ZERO] else Zeros(places - len + 1);
    assert ZeroShape(places, len) == whole + [DOT] + frac;
    ValueZeros(whole);
    ValueZeros(frac);
    ReadParts(places, whole, frac);
  }

  /** Exact value: a rendered amount reads back as the number the input denotes, whatever its zeros. */
  lemma {:induction false} RenderedIsExact(a: Bytes, cap: nat)
    requires a != [] && Rendered(a, cap).Some?
    ensures AllDigits(a) && ReadBack(PLACES, Rendered(a, cap).value) == Some(Value(a))
  {
    if Value(a) == 0 {
      ZeroReadsBack(PLACES, |a|);
    } else {
      CanonicalReadsBack(PLACES, Value(a));
    }
  }

  lemma {:induction false} ReadBackMeans(places: nat, s: Bytes, v: nat)
    requires ReadBack(places, s) == Some(v)
    ensures var k := IndexOfDot(s);
            && 0 < k < |s| - 1 && s[k] == DOT
            && AllDigits(s[..k]) && AllDigits(s[k + 1..]) && |s[k + 1..]| <= places
            && Value(s[..k]) * Pow10(places) + Value(s[k + 1..]) * Pow10(places - |s[k + 1..]|) == v
  {
  }

  lemma {:induction false} Billion()
    ensures Pow10(9) == 1_000_000_000
  {
    assert Pow10(3) == 1000 && Pow10(6) == 1000 * Pow10(3) && Pow10(9) == 1000 * Pow10(6);
  }

  /** A rendered amount is digits, a point and at most nine more digits: the number divided by 10^9. */
  lemma {:induction false} RenderedIsNumeral(a: Bytes, cap: nat)
    requires a != [] && Rendered(a, cap).Some?
    ensures var t := Rendered(a, cap).value;
            var k := IndexOfDot(t);
            && 0 < k < |t| - 1 && t[k] == 46
            && AllDigits(a) && AllDigits(t[..k]) && AllDigits(t[k + 1..]) && |t[k + 1..]| <= 9
            && Value(t[..k]) * 1_000_000_000 + Value(t[k + 1..]) * Pow10(9 - |t[k + 1..]|) == Value(a)
  {
    RenderedIsExact(a, cap);
    ReadBackMeans(PLACES, Rendered(a, cap).value, Value(a));
    Billion();
  }

  /** For amounts that are not zero: same text exactly when same value. */
  lemma {:induction false} RenderedDetermines(a: Bytes, b: Bytes, cap: nat)
    requires a != [] && b != [] && Rendered(a, cap).Some? && Rendered(b, cap).Some?
    requires Value(a) != 0
    ensures Rendered(a, cap) == Rendered(b, cap) <==> Value(a) == Value(b)
  {
    RenderedIsExact(a, cap);
    RenderedIsExact(b, cap);
  }

  lemma {:induction false} UnitsZero(places: nat)
    ensures Units(places, 0) == 0
  {
    if places == 0 {
    } else {
      UnitsZero(places - 1);
    }
  }

  lemma {:induction false} CanonicalZero(places: nat)
    requires places > 0
    ensures Canonical(places, 0) == [ZERO, DOT, ZERO]
  {
    PaddedFacts(places, 0);
    UnitsZero(places);
    DecimalFacts(0);
    ValueZeros(Padded(places, 0));
    StripTo(Padded(places, 0), 0);
  }

  lemma {:induction false} ZeroShapeIs(places: nat, len: nat)
    requires len > 0 && places > 0
    ensures ZeroShape(places, len) == [ZERO, DOT, ZERO] <==> len == places || len == places + 1
  {
    var z := ZeroShape(places, len);
    if len == places || len == places + 1 {
      assert z == [ZERO, DOT, ZERO];
    }
  }

  /** A zero keeps the digits it was given, so it is canonical only when they happen to be one too few or one
      too many for the fraction. */
  lemma {:induction false} CanonicalExactly(a: Bytes, cap: nat)
    requires a != [] && Rendered(a, cap).Some?
    ensures Rendered(a, cap) == Some(Canonical(PLACES, Value(a))) <==>
            Value(a) != 0 || |a| == PLACES || |a| == PLACES + 1
  {
    if Value(a) == 0 {
      CanonicalZero(PLACES);
      ZeroShapeIs(PLACES, |a|);
    }
  }

  /** The one-digit zero comes out with ten zeros. */
  lemma {:induction false} ZeroNotCanonical()
    ensures Rendered([ZERO], 64) == Some([ZERO, DOT] + Zeros(9)) != Some(Canonical(PLACES, Value([ZERO])))
  {
    ValueZeros([ZERO]);
    CanonicalExactly([ZERO], 64);
  }

  ghost predicate Tidy(text: Bytes, whole: Bytes, frac: Bytes) {
    && text == whole + [DOT] + frac
    && whole != [] && (whole[0] != ZERO || whole == [ZERO])
    && frac != [] && (frac[|frac| - 1] != ZERO || frac == [ZERO])
  }

  /** No superfluous zero on either side of the point. */
  lemma {:induction false} RenderedIsTidy(a: Bytes, cap: nat)
    requires a != [] && Rendered(a, cap).Some? && Value(a) != 0
    ensures exists whole: Bytes, frac: Bytes :: Tidy(Rendered(a, cap).value, whole, frac)
  {
    DecimalFacts(Units(PLACES, Value(a)));
    FractionFacts(PLACES, Value(a));
    assert Tidy(Rendered(a, cap).value, Whole(PLACES, Value(a)), Fraction(PLACES, Value(a)));
  }

  lemma {:induction false} CanonicalIsText(places: nat, v: nat)
    requires places > 0
    ensures ValidUtf8(Canonical(places, v))
  {
    DecimalFacts(Units(places, v));
    FractionFacts(places, v);
    AsciiIsUtf8(Canonical(places, v));
  }

  /** The text is ASCII, so showing it never fails on its encoding. */
  lemma {:induction false} RenderedIsText(a: Bytes, cap: nat)
    requires a != [] && Rendered(a, cap).Some?
    ensures ValidUtf8(Rendered(a, cap).value)
  {
    if Value(a) == 0 {
      AsciiIsUtf8(ZeroShape(PLACES, |a|));
    } else {
      CanonicalIsText(PLACES, Value(a));
    }
  }

  lemma {:induction false} FindSpan(a: Bytes) returns (s: nat, l: nat)
    requires AllDigits(a) && Value(a) != 0
    ensures NonZeroSpan(a, s, l)
  {
    var n := |a| - 1;
    ValueZeros(a[..n]);
    if Value(a[..n]) == 0 {
      s, l := n, n;
      assert forall i :: 0 <= i < n ==> a[..n][i] == a[i];
    } else {
      s, l := FindSpan(a[..n]);
      if a[n] != ZERO { l := n; }
    }
  }

  /** Rendering fails exactly on a non-digit, or when all `cap` digits would have to be printed. */
  lemma {:induction false} RenderedFails(a: Bytes, cap: nat)
    requires 0 < |a| <= cap && cap >= PLACES + 2
    ensures Rendered(a, cap) == None <==>
            || (exists i :: 0 <= i < |a| && !IsDigit(a[i]))
            || (|a| == cap && a[0] != ZERO && a[cap - 1] != ZERO)
    ensures Rendered(a, cap).Some? ==> |Rendered(a, cap).value| <= cap
  {
    if AllDigits(a) {
      ValueZeros(a);
      if Value(a) == 0 {
        ShapeIsRendered(PLACES, a, cap, 0, 0);
      } else {
        var s, l := FindSpan(a);
        ShapeIsRendered(PLACES, a, cap, s, l);
      }
    }
  }
}
