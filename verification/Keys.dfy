// Public keys, signatures and addresses as the app writes them.

module Keys {
  import opened Octets
  import opened Numbers

  // ---------------------------------------------------------------- compression of a public key

  const POINT_LENGTH: nat := 65
  const COMPRESSED_LENGTH: nat := 33

  type Point = b: Bytes | |b| == POINT_LENGTH witness ZeroBytes(POINT_LENGTH)

  function X(point: Bytes): nat
    requires |point| == POINT_LENGTH
  {
    BigEndian(point[1..33])
  }

  function Y(point: Bytes): nat
    requires |point| == POINT_LENGTH
  {
    BigEndian(point[33..])
  }

  function Compressed(point: Bytes): (c: Bytes)
    requires |point| == POINT_LENGTH
    ensures |c| == COMPRESSED_LENGTH
  {
    [if point[64] % 2 == 1 then 3 else 2] + point[1..33]
  }

  method CompressPublicKey(uncompressed: array<Byte>) returns (compressed: array<Byte>)
    requires uncompressed.Length == POINT_LENGTH
    ensures fresh(compressed) && compressed.Length == COMPRESSED_LENGTH
    ensures compressed[..] == Compressed(uncompressed[..])
  {
    compressed := new Byte[COMPRESSED_LENGTH](i => 0);
    compressed[0] := if uncompressed[64] % 2 == 1 then 3 else 2;
    forall i | 1 <= i < 33 {
      compressed[i] := uncompressed[i];
    }
    assert compressed[..] == Compressed(uncompressed[..]);
  }

  /** Euclid's lemma for `p`, at one pair. */
  ghost predicate EuclidAt(p: nat, a: int, b: int)
    requires p > 0
  {
    (a * b) % p == 0 ==> a % p == 0 || b % p == 0
  }

  ghost predicate OddPrime(p: nat) {
    p > 2 && p % 2 == 1 && forall a: int, b: int :: EuclidAt(p, a, b)
  }

  /** y^2 = x^3 + 7 modulo p, with both coordinates reduced, in the uncompressed form of SEC 1. */
  predicate OnCurve(p: nat, point: Bytes)
    requires p > 0
  {
    && |point| == POINT_LENGTH && point[0] == 4
    && X(point) < p && Y(point) < p
    && (Y(point) * Y(point)) % p == (X(point) * X(point) * X(point) + 7) % p
  }

  lemma {:induction false} AtLeast(p: nat, k: int)
    requires k >= 1
    ensures p * k >= p
  {
  }

  lemma {:induction false} SmallMultiple(p: nat, k: int, m: int)
    requires p > 0 && m == p * k && m < p && -m < p
    ensures k == 0 && m == 0
  {
    if k >= 1 {
      AtLeast(p, k);
      assert false;
    } else if k <= -1 {
      AtLeast(p, -k);
      assert false;
    }
  }

  lemma {:induction false} MultipleIsZero(p: nat, k: int)
    requires p > 0
    ensures (p * k) % p == 0
  {
    var m := (p * k) % p;
    var d := (p * k) / p;
    assert p * k == p * d + m;
    assert m == p * (k - d);
    SmallMultiple(p, k - d, m);
  }

  lemma {:induction false} DifferenceDivides(p: nat, a: nat, b: nat)
    requires p > 0 && a % p == b % p
    ensures (a - b) % p == 0
  {
    var q, r := a / p, b / p;
    assert a - b == p * (q - r);
    MultipleIsZero(p, q - r);
  }

  lemma {:induction false} SquareDifference(a: int, b: int)
    ensures (a - b) * (a + b) == a * a - b * b
  {
  }

  lemma {:induction false} DifferenceIsZero(p: nat, y: nat, z: nat)
    requires p > 0 && y < p && z < p && (y - z) % p == 0
    ensures y == z
  {
    var k := (y - z) / p;
    assert y - z == p * k + (y - z) % p;
    SmallMultiple(p, k, y - z);
  }

  lemma {:induction false} BelowTwice(p: nat, k: int, m: int)
    requires p > 0 && m == p * k && 0 <= m < 2 * p
    ensures m == 0 || m == p
  {
    if k >= 2 {
      assert p * k == p * (k - 1) + p;
      AtLeast(p, k - 1);
      assert false;
    } else if k <= -1 {
      AtLeast(p, -k);
      assert false;
    }
  }

  lemma {:induction false} SumIsModulus(p: nat, y: nat, z: nat)
    requires p > 0 && y < p && z < p && (y + z) % p == 0
    ensures y + z == 0 || y + z == p
  {
    var k := (y + z) / p;
    assert y + z == p * k + (y + z) % p;
    BelowTwice(p, k, y + z);
  }

  lemma {:induction false} SquaresDivide(p: nat, y: nat, z: nat)
    requires p > 0 && (y * y) % p == (z * z) % p
    ensures ((y - z) * (y + z)) % p == 0
  {
    DifferenceDivides(p, y * y, z * z);
    SquareDifference(y, z);
  }

  /** Two square roots of the same number are equal or opposite. */
  lemma {:induction false} RootsOpposite(p: nat, y: nat, z: nat)
    requires OddPrime(p) && y < p && z < p && (y * y) % p == (z * z) % p
    ensures y == z || y + z == p
  {
    SquaresDivide(p, y, z);
    assert EuclidAt(p, y - z, y + z);
    if (y - z) % p == 0 {
      DifferenceIsZero(p, y, z);
    } else {
      SumIsModulus(p, y, z);
    }
  }

  /** Of two opposite roots exactly one is odd. */
  lemma {:induction false} SameParitySameRoot(p: nat, y: nat, z: nat)
    requires OddPrime(p) && y < p && z < p && (y * y) % p == (z * z) % p && y % 2 == z % 2
    ensures y == z
  {
    RootsOpposite(p, y, z);
  }

  lemma {:induction false} SameX(a: Bytes, b: Bytes)
    requires |a| == |b| == POINT_LENGTH && Compressed(a) == Compressed(b)
    ensures a[1..33] == b[1..33] && a[64] % 2 == b[64] % 2
  {
    assert Compressed(a)[1..] == a[1..33] && Compressed(b)[1..] == b[1..33];
    assert Compressed(a)[0] == Compressed(b)[0];
  }

  lemma {:induction false} YParity(a: Bytes)
    requires |a| == POINT_LENGTH
    ensures Y(a) % 2 == a[64] % 2
  {
    assert a[33..][31] == a[64];
    ParityOfLast(a[33..]);
  }

  lemma {:induction false} FromParts(a: Bytes, b: Bytes)
    requires |a| == |b| == POINT_LENGTH && a[0] == b[0] && a[1..33] == b[1..33] && a[33..] == b[33..]
    ensures a == b
  {
    assert a == [a[0]] + a[1..33] + a[33..];
    assert b == [b[0]] + b[1..33] + b[33..];
  }

  /** Compression is lossless on the curve: the parity of the last byte fixes which root is meant. */
  lemma {:induction false} CompressionInjective(p: nat, a: Bytes, b: Bytes)
    requires OddPrime(p) && OnCurve(p, a) && OnCurve(p, b) && Compressed(a) == Compressed(b)
    ensures a == b
  {
    SameX(a, b);
    YParity(a);
    YParity(b);
    SameParitySameRoot(p, Y(a), Y(b));
    BigEndianInjective(a[33..], b[33..]);
    FromParts(a, b);
  }

  // ---------------------------------------------------------------- signatures

  const HALF: nat := 32

  /** The magnitude bytes of r and s found in a DER signature. */
  datatype Rs = Rs(r: Bytes, s: Bytes)

  function StripLeadingZeros(b: Bytes): (r: Bytes)
    ensures |r| <= |b|
  {
    if b != [] && b[0] == 0 then StripLeadingZeros(b[1..]) else b
  }

  /** A DER INTEGER in front of `b` (X.690, section 8.3): its magnitude and what follows it. */
  function ReadInteger(b: Bytes): Option<(Bytes, Bytes)> {
    if |b| < 3 || b[0] != 2 || b[1] == 0 || b[1] >= 128 || |b| < 2 + b[1] || b[2] >= 128 then None
    else Some((StripLeadingZeros(b[2..2 + b[1]]), b[2 + b[1]..]))
  }

  /** The SEQUENCE of two INTEGERs that makes a signature; stands for `cx_ecfp_decode_sig_der`. */
  function DecodeSignature(der: Bytes): Option<Rs> {
    if |der| < 2 || der[0] != 0x30 || der[1] >= 128 || |der| != 2 + der[1] then None
    else
      match ReadInteger(der[2..])
      case None => None
      case Some((r, rest)) =>
        match ReadInteger(rest)
        case None => None
        case Some((s, end)) => if end == [] then Some(Rs(r, s)) else None
  }

  /** r || s, each padded on the left to 32 bytes. */
  function PaddedPair(r: Bytes, s: Bytes): (b: Bytes)
    requires |r| <= HALF && |s| <= HALF
    ensures |b| == 2 * HALF
  {
    (ZeroBytes(HALF - |r|) + r) + (ZeroBytes(HALF - |s|) + s)
  }

  /** With a longer integer the app leaves its buffer and halts, so no signature comes out. */
  function FormattedSignature(der: Bytes): Option<Bytes> {
    match DecodeSignature(der)
    case None => None
    case Some(rs) => if |rs.r| > HALF || |rs.s| > HALF then None else Some(PaddedPair(rs.r, rs.s))
  }

  method FormatSignature(der: Bytes) returns (result: Option<Bytes>)
    ensures result == FormattedSignature(der)
  {
    var decoded := DecodeSignature(der);
    if decoded.None? {
      return None;
    }
    var r, s := decoded.value.r, decoded.value.s;
    if |r| > HALF || |s| > HALF {
      return None;
    }
    var resultBuffer := new Byte[2 * HALF](i => 0);
    var padding1 := HALF - |r|;
    var padding2 := HALF - |s|;
    forall i | padding1 <= i < HALF {
      resultBuffer[i] := r[i - padding1];
    }
    forall i | HALF + padding2 <= i < 2 * HALF {
      resultBuffer[i] := s[i - (HALF + padding2)];
    }
    assert resultBuffer[..] == PaddedPair(r, s);
    return Some(resultBuffer[..]);
  }

  lemma {:induction false} HalvesOf(j: nat, r: Bytes, k: nat, s: Bytes)
    ensures var a, b := ZeroBytes(j) + r, ZeroBytes(k) + s;
            BigEndian((a + b)[..|a|]) == BigEndian(r) && BigEndian((a + b)[|a|..]) == BigEndian(s)
  {
    Cut(ZeroBytes(j) + r, ZeroBytes(k) + s);
    LeadingZeros(j, r);
    LeadingZeros(k, s);
  }

  /** The halves carry the two integers. */
  lemma {:induction false} SignatureHalves(r: Bytes, s: Bytes)
    requires |r| <= HALF && |s| <= HALF
    ensures var sig := PaddedPair(r, s);
            && BigEndian(sig[..HALF]) == BigEndian(r)
            && BigEndian(sig[HALF..]) == BigEndian(s)
  {
    HalvesOf(HALF - |r|, r, HALF - |s|, s);
  }

  /** The content octets of a positive INTEGER: shortest, with a zero in front of a set top bit. */
  function Magnitude(n: nat): (b: Bytes)
    ensures n == 0 <==> b == []
  {
    if n == 0 then [] else Magnitude(n / 256) + [n % 256]
  }

  function IntegerContent(n: nat): Bytes {
    var m := Magnitude(n);
    if m == [] || m[0] >= 128 then [0] + m else m
  }

  /** The number has at most 32 bytes. */
  predicate Fits(n: nat) {
    |Magnitude(n)| <= HALF
  }

  function EncodeInteger(n: nat): (b: Bytes)
    requires Fits(n)
    ensures |b| <= HALF + 3
  {
    [2, |IntegerContent(n)|] + IntegerContent(n)
  }

  function EncodeSignature(r: nat, s: nat): Bytes
    requires Fits(r) && Fits(s)
  {
    var body := EncodeInteger(r) + EncodeInteger(s);
    [0x30, |body|] + body
  }

  lemma {:induction false} MagnitudeFacts(n: nat)
    ensures BigEndian(Magnitude(n)) == n
    ensures Magnitude(n) != [] ==> Magnitude(n)[0] != 0
  {
    if n == 0 {
    } else {
      MagnitudeFacts(n / 256);
      var m := Magnitude(n);
      assert m[..|m| - 1] == Magnitude(n / 256);
    }
  }

  /** Having at most k bytes is being below 256^k. */
  lemma {:induction false} MagnitudeBound(n: nat, k: nat)
    ensures |Magnitude(n)| <= k <==> n < Pow256(k)
  {
    if n == 0 || k == 0 {
    } else {
      MagnitudeBound(n / 256, k - 1);
    }
  }

  /** Content octets give the magnitude back: a sign octet is stripped, nothing else. */
  lemma {:induction false} ContentStrips(n: nat)
    ensures IntegerContent(n) != [] && IntegerContent(n)[0] < 128
    ensures StripLeadingZeros(IntegerContent(n)) == Magnitude(n)
  {
    MagnitudeFacts(n);
    var c, m := IntegerContent(n), Magnitude(n);
    assert StripLeadingZeros(m) == m;
    if c != m { assert c[1..] == m; }
  }

  lemma {:induction false} IntegerReadsBack(n: nat, rest: Bytes)
    requires Fits(n)
    ensures ReadInteger(EncodeInteger(n) + rest) == Some((Magnitude(n), rest))
  {
    ContentStrips(n);
    var c := IntegerContent(n);
    var head: Bytes := [2, |c|];
    Associate(head, c, rest);
    Cut(head, c + rest);
    Cut(c, rest);
    var b := EncodeInteger(n) + rest;
    assert b == head + (c + rest);
    assert b[2..] == c + rest;
    assert b[2..2 + |c|] == b[2..][..|c|] && b[2 + |c|..] == b[2..][|c|..];
    assert b[2] == c[0];
  }

  lemma {:induction false} SignatureDecodes(r: nat, s: nat)
    requires Fits(r) && Fits(s)
    ensures DecodeSignature(EncodeSignature(r, s)) == Some(Rs(Magnitude(r), Magnitude(s)))
  {
    var i, j := EncodeInteger(r), EncodeInteger(s);
    Cut([0x30, |i + j|], i + j);
    IntegerReadsBack(r, j);
    assert j + [] == j;
    IntegerReadsBack(s, []);
  }

  lemma {:induction false} PaddedIs(k: nat, b: Bytes)
    ensures ZeroBytes(k) + b == ToBigEndian(k + |b|, BigEndian(b))
  {
    LeadingZeros(k, b);
    BigEndianBack(ZeroBytes(k) + b);
  }

  lemma {:induction false} PaddedMagnitude(n: nat)
    requires Fits(n)
    ensures ZeroBytes(HALF - |Magnitude(n)|) + Magnitude(n) == ToBigEndian(HALF, n)
  {
    MagnitudeFacts(n);
    PaddedIs(HALF - |Magnitude(n)|, Magnitude(n));
  }

  /** Decode after encode: the 64 bytes are the two integers, 32 bytes each. */
  lemma {:induction false} SignatureRoundTrip(r: nat, s: nat)
    requires Fits(r) && Fits(s)
    ensures FormattedSignature(EncodeSignature(r, s)) == Some(ToBigEndian(HALF, r) + ToBigEndian(HALF, s))
  {
    SignatureDecodes(r, s);
    PaddedMagnitude(r);
    PaddedMagnitude(s);
    var der := EncodeSignature(r, s);
    assert FormattedSignature(der) == Some(PaddedPair(Magnitude(r), Magnitude(s)));
  }

  /** In bytes: the first 32 carry r and the other 32 carry s, most significant first; both must be below 2^256. */
  lemma {:induction false} SignatureSpelled(r: nat, s: nat)
    requires r < Pow256(32) && s < Pow256(32)
    ensures Fits(r) && Fits(s)
    ensures var sig := FormattedSignature(EncodeSignature(r, s));
            sig.Some? && |sig.value| == 64 && BigEndian(sig.value[..32]) == r && BigEndian(sig.value[32..]) == s
  {
    MagnitudeBound(r, 32);
    MagnitudeBound(s, 32);
    SignatureRoundTrip(r, s);
    ToBigEndianBack(32, r);
    ToBigEndianBack(32, s);
    Cut(ToBigEndian(32, r), ToBigEndian(32, s));
  }

  /** So different signatures stay different. */
  lemma {:induction false} SignatureInjective(r: nat, s: nat, r': nat, s': nat)
    requires Fits(r) && Fits(s) && Fits(r') && Fits(s')
    requires FormattedSignature(EncodeSignature(r, s)) == FormattedSignature(EncodeSignature(r', s'))
    ensures r == r' && s == s'
  {
    SignatureDecodes(r, s);
    SignatureDecodes(r', s');
    SignatureHalves(Magnitude(r), Magnitude(s));
    SignatureHalves(Magnitude(r'), Magnitude(s'));
    MagnitudeFacts(r);
    MagnitudeFacts(s);
    MagnitudeFacts(r');
    MagnitudeFacts(s');
  }
}
