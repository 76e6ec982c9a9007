// Addresses: the Bech32 text of a public key hash, and the reply that carries key and address.

module Addresses {
  import opened Octets
  import opened Numbers

  // ---------------------------------------------------------------- regrouping bits

  type Bits = seq<bool>

  function BitsOf(k: nat, n: nat): (b: Bits)
    ensures |b| == k
  {
    if k == 0 then [] else BitsOf(k - 1, n / 2) + [n % 2 == 1]
  }

  function NumberOf(b: Bits): nat {
    if b == [] then 0 else 2 * NumberOf(b[..|b| - 1]) + (if b[|b| - 1] then 1 else 0)
  }

  function Pow2(k: nat): (p: nat)
    ensures p >= 1
  {
    if k == 0 then 1 else 2 * Pow2(k - 1)
  }

  /** The bits of numbers of `k` bits each, most significant first. */
  function Flatten(k: nat, ns: seq<nat>): (b: Bits)
    ensures |b| == k * |ns|
  {
    if ns == [] then []
    else
      assert k * |ns| == k + k * |ns[1..]|;
      BitsOf(k, ns[0]) + Flatten(k, ns[1..])
  }

  /** Numbers of `k` bits; a last group is padded with zero bits. */
  function Group(k: nat, b: Bits): seq<nat>
    requires k > 0
    decreases |b|
  {
    if b == [] then []
    else if |b| < k then [NumberOf(b + seq(k - |b|, i => false))]
    else [NumberOf(b[..k])] + Group(k, b[k..])
  }

  lemma {:induction false} NumberBack(b: Bits)
    ensures BitsOf(|b|, NumberOf(b)) == b && NumberOf(b) < Pow2(|b|)
  {
    if b == [] {
    } else {
      NumberBack(b[..|b| - 1]);
      assert b == b[..|b| - 1] + [b[|b| - 1]];
    }
  }

  lemma {:induction false} BitsBack(k: nat, n: nat)
    requires n < Pow2(k)
    ensures NumberOf(BitsOf(k, n)) == n
  {
    if k == 0 {
    } else {
      BitsBack(k - 1, n / 2);
      assert BitsOf(k, n)[..k - 1] == BitsOf(k - 1, n / 2);
    }
  }

  lemma {:induction false} OneMore(k: nat, m: nat)
    requires m > 0
    ensures k * m == k + k * (m - 1)
  {
  }

  lemma {:induction false} GroupCons(k: nat, front: Bits, back: Bits)
    requires k > 0 && |front| == k
    ensures Group(k, front + back) == [NumberOf(front)] + Group(k, back)
  {
    Cut(front, back);
  }

  lemma {:induction false} FlattenCons(k: nat, n: nat, ns: seq<nat>)
    ensures Flatten(k, [n] + ns) == BitsOf(k, n) + Flatten(k, ns)
  {
    assert ([n] + ns)[1..] == ns;
  }

  /** A whole number of groups loses nothing and adds nothing. */
  lemma {:induction false} GroupThenFlatten(k: nat, b: Bits, m: nat)
    requires k > 0 && |b| == k * m
    ensures |Group(k, b)| == m && Flatten(k, Group(k, b)) == b
    ensures forall i :: 0 <= i < m ==> Group(k, b)[i] < Pow2(k)
    decreases m, 0
  {
    if m == 0 {
    } else {
      OneMore(k, m);
      GroupStep(k, b[..k], b[k..], m - 1);
      assert b == b[..k] + b[k..];
    }
  }

  lemma {:induction false} GroupStep(k: nat, front: Bits, back: Bits, m: nat)
    requires k > 0 && |front| == k && |back| == k * m
    ensures |Group(k, front + back)| == m + 1 && Flatten(k, Group(k, front + back)) == front + back
    ensures forall i :: 0 <= i < m + 1 ==> Group(k, front + back)[i] < Pow2(k)
    decreases m, 1
  {
    GroupThenFlatten(k, back, m);
    NumberBack(front);
    GroupCons(k, front, back);
    FlattenCons(k, NumberOf(front), Group(k, back));
  }

  lemma {:induction false} FlattenThenGroup(k: nat, ns: seq<nat>)
    requires k > 0 && forall i :: 0 <= i < |ns| ==> ns[i] < Pow2(k)
    ensures Group(k, Flatten(k, ns)) == ns
  {
    if ns == [] {
    } else {
      var b := Flatten(k, ns);
      assert k * |ns| == k + k * |ns[1..]|;
      assert b[..k] == BitsOf(k, ns[0]) && b[k..] == Flatten(k, ns[1..]);
      BitsBack(k, ns[0]);
      FlattenThenGroup(k, ns[1..]);
    }
  }

  function AsNumbers(b: Bytes): (ns: seq<nat>)
    ensures |ns| == |b| && forall i :: 0 <= i < |b| ==> ns[i] == b[i]
  {
    seq(|b|, i requires 0 <= i < |b| => b[i])
  }

  /** The 5-bit symbols of a byte string, as `write_base32` gives them. */
  function Base32(b: Bytes): seq<nat> {
    Group(5, Flatten(8, AsNumbers(b)))
  }

  function FromBase32(symbols: seq<nat>): seq<nat> {
    Group(8, Flatten(5, symbols))
  }

  /** Regrouping is invertible when no padding is needed; a 20-byte hash gives exactly 32 symbols. */
  lemma {:induction false} Base32RoundTrip(b: Bytes, m: nat)
    requires 8 * |b| == 5 * m
    ensures |Base32(b)| == m && FromBase32(Base32(b)) == AsNumbers(b)
    ensures forall i :: 0 <= i < m ==> Base32(b)[i] < 32
  {
    assert Pow2(5) == 32 && Pow2(8) == 256 by { assert Pow2(4) == 16 && Pow2(6) == 64; }
    GroupThenFlatten(5, Flatten(8, AsNumbers(b)), m);
    FlattenThenGroup(8, AsNumbers(b));
  }

  /** The number with these digits. */
  function Positional(base: nat, digits: seq<nat>): nat {
    if digits == [] then 0 else base * Positional(base, digits[..|digits| - 1]) + digits[|digits| - 1]
  }

  lemma {:induction false} FlattenSnoc(k: nat, ns: seq<nat>, n: nat)
    ensures Flatten(k, ns + [n]) == Flatten(k, ns) + BitsOf(k, n)
  {
    if ns == [] {
      assert [] + [n] == [n] && [n][1..] == [];
      assert Flatten(k, [n]) == BitsOf(k, n) + [];
    } else {
      assert (ns + [n])[1..] == ns[1..] + [n];
      FlattenSnoc(k, ns[1..], n);
      Associate(BitsOf(k, ns[0]), Flatten(k, ns[1..]), BitsOf(k, n));
    }
  }

  lemma {:induction false} Doubled(n: nat, p: nat)
    ensures n * (2 * p) == 2 * (n * p)
  {
  }

  lemma {:induction false} NumberConcat(a: Bits, b: Bits)
    ensures NumberOf(a + b) == NumberOf(a) * Pow2(|b|) + NumberOf(b)
  {
    if b == [] {
      assert a + b == a;
    } else {
      var init := b[..|b| - 1];
      assert (a + b)[..|a + b| - 1] == a + init;
      NumberConcat(a, init);
      Doubled(NumberOf(a), Pow2(|init|));
    }
  }

  lemma {:induction false} PositionalSnoc(base: nat, digits: seq<nat>, last: nat)
    ensures Positional(base, digits + [last]) == Positional(base, digits) * base + last
  {
    assert (digits + [last])[..|digits|] == digits;
  }

  /** Numbers laid out bit by bit are the digits of the number the bits make. */
  lemma {:induction false} FlattenIsPositional(k: nat, ns: seq<nat>)
    requires forall i :: 0 <= i < |ns| ==> ns[i] < Pow2(k)
    ensures NumberOf(Flatten(k, ns)) == Positional(Pow2(k), ns)
  {
    if ns == [] {
    } else {
      var init, last := ns[..|ns| - 1], ns[|ns| - 1];
      assert ns == init + [last];
      FlattenIsPositional(k, init);
      FlattenSnoc(k, init, last);
      BitsBack(k, last);
      NumberConcat(Flatten(k, init), BitsOf(k, last));
      PositionalSnoc(Pow2(k), init, last);
      assert NumberOf(Flatten(k, ns)) == NumberOf(Flatten(k, init)) * Pow2(k) + last;
    }
  }

  lemma {:induction false} BigEndianIsPositional(b: Bytes)
    ensures Positional(256, AsNumbers(b)) == BigEndian(b)
  {
    if b == [] {
    } else {
      BigEndianIsPositional(b[..|b| - 1]);
      assert AsNumbers(b)[..|b| - 1] == AsNumbers(b[..|b| - 1]);
    }
  }

  /** The symbols of a byte string are its digits to the base 32. */
  lemma {:induction false} Base32IsPositional(b: Bytes, m: nat)
    requires 8 * |b| == 5 * m
    ensures |Base32(b)| == m && Positional(32, Base32(b)) == BigEndian(b)
    ensures forall i :: 0 <= i < m ==> Base32(b)[i] < 32
  {
    assert Pow2(5) == 32 && Pow2(8) == 256 by { assert Pow2(4) == 16 && Pow2(6) == 64; }
    GroupThenFlatten(5, Flatten(8, AsNumbers(b)), m);
    FlattenIsPositional(5, Base32(b));
    FlattenIsPositional(8, AsNumbers(b));
    BigEndianIsPositional(b);
  }

  // ---------------------------------------------------------------- the text

  /** The ASCII codes of qpzry9x8gf2tvdw0s3jn54khce6mua7l. */
  const CHARSET: Bytes := [
    113, 112, 122, 114, 121, 57, 120, 56, 103, 102, 50, 116, 118, 100, 119, 48,
    115, 51, 106, 110, 53, 52, 107, 104, 99, 101, 54, 109, 117, 97, 55, 108
  ]
  const HRP := "pb"
  const HASH_LENGTH: nat := 20
  const SYMBOLS: nat := 32
  const CHECKSUM_LENGTH: nat := 6

  type KeyHash = b: Bytes | |b| == HASH_LENGTH witness seq(HASH_LENGTH, i => 0)
  type Checksum = s: seq<nat> | |s| == CHECKSUM_LENGTH witness seq(CHECKSUM_LENGTH, i => 0)

  function CharOf(symbol: nat): Byte {
    if symbol < |CHARSET| then CHARSET[symbol] else 0
  }

  function Chars(symbols: seq<nat>): (t: Bytes)
    ensures |t| == |symbols|
  {
    seq(|symbols|, i requires 0 <= i < |symbols| => CharOf(symbols[i]))
  }

  /** The address text; the checksum over prefix and data comes from the Bech32 library. */
  function AddressText(checksum: seq<nat> -> Checksum, hash: Bytes): Bytes {
    Ascii(HRP) + Ascii("1") + Chars(Base32(hash) + checksum(Base32(hash)))
  }

  function SymbolOf(c: Byte, from: nat): nat
    requires from <= 32
    decreases 32 - from
  {
    if from == 32 then 32 else if CharOf(from) == c then from else SymbolOf(c, from + 1)
  }

  function Symbols(t: Bytes): (s: seq<nat>)
    ensures |s| == |t|
  {
    seq(|t|, i requires 0 <= i < |t| => SymbolOf(t[i], 0))
  }

  /** The hash a reader takes out of an address text. */
  function HashIn(text: Bytes): seq<nat>
    requires |text| >= 3 + SYMBOLS
  {
    FromBase32(Symbols(text[3..3 + SYMBOLS]))
  }

  lemma {:induction false} CharsDiffer(i: nat, j: nat)
    requires i < j < 32
    ensures CharOf(i) != CharOf(j)
  {
  }

  lemma {:induction false} SymbolBack(s: nat, from: nat)
    requires from <= s < 32
    ensures SymbolOf(CharOf(s), from) == s
    decreases s - from
  {
    if from == s {
    } else {
      CharsDiffer(from, s);
      SymbolBack(s, from + 1);
    }
  }

  lemma {:induction false} SymbolsBack(s: seq<nat>)
    requires forall i :: 0 <= i < |s| ==> s[i] < 32
    ensures Symbols(Chars(s)) == s
  {
    forall i | 0 <= i < |s| ensures Symbols(Chars(s))[i] == s[i] {
      SymbolBack(s[i], 0);
    }
  }

  /** An address has 41 characters and gives its hash back. */
  lemma {:induction false} AddressRoundTrip(checksum: seq<nat> -> Checksum, hash: Bytes)
    requires |hash| == HASH_LENGTH
    ensures |AddressText(checksum, hash)| == 41
    ensures HashIn(AddressText(checksum, hash)) == AsNumbers(hash)
  {
    var symbols := Base32(hash);
    Base32RoundTrip(hash, SYMBOLS);
    var text := AddressText(checksum, hash);
    assert text[3..3 + SYMBOLS] == Chars(symbols) by {
      assert forall i :: 0 <= i < SYMBOLS ==> text[3 + i] == CharOf(symbols[i]);
    }
    SymbolsBack(symbols);
  }

  // ---------------------------------------------------------------- the reply

  const REPLY_CAP: nat := 128
  const TEXT_CAP: nat := 50

  /** Length-prefixed key, length-prefixed text. */
  function Framed(pubkey: Bytes, text: Bytes): Option<Bytes> {
    if |pubkey| >= 256 || |text| > TEXT_CAP || |pubkey| + |text| + 2 > REPLY_CAP then None
    else Some([|pubkey|] + pubkey + [|text|] + text)
  }

  method AddToReply(pubkey: Bytes, pkh: Bytes) returns (r: Option<Bytes>)
    ensures r == Framed(pubkey, pkh)
  {
    var rv := new ArrayVec(REPLY_CAP);
    if |pubkey| >= 256 {
      return None;
    }
    var ok := rv.TryPush(|pubkey|);
    if !ok { return None; }
    ok := rv.TryExtend(pubkey);
    if !ok { return None; }
    assert rv.items == [|pubkey|] + pubkey;
    var tempFmt := new ArrayVec(TEXT_CAP);
    ok := tempFmt.TryExtend(pkh);
    if !ok { return None; }
    assert tempFmt.items == pkh;
    ok := rv.TryPush(|tempFmt.items|);
    if !ok { return None; }
    ok := rv.TryExtend(tempFmt.items);
    if !ok { return None; }
    assert rv.items == [|pubkey|] + pubkey + [|pkh|] + pkh;
    return Some(rv.items);
  }

  /** How the host takes a reply apart. */
  function Unframed(reply: Bytes): Option<(Bytes, Bytes)> {
    if reply == [] then None
    else
      var keyLength: nat := reply[0];
      if |reply| < 2 + keyLength then None
      else
        var rest := reply[1 + keyLength..];
        var textLength: nat := rest[0];
        if |rest| != 1 + textLength then None else Some((reply[1..1 + keyLength], rest[1..]))
  }

  lemma {:induction false} UnframeFramed(pubkey: Bytes, text: Bytes)
    requires Framed(pubkey, text).Some?
    ensures Unframed(Framed(pubkey, text).value) == Some((pubkey, text))
  {
    var reply := Framed(pubkey, text).value;
    assert reply[1..1 + |pubkey|] == pubkey;
    assert reply[1 + |pubkey|..] == [|text|] + text;
    assert ([|text|] + text)[1..] == text;
  }

  /** The reply for a compressed key always fits: 76 bytes, from which key and hash can be read back. */
  lemma {:induction false} ReplyRoundTrip(checksum: seq<nat> -> Checksum, pubkey: Bytes, hash: Bytes)
    requires |pubkey| == 33 && |hash| == HASH_LENGTH
    ensures var reply := Framed(pubkey, AddressText(checksum, hash));
            && reply.Some? && |reply.value| == 76
            && Unframed(reply.value).Some?
            && Unframed(reply.value).value.0 == pubkey
            && |Unframed(reply.value).value.1| == 41
            && HashIn(Unframed(reply.value).value.1) == AsNumbers(hash)
  {
    AddressRoundTrip(checksum, hash);
    UnframeFramed(pubkey, AddressText(checksum, hash));
  }
}
