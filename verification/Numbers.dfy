// Numbers as byte strings, in both byte orders.

module Numbers {
  import opened Octets

  function Pow256(k: nat): (p: nat)
    ensures p >= 1
  {
    if k == 0 then 1 else 256 * Pow256(k - 1)
  }

  function BigEndian(b: Bytes): nat {
    if b == [] then 0 else 256 * BigEndian(b[..|b| - 1]) + b[|b| - 1]
  }

  function LittleEndian(b: Bytes): nat {
    if b == [] then 0 else b[0] + 256 * LittleEndian(b[1..])
  }

  function ToBigEndian(k: nat, n: nat): (b: Bytes)
    ensures |b| == k
  {
    if k == 0 then [] else ToBigEndian(k - 1, n / 256) + [n % 256]
  }

  function ToLittleEndian(k: nat, n: nat): (b: Bytes)
    ensures |b| == k
  {
    if k == 0 then [] else [n % 256] + ToLittleEndian(k - 1, n / 256)
  }

  function ZeroBytes(k: nat): (z: Bytes)
    ensures |z| == k && forall i :: 0 <= i < k ==> z[i] == 0
  {
    seq(k, i => 0)
  }

  /** The 32-bit number in the four bytes from `i` on, least significant first. */
  function Word(b: Bytes, i: nat): int
    requires i + 4 <= |b|
  {
    (b[i] as int) + 0x100 * (b[i + 1] as int) + 0x1_0000 * (b[i + 2] as int) + 0x100_0000 * (b[i + 3] as int)
  }

  /** Four bytes of a number, least significant first. */
  lemma {:induction false} LittleEndianSpelled(b: Bytes, n: nat)
    requires |b| == 4 && n < 0x1_0000_0000
    ensures LittleEndian(b) == Word(b, 0)
    ensures ToLittleEndian(4, n) == [n % 0x100, n / 0x100 % 0x100, n / 0x1_0000 % 0x100, n / 0x100_0000]
  {
    var c, d, e := b[1..], b[2..], b[3..];
    assert c[1..] == d && d[1..] == e && e[1..] == [];
    assert LittleEndian(e) == b[3] && LittleEndian(d) == b[2] + 0x100 * LittleEndian(e);
    assert LittleEndian(c) == b[1] + 0x100 * LittleEndian(d);
    var n1, n2, n3 := n / 0x100, n / 0x100 / 0x100, n / 0x100 / 0x100 / 0x100;
    assert ToLittleEndian(1, n3) == [n3 % 0x100] + [];
    assert ToLittleEndian(2, n2) == [n2 % 0x100] + ToLittleEndian(1, n3);
    assert ToLittleEndian(3, n1) == [n1 % 0x100] + ToLittleEndian(2, n2);
    assert n2 == n / 0x1_0000 && n3 == n / 0x100_0000;
  }

  /** The first byte of a big-endian number is the most significant one. */
  lemma {:induction false} BigEndianFirst(b: Bytes)
    requires b != []
    ensures BigEndian(b) == b[0] * Pow256(|b| - 1) + BigEndian(b[1..])
  {
    var init := b[..|b| - 1];
    if |b| == 1 {
      assert init == [] && b[1..] == [];
    } else {
      BigEndianFirst(init);
      assert init[1..] == b[1..][..|b| - 2] && init[0] == b[0];
    }
  }

  lemma {:induction false} BigEndianBound(b: Bytes)
    ensures BigEndian(b) < Pow256(|b|)
  {
    if b == [] {
    } else {
      BigEndianBound(b[..|b| - 1]);
    }
  }

  lemma {:induction false} LittleEndianBound(b: Bytes)
    ensures LittleEndian(b) < Pow256(|b|)
  {
    if b == [] {
    } else {
      LittleEndianBound(b[1..]);
    }
  }

  lemma {:induction false} BigEndianBack(b: Bytes)
    ensures ToBigEndian(|b|, BigEndian(b)) == b
  {
    if b == [] {
    } else {
      BigEndianBack(b[..|b| - 1]);
      assert b == b[..|b| - 1] + [b[|b| - 1]];
    }
  }

  lemma {:induction false} ToBigEndianBack(k: nat, n: nat)
    requires n < Pow256(k)
    ensures BigEndian(ToBigEndian(k, n)) == n
  {
    var b := ToBigEndian(k, n);
    if k == 0 {
    } else {
      ToBigEndianBack(k - 1, n / 256);
      assert b[..|b| - 1] == ToBigEndian(k - 1, n / 256);
    }
  }

  lemma {:induction false} ToLittleEndianBack(k: nat, n: nat)
    requires n < Pow256(k)
    ensures LittleEndian(ToLittleEndian(k, n)) == n
  {
    var b := ToLittleEndian(k, n);
    if k == 0 {
    } else {
      ToLittleEndianBack(k - 1, n / 256);
      assert b[1..] == ToLittleEndian(k - 1, n / 256);
    }
  }

  /** Equal lengths and values: equal strings. */
  lemma {:induction false} BigEndianInjective(a: Bytes, b: Bytes)
    requires |a| == |b| && BigEndian(a) == BigEndian(b)
    ensures a == b
  {
    BigEndianBack(a);
    BigEndianBack(b);
  }

  lemma {:induction false} LeadingZeros(k: nat, b: Bytes)
    ensures BigEndian(ZeroBytes(k) + b) == BigEndian(b)
  {
    if b == [] {
      if k > 0 {
        LeadingZeros(k - 1, []);
        assert (ZeroBytes(k) + [])[..k - 1] == ZeroBytes(k - 1) + [];
      }
    } else {
      LeadingZeros(k, b[..|b| - 1]);
      assert (ZeroBytes(k) + b)[..k + |b| - 1] == ZeroBytes(k) + b[..|b| - 1];
    }
  }

  lemma {:induction false} ParityOfLast(b: Bytes)
    requires b != []
    ensures BigEndian(b) % 2 == b[|b| - 1] % 2
  {
  }
}
