// Bytes, text and the bounded buffers the app fills in place.

module Octets {
  type Byte = b: int | 0 <= b < 256
  type Bytes = seq<Byte>

  datatype Option<+T> = None | Some(value: T)

  /** The bytes of an ASCII literal. */
  function Ascii(s: string): (b: Bytes)
    ensures |b| == |s|
  {
    seq(|s|, i requires 0 <= i < |s| => s[i] as int % 256)
  }

  function Take(w: Bytes, n: nat): (r: Bytes)
    ensures |r| == if |w| < n then |w| else n
    ensures r <= w
  {
    if |w| <= n then w else w[..n]
  }

  /** Cutting a concatenation where it was joined. */
  lemma {:induction false} Cut<T>(a: seq<T>, b: seq<T>)
    ensures (a + b)[..|a|] == a && (a + b)[|a|..] == b
  {
  }

  lemma {:induction false} Associate<T>(a: seq<T>, b: seq<T>, c: seq<T>)
    ensures (a + b) + c == a + (b + c)
  {
  }

  lemma {:induction false} Around<T>(s: seq<T>, k: nat)
    requires k < |s|
    ensures s == s[..k] + ([s[k]] + s[k + 1..])
  {
  }

  predicate InRange(b: Byte, lo: int, hi: int) {
    lo <= b <= hi
  }

  /** Well-formed UTF-8 (Unicode Standard, Table 3-7), the test made by `core::str::from_utf8`. */
  predicate ValidUtf8(b: Bytes)
    decreases |b|
  {
    if b == [] then true
    else if b[0] < 0x80 then ValidUtf8(b[1..])
    else if |b| < 2 then false
    else if InRange(b[0], 0xC2, 0xDF) then InRange(b[1], 0x80, 0xBF) && ValidUtf8(b[2..])
    else if |b| < 3 then false
    else if InRange(b[0], 0xE0, 0xEF) then
      && InRange(b[1], if b[0] == 0xE0 then 0xA0 else 0x80, if b[0] == 0xED then 0x9F else 0xBF)
      && InRange(b[2], 0x80, 0xBF)
      && ValidUtf8(b[3..])
    else if |b| < 4 then false
    else
      && InRange(b[0], 0xF0, 0xF4)
      && InRange(b[1], if b[0] == 0xF0 then 0x90 else 0x80, if b[0] == 0xF4 then 0x8F else 0xBF)
      && InRange(b[2], 0x80, 0xBF)
      && InRange(b[3], 0x80, 0xBF)
      && ValidUtf8(b[4..])
  }

  lemma {:induction false} AsciiIsUtf8(b: Bytes)
    requires forall i :: 0 <= i < |b| ==> b[i] < 0x80
    ensures ValidUtf8(b)
  {
    if b == [] {
    } else {
      AsciiIsUtf8(b[1..]);
    }
  }

  /** `arrayvec::ArrayVec<u8, CAP>`: a buffer that refuses to grow past its capacity. */
  class ArrayVec {
    const cap: nat
    var items: Bytes

    ghost predicate Valid()
      reads this
    {
      |items| <= cap
    }

    constructor (cap: nat)
      ensures Valid() && this.cap == cap && items == []
    {
      this.cap := cap;
      items := [];
    }

    method TryPush(b: Byte) returns (ok: bool)
      requires Valid()
      modifies this
      ensures Valid()
      ensures ok == (|old(items)| + 1 <= cap)
      ensures items == if ok then old(items) + [b] else old(items)
    {
      ok := |items| < cap;
      if ok {
        items := items + [b];
      }
    }

    method TryExtend(bs: Bytes) returns (ok: bool)
      requires Valid()
      modifies this
      ensures Valid()
      ensures ok == (|old(items)| + |bs| <= cap)
      ensures items == if ok then old(items) + bs else old(items)
    {
      ok := |bs| <= cap - |items|;
      if ok {
        items := items + bs;
      }
    }
  }
}
