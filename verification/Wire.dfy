// The Protocol Buffers wire format: base 128 varints and tagged fields, read from a window of which only
// a prefix may have arrived so far.

module Wire {
  import opened Octets

  /** Reading from `w`, the bytes present so far of a window of `n` bytes. */
  datatype Reading =
    | Got(n: nat, used: nat)
    | Malformed
    | Short // more bytes of the window are needed

  const VARINT_ROOM: nat := 10
  const U64_LIMIT: nat := 0x1_0000_0000_0000_0000

  const WIRE_VARINT: nat := 0
  const WIRE_FIXED64: nat := 1
  const WIRE_BYTES: nat := 2
  const WIRE_FIXED32: nat := 5

  function ReadVarint(w: Bytes, n: nat, room: nat): (r: Reading)
    ensures r.Got? ==> 0 < r.used <= n && r.used <= |w|
  {
    if room == 0 || n == 0 then Malformed
    else if w == [] then Short
    else if w[0] < 128 then
      if room == 1 && w[0] > 1 then Malformed else Got(w[0], 1)
    else
      match ReadVarint(w[1..], n - 1, room - 1)
      case Got(v, k) => Got(w[0] - 128 + 128 * v, k + 1)
      case other => other
  }

  /** Steps over `k` bytes. */
  function SkipBytes(k: nat, w: Bytes, n: nat): (r: Reading)
    ensures r.Got? ==> r.used == k <= n && k <= |w|
  {
    if k > n then Malformed else if k > |w| then Short else Got(0, k)
  }

  /** Steps over the payload of a field nobody asked for. */
  function SkipField(wire: nat, w: Bytes, n: nat): (r: Reading)
    ensures r.Got? ==> 0 < r.used <= n && r.used <= |w|
  {
    if wire == WIRE_VARINT then ReadVarint(w, n, VARINT_ROOM)
    else if wire == WIRE_FIXED64 then SkipBytes(8, w, n)
    else if wire == WIRE_FIXED32 then SkipBytes(4, w, n)
    else if wire == WIRE_BYTES then
      match ReadVarint(w, n, VARINT_ROOM)
      case Got(m, k) => (match SkipBytes(m, w[k..], n - k)
                         case Got(_, j) => Got(0, k + j)
                         case other => other)
      case other => other
    else Malformed
  }

  // ---------------------------------------------------------------- writing

  function Varint(v: nat): (b: Bytes)
    ensures |b| > 0
  {
    if v < 128 then [v] else [v % 128 + 128] + Varint(v / 128)
  }

  function Tag(number: nat, wire: nat): Bytes {
    Varint(8 * number + wire)
  }

  /** A length-delimited field. */
  function BytesField(number: nat, payload: Bytes): Bytes {
    Tag(number, WIRE_BYTES) + (Varint(|payload|) + payload)
  }

  function NumberField(number: nat, v: nat): Bytes {
    Tag(number, WIRE_VARINT) + Varint(v)
  }

  // ---------------------------------------------------------------- reading what was written

  function Pow128(k: nat): (p: nat)
    ensures p >= 1
  {
    if k == 0 then 1 else 128 * Pow128(k - 1)
  }

  /** The number in the low seven bits of these bytes, least significant first. */
  function Septets(b: Bytes): nat {
    if b == [] then 0 else b[0] % 128 + 128 * Septets(b[1..])
  }

  /** What a varint means: it ends at the first byte below 128, and its value is that of the low seven bits. */
  lemma {:induction false} VarintMeans(w: Bytes, n: nat, room: nat)
    requires ReadVarint(w, n, room).Got?
    ensures var r := ReadVarint(w, n, room);
            && r.used <= |w| && r.used <= room
            && w[r.used - 1] < 128 && (forall i :: 0 <= i < r.used - 1 ==> w[i] >= 128)
            && r.n == Septets(w[..r.used])
  {
    var r := ReadVarint(w, n, room);
    assert w[..r.used][1..] == w[1..][..r.used - 1];
    if w[0] < 128 {
      assert w[..1][1..] == [];
    } else {
      VarintMeans(w[1..], n - 1, room - 1);
      assert forall i :: 0 < i < |w| ==> w[i] == w[1..][i - 1];
    }
  }

  lemma {:induction false} OneSeptetLess(v: nat, room: nat)
    requires room > 0 && 128 <= v < 2 * Pow128(room - 1)
    ensures room > 1 && v / 128 < 2 * Pow128(room - 2) && v == v % 128 + 128 * (v / 128)
  {
  }

  /** A varint that fits the remaining room reads back, whatever follows it. */
  lemma {:induction false} VarintReadsBack(v: nat, rest: Bytes, n: nat, room: nat)
    requires room > 0 && v < 2 * Pow128(room - 1) && n >= |Varint(v)|
    ensures ReadVarint(Varint(v) + rest, n, room) == Got(v, |Varint(v)|)
  {
    if v < 128 {
    } else {
      OneSeptetLess(v, room);
      VarintReadsBack(v / 128, rest, n - 1, room - 1);
      var b := Varint(v) + rest;
      assert b[0] == v % 128 + 128 && b[1..] == Varint(v / 128) + rest;
    }
  }

  /** Ten bytes are the room of exactly the 64-bit numbers. */
  lemma {:induction false} VarintBound(w: Bytes, n: nat, room: nat)
    requires room > 0
    ensures ReadVarint(w, n, room).Got? ==> ReadVarint(w, n, room).n < 2 * Pow128(room - 1)
  {
    if room <= 1 || n == 0 || w == [] || w[0] < 128 {
    } else {
      VarintBound(w[1..], n - 1, room - 1);
    }
  }

  lemma {:induction false} U64Room()
    ensures 2 * Pow128(VARINT_ROOM - 1) == U64_LIMIT
  {
    assert Pow128(4) == 128 * 128 * 128 * 128;
    assert Pow128(8) == 128 * 128 * 128 * 128 * Pow128(4);
  }

  lemma {:induction false} U64ReadsBack(v: nat, rest: Bytes, n: nat)
    requires v < U64_LIMIT && n >= |Varint(v)|
    ensures ReadVarint(Varint(v) + rest, n, VARINT_ROOM) == Got(v, |Varint(v)|)
  {
    U64Room();
    VarintReadsBack(v, rest, n, VARINT_ROOM);
  }

  // ---------------------------------------------------------------- arrival of further bytes

  lemma {:induction false} VarintStable(w: Bytes, w': Bytes, n: nat, room: nat)
    requires w <= w' && !ReadVarint(w, n, room).Short?
    ensures ReadVarint(w', n, room) == ReadVarint(w, n, room)
  {
    if room == 0 || n == 0 || w == [] || w[0] < 128 {
    } else {
      VarintStable(w[1..], w'[1..], n - 1, room - 1);
    }
  }

  lemma {:induction false} SkipStable(wire: nat, w: Bytes, w': Bytes, n: nat)
    requires w <= w' && !SkipField(wire, w, n).Short?
    ensures SkipField(wire, w', n) == SkipField(wire, w, n)
  {
    if wire == WIRE_VARINT || wire == WIRE_BYTES {
      VarintStable(w, w', n, VARINT_ROOM);
    }
  }

  lemma {:induction false} VarintFull(w: Bytes, n: nat, room: nat)
    requires |w| == n
    ensures !ReadVarint(w, n, room).Short?
  {
    if room == 0 || n == 0 || w[0] < 128 {
    } else {
      VarintFull(w[1..], n - 1, room - 1);
    }
  }

  lemma {:induction false} SkipFull(wire: nat, w: Bytes, n: nat)
    requires |w| == n
    ensures !SkipField(wire, w, n).Short?
  {
    VarintFull(w, n, VARINT_ROOM);
  }
}
