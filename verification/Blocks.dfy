// The block protocol: a parameter as a chain of hash-linked blocks, read through cursors.

module Blocks {
  import opened Octets
  import opened Numbers

  type Hash = Bytes -> Bytes

  const LINK_LENGTH: nat := 32

  function EndLink(): (z: Bytes)
    ensures |z| == LINK_LENGTH
  {
    ZeroBytes(LINK_LENGTH)
  }

  predicate IsBlock(b: Bytes) {
    |b| >= LINK_LENGTH
  }

  function Link(b: Bytes): Bytes
    requires IsBlock(b)
  {
    b[..LINK_LENGTH]
  }

  function Data(b: Bytes): Bytes
    requires IsBlock(b)
  {
    b[LINK_LENGTH..]
  }

  /** A position in a stream: the hash of the block to ask for, and how much of its data is used already. */
  datatype Cursor = Cursor(head: Bytes, offset: nat)

  predicate AtEnd(c: Cursor) {
    c.head == EndLink()
  }

  /** The block that was asked for, and data left to read in it. */
  predicate Serves(h: Hash, c: Cursor, b: Bytes) {
    !AtEnd(c) && h(b) == c.head && IsBlock(b) && c.offset <= |Data(b)|
  }

  function Past(b: Bytes): Cursor
    requires IsBlock(b)
  {
    Cursor(Link(b), 0)
  }

  /** Blocks served one after the other to a reader at `c`. */
  predicate Trace(h: Hash, c: Cursor, t: seq<Bytes>)
    decreases |t|
  {
    t == [] || (Serves(h, c, t[0]) && Trace(h, Past(t[0]), t[1..]))
  }

  function Read(h: Hash, c: Cursor, t: seq<Bytes>): Bytes
    requires Trace(h, c, t)
    decreases |t|
  {
    if t == [] then [] else Data(t[0])[c.offset..] + Read(h, Past(t[0]), t[1..])
  }

  function After(h: Hash, c: Cursor, t: seq<Bytes>): Cursor
    requires Trace(h, c, t)
    decreases |t|
  {
    if t == [] then c else After(h, Past(t[0]), t[1..])
  }

  /** The cursor once `k` bytes have been taken: inside a block, or past it when the block is used up. */
  function Advanced(h: Hash, c: Cursor, t: seq<Bytes>, k: nat): Cursor
    requires Trace(h, c, t) && k <= |Read(h, c, t)|
    decreases |t|
  {
    if k == 0 || t == [] then c
    else if c.offset + k < |Data(t[0])| then Cursor(c.head, c.offset + k)
    else Advanced(h, Past(t[0]), t[1..], k - (|Data(t[0])| - c.offset))
  }

  /** What a reader at that advanced cursor would be served. */
  function Onward(h: Hash, c: Cursor, t: seq<Bytes>, k: nat): seq<Bytes>
    requires Trace(h, c, t) && k <= |Read(h, c, t)|
    decreases |t|
  {
    if k == 0 || t == [] then t
    else if c.offset + k < |Data(t[0])| then t
    else Onward(h, Past(t[0]), t[1..], k - (|Data(t[0])| - c.offset))
  }

  /** No two different ones among these blocks have the same hash. */
  ghost predicate NoCollision(h: Hash, s: set<Bytes>) {
    forall x, y :: x in s && y in s && h(x) == h(y) ==> x == y
  }

  function Set(t: seq<Bytes>): set<Bytes> {
    set b | b in t
  }

  // ---------------------------------------------------------------- traces

  lemma {:induction false} TraceSnoc(h: Hash, c: Cursor, t: seq<Bytes>, b: Bytes)
    requires Trace(h, c, t) && Serves(h, After(h, c, t), b)
    ensures Trace(h, c, t + [b]) && After(h, c, t + [b]) == Past(b)
    ensures Read(h, c, t + [b]) == Read(h, c, t) + Data(b)[After(h, c, t).offset..]
    decreases |t|
  {
    if t == [] {
      assert [b][1..] == [];
      assert [] + [b] == [b];
      assert Read(h, Past(b), []) == [];
    } else {
      assert (t + [b])[1..] == t[1..] + [b];
      TraceSnoc(h, Past(t[0]), t[1..], b);
    }
  }

  lemma {:induction false} OnwardReads(h: Hash, c: Cursor, t: seq<Bytes>, k: nat)
    requires Trace(h, c, t) && k <= |Read(h, c, t)|
    ensures var d, u := Advanced(h, c, t, k), Onward(h, c, t, k);
            Trace(h, d, u) && Read(h, d, u) == Read(h, c, t)[k..] && Set(u) <= Set(t)
    decreases |t|
  {
    if k == 0 || t == [] {
    } else if c.offset + k < |Data(t[0])| {
      assert Data(t[0])[c.offset..][k..] == Data(t[0])[c.offset + k..];
    } else {
      OnwardReads(h, Past(t[0]), t[1..], k - (|Data(t[0])| - c.offset));
      assert t[1..] == t[1..];
      assert forall b :: b in t[1..] ==> b in t;
    }
  }

  lemma {:induction false} ReadFirst(h: Hash, c: Cursor, b: Bytes, rest: seq<Bytes>)
    requires Serves(h, c, b) && Trace(h, Past(b), rest)
    ensures Trace(h, c, [b] + rest)
    ensures Read(h, c, [b] + rest) == Data(b)[c.offset..] + Read(h, Past(b), rest)
  {
    assert ([b] + rest)[1..] == rest;
  }

  lemma {:induction false} Spliced(buf: Bytes, d: Bytes, i: nat, j: nat, after: Bytes)
    requires i <= j <= |d|
    ensures (buf + d[i..j]) + (d[j..] + after) == buf + (d[i..] + after)
  {
    assert d[i..] == d[i..j] + d[j..];
    Associate(d[i..j], d[j..], after);
    Associate(buf, d[i..j], d[j..] + after);
  }

  /** Part of the first block is taken. */
  lemma {:induction false} TakenInside(h: Hash, at: Cursor, u: seq<Bytes>, buf: Bytes, k: nat)
    requires Trace(h, at, u) && u != [] && k < |Data(u[0])| - at.offset
    ensures var at' := Cursor(at.head, at.offset + k);
            && Trace(h, at', u)
            && (buf + Data(u[0])[at.offset..at.offset + k]) + Read(h, at', u) == buf + Read(h, at, u)
  {
    assert u == [u[0]] + u[1..];
    ReadFirst(h, at, u[0], u[1..]);
    ReadFirst(h, Cursor(at.head, at.offset + k), u[0], u[1..]);
    Spliced(buf, Data(u[0]), at.offset, at.offset + k, Read(h, Past(u[0]), u[1..]));
  }

  /** The first block is taken to its end. */
  lemma {:induction false} TakenAll(h: Hash, at: Cursor, u: seq<Bytes>, buf: Bytes)
    requires Trace(h, at, u) && u != []
    ensures (buf + Data(u[0])[at.offset..]) + Read(h, Past(u[0]), u[1..]) == buf + Read(h, at, u)
  {
    Associate(buf, Data(u[0])[at.offset..], Read(h, Past(u[0]), u[1..]));
  }

  /** Without collisions, readers that start at the same cursor are served the same blocks, however the host
      behaves; so one has read a prefix of what the other has read. */
  lemma {:induction false} TracesAgree(h: Hash, c: Cursor, t: seq<Bytes>, u: seq<Bytes>)
    requires Trace(h, c, t) && Trace(h, c, u) && |t| <= |u| && NoCollision(h, Set(t) + Set(u))
    ensures t <= u && Read(h, c, t) <= Read(h, c, u)
    decreases |t|
  {
    if t == [] {
    } else {
      assert t[0] in Set(t) && u[0] in Set(u);
      assert t[0] == u[0];
      assert Set(t[1..]) <= Set(t) && Set(u[1..]) <= Set(u);
      TracesAgree(h, Past(t[0]), t[1..], u[1..]);
    }
  }

  lemma {:induction false} NoCollisionWithin(h: Hash, s: set<Bytes>, s': set<Bytes>)
    requires s <= s' && NoCollision(h, s')
    ensures NoCollision(h, s)
  {
  }

  /** A clone reads what the original would read. */
  lemma {:induction false} ReadsAgree(h: Hash, c: Cursor, t: seq<Bytes>, u: seq<Bytes>, n: nat)
    requires Trace(h, c, t) && Trace(h, c, u) && NoCollision(h, Set(t) + Set(u))
    requires n <= |Read(h, c, t)|
    ensures Take(Read(h, c, u), n) <= Take(Read(h, c, t), n)
    ensures n <= |Read(h, c, u)| ==> Take(Read(h, c, u), n) == Take(Read(h, c, t), n)
  {
    if |t| <= |u| {
      TracesAgree(h, c, t, u);
    } else {
      assert Set(t) + Set(u) == Set(u) + Set(t);
      TracesAgree(h, c, u, t);
    }
  }

  lemma {:induction false} AdvancedAgrees(h: Hash, c: Cursor, t: seq<Bytes>, u: seq<Bytes>, k: nat)
    requires Trace(h, c, t) && Trace(h, c, u) && NoCollision(h, Set(t) + Set(u))
    requires k <= |Read(h, c, t)| && k <= |Read(h, c, u)|
    ensures Advanced(h, c, t, k) == Advanced(h, c, u, k)
    decreases |t|
  {
    if k == 0 {
    } else {
      assert t != [] && u != [];
      assert t[0] in Set(t) && u[0] in Set(u);
      assert t[0] == u[0];
      if c.offset + k >= |Data(t[0])| {
        assert Set(t[1..]) <= Set(t) && Set(u[1..]) <= Set(u);
        AdvancedAgrees(h, Past(t[0]), t[1..], u[1..], k - (|Data(t[0])| - c.offset));
      }
    }
  }

  lemma {:induction false} SameAdvance(h: Hash, c: Cursor, t: seq<Bytes>, u: seq<Bytes>, k: nat, all: set<Bytes>)
    requires Trace(h, c, t) && Trace(h, c, u) && Set(t) <= all && Set(u) <= all && NoCollision(h, all)
    requires k <= |Read(h, c, t)| && k <= |Read(h, c, u)|
    ensures Advanced(h, c, t, k) == Advanced(h, c, u, k)
  {
    NoCollisionWithin(h, Set(t) + Set(u), all);
    AdvancedAgrees(h, c, t, u, k);
  }

  lemma {:induction false} TakeOfDrop(b: Bytes, k: nat, n: nat)
    requires k + n <= |b|
    ensures Take(b[k..], n) == b[k..k + n]
  {
  }

  lemma {:induction false} SuffixOf(h: Hash, d: Cursor, u: seq<Bytes>, rest: seq<Bytes>, data: Bytes, k: nat, n: nat,
                                    all: set<Bytes>)
    requires Trace(h, d, u) && n <= |Read(h, d, u)|
    requires k + n <= |data| && Trace(h, d, rest) && Read(h, d, rest) == data[k..]
    requires Set(u) <= all && Set(rest) <= all && NoCollision(h, all)
    ensures Take(Read(h, d, u), n) == data[k..k + n]
  {
    NoCollisionWithin(h, Set(u) + Set(rest), all);
    ReadsAgree(h, d, u, rest, n);
    TakeOfDrop(data, k, n);
  }

  lemma {:induction false} ClonedAt(h: Hash, c: Cursor, d: Cursor, u: seq<Bytes>, whole: seq<Bytes>, k: nat, n: nat,
                                    all: set<Bytes>)
    requires Trace(h, c, whole) && k + n <= |Read(h, c, whole)| && d == Advanced(h, c, whole, k)
    requires Trace(h, d, u) && n <= |Read(h, d, u)|
    requires Set(u) <= all && Set(whole) <= all && NoCollision(h, all)
    ensures Take(Read(h, d, u), n) == Read(h, c, whole)[k..k + n]
  {
    OnwardReads(h, c, whole, k);
    SuffixOf(h, d, u, Onward(h, c, whole, k), Read(h, c, whole), k, n, all);
  }

  /** Reading on from a clone `k` bytes into the stream agrees with reading the stream from its start. */
  lemma {:induction false} CloneReadsSuffix(h: Hash, c: Cursor, t: seq<Bytes>, k: nat, u: seq<Bytes>,
                                            whole: seq<Bytes>, n: nat)
    requires Trace(h, c, t) && k <= |Read(h, c, t)| && Trace(h, Advanced(h, c, t, k), u) && Trace(h, c, whole)
    requires NoCollision(h, Set(t) + Set(u) + Set(whole))
    requires n <= |Read(h, Advanced(h, c, t, k), u)| && k + n <= |Read(h, c, whole)|
    ensures Take(Read(h, Advanced(h, c, t, k), u), n) == Read(h, c, whole)[k..k + n]
  {
    var all := Set(t) + Set(u) + Set(whole);
    SameAdvance(h, c, t, whole, k, all);
    ClonedAt(h, c, Advanced(h, c, t, k), u, whole, k, n, all);
  }

  // ---------------------------------------------------------------- the host's side

  /** Chunks of `size` bytes, linked back to front; the last block carries the end link. */
  function Chain(h: Hash, size: nat, data: Bytes): (bs: seq<Bytes>)
    requires size > 0
    ensures |bs| > 0
    decreases |data|
  {
    if |data| <= size then [seq(32, i => 0) + data]
    else
      var rest := Chain(h, size, data[size..]);
      [h(rest[0]) + data[..size]] + rest
  }

  function Head(h: Hash, size: nat, data: Bytes): Cursor
    requires size > 0
  {
    Cursor(h(Chain(h, size, data)[0]), 0)
  }

  /** `h` gives digests, and none of these blocks has the digest that marks the end. */
  ghost predicate ProperHash(h: Hash, bs: seq<Bytes>) {
    (forall b :: |h(b)| == 32) && forall b :: b in bs ==> h(b) != EndLink()
  }

  lemma {:induction false} ProperRest(h: Hash, first: Bytes, rest: seq<Bytes>)
    requires ProperHash(h, [first] + rest)
    ensures ProperHash(h, rest) && h(first) != EndLink()
  {
    assert ([first] + rest)[0] == first;
    assert forall b :: b in rest ==> b in [first] + rest;
  }

  lemma {:induction false} LastBlock(h: Hash, link: Bytes, data: Bytes)
    requires |link| == LINK_LENGTH && link == EndLink() && h(link + data) != EndLink()
    ensures var b := link + data;
            Trace(h, Cursor(h(b), 0), [b]) && Read(h, Cursor(h(b), 0), [b]) == data
            && AtEnd(After(h, Cursor(h(b), 0), [b]))
  {
    var b: Bytes := link + data;
    Cut(link, data);
    var t: seq<Bytes> := [b];
    assert t[1..] == [];
    assert Read(h, Past(b), []) == [];
    assert Data(b)[0..] + [] == data;
  }

  lemma {:induction false} FirstBlock(h: Hash, b: Bytes, rest: seq<Bytes>, part: Bytes)
    requires rest != [] && IsBlock(b) && b == h(rest[0]) + part && |h(rest[0])| == LINK_LENGTH && h(b) != EndLink()
    requires Trace(h, Cursor(h(rest[0]), 0), rest)
    ensures var c, c' := Cursor(h(b), 0), Cursor(h(rest[0]), 0);
            && Trace(h, c, [b] + rest) && Read(h, c, [b] + rest) == part + Read(h, c', rest)
            && After(h, c, [b] + rest) == After(h, c', rest)
  {
    Cut(h(rest[0]), part);
    assert ([b] + rest)[1..] == rest;
    assert Past(b) == Cursor(h(rest[0]), 0);
    assert Data(b)[0..] == part;
  }

  /** Reading a chain from its head gives back exactly the parameter and arrives at the end link. */
  lemma {:induction false} ChainReadsBack(h: Hash, size: nat, data: Bytes)
    requires size > 0 && ProperHash(h, Chain(h, size, data))
    ensures var bs := Chain(h, size, data);
            var c := Head(h, size, data);
            Trace(h, c, bs) && Read(h, c, bs) == data && AtEnd(After(h, c, bs))
    decreases |data|
  {
    if |data| <= size {
      assert EndLink() == seq(32, i => 0);
      LastBlock(h, EndLink(), data);
    } else {
      var rest := Chain(h, size, data[size..]);
      var first: Bytes := h(rest[0]) + data[..size];
      ProperRest(h, first, rest);
      ChainReadsBack(h, size, data[size..]);
      FirstBlock(h, first, rest, data[..size]);
      assert data == data[..size] + data[size..];
    }
  }

  /** Nobody is served more than a reader who has come to the end. */
  lemma {:induction false} EndIsLast(h: Hash, c: Cursor, t: seq<Bytes>, u: seq<Bytes>)
    requires Trace(h, c, t) && Trace(h, c, u) && NoCollision(h, Set(t) + Set(u)) && AtEnd(After(h, c, u))
    ensures |t| <= |u|
    decreases |t|
  {
    if t == [] || u == [] {
    } else {
      assert t[0] in Set(t) && u[0] in Set(u);
      assert t[0] == u[0];
      NoCollisionWithin(h, Set(t[1..]) + Set(u[1..]), Set(t) + Set(u));
      EndIsLast(h, Past(t[0]), t[1..], u[1..]);
    }
  }

  /** Beside a complete trace, any other one reads a prefix, and all of it if it ends too. */
  lemma {:induction false} BesideComplete(h: Hash, c: Cursor, t: seq<Bytes>, bs: seq<Bytes>)
    requires Trace(h, c, t) && Trace(h, c, bs) && AtEnd(After(h, c, bs)) && NoCollision(h, Set(t) + Set(bs))
    ensures Read(h, c, t) <= Read(h, c, bs)
    ensures AtEnd(After(h, c, t)) ==> t == bs
  {
    EndIsLast(h, c, t, bs);
    TracesAgree(h, c, t, bs);
    if AtEnd(After(h, c, t)) {
      NoCollisionWithin(h, Set(bs) + Set(t), Set(t) + Set(bs));
      EndIsLast(h, c, bs, t);
    }
  }

  /** Whatever an arbitrary host served, it is the beginning of the chain's data. */
  lemma {:induction false} ServedIsChain(h: Hash, size: nat, data: Bytes, t: seq<Bytes>)
    requires size > 0 && ProperHash(h, Chain(h, size, data))
    requires var c := Head(h, size, data); Trace(h, c, t) && NoCollision(h, Set(t) + Set(Chain(h, size, data)))
    ensures var c := Head(h, size, data);
            Read(h, c, t) <= data && (AtEnd(After(h, c, t)) ==> Read(h, c, t) == data)
  {
    ChainReadsBack(h, size, data);
    BesideComplete(h, Head(h, size, data), t, Chain(h, size, data));
  }
}
