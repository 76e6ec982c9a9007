// The fields of any bytes, found by walking them one by one, however they are encoded; and what an interpreter of
// messages makes of them.

module Windows {
  import opened Octets
  import opened Wire
  import opened Interp
  import opened Messages

  // ---------------------------------------------------------------- the walk

  /** The field at the head of some bytes, and how far it reaches. */
  datatype Front = Whole(field: Wired, used: nat) | Broken

  function FrontTagged(number: nat, wire: nat, w: Bytes, k: nat): (f: Front)
    requires 0 < k <= |w|
    ensures f.Whole? ==> 0 < f.used <= |w| && f.field.number == number
    ensures f.Whole? && f.field.Chunk? ==>
              |f.field.payload| <= f.used && w[f.used - |f.field.payload|..f.used] == f.field.payload
  {
    if wire == WIRE_BYTES then
      match ReadVarint(w[k..], |w| - k, VARINT_ROOM)
      case Got(m, j) =>
        if m > |w| - k - j then Broken else Whole(Chunk(number, w[k + j..k + j + m]), k + j + m)
      case _ => Broken
    else if wire == WIRE_VARINT then
      match ReadVarint(w[k..], |w| - k, VARINT_ROOM)
      case Got(v, j) => Whole(Count(number, v), k + j)
      case _ => Broken
    else if wire == WIRE_FIXED64 then
      if |w| - k < 8 then Broken else Whole(Fixed(number, w[k..k + 8]), k + 8)
    else if wire == WIRE_FIXED32 then
      if |w| - k < 4 then Broken else Whole(Fixed(number, w[k..k + 4]), k + 4)
    else Broken
  }

  function FrontOf(w: Bytes): (f: Front)
    ensures f.Whole? ==> 0 < f.used <= |w|
    ensures f.Whole? && f.field.Chunk? ==>
              |f.field.payload| <= f.used && w[f.used - |f.field.payload|..f.used] == f.field.payload
  {
    match ReadVarint(w, |w|, VARINT_ROOM)
    case Got(tag, k) => FrontTagged(tag / 8, tag % 8, w, k)
    case _ => Broken
  }

  /** The bytes are whole fields, one behind the other, with nothing left over. */
  predicate Filled(w: Bytes)
    decreases |w|
  {
    w == [] || (FrontOf(w).Whole? && Filled(w[FrontOf(w).used..]))
  }

  /** The fields in order, up to where the bytes are no more fields. */
  function FieldsIn(w: Bytes): seq<Wired>
    decreases |w|
  {
    if w == [] || FrontOf(w).Broken? then [] else [FrontOf(w).field] + FieldsIn(w[FrontOf(w).used..])
  }

  /** The payloads among some fields that have this number. */
  function Payloads(list: seq<Wired>, number: nat): seq<Bytes> {
    if list == [] then []
    else
      (if list[0].Chunk? && list[0].number == number then [list[0].payload] else []) + Payloads(list[1..], number)
  }

  /** The varints among some fields that have this number. */
  function Counts(list: seq<Wired>, number: nat): seq<nat> {
    if list == [] then []
    else (if list[0].Count? && list[0].number == number then [list[0].n] else []) + Counts(list[1..], number)
  }

  /** The windows of a message: its payloads of one field number. */
  function WindowsOf(w: Bytes, number: nat): seq<Bytes> {
    Payloads(FieldsIn(w), number)
  }

  predicate SliceAt(p: Bytes, w: Bytes, i: nat) {
    i + |p| <= |w| && w[i..i + |p|] == p
  }

  ghost predicate SliceOf(p: Bytes, w: Bytes) {
    exists i :: SliceAt(p, w, i)
  }

  lemma {:induction false} SliceDeeper(p: Bytes, w: Bytes, n: nat)
    requires n <= |w| && SliceOf(p, w[n..])
    ensures SliceOf(p, w)
  {
    var i :| SliceAt(p, w[n..], i);
    assert SliceAt(p, w, n + i);
  }

  /** Every window lies inside the bytes it was found in. */
  lemma {:induction false} WindowsInside(w: Bytes, number: nat, k: nat)
    requires k < |WindowsOf(w, number)|
    ensures SliceOf(WindowsOf(w, number)[k], w)
    decreases |w|
  {
    var f := FrontOf(w);
    assert FieldsIn(w)[1..] == FieldsIn(w[f.used..]);
    var here := if f.field.Chunk? && f.field.number == number then [f.field.payload] else [];
    if k < |here| {
      assert SliceAt(f.field.payload, w, f.used - |f.field.payload|);
    } else {
      WindowsInside(w[f.used..], number, k - |here|);
      SliceDeeper(WindowsOf(w[f.used..], number)[k - |here|], w, f.used);
    }
  }

  // ---------------------------------------------------------------- the evaluator is the fold over those fields

  /** One step of the walk, then the bytes behind the field. */
  function FrontThen<S>(lib: Library, on: (Event, S) -> (bool, S), fs: Fields, f: Front, w: Bytes,
                        rec: map<nat, Value>, s: S): Out<S>
    requires f.Whole? ==> f.used <= |w|
  {
    match f
    case Broken => Reject(s)
    case Whole(field, used) => FieldThen(lib, on, fs, field, w[used..], rec, s)
  }

  /** A field nobody asked for is stepped over exactly if the walk does. */
  lemma {:induction false} SkipsAsWalk(number: nat, wire: nat, w: Bytes, k: nat)
    requires 0 < k <= |w|
    ensures var f, r := FrontTagged(number, wire, w, k), SkipField(wire, w[k..], |w| - k);
            if f.Whole? then r == Got(r.n, f.used - k) && w[k..][r.used..] == w[f.used..] else r.Malformed?
  {
    SkipFull(wire, w[k..], |w| - k);
    VarintFull(w[k..], |w| - k, VARINT_ROOM);
  }

  lemma {:induction false} UnknownStep<S>(lib: Library, on: (Event, S) -> (bool, S), fs: Fields, number: nat,
                                          wire: nat, w: Bytes, k: nat, rec: map<nat, Value>, s: S)
    requires 0 < k <= |w| && Lookup(fs, number).None?
    ensures EvalTagged(lib, on, fs, number, wire, w[k..], |w| - k, rec, s) ==
            FrontThen(lib, on, fs, FrontTagged(number, wire, w, k), w, rec, s)
  {
    SkipsAsWalk(number, wire, w, k);
  }

  lemma {:induction false} TakeSlice(w: Bytes, k: nat, j: nat, m: nat)
    requires k + j + m <= |w|
    ensures Take(w[k..][j..], m) == w[k + j..k + j + m] && w[k..][j + m..] == w[k + j + m..]
  {
  }

  lemma {:induction false} MistypedStep<S>(lib: Library, on: (Event, S) -> (bool, S), fs: Fields, number: nat,
                                           i: Interp, wire: nat, w: Bytes, k: nat, rec: map<nat, Value>, s: S)
    requires 0 < k <= |w| && Lookup(fs, number) == Some(Delimited(i)) && wire != WIRE_BYTES
    ensures EvalTagged(lib, on, fs, number, wire, w[k..], |w| - k, rec, s) == Reject(s)
    ensures FrontThen(lib, on, fs, FrontTagged(number, wire, w, k), w, rec, s) == Reject(s)
  {
  }

  /** No length, or one that reaches past the window. */
  lemma {:induction false} BrokenStep<S>(lib: Library, on: (Event, S) -> (bool, S), fs: Fields, number: nat,
                                         i: Interp, w: Bytes, k: nat, rec: map<nat, Value>, s: S)
    requires 0 < k <= |w| && Lookup(fs, number) == Some(Delimited(i))
    requires var r := ReadVarint(w[k..], |w| - k, VARINT_ROOM); r.Got? ==> r.n > |w| - k - r.used
    ensures EvalTagged(lib, on, fs, number, WIRE_BYTES, w[k..], |w| - k, rec, s) == Reject(s)
    ensures FrontThen(lib, on, fs, FrontTagged(number, WIRE_BYTES, w, k), w, rec, s) == Reject(s)
  {
    VarintFull(w[k..], |w| - k, VARINT_ROOM);
  }

  lemma {:induction false} ChunkStored<S>(lib: Library, on: (Event, S) -> (bool, S), fs: Fields, number: nat,
                                          i: Interp, w: Bytes, k: nat, r: Reading, rec: map<nat, Value>, s: S)
    requires 0 < k <= |w| && Lookup(fs, number) == Some(Delimited(i))
    requires r == ReadVarint(w[k..], |w| - k, VARINT_ROOM) && r.Got? && r.n <= |w| - k - r.used
    requires var used := k + r.used + r.n;
             && Take(w[k..][r.used..], r.n) == w[k + r.used..used] && w[k..][r.used + r.n..] == w[used..]
    ensures var used := k + r.used + r.n;
            EvalTagged(lib, on, fs, number, WIRE_BYTES, w[k..], |w| - k, rec, s) ==
            FieldThen(lib, on, fs, Chunk(number, w[k + r.used..used]), w[used..], rec, s)
  {
    var p := w[k + r.used..k + r.used + r.n];
    assert EvalTagged(lib, on, fs, number, WIRE_BYTES, w[k..], |w| - k, rec, s) ==
           EvalStored(lib, on, fs, number, Eval(lib, on, i, p, r.n, s), w[k..], |w| - k, r.used + r.n, rec);
  }

  lemma {:induction false} ChunkStep<S>(lib: Library, on: (Event, S) -> (bool, S), fs: Fields, number: nat, i: Interp,
                                        wire: nat, w: Bytes, k: nat, rec: map<nat, Value>, s: S)
    requires 0 < k <= |w| && Lookup(fs, number) == Some(Delimited(i))
    ensures EvalTagged(lib, on, fs, number, wire, w[k..], |w| - k, rec, s) ==
            FrontThen(lib, on, fs, FrontTagged(number, wire, w, k), w, rec, s)
  {
    var r := ReadVarint(w[k..], |w| - k, VARINT_ROOM);
    if wire != WIRE_BYTES {
      MistypedStep(lib, on, fs, number, i, wire, w, k, rec, s);
    } else if r.Got? && r.n <= |w| - k - r.used {
      TakeSlice(w, k, r.used, r.n);
      ChunkStored(lib, on, fs, number, i, w, k, r, rec, s);
      assert FrontTagged(number, wire, w, k) ==
             Whole(Chunk(number, w[k + r.used..k + r.used + r.n]), k + r.used + r.n);
    } else {
      BrokenStep(lib, on, fs, number, i, w, k, rec, s);
    }
  }

  lemma {:induction false} CountStep<S>(lib: Library, on: (Event, S) -> (bool, S), fs: Fields, number: nat, sc: Scalar,
                                        wire: nat, w: Bytes, k: nat, rec: map<nat, Value>, s: S)
    requires 0 < k <= |w| && Lookup(fs, number) == Some(Varying(sc))
    ensures EvalTagged(lib, on, fs, number, wire, w[k..], |w| - k, rec, s) ==
            FrontThen(lib, on, fs, FrontTagged(number, wire, w, k), w, rec, s)
  {
    VarintFull(w[k..], |w| - k, VARINT_ROOM);
    var r := ReadVarint(w[k..], |w| - k, VARINT_ROOM);
    if wire == WIRE_VARINT && r.Got? { assert w[k..][r.used..] == w[k + r.used..]; }
  }

  lemma {:induction false} TaggedStep<S>(lib: Library, on: (Event, S) -> (bool, S), fs: Fields, number: nat, wire: nat,
                                         w: Bytes, k: nat, rec: map<nat, Value>, s: S)
    requires 0 < k <= |w|
    ensures EvalTagged(lib, on, fs, number, wire, w[k..], |w| - k, rec, s) ==
            FrontThen(lib, on, fs, FrontTagged(number, wire, w, k), w, rec, s)
  {
    match Lookup(fs, number)
    case None => UnknownStep(lib, on, fs, number, wire, w, k, rec, s);
    case Some(Delimited(i)) => ChunkStep(lib, on, fs, number, i, wire, w, k, rec, s);
    case Some(Varying(sc)) => CountStep(lib, on, fs, number, sc, wire, w, k, rec, s);
  }

  lemma {:induction false} FrontStep<S>(lib: Library, on: (Event, S) -> (bool, S), fs: Fields, w: Bytes,
                                        rec: map<nat, Value>, s: S)
    requires w != []
    ensures EvalFields(lib, on, fs, w, |w|, rec, s) == FrontThen(lib, on, fs, FrontOf(w), w, rec, s)
  {
    VarintFull(w, |w|, VARINT_ROOM);
    var r := ReadVarint(w, |w|, VARINT_ROOM);
    if r.Got? {
      TaggedStep(lib, on, fs, r.n / 8, r.n % 8, w, r.used, rec, s);
      assert FrontOf(w) == FrontTagged(r.n / 8, r.n % 8, w, r.used);
      assert EvalFields(lib, on, fs, w, |w|, rec, s) ==
             EvalTagged(lib, on, fs, r.n / 8, r.n % 8, w[r.used..], |w| - r.used, rec, s);
    } else {
      assert FrontOf(w) == Broken;
      assert EvalFields(lib, on, fs, w, |w|, rec, s) == Reject(s);
    }
  }

  /** A fold that reaches bytes that are no field is refused. */
  function Ended<S>(filled: bool, o: Out<S>): Out<S> {
    if !filled && o.Accept? then Reject(o.st) else o
  }

  /** On any bytes whatever, the evaluator is the fold over the fields the walk finds, and accepts only bytes that are
      whole fields to the end. */
  lemma {:induction false} DecodedRun<S>(lib: Library, on: (Event, S) -> (bool, S), fs: Fields, w: Bytes,
                                         rec: map<nat, Value>, s: S)
    ensures EvalFields(lib, on, fs, w, |w|, rec, s) ==
            Ended(Filled(w), RunFields(lib, on, fs, FieldsIn(w), rec, s))
    decreases |w|
  {
    if w == [] {
    } else {
      FrontStep(lib, on, fs, w, rec, s);
      var front := FrontOf(w);
      if front.Whole? {
        var f, rest := front.field, w[front.used..];
        assert FieldsIn(w)[0] == f && FieldsIn(w)[1..] == FieldsIn(rest);
        match Lookup(fs, f.number)
        case None => DecodedRun(lib, on, fs, rest, rec, s);
        case Some(kind) =>
          var o := RunOne(lib, on, kind, f, s);
          if o.Accept? {
            var kept := Store(lib, rec, f.number, o.value);
            if kept.Some? { DecodedRun(lib, on, fs, rest, kept.value, o.st); }
          }
      }
    }
  }

  // ---------------------------------------------------------------- the fields of an encoding

  lemma {:induction false} FrontAt(number: nat, wire: nat, body: Bytes)
    requires wire < 8 && 8 * number + 7 < U64_LIMIT
    ensures FrontOf(Tag(number, wire) + body) ==
            FrontTagged(number, wire, Tag(number, wire) + body, |Tag(number, wire)|)
    ensures (Tag(number, wire) + body)[|Tag(number, wire)|..] == body
  {
    TagReads(number, wire, body, |Tag(number, wire) + body|);
  }

  lemma {:induction false} ChunkTagged(number: nat, w: Bytes, k: nat, payload: Bytes, rest: Bytes)
    requires 0 < k <= |w| && w[k..] == Varint(|payload|) + payload + rest && |payload| < U64_LIMIT
    ensures FrontTagged(number, WIRE_BYTES, w, k) ==
            Whole(Chunk(number, payload), k + |Varint(|payload|)| + |payload|)
  {
    ChunkParts(payload, rest);
    TakeSlice(w, k, |Varint(|payload|)|, |payload|);
  }

  lemma {:induction false} ChunkFront(number: nat, payload: Bytes, rest: Bytes)
    requires Sized(Chunk(number, payload))
    ensures var b := BytesField(number, payload); FrontOf(b + rest) == Whole(Chunk(number, payload), |b|)
  {
    var tag := Tag(number, WIRE_BYTES);
    var body := Varint(|payload|) + payload + rest;
    assert BytesField(number, payload) + rest == tag + body;
    FrontAt(number, WIRE_BYTES, body);
    ChunkTagged(number, tag + body, |tag|, payload, rest);
  }

  lemma {:induction false} CountFront(number: nat, v: nat, rest: Bytes)
    requires Sized(Count(number, v))
    ensures var b := NumberField(number, v); FrontOf(b + rest) == Whole(Count(number, v), |b|)
  {
    var tag := Tag(number, WIRE_VARINT);
    var body := Varint(v) + rest;
    assert NumberField(number, v) + rest == tag + body;
    FrontAt(number, WIRE_VARINT, body);
    U64ReadsBack(v, rest, |body|);
  }

  lemma {:induction false} FixedFront(number: nat, data: Bytes, rest: Bytes)
    requires Sized(Fixed(number, data))
    ensures var b := EncodeOne(Fixed(number, data)); FrontOf(b + rest) == Whole(Fixed(number, data), |b|)
  {
    var wire := if |data| == 8 then WIRE_FIXED64 else WIRE_FIXED32;
    var tag := Tag(number, wire);
    assert EncodeOne(Fixed(number, data)) + rest == tag + (data + rest);
    FrontAt(number, wire, data + rest);
    assert (tag + (data + rest))[|tag|..|tag| + |data|] == data;
  }

  lemma {:induction false} EncodedFront(f: Wired, rest: Bytes)
    requires Sized(f)
    ensures FrontOf(EncodeOne(f) + rest) == Whole(f, |EncodeOne(f)|)
    ensures (EncodeOne(f) + rest)[|EncodeOne(f)|..] == rest
  {
    Cut(EncodeOne(f), rest);
    match f
    case Chunk(number, payload) => ChunkFront(number, payload, rest);
    case Count(number, v) => CountFront(number, v, rest);
    case Fixed(number, data) => FixedFront(number, data, rest);
  }

  /** On an encoding the walk finds the fields that were encoded. */
  lemma {:induction false} FieldsOfEncoding(list: seq<Wired>)
    requires AllSized(list)
    ensures Filled(Encode(list)) && FieldsIn(Encode(list)) == list
    decreases |list|
  {
    if list == [] {
    } else {
      var f, rest := list[0], Encode(list[1..]);
      EncodedFront(f, rest);
      FieldsOfEncoding(list[1..]);
      assert Encode(list) == EncodeOne(f) + rest;
      assert FieldsIn(Encode(list)) == [f] + FieldsIn(rest);
      assert list == [list[0]] + list[1..];
    }
  }

  /** On the encoding of any fields, in any order, the evaluator is the fold over them. */
  lemma {:induction false} EncodedRun<S>(lib: Library, on: (Event, S) -> (bool, S), fs: Fields, list: seq<Wired>,
                                         rec: map<nat, Value>, s: S)
    requires AllSized(list)
    ensures EvalFields(lib, on, fs, Encode(list), |Encode(list)|, rec, s) == RunFields(lib, on, fs, list, rec, s)
  {
    FieldsOfEncoding(list);
    DecodedRun(lib, on, fs, Encode(list), rec, s);
  }

  // ---------------------------------------------------------------- messages as bytes

  /** Only the kept fields of a message matter. */
  lemma {:induction false} MessageOfKept<S>(lib: Library, on: (Event, S) -> (bool, S), fs: Fields, w: Bytes, s: S)
    ensures Eval(lib, on, Message(fs), w, |w|, s) ==
            Closed(Ended(Filled(w), RunFields(lib, on, fs, Kept(fs, FieldsIn(w)), map[], s)))
  {
    DecodedRun(lib, on, fs, w, map[], s);
    DroppedHaveNoEffect(lib, on, fs, FieldsIn(w), map[], map[], s);
    var o := RunFields(lib, on, fs, FieldsIn(w), map[], s);
    var p := RunFields(lib, on, fs, Kept(fs, FieldsIn(w)), map[], s);
    if o.Accept? { SameKeptSameValue(fs, o.value.fields, p.value.fields); }
  }

  /** A pass finds the one field it looks for, wherever it stands. */
  lemma {:induction false} FindsOnce<S>(lib: Library, on: (Event, S) -> (bool, S), repeated: bool, kind: Kind, w: Bytes,
                                        f: Wired, s: S)
    requires Filled(w) && HasOnce(FieldsIn(w), f)
    ensures EvalFields(lib, on, Single(f.number, repeated, kind), w, |w|, map[], s) ==
            Alone(f.number, RunOne(lib, on, kind, f, s))
  {
    var list := FieldsIn(w);
    var k: nat :| OnceAt(list, f, k);
    DecodedRun(lib, on, Single(f.number, repeated, kind), w, map[], s);
    Around(list, k);
    PassAmong(lib, on, f.number, repeated, kind, list[..k], list[k], list[k + 1..], s);
  }

  /** A message of two fields that only keep values, in either order, among dropped and unknown fields. */
  lemma {:induction false} TwoFieldMessage<S>(lib: Library, on: (Event, S) -> (bool, S), fs: Fields, w: Bytes, f: Wired,
                                              g: Wired, v: Option<Value>, u: Option<Value>, s: S)
    requires Filled(w) && Shuffled(Kept(fs, FieldsIn(w)), [f, g]) && f.number != g.number
    requires Gives(lib, on, fs, f, v, s) && Gives(lib, on, fs, g, u, s)
    ensures Eval(lib, on, Message(fs), w, |w|, s) ==
            if v.Some? && u.Some? then Accept(Record(map[f.number := v.value, g.number := u.value]), s) else Reject(s)
  {
    MessageOfKept(lib, on, fs, w, s);
    TwoInAnyOrder(lib, on, fs, Kept(fs, FieldsIn(w)), f, g, v, u, s);
    if v.Some? && u.Some? { ValuedAll(map[f.number := v.value, g.number := u.value]); }
  }

  lemma {:induction false} ThreeValued(a: nat, x: Value, b: nat, y: Value, c: nat, z: Value)
    requires !x.Unit? && !y.Unit? && !z.Unit?
    ensures Valued(map[a := x, b := y, c := z]) == map[a := x, b := y, c := z]
  {
    ValuedAll(map[a := x, b := y, c := z]);
  }

  lemma {:induction false} ThreeFieldMessage<S>(lib: Library, on: (Event, S) -> (bool, S), fs: Fields, w: Bytes,
                                                f: Wired, g: Wired, h: Wired, v: Option<Value>, u: Option<Value>,
                                                t: Option<Value>, s: S)
    requires Filled(w) && Shuffled(Kept(fs, FieldsIn(w)), [f, g, h])
    requires f.number != g.number && f.number != h.number && g.number != h.number
    requires Gives(lib, on, fs, f, v, s) && Gives(lib, on, fs, g, u, s) && Gives(lib, on, fs, h, t, s)
    ensures Eval(lib, on, Message(fs), w, |w|, s) ==
            if v.Some? && u.Some? && t.Some?
            then Accept(Record(map[f.number := v.value, g.number := u.value, h.number := t.value]), s) else Reject(s)
  {
    MessageOfKept(lib, on, fs, w, s);
    ThreeInAnyOrder(lib, on, fs, Kept(fs, FieldsIn(w)), f, g, h, v, u, t, s);
    if v.Some? && u.Some? && t.Some? {
      ThreeValued(f.number, v.value, g.number, u.value, h.number, t.value);
    }
  }
}
