// Message structure: what an interpreter of a message does on the encoding of any list of fields.

module Messages {
  import opened Octets
  import opened Wire
  import opened Interp

  /** A field on the wire. */
  datatype Wired =
    | Chunk(number: nat, payload: Bytes) // length-delimited
    | Count(number: nat, n: nat)         // varint
    | Fixed(number: nat, data: Bytes)    // four or eight bytes

  function EncodeOne(f: Wired): (b: Bytes)
    ensures |b| > 0
  {
    match f
    case Chunk(number, payload) => BytesField(number, payload)
    case Count(number, n) => NumberField(number, n)
    case Fixed(number, data) => Tag(number, if |data| == 8 then WIRE_FIXED64 else WIRE_FIXED32) + data
  }

  function Encode(fs: seq<Wired>): Bytes {
    if fs == [] then [] else EncodeOne(fs[0]) + Encode(fs[1..])
  }

  /** Tag and payload length are 64-bit varints. */
  predicate Sized(f: Wired) {
    && 8 * f.number + 7 < U64_LIMIT
    && (f.Chunk? ==> |f.payload| < U64_LIMIT)
    && (f.Count? ==> f.n < U64_LIMIT)
    && (f.Fixed? ==> |f.data| == 4 || |f.data| == 8)
  }

  predicate AllSized(fs: seq<Wired>) {
    forall k :: 0 <= k < |fs| ==> Sized(fs[k])
  }

  /** One field seen by an interpreter that knows its number as `kind`. */
  function RunOne<S>(lib: Library, on: (Event, S) -> (bool, S), kind: Kind, f: Wired, s: S): Out<S> {
    match kind
    case Delimited(i) => if f.Chunk? then Eval(lib, on, i, f.payload, |f.payload|, s) else Reject(s)
    case Varying(sc) => if f.Count? then EvalScalar(on, sc, f.n, s) else Reject(s)
  }

  /** The reference meaning of a message: fold over its fields; numbers nobody asked for are passed over. */
  function RunFields<S>(lib: Library, on: (Event, S) -> (bool, S), fs: Fields, list: seq<Wired>,
                        rec: map<nat, Value>, s: S): (o: Out<S>)
    ensures o.Accept? ==> o.value.Record?
    decreases |list|
  {
    if list == [] then Accept(Record(rec), s)
    else
      match Lookup(fs, list[0].number)
      case None => RunFields(lib, on, fs, list[1..], rec, s)
      case Some(kind) =>
        match RunOne(lib, on, kind, list[0], s)
        case Accept(v, s') =>
          (match Store(lib, rec, list[0].number, v)
           case None => Reject(s')
           case Some(rec') => RunFields(lib, on, fs, list[1..], rec', s'))
        case undone => undone
  }

  lemma {:induction false} TagReads(number: nat, wire: nat, rest: Bytes, n: nat)
    requires wire < 8 && 8 * number + 7 < U64_LIMIT && n >= |Tag(number, wire)|
    ensures var r := ReadVarint(Tag(number, wire) + rest, n, VARINT_ROOM);
            r.Got? && r.used == |Tag(number, wire)| && r.n / 8 == number && r.n % 8 == wire
    ensures (Tag(number, wire) + rest)[|Tag(number, wire)|..] == rest
  {
    U64ReadsBack(8 * number + wire, rest, n);
  }

  /** One step of the fold, then the bytes behind the field. */
  function FieldThen<S>(lib: Library, on: (Event, S) -> (bool, S), fs: Fields, f: Wired, rest: Bytes,
                        rec: map<nat, Value>, s: S): Out<S>
  {
    match Lookup(fs, f.number)
    case None => EvalFields(lib, on, fs, rest, |rest|, rec, s)
    case Some(kind) =>
      match RunOne(lib, on, kind, f, s)
      case Accept(v, s') =>
        (match Store(lib, rec, f.number, v)
         case None => Reject(s')
         case Some(rec') => EvalFields(lib, on, fs, rest, |rest|, rec', s'))
      case undone => undone
  }

  /** The parts of an encoded payload. */
  lemma {:induction false} ChunkParts(payload: Bytes, rest: Bytes)
    requires |payload| < U64_LIMIT
    ensures var len := Varint(|payload|);
            var body := len + payload + rest;
            && ReadVarint(body, |body|, VARINT_ROOM) == Got(|payload|, |len|)
            && Take(body[|len|..], |payload|) == payload && body[|len| + |payload|..] == rest
  {
    var len := Varint(|payload|);
    var body := len + payload + rest;
    Associate(len, payload, rest);
    Cut(len, payload + rest);
    Cut(payload, rest);
    U64ReadsBack(|payload|, payload + rest, |body|);
    assert body[|len| + |payload|..] == body[|len|..][|payload|..];
  }

  lemma {:induction false} EncodeConcat(a: seq<Wired>, b: seq<Wired>)
    ensures Encode(a + b) == Encode(a) + Encode(b)
  {
    if a == [] {
      assert a + b == b;
    } else {
      assert (a + b)[1..] == a[1..] + b;
      EncodeConcat(a[1..], b);
    }
  }

  function RunThen<S>(lib: Library, on: (Event, S) -> (bool, S), fs: Fields, o: Out<S>, b: seq<Wired>): Out<S>
    requires o.Accept? ==> o.value.Record?
  {
    match o
    case Accept(v, s) => RunFields(lib, on, fs, b, v.fields, s)
    case undone => undone
  }

  /** Reading one list of fields after another. */
  lemma {:induction false} RunConcat<S>(lib: Library, on: (Event, S) -> (bool, S), fs: Fields, a: seq<Wired>,
                                        b: seq<Wired>, rec: map<nat, Value>, s: S)
    ensures RunFields(lib, on, fs, a + b, rec, s) == RunThen(lib, on, fs, RunFields(lib, on, fs, a, rec, s), b)
    decreases |a|
  {
    if a == [] {
      assert a + b == b;
    } else {
      assert (a + b)[1..] == a[1..] + b;
      match Lookup(fs, a[0].number)
      case None => RunConcat(lib, on, fs, a[1..], b, rec, s);
      case Some(kind) =>
        var o := RunOne(lib, on, kind, a[0], s);
        if o.Accept? {
          var kept := Store(lib, rec, a[0].number, o.value);
          if kept.Some? { RunConcat(lib, on, fs, a[1..], b, kept.value, o.st); }
        }
    }
  }

  // ---------------------------------------------------------------- fields without effect

  /** A field the interpreter drops, or does not know. */
  predicate Dropped(fs: Fields, f: Wired) {
    match Lookup(fs, f.number)
    case None => true
    case Some(Delimited(i)) => i.Drop? && f.Chunk?
    case Some(Varying(sc)) => sc.DropNumber? && f.Count?
  }

  function Kept(fs: Fields, list: seq<Wired>): seq<Wired> {
    if list == [] then []
    else (if Dropped(fs, list[0]) then [] else [list[0]]) + Kept(fs, list[1..])
  }

  predicate Droppable(kind: Kind) {
    match kind
    case Delimited(i) => i.Drop?
    case Varying(sc) => sc.DropNumber?
  }

  predicate DroppableAt(fs: Fields, m: nat) {
    Lookup(fs, m).Some? && Droppable(Lookup(fs, m).value)
  }

  /** Two records that differ at most in the marks left by dropped fields. */
  ghost predicate SameKept(fs: Fields, a: map<nat, Value>, b: map<nat, Value>) {
    && (forall m: nat :: !DroppableAt(fs, m) ==> (m in a <==> m in b) && (m in a ==> a[m] == b[m]))
    && (forall m: nat :: DroppableAt(fs, m) ==> (m in a ==> a[m].Unit?) && (m in b ==> b[m].Unit?))
  }

  ghost predicate SameOut<S>(fs: Fields, o: Out<S>, p: Out<S>) {
    && o.st == p.st
    && (o.Accept? <==> p.Accept?) && (o.Reject? <==> p.Reject?)
    && (o.Accept? && o.value.Record? && p.value.Record? ==> SameKept(fs, o.value.fields, p.value.fields))
  }

  /** Dropped fields never change the result: leave them all out and the same things happen. */
  lemma {:induction false} DroppedHaveNoEffect<S>(lib: Library, on: (Event, S) -> (bool, S), fs: Fields,
                                                  list: seq<Wired>, rec: map<nat, Value>, rec': map<nat, Value>, s: S)
    requires SameKept(fs, rec, rec')
    ensures SameOut(fs, RunFields(lib, on, fs, list, rec, s), RunFields(lib, on, fs, Kept(fs, list), rec', s))
    decreases |list|
  {
    if list == [] {
    } else {
      var f := list[0];
      if Dropped(fs, f) {
        assert Kept(fs, list) == Kept(fs, list[1..]);
        var next := if Lookup(fs, f.number).None? then rec else rec[f.number := Unit];
        DroppedHaveNoEffect(lib, on, fs, list[1..], next, rec', s);
      } else {
        assert Kept(fs, list)[1..] == Kept(fs, list[1..]);
        var o := RunOne(lib, on, Lookup(fs, f.number).value, f, s);
        if o.Accept? {
          var kept, kept' := Store(lib, rec, f.number, o.value), Store(lib, rec', f.number, o.value);
          if kept.Some? && kept'.Some? {
            DroppedHaveNoEffect(lib, on, fs, list[1..], kept.value, kept'.value, o.st);
          }
        }
      }
    }
  }

  lemma {:induction false} SameKeptSameValue(fs: Fields, a: map<nat, Value>, b: map<nat, Value>)
    requires SameKept(fs, a, b)
    ensures Valued(a) == Valued(b)
  {
    assert forall m: nat :: m in Valued(a) <==> m in Valued(b);
  }

  // ---------------------------------------------------------------- one pass of an ordered message

  lemma {:induction false} PassOver<S>(lib: Library, on: (Event, S) -> (bool, S), number: nat, repeated: bool,
                                       kind: Kind, list: seq<Wired>, rec: map<nat, Value>, s: S)
    requires forall k :: 0 <= k < |list| ==> list[k].number != number
    ensures RunFields(lib, on, Single(number, repeated, kind), list, rec, s) == Accept(Record(rec), s)
    decreases |list|
  {
    if list == [] {
    } else {
      PassOver(lib, on, number, repeated, kind, list[1..], rec, s);
    }
  }

  /** A record of one field. */
  function Alone<S>(number: nat, o: Out<S>): Out<S> {
    match o
    case Accept(v, s) => Accept(Record(map[number := v]), s)
    case undone => undone
  }

  lemma {:induction false} PassAmong<S>(lib: Library, on: (Event, S) -> (bool, S), number: nat, repeated: bool,
                                        kind: Kind, before: seq<Wired>, f: Wired, after: seq<Wired>, s: S)
    requires f.number == number
    requires forall j :: 0 <= j < |before| ==> before[j].number != number
    requires forall j :: 0 <= j < |after| ==> after[j].number != number
    ensures RunFields(lib, on, Single(number, repeated, kind), before + ([f] + after), map[], s) ==
            Alone(number, RunOne(lib, on, kind, f, s))
  {
    RunConcat(lib, on, Single(number, repeated, kind), before, [f] + after, map[], s);
    PassOver(lib, on, number, repeated, kind, before, map[], s);
    assert ([f] + after)[1..] == after;
    var o := RunOne(lib, on, kind, f, s);
    if o.Accept? {
      assert map[][number := o.value] == map[number := o.value];
      PassOver(lib, on, number, repeated, kind, after, map[number := o.value], o.st);
    }
  }

  // ---------------------------------------------------------------- fields in any order

  /** The field stands at this place, and no other field has its number. */
  predicate OnceAt(list: seq<Wired>, f: Wired, k: nat) {
    && k < |list| && list[k] == f
    && forall j :: 0 <= j < |list| && j != k ==> list[j].number != f.number
  }

  ghost predicate HasOnce(list: seq<Wired>, f: Wired) {
    exists k: nat :: OnceAt(list, f, k)
  }

  /** The same fields, in some order. */
  predicate Shuffled(list: seq<Wired>, fields: seq<Wired>) {
    multiset(list) == multiset(fields)
  }

  predicate DistinctNumbers(list: seq<Wired>) {
    forall i, j :: 0 <= i < j < |list| ==> list[i].number != list[j].number
  }

  lemma {:induction false} ShuffledMembers(list: seq<Wired>, fields: seq<Wired>, f: Wired)
    requires Shuffled(list, fields)
    ensures f in list <==> f in fields
  {
    assert f in multiset(list) <==> f in multiset(fields);
  }

  lemma {:induction false} CountedTwice(list: seq<Wired>, i: nat, j: nat)
    requires i < j < |list| && list[i] == list[j]
    ensures multiset(list)[list[j]] >= 2
  {
    var a, b := list[..j], list[j..];
    assert list == a + b && a[i] == list[j] && b[0] == list[j];
    assert list[j] in a && list[j] in b;
  }

  lemma {:induction false} CountedOnce(list: seq<Wired>, k: nat)
    requires DistinctNumbers(list) && k < |list|
    ensures multiset(list)[list[k]] == 1
  {
    Around(list, k);
    var a, b := list[..k], list[k + 1..];
    assert list[k] !in a && list[k] !in b;
    assert multiset(list) == multiset(a) + (multiset{list[k]} + multiset(b));
  }

  lemma {:induction false} ShuffledDistinct(list: seq<Wired>, fields: seq<Wired>)
    requires Shuffled(list, fields) && DistinctNumbers(fields)
    ensures DistinctNumbers(list)
  {
    forall i, j | 0 <= i < j < |list| ensures list[i].number != list[j].number {
      if list[i].number == list[j].number {
        ShuffledMembers(list, fields, list[i]);
        ShuffledMembers(list, fields, list[j]);
        var a :| 0 <= a < |fields| && fields[a] == list[i];
        var b :| 0 <= b < |fields| && fields[b] == list[j];
        assert a == b;
        CountedTwice(list, i, j);
        CountedOnce(fields, a);
        assert false;
      }
    }
  }

  /** The run of one field that keeps a value, or refuses, and does nothing else. */
  function Plainly<S>(v: Option<Value>, s: S): Out<S> {
    match v
    case None => Reject(s)
    case Some(x) => Accept(x, s)
  }

  /** These fields only keep values: the one for each, if any, is `val` of it. */
  ghost predicate OnlyKeeps<S>(lib: Library, on: (Event, S) -> (bool, S), fs: Fields, list: seq<Wired>,
                               val: Wired -> Option<Value>, s: S) {
    forall k :: 0 <= k < |list| ==>
      && Lookup(fs, list[k].number).Some?
      && RunOne(lib, on, Lookup(fs, list[k].number).value, list[k], s) == Plainly(val(list[k]), s)
  }

  predicate AllThere(list: seq<Wired>, val: Wired -> Option<Value>) {
    forall f :: f in list ==> val(f).Some?
  }

  /** The record is made of these fields' values and nothing else. */
  ghost predicate RecordOf(rec: map<nat, Value>, list: seq<Wired>, val: Wired -> Option<Value>) {
    && (forall f :: f in list ==> f.number in rec && val(f) == Some(rec[f.number]))
    && (forall m :: m in rec ==> exists f :: f in list && f.number == m)
  }

  /** Those fields of `all` that were still to come are kept in the record, or one of them is refused. */
  ghost predicate KeptRun<S>(o: Out<S>, all: seq<Wired>, list: seq<Wired>, val: Wired -> Option<Value>, s: S) {
    if AllThere(list, val) then o.Accept? && o.st == s && o.value.Record? && RecordOf(o.value.fields, all, val)
    else o == Reject(s)
  }

  lemma {:induction false} NotThere(rec: map<nat, Value>, before: seq<Wired>, list: seq<Wired>,
                                    val: Wired -> Option<Value>)
    requires list != [] && DistinctNumbers(before + list) && RecordOf(rec, before, val)
    ensures list[0].number !in rec
    ensures forall f :: f in before ==> f.number != list[0].number
  {
    assert (before + list)[|before|] == list[0];
    forall f | f in before ensures f.number != list[0].number {
      var i :| 0 <= i < |before| && before[i] == f;
      assert (before + list)[i] == f;
    }
  }

  lemma {:induction false} OneMore(rec: map<nat, Value>, before: seq<Wired>, f: Wired, val: Wired -> Option<Value>)
    requires RecordOf(rec, before, val) && val(f).Some?
    requires forall g :: g in before ==> g.number != f.number
    ensures RecordOf(rec[f.number := val(f).value], before + [f], val)
  {
    var rec' := rec[f.number := val(f).value];
    forall m | m in rec' ensures exists g :: g in before + [f] && g.number == m {
      if m == f.number {
        assert f in before + [f];
      } else {
        var g :| g in before && g.number == m;
        assert g in before + [f];
      }
    }
  }

  lemma {:induction false} KeepsAll<S>(lib: Library, on: (Event, S) -> (bool, S), fs: Fields, before: seq<Wired>,
                                       list: seq<Wired>, val: Wired -> Option<Value>, rec: map<nat, Value>, s: S)
    requires OnlyKeeps(lib, on, fs, list, val, s) && DistinctNumbers(before + list) && RecordOf(rec, before, val)
    ensures KeptRun(RunFields(lib, on, fs, list, rec, s), before + list, list, val, s)
    decreases |list|
  {
    if list == [] {
      assert before + list == before;
    } else {
      var f := list[0];
      assert (before + list)[|before|] == f;
      NotThere(rec, before, list, val);
      if val(f).Some? {
        var before', rec' := before + [f], rec[f.number := val(f).value];
        assert before' + list[1..] == before + list;
        OneMore(rec, before, f, val);
        assert OnlyKeeps(lib, on, fs, list[1..], val, s);
        KeepsAll(lib, on, fs, before', list[1..], val, rec', s);
      }
    }
  }

  /** An unordered message of fields that only keep values: the order on the wire does not matter. */
  lemma {:induction false} AnyOrder<S>(lib: Library, on: (Event, S) -> (bool, S), fs: Fields, list: seq<Wired>,
                                       fields: seq<Wired>, val: Wired -> Option<Value>, s: S)
    requires Shuffled(list, fields) && DistinctNumbers(fields) && OnlyKeeps(lib, on, fs, fields, val, s)
    ensures KeptRun(RunFields(lib, on, fs, list, map[], s), fields, fields, val, s)
  {
    ShuffledDistinct(list, fields);
    forall k | 0 <= k < |list|
      ensures Lookup(fs, list[k].number).Some?
      ensures RunOne(lib, on, Lookup(fs, list[k].number).value, list[k], s) == Plainly(val(list[k]), s)
    {
      ShuffledMembers(list, fields, list[k]);
      var i :| 0 <= i < |fields| && fields[i] == list[k];
    }
    assert [] + list == list;
    KeepsAll(lib, on, fs, [], list, val, map[], s);
    forall f ensures f in list <==> f in fields {
      ShuffledMembers(list, fields, f);
    }
  }

  lemma {:induction false} ValuedAll(rec: map<nat, Value>)
    requires forall m :: m in rec ==> !rec[m].Unit?
    ensures Valued(rec) == rec
  {
  }

  lemma {:induction false} RecordOfTwo(rec: map<nat, Value>, f: Wired, g: Wired, val: Wired -> Option<Value>)
    requires RecordOf(rec, [f, g], val) && f.number != g.number && val(f).Some? && val(g).Some?
    ensures rec == map[f.number := val(f).value, g.number := val(g).value]
  {
    assert f in [f, g] && g in [f, g];
  }

  lemma {:induction false} RecordOfThree(rec: map<nat, Value>, f: Wired, g: Wired, h: Wired,
                                         val: Wired -> Option<Value>)
    requires RecordOf(rec, [f, g, h], val) && f.number != g.number && f.number != h.number && g.number != h.number
    requires val(f).Some? && val(g).Some? && val(h).Some?
    ensures rec == map[f.number := val(f).value, g.number := val(g).value, h.number := val(h).value]
  {
    assert f in [f, g, h] && g in [f, g, h] && h in [f, g, h];
  }

  /** The field is known and gives this value, or is refused. */
  ghost predicate Gives<S>(lib: Library, on: (Event, S) -> (bool, S), fs: Fields, f: Wired, v: Option<Value>, s: S) {
    && Lookup(fs, f.number).Some?
    && RunOne(lib, on, Lookup(fs, f.number).value, f, s) == Plainly(v, s)
    && (v.Some? ==> !v.value.Unit?)
  }

  /** A message of two fields that only keep values comes out the same in either order. */
  lemma {:induction false} TwoInAnyOrder<S>(lib: Library, on: (Event, S) -> (bool, S), fs: Fields, list: seq<Wired>,
                                            f: Wired, g: Wired, v: Option<Value>, u: Option<Value>, s: S)
    requires Shuffled(list, [f, g]) && f.number != g.number
    requires Gives(lib, on, fs, f, v, s) && Gives(lib, on, fs, g, u, s)
    ensures RunFields(lib, on, fs, list, map[], s) ==
            if v.Some? && u.Some? then Accept(Record(map[f.number := v.value, g.number := u.value]), s) else Reject(s)
  {
    var val := x => if x == f then v else u;
    AnyOrder(lib, on, fs, list, [f, g], val, s);
    assert f in [f, g] && g in [f, g];
    if v.Some? && u.Some? { RecordOfTwo(RunFields(lib, on, fs, list, map[], s).value.fields, f, g, val); }
  }

  lemma {:induction false} ThreeInAnyOrder<S>(lib: Library, on: (Event, S) -> (bool, S), fs: Fields,
                                              list: seq<Wired>, f: Wired, g: Wired, h: Wired, v: Option<Value>,
                                              u: Option<Value>, t: Option<Value>, s: S)
    requires Shuffled(list, [f, g, h]) && f.number != g.number && f.number != h.number && g.number != h.number
    requires Gives(lib, on, fs, f, v, s) && Gives(lib, on, fs, g, u, s) && Gives(lib, on, fs, h, t, s)
    ensures RunFields(lib, on, fs, list, map[], s) ==
            if v.Some? && u.Some? && t.Some?
            then Accept(Record(map[f.number := v.value, g.number := u.value, h.number := t.value]), s) else Reject(s)
  {
    var val := x => if x == f then v else if x == g then u else t;
    AnyOrder(lib, on, fs, list, [f, g, h], val, s);
    assert f in [f, g, h] && g in [f, g, h] && h in [f, g, h];
    if v.Some? && u.Some? && t.Some? {
      RecordOfThree(RunFields(lib, on, fs, list, map[], s).value.fields, f, g, h, val);
    }
  }
}
