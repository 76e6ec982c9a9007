// The combinator tree that reads a transaction, and its evaluator.

module Interp {
  import opened Octets
  import opened Wire

  /** What the interpreters produce; a message keeps its parsed fields by number. */
  datatype Value = Unit | Raw(bytes: Bytes) | Num(n: nat) | Record(fields: map<nat, Value>)

  /** The closures handed to `Action` and `Preaction` in the transaction parser. */
  datatype Act =
    | ShowSend
    | ShowFee
    | ShowCoin
    | ShowString(title: string)
    | ShowProposalId

  datatype Pre = Refuse | Announce(title: string)

  /** A point of a run where the interpreter hands control to one of those closures. */
  datatype Event = Ran(act: Act, value: Value) | Announced(title: string)

  /** Interpreters of a length-delimited schema. */
  datatype Interp =
    | Drop
    | Buffer(cap: nat)
    | Message(fields: Fields)           // the `...UnorderedInterp` structs: fields as they come
    | Ordered(parts: Fields)            // the `...Interp` structs: one pass per field, in schema order
    | AnyOf(arms: Arms, other: Interp)  // `any_of!`: choose by type URL
    | Action(inner: Interp, act: Act)
    | Preaction(pre: Pre, inner: Interp)

  /** Interpreters of a varint field. */
  datatype Scalar = DropNumber | Number | NumberAction(act: Act)

  datatype Kind = Delimited(interp: Interp) | Varying(scalar: Scalar)

  datatype Fields =
    | NoFields
    | Field(number: nat, repeated: bool, kind: Kind, rest: Fields)

  datatype Arms =
    | NoArms
    | Arm(url: Bytes, interp: Interp, rest: Arms)

  /** Decisions taken inside the parser library, which is not part of this model. */
  datatype Library = Library(
    again: (Value, Value) -> Option<Value>, // a kept field occurs again: the value to keep, or refuse
    strict: bool)                           // an ordered message refuses when a singular field is missing

  datatype Out<S> =
    | Accept(value: Value, st: S)
    | Reject(st: S)
    | Starved(st: S) // undecided: more bytes of the window are needed

  // ---------------------------------------------------------------- sizes, for termination

  function Size(i: Interp): (n: nat)
    ensures n > 0
  {
    match i
    case Drop => 1
    case Buffer(_) => 1
    case Message(fs) => 2 + FieldsSize(fs)
    case Ordered(ps) => 2 + FieldsSize(ps)
    case AnyOf(arms, other) => 4 + ArmsSize(arms) + Size(other)
    case Action(inner, _) => 1 + Size(inner)
    case Preaction(_, inner) => 1 + Size(inner)
  }

  function KindSize(k: Kind): (n: nat)
    ensures n > 0
  {
    match k
    case Delimited(i) => Size(i)
    case Varying(_) => 1
  }

  function FieldsSize(fs: Fields): nat {
    match fs
    case NoFields => 0
    case Field(_, _, k, rest) => 2 + KindSize(k) + FieldsSize(rest)
  }

  function ArmsSize(arms: Arms): nat {
    match arms
    case NoArms => 0
    case Arm(_, i, rest) => 8 + Size(i) + ArmsSize(rest)
  }

  // ---------------------------------------------------------------- the evaluator

  function Lookup(fs: Fields, number: nat): (r: Option<Kind>)
    ensures r.Some? ==> KindSize(r.value) + 2 <= FieldsSize(fs)
  {
    match fs
    case NoFields => None
    case Field(m, _, k, rest) => if m == number then Some(k) else Lookup(rest, number)
  }

  function FindArm(arms: Arms, url: Bytes): (r: Option<Interp>)
    ensures r.Some? ==> Size(r.value) + 8 <= ArmsSize(arms)
  {
    match arms
    case NoArms => None
    case Arm(u, i, rest) => if u == url then Some(i) else FindArm(rest, url)
  }

  function WireOf(k: Kind): nat {
    if k.Delimited? then WIRE_BYTES else WIRE_VARINT
  }

  function Single(number: nat, repeated: bool, k: Kind): (fs: Fields)
    ensures FieldsSize(fs) == 2 + KindSize(k)
  {
    Field(number, repeated, k, NoFields)
  }

  /** Field numbers of `google.protobuf.Any`. */
  const TYPE_URL: nat := 1
  const ANY_VALUE: nat := 2

  /** Looks for the type URL only; a URL of any length is kept. */
  function UrlOnly(n: nat): (fs: Fields)
    ensures FieldsSize(fs) == 3
  {
    assert Size(Buffer(n)) == 1;
    Single(TYPE_URL, false, Delimited(Buffer(n)))
  }

  function AnyWith(i: Interp): (fs: Fields)
    ensures FieldsSize(fs) == 5 + Size(i)
  {
    Field(TYPE_URL, false, Delimited(Drop), Single(ANY_VALUE, false, Delimited(i)))
  }

  function UrlIn(rec: map<nat, Value>): Bytes {
    if TYPE_URL in rec && rec[TYPE_URL].Raw? then rec[TYPE_URL].bytes else []
  }

  /** The record after one more occurrence of a field. */
  function Store(lib: Library, rec: map<nat, Value>, number: nat, v: Value): Option<map<nat, Value>> {
    if v.Unit? || number !in rec then Some(rec[number := v])
    else match lib.again(rec[number], v)
      case None => None
      case Some(kept) => Some(rec[number := kept])
  }

  /** The finished record: marks left by fields without a value are taken out. */
  function Valued(rec: map<nat, Value>): map<nat, Value> {
    map m | m in rec && !rec[m].Unit? :: rec[m]
  }

  function Closed<S>(o: Out<S>): (r: Out<S>)
    requires o.Accept? ==> o.value.Record?
    ensures r.st == o.st && (r.Accept? <==> o.Accept?) && (r.Reject? <==> o.Reject?)
  {
    match o
    case Accept(v, s) => Accept(Record(Valued(v.fields)), s)
    case undone => undone
  }

  function Hand<S>(on: (Event, S) -> (bool, S), e: Event, s: S): Out<S> {
    var r := on(e, s);
    if r.0 then Accept(Unit, r.1) else Reject(r.1)
  }

  function EvalScalar<S>(on: (Event, S) -> (bool, S), sc: Scalar, v: nat, s: S): Out<S> {
    match sc
    case DropNumber => Accept(Unit, s)
    case Number => Accept(Num(v), s)
    case NumberAction(act) => Hand(on, Ran(act, Num(v)), s)
  }

  /** Runs `i` on a window of `n` bytes of which `w` are present. The handler `on` is what the closures do:
      it may stop the run, and threads the state `s` through. */
  function Eval<S>(lib: Library, on: (Event, S) -> (bool, S), i: Interp, w: Bytes, n: nat, s: S): (o: Out<S>)
    requires |w| <= n
    ensures o.Accept? ==> |w| == n
    decreases Size(i), n
  {
    match i
    case Drop => if |w| < n then Starved(s) else Accept(Unit, s)
    case Buffer(cap) => if n > cap then Reject(s) else if |w| < n then Starved(s) else Accept(Raw(w), s)
    case Message(fs) => Closed(EvalFields(lib, on, fs, w, n, map[], s))
    case Ordered(parts) => EvalPasses(lib, on, parts, w, n, s)
    case AnyOf(arms, other) =>
      (match EvalFields(lib, on, UrlOnly(n), w, n, map[], s)
       case Accept(v, s') =>
         (match FindArm(arms, UrlIn(v.fields))
          case Some(arm) => EvalPasses(lib, on, AnyWith(arm), w, n, s')
          case None => Eval(lib, on, other, w, n, s'))
       case undone => undone)
    case Action(inner, act) =>
      (match Eval(lib, on, inner, w, n, s)
       case Accept(v, s') => Hand(on, Ran(act, v), s')
       case undone => undone)
    case Preaction(Refuse, inner) => Reject(s)
    case Preaction(Announce(title), inner) =>
      (match Hand(on, Announced(title), s)
       case Accept(_, s') => Eval(lib, on, inner, w, n, s')
       case undone => undone)
  }

  /** Reads fields until the window is used up. */
  function EvalFields<S>(lib: Library, on: (Event, S) -> (bool, S), fs: Fields, w: Bytes, n: nat,
                         rec: map<nat, Value>, s: S): (o: Out<S>)
    requires |w| <= n
    ensures o.Accept? ==> |w| == n && o.value.Record?
    decreases FieldsSize(fs), n
  {
    if n == 0 then Accept(Record(rec), s)
    else
      match ReadVarint(w, n, VARINT_ROOM)
      case Malformed => Reject(s)
      case Short => Starved(s)
      case Got(tag, k) => EvalTagged(lib, on, fs, tag / 8, tag % 8, w[k..], n - k, rec, s)
  }

  /** Reads the payload of a field whose tag has been read, and goes on. */
  function EvalTagged<S>(lib: Library, on: (Event, S) -> (bool, S), fs: Fields, number: nat, wire: nat,
                         w: Bytes, n: nat, rec: map<nat, Value>, s: S): (o: Out<S>)
    requires |w| <= n
    ensures o.Accept? ==> |w| == n && o.value.Record?
    decreases FieldsSize(fs), n, 1
  {
    match Lookup(fs, number)
    case None =>
      (match SkipField(wire, w, n)
       case Malformed => Reject(s)
       case Short => Starved(s)
       case Got(_, j) => EvalFields(lib, on, fs, w[j..], n - j, rec, s))
    case Some(kind) =>
      if wire != WireOf(kind) then Reject(s)
      else
        match ReadVarint(w, n, VARINT_ROOM)
        case Malformed => Reject(s)
        case Short => Starved(s)
        case Got(v, j) =>
          match kind
          case Varying(sc) =>
            EvalStored(lib, on, fs, number, EvalScalar(on, sc, v, s), w, n, j, rec)
          case Delimited(i) =>
            if v > n - j then Reject(s)
            else
              var o := Eval(lib, on, i, Take(w[j..], v), v, s);
              EvalStored(lib, on, fs, number, o, w, n, j + v, rec)
  }

  /** Keeps what a field gave and goes on behind its payload. */
  function EvalStored<S>(lib: Library, on: (Event, S) -> (bool, S), fs: Fields, number: nat, got: Out<S>,
                         w: Bytes, n: nat, used: nat, rec: map<nat, Value>): (o: Out<S>)
    requires |w| <= n && 0 < used <= n && (got.Accept? ==> used <= |w|)
    ensures o.Accept? ==> |w| == n && o.value.Record?
    decreases FieldsSize(fs), n, 0
  {
    match got
    case Accept(v, s) =>
      (match Store(lib, rec, number, v)
       case None => Reject(s)
       case Some(rec') => EvalFields(lib, on, fs, w[used..], n - used, rec', s))
    case undone => undone
  }

  /** Reads the same window once per field. */
  function EvalPasses<S>(lib: Library, on: (Event, S) -> (bool, S), parts: Fields, w: Bytes, n: nat, s: S): (o: Out<S>)
    requires |w| <= n
    ensures o.Accept? ==> |w| == n
    decreases FieldsSize(parts) + 1, n
  {
    match parts
    case NoFields => if |w| < n then Starved(s) else Accept(Unit, s)
    case Field(number, repeated, kind, rest) =>
      match EvalFields(lib, on, Single(number, repeated, kind), w, n, map[], s)
      case Accept(v, s') =>
        if lib.strict && !repeated && number !in v.fields then Reject(s')
        else EvalPasses(lib, on, rest, w, n, s')
      case undone => undone
  }
}
