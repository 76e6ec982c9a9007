// The transaction parser of the app: its tree over the Cosmos schemas.

module Transaction {
  import opened Octets
  import opened Wire
  import opened Interp
  import opened Runs
  import opened Screen

  // ---------------------------------------------------------------- field numbers (rust-app/src/proto)

  const DOC_BODY: nat := 1
  const DOC_AUTH: nat := 2
  const BODY_MESSAGES: nat := 1
  const BODY_EXTENSIONS: nat := 1023
  const BODY_NON_CRITICAL: nat := 2047
  const AUTH_FEE: nat := 2
  const FEE_GAS: nat := 2

  function Str(cap: nat): Kind {
    Delimited(Buffer(cap))
  }

  function ShowStr(title: string): Interp {
    Action(Buffer(ADDRESS_CAP), ShowString(title))
  }

  function CoinFields(): Fields {
    Field(COIN_DENOM, false, Str(DENOM_CAP), Single(COIN_AMOUNT, false, Str(AMOUNT_CAP)))
  }

  function ShowCoinInterp(): Interp {
    Action(Message(CoinFields()), ShowCoin)
  }

  function SendFields(): Fields {
    Field(SEND_FROM, false, Str(ADDRESS_CAP),
    Field(SEND_TO, false, Str(ADDRESS_CAP),
    Single(SEND_AMOUNT, true, Delimited(Message(CoinFields())))))
  }

  function SendInterp(): Interp {
    Action(Message(SendFields()), ShowSend)
  }

  function StakingFields(): Fields {
    Field(1, false, Delimited(ShowStr("Delegator Address")),
    Field(2, false, Delimited(ShowStr("Validator Address")),
    Single(3, false, Delimited(ShowCoinInterp()))))
  }

  function DelegateInterp(): Interp {
    Preaction(Announce("Delegate"), Ordered(StakingFields()))
  }

  function UndelegateInterp(): Interp {
    Preaction(Announce("Undelegate"), Ordered(StakingFields()))
  }

  function DepositFields(): Fields {
    Field(1, false, Varying(NumberAction(ShowProposalId)),
    Field(2, false, Delimited(ShowStr("Depositor Address")),
    Single(3, true, Delimited(ShowCoinInterp()))))
  }

  function DepositInterp(): Interp {
    Ordered(DepositFields())
  }

  const SEND_URL := "/cosmos.bank.v1beta1.MsgSend"
  const DELEGATE_URL := "/cosmos.staking.v1beta1.MsgDelegate"
  const UNDELEGATE_URL := "/cosmos.staking.v1beta1.MsgUndelegate"
  const DEPOSIT_URL := "/cosmos.gov.v1.MsgDeposit"

  /** The `any_of!` table. */
  function Table(): Arms {
    Arm(Ascii(SEND_URL), SendInterp(),
    Arm(Ascii(DELEGATE_URL), DelegateInterp(),
    Arm(Ascii(UNDELEGATE_URL), UndelegateInterp(),
    Arm(Ascii(DEPOSIT_URL), DepositInterp(), NoArms))))
  }

  /** The default for other type URLs: it refuses when it comes to the URL. */
  function UnknownFields(): Fields {
    Field(TYPE_URL, false, Delimited(Preaction(Refuse, ShowStr("Type URL"))),
    Single(ANY_VALUE, false, Delimited(Drop)))
  }

  function AnyMessage(): Interp {
    AnyOf(Table(), Ordered(UnknownFields()))
  }

  function BodyFields(): Fields {
    Field(BODY_MESSAGES, true, Delimited(AnyMessage()),
    Field(2, false, Delimited(Drop),
    Field(3, false, Varying(DropNumber),
    Field(BODY_EXTENSIONS, true, Delimited(Drop),
    Single(BODY_NON_CRITICAL, true, Delimited(Drop))))))
  }

  function FeeFields(): Fields {
    Field(FEE_AMOUNT, true, Delimited(Message(CoinFields())),
    Field(FEE_GAS, false, Varying(Number),
    Field(3, false, Delimited(Drop),
    Single(4, false, Delimited(Drop)))))
  }

  function FeeInterp(): Interp {
    Action(Message(FeeFields()), ShowFee)
  }

  function AuthFields(): Fields {
    Field(1, true, Delimited(Drop),
    Field(AUTH_FEE, false, Delimited(FeeInterp()),
    Single(3, false, Delimited(Drop))))
  }

  function DocFields(): Fields {
    Field(DOC_BODY, false, Delimited(Message(BodyFields())),
    Field(DOC_AUTH, false, Delimited(Message(AuthFields())),
    Field(3, false, Delimited(Drop),
    Single(4, false, Varying(DropNumber)))))
  }

  /** `txn_messages_parser`. PROMPT is in the handler: `Prompting` or `Silent`. */
  function TxnParser(): Interp {
    Message(DocFields())
  }

  // ---------------------------------------------------------------- unknown messages

  /** The search for the type URL in the bytes of an Any: it has no closures. */
  function UrlScan(lib: Library, w: Bytes): Out<seq<Event>> {
    EvalFields(lib, Noting(), UrlOnly(|w|), w, |w|, map[], [])
  }

  predicate Known(url: Bytes) {
    || url == Ascii(SEND_URL)
    || url == Ascii(DELEGATE_URL)
    || url == Ascii(UNDELEGATE_URL)
    || url == Ascii(DEPOSIT_URL)
  }

  /** The Any holds a type URL that is not in the table. */
  predicate NamesUnknown(lib: Library, w: Bytes) {
    var o := UrlScan(lib, w);
    o.Accept? && TYPE_URL in o.value.fields && !Known(UrlIn(o.value.fields))
  }

  /** The Any holds no type URL at all. */
  predicate NamesNothing(lib: Library, w: Bytes) {
    var o := UrlScan(lib, w);
    o.Accept? && TYPE_URL !in o.value.fields
  }

  lemma {:induction false} FourArms(u1: Bytes, i1: Interp, u2: Bytes, i2: Interp, u3: Bytes, i3: Interp, u4: Bytes,
                                    i4: Interp, url: Bytes)
    ensures FindArm(Arm(u1, i1, Arm(u2, i2, Arm(u3, i3, Arm(u4, i4, NoArms)))), url) ==
            if url == u1 then Some(i1) else if url == u2 then Some(i2)
            else if url == u3 then Some(i3) else if url == u4 then Some(i4) else None
  {
    var a4 := Arm(u4, i4, NoArms);
    var a3 := Arm(u3, i3, a4);
    assert FindArm(a4, url) == if url == u4 then Some(i4) else None;
    assert FindArm(a3, url) == if url == u3 then Some(i3) else FindArm(a4, url);
  }

  lemma {:induction false} TableExactly(url: Bytes)
    ensures FindArm(Table(), url).Some? <==> Known(url)
  {
    FourArms(Ascii(SEND_URL), SendInterp(), Ascii(DELEGATE_URL), DelegateInterp(),
             Ascii(UNDELEGATE_URL), UndelegateInterp(), Ascii(DEPOSIT_URL), DepositInterp(), url);
  }

  /** What a known field gives when the varint behind its tag reads as `v`, and how far it reaches. */
  function FieldOut<S>(lib: Library, on: (Event, S) -> (bool, S), kind: Kind, v: Reading, w: Bytes, n: nat,
                       s: S): Out<S>
    requires v.Got? && v.used <= |w| <= n
  {
    match kind
    case Varying(sc) => EvalScalar(on, sc, v.n, s)
    case Delimited(i) =>
      if v.n > n - v.used then Reject(s) else Eval(lib, on, i, Take(w[v.used..], v.n), v.n, s)
  }

  function FieldUsed(kind: Kind, v: Reading): nat
    requires v.Got?
  {
    if kind.Delimited? then v.used + v.n else v.used
  }

  lemma {:induction false} FieldOutcome<S>(lib: Library, on: (Event, S) -> (bool, S), fs: Fields, number: nat,
                                           kind: Kind, v: Reading, w: Bytes, n: nat, rec: map<nat, Value>, s: S)
    requires |w| <= n && v == ReadVarint(w, n, VARINT_ROOM) && v.Got? && Lookup(fs, number) == Some(kind)
    ensures var o := FieldOut(lib, on, kind, v, w, n, s);
            && (o.Accept? ==> 0 < FieldUsed(kind, v) <= |w|)
            && EvalTagged(lib, on, fs, number, WireOf(kind), w, n, rec, s) ==
               (if o.Accept? then EvalStored(lib, on, fs, number, o, w, n, FieldUsed(kind, v), rec) else o)
  {
  }

  /** A record never loses a field. */
  lemma {:induction false} KeysPersist<S>(lib: Library, on: (Event, S) -> (bool, S), fs: Fields, w: Bytes, n: nat,
                                          rec: map<nat, Value>, s: S)
    requires |w| <= n
    ensures var o := EvalFields(lib, on, fs, w, n, rec, s);
            o.Accept? ==> rec.Keys <= o.value.fields.Keys
    decreases n, 1
  {
    if n == 0 {
    } else {
      var r := ReadVarint(w, n, VARINT_ROOM);
      if r.Got? {
        var w1, n1, number, wire := w[r.used..], n - r.used, r.n / 8, r.n % 8;
        match Lookup(fs, number)
        case None =>
          var k := SkipField(wire, w1, n1);
          if k.Got? { KeysPersist(lib, on, fs, w1[k.used..], n1 - k.used, rec, s); }
        case Some(kind) =>
          var v := ReadVarint(w1, n1, VARINT_ROOM);
          if wire == WireOf(kind) && v.Got? {
            FieldOutcome(lib, on, fs, number, kind, v, w1, n1, rec, s);
            var o := FieldOut(lib, on, kind, v, w1, n1, s);
            if o.Accept? { StoredPersist(lib, on, fs, number, o, w1, n1, FieldUsed(kind, v), rec); }
          }
      }
    }
  }

  lemma {:induction false} StoredPersist<S>(lib: Library, on: (Event, S) -> (bool, S), fs: Fields, number: nat,
                                            got: Out<S>, w: Bytes, n: nat, used: nat, rec: map<nat, Value>)
    requires |w| <= n && got.Accept? && 0 < used <= |w|
    ensures var o := EvalStored(lib, on, fs, number, got, w, n, used, rec);
            o.Accept? ==> rec.Keys <= o.value.fields.Keys
    decreases n, 0
  {
    var kept := Store(lib, rec, number, got.value);
    if kept.Some? { KeysPersist(lib, on, fs, w[used..], n - used, kept.value, got.st); }
  }

  lemma {:induction false} FieldsTagged<S>(lib: Library, on: (Event, S) -> (bool, S), fs: Fields, w: Bytes,
                                           rec: map<nat, Value>, s: S, r: Reading)
    requires w != [] && r == ReadVarint(w, |w|, VARINT_ROOM) && r.Got?
    ensures EvalFields(lib, on, fs, w, |w|, rec, s) ==
            EvalTagged(lib, on, fs, r.n / 8, r.n % 8, w[r.used..], |w[r.used..]|, rec, s)
  {
  }

  lemma {:induction false} TaggedMiss<S>(lib: Library, on: (Event, S) -> (bool, S), fs: Fields, number: nat, wire: nat,
                                         w: Bytes, rec: map<nat, Value>, s: S)
    requires Lookup(fs, number).None?
    ensures var k := SkipField(wire, w, |w|);
            var o := EvalTagged(lib, on, fs, number, wire, w, |w|, rec, s);
            if k.Got? then o == EvalFields(lib, on, fs, w[k.used..], |w| - k.used, rec, s) else !o.Accept?
  {
  }

  /** A pass for field `number` steps over a field of another number. */
  lemma {:induction false} ScanMiss<S>(lib: Library, on: (Event, S) -> (bool, S), number: nat, kind: Kind, w: Bytes,
                                       rec: map<nat, Value>, s: S, r: Reading)
    requires w != [] && r == ReadVarint(w, |w|, VARINT_ROOM) && r.Got? && r.n / 8 != number
    ensures var fs := Single(number, false, kind);
            var w1 := w[r.used..];
            var k := SkipField(r.n % 8, w1, |w1|);
            var o := EvalFields(lib, on, fs, w, |w|, rec, s);
            if k.Got? then o == EvalFields(lib, on, fs, w1[k.used..], |w1| - k.used, rec, s)
            else !o.Accept?
  {
    FieldsTagged(lib, on, Single(number, false, kind), w, rec, s, r);
    TaggedMiss(lib, on, Single(number, false, kind), r.n / 8, r.n % 8, w[r.used..], rec, s);
  }

  /** A pass for field `number` meets it. */
  lemma {:induction false} ScanHit<S>(lib: Library, on: (Event, S) -> (bool, S), number: nat, kind: Kind, w: Bytes,
                                      rec: map<nat, Value>, s: S, r: Reading)
    requires w != [] && r == ReadVarint(w, |w|, VARINT_ROOM) && r.Got? && r.n / 8 == number
    ensures var fs := Single(number, false, kind);
            var w1 := w[r.used..];
            var v := ReadVarint(w1, |w1|, VARINT_ROOM);
            var o := EvalFields(lib, on, fs, w, |w|, rec, s);
            if r.n % 8 != WireOf(kind) || !v.Got? then !o.Accept?
            else
              var f := FieldOut(lib, on, kind, v, w1, |w1|, s);
              if f.Accept? then
                && FieldUsed(kind, v) <= |w1|
                && o == EvalStored(lib, on, fs, number, f, w1, |w1|, FieldUsed(kind, v), rec)
              else o == f
  {
    var w1 := w[r.used..];
    var v := ReadVarint(w1, |w1|, VARINT_ROOM);
    if r.n % 8 == WireOf(kind) && v.Got? {
      FieldOutcome(lib, on, Single(number, false, kind), number, kind, v, w1, |w1|, rec, s);
    }
  }

  lemma {:induction false} RefusesHit<S>(lib: Library, on: (Event, S) -> (bool, S), inner: Interp, w: Bytes,
                                         rec: map<nat, Value>, s: S, r: Reading)
    requires w != [] && r == ReadVarint(w, |w|, VARINT_ROOM) && r.Got? && r.n / 8 == TYPE_URL
    ensures !EvalFields(lib, on, Single(TYPE_URL, false, Delimited(Preaction(Refuse, inner))), w, |w|, rec, s).Accept?
  {
    ScanHit(lib, on, TYPE_URL, Delimited(Preaction(Refuse, inner)), w, rec, s, r);
  }

  /** If a window holds field 1 at all, the refusing interpreter of that field meets it. */
  lemma {:induction false} RefusesIfPresent<S>(lib: Library, on: (Event, S) -> (bool, S), inner: Interp, cap: nat,
                                               w: Bytes, rec: map<nat, Value>, rec': map<nat, Value>, s: S, s': S)
    requires var o := EvalFields(lib, on, Single(TYPE_URL, false, Delimited(Buffer(cap))), w, |w|, rec, s);
             o.Accept? && TYPE_URL in o.value.fields && TYPE_URL !in rec
    ensures !EvalFields(lib, on, Single(TYPE_URL, false, Delimited(Preaction(Refuse, inner))), w, |w|, rec', s').Accept?
    decreases |w|
  {
    if w == [] {
    } else {
      var r := ReadVarint(w, |w|, VARINT_ROOM);
      if r.Got? && r.n / 8 != TYPE_URL {
        ScanMiss(lib, on, TYPE_URL, Delimited(Buffer(cap)), w, rec, s, r);
        ScanMiss(lib, on, TYPE_URL, Delimited(Preaction(Refuse, inner)), w, rec', s', r);
        var w1 := w[r.used..];
        var k := SkipField(r.n % 8, w1, |w1|);
        if k.Got? {
          RefusesIfPresent(lib, on, inner, cap, w1[k.used..], rec, rec', s, s');
        }
      } else if r.Got? {
        RefusesHit(lib, on, inner, w, rec', s', r);
      }
    }
  }

  /** A pass that meets its field and accepts has the field in its record. */
  lemma {:induction false} HitIsKept<S>(lib: Library, on: (Event, S) -> (bool, S), number: nat, kind: Kind, w: Bytes,
                                        rec: map<nat, Value>, s: S, r: Reading)
    requires w != [] && r == ReadVarint(w, |w|, VARINT_ROOM) && r.Got? && r.n / 8 == number
    ensures var o := EvalFields(lib, on, Single(number, false, kind), w, |w|, rec, s);
            o.Accept? ==> number in o.value.fields
  {
    ScanHit(lib, on, number, kind, w, rec, s, r);
    var w1 := w[r.used..];
    var v := ReadVarint(w1, |w1|, VARINT_ROOM);
    if r.n % 8 == WireOf(kind) && v.Got? {
      var f := FieldOut(lib, on, kind, v, w1, |w1|, s);
      if f.Accept? {
        var kept := Store(lib, rec, number, f.value);
        if kept.Some? {
          var used := FieldUsed(kind, v);
          KeysPersist(lib, on, Single(number, false, kind), w1[used..], |w1| - used, kept.value, f.st);
        }
      }
    }
  }

  /** A window without field 1 passes the refusing interpreter of that field by. */
  lemma {:induction false} AbsentIsAbsent<S>(lib: Library, on: (Event, S) -> (bool, S), inner: Interp, cap: nat,
                                             w: Bytes, rec: map<nat, Value>, s: S)
    requires var o := EvalFields(lib, on, Single(TYPE_URL, false, Delimited(Buffer(cap))), w, |w|, rec, s);
             o.Accept? && TYPE_URL !in o.value.fields
    ensures var i := Single(TYPE_URL, false, Delimited(Preaction(Refuse, inner)));
            EvalFields(lib, on, i, w, |w|, rec, s) == Accept(Record(rec), s)
    decreases |w|
  {
    if w == [] {
    } else {
      var r := ReadVarint(w, |w|, VARINT_ROOM);
      if r.Got? && r.n / 8 != TYPE_URL {
        ScanMiss(lib, on, TYPE_URL, Delimited(Buffer(cap)), w, rec, s, r);
        ScanMiss(lib, on, TYPE_URL, Delimited(Preaction(Refuse, inner)), w, rec, s, r);
        var w1 := w[r.used..];
        var k := SkipField(r.n % 8, w1, |w1|);
        AbsentIsAbsent(lib, on, inner, cap, w1[k.used..], rec, s);
      } else if r.Got? {
        HitIsKept(lib, on, TYPE_URL, Delimited(Buffer(cap)), w, rec, s, r);
      }
    }
  }

  /** The search for the URL hands nothing to the closures. */
  lemma {:induction false} ScanQuiet(lib: Library, cap: nat, w: Bytes, rec: map<nat, Value>, past: seq<Event>)
    ensures var o := EvalFields(lib, Noting(), Single(TYPE_URL, false, Delimited(Buffer(cap))), w, |w|, rec, past);
            o.Accept? ==> o.st == past
    decreases |w|, 1
  {
    if w == [] {
    } else {
      var kind := Delimited(Buffer(cap));
      var r := ReadVarint(w, |w|, VARINT_ROOM);
      if r.Got? && r.n / 8 != TYPE_URL {
        ScanMiss(lib, Noting(), TYPE_URL, kind, w, rec, past, r);
        var w1 := w[r.used..];
        var k := SkipField(r.n % 8, w1, |w1|);
        if k.Got? { ScanQuiet(lib, cap, w1[k.used..], rec, past); }
      } else if r.Got? {
        ScanHit(lib, Noting(), TYPE_URL, kind, w, rec, past, r);
        var w1 := w[r.used..];
        var v := ReadVarint(w1, |w1|, VARINT_ROOM);
        if r.n % 8 == WIRE_BYTES && v.Got? {
          var o := FieldOut(lib, Noting(), kind, v, w1, |w1|, past);
          assert o.Accept? ==> o.st == past;
          if o.Accept? { StoredQuiet(lib, cap, o, w1, FieldUsed(kind, v), rec, past); }
        }
      }
    }
  }

  lemma {:induction false} StoredQuiet(lib: Library, cap: nat, got: Out<seq<Event>>, w: Bytes, used: nat,
                                       rec: map<nat, Value>, past: seq<Event>)
    requires got.Accept? && got.st == past && 0 < used <= |w|
    ensures var fs := Single(TYPE_URL, false, Delimited(Buffer(cap)));
            var o := EvalStored(lib, Noting(), fs, TYPE_URL, got, w, |w|, used, rec);
            o.Accept? ==> o.st == past
    decreases |w|, 0
  {
    var kept := Store(lib, rec, TYPE_URL, got.value);
    if kept.Some? { ScanQuiet(lib, cap, w[used..], kept.value, past); }
  }

  /** So it is the same under every handler. */
  lemma {:induction false} ScanSame<S>(lib: Library, on: (Event, S) -> (bool, S), w: Bytes, s: S)
    ensures var o := EvalFields(lib, on, UrlOnly(|w|), w, |w|, map[], s);
            var p := UrlScan(lib, w);
            (o.Accept? <==> p.Accept?) && (o.Accept? ==> o == Accept(p.value, s))
  {
    ScanQuiet(lib, |w|, w, map[], []);
    FieldsAgrees(lib, on, UrlOnly(|w|), w, |w|, map[], s, []);
    StillAgrees(on, s, []);
  }

  lemma {:induction false} FirstPassDecides<S>(lib: Library, on: (Event, S) -> (bool, S), arms: Arms, kind: Kind,
                                               rest: Fields, w: Bytes, s: S)
    requires var o := EvalFields(lib, on, UrlOnly(|w|), w, |w|, map[], s);
             o.Accept? && o.st == s && FindArm(arms, UrlIn(o.value.fields)).None?
    ensures var p := EvalFields(lib, on, Single(TYPE_URL, false, kind), w, |w|, map[], s);
            (!p.Accept? || (lib.strict && TYPE_URL !in p.value.fields)) ==>
            !Eval(lib, on, AnyOf(arms, Ordered(Field(TYPE_URL, false, kind, rest))), w, |w|, s).Accept?
  {
    var parts := Field(TYPE_URL, false, kind, rest);
    assert Eval(lib, on, AnyOf(arms, Ordered(parts)), w, |w|, s) == Eval(lib, on, Ordered(parts), w, |w|, s);
    assert Eval(lib, on, Ordered(parts), w, |w|, s) == EvalPasses(lib, on, parts, w, |w|, s);
    var p := EvalFields(lib, on, Single(TYPE_URL, false, kind), w, |w|, map[], s);
    if !p.Accept? {
      assert !EvalPasses(lib, on, parts, w, |w|, s).Accept?;
    }
  }

  lemma {:induction false} NoUrlUnknown()
    ensures !Known([])
  {
  }

  /** An Any that names an unknown URL is never accepted. One that names nothing is not accepted
      either where the library makes ordered messages complete. */
  lemma {:induction false} UnknownRefused<S>(lib: Library, on: (Event, S) -> (bool, S), w: Bytes, s: S)
    ensures NamesUnknown(lib, w) ==> !Eval(lib, on, AnyMessage(), w, |w|, s).Accept?
    ensures NamesNothing(lib, w) && lib.strict ==> !Eval(lib, on, AnyMessage(), w, |w|, s).Accept?
  {
    ScanSame(lib, on, w, s);
    var o := UrlScan(lib, w);
    if o.Accept? && !Known(UrlIn(o.value.fields)) {
      TableExactly(UrlIn(o.value.fields));
      FirstPassDecides(lib, on, Table(), Delimited(Preaction(Refuse, ShowStr("Type URL"))),
                       Single(ANY_VALUE, false, Delimited(Drop)), w, s);
      if TYPE_URL in o.value.fields {
        RefusesIfPresent(lib, on, ShowStr("Type URL"), |w|, w, map[], map[], s, s);
      } else {
        AbsentIsAbsent(lib, on, ShowStr("Type URL"), |w|, w, map[], s);
      }
    }
    NoUrlUnknown();
  }
}
