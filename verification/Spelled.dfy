// Documents spelled out byte by byte, as the schemas number their fields, and what the app makes of them.

module Spelled {
  import opened Octets
  import opened Wire
  import opened Interp
  import opened Runs
  import opened Messages
  import opened Windows
  import opened Screen
  import opened Transaction
  import opened Handed
  import opened Transcript
  import opened Documents
  import opened Display

  // ---------------------------------------------------------------- the bytes

  /** Tag, length, payload. */
  function Part(tag: Bytes, payload: Bytes): Bytes {
    tag + Varint(|payload|) + payload
  }

  function Repeated(tag: Bytes, ps: seq<Bytes>): Bytes {
    if ps == [] then [] else Part(tag, ps[0]) + Repeated(tag, ps[1..])
  }

  /** denom = 1, amount = 2. */
  function CoinBytes(c: Coin): Bytes {
    Part([0x0A], c.denom) + Part([0x12], c.amount)
  }

  /** Sender and recipient, delegator and validator are 1 and 2; proposal and depositor too; the coin is 3. */
  function MsgBytes(m: Msg): Bytes {
    match m
    case Send(sender, recipient, c) => Part([0x0A], sender) + Part([0x12], recipient) + Part([0x1A], CoinBytes(c))
    case Delegate(d, v, c) => Part([0x0A], d) + Part([0x12], v) + Part([0x1A], CoinBytes(c))
    case Undelegate(d, v, c) => Part([0x0A], d) + Part([0x12], v) + Part([0x1A], CoinBytes(c))
    case Deposit(p, d, c) => [0x08] + Varint(p) + Part([0x12], d) + Part([0x1A], CoinBytes(c))
  }

  function UrlText(m: Msg): string {
    match m
    case Send(_, _, _) => "/cosmos.bank.v1beta1.MsgSend"
    case Delegate(_, _, _) => "/cosmos.staking.v1beta1.MsgDelegate"
    case Undelegate(_, _, _) => "/cosmos.staking.v1beta1.MsgUndelegate"
    case Deposit(_, _, _) => "/cosmos.gov.v1.MsgDeposit"
  }

  /** type_url = 1, value = 2. */
  function AnyBytes(m: Msg): Bytes {
    Part([0x0A], Ascii(UrlText(m))) + Part([0x12], MsgBytes(m))
  }

  function AnyList(ms: seq<Msg>): seq<Bytes> {
    if ms == [] then [] else [AnyBytes(ms[0])] + AnyList(ms[1..])
  }

  /** messages = 1, memo = 2, timeout_height = 3, extension_options = 1023, non_critical_extension_options = 2047. */
  function BodyBytes(d: SignDoc): Bytes {
    Repeated([0x0A], AnyList(d.messages)) + (Part([0x12], d.memo) + ([0x18] + Varint(d.timeoutHeight))
    + (Repeated([0xFA, 0x3F], d.extensions) + Repeated([0xFA, 0x7F], d.nonCritical)))
  }

  /** amount = 1, gas_limit = 2, payer = 3, granter = 4. */
  function FeeBytes(d: SignDoc): Bytes {
    Part([0x0A], CoinBytes(d.fee.amount)) + ([0x10] + Varint(d.fee.gas))
    + Part([0x1A], d.payer) + Part([0x22], d.granter)
  }

  /** signer_infos = 1, fee = 2, tip = 3. */
  function AuthBytes(d: SignDoc): Bytes {
    Repeated([0x0A], d.signerInfos) + (Part([0x12], FeeBytes(d)) + Part([0x1A], d.tip))
  }

  /** body_bytes = 1, auth_info_bytes = 2, chain_id = 3, account_number = 4. */
  function DocumentBytes(d: SignDoc): Bytes {
    Part([0x0A], BodyBytes(d)) + Part([0x12], AuthBytes(d)) + Part([0x1A], d.chainId)
    + ([0x20] + Varint(d.accountNumber))
  }

  /** Fields nobody knows, number 15, of the four wire types: varint 0, 64 bits 1, bytes 2, 32 bits 5. */
  datatype Unknown = Unknown(count: nat, eight: Bytes, chunk: Bytes, four: Bytes)

  predicate UnknownSized(x: Unknown) {
    x.count < 0x1_0000_0000_0000_0000 && |x.eight| == 8 && |x.chunk| < 0x1_0000_0000_0000_0000 && |x.four| == 4
  }

  function UnknownBytes(x: Unknown): Bytes {
    ([0x78] + Varint(x.count)) + ([0x79] + x.eight) + Part([0x7A], x.chunk) + ([0x7D] + x.four)
  }

  // ---------------------------------------------------------------- they are the encoder's

  lemma {:induction false} TagsAre()
    ensures Tag(1, WIRE_BYTES) == [0x0A] && Tag(2, WIRE_BYTES) == [0x12] && Tag(3, WIRE_BYTES) == [0x1A]
    ensures Tag(4, WIRE_BYTES) == [0x22] && Tag(15, WIRE_BYTES) == [0x7A]
    ensures Tag(1, WIRE_VARINT) == [0x08] && Tag(2, WIRE_VARINT) == [0x10] && Tag(3, WIRE_VARINT) == [0x18]
    ensures Tag(4, WIRE_VARINT) == [0x20] && Tag(15, WIRE_VARINT) == [0x78]
    ensures Tag(15, WIRE_FIXED64) == [0x79] && Tag(15, WIRE_FIXED32) == [0x7D]
    ensures Tag(1023, WIRE_BYTES) == [0xFA, 0x3F] && Tag(2047, WIRE_BYTES) == [0xFA, 0x7F]
  {
  }

  lemma {:induction false} PartIs(number: nat, tag: Bytes, payload: Bytes)
    requires Tag(number, WIRE_BYTES) == tag
    ensures EncodeOne(Chunk(number, payload)) == Part(tag, payload)
  {
    Associate(tag, Varint(|payload|), payload);
  }

  lemma {:induction false} EncodeCons(f: Wired, list: seq<Wired>)
    ensures Encode([f] + list) == EncodeOne(f) + Encode(list)
  {
    assert ([f] + list)[1..] == list;
  }

  lemma {:induction false} EncodeTwo(f: Wired, g: Wired)
    ensures Encode([f, g]) == EncodeOne(f) + EncodeOne(g)
  {
    assert [f, g] == [f] + ([g] + []);
    EncodeCons(f, [g] + []);
    EncodeCons(g, []);
    assert EncodeOne(g) + [] == EncodeOne(g);
  }

  lemma {:induction false} EncodeThree(f: Wired, g: Wired, h: Wired)
    ensures Encode([f, g, h]) == EncodeOne(f) + EncodeOne(g) + EncodeOne(h)
  {
    assert [f, g, h] == [f] + [g, h];
    EncodeCons(f, [g, h]);
    EncodeTwo(g, h);
    Associate(EncodeOne(f), EncodeOne(g), EncodeOne(h));
  }

  lemma {:induction false} CoinSpelled(c: Coin)
    ensures Encode(CoinWire(c)) == CoinBytes(c)
  {
    TagsAre();
    PartIs(1, [0x0A], c.denom);
    PartIs(2, [0x12], c.amount);
    EncodeTwo(Chunk(1, c.denom), Chunk(2, c.amount));
  }

  lemma {:induction false} ThreePartsSpelled(a: Bytes, b: Bytes, c: Coin)
    ensures Encode([Chunk(1, a), Chunk(2, b), Chunk(3, Encode(CoinWire(c)))]) ==
            Part([0x0A], a) + Part([0x12], b) + Part([0x1A], CoinBytes(c))
  {
    TagsAre();
    CoinSpelled(c);
    PartIs(1, [0x0A], a);
    PartIs(2, [0x12], b);
    PartIs(3, [0x1A], CoinBytes(c));
    EncodeThree(Chunk(1, a), Chunk(2, b), Chunk(3, CoinBytes(c)));
  }

  lemma {:induction false} DepositSpelled(p: nat, d: Bytes, c: Coin)
    ensures Encode([Count(1, p), Chunk(2, d), Chunk(3, Encode(CoinWire(c)))]) ==
            [0x08] + Varint(p) + Part([0x12], d) + Part([0x1A], CoinBytes(c))
  {
    TagsAre();
    CoinSpelled(c);
    PartIs(2, [0x12], d);
    PartIs(3, [0x1A], CoinBytes(c));
    EncodeThree(Count(1, p), Chunk(2, d), Chunk(3, CoinBytes(c)));
  }

  lemma {:induction false} MsgSpelled(m: Msg)
    ensures LayoutOfMsg(m).msg == MsgBytes(m)
  {
    match m
    case Send(a, b, c) => ThreePartsSpelled(a, b, c);
    case Delegate(a, b, c) => ThreePartsSpelled(a, b, c);
    case Undelegate(a, b, c) => ThreePartsSpelled(a, b, c);
    case Deposit(p, d, c) => DepositSpelled(p, d, c);
  }

  lemma {:induction false} AnySpelled(m: Msg)
    ensures LayoutOfMsg(m).any == AnyBytes(m)
  {
    TagsAre();
    MsgSpelled(m);
    PartIs(1, [0x0A], Ascii(UrlText(m)));
    PartIs(2, [0x12], MsgBytes(m));
    EncodeTwo(Chunk(1, Ascii(UrlText(m))), Chunk(2, MsgBytes(m)));
  }

  lemma {:induction false} ChunksSpelled(number: nat, tag: Bytes, ps: seq<Bytes>)
    requires Tag(number, WIRE_BYTES) == tag
    ensures Encode(Chunks(number, ps)) == Repeated(tag, ps)
  {
    if ps == [] {
    } else {
      ChunksSpelled(number, tag, ps[1..]);
      PartIs(number, tag, ps[0]);
      EncodeCons(Chunk(number, ps[0]), Chunks(number, ps[1..]));
    }
  }

  lemma {:induction false} MessagesSpelled(ms: seq<Msg>)
    ensures Encode(MessageChunks(LayoutsOf(ms))) == Repeated([0x0A], AnyList(ms))
  {
    if ms == [] {
    } else {
      var ls := LayoutsOf(ms);
      assert ls[1..] == LayoutsOf(ms[1..]);
      MessagesSpelled(ms[1..]);
      AnySpelled(ms[0]);
      TagsAre();
      PartIs(1, [0x0A], AnyBytes(ms[0]));
      EncodeCons(Chunk(1, AnyBytes(ms[0])), MessageChunks(ls[1..]));
      var rest := AnyList(ms[1..]);
      assert ([AnyBytes(ms[0])] + rest)[1..] == rest;
    }
  }

  lemma {:induction false} BodySpelled(d: SignDoc)
    ensures Encode(BodyWire(d)) == BodyBytes(d)
  {
    var fixed := [Chunk(2, d.memo), Count(3, d.timeoutHeight)];
    var ext, non := Chunks(1023, d.extensions), Chunks(2047, d.nonCritical);
    TagsAre();
    MessagesSpelled(d.messages);
    ChunksSpelled(1023, [0xFA, 0x3F], d.extensions);
    ChunksSpelled(2047, [0xFA, 0x7F], d.nonCritical);
    PartIs(2, [0x12], d.memo);
    EncodeTwo(Chunk(2, d.memo), Count(3, d.timeoutHeight));
    EncodeConcat(ext, non);
    EncodeConcat(fixed, ext + non);
    EncodeConcat(MessageChunks(LayoutsOf(d.messages)), fixed + (ext + non));
  }

  lemma {:induction false} FeeSpelled(d: SignDoc)
    ensures Encode(WholeFee(d)) == FeeBytes(d)
  {
    var coin := Encode(CoinWire(d.fee.amount));
    TagsAre();
    CoinSpelled(d.fee.amount);
    PartIs(1, [0x0A], coin);
    PartIs(3, [0x1A], d.payer);
    PartIs(4, [0x22], d.granter);
    var a, b := [Chunk(1, coin), Count(2, d.fee.gas)], [Chunk(3, d.payer), Chunk(4, d.granter)];
    EncodeTwo(Chunk(1, coin), Count(2, d.fee.gas));
    EncodeTwo(Chunk(3, d.payer), Chunk(4, d.granter));
    EncodeConcat(a, b);
    Associate(Encode(a), Part([0x1A], d.payer), Part([0x22], d.granter));
  }

  lemma {:induction false} AuthSpelled(d: SignDoc)
    ensures Encode(AuthWire(d)) == AuthBytes(d)
  {
    var infos, fee, tip := Chunks(1, d.signerInfos), Chunk(2, Encode(WholeFee(d))), Chunk(3, d.tip);
    TagsAre();
    FeeSpelled(d);
    ChunksSpelled(1, [0x0A], d.signerInfos);
    PartIs(2, [0x12], FeeBytes(d));
    PartIs(3, [0x1A], d.tip);
    EncodeTwo(fee, tip);
    assert [fee] + [tip] == [fee, tip];
    EncodeConcat(infos, [fee, tip]);
  }

  /** The encoder spells documents like this. */
  lemma {:induction false} DocumentSpelled(d: SignDoc)
    ensures Encode(DocWire(d)) == DocumentBytes(d)
  {
    var body, auth := Encode(BodyWire(d)), Encode(AuthWire(d));
    TagsAre();
    BodySpelled(d);
    AuthSpelled(d);
    PartIs(1, [0x0A], body);
    PartIs(2, [0x12], auth);
    PartIs(3, [0x1A], d.chainId);
    var a, b := [Chunk(1, body), Chunk(2, auth)], [Chunk(3, d.chainId), Count(4, d.accountNumber)];
    EncodeTwo(Chunk(1, body), Chunk(2, auth));
    EncodeTwo(Chunk(3, d.chainId), Count(4, d.accountNumber));
    EncodeConcat(a, b);
    Associate(Encode(a), Part([0x1A], d.chainId), [0x20] + Varint(d.accountNumber));
  }

  function UnknownWire(x: Unknown): seq<Wired> {
    [Count(15, x.count), Fixed(15, x.eight)] + [Chunk(15, x.chunk), Fixed(15, x.four)]
  }

  lemma {:induction false} UnknownSpelled(x: Unknown)
    requires UnknownSized(x)
    ensures AllSized(UnknownWire(x)) && Encode(UnknownWire(x)) == UnknownBytes(x)
  {
    TagsAre();
    PartIs(15, [0x7A], x.chunk);
    EncodeTwo(Count(15, x.count), Fixed(15, x.eight));
    EncodeTwo(Chunk(15, x.chunk), Fixed(15, x.four));
    EncodeConcat([Count(15, x.count), Fixed(15, x.eight)], [Chunk(15, x.chunk), Fixed(15, x.four)]);
    Associate(([0x78] + Varint(x.count)) + ([0x79] + x.eight), Part([0x7A], x.chunk), [0x7D] + x.four);
  }

  // ---------------------------------------------------------------- what the app makes of them

  /** Addresses of at most 50 bytes, denominations of at most 20, amounts of at most 64. */
  predicate CoinSmall(c: Coin) {
    |c.denom| <= 20 && |c.amount| <= 64
  }

  predicate MsgSmall(m: Msg) {
    && CoinSmall(m.amount)
    && match m
       case Send(a, b, _) => |a| <= 50 && |b| <= 50
       case Delegate(a, b, _) => |a| <= 50 && |b| <= 50
       case Undelegate(a, b, _) => |a| <= 50 && |b| <= 50
       case Deposit(_, a, _) => |a| <= 50
  }

  predicate DocSmall(d: SignDoc) {
    CoinSmall(d.fee.amount) && forall k :: 0 <= k < |d.messages| ==> MsgSmall(d.messages[k])
  }

  lemma {:induction false} SmallFits(d: SignDoc)
    ensures DocSmall(d) <==> MsgsFit(d.messages) && FeeFits(d.fee)
  {
    assert forall k :: 0 <= k < |d.messages| ==> (MsgSmall(d.messages[k]) <==> MsgFits(d.messages[k]));
  }

  lemma {:induction false} UnknownNotKept(x: Unknown)
    ensures Kept(DocFields(), UnknownWire(x)) == []
  {
    DocKinds(15);
    NoneKept(DocFields(), UnknownWire(x));
  }

  /** Fields of which nothing is kept make no difference. */
  lemma {:induction false} KeptBefore(fs: Fields, list: seq<Wired>, more: seq<Wired>)
    requires AllSized(list) && AllSized(more) && Kept(fs, more) == []
    ensures var w := Encode(list) + Encode(more);
            Filled(w) && Kept(fs, FieldsIn(w)) == Kept(fs, FieldsIn(Encode(list)))
  {
    EncodeConcat(list, more);
    FieldsOfEncoding(list + more);
    FieldsOfEncoding(list);
    KeptConcat(fs, list, more);
    assert Kept(fs, list) + [] == Kept(fs, list);
  }

  lemma {:induction false} LaysAgain(l: Layout, w: Bytes, ms: seq<Msg>, fee: Fee)
    requires Lays(l, ms, fee) && Filled(w) && Kept(DocFields(), FieldsIn(w)) == Kept(DocFields(), FieldsIn(l.doc))
    ensures Lays(l.(doc := w), ms, fee)
  {
  }

  lemma {:induction false} LaysBefore(l: Layout, list: seq<Wired>, more: seq<Wired>, ms: seq<Msg>, fee: Fee)
    requires Lays(l, ms, fee) && l.doc == Encode(list)
    requires AllSized(list) && AllSized(more) && Kept(DocFields(), more) == []
    ensures Lays(l.(doc := l.doc + Encode(more)), ms, fee)
  {
    KeptBefore(DocFields(), list, more);
    LaysAgain(l, l.doc + Encode(more), ms, fee);
  }

  lemma {:induction false} ShownOnly(lib: Library, user: User, w: Bytes, lines: seq<Prompt>)
    requires var o := Eval(lib, Prompting(user), TxnParser(), w, |w|, []); o.Accept? ==> o.st == [] + lines
    ensures var o := Eval(lib, Prompting(user), TxnParser(), w, |w|, []); o.Accept? ==> o.st == lines
  {
    assert [] + lines == lines;
  }

  lemma {:induction false} SpelledLays(d: SignDoc, x: Unknown)
    requires DocSized(d) && UnknownSized(x)
    ensures Lays(LayoutOf(d).(doc := DocumentBytes(d) + UnknownBytes(x)), d.messages, d.fee)
  {
    EncoderLays(d);
    DocumentSpelled(d);
    UnknownSpelled(x);
    UnknownNotKept(x);
    LaysBefore(LayoutOf(d), DocWire(d), UnknownWire(x), d.messages, d.fee);
  }

  /** A document spelled with these numbers, whatever unknown fields follow: it is recognised if and only if its texts
      are small enough, and an accepted prompting pass has shown the lines of its own values. */
  lemma {:induction false} SpelledOut(lib: Library, user: User, d: SignDoc, x: Unknown)
    requires DocSized(d) && UnknownSized(x)
    ensures var w := DocumentBytes(d) + UnknownBytes(x);
            var o := Eval(lib, Prompting(user), TxnParser(), w, |w|, []);
            && (Accepts(lib, TxnParser(), w) <==> DocSmall(d))
            && (o.Accept? ==> o.st == DocPrompts(false, d.messages, d.fee))
  {
    var l := LayoutOf(d).(doc := DocumentBytes(d) + UnknownBytes(x));
    SpelledLays(d, x);
    SmallFits(d);
    DocumentHanded(lib, l, d.messages, d.fee);
    DocumentShown(lib, l, d.messages, d.fee, user, []);
    ShownOnly(lib, user, l.doc, DocPrompts(false, d.messages, d.fee));
  }

  lemma {:induction false} SpelledHands(lib: Library, d: SignDoc, x: Unknown)
    requires DocSized(d) && UnknownSized(x) && DocSmall(d)
    ensures var w := DocumentBytes(d) + UnknownBytes(x);
            Accepts(lib, TxnParser(), w) && TxnHanded(lib, w) == DocEvents(false, d.messages, d.fee)
  {
    SpelledLays(d, x);
    SmallFits(d);
    DocumentHanded(lib, LayoutOf(d).(doc := DocumentBytes(d) + UnknownBytes(x)), d.messages, d.fee);
  }

  // ---------------------------------------------------------------- transfers of any shape

  lemma {:induction false} KeptOnce(lib: Library, fs: Fields, i: Interp, x: Bytes, number: nat, payload: Bytes)
    requires Accepts(lib, Message(fs), x) && HasOnce(FieldsIn(x), Chunk(number, payload))
    requires Lookup(fs, number) == Some(Delimited(i))
    ensures Accepts(lib, i, payload)
    ensures var v := Noted(lib, i, payload, |payload|).value;
            var kept := KeptIn(lib, fs, x);
            kept.Record? && (!v.Unit? ==> number in kept.fields && kept.fields[number] == v)
  {
    var list := FieldsIn(x);
    var k: nat :| OnceAt(list, Chunk(number, payload), k);
    DecodedRun(lib, Noting(), fs, x, map[], []);
    RunKeepsOnce(lib, fs, list, map[], [], k);
  }

  lemma {:induction false} NamedAmount(coin: Value, amount: Bytes)
    requires RawAt(coin, 1) == Some(Ascii("nhash")) && RawAt(coin, 2) == Some(amount)
    ensures Shown("Amount", HashAmount(Some(coin))) == AmountLine("Amount", Coin(Ascii("nhash"), amount))
  {
    CoinLine("Amount", Coin(Ascii("nhash"), amount));
  }

  lemma {:induction false} NamedLines(v: Value, a: Bytes, b: Bytes, coin: Value, amount: Bytes)
    requires ValidUtf8(a) && ValidUtf8(b)
    requires RawAt(v, 1) == Some(a) && RawAt(v, 2) == Some(b) && RecordAt(v, 3) == Some(coin)
    requires RawAt(coin, 1) == Some(Ascii("nhash")) && RawAt(coin, 2) == Some(amount)
    ensures PromptsOf(Ran(ShowSend, v)) ==
            [Scroll("Transfer", Ascii("HASH")), Scroll("From", a), Scroll("To", b)]
            + AmountLine("Amount", Coin(Ascii("nhash"), amount))
  {
    var e := Ran(ShowSend, v);
    NamedAmount(coin, amount);
    assert Shown("From", TextAt(v, SEND_FROM)) == [Scroll("From", a)];
    assert Shown("To", TextAt(v, SEND_TO)) == [Scroll("To", b)];
    assert Leading(e) == [Scroll("Transfer", Ascii("HASH"))] + [Scroll("From", a)] + [Scroll("To", b)];
    assert Deciding(e) == Titled("Amount", HashAmount(Some(coin)));
  }

  /** In any accepted transfer, field 1 is shown as the sender and field 2 as the recipient, and the amount is that of
      the coin in field 3, whose fields are denomination and amount. */
  lemma {:induction false} TransferNames(lib: Library, x: Bytes, a: Bytes, b: Bytes, coin: Bytes, amount: Bytes)
    requires Accepts(lib, SendInterp(), x) && ValidUtf8(a) && ValidUtf8(b)
    requires var fs := FieldsIn(x); HasOnce(fs, Chunk(1, a)) && HasOnce(fs, Chunk(2, b)) && HasOnce(fs, Chunk(3, coin))
    requires var fs := FieldsIn(coin); HasOnce(fs, Chunk(1, Ascii("nhash"))) && HasOnce(fs, Chunk(2, amount))
    ensures var es := Noted(lib, SendInterp(), x, |x|).st;
            |es| == 1 && PromptsOf(es[0]) ==
            [Scroll("Transfer", Ascii("HASH")), Scroll("From", a), Scroll("To", b)]
            + AmountLine("Amount", Coin(Ascii("nhash"), amount))
  {
    ActionTakes(lib, SendFields(), ShowSend, x);
    SendHands(lib, x);
    SendKinds(1);
    SendKinds(2);
    SendKinds(3);
    KeptOnce(lib, SendFields(), Buffer(ADDRESS_CAP), x, 1, a);
    KeptOnce(lib, SendFields(), Buffer(ADDRESS_CAP), x, 2, b);
    KeptOnce(lib, SendFields(), Message(CoinFields()), x, 3, coin);
    CoinKinds(1);
    CoinKinds(2);
    KeptOnce(lib, CoinFields(), Buffer(DENOM_CAP), coin, 1, Ascii("nhash"));
    KeptOnce(lib, CoinFields(), Buffer(AMOUNT_CAP), coin, 2, amount);
    NamedLines(KeptIn(lib, SendFields(), x), a, b, KeptIn(lib, CoinFields(), coin), amount);
  }
}
