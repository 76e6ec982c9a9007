// What a person reads on the screen when a document is prompted, and what can be told from it.

module Display {
  import opened Octets
  import opened Decimals
  import opened Interp
  import opened Messages
  import opened Windows
  import opened Screen
  import opened Transaction
  import opened Handed
  import opened Transcript
  import opened Documents

  // ---------------------------------------------------------------- the prompts of a document

  /** The line for an amount of nhash; other denominations and unrenderable amounts show nothing. */
  function AmountLine(title: string, c: Coin): seq<Prompt> {
    if c.denom == Ascii("nhash") && c.amount != [] && Rendered(c.amount, AMOUNT_CAP).Some?
    then [Scroll(title, Ascii("HASH ") + Rendered(c.amount, AMOUNT_CAP).value)]
    else []
  }

  function StringLine(title: string, b: Bytes): seq<Prompt> {
    if ValidUtf8(b) then [Scroll(title, b)] else []
  }

  function MsgPrompts(m: Msg): seq<Prompt> {
    match m
    case Send(sender, recipient, c) =>
      [Scroll("Transfer", Ascii("HASH"))] + StringLine("From", sender) + StringLine("To", recipient)
      + AmountLine("Amount", c)
    case Delegate(d, v, c) =>
      [Scroll("Delegate", [])] + StringLine("Delegator Address", d) + StringLine("Validator Address", v)
      + AmountLine("Amount", c)
    case Undelegate(d, v, c) =>
      [Scroll("Undelegate", [])] + StringLine("Delegator Address", d) + StringLine("Validator Address", v)
      + AmountLine("Amount", c)
    case Deposit(p, d, c) =>
      [Scroll("Proposal ID", Decimal(p))] + StringLine("Depositor Address", d) + AmountLine("Amount", c)
  }

  function MessagesPrompts(ms: seq<Msg>): seq<Prompt> {
    if ms == [] then [] else MsgPrompts(ms[0]) + MessagesPrompts(ms[1..])
  }

  function DocPrompts(feeFirst: bool, ms: seq<Msg>, fee: Fee): seq<Prompt> {
    var feeLine := AmountLine("Fee", fee.amount);
    if feeFirst then feeLine + MessagesPrompts(ms) else MessagesPrompts(ms) + feeLine
  }

  lemma {:induction false} CoinLine(title: string, c: Coin)
    ensures Shown(title, HashAmount(Some(CoinValue(c)))) == AmountLine(title, c)
  {
    if c.amount != [] && Rendered(c.amount, AMOUNT_CAP).Some? {
      RenderedIsText(c.amount, AMOUNT_CAP);
    }
  }

  lemma {:induction false} OneEvent(e: Event)
    ensures AllPrompts([e]) == PromptsOf(e)
  {
    assert [e][1..] == [];
    assert AllPrompts([e]) == PromptsOf(e) + [];
  }

  lemma {:induction false} TwoEvents(es: seq<Event>, e: Event)
    ensures AllPrompts(es + [e]) == AllPrompts(es) + PromptsOf(e)
  {
    AllPromptsConcat(es, [e]);
    OneEvent(e);
  }

  lemma {:induction false} StringPrompt(title: string, b: Bytes)
    ensures PromptsOf(StringEvent(title, b)) == StringLine(title, b)
  {
  }

  lemma {:induction false} CoinPrompt(c: Coin)
    ensures PromptsOf(Ran(ShowCoin, CoinValue(c))) == AmountLine("Amount", c)
  {
    CoinLine("Amount", c);
  }

  lemma {:induction false} FeePrompt(fee: Fee)
    ensures PromptsOf(FeeEvent(fee)) == AmountLine("Fee", fee.amount)
  {
    CoinLine("Fee", fee.amount);
    assert RecordAt(FeeValue(fee), FEE_AMOUNT) == Some(CoinValue(fee.amount));
  }

  lemma {:induction false} SendPrompt(m: Msg)
    requires m.Send?
    ensures PromptsOf(Ran(ShowSend, SendValue(m))) == MsgPrompts(m)
  {
    CoinLine("Amount", m.amount);
    assert RecordAt(SendValue(m), SEND_AMOUNT) == Some(CoinValue(m.amount));
    assert Shown("From", TextAt(SendValue(m), SEND_FROM)) == StringLine("From", m.sender);
    assert Shown("To", TextAt(SendValue(m), SEND_TO)) == StringLine("To", m.recipient);
  }

  lemma {:induction false} StakingPrompts(title: string, d: Bytes, v: Bytes, c: Coin)
    ensures AllPrompts([Announced(title), StringEvent("Delegator Address", d), StringEvent("Validator Address", v),
                        Ran(ShowCoin, CoinValue(c))]) ==
            [Scroll(title, [])] + StringLine("Delegator Address", d) + StringLine("Validator Address", v)
            + AmountLine("Amount", c)
  {
    var e1, e2, e3 := Announced(title), StringEvent("Delegator Address", d), StringEvent("Validator Address", v);
    var e4 := Ran(ShowCoin, CoinValue(c));
    OneEvent(e1);
    TwoEvents([e1], e2);
    TwoEvents([e1, e2], e3);
    TwoEvents([e1, e2, e3], e4);
    assert [e1] + [e2] == [e1, e2] && [e1, e2] + [e3] == [e1, e2, e3] && [e1, e2, e3] + [e4] == [e1, e2, e3, e4];
    StringPrompt("Delegator Address", d);
    StringPrompt("Validator Address", v);
    CoinPrompt(c);
  }

  /** The events of a message show its lines. */
  lemma {:induction false} MsgPromptsAre(m: Msg)
    ensures AllPrompts(MsgEvents(m)) == MsgPrompts(m)
  {
    match m
    case Send(_, _, _) =>
      OneEvent(Ran(ShowSend, SendValue(m)));
      SendPrompt(m);
    case Delegate(d, v, c) => StakingPrompts("Delegate", d, v, c);
    case Undelegate(d, v, c) => StakingPrompts("Undelegate", d, v, c);
    case Deposit(p, d, c) =>
      var e1, e2, e3 := Ran(ShowProposalId, Num(p)), StringEvent("Depositor Address", d), Ran(ShowCoin, CoinValue(c));
      OneEvent(e1);
      TwoEvents([e1], e2);
      TwoEvents([e1, e2], e3);
      assert [e1] + [e2] == [e1, e2] && [e1, e2] + [e3] == MsgEvents(m);
      StringPrompt("Depositor Address", d);
      CoinPrompt(c);
  }

  lemma {:induction false} MessagesPromptsAre(ms: seq<Msg>)
    ensures AllPrompts(AllEvents(ms)) == MessagesPrompts(ms)
  {
    if ms == [] {
    } else {
      AllPromptsConcat(MsgEvents(ms[0]), AllEvents(ms[1..]));
      MsgPromptsAre(ms[0]);
      MessagesPromptsAre(ms[1..]);
    }
  }

  /** The events of a document show its lines. */
  lemma {:induction false} DocPromptsAre(feeFirst: bool, ms: seq<Msg>, fee: Fee)
    ensures AllPrompts(DocEvents(feeFirst, ms, fee)) == DocPrompts(feeFirst, ms, fee)
  {
    MessagesPromptsAre(ms);
    FeePrompt(fee);
    if feeFirst {
      AllPromptsConcat([FeeEvent(fee)], AllEvents(ms));
      OneEvent(FeeEvent(fee));
    } else {
      TwoEvents(AllEvents(ms), FeeEvent(fee));
    }
  }

  lemma {:induction false} HandedAs(lib: Library, w: Bytes, es: seq<Event>, fits: bool)
    requires YieldsAny(Noted(lib, TxnParser(), w, |w|), [], es, fits)
    ensures Accepts(lib, TxnParser(), w) <==> fits
    ensures Accepts(lib, TxnParser(), w) ==> TxnHanded(lib, w) == es
  {
    assert [] + es == es;
    if Accepts(lib, TxnParser(), w) { TxnHands(lib, w); }
  }

  /** What the bytes of a document hand over is its events, exactly if everything fits. */
  lemma {:induction false} DocumentHanded(lib: Library, l: Layout, ms: seq<Msg>, fee: Fee)
    requires Lays(l, ms, fee)
    ensures Accepts(lib, TxnParser(), l.doc) <==> MsgsFit(ms) && FeeFits(fee)
    ensures Accepts(lib, TxnParser(), l.doc) ==> TxnHanded(lib, l.doc) == DocEvents(l.feeFirst, ms, fee)
  {
    DocumentReads(lib, l, ms, fee);
    HandedAs(lib, l.doc, DocEvents(l.feeFirst, ms, fee), MsgsFit(ms) && FeeFits(fee));
  }

  /** The conserved transcript of a document: an accepted prompting pass over it has shown the lines of each message,
      message by message, and the fee on its side of them; nothing repeated or moved. */
  lemma {:induction false} DocumentShown(lib: Library, l: Layout, ms: seq<Msg>, fee: Fee, user: User,
                                         seen: seq<Prompt>)
    requires Lays(l, ms, fee)
    ensures var w := l.doc;
            var o := Eval(lib, Prompting(user), TxnParser(), w, |w|, seen);
            && (o.Accept? <==> MsgsFit(ms) && FeeFits(fee) && AllPass(user, seen, DocEvents(l.feeFirst, ms, fee)))
            && (o.Accept? ==> o.st == seen + DocPrompts(l.feeFirst, ms, fee))
  {
    DocumentHanded(lib, l, ms, fee);
    TranscriptConserved(lib, user, l.doc, seen);
    DocPromptsAre(l.feeFirst, ms, fee);
  }

  // ---------------------------------------------------------------- the values come back

  function ReadCoin(v: Value): Option<Coin> {
    match (RawAt(v, COIN_DENOM), RawAt(v, COIN_AMOUNT))
    case (Some(d), Some(a)) => Some(Coin(d, a))
    case _ => None
  }

  /** A message and the number of events that carry it. */
  datatype Found = Found(msg: Msg, used: nat) | NotFound

  function RawOf(e: Event): Bytes {
    if e.Ran? && e.value.Raw? then e.value.bytes else []
  }

  function CoinOf(v: Value): Coin {
    match ReadCoin(v) case Some(c) => c case None => Coin([], [])
  }

  function CoinIn(e: Event): Coin {
    if e.Ran? then CoinOf(e.value) else Coin([], [])
  }

  function ReadMsg(es: seq<Event>): (r: Found)
    ensures r.Found? ==> 0 < r.used <= |es|
  {
    if es == [] then NotFound
    else
      match es[0]
      case Announced(title) =>
        if |es| < 4 then NotFound
        else if title == "Delegate" then Found(Delegate(RawOf(es[1]), RawOf(es[2]), CoinIn(es[3])), 4)
        else Found(Undelegate(RawOf(es[1]), RawOf(es[2]), CoinIn(es[3])), 4)
      case Ran(act, v) =>
        if act == ShowSend && RawAt(v, SEND_FROM).Some? && RawAt(v, SEND_TO).Some?
           && RecordAt(v, SEND_AMOUNT).Some? then
          Found(Send(RawAt(v, SEND_FROM).value, RawAt(v, SEND_TO).value, CoinOf(RecordAt(v, SEND_AMOUNT).value)), 1)
        else if act == ShowProposalId && v.Num? && |es| >= 3 then
          Found(Deposit(v.n, RawOf(es[1]), CoinIn(es[2])), 3)
        else NotFound
  }

  function ReadMessages(es: seq<Event>): seq<Msg>
    decreases |es|
  {
    match ReadMsg(es)
    case NotFound => []
    case Found(m, used) => [m] + ReadMessages(es[used..])
  }

  lemma {:induction false} MsgComesBack(m: Msg, rest: seq<Event>)
    ensures ReadMsg(MsgEvents(m) + rest) == Found(m, |MsgEvents(m)|)
    ensures (MsgEvents(m) + rest)[|MsgEvents(m)|..] == rest
  {
    assert ReadCoin(CoinValue(m.amount)) == Some(m.amount);
    var es := MsgEvents(m) + rest;
    assert forall k :: 0 <= k < |MsgEvents(m)| ==> es[k] == MsgEvents(m)[k];
    if m.Undelegate? {
      assert "Undelegate" != "Delegate";
    }
  }

  lemma {:induction false} MessagesBack(ms: seq<Msg>, tail: seq<Event>)
    requires ReadMsg(tail).NotFound?
    ensures ReadMessages(AllEvents(ms) + tail) == ms
  {
    if ms == [] {
      assert AllEvents(ms) + tail == tail;
    } else {
      MsgComesBack(ms[0], AllEvents(ms[1..]) + tail);
      Associate(MsgEvents(ms[0]), AllEvents(ms[1..]), tail);
      MessagesBack(ms[1..], tail);
    }
  }

  predicate IsFee(e: Event) {
    e.Ran? && e.act.ShowFee?
  }

  /** The messages among the events of a document. */
  function ReadDocument(es: seq<Event>): seq<Msg> {
    if es != [] && IsFee(es[0]) then ReadMessages(es[1..]) else ReadMessages(es)
  }

  /** Decoding what the closures received gives the original messages: none lost, changed or reordered. */
  lemma {:induction false} MessagesComeBack(feeFirst: bool, ms: seq<Msg>, fee: Fee)
    ensures ReadDocument(DocEvents(feeFirst, ms, fee)) == ms
  {
    if feeFirst {
      MessagesBack(ms, []);
      assert AllEvents(ms) + [] == AllEvents(ms);
      assert ([FeeEvent(fee)] + AllEvents(ms))[1..] == AllEvents(ms);
    } else if ms == [] {
      assert AllEvents(ms) + [FeeEvent(fee)] == [FeeEvent(fee)] && [FeeEvent(fee)][1..] == [];
    } else {
      MessagesBack(ms, [FeeEvent(fee)]);
      assert (AllEvents(ms) + [FeeEvent(fee)])[0] == MsgEvents(ms[0])[0];
    }
  }

  // ---------------------------------------------------------------- one concrete encoder

  /** A sign document with everything the schema allows around the kept values. */
  datatype SignDoc = SignDoc(
    messages: seq<Msg>, memo: Bytes, timeoutHeight: nat, extensions: seq<Bytes>, nonCritical: seq<Bytes>,
    signerInfos: seq<Bytes>, fee: Fee, payer: Bytes, granter: Bytes, tip: Bytes,
    chainId: Bytes, accountNumber: nat)

  function Chunks(number: nat, ps: seq<Bytes>): seq<Wired> {
    if ps == [] then [] else [Chunk(number, ps[0])] + Chunks(number, ps[1..])
  }

  function AnyWire(url: Bytes, value: Bytes): seq<Wired> {
    [Chunk(TYPE_URL, url), Chunk(ANY_VALUE, value)]
  }

  function LayoutOfMsg(m: Msg): MsgLayout {
    var coin := Encode(CoinWire(m.amount));
    var msg := Encode(MsgWire(m, coin));
    MsgLayout(Encode(AnyWire(UrlOf(m), msg)), msg, coin)
  }

  function LayoutsOf(ms: seq<Msg>): (ls: seq<MsgLayout>)
    ensures |ls| == |ms| && forall k :: 0 <= k < |ms| ==> ls[k] == LayoutOfMsg(ms[k])
  {
    seq(|ms|, k requires 0 <= k < |ms| => LayoutOfMsg(ms[k]))
  }

  function BodyWire(d: SignDoc): seq<Wired> {
    MessageChunks(LayoutsOf(d.messages)) + ([Chunk(2, d.memo), Count(3, d.timeoutHeight)]
    + (Chunks(BODY_EXTENSIONS, d.extensions) + Chunks(BODY_NON_CRITICAL, d.nonCritical)))
  }

  function WholeFee(d: SignDoc): seq<Wired> {
    FeeWire(d.fee, Encode(CoinWire(d.fee.amount))) + [Chunk(3, d.payer), Chunk(4, d.granter)]
  }

  function AuthWire(d: SignDoc): seq<Wired> {
    Chunks(1, d.signerInfos) + ([Chunk(AUTH_FEE, Encode(WholeFee(d)))] + [Chunk(3, d.tip)])
  }

  function DocWire(d: SignDoc): seq<Wired> {
    [Chunk(DOC_BODY, Encode(BodyWire(d))), Chunk(DOC_AUTH, Encode(AuthWire(d)))]
    + [Chunk(3, d.chainId), Count(4, d.accountNumber)]
  }

  function LayoutOf(d: SignDoc): Layout {
    Layout(Encode(DocWire(d)), Encode(BodyWire(d)), Encode(AuthWire(d)), Encode(WholeFee(d)),
           Encode(CoinWire(d.fee.amount)), LayoutsOf(d.messages), false)
  }

  /** Lengths and numbers are 64-bit varints. */
  predicate MsgSized(m: Msg) {
    var l := LayoutOfMsg(m);
    AllSized(AnyWire(UrlOf(m), l.msg)) && AllSized(MsgWire(m, l.coin)) && AllSized(CoinWire(m.amount))
  }

  predicate DocSized(d: SignDoc) {
    && AllSized(DocWire(d)) && AllSized(BodyWire(d)) && AllSized(AuthWire(d)) && AllSized(WholeFee(d))
    && AllSized(CoinWire(d.fee.amount)) && forall k :: 0 <= k < |d.messages| ==> MsgSized(d.messages[k])
  }

  lemma {:induction false} KeptConcat(fs: Fields, a: seq<Wired>, b: seq<Wired>)
    ensures Kept(fs, a + b) == Kept(fs, a) + Kept(fs, b)
  {
    if a == [] {
      assert a + b == b;
    } else {
      assert (a + b)[0] == a[0] && (a + b)[1..] == a[1..] + b;
      KeptConcat(fs, a[1..], b);
      Associate(if Dropped(fs, a[0]) then [] else [a[0]], Kept(fs, a[1..]), Kept(fs, b));
    }
  }

  lemma {:induction false} NoneKept(fs: Fields, list: seq<Wired>)
    requires forall k :: 0 <= k < |list| ==> Dropped(fs, list[k])
    ensures Kept(fs, list) == []
  {
    if list == [] {
    } else {
      NoneKept(fs, list[1..]);
    }
  }

  lemma {:induction false} AllKept(fs: Fields, list: seq<Wired>)
    requires forall k :: 0 <= k < |list| ==> !Dropped(fs, list[k])
    ensures Kept(fs, list) == list
  {
    if list == [] {
    } else {
      AllKept(fs, list[1..]);
      assert [list[0]] + list[1..] == list;
    }
  }

  lemma {:induction false} ChunksNumbered(number: nat, ps: seq<Bytes>)
    ensures forall k :: 0 <= k < |Chunks(number, ps)| ==>
              Chunks(number, ps)[k].Chunk? && Chunks(number, ps)[k].number == number
  {
    if ps == [] {
    } else {
      ChunksNumbered(number, ps[1..]);
    }
  }

  lemma {:induction false} MessageChunksNumbered(ls: seq<MsgLayout>)
    ensures forall k :: 0 <= k < |MessageChunks(ls)| ==>
              MessageChunks(ls)[k].Chunk? && MessageChunks(ls)[k].number == BODY_MESSAGES
  {
    if ls == [] {
    } else {
      MessageChunksNumbered(ls[1..]);
    }
  }

  /** An encoding of fields that are all kept. */
  lemma {:induction false} EncodedWhole(fs: Fields, list: seq<Wired>)
    requires AllSized(list) && forall k :: 0 <= k < |list| ==> !Dropped(fs, list[k])
    ensures Filled(Encode(list)) && Shuffled(Kept(fs, FieldsIn(Encode(list))), list)
  {
    FieldsOfEncoding(list);
    AllKept(fs, list);
  }

  lemma {:induction false} EncodedOnce(list: seq<Wired>, k: nat)
    requires AllSized(list) && k < |list| && OnceAt(list, list[k], k)
    ensures Filled(Encode(list)) && HasOnce(FieldsIn(Encode(list)), list[k])
  {
    FieldsOfEncoding(list);
  }

  lemma {:induction false} CoinLays(c: Coin)
    requires AllSized(CoinWire(c))
    ensures CoinLaid(Encode(CoinWire(c)), c)
  {
    EncodedWhole(CoinFields(), CoinWire(c));
  }

  lemma {:induction false} MsgWireLays(m: Msg, coin: Bytes)
    requires AllSized(MsgWire(m, coin))
    ensures MsgLaid(Encode(MsgWire(m, coin)), m, coin)
  {
    var fields := MsgWire(m, coin);
    if m.Send? {
      EncodedWhole(SendFields(), fields);
    } else {
      EncodedOnce(fields, 0);
      EncodedOnce(fields, 1);
      EncodedOnce(fields, 2);
    }
  }

  lemma {:induction false} AnyWireLays(url: Bytes, value: Bytes)
    requires AllSized(AnyWire(url, value))
    ensures AnyLaid(Encode(AnyWire(url, value)), url, value)
  {
    EncodedOnce(AnyWire(url, value), 0);
    EncodedOnce(AnyWire(url, value), 1);
  }

  lemma {:induction false} EncodedMsgLays(m: Msg)
    requires MsgSized(m)
    ensures MsgLays(LayoutOfMsg(m), m)
  {
    var l := LayoutOfMsg(m);
    CoinLays(m.amount);
    MsgWireLays(m, l.coin);
    AnyWireLays(UrlOf(m), l.msg);
  }

  lemma {:induction false} EncodedMsgsLay(ms: seq<Msg>)
    requires forall k :: 0 <= k < |ms| ==> MsgSized(ms[k])
    ensures MsgsLay(LayoutsOf(ms), ms)
  {
    forall k | 0 <= k < |ms| ensures MsgLays(LayoutsOf(ms)[k], ms[k]) {
      EncodedMsgLays(ms[k]);
    }
  }

  lemma {:induction false} BodyKept(d: SignDoc)
    ensures Kept(BodyFields(), BodyWire(d)) == MessageChunks(LayoutsOf(d.messages))
  {
    var fs := BodyFields();
    var fixed := [Chunk(2, d.memo), Count(3, d.timeoutHeight)];
    var ext, non := Chunks(BODY_EXTENSIONS, d.extensions), Chunks(BODY_NON_CRITICAL, d.nonCritical);
    ChunksNumbered(BODY_EXTENSIONS, d.extensions);
    ChunksNumbered(BODY_NON_CRITICAL, d.nonCritical);
    MessageChunksNumbered(LayoutsOf(d.messages));
    AllKept(fs, MessageChunks(LayoutsOf(d.messages)));
    NoneKept(fs, fixed);
    NoneKept(fs, ext);
    NoneKept(fs, non);
    KeptConcat(fs, ext, non);
    KeptConcat(fs, fixed, ext + non);
    KeptConcat(fs, MessageChunks(LayoutsOf(d.messages)), fixed + (ext + non));
  }

  lemma {:induction false} FeeKept(d: SignDoc)
    ensures Kept(FeeFields(), WholeFee(d)) == FeeWire(d.fee, Encode(CoinWire(d.fee.amount)))
  {
    var kept := FeeWire(d.fee, Encode(CoinWire(d.fee.amount)));
    AllKept(FeeFields(), kept);
    NoneKept(FeeFields(), [Chunk(3, d.payer), Chunk(4, d.granter)]);
    KeptConcat(FeeFields(), kept, [Chunk(3, d.payer), Chunk(4, d.granter)]);
  }

  lemma {:induction false} AuthKept(d: SignDoc)
    ensures Kept(AuthFields(), AuthWire(d)) == [Chunk(AUTH_FEE, Encode(WholeFee(d)))]
  {
    var fs, infos, fee := AuthFields(), Chunks(1, d.signerInfos), [Chunk(AUTH_FEE, Encode(WholeFee(d)))];
    ChunksNumbered(1, d.signerInfos);
    NoneKept(fs, infos);
    AllKept(fs, fee);
    NoneKept(fs, [Chunk(3, d.tip)]);
    KeptConcat(fs, fee, [Chunk(3, d.tip)]);
    KeptConcat(fs, infos, fee + [Chunk(3, d.tip)]);
  }

  lemma {:induction false} PartsKept(body: Bytes, auth: Bytes, chain: Bytes, account: nat)
    ensures Kept(DocFields(), [Chunk(DOC_BODY, body), Chunk(DOC_AUTH, auth)] + [Chunk(3, chain), Count(4, account)]) ==
            [Chunk(DOC_BODY, body), Chunk(DOC_AUTH, auth)]
  {
    var fs, kept := DocFields(), [Chunk(DOC_BODY, body), Chunk(DOC_AUTH, auth)];
    var others := [Chunk(3, chain), Count(4, account)];
    DocKinds(DOC_BODY);
    DocKinds(DOC_AUTH);
    DocKinds(3);
    DocKinds(4);
    AllKept(fs, kept);
    NoneKept(fs, others);
    KeptConcat(fs, kept, others);
  }

  lemma {:induction false} DocKept(d: SignDoc)
    ensures Kept(DocFields(), DocWire(d)) ==
            [Chunk(DOC_BODY, Encode(BodyWire(d))), Chunk(DOC_AUTH, Encode(AuthWire(d)))]
  {
    PartsKept(Encode(BodyWire(d)), Encode(AuthWire(d)), d.chainId, d.accountNumber);
  }

  /** The encoder arranges a document as the theorems about documents want it. */
  lemma {:induction false} EncoderLays(d: SignDoc)
    requires DocSized(d)
    ensures Lays(LayoutOf(d), d.messages, d.fee)
  {
    FieldsOfEncoding(BodyWire(d));
    FieldsOfEncoding(WholeFee(d));
    FieldsOfEncoding(AuthWire(d));
    FieldsOfEncoding(DocWire(d));
    BodyKept(d);
    FeeKept(d);
    AuthKept(d);
    DocKept(d);
    CoinLays(d.fee.amount);
    EncodedMsgsLay(d.messages);
  }

  /** The noted run handed over exactly this document's messages, and its fee before or behind them. */
  ghost predicate Carries(o: Out<seq<Event>>, feeFirst: bool, ms: seq<Msg>, fee: Fee) {
    && o.Accept? && ReadDocument(o.st) == ms
    && |o.st| > 0 && o.st[if feeFirst then 0 else |o.st| - 1] == Ran(ShowFee, FeeValue(fee))
  }

  lemma {:induction false} CarriesBack(o: Out<seq<Event>>, feeFirst: bool, ms: seq<Msg>, fee: Fee, fits: bool)
    requires YieldsAny(o, [], DocEvents(feeFirst, ms, fee), fits)
    ensures if fits then Carries(o, feeFirst, ms, fee) else o.Reject?
  {
    MessagesComeBack(feeFirst, ms, fee);
    assert [] + DocEvents(feeFirst, ms, fee) == DocEvents(feeFirst, ms, fee);
  }

  lemma {:induction false} LayoutRoundTrip(lib: Library, l: Layout, ms: seq<Msg>, fee: Fee)
    requires Lays(l, ms, fee)
    ensures var o := Noted(lib, TxnParser(), l.doc, |l.doc|);
            if MsgsFit(ms) && FeeFits(fee) then Carries(o, l.feeFirst, ms, fee) else o.Reject?
  {
    DocumentReads(lib, l, ms, fee);
    CarriesBack(Noted(lib, TxnParser(), l.doc, |l.doc|), l.feeFirst, ms, fee, MsgsFit(ms) && FeeFits(fee));
  }

  /** Encoding a document and interpreting it gives back its messages and its fee, and nothing else it holds
      has an influence. */
  lemma {:induction false} SignDocRoundTrip(lib: Library, d: SignDoc)
    requires DocSized(d)
    ensures var w := Encode(DocWire(d));
            var o := Noted(lib, TxnParser(), w, |w|);
            if MsgsFit(d.messages) && FeeFits(d.fee) then Carries(o, false, d.messages, d.fee) else o.Reject?
  {
    EncoderLays(d);
    LayoutRoundTrip(lib, LayoutOf(d), d.messages, d.fee);
  }
}
