// Sign documents: what the transaction parser makes of their encodings.

module Documents {
  import opened Octets
  import opened Interp
  import opened Runs
  import opened Messages
  import opened Windows
  import opened Screen
  import opened Transaction

  // ---------------------------------------------------------------- the values a document carries

  datatype Coin = Coin(denom: Bytes, amount: Bytes)

  datatype Msg =
    | Send(sender: Bytes, recipient: Bytes, amount: Coin)
    | Delegate(delegator: Bytes, validator: Bytes, amount: Coin)
    | Undelegate(delegator: Bytes, validator: Bytes, amount: Coin)
    | Deposit(proposal: nat, depositor: Bytes, amount: Coin)

  datatype Fee = Fee(amount: Coin, gas: nat)

  function CoinWire(c: Coin): seq<Wired> {
    [Chunk(COIN_DENOM, c.denom), Chunk(COIN_AMOUNT, c.amount)]
  }

  /** The fields of a message whose coin is encoded in these bytes. */
  function MsgWire(m: Msg, coin: Bytes): (fields: seq<Wired>)
    ensures |fields| == 3
  {
    match m
    case Send(sender, recipient, _) =>
      [Chunk(SEND_FROM, sender), Chunk(SEND_TO, recipient), Chunk(SEND_AMOUNT, coin)]
    case Delegate(d, v, _) => [Chunk(1, d), Chunk(2, v), Chunk(3, coin)]
    case Undelegate(d, v, _) => [Chunk(1, d), Chunk(2, v), Chunk(3, coin)]
    case Deposit(p, d, _) => [Count(1, p), Chunk(2, d), Chunk(3, coin)]
  }

  function UrlOf(m: Msg): Bytes {
    match m
    case Send(_, _, _) => Ascii(SEND_URL)
    case Delegate(_, _, _) => Ascii(DELEGATE_URL)
    case Undelegate(_, _, _) => Ascii(UNDELEGATE_URL)
    case Deposit(_, _, _) => Ascii(DEPOSIT_URL)
  }

  function ArmOf(m: Msg): Interp {
    match m
    case Send(_, _, _) => SendInterp()
    case Delegate(_, _, _) => DelegateInterp()
    case Undelegate(_, _, _) => UndelegateInterp()
    case Deposit(_, _, _) => DepositInterp()
  }

  // ---------------------------------------------------------------- how a document may be laid out on the wire

  /** The bytes of an Any, of the message in it and of its coin. */
  datatype MsgLayout = MsgLayout(any: Bytes, msg: Bytes, coin: Bytes)

  /** The fields of a coin, in any order, with any unknown fields between. */
  predicate CoinLaid(w: Bytes, c: Coin) {
    Filled(w) && Shuffled(Kept(CoinFields(), FieldsIn(w)), CoinWire(c))
  }

  /** The fields of a message, in any order, with any fields that are dropped or unknown between. */
  ghost predicate MsgLaid(w: Bytes, m: Msg, coin: Bytes) {
    && Filled(w)
    && var fields := MsgWire(m, coin);
    && if m.Send? then Shuffled(Kept(SendFields(), FieldsIn(w)), fields)
       else HasOnce(FieldsIn(w), fields[0]) && HasOnce(FieldsIn(w), fields[1]) && HasOnce(FieldsIn(w), fields[2])
  }

  ghost predicate AnyLaid(w: Bytes, url: Bytes, value: Bytes) {
    Filled(w) && HasOnce(FieldsIn(w), Chunk(TYPE_URL, url)) && HasOnce(FieldsIn(w), Chunk(ANY_VALUE, value))
  }

  ghost predicate MsgLays(l: MsgLayout, m: Msg) {
    CoinLaid(l.coin, m.amount) && MsgLaid(l.msg, m, l.coin) && AnyLaid(l.any, UrlOf(m), l.msg)
  }

  predicate CoinFits(c: Coin) {
    |c.denom| <= DENOM_CAP && |c.amount| <= AMOUNT_CAP
  }

  /** The strings the app keeps fit its buffers. */
  predicate MsgFits(m: Msg) {
    && CoinFits(m.amount)
    && match m
       case Send(a, b, _) => |a| <= ADDRESS_CAP && |b| <= ADDRESS_CAP
       case Delegate(a, b, _) => |a| <= ADDRESS_CAP && |b| <= ADDRESS_CAP
       case Undelegate(a, b, _) => |a| <= ADDRESS_CAP && |b| <= ADDRESS_CAP
       case Deposit(_, a, _) => |a| <= ADDRESS_CAP
  }

  function CoinValue(c: Coin): Value {
    Record(map[COIN_DENOM := Raw(c.denom), COIN_AMOUNT := Raw(c.amount)])
  }

  function SendValue(m: Msg): Value
    requires m.Send?
  {
    Record(map[SEND_FROM := Raw(m.sender), SEND_TO := Raw(m.recipient), SEND_AMOUNT := CoinValue(m.amount)])
  }

  function FeeValue(f: Fee): Value {
    Record(map[FEE_AMOUNT := CoinValue(f.amount), FEE_GAS := Num(f.gas)])
  }

  function StringEvent(title: string, b: Bytes): Event {
    Ran(ShowString(title), Raw(b))
  }

  /** What the parser hands to its closures for a message, in order. */
  function MsgEvents(m: Msg): seq<Event> {
    match m
    case Send(_, _, _) => [Ran(ShowSend, SendValue(m))]
    case Delegate(d, v, c) =>
      [Announced("Delegate"), StringEvent("Delegator Address", d), StringEvent("Validator Address", v),
       Ran(ShowCoin, CoinValue(c))]
    case Undelegate(d, v, c) =>
      [Announced("Undelegate"), StringEvent("Delegator Address", d), StringEvent("Validator Address", v),
       Ran(ShowCoin, CoinValue(c))]
    case Deposit(p, d, c) =>
      [Ran(ShowProposalId, Num(p)), StringEvent("Depositor Address", d), Ran(ShowCoin, CoinValue(c))]
  }

  function AllEvents(ms: seq<Msg>): seq<Event> {
    if ms == [] then [] else MsgEvents(ms[0]) + AllEvents(ms[1..])
  }

  /** The outcome of a noted run that hands over `es`, or refuses. */
  ghost predicate Yields(o: Out<seq<Event>>, past: seq<Event>, es: seq<Event>, fits: bool) {
    if fits then o == Accept(Unit, past + es) else o.Reject?
  }

  /** The same for a run that leaves a record. */
  ghost predicate YieldsAny(o: Out<seq<Event>>, past: seq<Event>, es: seq<Event>, fits: bool) {
    if fits then o.Accept? && o.st == past + es else o.Reject?
  }

  // ---------------------------------------------------------------- coins

  lemma {:induction false} TwoFields<S>(lib: Library, on: (Event, S) -> (bool, S), fs: Fields, f1: Wired, f2: Wired,
                                        s: S)
    ensures RunFields(lib, on, fs, [f1, f2], map[], s) ==
            RunThen(lib, on, fs, RunFields(lib, on, fs, [f1], map[], s), [f2])
  {
    assert [f1, f2] == [f1] + [f2];
    RunConcat(lib, on, fs, [f1], [f2], map[], s);
  }

  /** A field that is not in the record yet. */
  lemma {:induction false} OneField<S>(lib: Library, on: (Event, S) -> (bool, S), fs: Fields, kind: Kind, f: Wired,
                                       rec: map<nat, Value>, s: S)
    requires Lookup(fs, f.number) == Some(kind) && f.number !in rec
    ensures RunFields(lib, on, fs, [f], rec, s) ==
            match RunOne(lib, on, kind, f, s)
            case Accept(v, s') => Accept(Record(rec[f.number := v]), s')
            case undone => undone
  {
    assert [f][1..] == [];
  }

  /** The value of a string kept in a buffer of this size. */
  function Within(cap: nat, b: Bytes): Option<Value> {
    if |b| <= cap then Some(Raw(b)) else None
  }

  function CoinKept(c: Coin): Option<Value> {
    if CoinFits(c) then Some(CoinValue(c)) else None
  }

  /** A coin comes out whole, or is refused if a part does not fit, however it is laid out. */
  lemma {:induction false} CoinReads<S>(lib: Library, on: (Event, S) -> (bool, S), w: Bytes, c: Coin, s: S)
    requires CoinLaid(w, c)
    ensures Eval(lib, on, Message(CoinFields()), w, |w|, s) == Plainly(CoinKept(c), s)
  {
    TwoFieldMessage(lib, on, CoinFields(), w, CoinWire(c)[0], CoinWire(c)[1],
                    Within(DENOM_CAP, c.denom), Within(AMOUNT_CAP, c.amount), s);
  }

  // ---------------------------------------------------------------- messages

  /** A closure is handed what the interpreter under it kept. */
  lemma {:induction false} ActionReads(lib: Library, i: Interp, act: Act, w: Bytes, past: seq<Event>, v: Value,
                                       fits: bool)
    requires Eval(lib, Noting(), i, w, |w|, past) == if fits then Accept(v, past) else Reject(past)
    ensures Yields(Eval(lib, Noting(), Action(i, act), w, |w|, past), past, [Ran(act, v)], fits)
  {
  }

  lemma {:induction false} SendRecordReads<S>(lib: Library, on: (Event, S) -> (bool, S), w: Bytes, coin: Bytes,
                                              m: Msg, s: S)
    requires m.Send? && MsgLaid(w, m, coin)
    requires Eval(lib, on, Message(CoinFields()), coin, |coin|, s) == Plainly(CoinKept(m.amount), s)
    ensures Eval(lib, on, Message(SendFields()), w, |w|, s) ==
            if MsgFits(m) then Accept(SendValue(m), s) else Reject(s)
  {
    var f, g, h := Chunk(SEND_FROM, m.sender), Chunk(SEND_TO, m.recipient), Chunk(SEND_AMOUNT, coin);
    var v, u, t := Within(ADDRESS_CAP, m.sender), Within(ADDRESS_CAP, m.recipient), CoinKept(m.amount);
    assert MsgWire(m, coin) == [f, g, h];
    ThreeFieldMessage(lib, on, SendFields(), w, f, g, h, v, u, t, s);
  }

  lemma {:induction false} SendReads(lib: Library, w: Bytes, coin: Bytes, m: Msg, past: seq<Event>)
    requires m.Send? && CoinLaid(coin, m.amount) && MsgLaid(w, m, coin)
    ensures Yields(Eval(lib, Noting(), SendInterp(), w, |w|, past), past, MsgEvents(m), MsgFits(m))
  {
    CoinReads(lib, Noting(), coin, m.amount, past);
    SendRecordReads(lib, Noting(), w, coin, m, past);
    ActionReads(lib, Message(SendFields()), ShowSend, w, past, SendValue(m), MsgFits(m));
  }

  function ThenUnit<S>(o: Out<S>): Out<S> {
    if o.Accept? then Accept(Unit, o.st) else o
  }

  function LastTwo<S>(lib: Library, on: (Event, S) -> (bool, S), k2: Kind, k3: Kind, f2: Wired, f3: Wired,
                      s: S): Out<S>
  {
    match RunOne(lib, on, k2, f2, s)
    case Accept(_, s2) => ThenUnit(RunOne(lib, on, k3, f3, s2))
    case undone => undone
  }

  /** Three fields of an ordered message, one after the other. */
  function InTurn<S>(lib: Library, on: (Event, S) -> (bool, S), k1: Kind, k2: Kind, k3: Kind,
                     f1: Wired, f2: Wired, f3: Wired, s: S): Out<S>
  {
    match RunOne(lib, on, k1, f1, s)
    case Accept(_, s1) => LastTwo(lib, on, k2, k3, f2, f3, s1)
    case undone => undone
  }

  lemma {:induction false} FirstPass<S>(lib: Library, on: (Event, S) -> (bool, S), number: nat, kind: Kind,
                                        rest: Fields, w: Bytes, o: Out<S>, s: S)
    requires EvalFields(lib, on, Single(number, false, kind), w, |w|, map[], s) == Alone(number, o)
    ensures EvalPasses(lib, on, Field(number, false, kind, rest), w, |w|, s) ==
            if o.Accept? then EvalPasses(lib, on, rest, w, |w|, o.st) else o
  {
  }

  lemma {:induction false} LastPass<S>(lib: Library, on: (Event, S) -> (bool, S), number: nat, repeated: bool,
                                       kind: Kind, w: Bytes, o: Out<S>, s: S)
    requires EvalFields(lib, on, Single(number, repeated, kind), w, |w|, map[], s) == Alone(number, o)
    ensures EvalPasses(lib, on, Single(number, repeated, kind), w, |w|, s) ==
            if o.Accept? then Accept(Unit, o.st) else o
  {
    assert EvalPasses(lib, on, NoFields, w, |w|, s) == Accept(Unit, s);
  }

  lemma {:induction false} LastTwoRead<S>(lib: Library, on: (Event, S) -> (bool, S), k2: Kind, k3: Kind, r3: bool,
                                          w: Bytes, f2: Wired, f3: Wired, s: S)
    requires Filled(w) && HasOnce(FieldsIn(w), f2) && HasOnce(FieldsIn(w), f3) && f2.number == 2 && f3.number == 3
    ensures EvalPasses(lib, on, Field(2, false, k2, Single(3, r3, k3)), w, |w|, s) ==
            LastTwo(lib, on, k2, k3, f2, f3, s)
  {
    FindsOnce(lib, on, false, k2, w, f2, s);
    var o2 := RunOne(lib, on, k2, f2, s);
    FirstPass(lib, on, 2, k2, Single(3, r3, k3), w, o2, s);
    if o2.Accept? {
      FindsOnce(lib, on, r3, k3, w, f3, o2.st);
      LastPass(lib, on, 3, r3, k3, w, RunOne(lib, on, k3, f3, o2.st), o2.st);
    }
  }

  /** However its fields are arranged on the wire, with whatever between them, an ordered message runs the three it
      knows in schema order. */
  lemma {:induction false} OrderedReads<S>(lib: Library, on: (Event, S) -> (bool, S), k1: Kind, k2: Kind, k3: Kind,
                                           r3: bool, w: Bytes, f1: Wired, f2: Wired, f3: Wired, s: S)
    requires Filled(w) && HasOnce(FieldsIn(w), f1) && HasOnce(FieldsIn(w), f2) && HasOnce(FieldsIn(w), f3)
    requires f1.number == 1 && f2.number == 2 && f3.number == 3
    ensures EvalPasses(lib, on, Field(1, false, k1, Field(2, false, k2, Single(3, r3, k3))), w, |w|, s) ==
            InTurn(lib, on, k1, k2, k3, f1, f2, f3, s)
  {
    FindsOnce(lib, on, false, k1, w, f1, s);
    var o1 := RunOne(lib, on, k1, f1, s);
    FirstPass(lib, on, 1, k1, Field(2, false, k2, Single(3, r3, k3)), w, o1, s);
    if o1.Accept? { LastTwoRead(lib, on, k2, k3, r3, w, f2, f3, o1.st); }
  }

  lemma {:induction false} StringReads(lib: Library, title: string, b: Bytes, past: seq<Event>)
    ensures Yields(Eval(lib, Noting(), ShowStr(title), b, |b|, past), past, [StringEvent(title, b)], |b| <= ADDRESS_CAP)
  {
  }

  lemma {:induction false} ShowCoinReads(lib: Library, coin: Bytes, c: Coin, past: seq<Event>)
    requires CoinLaid(coin, c)
    ensures var w := coin;
            Yields(Eval(lib, Noting(), ShowCoinInterp(), w, |w|, past), past, [Ran(ShowCoin, CoinValue(c))],
                   CoinFits(c))
  {
    CoinReads(lib, Noting(), coin, c, past);
  }

  /** Three fields that each hand over one event. */
  lemma {:induction false} HandsThree(lib: Library, k1: Kind, k2: Kind, k3: Kind, f1: Wired, f2: Wired, f3: Wired,
                                      past: seq<Event>, e1: Event, e2: Event, e3: Event, fit1: bool, fit2: bool,
                                      fit3: bool)
    requires Yields(RunOne(lib, Noting(), k1, f1, past), past, [e1], fit1)
    requires Yields(RunOne(lib, Noting(), k2, f2, past + [e1]), past + [e1], [e2], fit2)
    requires Yields(RunOne(lib, Noting(), k3, f3, past + [e1] + [e2]), past + [e1] + [e2], [e3], fit3)
    ensures Yields(InTurn(lib, Noting(), k1, k2, k3, f1, f2, f3, past), past, [e1, e2, e3], fit1 && fit2 && fit3)
  {
    assert past + [e1] + [e2] + [e3] == past + [e1, e2, e3];
  }

  function StakingEvents(d: Bytes, v: Bytes, c: Coin): seq<Event> {
    [StringEvent("Delegator Address", d), StringEvent("Validator Address", v), Ran(ShowCoin, CoinValue(c))]
  }

  predicate StakingFits(d: Bytes, v: Bytes, c: Coin) {
    |d| <= ADDRESS_CAP && |v| <= ADDRESS_CAP && CoinFits(c)
  }

  lemma {:induction false} StakingReads(lib: Library, w: Bytes, coin: Bytes, d: Bytes, v: Bytes, c: Coin,
                                        past: seq<Event>)
    requires CoinLaid(coin, c) && Filled(w)
    requires HasOnce(FieldsIn(w), Chunk(1, d)) && HasOnce(FieldsIn(w), Chunk(2, v))
    requires HasOnce(FieldsIn(w), Chunk(3, coin))
    ensures Yields(Eval(lib, Noting(), Ordered(StakingFields()), w, |w|, past), past,
                   StakingEvents(d, v, c), StakingFits(d, v, c))
  {
    var f1, f2, f3 := Chunk(1, d), Chunk(2, v), Chunk(3, coin);
    var k1, k2 := Delimited(ShowStr("Delegator Address")), Delimited(ShowStr("Validator Address"));
    OrderedReads(lib, Noting(), k1, k2, Delimited(ShowCoinInterp()), false, w, f1, f2, f3, past);
    var e1, e2 := StringEvent("Delegator Address", d), StringEvent("Validator Address", v);
    StringReads(lib, "Delegator Address", d, past);
    StringReads(lib, "Validator Address", v, past + [e1]);
    ShowCoinReads(lib, coin, c, past + [e1] + [e2]);
    HandsThree(lib, k1, k2, Delimited(ShowCoinInterp()), f1, f2, f3, past, e1, e2, Ran(ShowCoin, CoinValue(c)),
               |d| <= ADDRESS_CAP, |v| <= ADDRESS_CAP, CoinFits(c));
  }

  /** An announcement goes in front of what the interpreter behind it hands over. */
  lemma {:induction false} AnnouncedReads(lib: Library, title: string, inner: Interp, w: Bytes, past: seq<Event>,
                                          es: seq<Event>, fits: bool)
    requires Yields(Eval(lib, Noting(), inner, w, |w|, past + [Announced(title)]), past + [Announced(title)], es, fits)
    ensures var o := Eval(lib, Noting(), Preaction(Announce(title), inner), w, |w|, past);
            Yields(o, past, [Announced(title)] + es, fits)
  {
    Associate(past, [Announced(title)], es);
  }

  function DepositEvents(p: nat, d: Bytes, c: Coin): seq<Event> {
    [Ran(ShowProposalId, Num(p)), StringEvent("Depositor Address", d), Ran(ShowCoin, CoinValue(c))]
  }

  lemma {:induction false} ProposalReads(lib: Library, w: Bytes, coin: Bytes, p: nat, d: Bytes, c: Coin,
                                         past: seq<Event>)
    requires CoinLaid(coin, c) && Filled(w)
    requires HasOnce(FieldsIn(w), Count(1, p)) && HasOnce(FieldsIn(w), Chunk(2, d))
    requires HasOnce(FieldsIn(w), Chunk(3, coin))
    ensures Yields(Eval(lib, Noting(), DepositInterp(), w, |w|, past), past, DepositEvents(p, d, c),
                   |d| <= ADDRESS_CAP && CoinFits(c))
  {
    var f1, f2, f3 := Count(1, p), Chunk(2, d), Chunk(3, coin);
    var k1, k2 := Varying(NumberAction(ShowProposalId)), Delimited(ShowStr("Depositor Address"));
    OrderedReads(lib, Noting(), k1, k2, Delimited(ShowCoinInterp()), true, w, f1, f2, f3, past);
    var e1, e2 := Ran(ShowProposalId, Num(p)), StringEvent("Depositor Address", d);
    StringReads(lib, "Depositor Address", d, past + [e1]);
    ShowCoinReads(lib, coin, c, past + [e1] + [e2]);
    HandsThree(lib, k1, k2, Delimited(ShowCoinInterp()), f1, f2, f3, past, e1, e2, Ran(ShowCoin, CoinValue(c)),
               true, |d| <= ADDRESS_CAP, CoinFits(c));
  }

  lemma {:induction false} DepositReads(lib: Library, w: Bytes, coin: Bytes, m: Msg, past: seq<Event>)
    requires m.Deposit? && CoinLaid(coin, m.amount) && MsgLaid(w, m, coin)
    ensures Yields(Eval(lib, Noting(), DepositInterp(), w, |w|, past), past, MsgEvents(m), MsgFits(m))
  {
    ProposalReads(lib, w, coin, m.proposal, m.depositor, m.amount, past);
  }

  lemma {:induction false} BondReads(lib: Library, title: string, w: Bytes, coin: Bytes, d: Bytes, v: Bytes,
                                     c: Coin, past: seq<Event>)
    requires CoinLaid(coin, c) && Filled(w)
    requires HasOnce(FieldsIn(w), Chunk(1, d)) && HasOnce(FieldsIn(w), Chunk(2, v))
    requires HasOnce(FieldsIn(w), Chunk(3, coin))
    ensures var i := Preaction(Announce(title), Ordered(StakingFields()));
            Yields(Eval(lib, Noting(), i, w, |w|, past), past, [Announced(title)] + StakingEvents(d, v, c),
                   StakingFits(d, v, c))
  {
    StakingReads(lib, w, coin, d, v, c, past + [Announced(title)]);
    AnnouncedReads(lib, title, Ordered(StakingFields()), w, past, StakingEvents(d, v, c), StakingFits(d, v, c));
  }

  lemma {:induction false} BondEvents(m: Msg)
    ensures m.Delegate? ==>
              MsgEvents(m) == [Announced("Delegate")] + StakingEvents(m.delegator, m.validator, m.amount)
    ensures m.Undelegate? ==>
              MsgEvents(m) == [Announced("Undelegate")] + StakingEvents(m.delegator, m.validator, m.amount)
  {
  }

  lemma {:induction false} DelegateReads(lib: Library, w: Bytes, coin: Bytes, m: Msg, past: seq<Event>)
    requires m.Delegate? && CoinLaid(coin, m.amount) && MsgLaid(w, m, coin)
    ensures Yields(Eval(lib, Noting(), DelegateInterp(), w, |w|, past), past, MsgEvents(m), MsgFits(m))
  {
    BondEvents(m);
    BondReads(lib, "Delegate", w, coin, m.delegator, m.validator, m.amount, past);
  }

  lemma {:induction false} UndelegateReads(lib: Library, w: Bytes, coin: Bytes, m: Msg, past: seq<Event>)
    requires m.Undelegate? && CoinLaid(coin, m.amount) && MsgLaid(w, m, coin)
    ensures Yields(Eval(lib, Noting(), UndelegateInterp(), w, |w|, past), past, MsgEvents(m), MsgFits(m))
  {
    BondEvents(m);
    BondReads(lib, "Undelegate", w, coin, m.delegator, m.validator, m.amount, past);
  }

  /** The interpreter for a message hands its values to its closures, exactly if they fit, however it is laid out. */
  lemma {:induction false} ArmReads(lib: Library, w: Bytes, coin: Bytes, m: Msg, past: seq<Event>)
    requires CoinLaid(coin, m.amount) && MsgLaid(w, m, coin)
    ensures Yields(Eval(lib, Noting(), ArmOf(m), w, |w|, past), past, MsgEvents(m), MsgFits(m))
  {
    match m
    case Send(_, _, _) => SendReads(lib, w, coin, m, past);
    case Delegate(_, _, _) => DelegateReads(lib, w, coin, m, past);
    case Undelegate(_, _, _) => UndelegateReads(lib, w, coin, m, past);
    case Deposit(_, _, _) => DepositReads(lib, w, coin, m, past);
  }

  // ---------------------------------------------------------------- dispatch by type URL

  lemma {:induction false} ArmFound(m: Msg)
    ensures FindArm(Table(), UrlOf(m)) == Some(ArmOf(m))
  {
    FourArms(Ascii(SEND_URL), SendInterp(), Ascii(DELEGATE_URL), DelegateInterp(),
             Ascii(UNDELEGATE_URL), UndelegateInterp(), Ascii(DEPOSIT_URL), DepositInterp(), UrlOf(m));
  }

  lemma {:induction false} FieldsFit(w: Bytes, k: nat)
    requires k < |FieldsIn(w)| && FieldsIn(w)[k].Chunk?
    ensures |w| >= |FieldsIn(w)[k].payload|
    decreases |w|
  {
    if k == 0 {
    } else {
      FieldsFit(w[FrontOf(w).used..], k - 1);
    }
  }

  /** The search for the type URL finds it. */
  lemma {:induction false} UrlFound<S>(lib: Library, on: (Event, S) -> (bool, S), w: Bytes, url: Bytes, s: S)
    requires Filled(w) && HasOnce(FieldsIn(w), Chunk(TYPE_URL, url))
    ensures EvalFields(lib, on, UrlOnly(|w|), w, |w|, map[], s) == Accept(Record(map[TYPE_URL := Raw(url)]), s)
  {
    var f := Chunk(TYPE_URL, url);
    var k: nat :| OnceAt(FieldsIn(w), f, k);
    FieldsFit(w, k);
    FindsOnce(lib, on, false, Delimited(Buffer(|w|)), w, f, s);
  }

  /** Then the interpreter for it runs on the value. */
  lemma {:induction false} ValueRuns<S>(lib: Library, on: (Event, S) -> (bool, S), arm: Interp, w: Bytes,
                                        url: Bytes, value: Bytes, s: S)
    requires AnyLaid(w, url, value)
    ensures var o := Eval(lib, on, arm, value, |value|, s);
            EvalPasses(lib, on, AnyWith(arm), w, |w|, s) == if o.Accept? then Accept(Unit, o.st) else o
  {
    var f, g := Chunk(TYPE_URL, url), Chunk(ANY_VALUE, value);
    FindsOnce(lib, on, false, Delimited(Drop), w, f, s);
    FirstPass(lib, on, TYPE_URL, Delimited(Drop), Single(ANY_VALUE, false, Delimited(arm)), w, Accept(Unit, s), s);
    FindsOnce(lib, on, false, Delimited(arm), w, g, s);
    LastPass(lib, on, ANY_VALUE, false, Delimited(arm), w, Eval(lib, on, arm, value, |value|, s), s);
  }

  lemma {:induction false} Dispatches<S>(lib: Library, on: (Event, S) -> (bool, S), arms: Arms, other: Interp,
                                         arm: Interp, w: Bytes, url: Bytes, s: S)
    requires EvalFields(lib, on, UrlOnly(|w|), w, |w|, map[], s) == Accept(Record(map[TYPE_URL := Raw(url)]), s)
    requires FindArm(arms, url) == Some(arm)
    ensures Eval(lib, on, AnyOf(arms, other), w, |w|, s) == EvalPasses(lib, on, AnyWith(arm), w, |w|, s)
  {
  }

  /** An Any runs the interpreter its type URL selects on its value, wherever the two stand. */
  lemma {:induction false} AnyReads<S>(lib: Library, on: (Event, S) -> (bool, S), arms: Arms, other: Interp,
                                       arm: Interp, w: Bytes, url: Bytes, value: Bytes, s: S)
    requires AnyLaid(w, url, value) && FindArm(arms, url) == Some(arm)
    ensures var o := Eval(lib, on, arm, value, |value|, s);
            Eval(lib, on, AnyOf(arms, other), w, |w|, s) == if o.Accept? then Accept(Unit, o.st) else o
  {
    UrlFound(lib, on, w, url, s);
    ValueRuns(lib, on, arm, w, url, value, s);
    Dispatches(lib, on, arms, other, arm, w, url, s);
  }

  lemma {:induction false} MsgReads(lib: Library, l: MsgLayout, m: Msg, past: seq<Event>)
    requires MsgLays(l, m)
    ensures var w := l.any;
            Yields(Eval(lib, Noting(), AnyMessage(), w, |w|, past), past, MsgEvents(m), MsgFits(m))
  {
    ArmFound(m);
    AnyReads(lib, Noting(), Table(), Ordered(UnknownFields()), ArmOf(m), l.any, UrlOf(m), l.msg, past);
    ArmReads(lib, l.msg, l.coin, m, past);
  }

  // ---------------------------------------------------------------- whole documents

  function MessageChunks(ls: seq<MsgLayout>): seq<Wired> {
    if ls == [] then [] else [Chunk(BODY_MESSAGES, ls[0].any)] + MessageChunks(ls[1..])
  }

  ghost predicate MsgsLay(ls: seq<MsgLayout>, ms: seq<Msg>) {
    |ls| == |ms| && forall k :: 0 <= k < |ms| ==> MsgLays(ls[k], ms[k])
  }

  predicate MsgsFit(ms: seq<Msg>) {
    forall k :: 0 <= k < |ms| ==> MsgFits(ms[k])
  }

  /** These bytes are read as this message, whatever came before. */
  ghost predicate ReadsAs(lib: Library, w: Bytes, m: Msg) {
    forall past: seq<Event> ::
      Yields(Eval(lib, Noting(), AnyMessage(), w, |w|, past), past, MsgEvents(m), MsgFits(m))
  }

  lemma {:induction false} LaidReads(lib: Library, l: MsgLayout, m: Msg)
    requires MsgLays(l, m)
    ensures ReadsAs(lib, l.any, m)
  {
    forall past: seq<Event>
      ensures Yields(Eval(lib, Noting(), AnyMessage(), l.any, |l.any|, past), past, MsgEvents(m), MsgFits(m))
    {
      MsgReads(lib, l, m, past);
    }
  }

  /** A field whose interpreter leaves no value, in front of others. */
  lemma {:induction false} HeadField<S>(lib: Library, on: (Event, S) -> (bool, S), fs: Fields, i: Interp, f: Wired,
                                        rest: seq<Wired>, rec: map<nat, Value>, s: S)
    requires Lookup(fs, f.number) == Some(Delimited(i)) && f.Chunk?
    ensures var o := Eval(lib, on, i, f.payload, |f.payload|, s);
            var r := RunFields(lib, on, fs, [f] + rest, rec, s);
            if !o.Accept? then r == o
            else o.value == Unit ==> r == RunFields(lib, on, fs, rest, rec[f.number := Unit], o.st)
  {
    assert ([f] + rest)[1..] == rest;
  }

  lemma {:induction false} HeadMessage(lib: Library, w: Bytes, m: Msg, rest: seq<Wired>, rec: map<nat, Value>,
                                       past: seq<Event>)
    requires ReadsAs(lib, w, m)
    ensures var r := RunFields(lib, Noting(), BodyFields(), [Chunk(BODY_MESSAGES, w)] + rest, rec, past);
            if MsgFits(m) then
              r == RunFields(lib, Noting(), BodyFields(), rest, rec[BODY_MESSAGES := Unit], past + MsgEvents(m))
            else r.Reject?
  {
    HeadField(lib, Noting(), BodyFields(), AnyMessage(), Chunk(BODY_MESSAGES, w), rest, rec, past);
  }

  lemma {:induction false} FitStep(ms: seq<Msg>)
    requires ms != []
    ensures MsgsFit(ms) <==> MsgFits(ms[0]) && MsgsFit(ms[1..])
  {
    assert ms == [ms[0]] + ms[1..];
  }

  lemma {:induction false} MessagesRead(lib: Library, ls: seq<MsgLayout>, ms: seq<Msg>, rec: map<nat, Value>,
                                        past: seq<Event>)
    requires |ls| == |ms| && forall k :: 0 <= k < |ms| ==> ReadsAs(lib, ls[k].any, ms[k])
    ensures YieldsAny(RunFields(lib, Noting(), BodyFields(), MessageChunks(ls), rec, past), past, AllEvents(ms),
                      MsgsFit(ms))
    decreases |ms|
  {
    if ms == [] {
      assert past + AllEvents(ms) == past;
    } else {
      var m := ms[0];
      HeadMessage(lib, ls[0].any, m, MessageChunks(ls[1..]), rec, past);
      MessagesRead(lib, ls[1..], ms[1..], rec[BODY_MESSAGES := Unit], past + MsgEvents(m));
      Associate(past, MsgEvents(m), AllEvents(ms[1..]));
      FitStep(ms);
    }
  }

  /** The wire form of a document: the bytes of its parts, and which of fee and body comes first. */
  datatype Layout = Layout(doc: Bytes, body: Bytes, auth: Bytes, fee: Bytes, coin: Bytes,
                           msgs: seq<MsgLayout>, feeFirst: bool)

  function FeeWire(fee: Fee, coin: Bytes): seq<Wired> {
    [Chunk(FEE_AMOUNT, coin), Count(FEE_GAS, fee.gas)]
  }

  /** A wire form of this document: every part in any arrangement, with any dropped or unknown fields between. */
  ghost predicate Lays(l: Layout, ms: seq<Msg>, fee: Fee) {
    && Filled(l.doc) && Filled(l.body) && Filled(l.auth) && Filled(l.fee)
    && MsgsLay(l.msgs, ms) && CoinLaid(l.coin, fee.amount)
    && Kept(DocFields(), FieldsIn(l.doc)) ==
       (var body, auth := Chunk(DOC_BODY, l.body), Chunk(DOC_AUTH, l.auth);
        if l.feeFirst then [auth, body] else [body, auth])
    && Kept(BodyFields(), FieldsIn(l.body)) == MessageChunks(l.msgs)
    && Kept(AuthFields(), FieldsIn(l.auth)) == [Chunk(AUTH_FEE, l.fee)]
    && Shuffled(Kept(FeeFields(), FieldsIn(l.fee)), FeeWire(fee, l.coin))
  }

  predicate FeeFits(fee: Fee) {
    CoinFits(fee.amount)
  }

  function FeeEvent(fee: Fee): Event {
    Ran(ShowFee, FeeValue(fee))
  }

  /** What the parser hands over for a document: messages in order, and the fee on the side its part comes. */
  function DocEvents(feeFirst: bool, ms: seq<Msg>, fee: Fee): seq<Event> {
    if feeFirst then [FeeEvent(fee)] + AllEvents(ms) else AllEvents(ms) + [FeeEvent(fee)]
  }

  lemma {:induction false} BodyReads(lib: Library, w: Bytes, ls: seq<MsgLayout>, ms: seq<Msg>, past: seq<Event>)
    requires Filled(w) && Kept(BodyFields(), FieldsIn(w)) == MessageChunks(ls) && MsgsLay(ls, ms)
    ensures YieldsAny(Eval(lib, Noting(), Message(BodyFields()), w, |w|, past), past, AllEvents(ms), MsgsFit(ms))
  {
    MessageOfKept(lib, Noting(), BodyFields(), w, past);
    forall k | 0 <= k < |ms| ensures ReadsAs(lib, ls[k].any, ms[k]) {
      LaidReads(lib, ls[k], ms[k]);
    }
    MessagesRead(lib, ls, ms, map[], past);
  }

  lemma {:induction false} FeeRecordReads<S>(lib: Library, on: (Event, S) -> (bool, S), w: Bytes, coin: Bytes,
                                             fee: Fee, s: S)
    requires Filled(w) && Shuffled(Kept(FeeFields(), FieldsIn(w)), FeeWire(fee, coin))
    requires Eval(lib, on, Message(CoinFields()), coin, |coin|, s) == Plainly(CoinKept(fee.amount), s)
    ensures Eval(lib, on, Message(FeeFields()), w, |w|, s) ==
            if FeeFits(fee) then Accept(FeeValue(fee), s) else Reject(s)
  {
    TwoFieldMessage(lib, on, FeeFields(), w, Chunk(FEE_AMOUNT, coin), Count(FEE_GAS, fee.gas),
                    CoinKept(fee.amount), Some(Num(fee.gas)), s);
  }

  lemma {:induction false} FeeReads(lib: Library, w: Bytes, coin: Bytes, fee: Fee, past: seq<Event>)
    requires Filled(w) && CoinLaid(coin, fee.amount) && Shuffled(Kept(FeeFields(), FieldsIn(w)), FeeWire(fee, coin))
    ensures Yields(Eval(lib, Noting(), FeeInterp(), w, |w|, past), past, [FeeEvent(fee)], FeeFits(fee))
  {
    CoinReads(lib, Noting(), coin, fee.amount, past);
    FeeRecordReads(lib, Noting(), w, coin, fee, past);
    ActionReads(lib, Message(FeeFields()), ShowFee, w, past, FeeValue(fee), FeeFits(fee));
  }

  lemma {:induction false} AuthReads(lib: Library, l: Layout, ms: seq<Msg>, fee: Fee, past: seq<Event>)
    requires Lays(l, ms, fee)
    ensures var w := l.auth;
            YieldsAny(Eval(lib, Noting(), Message(AuthFields()), w, |w|, past), past, [FeeEvent(fee)], FeeFits(fee))
  {
    MessageOfKept(lib, Noting(), AuthFields(), l.auth, past);
    OneField(lib, Noting(), AuthFields(), Delimited(FeeInterp()), Chunk(AUTH_FEE, l.fee), map[], past);
    FeeReads(lib, l.fee, l.coin, fee, past);
  }

  /** Two fields that hand events over, one after the other. */
  lemma {:induction false} InSequence(lib: Library, fs: Fields, f: Wired, g: Wired, es: seq<Event>, fits: bool,
                                      es': seq<Event>, fits': bool)
    requires Lookup(fs, f.number).Some? && Lookup(fs, g.number).Some? && f.number != g.number
    requires YieldsAny(RunOne(lib, Noting(), Lookup(fs, f.number).value, f, []), [], es, fits)
    requires YieldsAny(RunOne(lib, Noting(), Lookup(fs, g.number).value, g, es), es, es', fits')
    ensures YieldsAny(RunFields(lib, Noting(), fs, [f, g], map[], []), [], es + es', fits && fits')
  {
    TwoFields(lib, Noting(), fs, f, g, []);
    OneField(lib, Noting(), fs, Lookup(fs, f.number).value, f, map[], []);
    assert [] + es == es && [] + (es + es') == es + es';
    var o := RunOne(lib, Noting(), Lookup(fs, f.number).value, f, []);
    if o.Accept? {
      OneField(lib, Noting(), fs, Lookup(fs, g.number).value, g, map[][f.number := o.value], es);
    }
  }

  /** Round trip: reading any encoding of a document hands its original values to the closures, messages in order;
      it is accepted exactly if they fit the buffers. */
  lemma {:induction false} DocumentReads(lib: Library, l: Layout, ms: seq<Msg>, fee: Fee)
    requires Lays(l, ms, fee)
    ensures var w := l.doc;
            YieldsAny(Noted(lib, TxnParser(), w, |w|), [], DocEvents(l.feeFirst, ms, fee), MsgsFit(ms) && FeeFits(fee))
  {
    var fs := DocFields();
    var body, auth := Chunk(DOC_BODY, l.body), Chunk(DOC_AUTH, l.auth);
    MessageOfKept(lib, Noting(), fs, l.doc, []);
    if l.feeFirst {
      AuthReads(lib, l, ms, fee, []);
      BodyReads(lib, l.body, l.msgs, ms, [FeeEvent(fee)]);
      InSequence(lib, fs, auth, body, [FeeEvent(fee)], FeeFits(fee), AllEvents(ms), MsgsFit(ms));
    } else {
      BodyReads(lib, l.body, l.msgs, ms, []);
      AuthReads(lib, l, ms, fee, AllEvents(ms));
      InSequence(lib, fs, body, auth, AllEvents(ms), MsgsFit(ms), [FeeEvent(fee)], FeeFits(fee));
    }
  }
}
