// A whole transaction told from its windows: what any accepted bytes hand to the closures and put on the screen.

module Transcript {
  import opened Octets
  import opened Interp
  import opened Runs
  import opened Messages
  import opened Windows
  import opened Screen
  import opened Transaction
  import opened Handed

  // ---------------------------------------------------------------- what the windows say

  /** The record an unordered message keeps. */
  function KeptIn(lib: Library, fs: Fields, w: Bytes): Value {
    var o := Noted(lib, Message(fs), w, |w|);
    if o.Accept? then o.value else Unit
  }

  function Strings(title: string, ws: seq<Bytes>): (es: seq<Event>)
    ensures |es| == |ws| && forall k :: 0 <= k < |ws| ==> es[k] == Ran(ShowString(title), Raw(ws[k]))
  {
    seq(|ws|, k requires 0 <= k < |ws| => Ran(ShowString(title), Raw(ws[k])))
  }

  function Coins(lib: Library, ws: seq<Bytes>): (es: seq<Event>)
    ensures |es| == |ws| && forall k :: 0 <= k < |ws| ==> es[k] == Ran(ShowCoin, KeptIn(lib, CoinFields(), ws[k]))
  {
    seq(|ws|, k requires 0 <= k < |ws| => Ran(ShowCoin, KeptIn(lib, CoinFields(), ws[k])))
  }

  function Proposals(ns: seq<nat>): (es: seq<Event>)
    ensures |es| == |ns| && forall k :: 0 <= k < |ns| ==> es[k] == Ran(ShowProposalId, Num(ns[k]))
  {
    seq(|ns|, k requires 0 <= k < |ns| => Ran(ShowProposalId, Num(ns[k])))
  }

  function Fees(lib: Library, ws: seq<Bytes>): (es: seq<Event>)
    ensures |es| == |ws| && forall k :: 0 <= k < |ws| ==> es[k] == Ran(ShowFee, KeptIn(lib, FeeFields(), ws[k]))
  {
    seq(|ws|, k requires 0 <= k < |ws| => Ran(ShowFee, KeptIn(lib, FeeFields(), ws[k])))
  }

  /** Addresses and coins of a delegation: one event for each that is there. */
  function BondHanded(lib: Library, title: string, x: Bytes): seq<Event> {
    [Announced(title)]
    + (Strings("Delegator Address", WindowsOf(x, 1))
       + (Strings("Validator Address", WindowsOf(x, 2)) + Coins(lib, WindowsOf(x, 3))))
  }

  function DepositHanded(lib: Library, x: Bytes): seq<Event> {
    Proposals(Counts(FieldsIn(x), 1)) + (Strings("Depositor Address", WindowsOf(x, 2)) + Coins(lib, WindowsOf(x, 3)))
  }

  /** The value of an Any with this type URL. */
  function ValueHanded(lib: Library, url: Bytes, x: Bytes): seq<Event> {
    if url == Ascii(SEND_URL) then [Ran(ShowSend, KeptIn(lib, SendFields(), x))]
    else if url == Ascii(DELEGATE_URL) then BondHanded(lib, "Delegate", x)
    else if url == Ascii(UNDELEGATE_URL) then BondHanded(lib, "Undelegate", x)
    else if url == Ascii(DEPOSIT_URL) then DepositHanded(lib, x)
    else []
  }

  function ValuesHanded(lib: Library, url: Bytes, xs: seq<Bytes>): seq<Event> {
    if xs == [] then [] else ValueHanded(lib, url, xs[0]) + ValuesHanded(lib, url, xs[1..])
  }

  function AnyHanded(lib: Library, w: Bytes): seq<Event> {
    ValuesHanded(lib, UrlAt(lib, w), WindowsOf(w, ANY_VALUE))
  }

  function AnysHanded(lib: Library, ws: seq<Bytes>): seq<Event> {
    if ws == [] then [] else AnyHanded(lib, ws[0]) + AnysHanded(lib, ws[1..])
  }

  /** A part of the document: body or auth info. */
  function PartHanded(lib: Library, f: Wired): seq<Event> {
    if f.Chunk? && f.number == DOC_BODY then AnysHanded(lib, WindowsOf(f.payload, BODY_MESSAGES))
    else if f.Chunk? && f.number == DOC_AUTH then Fees(lib, WindowsOf(f.payload, AUTH_FEE))
    else []
  }

  function PartsHanded(lib: Library, list: seq<Wired>): seq<Event> {
    if list == [] then [] else PartHanded(lib, list[0]) + PartsHanded(lib, list[1..])
  }

  /** Everything the bytes of a transaction hand to the closures, in the order of the bytes. */
  function TxnHanded(lib: Library, w: Bytes): seq<Event> {
    PartsHanded(lib, FieldsIn(w))
  }

  // ---------------------------------------------------------------- that is what is handed over

  lemma {:induction false} RawShown(lib: Library, cap: nat, act: Act, w: Bytes)
    requires Accepts(lib, Action(Buffer(cap), act), w)
    ensures Noted(lib, Action(Buffer(cap), act), w, |w|).st == [Ran(act, Raw(w))]
  {
    var o: Out<seq<Event>> := Eval(lib, Noting(), Buffer(cap), w, |w|, []);
    assert o == if |w| > cap then Reject([]) else Accept(Raw(w), []);
    assert [] + [Ran(act, Raw(w))] == [Ran(act, Raw(w))];
  }

  lemma {:induction false} StringHands(lib: Library, title: string, ws: seq<Bytes>)
    requires AcceptsAll(lib, ShowStr(title), ws)
    ensures EventsOf(lib, ShowStr(title), ws) == Strings(title, ws)
  {
    if ws == [] {
    } else {
      assert Accepts(lib, ShowStr(title), ws[0]);
      RawShown(lib, ADDRESS_CAP, ShowString(title), ws[0]);
      StringHands(lib, title, ws[1..]);
      assert Strings(title, ws) == [Ran(ShowString(title), Raw(ws[0]))] + Strings(title, ws[1..]);
    }
  }

  /** An interpreter over a message without closures hands over its own event only. */
  lemma {:induction false} ActionHands(lib: Library, fs: Fields, act: Act, w: Bytes)
    requires Accepts(lib, Action(Message(fs), act), w) && ListHanded(lib, fs, FieldsIn(w)) == []
    ensures Noted(lib, Action(Message(fs), act), w, |w|).st == [Ran(act, KeptIn(lib, fs, w))]
  {
    MessageFills(lib, fs, w);
    assert [] + [Ran(act, KeptIn(lib, fs, w))] == [Ran(act, KeptIn(lib, fs, w))];
  }

  /** Fields whose interpreters hand nothing over. */
  ghost predicate NothingHere(lib: Library, fs: Fields, list: seq<Wired>) {
    forall k :: 0 <= k < |list| ==> OneHanded(lib, fs, list[k]) == []
  }

  lemma {:induction false} NothingHands(lib: Library, fs: Fields, list: seq<Wired>)
    requires NothingHere(lib, fs, list)
    ensures ListHanded(lib, fs, list) == []
  {
    if list == [] {
    } else {
      assert forall k :: 0 <= k < |list[1..]| ==> list[1..][k] == list[k + 1];
      NothingHands(lib, fs, list[1..]);
    }
  }

  // Which number has which interpreter.

  lemma {:induction false} CoinKinds(m: nat)
    ensures Lookup(CoinFields(), m) ==
            if m == COIN_DENOM then Some(Str(DENOM_CAP)) else if m == COIN_AMOUNT then Some(Str(AMOUNT_CAP)) else None
  {
    assert Lookup(Single(COIN_AMOUNT, false, Str(AMOUNT_CAP)), m) ==
           if m == COIN_AMOUNT then Some(Str(AMOUNT_CAP)) else None;
  }

  lemma {:induction false} SendKinds(m: nat)
    ensures Lookup(SendFields(), m) ==
            if m == SEND_FROM || m == SEND_TO then Some(Str(ADDRESS_CAP))
            else if m == SEND_AMOUNT then Some(Delimited(Message(CoinFields()))) else None
  {
    var coin := Delimited(Message(CoinFields()));
    var last := Single(SEND_AMOUNT, true, coin);
    assert Lookup(last, m) == if m == SEND_AMOUNT then Some(coin) else None;
    assert Lookup(Field(SEND_TO, false, Str(ADDRESS_CAP), last), m) ==
           if m == SEND_TO then Some(Str(ADDRESS_CAP)) else Lookup(last, m);
  }

  lemma {:induction false} FeeKinds(m: nat)
    ensures Lookup(FeeFields(), m) ==
            if m == FEE_AMOUNT then Some(Delimited(Message(CoinFields())))
            else if m == FEE_GAS then Some(Varying(Number))
            else if m == 3 || m == 4 then Some(Delimited(Drop)) else None
  {
    var last := Single(4, false, Delimited(Drop));
    var two := Field(3, false, Delimited(Drop), last);
    assert Lookup(last, m) == if m == 4 then Some(Delimited(Drop)) else None;
    assert Lookup(two, m) == if m == 3 then Some(Delimited(Drop)) else Lookup(last, m);
    assert Lookup(Field(FEE_GAS, false, Varying(Number), two), m) ==
           if m == FEE_GAS then Some(Varying(Number)) else Lookup(two, m);
  }

  lemma {:induction false} BodyKinds(m: nat)
    ensures Lookup(BodyFields(), m) ==
            if m == BODY_MESSAGES then Some(Delimited(AnyMessage()))
            else if m == 3 then Some(Varying(DropNumber))
            else if m == 2 || m == BODY_EXTENSIONS || m == BODY_NON_CRITICAL then Some(Delimited(Drop)) else None
  {
    var d := Delimited(Drop);
    var one := Single(BODY_NON_CRITICAL, true, d);
    var two := Field(BODY_EXTENSIONS, true, d, one);
    var three := Field(3, false, Varying(DropNumber), two);
    assert Lookup(one, m) == if m == BODY_NON_CRITICAL then Some(d) else None;
    assert Lookup(two, m) == if m == BODY_EXTENSIONS then Some(d) else Lookup(one, m);
    assert Lookup(three, m) == if m == 3 then Some(Varying(DropNumber)) else Lookup(two, m);
    assert Lookup(Field(2, false, d, three), m) == if m == 2 then Some(d) else Lookup(three, m);
  }

  lemma {:induction false} AuthKinds(m: nat)
    ensures Lookup(AuthFields(), m) ==
            if m == AUTH_FEE then Some(Delimited(FeeInterp()))
            else if m == 1 || m == 3 then Some(Delimited(Drop)) else None
  {
    var last := Single(3, false, Delimited(Drop));
    assert Lookup(last, m) == if m == 3 then Some(Delimited(Drop)) else None;
    assert Lookup(Field(AUTH_FEE, false, Delimited(FeeInterp()), last), m) ==
           if m == AUTH_FEE then Some(Delimited(FeeInterp())) else Lookup(last, m);
  }

  lemma {:induction false} DocKinds(m: nat)
    ensures Lookup(DocFields(), m) ==
            if m == DOC_BODY then Some(Delimited(Message(BodyFields())))
            else if m == DOC_AUTH then Some(Delimited(Message(AuthFields())))
            else if m == 3 then Some(Delimited(Drop)) else if m == 4 then Some(Varying(DropNumber)) else None
  {
    var last := Single(4, false, Varying(DropNumber));
    var two := Field(3, false, Delimited(Drop), last);
    var auth := Delimited(Message(AuthFields()));
    assert Lookup(last, m) == if m == 4 then Some(Varying(DropNumber)) else None;
    assert Lookup(two, m) == if m == 3 then Some(Delimited(Drop)) else Lookup(last, m);
    assert Lookup(Field(DOC_AUTH, false, auth, two), m) == if m == DOC_AUTH then Some(auth) else Lookup(two, m);
  }

  /** A kind that keeps or drops what it reads hands nothing over. */
  lemma {:induction false} KeepingQuiet(lib: Library, kind: Kind, f: Wired)
    requires kind.Varying? ==> !kind.scalar.NumberAction?
    requires kind.Delimited? ==> kind.interp.Buffer? || kind.interp.Drop?
    ensures Singly(lib, kind, f).st == []
  {
  }

  lemma {:induction false} CoinQuiet(lib: Library, list: seq<Wired>)
    ensures ListHanded(lib, CoinFields(), list) == []
  {
    forall k | 0 <= k < |list| ensures OneHanded(lib, CoinFields(), list[k]) == [] {
      CoinKinds(list[k].number);
      KeepingQuiet(lib, Str(DENOM_CAP), list[k]);
      KeepingQuiet(lib, Str(AMOUNT_CAP), list[k]);
    }
    NothingHands(lib, CoinFields(), list);
  }

  /** A coin as a field of another message. */
  lemma {:induction false} CoinFieldQuiet(lib: Library, fs: Fields, f: Wired)
    requires Lookup(fs, f.number) == Some(Delimited(Message(CoinFields()))) && Takes(lib, fs, f)
    ensures OneHanded(lib, fs, f) == []
  {
    MessageFills(lib, CoinFields(), f.payload);
    CoinQuiet(lib, FieldsIn(f.payload));
  }

  lemma {:induction false} SendQuiet(lib: Library, list: seq<Wired>)
    requires forall k :: 0 <= k < |list| ==> Takes(lib, SendFields(), list[k])
    ensures ListHanded(lib, SendFields(), list) == []
  {
    forall k | 0 <= k < |list| ensures OneHanded(lib, SendFields(), list[k]) == [] {
      SendKinds(list[k].number);
      KeepingQuiet(lib, Str(ADDRESS_CAP), list[k]);
      if list[k].number == SEND_AMOUNT { CoinFieldQuiet(lib, SendFields(), list[k]); }
    }
    NothingHands(lib, SendFields(), list);
  }

  lemma {:induction false} FeeQuiet(lib: Library, list: seq<Wired>)
    requires forall k :: 0 <= k < |list| ==> Takes(lib, FeeFields(), list[k])
    ensures ListHanded(lib, FeeFields(), list) == []
  {
    forall k | 0 <= k < |list| ensures OneHanded(lib, FeeFields(), list[k]) == [] {
      FeeKinds(list[k].number);
      KeepingQuiet(lib, Varying(Number), list[k]);
      KeepingQuiet(lib, Delimited(Drop), list[k]);
      if list[k].number == FEE_AMOUNT { CoinFieldQuiet(lib, FeeFields(), list[k]); }
    }
    NothingHands(lib, FeeFields(), list);
  }

  lemma {:induction false} CoinHands(lib: Library, ws: seq<Bytes>)
    requires AcceptsAll(lib, ShowCoinInterp(), ws)
    ensures EventsOf(lib, ShowCoinInterp(), ws) == Coins(lib, ws)
  {
    if ws == [] {
    } else {
      var w := ws[0];
      assert Accepts(lib, ShowCoinInterp(), w);
      CoinQuiet(lib, FieldsIn(w));
      ActionHands(lib, CoinFields(), ShowCoin, w);
      CoinHands(lib, ws[1..]);
      assert Coins(lib, ws) == [Ran(ShowCoin, KeptIn(lib, CoinFields(), w))] + Coins(lib, ws[1..]);
    }
  }

  lemma {:induction false} ActionTakes(lib: Library, fs: Fields, act: Act, w: Bytes)
    requires Accepts(lib, Action(Message(fs), act), w)
    ensures Accepts(lib, Message(fs), w)
  {
  }

  lemma {:induction false} FeeHands(lib: Library, ws: seq<Bytes>)
    requires AcceptsAll(lib, FeeInterp(), ws)
    ensures EventsOf(lib, FeeInterp(), ws) == Fees(lib, ws)
  {
    if ws == [] {
    } else {
      var w := ws[0];
      assert Accepts(lib, FeeInterp(), w);
      ActionTakes(lib, FeeFields(), ShowFee, w);
      MessageFills(lib, FeeFields(), w);
      FeeQuiet(lib, FieldsIn(w));
      ActionHands(lib, FeeFields(), ShowFee, w);
      FeeHands(lib, ws[1..]);
      assert Fees(lib, ws) == [Ran(ShowFee, KeptIn(lib, FeeFields(), w))] + Fees(lib, ws[1..]);
    }
  }

  lemma {:induction false} SendHands(lib: Library, w: Bytes)
    requires Accepts(lib, SendInterp(), w)
    ensures Noted(lib, SendInterp(), w, |w|).st == [Ran(ShowSend, KeptIn(lib, SendFields(), w))]
  {
    ActionTakes(lib, SendFields(), ShowSend, w);
    MessageFills(lib, SendFields(), w);
    SendQuiet(lib, FieldsIn(w));
    ActionHands(lib, SendFields(), ShowSend, w);
  }

  /** The last two parts of the ordered messages. */
  function TailOf(title: string, repeated: bool): Fields {
    Field(2, false, Delimited(ShowStr(title)), Single(3, repeated, Delimited(ShowCoinInterp())))
  }

  lemma {:induction false} TailHands(lib: Library, title: string, repeated: bool, list: seq<Wired>)
    requires PartsTake(lib, TailOf(title, repeated), list)
    ensures PassesHanded(lib, TailOf(title, repeated), list) ==
            Strings(title, Payloads(list, 2)) + Coins(lib, Payloads(list, 3))
  {
    var i, c := ShowStr(title), ShowCoinInterp();
    var last := Single(3, repeated, Delimited(c));
    assert PartsTake(lib, last, list);
    WindowsTaken(lib, Single(2, false, Delimited(i)), 2, i, list);
    WindowsTaken(lib, last, 3, c, list);
    WindowsHand(lib, 2, false, i, list);
    WindowsHand(lib, 3, repeated, c, list);
    StringHands(lib, title, Payloads(list, 2));
    CoinHands(lib, Payloads(list, 3));
    assert PassesHanded(lib, last, list) == Coins(lib, Payloads(list, 3)) + [];
    assert Coins(lib, Payloads(list, 3)) + [] == Coins(lib, Payloads(list, 3));
  }

  lemma {:induction false} BondHands(lib: Library, title: string, x: Bytes)
    requires Accepts(lib, Preaction(Announce(title), Ordered(StakingFields())), x)
    ensures Noted(lib, Preaction(Announce(title), Ordered(StakingFields())), x, |x|).st == BondHanded(lib, title, x)
  {
    var list, i := FieldsIn(x), ShowStr("Delegator Address");
    assert [] + [Announced(title)] == [Announced(title)];
    PastFree(lib, Ordered(StakingFields()), x, [Announced(title)]);
    OrderedFills(lib, StakingFields(), x);
    WindowsTaken(lib, Single(1, false, Delimited(i)), 1, i, list);
    WindowsHand(lib, 1, false, i, list);
    StringHands(lib, "Delegator Address", Payloads(list, 1));
    TailHands(lib, "Validator Address", false, list);
  }

  lemma {:induction false} CountsHand(lib: Library, list: seq<Wired>)
    ensures ListHanded(lib, Single(1, false, Varying(NumberAction(ShowProposalId))), list) ==
            Proposals(Counts(list, 1))
  {
    if list == [] {
    } else {
      CountsHand(lib, list[1..]);
      var fs, f, ns := Single(1, false, Varying(NumberAction(ShowProposalId))), list[0], Counts(list[1..], 1);
      if f.Count? && f.number == 1 {
        assert [] + [Ran(ShowProposalId, Num(f.n))] == [Ran(ShowProposalId, Num(f.n))];
        assert OneHanded(lib, fs, f) == [Ran(ShowProposalId, Num(f.n))];
        assert Counts(list, 1) == [f.n] + ns;
        assert Proposals([f.n] + ns) == [Ran(ShowProposalId, Num(f.n))] + Proposals(ns);
      } else {
        assert Counts(list, 1) == ns;
        assert OneHanded(lib, fs, f) == [];
      }
    }
  }

  lemma {:induction false} DepositHands(lib: Library, x: Bytes)
    requires Accepts(lib, DepositInterp(), x)
    ensures Noted(lib, DepositInterp(), x, |x|).st == DepositHanded(lib, x)
  {
    var list := FieldsIn(x);
    OrderedFills(lib, DepositFields(), x);
    CountsHand(lib, list);
    TailHands(lib, "Depositor Address", true, list);
  }

  lemma {:induction false} ValueHands(lib: Library, url: Bytes, arm: Interp, x: Bytes)
    requires FindArm(Table(), url) == Some(arm) && Accepts(lib, arm, x)
    ensures Noted(lib, arm, x, |x|).st == ValueHanded(lib, url, x)
  {
    FourArms(Ascii(SEND_URL), SendInterp(), Ascii(DELEGATE_URL), DelegateInterp(),
             Ascii(UNDELEGATE_URL), UndelegateInterp(), Ascii(DEPOSIT_URL), DepositInterp(), url);
    if url == Ascii(SEND_URL) {
      SendHands(lib, x);
    } else if url == Ascii(DELEGATE_URL) {
      BondHands(lib, "Delegate", x);
    } else if url == Ascii(UNDELEGATE_URL) {
      BondHands(lib, "Undelegate", x);
    } else {
      DepositHands(lib, x);
    }
  }

  lemma {:induction false} ValuesHand(lib: Library, url: Bytes, arm: Interp, xs: seq<Bytes>)
    requires FindArm(Table(), url) == Some(arm) && AcceptsAll(lib, arm, xs)
    ensures EventsOf(lib, arm, xs) == ValuesHanded(lib, url, xs)
  {
    if xs == [] {
    } else {
      assert Accepts(lib, arm, xs[0]);
      ValueHands(lib, url, arm, xs[0]);
      ValuesHand(lib, url, arm, xs[1..]);
    }
  }

  lemma {:induction false} NoValues(lib: Library, url: Bytes, xs: seq<Bytes>)
    requires !Known(url)
    ensures ValuesHanded(lib, url, xs) == []
  {
    if xs == [] {
    } else {
      NoValues(lib, url, xs[1..]);
    }
  }

  lemma {:induction false} RefusesAny(lib: Library, inner: Interp, ws: seq<Bytes>)
    requires AcceptsAll(lib, Preaction(Refuse, inner), ws)
    ensures ws == []
  {
    assert ws != [] ==> !Accepts(lib, Preaction(Refuse, inner), ws[0]);
  }

  lemma {:induction false} Nameless(lib: Library, w: Bytes)
    requires Accepts(lib, Ordered(UnknownFields()), w)
    ensures WindowsOf(w, TYPE_URL) == [] && Noted(lib, Ordered(UnknownFields()), w, |w|).st == []
  {
    var list, i := FieldsIn(w), Preaction(Refuse, ShowStr("Type URL"));
    OrderedFills(lib, UnknownFields(), w);
    WindowsTaken(lib, Single(TYPE_URL, false, Delimited(i)), TYPE_URL, i, list);
    var ws := Payloads(list, TYPE_URL);
    RefusesAny(lib, ShowStr("Type URL"), ws);
    WindowsHand(lib, TYPE_URL, false, i, list);
    var last := Single(ANY_VALUE, false, Delimited(Drop));
    WindowsHand(lib, ANY_VALUE, false, Drop, list);
    DropsHand(lib, Payloads(list, ANY_VALUE));
    assert PassesHanded(lib, last, list) == [] + [];
  }

  /** The events of an accepted Any. One without a URL is accepted only by a library that lets it pass, and then hands
      nothing over. */
  lemma {:induction false} AnyHands(lib: Library, w: Bytes)
    requires Accepts(lib, AnyMessage(), w)
    ensures Noted(lib, AnyMessage(), w, |w|).st == AnyHanded(lib, w)
    ensures Known(UrlAt(lib, w)) || (!lib.strict && WindowsOf(w, TYPE_URL) == [])
  {
    var url := UrlAt(lib, w);
    TableExactly(url);
    AnyFills(lib, Table(), Ordered(UnknownFields()), w);
    UnknownRefused(lib, Noting(), w, []);
    if Known(url) {
      ValuesHand(lib, url, FindArm(Table(), url).value, WindowsOf(w, ANY_VALUE));
    } else {
      NoValues(lib, url, WindowsOf(w, ANY_VALUE));
      UrlFills(lib, w);
      Nameless(lib, w);
    }
  }

  lemma {:induction false} AnysHand(lib: Library, ws: seq<Bytes>)
    requires AcceptsAll(lib, AnyMessage(), ws)
    ensures EventsOf(lib, AnyMessage(), ws) == AnysHanded(lib, ws)
  {
    if ws == [] {
    } else {
      assert Accepts(lib, AnyMessage(), ws[0]);
      AnyHands(lib, ws[0]);
      AnysHand(lib, ws[1..]);
    }
  }

  lemma {:induction false} BodyOnly()
    ensures OnlyHere(BodyFields(), BODY_MESSAGES, AnyMessage())
  {
    BodyKinds(BODY_MESSAGES);
    forall m: nat | m != BODY_MESSAGES && Lookup(BodyFields(), m).Some?
      ensures Droppable(Lookup(BodyFields(), m).value)
    {
      BodyKinds(m);
    }
  }

  lemma {:induction false} AuthOnly()
    ensures OnlyHere(AuthFields(), AUTH_FEE, FeeInterp())
  {
    AuthKinds(AUTH_FEE);
    forall m: nat | m != AUTH_FEE && Lookup(AuthFields(), m).Some?
      ensures Droppable(Lookup(AuthFields(), m).value)
    {
      AuthKinds(m);
    }
  }

  /** A body hands over its messages, window by window. */
  lemma {:induction false} BodyHands(lib: Library, w: Bytes)
    requires Accepts(lib, Message(BodyFields()), w)
    ensures AcceptsAll(lib, AnyMessage(), WindowsOf(w, BODY_MESSAGES))
    ensures Noted(lib, Message(BodyFields()), w, |w|).st == AnysHanded(lib, WindowsOf(w, BODY_MESSAGES))
  {
    MessageFills(lib, BodyFields(), w);
    BodyOnly();
    OnlyWindowsHand(lib, BodyFields(), BODY_MESSAGES, AnyMessage(), FieldsIn(w));
    WindowsTaken(lib, BodyFields(), BODY_MESSAGES, AnyMessage(), FieldsIn(w));
    AnysHand(lib, WindowsOf(w, BODY_MESSAGES));
  }

  /** Auth info hands over its fees. */
  lemma {:induction false} AuthHands(lib: Library, w: Bytes)
    requires Accepts(lib, Message(AuthFields()), w)
    ensures AcceptsAll(lib, FeeInterp(), WindowsOf(w, AUTH_FEE))
    ensures Noted(lib, Message(AuthFields()), w, |w|).st == Fees(lib, WindowsOf(w, AUTH_FEE))
  {
    MessageFills(lib, AuthFields(), w);
    AuthOnly();
    OnlyWindowsHand(lib, AuthFields(), AUTH_FEE, FeeInterp(), FieldsIn(w));
    WindowsTaken(lib, AuthFields(), AUTH_FEE, FeeInterp(), FieldsIn(w));
    FeeHands(lib, WindowsOf(w, AUTH_FEE));
  }

  lemma {:induction false} PartHands(lib: Library, f: Wired)
    requires Takes(lib, DocFields(), f)
    ensures OneHanded(lib, DocFields(), f) == PartHanded(lib, f)
  {
    DocKinds(f.number);
    if f.number == DOC_BODY {
      BodyHands(lib, f.payload);
    } else if f.number == DOC_AUTH {
      AuthHands(lib, f.payload);
    } else {
      KeepingQuiet(lib, Delimited(Drop), f);
      KeepingQuiet(lib, Varying(DropNumber), f);
    }
  }

  lemma {:induction false} PartsHand(lib: Library, list: seq<Wired>)
    requires forall k :: 0 <= k < |list| ==> Takes(lib, DocFields(), list[k])
    ensures ListHanded(lib, DocFields(), list) == PartsHanded(lib, list)
  {
    if list == [] {
    } else {
      assert forall k :: 0 <= k < |list[1..]| ==> list[1..][k] == list[k + 1];
      PartHands(lib, list[0]);
      PartsHand(lib, list[1..]);
    }
  }

  /** Any accepted bytes hand over what their windows say: message by message and value by value, body and auth info
      in the order of the bytes, whatever is missing, repeated, unknown or oddly encoded. */
  lemma {:induction false} TxnHands(lib: Library, w: Bytes)
    requires Accepts(lib, TxnParser(), w)
    ensures Noted(lib, TxnParser(), w, |w|).st == TxnHanded(lib, w)
  {
    MessageFills(lib, DocFields(), w);
    PartsHand(lib, FieldsIn(w));
  }

  /** Transcript conservation: an accepted prompting pass over any bytes has shown the prompts of these events, one
      after the other and nothing else, each of them accepted. */
  lemma {:induction false} TranscriptConserved(lib: Library, user: User, w: Bytes, seen: seq<Prompt>)
    ensures var o := Eval(lib, Prompting(user), TxnParser(), w, |w|, seen);
            && (o.Accept? <==> Accepts(lib, TxnParser(), w) && AllPass(user, seen, TxnHanded(lib, w)))
            && (o.Accept? ==> o.st == seen + AllPrompts(TxnHanded(lib, w)))
  {
    PromptErasure(lib, TxnParser(), user, w, |w|, seen);
    SilentShowsNothing(lib, TxnParser(), w, |w|, seen);
    if Accepts(lib, TxnParser(), w) { TxnHands(lib, w); }
  }

  // ---------------------------------------------------------------- unknown messages

  /** A message with an unknown type URL, anywhere in any bytes, is never accepted: neither by the silent pass nor
      under any other closures. Nor is one without a URL, if ordered messages must be complete. */
  lemma {:induction false} UnknownAnywhere<S>(lib: Library, on: (Event, S) -> (bool, S), w: Bytes, body: Bytes,
                                              any: Bytes, s: S)
    requires body in WindowsOf(w, DOC_BODY) && any in WindowsOf(body, BODY_MESSAGES)
    requires NamesUnknown(lib, any) || (lib.strict && NamesNothing(lib, any))
    ensures !Eval(lib, on, TxnParser(), w, |w|, s).Accept?
  {
    if Eval(lib, on, TxnParser(), w, |w|, s).Accept? {
      AcceptedByBytes(lib, on, TxnParser(), w, s);
      MessageFills(lib, DocFields(), w);
      DocKinds(DOC_BODY);
      WindowsTaken(lib, DocFields(), DOC_BODY, Message(BodyFields()), FieldsIn(w));
      assert Accepts(lib, Message(BodyFields()), body);
      BodyHands(lib, body);
      assert Accepts(lib, AnyMessage(), any);
      UnknownRefused(lib, Noting(), any, []);
      assert false;
    }
  }
}
