// What can be told from the lines on the screen, whatever the bytes behind them look like.

module Telling {
  import opened Octets
  import opened Decimals
  import opened Interp
  import opened Windows
  import opened Screen
  import opened Transaction
  import opened Handed
  import opened Transcript
  import opened Documents
  import opened Display
  import opened Legible
  import opened Lines

  // ---------------------------------------------------------------- what a line can tell

  /** Coins of the same number of nhash. */
  predicate SameHash(a: Option<Value>, b: Option<Value>) {
    && HashAmount(a).Some? && HashAmount(b).Some?
    && var x, y := RawAt(a.value, COIN_AMOUNT).value, RawAt(b.value, COIN_AMOUNT).value;
    && AllDigits(x) && AllDigits(y) && Decimals.Value(x) == Decimals.Value(y)
  }

  /** The same closure, given the same: but for leading zeros of amounts, gas, and addresses of transfers that are not
      text. */
  predicate SameEvent(e: Event, f: Event) {
    match e
    case Announced(_) => f == e
    case Ran(ShowString(_), _) => f == e
    case Ran(ShowProposalId, _) => f == e
    case Ran(ShowCoin, v) => f.Ran? && f.act == e.act && SameHash(Some(v), Some(f.value))
    case Ran(ShowFee, v) => f.Ran? && f.act == e.act && SameHash(RecordAt(v, FEE_AMOUNT), RecordAt(f.value, FEE_AMOUNT))
    case Ran(ShowSend, v) =>
      && f.Ran? && f.act == e.act
      && TextAt(v, SEND_FROM) == TextAt(f.value, SEND_FROM) && TextAt(v, SEND_TO) == TextAt(f.value, SEND_TO)
      && SameHash(RecordAt(v, SEND_AMOUNT), RecordAt(f.value, SEND_AMOUNT))
  }

  predicate SameEvents(es: seq<Event>, fs: seq<Event>) {
    |es| == |fs| && forall k :: 0 <= k < |es| ==> SameEvent(es[k], fs[k])
  }

  lemma {:induction false} HashTells(a: Option<Value>, b: Option<Value>)
    requires HashAmount(a).Some? && HashAmount(a) == HashAmount(b)
    ensures SameHash(a, b)
  {
    var x, y := RawAt(a.value, COIN_AMOUNT).value, RawAt(b.value, COIN_AMOUNT).value;
    var s, t := Rendered(x, AMOUNT_CAP).value, Rendered(y, AMOUNT_CAP).value;
    Cut(Ascii("HASH "), s);
    Cut(Ascii("HASH "), t);
    RenderedIsExact(x, AMOUNT_CAP);
    RenderedIsExact(y, AMOUNT_CAP);
  }

  // ---------------------------------------------------------------- one closure after the other

  function FirstTitleOf(e: Event): string {
    if e.Ran? && e.act.ShowSend? then "Transfer" else LastTitle(e)
  }

  /** The first line tells the closure. */
  lemma {:induction false} FirstTold(e: Event, rest: seq<Prompt>)
    requires Deciding(e).Some?
    ensures var ps := PromptsOf(e) + rest; ps != [] && Title(ps[0]) == FirstTitleOf(e)
  {
    DecidingTitle(e);
  }

  predicate SameKind(e: Event, f: Event) {
    match e
    case Announced(title) => f == e
    case Ran(act, _) => f.Ran? && f.act == act
  }

  lemma {:induction false} AllTitlesApart()
    ensures var ts := ["Transfer", "Delegate", "Undelegate", "Delegator Address", "Validator Address",
                       "Depositor Address", "Proposal ID", "Amount", "Fee"];
            forall i, j :: 0 <= i < j < |ts| ==> ts[i] != ts[j]
  {
  }

  lemma {:induction false} TitleTellsKind(e: Event, f: Event)
    requires FromTree(e) && FromTree(f) && FirstTitleOf(e) == FirstTitleOf(f)
    ensures SameKind(e, f)
  {
    AllTitlesApart();
  }

  /** A line that may be there, in front of lines of another title. */
  lemma {:induction false} MaybeCut(title: string, a: Option<Bytes>, b: Option<Bytes>, ps: seq<Prompt>, qs: seq<Prompt>)
    requires ps != [] && qs != [] && Title(ps[0]) != title && Title(qs[0]) != title
    requires Shown(title, a) + ps == Shown(title, b) + qs
    ensures a == b && ps == qs
  {
    Cut(Shown(title, a), ps);
    Cut(Shown(title, b), qs);
    assert (Shown(title, a) + ps)[0] == (Shown(title, b) + qs)[0];
  }

  /** The lines of a transfer and those behind them. */
  lemma {:induction false} TransferLaid(v: Value, rest: seq<Prompt>)
    requires Deciding(Ran(ShowSend, v)).Some?
    ensures PromptsOf(Ran(ShowSend, v)) + rest ==
            [Scroll("Transfer", Ascii("HASH"))]
            + (Shown("From", TextAt(v, SEND_FROM)) + (Shown("To", TextAt(v, SEND_TO))
               + ([Deciding(Ran(ShowSend, v)).value] + rest)))
  {
    TransferLines(v);
    var a, d := [Scroll("Transfer", Ascii("HASH"))], [Deciding(Ran(ShowSend, v)).value];
    var b, c := Shown("From", TextAt(v, SEND_FROM)), Shown("To", TextAt(v, SEND_TO));
    Associate(a + b + c, d, rest);
    Associate(a + b, c, d + rest);
    Associate(a, b, c + (d + rest));
  }

  lemma {:induction false} ToFirst(a: Option<Bytes>, p: Prompt, rest: seq<Prompt>)
    requires Title(p) == "Amount"
    ensures var ps := Shown("To", a) + ([p] + rest); ps != [] && Title(ps[0]) != "From"
  {
    assert |"From"| == 4 && |"To"| == 2 && |"Amount"| == 6;
  }

  lemma {:induction false} TransferTold(v: Value, u: Value, rest: seq<Prompt>, rest': seq<Prompt>)
    requires Deciding(Ran(ShowSend, v)).Some? && Deciding(Ran(ShowSend, u)).Some?
    requires PromptsOf(Ran(ShowSend, v)) + rest == PromptsOf(Ran(ShowSend, u)) + rest'
    ensures SameEvent(Ran(ShowSend, v), Ran(ShowSend, u)) && rest == rest'
  {
    var p, q := Deciding(Ran(ShowSend, v)).value, Deciding(Ran(ShowSend, u)).value;
    var tail, tail' := [p] + rest, [q] + rest';
    var to, to' := Shown("To", TextAt(v, SEND_TO)) + tail, Shown("To", TextAt(u, SEND_TO)) + tail';
    var from, from' := Shown("From", TextAt(v, SEND_FROM)) + to, Shown("From", TextAt(u, SEND_FROM)) + to';
    TransferLaid(v, rest);
    TransferLaid(u, rest');
    Cut([Scroll("Transfer", Ascii("HASH"))], from);
    Cut([Scroll("Transfer", Ascii("HASH"))], from');
    assert from == from';
    ToFirst(TextAt(v, SEND_TO), p, rest);
    ToFirst(TextAt(u, SEND_TO), q, rest');
    MaybeCut("From", TextAt(v, SEND_FROM), TextAt(u, SEND_FROM), to, to');
    assert "Amount" != "To" by { assert |"To"| == 2 && |"Amount"| == 6; }
    assert tail[0] == p && tail'[0] == q;
    MaybeCut("To", TextAt(v, SEND_TO), TextAt(u, SEND_TO), tail, tail');
    Cut([p], rest);
    Cut([q], rest');
    HashTells(RecordAt(v, SEND_AMOUNT), RecordAt(u, SEND_AMOUNT));
  }

  /** Any other closure has one line. */
  lemma {:induction false} LineTold(e: Event, f: Event)
    requires SameKind(e, f) && Deciding(e).Some? && Deciding(e) == Deciding(f) && !(e.Ran? && e.act.ShowSend?)
    ensures SameEvent(e, f)
  {
    match e
    case Announced(_) =>
    case Ran(ShowString(_), _) =>
    case Ran(ShowProposalId, v) =>
      DecimalFacts(v.n);
      DecimalFacts(f.value.n);
    case Ran(ShowCoin, v) => HashTells(Some(v), Some(f.value));
    case Ran(ShowFee, v) => HashTells(RecordAt(v, FEE_AMOUNT), RecordAt(f.value, FEE_AMOUNT));
  }

  lemma {:induction false} EventTold(e: Event, f: Event, rest: seq<Prompt>, rest': seq<Prompt>)
    requires FromTree(e) && FromTree(f) && Deciding(e).Some? && Deciding(f).Some?
    requires PromptsOf(e) + rest == PromptsOf(f) + rest'
    ensures SameEvent(e, f) && rest == rest'
  {
    FirstTold(e, rest);
    FirstTold(f, rest');
    TitleTellsKind(e, f);
    if e.Ran? && e.act.ShowSend? {
      TransferTold(e.value, f.value, rest, rest');
    } else {
      var p, q := Deciding(e).value, Deciding(f).value;
      assert PromptsOf(e) == [p] && PromptsOf(f) == [q];
      Cut([p], rest);
      Cut([q], rest');
      assert [p][0] == ([p] + rest)[0] && [q][0] == ([q] + rest')[0];
      LineTold(e, f);
    }
  }

  lemma {:induction false} Tails(es: seq<Event>)
    requires es != [] && AllFromTree(es) && Decided(es)
    ensures AllFromTree(es[1..]) && Decided(es[1..])
  {
  }

  lemma {:induction false} SameTails(es: seq<Event>, fs: seq<Event>)
    requires es != [] && fs != [] && SameEvent(es[0], fs[0]) && SameEvents(es[1..], fs[1..])
    ensures SameEvents(es, fs)
  {
    forall k | 0 <= k < |es| ensures SameEvent(es[k], fs[k]) {
      if k > 0 { assert es[k] == es[1..][k - 1] && fs[k] == fs[1..][k - 1]; }
    }
  }

  /** Equal lines come from the same closures. */
  lemma {:induction false} LinesTellEvents(es: seq<Event>, fs: seq<Event>)
    requires AllFromTree(es) && AllFromTree(fs) && Decided(es) && Decided(fs) && AllPrompts(es) == AllPrompts(fs)
    ensures SameEvents(es, fs)
    decreases |es|
  {
    if es == [] || fs == [] {
      if es != [] { FirstTold(es[0], AllPrompts(es[1..])); }
      if fs != [] { FirstTold(fs[0], AllPrompts(fs[1..])); }
    } else {
      EventTold(es[0], fs[0], AllPrompts(es[1..]), AllPrompts(fs[1..]));
      Tails(es);
      Tails(fs);
      LinesTellEvents(es[1..], fs[1..]);
      SameTails(es, fs);
    }
  }

  // ---------------------------------------------------------------- two transactions

  lemma {:induction false} Told(lib: Library, w: Bytes, user: User)
    requires Eval(lib, Prompting(user), TxnParser(), w, |w|, []).Accept?
    ensures var es := TxnHanded(lib, w);
            && Eval(lib, Prompting(user), TxnParser(), w, |w|, []).st == AllPrompts(es)
            && Decided(es) && AllFromTree(es)
  {
    var es := TxnHanded(lib, w);
    TranscriptConserved(lib, user, w, []);
    assert [] + AllPrompts(es) == AllPrompts(es);
    PassedIsDecided(user, [], es);
    PartsFromTree(lib, FieldsIn(w));
  }

  /** Two byte strings that put the same lines on the screen, each to an accepting person, hand the same values to the
      same closures in the same order, but for leading zeros of amounts, gas, and addresses that are not text. */
  lemma {:induction false} TranscriptTells(lib: Library, w: Bytes, user: User, w': Bytes, user': User)
    requires var o := Eval(lib, Prompting(user), TxnParser(), w, |w|, []);
             var o' := Eval(lib, Prompting(user'), TxnParser(), w', |w'|, []);
             o.Accept? && o'.Accept? && o.st == o'.st
    ensures SameEvents(TxnHanded(lib, w), TxnHanded(lib, w'))
  {
    Told(lib, w, user);
    Told(lib, w', user');
    LinesTellEvents(TxnHanded(lib, w), TxnHanded(lib, w'));
  }

  // ---------------------------------------------------------------- two documents

  /** The same number of nhash. */
  predicate SameAmount(c: Coin, d: Coin) {
    && c.denom == d.denom && AllDigits(c.amount) && AllDigits(d.amount)
    && Decimals.Value(c.amount) == Decimals.Value(d.amount)
  }

  /** The same message, but for leading zeros of its amount and addresses of a transfer that are not text. */
  predicate SameMsg(m: Msg, n: Msg) {
    && SameAmount(m.amount, n.amount)
    && match m
       case Send(a, b, _) => n.Send? && Text(a) == Text(n.sender) && Text(b) == Text(n.recipient)
       case Delegate(a, b, _) => n == Delegate(a, b, n.amount)
       case Undelegate(a, b, _) => n == Undelegate(a, b, n.amount)
       case Deposit(p, a, _) => n == Deposit(p, a, n.amount)
  }

  predicate SameMsgs(ms: seq<Msg>, ns: seq<Msg>) {
    |ms| == |ns| && forall k :: 0 <= k < |ms| ==> SameMsg(ms[k], ns[k])
  }

  lemma {:induction false} SameCoin(c: Coin, d: Coin)
    requires SameHash(Some(CoinValue(c)), Some(CoinValue(d)))
    ensures SameAmount(c, d)
  {
  }

  lemma {:induction false} SameSplit(a: seq<Event>, es: seq<Event>, b: seq<Event>, fs: seq<Event>)
    requires SameEvents(a + es, b + fs) && |a| == |b|
    ensures SameEvents(a, b) && SameEvents(es, fs)
  {
    forall k | 0 <= k < |a| ensures SameEvent(a[k], b[k]) { assert (a + es)[k] == a[k] && (b + fs)[k] == b[k]; }
    forall k | 0 <= k < |es| ensures SameEvent(es[k], fs[k]) {
      assert (a + es)[|a| + k] == es[k] && (b + fs)[|a| + k] == fs[k];
    }
  }

  lemma {:induction false} SameHead(e: Event, es: seq<Event>, f: Event, fs: seq<Event>)
    requires SameEvents([e] + es, [f] + fs)
    ensures SameEvent(e, f) && SameEvents(es, fs)
  {
    SameSplit([e], es, [f], fs);
    assert SameEvent([e][0], [f][0]);
  }

  lemma {:induction false} FirstIsNoFee(ms: seq<Msg>, rest: seq<Event>)
    requires ms != []
    ensures AllEvents(ms) + rest != [] && !IsFee((AllEvents(ms) + rest)[0])
  {
    assert (AllEvents(ms) + rest)[0] == MsgEvents(ms[0])[0];
  }

  /** The first closure tells which kind of message it is. */
  lemma {:induction false} KindTold(m: Msg, n: Msg)
    requires SameEvent(MsgEvents(m)[0], MsgEvents(n)[0])
    ensures (m.Send? <==> n.Send?) && (m.Deposit? <==> n.Deposit?) && (m.Delegate? <==> n.Delegate?)
  {
    assert "Delegate" != "Undelegate" by { assert |"Delegate"| == 8 && |"Undelegate"| == 10; }
  }

  lemma {:induction false} ValuesTold(m: Msg, n: Msg)
    requires SameEvents(MsgEvents(m), MsgEvents(n))
    requires (m.Send? <==> n.Send?) && (m.Deposit? <==> n.Deposit?) && (m.Delegate? <==> n.Delegate?)
    ensures SameMsg(m, n)
  {
    var a, b := MsgEvents(m), MsgEvents(n);
    assert SameEvent(a[0], b[0]) && SameEvent(a[|a| - 1], b[|a| - 1]);
    if m.Send? {
      assert RecordAt(SendValue(m), SEND_AMOUNT) == Some(CoinValue(m.amount));
      assert RecordAt(SendValue(n), SEND_AMOUNT) == Some(CoinValue(n.amount));
    } else {
      assert SameEvent(a[1], b[1]) && (m.Deposit? || SameEvent(a[2], b[2]));
    }
    SameCoin(m.amount, n.amount);
  }

  lemma {:induction false} MsgTold(m: Msg, n: Msg, es: seq<Event>, fs: seq<Event>)
    requires SameEvents(MsgEvents(m) + es, MsgEvents(n) + fs)
    ensures SameMsg(m, n) && SameEvents(es, fs)
  {
    var a, b := MsgEvents(m), MsgEvents(n);
    assert (a + es)[0] == a[0] && (b + fs)[0] == b[0];
    KindTold(m, n);
    SameSplit(a, es, b, fs);
    ValuesTold(m, n);
  }

  /** What stands behind the messages: nothing, or the fee. */
  predicate Ending(es: seq<Event>) {
    |es| <= 1 && (es != [] ==> IsFee(es[0]))
  }

  lemma {:induction false} EndsHere(end: seq<Event>, ns: seq<Msg>, end': seq<Event>)
    requires Ending(end) && SameEvents(end, AllEvents(ns) + end')
    ensures ns == []
  {
    if ns != [] { FirstIsNoFee(ns, end'); }
  }

  lemma {:induction false} SameSwapped(es: seq<Event>, fs: seq<Event>)
    requires SameEvents(es, fs)
    ensures SameEvents(fs, es)
  {
    forall k | 0 <= k < |es| ensures SameEvent(fs[k], es[k]) { assert SameEvent(es[k], fs[k]); }
  }

  lemma {:induction false} MessagesTold(ms: seq<Msg>, ns: seq<Msg>, end: seq<Event>, end': seq<Event>)
    requires Ending(end) && Ending(end') && SameEvents(AllEvents(ms) + end, AllEvents(ns) + end')
    ensures SameMsgs(ms, ns) && SameEvents(end, end')
    decreases |ms|
  {
    if ms == [] {
      assert AllEvents(ms) + end == end;
      EndsHere(end, ns, end');
      assert AllEvents(ns) + end' == end';
    } else if ns == [] {
      assert AllEvents(ns) + end' == end';
      SameSwapped(AllEvents(ms) + end, end');
      EndsHere(end', ms, end);
    } else {
      Associate(MsgEvents(ms[0]), AllEvents(ms[1..]), end);
      Associate(MsgEvents(ns[0]), AllEvents(ns[1..]), end');
      MsgTold(ms[0], ns[0], AllEvents(ms[1..]) + end, AllEvents(ns[1..]) + end');
      MessagesTold(ms[1..], ns[1..], end, end');
      forall k | 0 <= k < |ms| ensures SameMsg(ms[k], ns[k]) {
        if k > 0 { assert ms[k] == ms[1..][k - 1] && ns[k] == ns[1..][k - 1]; }
      }
    }
  }

  lemma {:induction false} FeeTold(fee: Fee, fee': Fee)
    requires SameEvent(FeeEvent(fee), FeeEvent(fee'))
    ensures SameAmount(fee.amount, fee'.amount)
  {
    assert RecordAt(FeeValue(fee), FEE_AMOUNT) == Some(CoinValue(fee.amount));
    assert RecordAt(FeeValue(fee'), FEE_AMOUNT) == Some(CoinValue(fee'.amount));
    SameCoin(fee.amount, fee'.amount);
  }

  /** A fee in front and one behind: then there are no messages. */
  lemma {:induction false} NothingBetween(e: Event, ms: seq<Msg>, ns: seq<Msg>, f: Event)
    requires IsFee(e) && SameEvents([e] + AllEvents(ms), AllEvents(ns) + [f])
    ensures ms == [] && ns == [] && SameEvent(e, f)
  {
    var a, b := [e] + AllEvents(ms), AllEvents(ns) + [f];
    assert a[0] == e && SameEvent(a[0], b[0]);
    if ns != [] {
      FirstIsNoFee(ns, [f]);
      assert false;
    }
    assert b == [f] && |AllEvents(ms)| == 0;
  }

  lemma {:induction false} DocTold(first: bool, ms: seq<Msg>, fee: Fee, first': bool, ns: seq<Msg>, fee': Fee)
    requires SameEvents(DocEvents(first, ms, fee), DocEvents(first', ns, fee'))
    ensures SameMsgs(ms, ns) && SameAmount(fee.amount, fee'.amount)
  {
    var e, f := FeeEvent(fee), FeeEvent(fee');
    if first && first' {
      SameHead(e, AllEvents(ms), f, AllEvents(ns));
      assert AllEvents(ms) + [] == AllEvents(ms) && AllEvents(ns) + [] == AllEvents(ns);
      MessagesTold(ms, ns, [], []);
    } else if !first && !first' {
      MessagesTold(ms, ns, [e], [f]);
      assert [e] + [] == [e] && [f] + [] == [f];
      SameHead(e, [], f, []);
    } else if first {
      NothingBetween(e, ms, ns, f);
    } else {
      SameSwapped(AllEvents(ms) + [e], [f] + AllEvents(ns));
      NothingBetween(f, ns, ms, e);
      SameSwapped([f], [e]);
      SameHead(e, [], f, []);
    }
    FeeTold(fee, fee');
  }

  /** For documents: the same lines come from the same messages in the same order, and the same fee. */
  lemma {:induction false} ScreenTells(lib: Library, l: Layout, ms: seq<Msg>, fee: Fee, user: User,
                                       l': Layout, ns: seq<Msg>, fee': Fee, user': User)
    requires Lays(l, ms, fee) && Lays(l', ns, fee')
    requires var o := Eval(lib, Prompting(user), TxnParser(), l.doc, |l.doc|, []);
             var o' := Eval(lib, Prompting(user'), TxnParser(), l'.doc, |l'.doc|, []);
             o.Accept? && o'.Accept? && o.st == o'.st
    ensures SameMsgs(ms, ns) && SameAmount(fee.amount, fee'.amount)
  {
    TranscriptTells(lib, l.doc, user, l'.doc, user');
    AcceptedByBytes(lib, Prompting(user), TxnParser(), l.doc, []);
    AcceptedByBytes(lib, Prompting(user'), TxnParser(), l'.doc, []);
    DocumentHanded(lib, l, ms, fee);
    DocumentHanded(lib, l', ns, fee');
    DocTold(l.feeFirst, ms, fee, l'.feeFirst, ns, fee');
  }
}
