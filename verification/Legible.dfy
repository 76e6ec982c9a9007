// The lines a person needs for a document, and which of them are missing.

module Legible {
  import opened Octets
  import opened Decimals
  import opened Interp
  import opened Screen
  import opened Documents
  import opened Display

  // ---------------------------------------------------------------- the lines a person would need

  function AmountText(c: Coin): Bytes {
    Ascii("HASH ")
    + if c.amount != [] && Rendered(c.amount, AMOUNT_CAP).Some? then Rendered(c.amount, AMOUNT_CAP).value else []
  }

  /** Every value of the message has its line. */
  function FullLines(m: Msg): (ps: seq<Prompt>)
    ensures |ps| > 0
  {
    match m
    case Send(sender, recipient, c) =>
      [Scroll("Transfer", Ascii("HASH")), Scroll("From", sender), Scroll("To", recipient),
       Scroll("Amount", AmountText(c))]
    case Delegate(d, v, c) =>
      [Scroll("Delegate", []), Scroll("Delegator Address", d), Scroll("Validator Address", v),
       Scroll("Amount", AmountText(c))]
    case Undelegate(d, v, c) =>
      [Scroll("Undelegate", []), Scroll("Delegator Address", d), Scroll("Validator Address", v),
       Scroll("Amount", AmountText(c))]
    case Deposit(p, d, c) =>
      [Scroll("Proposal ID", Decimal(p)), Scroll("Depositor Address", d), Scroll("Amount", AmountText(c))]
  }

  /** The addresses of a transfer can be written on the screen. */
  predicate Readable(m: Msg) {
    m.Send? ==> ValidUtf8(m.sender) && ValidUtf8(m.recipient)
  }

  /** Each closure has the text it needs. */
  predicate Decided(es: seq<Event>) {
    forall k :: 0 <= k < |es| ==> Deciding(es[k]).Some?
  }

  // ---------------------------------------------------------------- exactly when no line is missing

  lemma {:induction false} AmountShown(title: string, c: Coin)
    requires HashAmount(Some(CoinValue(c))).Some?
    ensures AmountLine(title, c) == [Scroll(title, AmountText(c))]
    ensures c.denom == Ascii("nhash") && c.amount != [] && Rendered(c.amount, AMOUNT_CAP).Some?
    ensures AmountText(c) == Ascii("HASH ") + Rendered(c.amount, AMOUNT_CAP).value
  {
    CoinLine(title, c);
  }

  lemma {:induction false} DecidedAmount(m: Msg)
    requires Decided(MsgEvents(m))
    ensures HashAmount(Some(CoinValue(m.amount))).Some?
  {
    var es := MsgEvents(m);
    assert Deciding(es[|es| - 1]).Some?;
    if m.Send? { assert RecordAt(SendValue(m), SEND_AMOUNT) == Some(CoinValue(m.amount)); }
  }

  /** Of one accepted message all lines are on the screen, but for those of a transfer whose addresses are not text. */
  lemma {:induction false} LinesOf(m: Msg)
    requires Decided(MsgEvents(m))
    ensures |MsgPrompts(m)| <= |FullLines(m)|
    ensures |MsgPrompts(m)| == |FullLines(m)| <==> Readable(m)
    ensures MsgPrompts(m) == FullLines(m) <==> Readable(m)
    ensures !m.Send? ==> MsgPrompts(m) == FullLines(m)
  {
    var es := MsgEvents(m);
    DecidedAmount(m);
    AmountShown("Amount", m.amount);
    match m
    case Send(_, _, _) =>
    case Delegate(_, _, _) => assert Deciding(es[1]).Some? && Deciding(es[2]).Some?;
    case Undelegate(_, _, _) => assert Deciding(es[1]).Some? && Deciding(es[2]).Some?;
    case Deposit(_, _, _) => assert Deciding(es[1]).Some?;
  }

  lemma {:induction false} DecidedParts(es: seq<Event>, fs: seq<Event>)
    requires Decided(es + fs)
    ensures Decided(es) && Decided(fs)
  {
    assert forall k :: 0 <= k < |es| ==> (es + fs)[k] == es[k];
    forall k | 0 <= k < |fs| ensures Deciding(fs[k]).Some? { assert (es + fs)[|es| + k] == fs[k]; }
  }

  lemma {:induction false} PassedIsDecided(user: User, seen: seq<Prompt>, es: seq<Event>)
    requires AllPass(user, seen, es)
    ensures Decided(es)
  {
    forall k | 0 <= k < |es| ensures Deciding(es[k]).Some? { assert Passes(user, seen, es, k); }
  }

  /** A transfer to an address that is not text passes without a line for it. */
  lemma {:induction false} RecipientMissing()
    ensures var m := Send(Ascii("a"), [0xFF], Coin(Ascii("nhash"), Ascii("1")));
            && MsgFits(m) && AllPass((shown: seq<Prompt>) => true, [], MsgEvents(m))
            && MsgPrompts(m) == [Scroll("Transfer", Ascii("HASH")), Scroll("From", Ascii("a")),
                                 Scroll("Amount", AmountText(m.amount))]
  {
    var m := Send(Ascii("a"), [0xFF], Coin(Ascii("nhash"), Ascii("1")));
    assert Rendered(Ascii("1"), AMOUNT_CAP).Some?;
    CoinLine("Amount", m.amount);
    assert HashAmount(Some(CoinValue(m.amount))).Some?;
    assert RecordAt(SendValue(m), SEND_AMOUNT) == Some(CoinValue(m.amount));
    AmountShown("Amount", m.amount);
    assert ValidUtf8(Ascii("a")) by { AsciiIsUtf8(Ascii("a")); }
    assert !ValidUtf8([0xFF]);
  }
}
