// Prompts on the device screen, and what the parser's closures do with them.

module Screen {
  import opened Octets
  import opened Decimals
  import opened Interp
  import opened Runs

  datatype Prompt =
    | Scroll(title: string, body: Bytes)
    | Final(lines: seq<string>)

  /** The person in front of the device: the answer to the last of the prompts shown so far. */
  type User = seq<Prompt> -> bool

  const DENOM_CAP: nat := 20
  const AMOUNT_CAP: nat := 64
  const ADDRESS_CAP: nat := 50

  /** A scroller whose text cannot be written shows nothing and counts as refused. */
  function Scroller(user: User, seen: seq<Prompt>, title: string, body: Option<Bytes>): (bool, seq<Prompt>) {
    match body
    case None => (false, seen)
    case Some(b) => (user(seen + [Scroll(title, b)]), seen + [Scroll(title, b)])
  }

  function FinalPrompt(user: User, seen: seq<Prompt>, lines: seq<string>): (bool, seq<Prompt>) {
    (user(seen + [Final(lines)]), seen + [Final(lines)])
  }

  function Text(b: Bytes): Option<Bytes> {
    if ValidUtf8(b) then Some(b) else None
  }

  /** The text of an amount of nhash. On an empty amount the renderer leaves its buffer and the app halts. */
  function HashText(amount: Bytes): Option<Bytes> {
    if amount == [] then None
    else
      match Rendered(amount, AMOUNT_CAP)
      case None => None
      case Some(x) => if ValidUtf8(x) then Some(Ascii("HASH ") + x) else None
  }

  function BothTexts(a: Bytes, b: Bytes): Option<Bytes> {
    if ValidUtf8(a) && ValidUtf8(b) then Some(a + Ascii(" ") + b) else None
  }

  function ShowAmountInDecimals(user: User, seen: seq<Prompt>, onlyHash: bool, title: string,
                                amount: Bytes, denom: Bytes): (bool, seq<Prompt>) {
    if denom == Ascii("nhash") then Scroller(user, seen, title, HashText(amount))
    else if onlyHash then (false, seen)
    else Scroller(user, seen, title, BothTexts(amount, denom))
  }

  /** Another denomination is shown as it is, and not at all where only nhash is expected. */
  lemma {:induction false} OtherDenomination(user: User, seen: seq<Prompt>, onlyHash: bool, title: string,
                                             amount: Bytes, denom: Bytes)
    requires denom != Ascii("nhash")
    ensures ShowAmountInDecimals(user, seen, onlyHash, title, amount, denom) ==
            if onlyHash || !ValidUtf8(amount) || !ValidUtf8(denom) then (false, seen)
            else
              var shown := seen + [Scroll(title, amount + [32] + denom)];
              (user(shown), shown)
  {
    assert Ascii(" ") == [32];
  }

  // ---------------------------------------------------------------- reading parsed records

  function RawAt(v: Value, number: nat): Option<Bytes> {
    if v.Record? && number in v.fields && v.fields[number].Raw? then Some(v.fields[number].bytes) else None
  }

  function RecordAt(v: Value, number: nat): Option<Value> {
    if v.Record? && number in v.fields && v.fields[number].Record? then Some(v.fields[number]) else None
  }

  const COIN_DENOM: nat := 1
  const COIN_AMOUNT: nat := 2
  const SEND_FROM: nat := 1
  const SEND_TO: nat := 2
  const SEND_AMOUNT: nat := 3
  const FEE_AMOUNT: nat := 1

  function ShowCoinValue(user: User, seen: seq<Prompt>, title: string, coin: Option<Value>): (bool, seq<Prompt>) {
    if coin.None? then (false, seen)
    else
      var amount, denom := RawAt(coin.value, COIN_AMOUNT), RawAt(coin.value, COIN_DENOM);
      if amount.None? || denom.None? then (false, seen)
      else ShowAmountInDecimals(user, seen, true, title, amount.value, denom.value)
  }

  function TextAt(v: Value, number: nat): Option<Bytes> {
    match RawAt(v, number)
    case None => None
    case Some(b) => Text(b)
  }

  /** The closures with PROMPT set. Of the prompts for a transfer only the last one decides. */
  function Ui(user: User, e: Event, seen: seq<Prompt>): (bool, seq<Prompt>) {
    match e
    case Announced(title) => Scroller(user, seen, title, Some([]))
    case Ran(ShowString(title), v) => Scroller(user, seen, title, if v.Raw? then Text(v.bytes) else None)
    case Ran(ShowProposalId, v) => Scroller(user, seen, "Proposal ID", if v.Num? then Some(Decimal(v.n)) else None)
    case Ran(ShowCoin, v) => ShowCoinValue(user, seen, "Amount", Some(v))
    case Ran(ShowFee, v) => ShowCoinValue(user, seen, "Fee", RecordAt(v, FEE_AMOUNT))
    case Ran(ShowSend, v) =>
      var seen1 := Scroller(user, seen, "Transfer", Some(Ascii("HASH"))).1;
      var seen2 := Scroller(user, seen1, "From", TextAt(v, SEND_FROM)).1;
      var seen3 := Scroller(user, seen2, "To", TextAt(v, SEND_TO)).1;
      ShowCoinValue(user, seen3, "Amount", RecordAt(v, SEND_AMOUNT))
  }

  function Prompting(user: User): (Event, seq<Prompt>) -> (bool, seq<Prompt>) {
    (e, seen) => Ui(user, e, seen)
  }

  /** The closures without PROMPT. */
  function Silent(): (Event, seq<Prompt>) -> (bool, seq<Prompt>) {
    (e, seen) => (true, seen)
  }

  // ---------------------------------------------------------------- what an event puts on the screen

  function HashAmount(coin: Option<Value>): Option<Bytes> {
    if coin.None? || RawAt(coin.value, COIN_DENOM) != Some(Ascii("nhash")) then None
    else
      match RawAt(coin.value, COIN_AMOUNT)
      case None => None
      case Some(a) => HashText(a)
  }

  function Titled(title: string, body: Option<Bytes>): Option<Prompt> {
    match body
    case None => None
    case Some(b) => Some(Scroll(title, b))
  }

  /** The text whose acceptance decides the event. */
  function Deciding(e: Event): Option<Prompt> {
    match e
    case Announced(title) => Some(Scroll(title, []))
    case Ran(ShowString(title), v) =>
      if v.Raw? && ValidUtf8(v.bytes) then Some(Scroll(title, v.bytes)) else None
    case Ran(ShowProposalId, v) => if v.Num? then Some(Scroll("Proposal ID", Decimal(v.n))) else None
    case Ran(ShowCoin, v) => Titled("Amount", HashAmount(Some(v)))
    case Ran(ShowFee, v) => Titled("Fee", HashAmount(RecordAt(v, FEE_AMOUNT)))
    case Ran(ShowSend, v) => Titled("Amount", HashAmount(RecordAt(v, SEND_AMOUNT)))
  }

  function Shown(title: string, body: Option<Bytes>): seq<Prompt> {
    match body
    case None => []
    case Some(b) => [Scroll(title, b)]
  }

  /** Prompts before the deciding one. */
  function Leading(e: Event): seq<Prompt> {
    if e.Ran? && e.act.ShowSend? then
      [Scroll("Transfer", Ascii("HASH"))] + Shown("From", TextAt(e.value, SEND_FROM))
      + Shown("To", TextAt(e.value, SEND_TO))
    else []
  }

  /** Everything the event shows. */
  function PromptsOf(e: Event): seq<Prompt> {
    Leading(e) + match Deciding(e) case None => [] case Some(p) => [p]
  }

  function AllPrompts(es: seq<Event>): seq<Prompt> {
    if es == [] then [] else PromptsOf(es[0]) + AllPrompts(es[1..])
  }

  lemma {:induction false} CoinExactly(user: User, seen: seq<Prompt>, title: string, coin: Option<Value>)
    ensures var r := ShowCoinValue(user, seen, title, coin);
            && r.1 == seen + Shown(title, HashAmount(coin))
            && (r.0 <==> HashAmount(coin).Some? && user(seen + Shown(title, HashAmount(coin))))
  {
  }

  lemma {:induction false} LeadingExactly(user: User, e: Event, seen: seq<Prompt>)
    requires e.Ran? && e.act.ShowSend?
    ensures var seen1 := Scroller(user, seen, "Transfer", Some(Ascii("HASH"))).1;
            var seen2 := Scroller(user, seen1, "From", TextAt(e.value, SEND_FROM)).1;
            Scroller(user, seen2, "To", TextAt(e.value, SEND_TO)).1 == seen + Leading(e)
  {
    var seen1 := seen + [Scroll("Transfer", Ascii("HASH"))];
    var seen2 := seen1 + Shown("From", TextAt(e.value, SEND_FROM));
    assert Scroller(user, seen1, "From", TextAt(e.value, SEND_FROM)).1 == seen2;
    assert Scroller(user, seen2, "To", TextAt(e.value, SEND_TO)).1 == seen2 + Shown("To", TextAt(e.value, SEND_TO));
    assert seen2 + Shown("To", TextAt(e.value, SEND_TO)) == seen + Leading(e);
  }

  /** The exact outcome of an event: it needs a deciding text, and that text accepted. */
  lemma {:induction false} UiExactly(user: User, e: Event, seen: seq<Prompt>)
    ensures Ui(user, e, seen).1 == seen + PromptsOf(e)
    ensures Ui(user, e, seen).0 <==> Deciding(e).Some? && user(seen + PromptsOf(e))
  {
    match e
    case Announced(title) =>
    case Ran(ShowString(title), v) =>
    case Ran(ShowProposalId, v) =>
    case Ran(ShowCoin, v) => CoinExactly(user, seen, "Amount", Some(v));
    case Ran(ShowFee, v) => CoinExactly(user, seen, "Fee", RecordAt(v, FEE_AMOUNT));
    case Ran(ShowSend, v) =>
      CoinExactly(user, seen + Leading(e), "Amount", RecordAt(v, SEND_AMOUNT));
      LeadingExactly(user, e, seen);
      assert seen + Leading(e) + Shown("Amount", HashAmount(RecordAt(v, SEND_AMOUNT))) == seen + PromptsOf(e);
  }

  // ---------------------------------------------------------------- whole runs

  lemma {:induction false} AllPromptsConcat(es: seq<Event>, fs: seq<Event>)
    ensures AllPrompts(es + fs) == AllPrompts(es) + AllPrompts(fs)
  {
    if es == [] {
      assert es + fs == fs;
    } else {
      assert (es + fs)[1..] == es[1..] + fs;
      AllPromptsConcat(es[1..], fs);
    }
  }

  /** The event `es[k]` is shown and accepted, after all earlier ones. */
  ghost predicate Passes(user: User, seen: seq<Prompt>, es: seq<Event>, k: nat)
    requires k < |es|
  {
    Deciding(es[k]).Some? && user(seen + AllPrompts(es[..k + 1]))
  }

  lemma {:induction false} ReplaySilent(es: seq<Event>, seen: seq<Prompt>)
    ensures Replay(Silent(), es, seen) == (true, seen)
  {
    if es == [] {
    } else {
      ReplaySilent(es[1..], seen);
    }
  }

  lemma {:induction false} Regroup(a: seq<Prompt>, b: seq<Prompt>, c: seq<Prompt>)
    ensures (a + b) + c == a + (b + c)
    ensures a <= a + b <= a + (b + c)
  {
  }

  lemma {:induction false} PassesLater(user: User, seen: seq<Prompt>, es: seq<Event>, k: nat)
    requires 0 < k < |es|
    ensures Passes(user, seen, es, k) <==> Passes(user, seen + PromptsOf(es[0]), es[1..], k - 1)
  {
    var first, later := PromptsOf(es[0]), AllPrompts(es[1..][..k]);
    assert es[..k + 1][0] == es[0] && es[..k + 1][1..] == es[1..][..k];
    assert AllPrompts(es[..k + 1]) == first + later;
    Regroup(seen, first, later);
  }

  lemma {:induction false} PassesFirst(user: User, seen: seq<Prompt>, es: seq<Event>)
    requires es != []
    ensures Passes(user, seen, es, 0) <==> Deciding(es[0]).Some? && user(seen + PromptsOf(es[0]))
  {
    assert es[..1] == [es[0]] && AllPrompts([es[0]]) == PromptsOf(es[0]) + AllPrompts([]);
    assert seen + AllPrompts(es[..1]) == seen + PromptsOf(es[0]);
  }

  ghost predicate AllPass(user: User, seen: seq<Prompt>, es: seq<Event>) {
    forall k :: 0 <= k < |es| ==> Passes(user, seen, es, k)
  }

  lemma {:induction false} AllPassStep(user: User, seen: seq<Prompt>, es: seq<Event>)
    requires es != []
    ensures AllPass(user, seen, es) <==>
            Passes(user, seen, es, 0) && AllPass(user, seen + PromptsOf(es[0]), es[1..])
  {
    forall k | 0 < k < |es|
      ensures Passes(user, seen, es, k) <==> Passes(user, seen + PromptsOf(es[0]), es[1..], k - 1)
    {
      PassesLater(user, seen, es, k);
    }
    if AllPass(user, seen, es) {
      forall k | 0 <= k < |es[1..]|
        ensures Passes(user, seen + PromptsOf(es[0]), es[1..], k)
      {
        assert Passes(user, seen, es, k + 1);
      }
    }
  }

  lemma {:induction false} ReplayStep(user: User, es: seq<Event>, seen: seq<Prompt>)
    requires es != []
    ensures Replay(Prompting(user), es, seen) ==
            if Passes(user, seen, es, 0) then Replay(Prompting(user), es[1..], seen + PromptsOf(es[0]))
            else (false, seen + PromptsOf(es[0]))
  {
    UiExactly(user, es[0], seen);
    PassesFirst(user, seen, es);
  }

  lemma {:induction false} ReplayShows(user: User, es: seq<Event>, seen: seq<Prompt>)
    ensures var r := Replay(Prompting(user), es, seen);
            && (r.0 ==> r.1 == seen + AllPrompts(es))
            && seen <= r.1 <= seen + AllPrompts(es)
  {
    if es == [] {
    } else {
      ReplayStep(user, es, seen);
      ReplayShows(user, es[1..], seen + PromptsOf(es[0]));
      Regroup(seen, PromptsOf(es[0]), AllPrompts(es[1..]));
    }
  }

  /** A replay on the screen gets through exactly if every event passes. */
  lemma {:induction false} ReplayExactly(user: User, es: seq<Event>, seen: seq<Prompt>)
    ensures Replay(Prompting(user), es, seen).0 <==> AllPass(user, seen, es)
  {
    if es == [] {
    } else {
      ReplayStep(user, es, seen);
      AllPassStep(user, seen, es);
      ReplayExactly(user, es[1..], seen + PromptsOf(es[0]));
    }
  }

  /** How many events in front are shown and accepted. */
  function FirstRefused(user: User, seen: seq<Prompt>, es: seq<Event>): (k: nat)
    ensures k <= |es|
    decreases |es|
  {
    if es == [] then 0
    else
      var shown := seen + PromptsOf(es[0]);
      if Deciding(es[0]).Some? && user(shown) then 1 + FirstRefused(user, shown, es[1..]) else 0
  }

  /** A replay ends behind the first event that is refused: nothing is shown after it. */
  lemma {:induction false} ReplayStops(user: User, es: seq<Event>, seen: seq<Prompt>)
    ensures var k := FirstRefused(user, seen, es);
            Replay(Prompting(user), es, seen) ==
            if k == |es| then (true, seen + AllPrompts(es)) else (false, seen + AllPrompts(es[..k + 1]))
  {
    if es == [] {
      assert seen + [] == seen;
    } else {
      var shown := seen + PromptsOf(es[0]);
      ReplayStep(user, es, seen);
      PassesFirst(user, seen, es);
      var k := FirstRefused(user, seen, es);
      if Deciding(es[0]).Some? && user(shown) {
        ReplayStops(user, es[1..], shown);
        Regroup(seen, PromptsOf(es[0]), AllPrompts(es[1..]));
        if k < |es| {
          assert es[..k + 1][0] == es[0] && es[..k + 1][1..] == es[1..][..k];
          Regroup(seen, PromptsOf(es[0]), AllPrompts(es[1..][..k]));
        }
      } else {
        assert k == 0 && es[..k + 1] == [es[0]] && [es[0]][1..] == [];
        assert AllPrompts([es[0]]) == PromptsOf(es[0]) + [];
        assert PromptsOf(es[0]) + [] == PromptsOf(es[0]);
        assert Replay(Prompting(user), es, seen) == (false, shown);
      }
    }
  }

  lemma {:induction false} NoneRefused(user: User, es: seq<Event>)
    requires AllPass(user, [], es)
    ensures FirstRefused(user, [], es) == |es|
  {
    ReplayExactly(user, es, []);
    ReplayStops(user, es, []);
  }

  /** The run without prompts: what the bytes alone decide. */
  function Noted(lib: Library, i: Interp, w: Bytes, n: nat): Out<seq<Event>>
    requires |w| <= n
  {
    Eval(lib, Noting(), i, w, n, [])
  }

  /** Silent mode shows nothing, and its verdict is that of the noted run. */
  lemma {:induction false} SilentShowsNothing(lib: Library, i: Interp, w: Bytes, n: nat, seen: seq<Prompt>)
    requires |w| <= n
    ensures var o := Eval(lib, Silent(), i, w, n, seen);
            var p := Noted(lib, i, w, n);
            && o.st == seen
            && (o.Accept? <==> p.Accept?) && (o.Reject? <==> p.Reject?)
            && (o.Accept? ==> o.value == p.value)
  {
    EvalAgrees(lib, Silent(), i, w, n, seen, []);
    ReplaySilent(Noted(lib, i, w, n).st[0..], seen);
  }

  /** Prompt erasure: prompting accepts exactly when silent mode does and every event reached passes; it
      then parsed the same value and has shown the prompts of all events, in order. */
  lemma {:induction false} PromptErasure(lib: Library, i: Interp, user: User, w: Bytes, n: nat, seen: seq<Prompt>)
    requires |w| <= n
    ensures var o := Eval(lib, Prompting(user), i, w, n, seen);
            var q := Eval(lib, Silent(), i, w, n, seen);
            var es := Noted(lib, i, w, n).st;
            && (o.Accept? <==> q.Accept? && AllPass(user, seen, es))
            && (o.Accept? ==> o.value == q.value && o.st == seen + AllPrompts(es))
            && seen <= o.st <= seen + AllPrompts(es)
  {
    var p := Noted(lib, i, w, n);
    EvalAgrees(lib, Prompting(user), i, w, n, seen, []);
    SilentShowsNothing(lib, i, w, n, seen);
    assert p.st[0..] == p.st;
    ReplayExactly(user, p.st, seen);
    ReplayShows(user, p.st, seen);
  }
}
