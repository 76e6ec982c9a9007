// Which lines any accepted transaction puts on the screen, which it lacks, and what the lines tell.

module Lines {
  import opened Octets
  import opened Interp
  import opened Runs
  import opened Messages
  import opened Windows
  import opened Screen
  import opened Transaction
  import opened Handed
  import opened Transcript
  import opened Documents
  import opened Display
  import opened Legible

  // ---------------------------------------------------------------- lines by their titles

  function Title(p: Prompt): string {
    if p.Scroll? then p.title else ""
  }

  predicate Shows(ps: seq<Prompt>, title: string) {
    exists k :: 0 <= k < |ps| && Title(ps[k]) == title
  }

  lemma {:induction false} ShowsConcat(a: seq<Prompt>, b: seq<Prompt>, title: string)
    ensures Shows(a + b, title) <==> Shows(a, title) || Shows(b, title)
  {
    if Shows(a, title) {
      var k :| 0 <= k < |a| && Title(a[k]) == title;
      assert (a + b)[k] == a[k];
    }
    if Shows(b, title) {
      var k :| 0 <= k < |b| && Title(b[k]) == title;
      assert (a + b)[|a| + k] == b[k];
    }
  }

  lemma {:induction false} ShowsOne(p: Prompt, title: string)
    ensures Shows([p], title) <==> Title(p) == title
  {
    assert [p][0] == p;
  }

  /** The closures of the transaction parser, with the titles it gives them. */
  predicate FromTree(e: Event) {
    match e
    case Announced(title) => title == "Delegate" || title == "Undelegate"
    case Ran(ShowString(title), _) =>
      title == "Delegator Address" || title == "Validator Address" || title == "Depositor Address"
    case Ran(_, _) => true
  }

  predicate AllFromTree(es: seq<Event>) {
    forall k :: 0 <= k < |es| ==> FromTree(es[k])
  }

  /** The title of the line that decides a closure; it tells the closures apart. */
  function LastTitle(e: Event): string {
    match e
    case Announced(title) => title
    case Ran(ShowString(title), _) => title
    case Ran(ShowProposalId, _) => "Proposal ID"
    case Ran(ShowCoin, _) => "Amount"
    case Ran(ShowFee, _) => "Fee"
    case Ran(ShowSend, _) => "Amount"
  }

  lemma {:induction false} DecidingTitle(e: Event)
    requires Deciding(e).Some?
    ensures Title(Deciding(e).value) == LastTitle(e)
  {
  }

  lemma {:induction false} FromTreeConcat(es: seq<Event>, fs: seq<Event>)
    requires AllFromTree(es) && AllFromTree(fs)
    ensures AllFromTree(es + fs)
  {
  }

  // ---------------------------------------------------------------- the events of a transaction are of the tree

  /** Events among which no fee is shown. */
  predicate NoFee(es: seq<Event>) {
    forall k :: 0 <= k < |es| ==> LastTitle(es[k]) != "Fee"
  }

  predicate NoFeeOfTree(es: seq<Event>) {
    AllFromTree(es) && NoFee(es)
  }

  lemma {:induction false} NoFeeConcat(es: seq<Event>, fs: seq<Event>)
    requires NoFeeOfTree(es) && NoFeeOfTree(fs)
    ensures NoFeeOfTree(es + fs)
  {
  }

  lemma {:induction false} TitlesApart()
    ensures "Fee" != "Amount" && "Fee" != "Proposal ID" && "Fee" != "Delegate" && "Fee" != "Undelegate"
    ensures "Fee" != "Delegator Address" && "Fee" != "Validator Address" && "Fee" != "Depositor Address"
    ensures "Fee" != "Transfer" && "Fee" != "From" && "Fee" != "To"
  {
    assert |"Fee"| == 3 && |"Amount"| == 6 && |"Proposal ID"| == 11 && |"Delegate"| == 8 && |"Undelegate"| == 10;
    assert |"Delegator Address"| == 17 && |"Validator Address"| == 17 && |"Depositor Address"| == 17;
    assert |"Transfer"| == 8 && |"From"| == 4 && |"To"| == 2;
  }

  lemma {:induction false} BondFromTree(lib: Library, title: string, x: Bytes)
    requires title == "Delegate" || title == "Undelegate"
    ensures NoFeeOfTree(BondHanded(lib, title, x))
  {
    TitlesApart();
    var a, b, c := Strings("Delegator Address", WindowsOf(x, 1)), Strings("Validator Address", WindowsOf(x, 2)),
                   Coins(lib, WindowsOf(x, 3));
    NoFeeConcat(b, c);
    NoFeeConcat(a, b + c);
    NoFeeConcat([Announced(title)], a + (b + c));
  }

  lemma {:induction false} DepositFromTree(lib: Library, x: Bytes)
    ensures NoFeeOfTree(DepositHanded(lib, x))
  {
    TitlesApart();
    var a, b, c := Proposals(Counts(FieldsIn(x), 1)), Strings("Depositor Address", WindowsOf(x, 2)),
                   Coins(lib, WindowsOf(x, 3));
    NoFeeConcat(b, c);
    NoFeeConcat(a, b + c);
  }

  lemma {:induction false} ValueFromTree(lib: Library, url: Bytes, x: Bytes)
    ensures NoFeeOfTree(ValueHanded(lib, url, x))
  {
    if url == Ascii(SEND_URL) {
      TitlesApart();
    } else if url == Ascii(DELEGATE_URL) {
      BondFromTree(lib, "Delegate", x);
    } else if url == Ascii(UNDELEGATE_URL) {
      BondFromTree(lib, "Undelegate", x);
    } else if url == Ascii(DEPOSIT_URL) {
      DepositFromTree(lib, x);
    }
  }

  lemma {:induction false} ValuesFromTree(lib: Library, url: Bytes, xs: seq<Bytes>)
    ensures NoFeeOfTree(ValuesHanded(lib, url, xs))
  {
    if xs == [] {
    } else {
      ValueFromTree(lib, url, xs[0]);
      ValuesFromTree(lib, url, xs[1..]);
      NoFeeConcat(ValueHanded(lib, url, xs[0]), ValuesHanded(lib, url, xs[1..]));
    }
  }

  lemma {:induction false} AnysFromTree(lib: Library, ws: seq<Bytes>)
    ensures NoFeeOfTree(AnysHanded(lib, ws))
  {
    if ws == [] {
    } else {
      ValuesFromTree(lib, UrlAt(lib, ws[0]), WindowsOf(ws[0], ANY_VALUE));
      AnysFromTree(lib, ws[1..]);
      NoFeeConcat(AnyHanded(lib, ws[0]), AnysHanded(lib, ws[1..]));
    }
  }

  lemma {:induction false} PartsFromTree(lib: Library, list: seq<Wired>)
    ensures AllFromTree(PartsHanded(lib, list))
  {
    if list == [] {
    } else {
      var f := list[0];
      if f.Chunk? && f.number == DOC_BODY { AnysFromTree(lib, WindowsOf(f.payload, BODY_MESSAGES)); }
      PartsFromTree(lib, list[1..]);
      FromTreeConcat(PartHanded(lib, f), PartsHanded(lib, list[1..]));
    }
  }

  // ---------------------------------------------------------------- the fee

  lemma {:induction false} LeadingTitles(e: Event, k: nat)
    requires k < |Leading(e)|
    ensures Title(Leading(e)[k]) == "Transfer" || Title(Leading(e)[k]) == "From" || Title(Leading(e)[k]) == "To"
  {
  }

  lemma {:induction false} FeeOfOne(e: Event)
    requires Deciding(e).Some?
    ensures Shows(PromptsOf(e), "Fee") <==> LastTitle(e) == "Fee"
  {
    TitlesApart();
    var p := Deciding(e).value;
    DecidingTitle(e);
    ShowsConcat(Leading(e), [p], "Fee");
    ShowsOne(p, "Fee");
    if Shows(Leading(e), "Fee") {
      var k :| 0 <= k < |Leading(e)| && Title(Leading(e)[k]) == "Fee";
      LeadingTitles(e, k);
    }
  }

  /** A line for the fee comes from a closure for it, and every such closure has one. */
  lemma {:induction false} FeeOf(es: seq<Event>)
    requires Decided(es) && AllFromTree(es)
    ensures Shows(AllPrompts(es), "Fee") <==> exists k :: 0 <= k < |es| && LastTitle(es[k]) == "Fee"
  {
    if es == [] {
    } else {
      var e := es[0];
      assert forall k :: 0 <= k < |es[1..]| ==> es[1..][k] == es[k + 1];
      FeeOf(es[1..]);
      FeeOfOne(e);
      ShowsConcat(PromptsOf(e), AllPrompts(es[1..]), "Fee");
      if exists k :: 0 <= k < |es[1..]| && LastTitle(es[1..][k]) == "Fee" {
        var k :| 0 <= k < |es[1..]| && LastTitle(es[1..][k]) == "Fee";
        assert LastTitle(es[k + 1]) == "Fee";
      }
      if exists k :: 0 <= k < |es| && LastTitle(es[k]) == "Fee" {
        var k :| 0 <= k < |es| && LastTitle(es[k]) == "Fee";
        assert k > 0 ==> LastTitle(es[1..][k - 1]) == "Fee";
      }
    }
  }

  predicate SomeFee(auths: seq<Bytes>) {
    exists k :: 0 <= k < |auths| && WindowsOf(auths[k], AUTH_FEE) != []
  }

  /** Some auth info of the transaction has a fee. */
  predicate HasFee(w: Bytes) {
    SomeFee(WindowsOf(w, DOC_AUTH))
  }

  lemma {:induction false} SomeFeeCons(a: Bytes, auths: seq<Bytes>)
    ensures SomeFee([a] + auths) <==> WindowsOf(a, AUTH_FEE) != [] || SomeFee(auths)
  {
    if WindowsOf(a, AUTH_FEE) != [] { assert ([a] + auths)[0] == a; }
    if SomeFee(auths) {
      var k :| 0 <= k < |auths| && WindowsOf(auths[k], AUTH_FEE) != [];
      assert ([a] + auths)[k + 1] == auths[k];
    }
  }

  lemma {:induction false} FeeSomewhere(es: seq<Event>, fs: seq<Event>)
    ensures !NoFee(es + fs) <==> !NoFee(es) || !NoFee(fs)
  {
    if !NoFee(es) {
      var k :| 0 <= k < |es| && LastTitle(es[k]) == "Fee";
      assert (es + fs)[k] == es[k];
    }
    if !NoFee(fs) {
      var k :| 0 <= k < |fs| && LastTitle(fs[k]) == "Fee";
      assert (es + fs)[|es| + k] == fs[k];
    }
  }

  lemma {:induction false} FeeInPart(lib: Library, f: Wired)
    ensures !NoFee(PartHanded(lib, f)) <==>
            f.Chunk? && f.number == DOC_AUTH && WindowsOf(f.payload, AUTH_FEE) != []
  {
    if f.Chunk? && f.number == DOC_BODY {
      AnysFromTree(lib, WindowsOf(f.payload, BODY_MESSAGES));
    } else if f.Chunk? && f.number == DOC_AUTH {
      var ws := WindowsOf(f.payload, AUTH_FEE);
      assert ws != [] ==> LastTitle(Fees(lib, ws)[0]) == "Fee";
    }
  }

  lemma {:induction false} FeeHanded(lib: Library, list: seq<Wired>)
    ensures !NoFee(PartsHanded(lib, list)) <==> SomeFee(Payloads(list, DOC_AUTH))
  {
    if list == [] {
    } else {
      var f := list[0];
      FeeHanded(lib, list[1..]);
      PayloadsStep(list, DOC_AUTH);
      FeeInPart(lib, f);
      FeeSomewhere(PartHanded(lib, f), PartsHanded(lib, list[1..]));
      if f.Chunk? && f.number == DOC_AUTH { SomeFeeCons(f.payload, Payloads(list[1..], DOC_AUTH)); }
    }
  }

  // ---------------------------------------------------------------- the lines of one message

  /** The titles of the lines a person needs for a message of this kind. */
  function Wanted(url: Bytes): seq<string> {
    if url == Ascii(SEND_URL) then ["Transfer", "From", "To", "Amount"]
    else if url == Ascii(DELEGATE_URL) then ["Delegate", "Delegator Address", "Validator Address", "Amount"]
    else if url == Ascii(UNDELEGATE_URL) then ["Undelegate", "Delegator Address", "Validator Address", "Amount"]
    else if url == Ascii(DEPOSIT_URL) then ["Proposal ID", "Depositor Address", "Amount"]
    else []
  }

  predicate AllWanted(ps: seq<Prompt>, titles: seq<string>) {
    forall k :: 0 <= k < |titles| ==> Shows(ps, titles[k])
  }

  /** All of them are among the lines of this value. */
  predicate ValueShown(lib: Library, url: Bytes, x: Bytes) {
    AllWanted(AllPrompts(ValueHanded(lib, url, x)), Wanted(url))
  }

  /** The bytes of the value have what the lines need: a transfer keeps both addresses, as UTF-8; the others have a
      field for each line. */
  predicate ValueComplete(lib: Library, url: Bytes, x: Bytes) {
    if url == Ascii(SEND_URL) then
      var v := KeptIn(lib, SendFields(), x);
      TextAt(v, SEND_FROM).Some? && TextAt(v, SEND_TO).Some?
    else if url == Ascii(DEPOSIT_URL) then
      Counts(FieldsIn(x), 1) != [] && WindowsOf(x, 2) != [] && WindowsOf(x, 3) != []
    else WindowsOf(x, 1) != [] && WindowsOf(x, 2) != [] && WindowsOf(x, 3) != []
  }

  /** The lines of a transfer, exactly. */
  lemma {:induction false} TransferLines(v: Value)
    requires Deciding(Ran(ShowSend, v)).Some?
    ensures PromptsOf(Ran(ShowSend, v)) ==
            [Scroll("Transfer", Ascii("HASH"))] + Shown("From", TextAt(v, SEND_FROM)) + Shown("To", TextAt(v, SEND_TO))
            + [Deciding(Ran(ShowSend, v)).value]
  {
  }

  lemma {:induction false} ShowsFour(a: seq<Prompt>, b: seq<Prompt>, c: seq<Prompt>, d: seq<Prompt>, title: string)
    ensures Shows(a + b + c + d, title) <==> Shows(a, title) || Shows(b, title) || Shows(c, title) || Shows(d, title)
  {
    ShowsConcat(a + b + c, d, title);
    ShowsConcat(a + b, c, title);
    ShowsConcat(a, b, title);
  }

  lemma {:induction false} ShowsMaybe(title: string, body: Option<Bytes>, wanted: string)
    ensures Shows(Shown(title, body), wanted) <==> body.Some? && title == wanted
  {
    if body.Some? { ShowsOne(Scroll(title, body.value), wanted); }
  }

  lemma {:induction false} TransferShown(v: Value)
    requires Deciding(Ran(ShowSend, v)).Some?
    ensures var ps := PromptsOf(Ran(ShowSend, v));
            && Shows(ps, "Transfer") && Shows(ps, "Amount")
            && (Shows(ps, "From") <==> TextAt(v, SEND_FROM).Some?)
            && (Shows(ps, "To") <==> TextAt(v, SEND_TO).Some?)
  {
    var a, b, c, d := [Scroll("Transfer", Ascii("HASH"))], Shown("From", TextAt(v, SEND_FROM)),
                      Shown("To", TextAt(v, SEND_TO)), [Deciding(Ran(ShowSend, v)).value];
    TransferLines(v);
    DecidingTitle(Ran(ShowSend, v));
    ShowsFour(a, b, c, d, "Transfer");
    ShowsFour(a, b, c, d, "From");
    ShowsFour(a, b, c, d, "To");
    ShowsFour(a, b, c, d, "Amount");
    ShowsMaybe("From", TextAt(v, SEND_FROM), "From");
    ShowsMaybe("From", TextAt(v, SEND_FROM), "To");
    ShowsMaybe("To", TextAt(v, SEND_TO), "To");
    ShowsMaybe("To", TextAt(v, SEND_TO), "From");
    ShowsOne(a[0], "Transfer");
    ShowsOne(a[0], "From");
    ShowsOne(a[0], "To");
    ShowsOne(d[0], "Amount");
    ShowsOne(d[0], "From");
    ShowsOne(d[0], "To");
    assert |"Transfer"| == 8 && |"From"| == 4 && |"To"| == 2 && |"Amount"| == 6;
  }

  /** Closures that each show one line with the same title. */
  predicate Alike(es: seq<Event>, title: string) {
    forall k :: 0 <= k < |es| ==> Leading(es[k]) == [] && LastTitle(es[k]) == title
  }

  lemma {:induction false} AlikeShows(es: seq<Event>, title: string, wanted: string)
    requires Decided(es) && Alike(es, title)
    ensures |AllPrompts(es)| == |es|
    ensures Shows(AllPrompts(es), wanted) <==> es != [] && title == wanted
  {
    if es == [] {
    } else {
      var p := Deciding(es[0]).value;
      assert forall k :: 0 <= k < |es[1..]| ==> es[1..][k] == es[k + 1];
      AlikeShows(es[1..], title, wanted);
      DecidingTitle(es[0]);
      assert PromptsOf(es[0]) == [p];
      ShowsConcat([p], AllPrompts(es[1..]), wanted);
      ShowsOne(p, wanted);
    }
  }

  /** Three runs of like lines. */
  lemma {:induction false} ThreeShow(a: seq<Event>, b: seq<Event>, c: seq<Event>, t: string, u: string, wanted: string)
    requires Decided(a + (b + c)) && Alike(a, t) && Alike(b, u) && Alike(c, "Amount")
    ensures Shows(AllPrompts(a + (b + c)), wanted) <==>
            (a != [] && t == wanted) || (b != [] && u == wanted) || (c != [] && "Amount" == wanted)
  {
    DecidedParts(a, b + c);
    DecidedParts(b, c);
    AllPromptsConcat(a, b + c);
    AllPromptsConcat(b, c);
    ShowsConcat(AllPrompts(a), AllPrompts(b + c), wanted);
    ShowsConcat(AllPrompts(b), AllPrompts(c), wanted);
    AlikeShows(a, t, wanted);
    AlikeShows(b, u, wanted);
    AlikeShows(c, "Amount", wanted);
  }

  lemma {:induction false} AddressTitles()
    ensures "Delegator Address" != "Validator Address" && "Delegator Address" != "Amount"
    ensures "Validator Address" != "Amount" && "Depositor Address" != "Amount" && "Proposal ID" != "Depositor Address"
    ensures "Proposal ID" != "Amount"
    ensures "Delegate" != "Delegator Address" && "Delegate" != "Validator Address" && "Delegate" != "Amount"
    ensures "Undelegate" != "Delegator Address" && "Undelegate" != "Validator Address" && "Undelegate" != "Amount"
  {
    assert "Delegator Address"[0] == 'D' && "Validator Address"[0] == 'V';
    assert |"Delegator Address"| == 17 && |"Validator Address"| == 17 && |"Depositor Address"| == 17;
    assert |"Amount"| == 6 && |"Proposal ID"| == 11 && |"Delegate"| == 8 && |"Undelegate"| == 10;
  }

  lemma {:induction false} BondTitle(title: string, a: seq<Event>, b: seq<Event>, c: seq<Event>, wanted: string)
    requires Decided(a + (b + c)) && Alike(a, "Delegator Address") && Alike(b, "Validator Address")
    requires Alike(c, "Amount")
    ensures Shows(AllPrompts([Announced(title)]) + AllPrompts(a + (b + c)), wanted) <==>
            title == wanted || (a != [] && "Delegator Address" == wanted) || (b != [] && "Validator Address" == wanted)
            || (c != [] && "Amount" == wanted)
  {
    ShowsConcat(AllPrompts([Announced(title)]), AllPrompts(a + (b + c)), wanted);
    AlikeShows([Announced(title)], title, wanted);
    ThreeShow(a, b, c, "Delegator Address", "Validator Address", wanted);
  }

  lemma {:induction false} BondTitles(title: string, a: seq<Event>, b: seq<Event>, c: seq<Event>)
    requires title == "Delegate" || title == "Undelegate"
    requires Decided(a + (b + c)) && Alike(a, "Delegator Address") && Alike(b, "Validator Address")
    requires Alike(c, "Amount")
    ensures var ps := AllPrompts([Announced(title)]) + AllPrompts(a + (b + c));
            && Shows(ps, title) && (Shows(ps, "Delegator Address") <==> a != [])
            && (Shows(ps, "Validator Address") <==> b != []) && (Shows(ps, "Amount") <==> c != [])
  {
    AddressTitles();
    BondTitle(title, a, b, c, title);
    BondTitle(title, a, b, c, "Delegator Address");
    BondTitle(title, a, b, c, "Validator Address");
    BondTitle(title, a, b, c, "Amount");
  }

  /** The lines of a delegation: its title, and one for each address and each coin that is there. */
  lemma {:induction false} BondShown(lib: Library, title: string, x: Bytes)
    requires title == "Delegate" || title == "Undelegate"
    requires Decided(BondHanded(lib, title, x))
    ensures var ps := AllPrompts(BondHanded(lib, title, x));
            && Shows(ps, title)
            && (Shows(ps, "Delegator Address") <==> WindowsOf(x, 1) != [])
            && (Shows(ps, "Validator Address") <==> WindowsOf(x, 2) != [])
            && (Shows(ps, "Amount") <==> WindowsOf(x, 3) != [])
  {
    var a, b, c := Strings("Delegator Address", WindowsOf(x, 1)), Strings("Validator Address", WindowsOf(x, 2)),
                   Coins(lib, WindowsOf(x, 3));
    DecidedParts([Announced(title)], a + (b + c));
    AllPromptsConcat([Announced(title)], a + (b + c));
    BondTitles(title, a, b, c);
  }

  lemma {:induction false} DepositTitles(a: seq<Event>, b: seq<Event>, c: seq<Event>)
    requires Decided(a + (b + c)) && Alike(a, "Proposal ID") && Alike(b, "Depositor Address") && Alike(c, "Amount")
    ensures var ps := AllPrompts(a + (b + c));
            && (Shows(ps, "Proposal ID") <==> a != []) && (Shows(ps, "Depositor Address") <==> b != [])
            && (Shows(ps, "Amount") <==> c != [])
  {
    AddressTitles();
    ThreeShow(a, b, c, "Proposal ID", "Depositor Address", "Proposal ID");
    ThreeShow(a, b, c, "Proposal ID", "Depositor Address", "Depositor Address");
    ThreeShow(a, b, c, "Proposal ID", "Depositor Address", "Amount");
  }

  lemma {:induction false} DepositShown(lib: Library, x: Bytes)
    requires Decided(DepositHanded(lib, x))
    ensures var ps := AllPrompts(DepositHanded(lib, x));
            && (Shows(ps, "Proposal ID") <==> Counts(FieldsIn(x), 1) != [])
            && (Shows(ps, "Depositor Address") <==> WindowsOf(x, 2) != [])
            && (Shows(ps, "Amount") <==> WindowsOf(x, 3) != [])
  {
    var a, b, c := Proposals(Counts(FieldsIn(x), 1)), Strings("Depositor Address", WindowsOf(x, 2)),
                   Coins(lib, WindowsOf(x, 3));
    DepositTitles(a, b, c);
  }

  lemma {:induction false} AllWantedFour(ps: seq<Prompt>, a: string, b: string, c: string, d: string)
    ensures AllWanted(ps, [a, b, c, d]) <==> Shows(ps, a) && Shows(ps, b) && Shows(ps, c) && Shows(ps, d)
  {
    var t := [a, b, c, d];
    assert t[0] == a && t[1] == b && t[2] == c && t[3] == d;
  }

  lemma {:induction false} AllWantedThree(ps: seq<Prompt>, a: string, b: string, c: string)
    ensures AllWanted(ps, [a, b, c]) <==> Shows(ps, a) && Shows(ps, b) && Shows(ps, c)
  {
    var t := [a, b, c];
    assert t[0] == a && t[1] == b && t[2] == c;
  }

  lemma {:induction false} UrlsApart()
    ensures Ascii(SEND_URL) != Ascii(DELEGATE_URL) && Ascii(SEND_URL) != Ascii(UNDELEGATE_URL)
    ensures Ascii(SEND_URL) != Ascii(DEPOSIT_URL) && Ascii(DELEGATE_URL) != Ascii(UNDELEGATE_URL)
    ensures Ascii(DELEGATE_URL) != Ascii(DEPOSIT_URL) && Ascii(UNDELEGATE_URL) != Ascii(DEPOSIT_URL)
  {
    assert |SEND_URL| == 28 && |DELEGATE_URL| == 35 && |UNDELEGATE_URL| == 37 && |DEPOSIT_URL| == 25;
  }

  lemma {:induction false} SendShown(v: Value)
    requires Decided([Ran(ShowSend, v)])
    ensures AllPrompts([Ran(ShowSend, v)]) == PromptsOf(Ran(ShowSend, v))
    ensures var ps := PromptsOf(Ran(ShowSend, v));
            && Shows(ps, "Transfer") && Shows(ps, "Amount")
            && (Shows(ps, "From") <==> TextAt(v, SEND_FROM).Some?)
            && (Shows(ps, "To") <==> TextAt(v, SEND_TO).Some?)
  {
    assert [Ran(ShowSend, v)][0] == Ran(ShowSend, v);
    assert [Ran(ShowSend, v)][1..] == [];
    assert PromptsOf(Ran(ShowSend, v)) + [] == PromptsOf(Ran(ShowSend, v));
    TransferShown(v);
  }

  /** A value of a message that has passed shows all its lines if and only if its bytes have what they need. */
  lemma {:induction false} ValueShownExactly(lib: Library, url: Bytes, x: Bytes)
    requires Known(url) && Decided(ValueHanded(lib, url, x))
    ensures ValueShown(lib, url, x) <==> ValueComplete(lib, url, x)
  {
    UrlsApart();
    var ps := AllPrompts(ValueHanded(lib, url, x));
    if url == Ascii(SEND_URL) {
      var v := KeptIn(lib, SendFields(), x);
      SendShown(v);
      AllWantedFour(ps, "Transfer", "From", "To", "Amount");
    } else if url == Ascii(DELEGATE_URL) {
      BondShown(lib, "Delegate", x);
      AllWantedFour(ps, "Delegate", "Delegator Address", "Validator Address", "Amount");
    } else if url == Ascii(UNDELEGATE_URL) {
      BondShown(lib, "Undelegate", x);
      AllWantedFour(ps, "Undelegate", "Delegator Address", "Validator Address", "Amount");
    } else {
      DepositShown(lib, x);
      AllWantedThree(ps, "Proposal ID", "Depositor Address", "Amount");
    }
  }

  // ---------------------------------------------------------------- what a transfer keeps

  /** An address field that is not there is not kept; one that is there once is kept as it is. */
  lemma {:induction false} AddressKept(lib: Library, x: Bytes, number: nat)
    requires Accepts(lib, Message(SendFields()), x) && (number == SEND_FROM || number == SEND_TO)
    ensures WindowsOf(x, number) == [] ==> TextAt(KeptIn(lib, SendFields(), x), number) == None
    ensures |WindowsOf(x, number)| == 1 ==>
              TextAt(KeptIn(lib, SendFields(), x), number) == Text(WindowsOf(x, number)[0])
  {
    var fs, list := SendFields(), FieldsIn(x);
    SendKinds(number);
    DecodedRun(lib, Noting(), fs, x, map[], []);
    MessageFills(lib, fs, x);
    TakenAreChunks(lib, fs, number, Buffer(ADDRESS_CAP), list);
    NoPayloads(list, number);
    RunNumbers(lib, fs, list, map[], [], number);
    if |WindowsOf(x, number)| == 1 {
      var k := OnePayload(list, number);
      RunKeepsOnce(lib, fs, list, map[], [], k);
    }
  }

  // ---------------------------------------------------------------- whole transactions

  /** The message has all its lines, and so has each of its values. */
  predicate AnyShown(lib: Library, any: Bytes) {
    && AllWanted(AllPrompts(AnyHanded(lib, any)), Wanted(UrlAt(lib, any)))
    && forall x :: x in WindowsOf(any, ANY_VALUE) ==> ValueShown(lib, UrlAt(lib, any), x)
  }

  /** The message has a value, and its values are complete. */
  predicate AnyComplete(lib: Library, any: Bytes) {
    && WindowsOf(any, ANY_VALUE) != []
    && forall x :: x in WindowsOf(any, ANY_VALUE) ==> ValueComplete(lib, UrlAt(lib, any), x)
  }

  /** Every message window of every body. */
  ghost predicate EachMessage(w: Bytes, p: Bytes -> bool) {
    forall body, any :: body in WindowsOf(w, DOC_BODY) && any in WindowsOf(body, BODY_MESSAGES) ==> p(any)
  }

  /** A message with a URL. */
  predicate Named(lib: Library, any: Bytes) {
    Known(UrlAt(lib, any))
  }

  lemma {:induction false} DecidedHead(lib: Library, url: Bytes, xs: seq<Bytes>)
    requires Decided(ValuesHanded(lib, url, xs)) && xs != []
    ensures Decided(ValueHanded(lib, url, xs[0])) && Decided(ValuesHanded(lib, url, xs[1..]))
  {
    DecidedParts(ValueHanded(lib, url, xs[0]), ValuesHanded(lib, url, xs[1..]));
  }

  lemma {:induction false} DecidedValues(lib: Library, url: Bytes, xs: seq<Bytes>, k: nat)
    requires Decided(ValuesHanded(lib, url, xs)) && k < |xs|
    ensures Decided(ValueHanded(lib, url, xs[k]))
    decreases k
  {
    DecidedHead(lib, url, xs);
    if k == 0 {
      assert xs[k] == xs[0];
    } else {
      var rest := xs[1..];
      DecidedValues(lib, url, rest, k - 1);
      assert rest[k - 1] == xs[k];
    }
  }

  lemma {:induction false} DecidedAnys(lib: Library, ws: seq<Bytes>, k: nat)
    requires Decided(AnysHanded(lib, ws)) && k < |ws|
    ensures Decided(AnyHanded(lib, ws[k]))
  {
    DecidedParts(AnyHanded(lib, ws[0]), AnysHanded(lib, ws[1..]));
    if k == 0 {
    } else {
      DecidedAnys(lib, ws[1..], k - 1);
    }
  }

  lemma {:induction false} DecidedBody(lib: Library, list: seq<Wired>, body: Bytes)
    requires Decided(PartsHanded(lib, list)) && body in Payloads(list, DOC_BODY)
    ensures Decided(AnysHanded(lib, WindowsOf(body, BODY_MESSAGES)))
  {
    DecidedParts(PartHanded(lib, list[0]), PartsHanded(lib, list[1..]));
    PayloadsStep(list, DOC_BODY);
    if list[0].Chunk? && list[0].number == DOC_BODY && list[0].payload == body {
    } else {
      DecidedBody(lib, list[1..], body);
    }
  }

  /** What one value shows is among the lines of its message. */
  lemma {:induction false} ShownWithin(lib: Library, url: Bytes, xs: seq<Bytes>)
    requires xs != [] && ValueShown(lib, url, xs[0])
    ensures AllWanted(AllPrompts(ValuesHanded(lib, url, xs)), Wanted(url))
  {
    var first, rest := ValueHanded(lib, url, xs[0]), ValuesHanded(lib, url, xs[1..]);
    AllPromptsConcat(first, rest);
    forall k | 0 <= k < |Wanted(url)| ensures Shows(AllPrompts(first + rest), Wanted(url)[k]) {
      ShowsConcat(AllPrompts(first), AllPrompts(rest), Wanted(url)[k]);
    }
  }

  lemma {:induction false} NoneShown(url: Bytes)
    requires Known(url)
    ensures !AllWanted([], Wanted(url))
  {
    assert !Shows([], Wanted(url)[0]);
  }

  lemma {:induction false} AnyShownExactly(lib: Library, any: Bytes)
    requires Named(lib, any) && Decided(AnyHanded(lib, any))
    ensures AnyShown(lib, any) <==> AnyComplete(lib, any)
  {
    var xs := WindowsOf(any, ANY_VALUE);
    forall x | x in xs ensures ValueShown(lib, UrlAt(lib, any), x) <==> ValueComplete(lib, UrlAt(lib, any), x) {
      var k :| 0 <= k < |xs| && xs[k] == x;
      DecidedValues(lib, UrlAt(lib, any), xs, k);
      ValueShownExactly(lib, UrlAt(lib, any), x);
    }
    if xs == [] {
      NoneShown(UrlAt(lib, any));
    } else if AnyComplete(lib, any) {
      assert xs[0] in xs;
      ShownWithin(lib, UrlAt(lib, any), xs);
    }
  }

  /** In an accepted prompting pass over any bytes: a message with a known URL has all its lines on the screen if and
      only if its bytes are complete, and there is a line for the fee if and only if there is a fee. */
  lemma {:induction false} NothingMissing(lib: Library, user: User, w: Bytes)
    requires Eval(lib, Prompting(user), TxnParser(), w, |w|, []).Accept?
    ensures var o := Eval(lib, Prompting(user), TxnParser(), w, |w|, []);
            o.st == AllPrompts(TxnHanded(lib, w)) && (Shows(o.st, "Fee") <==> HasFee(w))
    ensures EachMessage(w, any => Named(lib, any) ==> (AnyShown(lib, any) <==> AnyComplete(lib, any)))
  {
    var es := TxnHanded(lib, w);
    TranscriptConserved(lib, user, w, []);
    assert [] + AllPrompts(es) == AllPrompts(es);
    PassedIsDecided(user, [], es);
    PartsFromTree(lib, FieldsIn(w));
    FeeOf(es);
    FeeHanded(lib, FieldsIn(w));
    forall body, any | body in WindowsOf(w, DOC_BODY) && any in WindowsOf(body, BODY_MESSAGES)
      ensures Named(lib, any) ==> (AnyShown(lib, any) <==> AnyComplete(lib, any))
    {
      DecidedBody(lib, FieldsIn(w), body);
      var ws := WindowsOf(body, BODY_MESSAGES);
      var k :| 0 <= k < |ws| && ws[k] == any;
      DecidedAnys(lib, ws, k);
      if Named(lib, any) { AnyShownExactly(lib, any); }
    }
  }

  // ---------------------------------------------------------------- ordered messages with fields missing

  predicate SomeSingular(parts: Fields) {
    match parts
    case NoFields => false
    case Field(_, repeated, _, rest) => !repeated || SomeSingular(rest)
  }

  /** An ordered message with nothing in it is refused only by a strict library, and hands nothing over. */
  lemma {:induction false} EmptyPasses(lib: Library, parts: Fields, past: seq<Event>)
    ensures EvalPasses(lib, Noting(), parts, [], 0, past) ==
            if lib.strict && SomeSingular(parts) then Reject(past) else Accept(Unit, past)
  {
    match parts
    case NoFields =>
    case Field(number, repeated, kind, rest) => EmptyPasses(lib, rest, past);
  }

  /** So a delegation without any field is accepted exactly by a library that is not strict. All it shows is its
      title: no address and no amount. A deposit like that shows nothing. */
  lemma {:induction false} EmptyValue(lib: Library, title: string)
    ensures var bond := Preaction(Announce(title), Ordered(StakingFields()));
            && (Accepts(lib, bond, []) <==> !lib.strict)
            && (Accepts(lib, bond, []) ==> Noted(lib, bond, [], 0).st == [Announced(title)])
    ensures (Accepts(lib, DepositInterp(), []) <==> !lib.strict)
    ensures Accepts(lib, DepositInterp(), []) ==> Noted(lib, DepositInterp(), [], 0).st == []
  {
    var bond, w: Bytes := Preaction(Announce(title), Ordered(StakingFields())), [];
    assert [] + [Announced(title)] == [Announced(title)];
    assert Eval(lib, Noting(), bond, w, 0, []) == EvalPasses(lib, Noting(), StakingFields(), w, 0, [Announced(title)]);
    EmptyPasses(lib, StakingFields(), [Announced(title)]);
    EmptyPasses(lib, DepositFields(), []);
  }

  lemma {:induction false} PartPresent(lib: Library, number: nat, repeated: bool, i: Interp, list: seq<Wired>)
    requires forall k :: 0 <= k < |list| ==> Takes(lib, Single(number, repeated, Delimited(i)), list[k])
    requires exists f :: f in list && f.number == number
    ensures Payloads(list, number) != []
  {
    TakenAreChunks(lib, Single(number, repeated, Delimited(i)), number, i, list);
    NoPayloads(list, number);
    var f :| f in list && f.number == number;
    var k :| 0 <= k < |list| && list[k] == f;
  }

  lemma {:induction false} CountPresent(lib: Library, number: nat, sc: Scalar, list: seq<Wired>)
    requires forall k :: 0 <= k < |list| ==> Takes(lib, Single(number, false, Varying(sc)), list[k])
    requires exists f :: f in list && f.number == number
    ensures Counts(list, number) != []
  {
    var f :| f in list && f.number == number;
    if list[0] == f {
      assert Takes(lib, Single(number, false, Varying(sc)), list[0]);
    } else {
      assert forall k :: 0 <= k < |list[1..]| ==> list[1..][k] == list[k + 1];
      assert f in list[1..];
      CountPresent(lib, number, sc, list[1..]);
    }
  }

  /** Under a strict library an accepted delegation has all its lines. */
  lemma {:induction false} StrictBond(lib: Library, title: string, x: Bytes)
    requires lib.strict && Accepts(lib, Preaction(Announce(title), Ordered(StakingFields())), x)
    ensures WindowsOf(x, 1) != [] && WindowsOf(x, 2) != [] && WindowsOf(x, 3) != []
  {
    var list, last := FieldsIn(x), Single(3, false, Delimited(ShowCoinInterp()));
    var two := Field(2, false, Delimited(ShowStr("Validator Address")), last);
    assert StakingFields() == Field(1, false, Delimited(ShowStr("Delegator Address")), two);
    PastFree(lib, Ordered(StakingFields()), x, [] + [Announced(title)]);
    OrderedFills(lib, StakingFields(), x);
    assert PartsTake(lib, two, list) && PartsTake(lib, last, list);
    PartPresent(lib, 1, false, ShowStr("Delegator Address"), list);
    PartPresent(lib, 2, false, ShowStr("Validator Address"), list);
    PartPresent(lib, 3, false, ShowCoinInterp(), list);
  }

  /** A deposit may still lack the amount, which is repeated in its schema. */
  lemma {:induction false} StrictDeposit(lib: Library, x: Bytes)
    requires lib.strict && Accepts(lib, DepositInterp(), x)
    ensures Counts(FieldsIn(x), 1) != [] && WindowsOf(x, 2) != []
  {
    var list, last := FieldsIn(x), Single(3, true, Delimited(ShowCoinInterp()));
    var two := Field(2, false, Delimited(ShowStr("Depositor Address")), last);
    assert DepositFields() == Field(1, false, Varying(NumberAction(ShowProposalId)), two);
    OrderedFills(lib, DepositFields(), x);
    assert PartsTake(lib, two, list);
    CountPresent(lib, 1, NumberAction(ShowProposalId), list);
    PartPresent(lib, 2, false, ShowStr("Depositor Address"), list);
  }

  // ---------------------------------------------------------------- two transactions that pass and lack lines

  /** A transfer without a recipient field. */
  function NoRecipient(a: Bytes, c: Coin): seq<Wired> {
    [Chunk(SEND_FROM, a), Chunk(SEND_AMOUNT, Encode(CoinWire(c)))]
  }

  function SenderOnly(a: Bytes, c: Coin): Value {
    Record(map[SEND_FROM := Raw(a), SEND_AMOUNT := CoinValue(c)])
  }

  lemma {:induction false} SenderOnlyLines(a: Bytes, c: Coin)
    requires ValidUtf8(a) && HashAmount(Some(CoinValue(c))).Some?
    ensures var e := Ran(ShowSend, SenderOnly(a, c));
            && Deciding(e).Some?
            && PromptsOf(e) == [Scroll("Transfer", Ascii("HASH")), Scroll("From", a), Scroll("Amount", AmountText(c))]
  {
    var v := SenderOnly(a, c);
    AmountShown("Amount", c);
    assert RecordAt(v, SEND_AMOUNT) == Some(CoinValue(c));
    assert TextAt(v, SEND_FROM) == Some(a) && TextAt(v, SEND_TO) == None;
    CoinLine("Amount", c);
    assert Deciding(Ran(ShowSend, v)) == Some(Scroll("Amount", AmountText(c)));
    TransferLines(v);
  }

  lemma {:induction false} SenderOnlyWhole(a: Bytes, c: Coin)
    requires AllSized(NoRecipient(a, c))
    ensures var w := Encode(NoRecipient(a, c));
            Filled(w) && Shuffled(Kept(SendFields(), FieldsIn(w)), NoRecipient(a, c))
  {
    SendKinds(SEND_FROM);
    SendKinds(SEND_AMOUNT);
    EncodedWhole(SendFields(), NoRecipient(a, c));
  }

  lemma {:induction false} SenderOnlyReads(lib: Library, w: Bytes, a: Bytes, coin: Bytes, c: Coin)
    requires Filled(w) && |a| <= ADDRESS_CAP && CoinFits(c)
    requires Shuffled(Kept(SendFields(), FieldsIn(w)), [Chunk(SEND_FROM, a), Chunk(SEND_AMOUNT, coin)])
    requires Eval(lib, Noting(), Message(CoinFields()), coin, |coin|, []) == Plainly(CoinKept(c), [])
    ensures Noted(lib, Message(SendFields()), w, |w|) == Accept(SenderOnly(a, c), [])
  {
    SendKinds(SEND_FROM);
    SendKinds(SEND_AMOUNT);
    TwoFieldMessage(lib, Noting(), SendFields(), w, Chunk(SEND_FROM, a), Chunk(SEND_AMOUNT, coin), Some(Raw(a)),
                    Some(CoinValue(c)), []);
  }

  lemma {:induction false} NoRecipientKept(lib: Library, a: Bytes, c: Coin)
    requires AllSized(NoRecipient(a, c)) && AllSized(CoinWire(c)) && |a| <= ADDRESS_CAP && CoinFits(c)
    ensures var w := Encode(NoRecipient(a, c));
            Noted(lib, Message(SendFields()), w, |w|) == Accept(SenderOnly(a, c), [])
  {
    var list, coin := NoRecipient(a, c), Encode(CoinWire(c));
    CoinLays(c);
    CoinReads(lib, Noting(), coin, c, []);
    SenderOnlyWhole(a, c);
    SenderOnlyReads(lib, Encode(list), a, coin, c);
  }

  /** It is accepted by every library and shows no line for the recipient, whoever accepts its lines. */
  lemma {:induction false} RecipientAbsent(lib: Library, a: Bytes, c: Coin)
    requires AllSized(NoRecipient(a, c)) && AllSized(CoinWire(c))
    requires |a| <= ADDRESS_CAP && ValidUtf8(a) && CoinFits(c) && HashAmount(Some(CoinValue(c))).Some?
    ensures var w := Encode(NoRecipient(a, c));
            && Accepts(lib, SendInterp(), w)
            && Noted(lib, SendInterp(), w, |w|).st == [Ran(ShowSend, KeptIn(lib, SendFields(), w))]
            && PromptsOf(Ran(ShowSend, KeptIn(lib, SendFields(), w))) ==
               [Scroll("Transfer", Ascii("HASH")), Scroll("From", a), Scroll("Amount", AmountText(c))]
            && Decided([Ran(ShowSend, KeptIn(lib, SendFields(), w))])
  {
    var w := Encode(NoRecipient(a, c));
    NoRecipientKept(lib, a, c);
    assert Noted(lib, SendInterp(), w, |w|) == Hand(Noting(), Ran(ShowSend, SenderOnly(a, c)), []);
    SendHands(lib, w);
    SenderOnlyLines(a, c);
  }

  /** A document without auth info is recognised, and there is no line for a fee, be its addresses ever so readable. */
  lemma {:induction false} FeeAbsent(lib: Library, user: User, body: Bytes, ls: seq<MsgLayout>, ms: seq<Msg>)
    requires AllSized([Chunk(DOC_BODY, body)]) && Filled(body)
    requires Kept(BodyFields(), FieldsIn(body)) == MessageChunks(ls) && MsgsLay(ls, ms) && MsgsFit(ms)
    ensures var w := Encode([Chunk(DOC_BODY, body)]);
            && Accepts(lib, TxnParser(), w) && Noted(lib, TxnParser(), w, |w|).st == AllEvents(ms)
            && !HasFee(w)
    ensures var w := Encode([Chunk(DOC_BODY, body)]);
            var o := Eval(lib, Prompting(user), TxnParser(), w, |w|, []);
            o.Accept? ==> !Shows(o.st, "Fee")
  {
    var list := [Chunk(DOC_BODY, body)];
    var w := Encode(list);
    FieldsOfEncoding(list);
    BodyReads(lib, body, ls, ms, []);
    DecodedRun(lib, Noting(), DocFields(), w, map[], []);
    DocKinds(DOC_BODY);
    OneField(lib, Noting(), DocFields(), Delimited(Message(BodyFields())), list[0], map[], []);
    assert [] + AllEvents(ms) == AllEvents(ms);
    assert list[1..] == [] && Payloads(list, DOC_AUTH) == [] + Payloads(list[1..], DOC_AUTH);
    if Eval(lib, Prompting(user), TxnParser(), w, |w|, []).Accept? { NothingMissing(lib, user, w); }
  }
}
