// What accepted bytes hand to the closures of the transaction parser, told from the windows of the bytes alone.

module Handed {
  import opened Octets
  import opened Interp
  import opened Runs
  import opened Messages
  import opened Windows
  import opened Screen
  import opened Transaction

  // ---------------------------------------------------------------- acceptance, and events without a past

  /** The bytes alone decide that the interpreter accepts them. */
  predicate Accepts(lib: Library, i: Interp, w: Bytes) {
    Noted(lib, i, w, |w|).Accept?
  }

  /** Whatever the closures do, only such bytes are accepted. */
  lemma {:induction false} AcceptedByBytes<S>(lib: Library, on: (Event, S) -> (bool, S), i: Interp, w: Bytes, s: S)
    requires Eval(lib, on, i, w, |w|, s).Accept?
    ensures Accepts(lib, i, w)
  {
    EvalAgrees(lib, on, i, w, |w|, s, []);
  }

  /** A noted run behind other events. */
  function Behind(past: seq<Event>, o: Out<seq<Event>>): Out<seq<Event>> {
    match o
    case Accept(v, es) => Accept(v, past + es)
    case Reject(es) => Reject(past + es)
    case Starved(es) => Starved(past + es)
  }

  lemma {:induction false} ReplayNotes(es: seq<Event>, past: seq<Event>)
    ensures Replay(Noting(), es, past) == (true, past + es)
  {
    if es == [] {
      assert past + es == past;
    } else {
      ReplayNotes(es[1..], past + [es[0]]);
      assert past + [es[0]] + es[1..] == past + es;
    }
  }

  /** What came before makes no difference to what a run notes. */
  lemma {:induction false} PastFree(lib: Library, i: Interp, w: Bytes, past: seq<Event>)
    ensures Eval(lib, Noting(), i, w, |w|, past) == Behind(past, Noted(lib, i, w, |w|))
  {
    EvalAgrees(lib, Noting(), i, w, |w|, past, []);
    var p := Noted(lib, i, w, |w|);
    assert p.st[0..] == p.st;
    ReplayNotes(p.st, past);
  }

  /** One field seen alone. */
  function Singly(lib: Library, kind: Kind, f: Wired): Out<seq<Event>> {
    RunOne(lib, Noting(), kind, f, [])
  }

  lemma {:induction false} OnePastFree(lib: Library, kind: Kind, f: Wired, past: seq<Event>)
    ensures RunOne(lib, Noting(), kind, f, past) == Behind(past, Singly(lib, kind, f))
  {
    assert past + [] == past;
    match kind
    case Delimited(i) => if f.Chunk? { PastFree(lib, i, f.payload, past); }
    case Varying(sc) =>
      if f.Count? && sc.NumberAction? { assert [] + [Ran(sc.act, Num(f.n))] == [Ran(sc.act, Num(f.n))]; }
  }

  // ---------------------------------------------------------------- the fields of one message

  function OneHanded(lib: Library, fs: Fields, f: Wired): seq<Event> {
    match Lookup(fs, f.number)
    case None => []
    case Some(kind) => Singly(lib, kind, f).st
  }

  /** What the fields hand over, one after the other. */
  function ListHanded(lib: Library, fs: Fields, list: seq<Wired>): seq<Event> {
    if list == [] then [] else OneHanded(lib, fs, list[0]) + ListHanded(lib, fs, list[1..])
  }

  /** The interpreter for the field, if there is one, accepts it. */
  predicate Takes(lib: Library, fs: Fields, f: Wired) {
    Lookup(fs, f.number).Some? ==> Singly(lib, Lookup(fs, f.number).value, f).Accept?
  }

  predicate Carries(fs: Fields, list: seq<Wired>, number: nat) {
    Lookup(fs, number).Some? && exists f :: f in list && f.number == number
  }

  /** The value of a field that is kept once is its own. */
  predicate KeptAlone(lib: Library, fs: Fields, list: seq<Wired>, rec: map<nat, Value>, k: nat)
    requires k < |list|
  {
    var f := list[k];
    Lookup(fs, f.number).Some? && OnceAt(list, f, k) ==>
      var o := Singly(lib, Lookup(fs, f.number).value, f);
      o.Accept? && f.number in rec && rec[f.number] == o.value
  }

  /** An accepted fold hands over what its fields do, takes all of them, and keeps what it knows. */
  lemma {:induction false} RunHands(lib: Library, fs: Fields, list: seq<Wired>, rec: map<nat, Value>, past: seq<Event>)
    requires RunFields(lib, Noting(), fs, list, rec, past).Accept?
    ensures var o := RunFields(lib, Noting(), fs, list, rec, past);
            && o.st == past + ListHanded(lib, fs, list)
            && (forall k :: 0 <= k < |list| ==> Takes(lib, fs, list[k]))
    decreases |list|
  {
    if list == [] {
      assert past + [] == past;
    } else {
      var f := list[0];
      match Lookup(fs, f.number)
      case None =>
        RunHands(lib, fs, list[1..], rec, past);
        assert [] + ListHanded(lib, fs, list[1..]) == ListHanded(lib, fs, list[1..]);
      case Some(kind) =>
        OnePastFree(lib, kind, f, past);
        var o := RunOne(lib, Noting(), kind, f, past);
        RunHands(lib, fs, list[1..], Store(lib, rec, f.number, o.value).value, o.st);
        Associate(past, OneHanded(lib, fs, f), ListHanded(lib, fs, list[1..]));
    }
  }

  /** Which numbers the record of an accepted fold has. */
  lemma {:induction false} RunNumbers(lib: Library, fs: Fields, list: seq<Wired>, rec: map<nat, Value>,
                                      past: seq<Event>, number: nat)
    requires RunFields(lib, Noting(), fs, list, rec, past).Accept?
    ensures number in RunFields(lib, Noting(), fs, list, rec, past).value.fields <==>
            number in rec || Carries(fs, list, number)
    decreases |list|
  {
    if list == [] {
    } else {
      var f := list[0];
      assert Carries(fs, list, number) <==>
             (f.number == number && Lookup(fs, number).Some?) || Carries(fs, list[1..], number) by {
        assert list == [f] + list[1..];
      }
      match Lookup(fs, f.number)
      case None => RunNumbers(lib, fs, list[1..], rec, past, number);
      case Some(kind) =>
        var o := RunOne(lib, Noting(), kind, f, past);
        RunNumbers(lib, fs, list[1..], Store(lib, rec, f.number, o.value).value, o.st, number);
    }
  }

  lemma {:induction false} Untouched(lib: Library, fs: Fields, list: seq<Wired>, rec: map<nat, Value>,
                                     past: seq<Event>, number: nat)
    requires RunFields(lib, Noting(), fs, list, rec, past).Accept? && number in rec
    requires forall j :: 0 <= j < |list| ==> list[j].number != number
    ensures var rec' := RunFields(lib, Noting(), fs, list, rec, past).value.fields;
            number in rec' && rec'[number] == rec[number]
    decreases |list|
  {
    if list == [] {
    } else {
      match Lookup(fs, list[0].number)
      case None => Untouched(lib, fs, list[1..], rec, past, number);
      case Some(kind) =>
        var o := RunOne(lib, Noting(), kind, list[0], past);
        Untouched(lib, fs, list[1..], Store(lib, rec, list[0].number, o.value).value, o.st, number);
    }
  }

  /** A field that occurs once is kept as it is. */
  lemma {:induction false} RunKeepsOnce(lib: Library, fs: Fields, list: seq<Wired>, rec: map<nat, Value>,
                                        past: seq<Event>, k: nat)
    requires RunFields(lib, Noting(), fs, list, rec, past).Accept?
    requires k < |list| && OnceAt(list, list[k], k) && Lookup(fs, list[k].number).Some? && list[k].number !in rec
    ensures var rec' := RunFields(lib, Noting(), fs, list, rec, past).value.fields;
            KeptAlone(lib, fs, list, rec', k)
    decreases |list|
  {
    var f := list[0];
    match Lookup(fs, f.number)
    case None => RunKeepsOnce(lib, fs, list[1..], rec, past, k - 1);
    case Some(kind) =>
      OnePastFree(lib, kind, f, past);
      var o := RunOne(lib, Noting(), kind, f, past);
      var rec1 := Store(lib, rec, f.number, o.value).value;
      if k == 0 {
        Untouched(lib, fs, list[1..], rec1, o.st, f.number);
      } else {
        RunKeepsOnce(lib, fs, list[1..], rec1, o.st, k - 1);
      }
  }

  // ---------------------------------------------------------------- whole interpreters

  /** An accepted message is whole fields to the end, each taken by its own interpreter, and hands over what they do. */
  lemma {:induction false} MessageFills(lib: Library, fs: Fields, w: Bytes)
    requires Accepts(lib, Message(fs), w)
    ensures Filled(w) && forall k :: 0 <= k < |FieldsIn(w)| ==> Takes(lib, fs, FieldsIn(w)[k])
    ensures Noted(lib, Message(fs), w, |w|).st == ListHanded(lib, fs, FieldsIn(w))
  {
    DecodedRun(lib, Noting(), fs, w, map[], []);
    RunHands(lib, fs, FieldsIn(w), map[], []);
    assert [] + ListHanded(lib, fs, FieldsIn(w)) == ListHanded(lib, fs, FieldsIn(w));
  }

  /** What the passes of an ordered message hand over. */
  function PassesHanded(lib: Library, parts: Fields, list: seq<Wired>): seq<Event> {
    match parts
    case NoFields => []
    case Field(number, repeated, kind, rest) =>
      ListHanded(lib, Single(number, repeated, kind), list) + PassesHanded(lib, rest, list)
  }

  /** Each part takes every field of its number; if the library is strict, a singular one has a field. */
  predicate PartsTake(lib: Library, parts: Fields, list: seq<Wired>) {
    match parts
    case NoFields => true
    case Field(number, repeated, kind, rest) =>
      && (forall k :: 0 <= k < |list| ==> Takes(lib, Single(number, repeated, kind), list[k]))
      && (lib.strict && !repeated ==> exists f :: f in list && f.number == number)
      && PartsTake(lib, rest, list)
  }

  lemma {:induction false} PassesFill(lib: Library, parts: Fields, w: Bytes, past: seq<Event>)
    requires EvalPasses(lib, Noting(), parts, w, |w|, past).Accept?
    ensures parts.Field? ==> Filled(w)
    ensures PartsTake(lib, parts, FieldsIn(w))
    ensures EvalPasses(lib, Noting(), parts, w, |w|, past).st == past + PassesHanded(lib, parts, FieldsIn(w))
  {
    match parts
    case NoFields => assert past + [] == past;
    case Field(number, repeated, kind, rest) =>
      var fs, list := Single(number, repeated, kind), FieldsIn(w);
      DecodedRun(lib, Noting(), fs, w, map[], past);
      RunHands(lib, fs, list, map[], past);
      RunNumbers(lib, fs, list, map[], past, number);
      var o := EvalFields(lib, Noting(), fs, w, |w|, map[], past);
      PassesFill(lib, rest, w, o.st);
      Associate(past, ListHanded(lib, fs, list), PassesHanded(lib, rest, list));
  }

  /** An accepted ordered message is whole fields too, each taken by the interpreter of its part. */
  lemma {:induction false} OrderedFills(lib: Library, parts: Fields, w: Bytes)
    requires parts.Field? && Accepts(lib, Ordered(parts), w)
    ensures Filled(w) && PartsTake(lib, parts, FieldsIn(w))
    ensures Noted(lib, Ordered(parts), w, |w|).st == PassesHanded(lib, parts, FieldsIn(w))
  {
    PassesFill(lib, parts, w, []);
    assert [] + PassesHanded(lib, parts, FieldsIn(w)) == PassesHanded(lib, parts, FieldsIn(w));
  }

  /** The events of some windows, one window after the other. */
  function EventsOf(lib: Library, i: Interp, ws: seq<Bytes>): seq<Event> {
    if ws == [] then [] else Noted(lib, i, ws[0], |ws[0]|).st + EventsOf(lib, i, ws[1..])
  }

  predicate AcceptsAll(lib: Library, i: Interp, ws: seq<Bytes>) {
    forall k :: 0 <= k < |ws| ==> Accepts(lib, i, ws[k])
  }

  lemma {:induction false} EventsCons(lib: Library, i: Interp, p: Bytes, ws: seq<Bytes>)
    ensures EventsOf(lib, i, [p] + ws) == Noted(lib, i, p, |p|).st + EventsOf(lib, i, ws)
  {
    assert ([p] + ws)[1..] == ws;
  }

  lemma {:induction false} PayloadsStep(list: seq<Wired>, number: nat)
    requires list != []
    ensures Payloads(list, number) ==
            if list[0].Chunk? && list[0].number == number then [list[0].payload] + Payloads(list[1..], number)
            else Payloads(list[1..], number)
  {
  }

  /** A pass hands over what its windows do. */
  lemma {:induction false} WindowsHand(lib: Library, number: nat, repeated: bool, i: Interp, list: seq<Wired>)
    ensures ListHanded(lib, Single(number, repeated, Delimited(i)), list) == EventsOf(lib, i, Payloads(list, number))
  {
    if list == [] {
    } else {
      var f, ws := list[0], Payloads(list[1..], number);
      WindowsHand(lib, number, repeated, i, list[1..]);
      PayloadsStep(list, number);
      if f.Chunk? && f.number == number {
        EventsCons(lib, i, f.payload, ws);
      } else {
        assert OneHanded(lib, Single(number, repeated, Delimited(i)), f) == [];
      }
    }
  }

  /** The windows an interpreter has taken are accepted by it. */
  lemma {:induction false} WindowsTaken(lib: Library, fs: Fields, number: nat, i: Interp, list: seq<Wired>)
    requires Lookup(fs, number) == Some(Delimited(i)) && forall k :: 0 <= k < |list| ==> Takes(lib, fs, list[k])
    ensures AcceptsAll(lib, i, Payloads(list, number))
  {
    if list == [] {
    } else {
      assert forall k :: 0 <= k < |list[1..]| ==> list[1..][k] == list[k + 1];
      WindowsTaken(lib, fs, number, i, list[1..]);
      PayloadsStep(list, number);
      assert Takes(lib, fs, list[0]);
    }
  }

  /** A message in which only one number has an interpreter that hands anything over. */
  ghost predicate OnlyHere(fs: Fields, number: nat, i: Interp) {
    && Lookup(fs, number) == Some(Delimited(i))
    && forall m: nat :: m != number && Lookup(fs, m).Some? ==> Droppable(Lookup(fs, m).value)
  }

  lemma {:induction false} OnlyWindowsHand(lib: Library, fs: Fields, number: nat, i: Interp, list: seq<Wired>)
    requires OnlyHere(fs, number, i) && forall k :: 0 <= k < |list| ==> Takes(lib, fs, list[k])
    ensures ListHanded(lib, fs, list) == EventsOf(lib, i, Payloads(list, number))
  {
    if list == [] {
    } else {
      assert forall k :: 0 <= k < |list[1..]| ==> list[1..][k] == list[k + 1];
      OnlyWindowsHand(lib, fs, number, i, list[1..]);
      var f, ws := list[0], Payloads(list[1..], number);
      PayloadsStep(list, number);
      assert Takes(lib, fs, f);
      if f.number == number {
        EventsCons(lib, i, f.payload, ws);
      } else {
        assert OneHanded(lib, fs, f) == [];
      }
    }
  }

  // ---------------------------------------------------------------- dispatch by type URL

  /** The type URL the app finds in the bytes of an Any. */
  function UrlAt(lib: Library, w: Bytes): Bytes {
    var o := UrlScan(lib, w);
    if o.Accept? then UrlIn(o.value.fields) else []
  }

  /** All fields of this number are length-delimited. */
  predicate ChunksOnly(list: seq<Wired>, number: nat) {
    forall k :: 0 <= k < |list| && list[k].number == number ==> list[k].Chunk?
  }

  lemma {:induction false} TakenAreChunks(lib: Library, fs: Fields, number: nat, i: Interp, list: seq<Wired>)
    requires Lookup(fs, number) == Some(Delimited(i)) && forall k :: 0 <= k < |list| ==> Takes(lib, fs, list[k])
    ensures ChunksOnly(list, number)
  {
    forall k | 0 <= k < |list| && list[k].number == number ensures list[k].Chunk? {
      assert Takes(lib, fs, list[k]);
    }
  }

  lemma {:induction false} NoPayloads(list: seq<Wired>, number: nat)
    requires ChunksOnly(list, number)
    ensures Payloads(list, number) == [] <==> forall k :: 0 <= k < |list| ==> list[k].number != number
  {
    if list == [] {
    } else {
      assert forall k :: 0 <= k < |list[1..]| ==> list[1..][k] == list[k + 1];
      NoPayloads(list[1..], number);
      PayloadsStep(list, number);
      if forall k :: 0 <= k < |list[1..]| ==> list[1..][k].number != number {
        assert forall k :: 0 < k < |list| ==> list[k] == list[1..][k - 1];
      }
    }
  }

  lemma {:induction false} OnePayload(list: seq<Wired>, number: nat) returns (k: nat)
    requires ChunksOnly(list, number) && |Payloads(list, number)| == 1
    ensures OnceAt(list, Chunk(number, Payloads(list, number)[0]), k)
  {
    var rest := list[1..];
    assert forall k :: 0 <= k < |rest| ==> rest[k] == list[k + 1];
    PayloadsStep(list, number);
    if list[0].number == number {
      NoPayloads(rest, number);
      k := 0;
      assert forall j :: 0 < j < |list| ==> list[j] == rest[j - 1];
    } else {
      var j := OnePayload(rest, number);
      k := j + 1;
      assert forall m :: 0 < m < |list| ==> list[m] == rest[m - 1];
    }
  }

  /** The search for the URL reads the whole Any. A URL that is there once is found as it is. */
  lemma {:induction false} UrlFills(lib: Library, w: Bytes)
    requires UrlScan(lib, w).Accept?
    ensures Filled(w) && UrlScan(lib, w).st == [] && ChunksOnly(FieldsIn(w), TYPE_URL)
    ensures WindowsOf(w, TYPE_URL) == [] ==> UrlAt(lib, w) == [] && NamesNothing(lib, w)
    ensures |WindowsOf(w, TYPE_URL)| == 1 ==> UrlAt(lib, w) == WindowsOf(w, TYPE_URL)[0]
  {
    var fs, list := UrlOnly(|w|), FieldsIn(w);
    DecodedRun(lib, Noting(), fs, w, map[], []);
    RunHands(lib, fs, list, map[], []);
    ScanQuiet(lib, |w|, w, map[], []);
    RunNumbers(lib, fs, list, map[], [], TYPE_URL);
    TakenAreChunks(lib, fs, TYPE_URL, Buffer(|w|), list);
    NoPayloads(list, TYPE_URL);
    if |WindowsOf(w, TYPE_URL)| == 1 {
      var k := OnePayload(list, TYPE_URL);
      RunKeepsOnce(lib, fs, list, map[], [], k);
    }
  }

  lemma {:induction false} DropsHand(lib: Library, ws: seq<Bytes>)
    ensures EventsOf(lib, Drop, ws) == []
  {
    if ws == [] {
    } else {
      DropsHand(lib, ws[1..]);
    }
  }

  lemma {:induction false} ArmFills(lib: Library, arm: Interp, w: Bytes)
    requires EvalPasses(lib, Noting(), AnyWith(arm), w, |w|, []).Accept?
    ensures AcceptsAll(lib, arm, WindowsOf(w, ANY_VALUE))
    ensures EvalPasses(lib, Noting(), AnyWith(arm), w, |w|, []).st == EventsOf(lib, arm, WindowsOf(w, ANY_VALUE))
  {
    var list := FieldsIn(w);
    PassesFill(lib, AnyWith(arm), w, []);
    var value := Single(ANY_VALUE, false, Delimited(arm));
    assert AnyWith(arm) == Field(TYPE_URL, false, Delimited(Drop), value);
    assert PartsTake(lib, value, list);
    WindowsTaken(lib, value, ANY_VALUE, arm, list);
    WindowsHand(lib, ANY_VALUE, false, arm, list);
    WindowsHand(lib, TYPE_URL, false, Drop, list);
    DropsHand(lib, Payloads(list, TYPE_URL));
    var es := EventsOf(lib, arm, WindowsOf(w, ANY_VALUE));
    assert PassesHanded(lib, value, list) == es + [];
    assert PassesHanded(lib, AnyWith(arm), list) == [] + (es + []);
    assert [] + ([] + (es + [])) == es;
  }

  /** An accepted Any is whole fields. The interpreter its URL selects accepts every value window, and these hand over
      all there is. Without an arm for the URL there is nothing. */
  lemma {:induction false} AnyFills(lib: Library, arms: Arms, other: Interp, w: Bytes)
    requires Accepts(lib, AnyOf(arms, other), w)
    ensures Filled(w) && UrlScan(lib, w).Accept?
    ensures var o := Noted(lib, AnyOf(arms, other), w, |w|);
            match FindArm(arms, UrlAt(lib, w))
            case Some(arm) =>
              AcceptsAll(lib, arm, WindowsOf(w, ANY_VALUE)) && o.st == EventsOf(lib, arm, WindowsOf(w, ANY_VALUE))
            case None => Accepts(lib, other, w) && o.st == Noted(lib, other, w, |w|).st
  {
    UrlFills(lib, w);
    match FindArm(arms, UrlAt(lib, w))
    case Some(arm) => ArmFills(lib, arm, w);
    case None =>
  }
}
