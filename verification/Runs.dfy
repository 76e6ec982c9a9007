// What holds of every interpreter tree: its verdict does not depend on how much has arrived beyond the bytes
// it needed, and a run with any handler is the handler replaying the events of the silent run.

module Runs {
  import opened Octets
  import opened Wire
  import opened Interp

  // ---------------------------------------------------------------- arrival

  /** Once decided, the verdict stays the same when more of the window arrives. */
  lemma {:induction false} EvalStable<S>(lib: Library, on: (Event, S) -> (bool, S), i: Interp, w: Bytes, w': Bytes,
                                         n: nat, s: S)
    requires w <= w' && |w'| <= n && !Eval(lib, on, i, w, n, s).Starved?
    ensures Eval(lib, on, i, w', n, s) == Eval(lib, on, i, w, n, s)
    decreases Size(i), n
  {
    match i
    case Drop =>
    case Buffer(cap) =>
      if n <= cap { assert w == w'; }
    case Message(fs) => FieldsStable(lib, on, fs, w, w', n, map[], s);
    case Ordered(parts) => PassesStable(lib, on, parts, w, w', n, s);
    case AnyOf(arms, other) =>
      FieldsStable(lib, on, UrlOnly(n), w, w', n, map[], s);
      var o := EvalFields(lib, on, UrlOnly(n), w, n, map[], s);
      if o.Accept? {
        match FindArm(arms, UrlIn(o.value.fields)) {
          case Some(arm) => PassesStable(lib, on, AnyWith(arm), w, w', n, o.st);
          case None => EvalStable(lib, on, other, w, w', n, o.st);
        }
      }
    case Action(inner, act) => EvalStable(lib, on, inner, w, w', n, s);
    case Preaction(Refuse, inner) =>
    case Preaction(Announce(title), inner) =>
      var o := Hand(on, Announced(title), s);
      if o.Accept? { EvalStable(lib, on, inner, w, w', n, o.st); }
  }

  lemma {:induction false} FieldsStable<S>(lib: Library, on: (Event, S) -> (bool, S), fs: Fields, w: Bytes, w': Bytes,
                                           n: nat, rec: map<nat, Value>, s: S)
    requires w <= w' && |w'| <= n && !EvalFields(lib, on, fs, w, n, rec, s).Starved?
    ensures EvalFields(lib, on, fs, w', n, rec, s) == EvalFields(lib, on, fs, w, n, rec, s)
    decreases FieldsSize(fs), n
  {
    if n == 0 {
    } else {
      VarintStable(w, w', n, VARINT_ROOM);
      var r := ReadVarint(w, n, VARINT_ROOM);
      if r.Got? {
        TaggedStable(lib, on, fs, r.n / 8, r.n % 8, w[r.used..], w'[r.used..], n - r.used, rec, s);
      }
    }
  }

  lemma {:induction false} TaggedStable<S>(lib: Library, on: (Event, S) -> (bool, S), fs: Fields, number: nat,
                                           wire: nat, w: Bytes, w': Bytes, n: nat, rec: map<nat, Value>, s: S)
    requires w <= w' && |w'| <= n && !EvalTagged(lib, on, fs, number, wire, w, n, rec, s).Starved?
    ensures EvalTagged(lib, on, fs, number, wire, w', n, rec, s) == EvalTagged(lib, on, fs, number, wire, w, n, rec, s)
    decreases FieldsSize(fs), n, 1
  {
    match Lookup(fs, number)
    case None =>
      SkipStable(wire, w, w', n);
      var r := SkipField(wire, w, n);
      if r.Got? { FieldsStable(lib, on, fs, w[r.used..], w'[r.used..], n - r.used, rec, s); }
    case Some(kind) =>
      if wire == WireOf(kind) {
        VarintStable(w, w', n, VARINT_ROOM);
        var r := ReadVarint(w, n, VARINT_ROOM);
        if r.Got? {
          match kind
          case Varying(sc) =>
            StoredStable(lib, on, fs, number, EvalScalar(on, sc, r.n, s), w, w', n, r.used, rec);
          case Delimited(i) =>
            if r.n <= n - r.used {
              var p, p' := Take(w[r.used..], r.n), Take(w'[r.used..], r.n);
              EvalStable(lib, on, i, p, p', r.n, s);
              StoredStable(lib, on, fs, number, Eval(lib, on, i, p, r.n, s), w, w', n, r.used + r.n, rec);
            }
        }
      }
  }

  lemma {:induction false} StoredStable<S>(lib: Library, on: (Event, S) -> (bool, S), fs: Fields, number: nat,
                                           got: Out<S>, w: Bytes, w': Bytes, n: nat, used: nat, rec: map<nat, Value>)
    requires w <= w' && |w'| <= n && 0 < used <= n && (got.Accept? ==> used <= |w|)
    requires !EvalStored(lib, on, fs, number, got, w, n, used, rec).Starved?
    ensures EvalStored(lib, on, fs, number, got, w', n, used, rec) ==
            EvalStored(lib, on, fs, number, got, w, n, used, rec)
    decreases FieldsSize(fs), n, 0
  {
    if got.Accept? {
      var kept := Store(lib, rec, number, got.value);
      if kept.Some? { FieldsStable(lib, on, fs, w[used..], w'[used..], n - used, kept.value, got.st); }
    }
  }

  lemma {:induction false} PassesStable<S>(lib: Library, on: (Event, S) -> (bool, S), parts: Fields, w: Bytes,
                                           w': Bytes, n: nat, s: S)
    requires w <= w' && |w'| <= n && !EvalPasses(lib, on, parts, w, n, s).Starved?
    ensures EvalPasses(lib, on, parts, w', n, s) == EvalPasses(lib, on, parts, w, n, s)
    decreases FieldsSize(parts) + 1, n
  {
    match parts
    case NoFields =>
    case Field(number, repeated, kind, rest) =>
      FieldsStable(lib, on, Single(number, repeated, kind), w, w', n, map[], s);
      var o := EvalFields(lib, on, Single(number, repeated, kind), w, n, map[], s);
      if o.Accept? && !(lib.strict && !repeated && number !in o.value.fields) {
        PassesStable(lib, on, rest, w, w', n, o.st);
      }
  }

  /** A complete window is always decided. */
  lemma {:induction false} EvalDecided<S>(lib: Library, on: (Event, S) -> (bool, S), i: Interp, w: Bytes, n: nat, s: S)
    requires |w| == n
    ensures !Eval(lib, on, i, w, n, s).Starved?
    decreases Size(i), n
  {
    match i
    case Drop =>
    case Buffer(cap) =>
    case Message(fs) => FieldsDecided(lib, on, fs, w, n, map[], s);
    case Ordered(parts) => PassesDecided(lib, on, parts, w, n, s);
    case AnyOf(arms, other) =>
      FieldsDecided(lib, on, UrlOnly(n), w, n, map[], s);
      var o := EvalFields(lib, on, UrlOnly(n), w, n, map[], s);
      if o.Accept? {
        match FindArm(arms, UrlIn(o.value.fields)) {
          case Some(arm) => PassesDecided(lib, on, AnyWith(arm), w, n, o.st);
          case None => EvalDecided(lib, on, other, w, n, o.st);
        }
      }
    case Action(inner, act) => EvalDecided(lib, on, inner, w, n, s);
    case Preaction(Refuse, inner) =>
    case Preaction(Announce(title), inner) =>
      var o := Hand(on, Announced(title), s);
      if o.Accept? { EvalDecided(lib, on, inner, w, n, o.st); }
  }

  lemma {:induction false} FieldsDecided<S>(lib: Library, on: (Event, S) -> (bool, S), fs: Fields, w: Bytes, n: nat,
                                            rec: map<nat, Value>, s: S)
    requires |w| == n
    ensures !EvalFields(lib, on, fs, w, n, rec, s).Starved?
    decreases FieldsSize(fs), n
  {
    if n == 0 {
    } else {
      VarintFull(w, n, VARINT_ROOM);
      var r := ReadVarint(w, n, VARINT_ROOM);
      if r.Got? { TaggedDecided(lib, on, fs, r.n / 8, r.n % 8, w[r.used..], n - r.used, rec, s); }
    }
  }

  lemma {:induction false} TaggedDecided<S>(lib: Library, on: (Event, S) -> (bool, S), fs: Fields, number: nat,
                                            wire: nat, w: Bytes, n: nat, rec: map<nat, Value>, s: S)
    requires |w| == n
    ensures !EvalTagged(lib, on, fs, number, wire, w, n, rec, s).Starved?
    decreases FieldsSize(fs), n, 1
  {
    match Lookup(fs, number)
    case None =>
      SkipFull(wire, w, n);
      var r := SkipField(wire, w, n);
      if r.Got? { FieldsDecided(lib, on, fs, w[r.used..], n - r.used, rec, s); }
    case Some(kind) =>
      if wire == WireOf(kind) {
        VarintFull(w, n, VARINT_ROOM);
        var r := ReadVarint(w, n, VARINT_ROOM);
        if r.Got? {
          match kind
          case Varying(sc) => StoredDecided(lib, on, fs, number, EvalScalar(on, sc, r.n, s), w, n, r.used, rec);
          case Delimited(i) =>
            if r.n <= n - r.used {
              var p := Take(w[r.used..], r.n);
              EvalDecided(lib, on, i, p, r.n, s);
              StoredDecided(lib, on, fs, number, Eval(lib, on, i, p, r.n, s), w, n, r.used + r.n, rec);
            }
        }
      }
  }

  lemma {:induction false} StoredDecided<S>(lib: Library, on: (Event, S) -> (bool, S), fs: Fields, number: nat,
                                            got: Out<S>, w: Bytes, n: nat, used: nat, rec: map<nat, Value>)
    requires |w| == n && 0 < used <= n && !got.Starved?
    ensures !EvalStored(lib, on, fs, number, got, w, n, used, rec).Starved?
    decreases FieldsSize(fs), n, 0
  {
    if got.Accept? {
      var kept := Store(lib, rec, number, got.value);
      if kept.Some? { FieldsDecided(lib, on, fs, w[used..], n - used, kept.value, got.st); }
    }
  }

  lemma {:induction false} PassesDecided<S>(lib: Library, on: (Event, S) -> (bool, S), parts: Fields, w: Bytes, n: nat,
                                            s: S)
    requires |w| == n
    ensures !EvalPasses(lib, on, parts, w, n, s).Starved?
    decreases FieldsSize(parts) + 1, n
  {
    match parts
    case NoFields =>
    case Field(number, repeated, kind, rest) =>
      FieldsDecided(lib, on, Single(number, repeated, kind), w, n, map[], s);
      var o := EvalFields(lib, on, Single(number, repeated, kind), w, n, map[], s);
      if o.Accept? && !(lib.strict && !repeated && number !in o.value.fields) {
        PassesDecided(lib, on, rest, w, n, o.st);
      }
  }

  // ---------------------------------------------------------------- replay

  /** The handler that lets everything pass and writes the events down. */
  function Note(e: Event, past: seq<Event>): (bool, seq<Event>) {
    (true, past + [e])
  }

  function Noting(): (Event, seq<Event>) -> (bool, seq<Event>) {
    (e, past) => Note(e, past)
  }

  /** Hands the events to `on` one by one until it stops. */
  function Replay<S>(on: (Event, S) -> (bool, S), es: seq<Event>, s: S): (bool, S) {
    if es == [] then (true, s)
    else
      var r := on(es[0], s);
      if !r.0 then r else Replay(on, es[1..], r.1)
  }

  lemma {:induction false} ReplayConcat<S>(on: (Event, S) -> (bool, S), es: seq<Event>, fs: seq<Event>, s: S)
    ensures Replay(on, es + fs, s) ==
            if Replay(on, es, s).0 then Replay(on, fs, Replay(on, es, s).1) else Replay(on, es, s)
  {
    if es == [] {
      assert es + fs == fs;
    } else {
      assert (es + fs)[1..] == es[1..] + fs;
      if on(es[0], s).0 { ReplayConcat(on, es[1..], fs, on(es[0], s).1); }
    }
  }

  /** What is left of a noted run when `on` replays its events from state `s`. */
  function Resumed<S>(on: (Event, S) -> (bool, S), s: S, o: Out<seq<Event>>, past: nat): Out<S>
    requires past <= |o.st|
  {
    var r := Replay(on, o.st[past..], s);
    if !r.0 then Reject(r.1)
    else match o
      case Accept(v, _) => Accept(v, r.1)
      case Reject(_) => Reject(r.1)
      case Starved(_) => Starved(r.1)
  }

  /** `o` is the run with handler `on` from `s` exactly if it is the replay of the noted run `p`. */
  ghost predicate Agrees<S>(on: (Event, S) -> (bool, S), s: S, o: Out<S>, past: seq<Event>, p: Out<seq<Event>>) {
    past <= p.st && o == Resumed(on, s, p, |past|)
  }

  /** A second stretch behind an accepted first one: it counts if the replay gets that far. */
  lemma {:induction false} AgreesThen<S>(on: (Event, S) -> (bool, S), s: S, past: seq<Event>, mid: seq<Event>,
                                         o: Out<S>, p: Out<seq<Event>>)
    requires past <= mid && Agrees(on, Replay(on, mid[|past|..], s).1, o, mid, p)
    ensures var r := Replay(on, mid[|past|..], s);
            Agrees(on, s, if r.0 then o else Reject(r.1), past, p)
  {
    assert p.st[|past|..] == mid[|past|..] + p.st[|mid|..];
    ReplayConcat(on, mid[|past|..], p.st[|mid|..], s);
  }

  lemma {:induction false} HandAgrees<S>(on: (Event, S) -> (bool, S), e: Event, s: S, past: seq<Event>)
    ensures Agrees(on, s, Hand(on, e, s), past, Hand(Noting(), e, past))
  {
    var es := (past + [e])[|past|..];
    assert es == [e] && es[1..] == [];
    assert Replay(on, es, s) == (var r := on(e, s); if !r.0 then r else Replay(on, [], r.1));
  }

  lemma {:induction false} StillAgrees<S>(on: (Event, S) -> (bool, S), s: S, past: seq<Event>)
    ensures past[|past|..] == [] && Replay(on, [], s) == (true, s)
  {
  }

  /** The factor theorem: whatever the closures do, a run is the noted run with its events replayed. */
  lemma {:induction false} EvalAgrees<S>(lib: Library, on: (Event, S) -> (bool, S), i: Interp, w: Bytes, n: nat, s: S,
                                         past: seq<Event>)
    requires |w| <= n
    ensures Agrees(on, s, Eval(lib, on, i, w, n, s), past, Eval(lib, Noting(), i, w, n, past))
    decreases Size(i), n
  {
    StillAgrees(on, s, past);
    match i
    case Drop =>
    case Buffer(cap) =>
    case Message(fs) => FieldsAgrees(lib, on, fs, w, n, map[], s, past);
    case Ordered(parts) => PassesAgrees(lib, on, parts, w, n, s, past);
    case AnyOf(arms, other) =>
      FieldsAgrees(lib, on, UrlOnly(n), w, n, map[], s, past);
      var p := EvalFields(lib, Noting(), UrlOnly(n), w, n, map[], past);
      if p.Accept? {
        var r := Replay(on, p.st[|past|..], s);
        match FindArm(arms, UrlIn(p.value.fields)) {
          case Some(arm) =>
            PassesAgrees(lib, on, AnyWith(arm), w, n, r.1, p.st);
            AgreesThen(on, s, past, p.st, EvalPasses(lib, on, AnyWith(arm), w, n, r.1),
                       EvalPasses(lib, Noting(), AnyWith(arm), w, n, p.st));
          case None =>
            EvalAgrees(lib, on, other, w, n, r.1, p.st);
            AgreesThen(on, s, past, p.st, Eval(lib, on, other, w, n, r.1),
                       Eval(lib, Noting(), other, w, n, p.st));
        }
      }
    case Action(inner, act) =>
      EvalAgrees(lib, on, inner, w, n, s, past);
      var p := Eval(lib, Noting(), inner, w, n, past);
      if p.Accept? {
        var r := Replay(on, p.st[|past|..], s);
        var e := Ran(act, p.value);
        HandAgrees(on, e, r.1, p.st);
        AgreesThen(on, s, past, p.st, Hand(on, e, r.1), Hand(Noting(), e, p.st));
      }
    case Preaction(Refuse, inner) =>
    case Preaction(Announce(title), inner) =>
      var e := Announced(title);
      HandAgrees(on, e, s, past);
      var p := Hand(Noting(), e, past);
      var r := Replay(on, p.st[|past|..], s);
      EvalAgrees(lib, on, inner, w, n, r.1, p.st);
      AgreesThen(on, s, past, p.st, Eval(lib, on, inner, w, n, r.1), Eval(lib, Noting(), inner, w, n, p.st));
  }

  lemma {:induction false} FieldsAgrees<S>(lib: Library, on: (Event, S) -> (bool, S), fs: Fields, w: Bytes, n: nat,
                                           rec: map<nat, Value>, s: S, past: seq<Event>)
    requires |w| <= n
    ensures Agrees(on, s, EvalFields(lib, on, fs, w, n, rec, s), past, EvalFields(lib, Noting(), fs, w, n, rec, past))
    decreases FieldsSize(fs), n
  {
    StillAgrees(on, s, past);
    if n == 0 {
    } else {
      var r := ReadVarint(w, n, VARINT_ROOM);
      if r.Got? { TaggedAgrees(lib, on, fs, r.n / 8, r.n % 8, w[r.used..], n - r.used, rec, s, past); }
    }
  }

  lemma {:induction false} TaggedAgrees<S>(lib: Library, on: (Event, S) -> (bool, S), fs: Fields, number: nat,
                                           wire: nat, w: Bytes, n: nat, rec: map<nat, Value>, s: S, past: seq<Event>)
    requires |w| <= n
    ensures Agrees(on, s, EvalTagged(lib, on, fs, number, wire, w, n, rec, s), past,
                   EvalTagged(lib, Noting(), fs, number, wire, w, n, rec, past))
    decreases FieldsSize(fs), n, 1
  {
    StillAgrees(on, s, past);
    match Lookup(fs, number)
    case None =>
      var r := SkipField(wire, w, n);
      if r.Got? { FieldsAgrees(lib, on, fs, w[r.used..], n - r.used, rec, s, past); }
    case Some(kind) =>
      if wire == WireOf(kind) {
        var r := ReadVarint(w, n, VARINT_ROOM);
        if r.Got? {
          match kind
          case Varying(sc) =>
            if sc.NumberAction? { HandAgrees(on, Ran(sc.act, Num(r.n)), s, past); }
            StoredAgrees(lib, on, fs, number, EvalScalar(on, sc, r.n, s), EvalScalar(Noting(), sc, r.n, past),
                         w, n, r.used, rec, s, past);
          case Delimited(i) =>
            if r.n <= n - r.used {
              var p := Take(w[r.used..], r.n);
              EvalAgrees(lib, on, i, p, r.n, s, past);
              StoredAgrees(lib, on, fs, number, Eval(lib, on, i, p, r.n, s), Eval(lib, Noting(), i, p, r.n, past),
                           w, n, r.used + r.n, rec, s, past);
            }
        }
      }
  }

  lemma {:induction false} StoredAgrees<S>(lib: Library, on: (Event, S) -> (bool, S), fs: Fields, number: nat,
                                           o: Out<S>, p: Out<seq<Event>>, w: Bytes, n: nat, used: nat,
                                           rec: map<nat, Value>, s: S, past: seq<Event>)
    requires |w| <= n && 0 < used <= n && (p.Accept? ==> used <= |w|)
    requires Agrees(on, s, o, past, p)
    ensures Agrees(on, s, EvalStored(lib, on, fs, number, o, w, n, used, rec), past,
                   EvalStored(lib, Noting(), fs, number, p, w, n, used, rec))
    decreases FieldsSize(fs), n, 0
  {
    if p.Accept? {
      var r := Replay(on, p.st[|past|..], s);
      var kept := Store(lib, rec, number, p.value);
      if kept.Some? {
        FieldsAgrees(lib, on, fs, w[used..], n - used, kept.value, r.1, p.st);
        AgreesThen(on, s, past, p.st, EvalFields(lib, on, fs, w[used..], n - used, kept.value, r.1),
                   EvalFields(lib, Noting(), fs, w[used..], n - used, kept.value, p.st));
      }
    }
  }

  lemma {:induction false} PassesAgrees<S>(lib: Library, on: (Event, S) -> (bool, S), parts: Fields, w: Bytes, n: nat,
                                           s: S, past: seq<Event>)
    requires |w| <= n
    ensures Agrees(on, s, EvalPasses(lib, on, parts, w, n, s), past, EvalPasses(lib, Noting(), parts, w, n, past))
    decreases FieldsSize(parts) + 1, n
  {
    StillAgrees(on, s, past);
    match parts
    case NoFields =>
    case Field(number, repeated, kind, rest) =>
      var one := Single(number, repeated, kind);
      FieldsAgrees(lib, on, one, w, n, map[], s, past);
      var p := EvalFields(lib, Noting(), one, w, n, map[], past);
      if p.Accept? && !(lib.strict && !repeated && number !in p.value.fields) {
        var r := Replay(on, p.st[|past|..], s);
        PassesAgrees(lib, on, rest, w, n, r.1, p.st);
        AgreesThen(on, s, past, p.st, EvalPasses(lib, on, rest, w, n, r.1),
                   EvalPasses(lib, Noting(), rest, w, n, p.st));
      }
  }
}
