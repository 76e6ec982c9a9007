// When a transaction goes the blind way, and what a document's signature shows.

module Blind {
  import opened Octets
  import opened Interp
  import opened Runs
  import opened Screen
  import opened Transaction
  import opened Documents
  import opened Display
  import opened Blocks
  import Numbers
  import opened Paths
  import opened Signing
  import opened Outcomes

  /** The bytes are those of a transaction the app knows. */
  predicate Recognisable(env: Env, w: Bytes) {
    Eval(env.lib, Silent(), TxnParser(), w, |w|, []).Accept?
  }

  /** The host answers the recognition with a FAILURE. */
  predicate FailsHere(r: Run, reply: Reply) {
    r.Waiting? && r.stage.RecogniseStage? && reply.Failure?
  }

  ghost predicate Withheld(env: Env, setting: nat, req: Request, replies: seq<Reply>) {
    exists k :: 0 <= k < |replies| && FailsHere(Fold(env, setting, req, replies[..k]), replies[k])
  }

  lemma {:induction false} WithheldSnoc(env: Env, setting: nat, req: Request, replies: seq<Reply>)
    requires replies != []
    ensures var init, last := replies[..|replies| - 1], replies[|replies| - 1];
            Withheld(env, setting, req, replies) <==>
            Withheld(env, setting, req, init) || FailsHere(Fold(env, setting, req, init), last)
  {
    var n := |replies| - 1;
    var init := replies[..n];
    assert forall k :: 0 <= k <= n ==> init[..k] == replies[..k];
    if Withheld(env, setting, req, init) {
      var k :| 0 <= k < |init| && FailsHere(Fold(env, setting, req, init[..k]), init[k]);
      assert FailsHere(Fold(env, setting, req, replies[..k]), replies[k]);
    }
    if Withheld(env, setting, req, replies) {
      var k :| 0 <= k < |replies| && FailsHere(Fold(env, setting, req, replies[..k]), replies[k]);
      assert k < n ==> FailsHere(Fold(env, setting, req, init[..k]), init[k]);
    }
  }

  // ---------------------------------------------------------------- why a request is blind

  /** The silent pass had reason to fail: it refused the bytes, or its blocks came to their end too soon. */
  ghost predicate Cause(env: Env, p: Progress) {
    && Trace(env.h, p.txn, p.silentTrace)
    && var o := SilentPass(env, p, Read(env.h, p.txn, p.silentTrace));
    && (o.Reject? || (o.Starved? && AtEnd(After(env.h, p.txn, p.silentTrace))))
  }

  ghost predicate Justified(env: Env, known: bool, p: Progress, withheld: bool) {
    !withheld ==> known || Cause(env, p)
  }

  /** A known transaction had nothing withheld; an unknown one has a cause unless something was. */
  ghost predicate Tracks(env: Env, r: Run, withheld: bool) {
    match r
    case Waiting(DigestStage(known), p, _, _, _, _) => (known ==> !withheld) && Justified(env, known, p, withheld)
    case Waiting(_, _, _, _, _, _) => !withheld
    case Signed(_, known, p, _, _, _) => (known ==> !withheld) && Justified(env, known, p, withheld)
    case _ => true
  }

  lemma {:induction false} DigestTracks(env: Env, known: bool, p: Progress, at: Cursor, trace: seq<Bytes>, buf: Bytes,
                                        seen: seq<Prompt>, withheld: bool)
    requires (known ==> !withheld) && Justified(env, known, p, withheld)
    ensures Tracks(env, SettleDigest(env, known, p, at, trace, buf, seen), withheld)
  {
  }

  lemma {:induction false} ShowTracks(env: Env, p: Progress, at: Cursor, trace: seq<Bytes>, buf: Bytes)
    ensures Tracks(env, SettleShow(env, p, at, trace, buf), false)
  {
    var o := ShowPass(env, p, buf);
    if o.Accept? { DigestTracks(env, true, p.(showTrace := trace), p.txn, [], [], o.st, false); }
  }

  lemma {:induction false} UnrecognisedTracks(env: Env, setting: nat, p: Progress, withheld: bool)
    requires Justified(env, false, p, withheld)
    ensures Tracks(env, Unrecognised(env, setting, p), withheld)
  {
    var warned := Scroller(env.user, [], WARNING, Some(Ascii(NOT_RECOGNIZED)));
    DigestTracks(env, false, p, p.txn, [], [], warned.1, withheld);
  }

  lemma {:induction false} RecogniseTracks(env: Env, setting: nat, p: Progress, at: Cursor, trace: seq<Bytes>,
                                           buf: Bytes)
    requires Pass(env.h, p.txn, at, trace, buf)
    ensures Tracks(env, SettleRecognise(env, setting, p, at, trace, buf), false)
  {
    var o, p' := SilentPass(env, p, buf), p.(silentTrace := trace);
    assert SilentPass(env, p', buf) == o;
    if o.Accept? {
      ShowTracks(env, p', p'.txn, [], []);
    } else if o.Reject? || AtEnd(at) {
      UnrecognisedTracks(env, setting, p', false);
    }
  }

  lemma {:induction false} PathTracks(env: Env, setting: nat, p: Progress, at: Cursor, trace: seq<Bytes>, buf: Bytes)
    ensures Tracks(env, SettlePath(env, setting, p, at, trace, buf), false)
  {
    var read := ParsePath(buf);
    if read.Path? && HasPrefix(read.steps) {
      var p' := p.(path := read.steps, pathTrace := trace);
      EmptyPass(env.h, p'.txn);
      RecogniseTracks(env, setting, p', p'.txn, [], []);
    }
  }

  lemma {:induction false} LengthTracks(env: Env, setting: nat, req: Request, at: Cursor, trace: seq<Bytes>, buf: Bytes)
    ensures Tracks(env, SettleLength(env, setting, req, at, trace, buf), false)
  {
    if |buf| >= LENGTH_BYTES {
      PathTracks(env, setting,
                 FRESH.(length := Numbers.LittleEndian(buf[..LENGTH_BYTES]), txn := at, lengthTrace := trace),
                 Cursor(req.path, 0), [], []);
    }
  }

  lemma {:induction false} SettleTracks(env: Env, setting: nat, req: Request, r: Run, withheld: bool)
    requires r.Waiting? && Tracks(env, r, withheld)
    requires r.stage.RecogniseStage? ==> Pass(env.h, r.done.txn, r.at, r.trace, r.buf)
    ensures Tracks(env, Settle(env, setting, req, r), withheld)
  {
    match r.stage
    case LengthStage => LengthTracks(env, setting, req, r.at, r.trace, r.buf);
    case PathStage => PathTracks(env, setting, r.done, r.at, r.trace, r.buf);
    case RecogniseStage => RecogniseTracks(env, setting, r.done, r.at, r.trace, r.buf);
    case ShowStage => ShowTracks(env, r.done, r.at, r.trace, r.buf);
    case DigestStage(known) => DigestTracks(env, known, r.done, r.at, r.trace, r.buf, r.seen, withheld);
    case AddressStage =>
  }

  lemma {:induction false} StepTracks(env: Env, setting: nat, req: Request, r: Run, reply: Reply, withheld: bool)
    requires r.Waiting? && Inv(env, setting, req, r) && Tracks(env, r, withheld)
    ensures Tracks(env, Step(env, setting, req, r, reply), withheld || FailsHere(r, reply))
  {
    match reply
    case Unexpected =>
    case Failure =>
      if r.stage.RecogniseStage? { UnrecognisedTracks(env, setting, r.done.(silentTrace := r.trace), true); }
    case Success(b) =>
      if Serves(env.h, r.at, b) {
        if r.stage.RecogniseStage? { FedWhole(env, r.done.txn, r, b); }
        SettleTracks(env, setting, req, Fed(r, b), withheld);
      }
  }

  lemma {:induction false} StartTracks(env: Env, setting: nat, req: Request)
    ensures Tracks(env, Start(env, setting, req), false)
  {
    if req.SignRequest? { LengthTracks(env, setting, req, Cursor(req.txn, 0), [], []); }
  }

  lemma {:induction false} FoldTracks(env: Env, setting: nat, req: Request, replies: seq<Reply>)
    ensures Tracks(env, Fold(env, setting, req, replies), Withheld(env, setting, req, replies))
  {
    if replies == [] {
      StartTracks(env, setting, req);
    } else {
      var init := replies[..|replies| - 1];
      FoldTracks(env, setting, req, init);
      FoldKeeps(env, setting, req, init);
      WithheldSnoc(env, setting, req, replies);
      var r := Fold(env, setting, req, init);
      if r.Waiting? {
        StepTracks(env, setting, req, r, replies[|replies| - 1], Withheld(env, setting, req, init));
      }
    }
  }

  /** A silent pass that has seen the blocks to their end has the bytes that are hashed. */
  lemma {:induction false} EndDecides(env: Env, p: Progress, trace: seq<Bytes>, all: set<Bytes>)
    requires Trace(env.h, p.txn, p.silentTrace) && AtEnd(After(env.h, p.txn, p.silentTrace))
    requires Trace(env.h, p.txn, trace) && |Read(env.h, p.txn, trace)| >= p.length
    requires Set(p.silentTrace) <= all && Set(trace) <= all && NoCollision(env.h, all)
    ensures !SilentPass(env, p, Read(env.h, p.txn, p.silentTrace)).Starved?
  {
    NoCollisionWithin(env.h, Set(trace) + Set(p.silentTrace), all);
    BesideComplete(env.h, p.txn, trace, p.silentTrace);
    var silent := Take(Read(env.h, p.txn, p.silentTrace), p.length);
    EvalDecided(env.lib, Silent(), TxnParser(), silent, p.length, []);
  }

  lemma {:induction false} SignedTraces(env: Env, setting: nat, req: Request, replies: seq<Reply>)
    requires Fold(env, setting, req, replies).Signed?
    ensures var r := Fold(env, setting, req, replies);
            && Trace(env.h, r.done.txn, r.trace) && r.buf == Read(env.h, r.done.txn, r.trace)
            && |r.buf| >= r.done.length
  {
    FoldKeeps(env, setting, req, replies);
    var r := Fold(env, setting, req, replies);
    var before :| SignedInv(env, setting, req, r, before);
  }

  /** Which way a signature went is fixed by its bytes and by the host's answers: it is recognised if and only if the
      bytes are recognisable and no FAILURE was answered to the recognition. */
  lemma {:induction false} KnownExactly(env: Env, setting: nat, req: Request, replies: seq<Reply>)
    requires var r := Fold(env, setting, req, replies); r.Signed? && NoCollision(env.h, Served(r))
    ensures var r := Fold(env, setting, req, replies);
            r.known <==> Recognisable(env, Subject(r)) && !Withheld(env, setting, req, replies)
  {
    var r := Fold(env, setting, req, replies);
    SameBytes(env, setting, req, replies);
    FoldTracks(env, setting, req, replies);
    if !r.known && !Withheld(env, setting, req, replies) {
      SignedTraces(env, setting, req, replies);
      if AtEnd(After(env.h, r.done.txn, r.done.silentTrace)) { EndDecides(env, r.done, r.trace, Served(r)); }
    }
  }

  // ---------------------------------------------------------------- signatures of documents

  ghost predicate NotedAs(o: Out<seq<Event>>, feeFirst: bool, ms: seq<Msg>, fee: Fee) {
    if MsgsFit(ms) && FeeFits(fee) then o.Accept? && AllPrompts(o.st) == DocPrompts(feeFirst, ms, fee) else o.Reject?
  }

  lemma {:induction false} YieldsNoted(o: Out<seq<Event>>, feeFirst: bool, ms: seq<Msg>, fee: Fee)
    requires YieldsAny(o, [], DocEvents(feeFirst, ms, fee), MsgsFit(ms) && FeeFits(fee))
    ensures NotedAs(o, feeFirst, ms, fee)
  {
    DocPromptsAre(feeFirst, ms, fee);
    assert [] + DocEvents(feeFirst, ms, fee) == DocEvents(feeFirst, ms, fee);
  }

  /** The noted run over a document's encoding. */
  lemma {:induction false} DocumentNoted(lib: Library, l: Layout, ms: seq<Msg>, fee: Fee, d: Bytes)
    requires Lays(l, ms, fee) && d == l.doc
    ensures NotedAs(Noted(lib, TxnParser(), d, |d|), l.feeFirst, ms, fee)
  {
    DocumentReads(lib, l, ms, fee);
    YieldsNoted(Noted(lib, TxnParser(), d, |d|), l.feeFirst, ms, fee);
  }

  lemma {:induction false} NotedSigned(env: Env, setting: nat, req: Request, replies: seq<Reply>, feeFirst: bool,
                                       ms: seq<Msg>, fee: Fee)
    requires var r := Fold(env, setting, req, replies);
             && r.Signed? && NoCollision(env.h, Served(r))
             && NotedAs(Noted(env.lib, TxnParser(), Subject(r), |Subject(r)|), feeFirst, ms, fee)
    ensures var r := Fold(env, setting, req, replies);
            && (r.known <==> MsgsFit(ms) && FeeFits(fee) && !Withheld(env, setting, req, replies))
            && (r.known ==> r.seen == DocPrompts(feeFirst, ms, fee) + [Final([FinalLine(true)])])
  {
    var r := Fold(env, setting, req, replies);
    KnownExactly(env, setting, req, replies);
    SilentShowsNothing(env.lib, TxnParser(), Subject(r), |Subject(r)|, []);
    if r.known { ShownIsSigned(env, setting, req, replies); }
  }

  /** If the signed bytes encode a document, the way they went is fixed by whether it fits and whether the host failed
      the recognition; if it was recognised, the screen showed this document's own lines and the last prompt. */
  lemma {:induction false} DocumentSigned(env: Env, setting: nat, req: Request, replies: seq<Reply>, l: Layout,
                                          ms: seq<Msg>, fee: Fee)
    requires var r := Fold(env, setting, req, replies);
             r.Signed? && NoCollision(env.h, Served(r)) && Lays(l, ms, fee) && Subject(r) == l.doc
    ensures var r := Fold(env, setting, req, replies);
            && (r.known <==> MsgsFit(ms) && FeeFits(fee) && !Withheld(env, setting, req, replies))
            && (r.known ==> r.seen == DocPrompts(l.feeFirst, ms, fee) + [Final([FinalLine(true)])])
  {
    DocumentNoted(env.lib, l, ms, fee, l.doc);
    NotedSigned(env, setting, req, replies, l.feeFirst, ms, fee);
  }
}
