// Why a transaction goes the blind way or no way, told from one reply of any host.

module Refusals {
  import opened Octets
  import opened Interp
  import opened Screen
  import opened Transaction
  import opened Paths
  import opened Blocks
  import opened Signing
  import EventLoop

  /** What the silent pass makes of these bytes of the transaction. */
  function Verdict(env: Env, length: nat, buf: Bytes): Out<seq<Prompt>> {
    Eval(env.lib, Silent(), TxnParser(), Take(buf, length), length, [])
  }

  /** With this reply the recognition has failed: it is a FAILURE, or it brings bytes that are refused, or it brings the
      end of the chain while bytes are missing; the chain may also end before the first byte is looked at. */
  predicate RecognitionFails(env: Env, r: Run, reply: Reply)
    requires r.Waiting?
  {
    match (r.stage, reply)
    case (RecogniseStage, Failure) => true
    case (RecogniseStage, Success(b)) =>
      && Serves(env.h, r.at, b)
      && var o := Verdict(env, r.done.length, r.buf + Data(b)[r.at.offset..]);
      && (o.Reject? || (o.Starved? && AtEnd(Past(b))))
    case (PathStage, Success(b)) =>
      && Serves(env.h, r.at, b)
      && var read := ParsePath(r.buf + Data(b)[r.at.offset..]);
      && read.Path? && HasPrefix(read.steps)
      && var o := Verdict(env, r.done.length, []);
      && (o.Reject? || (o.Starved? && AtEnd(r.done.txn)))
    case _ => false
  }

  /** The request goes on behind a first screen, or has ended behind it. */
  predicate Behind(r: Run, first: Prompt) {
    match r
    case Waiting(stage, _, _, _, _, seen) => stage == DigestStage(false) && seen == [first]
    case Signed(_, known, _, _, _, seen) => !known && [first] <= seen
    case Refused(seen) => [first] <= seen
    case Replied(_, _, _, _) => false
  }

  /** What is shown once a transaction was not recognised. */
  predicate ShowsWhy(env: Env, setting: nat, r: Run) {
    var told := Scroll("WARNING", Ascii("Transaction not recognized"));
    if setting == 0 then
      r == Refused([Scroll("WARNING",
                           Ascii("Transaction not recognized, enable blind signing to sign unknown transactions"))])
    else if !env.user([told]) then r == Refused([told])
    else Behind(r, told)
  }

  lemma {:induction false} FinishBehind(env: Env, p: Progress, trace: seq<Bytes>, buf: Bytes, first: Prompt)
    ensures Behind(Finish(env, false, p, trace, buf, [first]), first)
  {
  }

  lemma {:induction false} UnrecognisedShows(env: Env, setting: nat, p: Progress)
    ensures ShowsWhy(env, setting, Unrecognised(env, setting, p))
  {
    var first := Scroll("WARNING", Ascii("Transaction not recognized"));
    assert [] + [first] == [first];
    FinishBehind(env, p, [], [], first);
    var refused := Scroll(WARNING, Ascii(ENABLE_FIRST));
    assert [] + [refused] == [refused];
  }

  lemma {:induction false} RecogniseFails(env: Env, setting: nat, p: Progress, at: Cursor, trace: seq<Bytes>,
                                          buf: Bytes)
    requires var o := Verdict(env, p.length, buf); o.Reject? || (o.Starved? && AtEnd(at))
    ensures ShowsWhy(env, setting, SettleRecognise(env, setting, p, at, trace, buf))
  {
    assert SilentPass(env, p, buf) == Verdict(env, p.length, buf);
    UnrecognisedShows(env, setting, p.(silentTrace := trace));
  }

  lemma {:induction false} StepFails(env: Env, setting: nat, req: Request, r: Run, reply: Reply)
    requires r.Waiting? && RecognitionFails(env, r, reply)
    ensures ShowsWhy(env, setting, Step(env, setting, req, r, reply))
  {
    match reply
    case Failure => UnrecognisedShows(env, setting, r.done.(silentTrace := r.trace));
    case Success(b) =>
      var f := Fed(r, b);
      if r.stage.RecogniseStage? {
        RecogniseFails(env, setting, r.done, f.at, f.trace, f.buf);
      } else {
        var p := r.done.(path := ParsePath(f.buf).steps, pathTrace := f.trace);
        RecogniseFails(env, setting, p, p.txn, [], []);
      }
  }

  /** Whatever came before: a transaction that was not recognised is refused with the reason on the screen if blind
      signing is off. Otherwise the person is told, and the request goes on only if they accept. */
  lemma {:induction false} UnknownShows(env: Env, setting: nat, req: Request, replies: seq<Reply>, reply: Reply)
    requires var r := Fold(env, setting, req, replies); r.Waiting? && RecognitionFails(env, r, reply)
    ensures ShowsWhy(env, setting, Fold(env, setting, req, replies + [reply]))
  {
    EventLoop.FoldStep(env, setting, req, replies, reply);
    StepFails(env, setting, req, Fold(env, setting, req, replies), reply);
  }

  /** The host has not delivered: a message it must not send, a block with another hash, or a FAILURE. */
  predicate Undelivered(env: Env, r: Run, reply: Reply)
    requires r.Waiting?
  {
    match reply
    case Unexpected => true
    case Failure => !r.stage.RecogniseStage?
    case Success(b) => !Serves(env.h, r.at, b)
  }

  /** Any request ends there, with the screens it had shown; only the recognition survives a FAILURE. */
  lemma {:induction false} UndeliveredEnds(env: Env, setting: nat, req: Request, replies: seq<Reply>, reply: Reply)
    requires var r := Fold(env, setting, req, replies); r.Waiting? && Undelivered(env, r, reply)
    ensures Fold(env, setting, req, replies + [reply]) == Refused(Fold(env, setting, req, replies).seen)
  {
    EventLoop.FoldStep(env, setting, req, replies, reply);
  }
}
