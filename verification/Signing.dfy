// A request as the device lives through it: it waits for blocks, and each reply of the host moves it on.

module Signing {
  import opened Octets
  import opened Numbers
  import opened Interp
  import opened Screen
  import opened Transaction
  import opened Paths
  import opened Blocks
  import Keys
  import Addresses

  /** Everything outside this model, as functions of what it is given. */
  datatype Env = Env(
    h: Hash,                                    // SHA-256
    user: User,                                 // answers to prompts
    lib: Library,                               // decisions of the parser library
    base64: Bytes -> Bytes,                     // text of a digest
    sign: (seq<nat>, Bytes) -> Option<Bytes>,   // derive the key of a path and sign a digest, in DER
    point: seq<nat> -> Option<Keys.Point>,      // the public key of a path, uncompressed
    pkh: Bytes -> Option<Addresses.KeyHash>,    // SHA-256, then RIPEMD-160, of a compressed key
    checksum: seq<nat> -> Addresses.Checksum)   // of an address

  datatype Request =
    | SignRequest(txn: Bytes, path: Bytes) // the START hashes of the two parameters
    | AddressRequest(path: Bytes, verify: bool)

  /** What the host may send while a request is pending. */
  datatype Reply = Success(block: Bytes) | Failure | Unexpected

  /** The stages of `sign_apdu`, and the one of `get_address_apdu`. Each reads a stream from some cursor. */
  datatype Stage =
    | LengthStage
    | PathStage
    | RecogniseStage
    | ShowStage
    | DigestStage(known: bool)
    | AddressStage

  /** Results of the finished stages. The traces are history: the blocks each of them was served. */
  datatype Progress = Progress(
    length: nat, txn: Cursor, path: seq<nat>,
    lengthTrace: seq<Bytes>, pathTrace: seq<Bytes>, silentTrace: seq<Bytes>, showTrace: seq<Bytes>)

  const FRESH: Progress := Progress(0, Cursor([], 0), [], [], [], [], [])

  datatype Run =
    | Waiting(stage: Stage, done: Progress, at: Cursor, trace: seq<Bytes>, buf: Bytes, seen: seq<Prompt>)
    | Signed(sig: Bytes, known: bool, done: Progress, trace: seq<Bytes>, buf: Bytes, seen: seq<Prompt>)
    | Replied(reply: Bytes, path: seq<nat>, trace: seq<Bytes>, seen: seq<Prompt>)
    | Refused(seen: seq<Prompt>)

  const LENGTH_BYTES: nat := 4
  const WARNING := "WARNING"
  const NOT_RECOGNIZED := "Transaction not recognized"
  const ENABLE_FIRST := "Transaction not recognized, enable blind signing to sign unknown transactions"

  function FinalLine(known: bool): string {
    if known then "Sign Transaction?" else "Blind Sign Transaction?"
  }

  // ---------------------------------------------------------------- the stages, last one first

  /** All `length` bytes are hashed: last prompts, then the signature. */
  function Finish(env: Env, known: bool, p: Progress, trace: seq<Bytes>, buf: Bytes, seen: seq<Prompt>): Run {
    var digest := env.h(Take(buf, p.length));
    var shown := if known then (true, seen)
                 else Scroller(env.user, seen, "Transaction Hash", Some(env.base64(digest)));
    if !shown.0 then Refused(shown.1)
    else
      var final := FinalPrompt(env.user, shown.1, [FinalLine(known)]);
      if !final.0 then Refused(final.1)
      else
        match env.sign(p.path, digest)
        case None => Refused(final.1)
        case Some(der) =>
          match Keys.FormattedSignature(der)
          case None => Refused(final.1)
          case Some(sig) => Signed(sig, known, p, trace, buf, final.1)
  }

  function SettleDigest(env: Env, known: bool, p: Progress, at: Cursor, trace: seq<Bytes>, buf: Bytes,
                        seen: seq<Prompt>): Run
  {
    if |buf| >= p.length then Finish(env, known, p, trace, buf, seen)
    else if AtEnd(at) then Refused(seen)
    else Waiting(DigestStage(known), p, at, trace, buf, seen)
  }

  function StartDigest(env: Env, known: bool, p: Progress, seen: seq<Prompt>): Run {
    SettleDigest(env, known, p, p.txn, [], [], seen)
  }

  /** The prompting pass over the bytes present; it runs as far as they reach. */
  function ShowPass(env: Env, p: Progress, buf: Bytes): Out<seq<Prompt>> {
    Eval(env.lib, Prompting(env.user), TxnParser(), Take(buf, p.length), p.length, [])
  }

  function SettleShow(env: Env, p: Progress, at: Cursor, trace: seq<Bytes>, buf: Bytes): Run {
    match ShowPass(env, p, buf)
    case Accept(_, seen) => StartDigest(env, true, p.(showTrace := trace), seen)
    case Reject(seen) => Refused(seen)
    case Starved(seen) => if AtEnd(at) then Refused(seen) else Waiting(ShowStage, p, at, trace, buf, seen)
  }

  function StartShow(env: Env, p: Progress): Run {
    SettleShow(env, p, p.txn, [], [])
  }

  function Unrecognised(env: Env, setting: nat, p: Progress): Run {
    if setting == 0 then Refused(Scroller(env.user, [], WARNING, Some(Ascii(ENABLE_FIRST))).1)
    else
      var warned := Scroller(env.user, [], WARNING, Some(Ascii(NOT_RECOGNIZED)));
      if !warned.0 then Refused(warned.1) else StartDigest(env, false, p, warned.1)
  }

  function SilentPass(env: Env, p: Progress, buf: Bytes): Out<seq<Prompt>> {
    Eval(env.lib, Silent(), TxnParser(), Take(buf, p.length), p.length, [])
  }

  function SettleRecognise(env: Env, setting: nat, p: Progress, at: Cursor, trace: seq<Bytes>, buf: Bytes): Run {
    var p' := p.(silentTrace := trace);
    match SilentPass(env, p, buf)
    case Accept(_, _) => StartShow(env, p')
    case Reject(_) => Unrecognised(env, setting, p')
    case Starved(_) =>
      if AtEnd(at) then Unrecognised(env, setting, p') else Waiting(RecogniseStage, p, at, trace, buf, [])
  }

  function StartRecognise(env: Env, setting: nat, p: Progress): Run {
    SettleRecognise(env, setting, p, p.txn, [], [])
  }

  function SettlePath(env: Env, setting: nat, p: Progress, at: Cursor, trace: seq<Bytes>, buf: Bytes): Run {
    match ParsePath(buf)
    case TooLong => Refused([])
    case Incomplete => if AtEnd(at) then Refused([]) else Waiting(PathStage, p, at, trace, buf, [])
    case Path(steps, _) =>
      if HasPrefix(steps) then StartRecognise(env, setting, p.(path := steps, pathTrace := trace)) else Refused([])
  }

  function StartPath(env: Env, setting: nat, req: Request, p: Progress): Run {
    SettlePath(env, setting, p, Cursor(req.path, 0), [], [])
  }

  function SettleLength(env: Env, setting: nat, req: Request, at: Cursor, trace: seq<Bytes>, buf: Bytes): Run {
    if |buf| >= LENGTH_BYTES then
      StartPath(env, setting, req,
                FRESH.(length := LittleEndian(buf[..LENGTH_BYTES]), txn := at, lengthTrace := trace))
    else if AtEnd(at) then Refused([])
    else Waiting(LengthStage, FRESH, at, trace, buf, [])
  }

  /** The prompts of an address request. */
  function AddressScreens(text: Bytes): seq<Prompt> {
    [Scroll("Provide Public Key", []), Scroll("Address", text), Final([])]
  }

  /** The answer to an address request. What the person answers to its prompts is not looked at. */
  function Answer(env: Env, path: seq<nat>, verify: bool, trace: seq<Bytes>): Run {
    match env.point(path)
    case None => Refused([])
    case Some(point) =>
      var pubkey := Keys.Compressed(point);
      match env.pkh(pubkey)
      case None => Refused([])
      case Some(pkh) =>
        var text := Addresses.AddressText(env.checksum, pkh);
        var seen1 := Scroller(env.user, [], "Provide Public Key", Some([])).1;
        var seen2 := Scroller(env.user, seen1, "Address", Some(text)).1;
        var seen := if verify then FinalPrompt(env.user, seen2, []).1 else [];
        match Addresses.Framed(pubkey, text)
        case None => Refused(seen)
        case Some(reply) => Replied(reply, path, trace, seen)
  }

  function SettleAddress(env: Env, verify: bool, at: Cursor, trace: seq<Bytes>, buf: Bytes): Run {
    match ParsePath(buf)
    case TooLong => Refused([])
    case Incomplete => if AtEnd(at) then Refused([]) else Waiting(AddressStage, FRESH, at, trace, buf, [])
    case Path(steps, _) => if HasPrefix(steps) then Answer(env, steps, verify, trace) else Refused([])
  }

  // ---------------------------------------------------------------- steps

  function Start(env: Env, setting: nat, req: Request): Run {
    match req
    case SignRequest(txn, _) => SettleLength(env, setting, req, Cursor(txn, 0), [], [])
    case AddressRequest(path, verify) => SettleAddress(env, verify, Cursor(path, 0), [], [])
  }

  /** The stage looks at what it has now. */
  function Settle(env: Env, setting: nat, req: Request, r: Run): Run
    requires r.Waiting?
  {
    match r.stage
    case LengthStage => SettleLength(env, setting, req, r.at, r.trace, r.buf)
    case PathStage => SettlePath(env, setting, r.done, r.at, r.trace, r.buf)
    case RecogniseStage => SettleRecognise(env, setting, r.done, r.at, r.trace, r.buf)
    case ShowStage => SettleShow(env, r.done, r.at, r.trace, r.buf)
    case DigestStage(known) => SettleDigest(env, known, r.done, r.at, r.trace, r.buf, r.seen)
    case AddressStage => SettleAddress(env, req.AddressRequest? && req.verify, r.at, r.trace, r.buf)
  }

  /** How much of a served block a stage takes: the length is read on the stream itself, which goes on behind
      it; the other stages work on clones. */
  function Wanted(r: Run, available: Bytes): (got: Bytes)
    requires r.Waiting?
    ensures got <= available
  {
    if r.stage.LengthStage? && |r.buf| <= LENGTH_BYTES then Take(available, LENGTH_BYTES - |r.buf|) else available
  }

  /** The request with one more block; a used-up block is left for the next one at once. */
  function Fed(r: Run, b: Bytes): Run
    requires r.Waiting? && IsBlock(b) && r.at.offset <= |Data(b)|
  {
    var got := Wanted(r, Data(b)[r.at.offset..]);
    var at := if r.at.offset + |got| < |Data(b)| then Cursor(r.at.head, r.at.offset + |got|) else Past(b);
    r.(at := at, trace := r.trace + [b], buf := r.buf + got)
  }

  /** A read that cannot be served: only recognition survives it. */
  function Unserved(env: Env, setting: nat, r: Run): Run
    requires r.Waiting?
  {
    if r.stage.RecogniseStage? then Unrecognised(env, setting, r.done.(silentTrace := r.trace)) else Refused(r.seen)
  }

  /** One reply of the host. A block that does not have the requested hash ends the request. */
  function Step(env: Env, setting: nat, req: Request, r: Run, reply: Reply): Run
    requires r.Waiting?
  {
    match reply
    case Unexpected => Refused(r.seen)
    case Failure => Unserved(env, setting, r)
    case Success(b) =>
      if Serves(env.h, r.at, b) then Settle(env, setting, req, Fed(r, b)) else Refused(r.seen)
  }

  /** The run of a request over the replies so far. */
  function Fold(env: Env, setting: nat, req: Request, replies: seq<Reply>): Run {
    if replies == [] then Start(env, setting, req)
    else
      var before := Fold(env, setting, req, replies[..|replies| - 1]);
      if before.Waiting? then Step(env, setting, req, before, replies[|replies| - 1]) else before
  }

  // ---------------------------------------------------------------- what every run keeps

  ghost predicate Pass(h: Hash, c: Cursor, at: Cursor, trace: seq<Bytes>, buf: Bytes) {
    Trace(h, c, trace) && at == After(h, c, trace) && buf == Read(h, c, trace)
  }

  function Origin(req: Request, stage: Stage, p: Progress): Cursor {
    match stage
    case LengthStage => if req.SignRequest? then Cursor(req.txn, 0) else Cursor([], 0)
    case PathStage => Cursor(req.path, 0)
    case AddressStage => Cursor(req.path, 0)
    case _ => p.txn
  }

  /** Length and position were read from the head of the first parameter. */
  ghost predicate LengthKnown(env: Env, req: Request, p: Progress) {
    && req.SignRequest?
    && var c := Cursor(req.txn, 0);
    && Trace(env.h, c, p.lengthTrace)
    && |Read(env.h, c, p.lengthTrace)| >= LENGTH_BYTES
    && p.length == LittleEndian(Read(env.h, c, p.lengthTrace)[..LENGTH_BYTES])
    && p.txn == Advanced(env.h, c, p.lengthTrace, LENGTH_BYTES)
  }

  /** The path was read from the second parameter, and has the required prefix. */
  ghost predicate PathKnown(env: Env, req: Request, p: Progress) {
    && Trace(env.h, Cursor(req.path, 0), p.pathTrace)
    && var read := ParsePath(Read(env.h, Cursor(req.path, 0), p.pathTrace));
    && read.Path? && read.steps == p.path
    && HasPrefix(p.path)
  }

  /** The silent pass, over the blocks it was served, came to this verdict. */
  ghost predicate Recognised(env: Env, p: Progress, verdict: bool) {
    && Trace(env.h, p.txn, p.silentTrace)
    && (SilentPass(env, p, Read(env.h, p.txn, p.silentTrace)).Accept? <==> verdict)
  }

  /** The prompting pass, over the blocks it was served, was accepted with this transcript. */
  ghost predicate Shown(env: Env, p: Progress, seen: seq<Prompt>) {
    && Trace(env.h, p.txn, p.showTrace)
    && var o := ShowPass(env, p, Read(env.h, p.txn, p.showTrace));
    && o.Accept? && o.st == seen
  }

  function Warning(): Prompt {
    Scroll(WARNING, Ascii(NOT_RECOGNIZED))
  }

  ghost predicate Warned(env: Env, setting: nat, seen: seq<Prompt>) {
    setting != 0 && seen == [Warning()] && env.user(seen)
  }

  /** Why a request may get as far as its digest. */
  ghost predicate Grounds(env: Env, setting: nat, p: Progress, known: bool, seen: seq<Prompt>) {
    && Recognised(env, p, known)
    && if known then Shown(env, p, seen) else Warned(env, setting, seen)
  }

  ghost predicate StageInv(env: Env, setting: nat, req: Request, r: Run)
    requires r.Waiting?
  {
    match r.stage
    case LengthStage => req.SignRequest? && |r.buf| < LENGTH_BYTES
    case PathStage => LengthKnown(env, req, r.done)
    case RecogniseStage => LengthKnown(env, req, r.done) && PathKnown(env, req, r.done)
    case ShowStage => LengthKnown(env, req, r.done) && PathKnown(env, req, r.done) && Recognised(env, r.done, true)
    case DigestStage(known) =>
      && LengthKnown(env, req, r.done) && PathKnown(env, req, r.done)
      && Grounds(env, setting, r.done, known, r.seen)
    case AddressStage => req.AddressRequest?
  }

  /** The screens between the grounds and the signature. */
  function LastScreens(env: Env, known: bool, digest: Bytes): seq<Prompt> {
    (if known then [] else [Scroll("Transaction Hash", env.base64(digest))]) + [Final([FinalLine(known)])]
  }

  /** Every one of the last screens was accepted when it came. */
  ghost predicate Accepted(env: Env, before: seq<Prompt>, screens: seq<Prompt>) {
    forall k :: 0 < k <= |screens| ==> env.user(before + screens[..k])
  }

  ghost predicate SignedInv(env: Env, setting: nat, req: Request, r: Run, before: seq<Prompt>)
    requires r.Signed?
  {
    var p, digest := r.done, env.h(Take(r.buf, r.done.length));
    && LengthKnown(env, req, p) && PathKnown(env, req, p)
    && Grounds(env, setting, p, r.known, before)
    && Trace(env.h, p.txn, r.trace) && r.buf == Read(env.h, p.txn, r.trace) && |r.buf| >= p.length
    && r.seen == before + LastScreens(env, r.known, digest)
    && Accepted(env, before, LastScreens(env, r.known, digest))
    && var der := env.sign(p.path, digest);
    && der.Some? && Keys.FormattedSignature(der.value) == Some(r.sig)
  }

  /** A waiting request is waiting because its pass is undecided; what it has shown is what the pass has shown. */
  ghost predicate Undecided(env: Env, r: Run)
    requires r.Waiting?
  {
    match r.stage
    case RecogniseStage => SilentPass(env, r.done, r.buf).Starved? && r.seen == []
    case ShowStage => ShowPass(env, r.done, r.buf) == Starved(r.seen)
    case DigestStage(_) => true
    case _ => r.seen == []
  }

  // What a refused request has shown.

  predicate SignerFails(env: Env, path: seq<nat>, digest: Bytes) {
    var der := env.sign(path, digest);
    der.Some? ==> Keys.FormattedSignature(der.value).None?
  }

  /** The last screens were refused, or the signer failed. */
  ghost predicate LastRefused(env: Env, p: Progress, known: bool, before: seq<Prompt>, trace: seq<Bytes>,
                              seen: seq<Prompt>) {
    && Trace(env.h, p.txn, trace) && |Read(env.h, p.txn, trace)| >= p.length
    && var digest := env.h(Take(Read(env.h, p.txn, trace), p.length));
    && var hashed := if known then before else before + [Scroll("Transaction Hash", env.base64(digest))];
    && var last := hashed + [Final([if known then "Sign Transaction?" else "Blind Sign Transaction?"])];
    || (!known && seen == hashed && !env.user(hashed))
    || (seen == last && !env.user(last))
    || (seen == last && SignerFails(env, p.path, digest))
  }

  /** The last screens were refused, or the bytes for them did not come. */
  ghost predicate ClosingRefused(env: Env, p: Progress, known: bool, before: seq<Prompt>, seen: seq<Prompt>) {
    seen == before || exists trace :: LastRefused(env, p, known, before, trace, seen)
  }

  /** The prompting pass was refused, or its bytes did not come. */
  ghost predicate ShowRefused(env: Env, p: Progress, trace: seq<Bytes>, seen: seq<Prompt>) {
    && Trace(env.h, p.txn, trace)
    && var o := ShowPass(env, p, Read(env.h, p.txn, trace));
    && !o.Accept? && o.st == seen
  }

  ghost predicate RefusedUnknown(env: Env, setting: nat, p: Progress, seen: seq<Prompt>) {
    && Recognised(env, p, false)
    && if setting == 0 then
         seen == [Scroll("WARNING",
                         Ascii("Transaction not recognized, enable blind signing to sign unknown transactions"))]
       else
         var warned := [Scroll("WARNING", Ascii("Transaction not recognized"))];
         (seen == warned && !env.user(warned)) || (env.user(warned) && ClosingRefused(env, p, false, warned, seen))
  }

  ghost predicate RefusedKnown(env: Env, p: Progress, seen: seq<Prompt>) {
    && Recognised(env, p, true)
    && ((exists trace :: ShowRefused(env, p, trace, seen))
        || exists before :: Shown(env, p, before) && ClosingRefused(env, p, true, before, seen))
  }

  ghost predicate RefusedAfter(env: Env, setting: nat, req: Request, p: Progress, seen: seq<Prompt>) {
    && LengthKnown(env, req, p) && PathKnown(env, req, p)
    && (RefusedUnknown(env, setting, p, seen) || RefusedKnown(env, p, seen))
  }

  /** Nothing, or what recognition and its outcome call for. */
  ghost predicate RefusedInv(env: Env, setting: nat, req: Request, seen: seq<Prompt>) {
    seen == [] || exists p :: RefusedAfter(env, setting, req, p, seen)
  }

  /** The path was read from the parameter, and the reply is that of its key. */
  ghost predicate RepliedInv(env: Env, req: Request, r: Run)
    requires r.Replied?
  {
    && req.AddressRequest? && HasPrefix(r.path)
    && Trace(env.h, Cursor(req.path, 0), r.trace)
    && var read := ParsePath(Read(env.h, Cursor(req.path, 0), r.trace));
    && read.Path? && read.steps == r.path
    && r == Answer(env, r.path, req.verify, r.trace)
  }

  ghost predicate Inv(env: Env, setting: nat, req: Request, r: Run) {
    match r
    case Waiting(stage, p, at, trace, buf, _) =>
      Pass(env.h, Origin(req, stage, p), at, trace, buf) && StageInv(env, setting, req, r) && Undecided(env, r)
    case Signed(_, _, _, _, _, _) => exists before :: SignedInv(env, setting, req, r, before)
    case Replied(_, _, _, _) => RepliedInv(env, req, r)
    case Refused(seen) => RefusedInv(env, setting, req, seen)
  }

  lemma {:induction false} EmptyPass(h: Hash, c: Cursor)
    ensures Pass(h, c, c, [], [])
  {
  }

  lemma {:induction false} LastAccepted(env: Env, known: bool, digest: Bytes, seen: seq<Prompt>, final: seq<Prompt>)
    requires known ==> final == seen + [Final([FinalLine(known)])] && env.user(final)
    requires !known ==>
               var hashed := seen + [Scroll("Transaction Hash", env.base64(digest))];
               env.user(hashed) && final == hashed + [Final([FinalLine(known)])] && env.user(final)
    ensures final == seen + LastScreens(env, known, digest) && Accepted(env, seen, LastScreens(env, known, digest))
  {
    var screens := LastScreens(env, known, digest);
    assert screens[..|screens|] == screens;
    if !known {
      assert screens[..1] == [Scroll("Transaction Hash", env.base64(digest))];
    }
  }

  lemma {:induction false} ClosingKeeps(env: Env, setting: nat, req: Request, known: bool, p: Progress,
                                        before: seq<Prompt>, seen: seq<Prompt>)
    requires LengthKnown(env, req, p) && PathKnown(env, req, p) && Grounds(env, setting, p, known, before)
    requires ClosingRefused(env, p, known, before, seen)
    ensures RefusedInv(env, setting, req, seen)
  {
    if known {
      assert RefusedKnown(env, p, seen);
    } else {
      assert RefusedUnknown(env, setting, p, seen);
    }
    assert RefusedAfter(env, setting, req, p, seen);
  }

  lemma {:induction false} FinishKeeps(env: Env, setting: nat, req: Request, known: bool, p: Progress,
                                       trace: seq<Bytes>, buf: Bytes, seen: seq<Prompt>)
    requires LengthKnown(env, req, p) && PathKnown(env, req, p) && Grounds(env, setting, p, known, seen)
    requires Trace(env.h, p.txn, trace) && buf == Read(env.h, p.txn, trace) && |buf| >= p.length
    ensures Inv(env, setting, req, Finish(env, known, p, trace, buf, seen))
  {
    var r := Finish(env, known, p, trace, buf, seen);
    if r.Signed? {
      var digest := env.h(Take(buf, p.length));
      var screens := LastScreens(env, known, digest);
      LastAccepted(env, known, digest, seen, r.seen);
      assert SignedInv(env, setting, req, r, seen);
    } else {
      assert LastRefused(env, p, known, seen, trace, r.seen);
      ClosingKeeps(env, setting, req, known, p, seen, r.seen);
    }
  }

  lemma {:induction false} DigestKeeps(env: Env, setting: nat, req: Request, known: bool, p: Progress, at: Cursor,
                                       trace: seq<Bytes>, buf: Bytes, seen: seq<Prompt>)
    requires LengthKnown(env, req, p) && PathKnown(env, req, p) && Grounds(env, setting, p, known, seen)
    requires Pass(env.h, p.txn, at, trace, buf)
    ensures Inv(env, setting, req, SettleDigest(env, known, p, at, trace, buf, seen))
  {
    if |buf| >= p.length {
      FinishKeeps(env, setting, req, known, p, trace, buf, seen);
    } else if AtEnd(at) {
      ClosingKeeps(env, setting, req, known, p, seen, seen);
    }
  }

  lemma {:induction false} ShowKeeps(env: Env, setting: nat, req: Request, p: Progress, at: Cursor, trace: seq<Bytes>,
                                     buf: Bytes)
    requires LengthKnown(env, req, p) && PathKnown(env, req, p) && Recognised(env, p, true)
    requires Pass(env.h, p.txn, at, trace, buf)
    ensures Inv(env, setting, req, SettleShow(env, p, at, trace, buf))
  {
    var o := ShowPass(env, p, buf);
    if o.Accept? {
      var p' := p.(showTrace := trace);
      assert ShowPass(env, p', buf) == o;
      assert SilentPass(env, p', Read(env.h, p'.txn, p'.silentTrace)) ==
             SilentPass(env, p, Read(env.h, p.txn, p.silentTrace));
      EmptyPass(env.h, p'.txn);
      DigestKeeps(env, setting, req, true, p', p'.txn, [], [], o.st);
    } else {
      assert ShowRefused(env, p, trace, o.st);
      assert RefusedAfter(env, setting, req, p, o.st);
    }
  }

  lemma {:induction false} UnrecognisedKeeps(env: Env, setting: nat, req: Request, p: Progress)
    requires LengthKnown(env, req, p) && PathKnown(env, req, p) && Recognised(env, p, false)
    ensures Inv(env, setting, req, Unrecognised(env, setting, p))
  {
    assert [] + [Warning()] == [Warning()];
    if setting != 0 && env.user([Warning()]) {
      EmptyPass(env.h, p.txn);
      DigestKeeps(env, setting, req, false, p, p.txn, [], [], [Warning()]);
    } else {
      var refused := Scroll(WARNING, Ascii(ENABLE_FIRST));
      assert [] + [refused] == [refused];
      assert RefusedAfter(env, setting, req, p, Unrecognised(env, setting, p).seen);
    }
  }

  lemma {:induction false} RecogniseKeeps(env: Env, setting: nat, req: Request, p: Progress, at: Cursor,
                                          trace: seq<Bytes>, buf: Bytes)
    requires LengthKnown(env, req, p) && PathKnown(env, req, p) && Pass(env.h, p.txn, at, trace, buf)
    ensures Inv(env, setting, req, SettleRecognise(env, setting, p, at, trace, buf))
    ensures !SilentPass(env, p, buf).Accept? ==>
              Inv(env, setting, req, Unrecognised(env, setting, p.(silentTrace := trace)))
  {
    var o, p' := SilentPass(env, p, buf), p.(silentTrace := trace);
    assert SilentPass(env, p', buf) == o;
    if o.Accept? {
      EmptyPass(env.h, p'.txn);
      ShowKeeps(env, setting, req, p', p'.txn, [], []);
    } else {
      UnrecognisedKeeps(env, setting, req, p');
    }
  }

  lemma {:induction false} PathKeeps(env: Env, setting: nat, req: Request, p: Progress, at: Cursor, trace: seq<Bytes>,
                                     buf: Bytes)
    requires LengthKnown(env, req, p) && Pass(env.h, Cursor(req.path, 0), at, trace, buf)
    ensures Inv(env, setting, req, SettlePath(env, setting, p, at, trace, buf))
  {
    var read := ParsePath(buf);
    if read.Path? && HasPrefix(read.steps) {
      var p' := p.(path := read.steps, pathTrace := trace);
      EmptyPass(env.h, p'.txn);
      RecogniseKeeps(env, setting, req, p', p'.txn, [], []);
    }
  }

  lemma {:induction false} StartPathKeeps(env: Env, setting: nat, req: Request, p: Progress)
    requires LengthKnown(env, req, p)
    ensures Inv(env, setting, req, StartPath(env, setting, req, p))
  {
    EmptyPass(env.h, Cursor(req.path, 0));
    PathKeeps(env, setting, req, p, Cursor(req.path, 0), [], []);
  }

  /** An address reply always fits: no address request is refused behind its screens. */
  lemma {:induction false} AnswerKeeps(env: Env, path: seq<nat>, verify: bool, trace: seq<Bytes>)
    ensures var r := Answer(env, path, verify, trace); r.Replied? || r == Refused([])
  {
    var point := env.point(path);
    if point.Some? {
      var pubkey := Keys.Compressed(point.value);
      var pkh := env.pkh(pubkey);
      if pkh.Some? { Addresses.ReplyRoundTrip(env.checksum, pubkey, pkh.value); }
    }
  }

  lemma {:induction false} AddressKeeps(env: Env, setting: nat, req: Request, at: Cursor, trace: seq<Bytes>,
                                        buf: Bytes)
    requires req.AddressRequest? && Pass(env.h, Cursor(req.path, 0), at, trace, buf)
    ensures Inv(env, setting, req, SettleAddress(env, req.verify, at, trace, buf))
  {
    var read := ParsePath(buf);
    if read.Path? && HasPrefix(read.steps) { AnswerKeeps(env, read.steps, req.verify, trace); }
  }

  lemma {:induction false} StartKeeps(env: Env, setting: nat, req: Request)
    ensures Inv(env, setting, req, Start(env, setting, req))
  {
    if req.SignRequest? {
      EmptyPass(env.h, Cursor(req.txn, 0));
    } else {
      EmptyPass(env.h, Cursor(req.path, 0));
      AddressKeeps(env, setting, req, Cursor(req.path, 0), [], []);
    }
  }

  /** Feeding a block to a stage that takes all of it continues its pass. */
  lemma {:induction false} FedWhole(env: Env, c: Cursor, r: Run, b: Bytes)
    requires r.Waiting? && Pass(env.h, c, r.at, r.trace, r.buf) && Serves(env.h, r.at, b)
    requires Wanted(r, Data(b)[r.at.offset..]) == Data(b)[r.at.offset..]
    ensures var f := Fed(r, b); Pass(env.h, c, f.at, f.trace, f.buf)
  {
    TraceSnoc(env.h, c, r.trace, b);
  }

  /** The cursor behind the fourth byte. */
  lemma {:induction false} AdvancedIntoLast(h: Hash, c: Cursor, t: seq<Bytes>, b: Bytes, k: nat)
    requires Trace(h, c, t) && Serves(h, After(h, c, t), b)
    requires |Read(h, c, t)| < k <= |Read(h, c, t)| + |Data(b)| - After(h, c, t).offset
    ensures Trace(h, c, t + [b]) && k <= |Read(h, c, t + [b])|
    ensures var off := After(h, c, t).offset + (k - |Read(h, c, t)|);
            Advanced(h, c, t + [b], k) ==
            if off < |Data(b)| then Cursor(After(h, c, t).head, off) else Past(b)
    decreases |t|
  {
    TraceSnoc(h, c, t, b);
    if t == [] {
      assert [] + [b] == [b] && [b][1..] == [];
    } else {
      assert (t + [b])[1..] == t[1..] + [b] && (t + [b])[0] == t[0];
      var k' := k - (|Data(t[0])| - c.offset);
      AdvancedIntoLast(h, Past(t[0]), t[1..], b, k');
    }
  }

  /** The fourth byte has been read: length and position are known. */
  lemma {:induction false} LengthComplete(env: Env, req: Request, r: Run, b: Bytes)
    requires r.Waiting? && r.stage.LengthStage? && req.SignRequest? && |r.buf| < LENGTH_BYTES
    requires Pass(env.h, Cursor(req.txn, 0), r.at, r.trace, r.buf) && Serves(env.h, r.at, b)
    requires |r.buf| + |Data(b)[r.at.offset..]| >= LENGTH_BYTES
    ensures var f := Fed(r, b);
            |f.buf| == LENGTH_BYTES &&
            LengthKnown(env, req,
                        FRESH.(length := LittleEndian(f.buf[..LENGTH_BYTES]), txn := f.at, lengthTrace := f.trace))
  {
    var c, f := Cursor(req.txn, 0), Fed(r, b);
    TraceSnoc(env.h, c, r.trace, b);
    AdvancedIntoLast(env.h, c, r.trace, b, LENGTH_BYTES);
    assert f.buf == Read(env.h, c, f.trace)[..LENGTH_BYTES];
    assert f.buf[..LENGTH_BYTES] == f.buf;
  }

  lemma {:induction false} LengthStep(env: Env, setting: nat, req: Request, r: Run, b: Bytes)
    requires r.Waiting? && r.stage.LengthStage? && Inv(env, setting, req, r) && Serves(env.h, r.at, b)
    ensures Inv(env, setting, req, Settle(env, setting, req, Fed(r, b)))
  {
    var f := Fed(r, b);
    if |r.buf| + |Data(b)[r.at.offset..]| < LENGTH_BYTES {
      FedWhole(env, Cursor(req.txn, 0), r, b);
    } else {
      LengthComplete(env, req, r, b);
      StartPathKeeps(env, setting, req,
                     FRESH.(length := LittleEndian(f.buf[..LENGTH_BYTES]), txn := f.at, lengthTrace := f.trace));
    }
  }

  lemma {:induction false} SettleKeeps(env: Env, setting: nat, req: Request, r: Run)
    requires r.Waiting? && !r.stage.LengthStage? && StageInv(env, setting, req, r)
    requires Pass(env.h, Origin(req, r.stage, r.done), r.at, r.trace, r.buf)
    ensures Inv(env, setting, req, Settle(env, setting, req, r))
  {
    match r.stage
    case PathStage => PathKeeps(env, setting, req, r.done, r.at, r.trace, r.buf);
    case RecogniseStage => RecogniseKeeps(env, setting, req, r.done, r.at, r.trace, r.buf);
    case ShowStage => ShowKeeps(env, setting, req, r.done, r.at, r.trace, r.buf);
    case DigestStage(known) => DigestKeeps(env, setting, req, known, r.done, r.at, r.trace, r.buf, r.seen);
    case AddressStage => AddressKeeps(env, setting, req, r.at, r.trace, r.buf);
  }

  /** A request that ends while it waits has shown what it had shown. */
  lemma {:induction false} BrokenOffKeeps(env: Env, setting: nat, req: Request, r: Run)
    requires r.Waiting? && Inv(env, setting, req, r)
    ensures RefusedInv(env, setting, req, r.seen)
  {
    match r.stage
    case ShowStage =>
      assert ShowRefused(env, r.done, r.trace, r.seen);
      assert RefusedAfter(env, setting, req, r.done, r.seen);
    case DigestStage(known) => ClosingKeeps(env, setting, req, known, r.done, r.seen, r.seen);
    case _ =>
  }

  lemma {:induction false} StepKeeps(env: Env, setting: nat, req: Request, r: Run, reply: Reply)
    requires r.Waiting? && Inv(env, setting, req, r)
    ensures Inv(env, setting, req, Step(env, setting, req, r, reply))
  {
    BrokenOffKeeps(env, setting, req, r);
    match reply
    case Unexpected =>
    case Failure =>
      if r.stage.RecogniseStage? { RecogniseKeeps(env, setting, req, r.done, r.at, r.trace, r.buf); }
    case Success(b) =>
      if Serves(env.h, r.at, b) {
        if r.stage.LengthStage? {
          LengthStep(env, setting, req, r, b);
        } else {
          FedWhole(env, Origin(req, r.stage, r.done), r, b);
          SettleKeeps(env, setting, req, Fed(r, b));
        }
      }
  }

  /** Every run, over any replies of any host, keeps the invariant. */
  lemma {:induction false} FoldKeeps(env: Env, setting: nat, req: Request, replies: seq<Reply>)
    ensures Inv(env, setting, req, Fold(env, setting, req, replies))
  {
    if replies == [] {
      StartKeeps(env, setting, req);
    } else {
      var init := replies[..|replies| - 1];
      FoldKeeps(env, setting, req, init);
      var r := Fold(env, setting, req, init);
      if r.Waiting? { StepKeeps(env, setting, req, r, replies[|replies| - 1]); }
    }
  }
}
