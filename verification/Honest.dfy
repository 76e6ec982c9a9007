// A host that keeps to the block protocol, and a person who accepts: the request ends in a signature.

module Honest {
  import opened Octets
  import opened Numbers
  import opened Interp
  import opened Runs
  import opened Screen
  import opened Transaction
  import opened Transcript
  import opened Paths
  import opened Blocks
  import opened Signing
  import opened Outcomes
  import opened SignApdu
  import opened Blind
  import Keys

  // ---------------------------------------------------------------- the host

  /** The blocks a host has. It answers a request for a hash with the block that has it; one that withholds answers
      FAILURE during the recognition. */
  datatype Host = Host(blocks: seq<Bytes>, withholds: bool)

  function Held(h: Hash, blocks: seq<Bytes>, head: Bytes): Option<Bytes> {
    if blocks == [] then None else if h(blocks[0]) == head then Some(blocks[0]) else Held(h, blocks[1..], head)
  }

  function HostReply(h: Hash, host: Host, r: Run): Reply
    requires r.Waiting?
  {
    if host.withholds && r.stage.RecogniseStage? then Failure
    else
      match Held(h, host.blocks, r.at.head)
      case None => Failure
      case Some(b) => Success(b)
  }

  /** A request as something that replies move on, and a host as something that gives them. */
  type Machine = (Run, Reply) -> Run
  type Answerer = Run -> Reply

  function MachineOf(env: Env, setting: nat, req: Request): Machine {
    (r: Run, reply: Reply) => if r.Waiting? then Step(env, setting, req, r, reply) else r
  }

  function AnswererOf(h: Hash, host: Host): Answerer {
    (r: Run) => if r.Waiting? then HostReply(h, host, r) else Failure
  }

  /** The replies to the next `n` requests. */
  function Dialogue(step: Machine, answer: Answerer, r: Run, n: nat): seq<Reply>
    decreases n
  {
    if n == 0 || !r.Waiting? then [] else [answer(r)] + Dialogue(step, answer, step(r, answer(r)), n - 1)
  }

  /** The request after them. */
  function Converse(step: Machine, answer: Answerer, r: Run, n: nat): Run
    decreases n
  {
    if n == 0 || !r.Waiting? then r else Converse(step, answer, step(r, answer(r)), n - 1)
  }

  /** Going on from a state of a request. */
  function FoldFrom(step: Machine, r: Run, replies: seq<Reply>): Run
    decreases |replies|
  {
    if replies == [] || !r.Waiting? then r else FoldFrom(step, step(r, replies[0]), replies[1..])
  }

  lemma {:induction false} ConverseIs(step: Machine, answer: Answerer, r: Run, n: nat)
    ensures Converse(step, answer, r, n) == FoldFrom(step, r, Dialogue(step, answer, r, n))
    decreases n
  {
    if n == 0 || !r.Waiting? {
    } else {
      var rest := Dialogue(step, answer, step(r, answer(r)), n - 1);
      ConverseIs(step, answer, step(r, answer(r)), n - 1);
      assert ([answer(r)] + rest)[0] == answer(r) && ([answer(r)] + rest)[1..] == rest;
    }
  }

  lemma {:induction false} ConverseMore(step: Machine, answer: Answerer, r: Run, n: nat, m: nat)
    requires n <= m && !Converse(step, answer, r, n).Waiting?
    ensures Converse(step, answer, r, m) == Converse(step, answer, r, n)
    decreases n
  {
    if n == 0 || !r.Waiting? {
    } else {
      ConverseMore(step, answer, step(r, answer(r)), n - 1, m - 1);
    }
  }

  lemma {:induction false} FoldSnoc(env: Env, setting: nat, req: Request, past: seq<Reply>, reply: Reply)
    ensures var r := Fold(env, setting, req, past);
            Fold(env, setting, req, past + [reply]) == MachineOf(env, setting, req)(r, reply)
  {
    assert (past + [reply])[..|past|] == past;
  }

  lemma {:induction false} StaysDone(step: Machine, r: Run, replies: seq<Reply>)
    ensures !r.Waiting? ==> FoldFrom(step, r, replies) == r
  {
  }

  lemma {:induction false} FoldFromStart(env: Env, setting: nat, req: Request, past: seq<Reply>, replies: seq<Reply>)
    ensures Fold(env, setting, req, past + replies) ==
            FoldFrom(MachineOf(env, setting, req), Fold(env, setting, req, past), replies)
    decreases |replies|
  {
    var step, before := MachineOf(env, setting, req), Fold(env, setting, req, past);
    if replies == [] {
      assert past + replies == past;
    } else {
      assert past + replies == past + [replies[0]] + replies[1..];
      FoldSnoc(env, setting, req, past, replies[0]);
      FoldFromStart(env, setting, req, past + [replies[0]], replies[1..]);
      StaysDone(step, before, replies[1..]);
    }
  }

  /** The host answers the hash of each of these blocks with the block. */
  predicate Has(h: Hash, host: Host, u: seq<Bytes>)
    decreases |u|
  {
    u == [] || (Held(h, host.blocks, h(u[0])) == Some(u[0]) && Has(h, host, u[1..]))
  }

  lemma {:induction false} HeldIs(h: Hash, blocks: seq<Bytes>, b: Bytes, all: set<Bytes>)
    requires NoCollision(h, all) && Set(blocks) <= all && b in blocks
    ensures Held(h, blocks, h(b)) == Some(b)
  {
    if h(blocks[0]) == h(b) {
      assert blocks[0] in Set(blocks) && b in Set(blocks);
    } else {
      assert Set(blocks[1..]) <= Set(blocks);
      HeldIs(h, blocks[1..], b, all);
    }
  }

  /** It does if it has the blocks, and no two that it could mix up. */
  lemma {:induction false} HasAll(h: Hash, host: Host, u: seq<Bytes>)
    requires NoCollision(h, Set(host.blocks)) && forall b :: b in u ==> b in host.blocks
    ensures Has(h, host, u)
    decreases |u|
  {
    if u == [] {
    } else {
      HeldIs(h, host.blocks, u[0], Set(host.blocks));
      HasAll(h, host, u[1..]);
    }
  }

  // ---------------------------------------------------------------- what a conversation comes to

  /** Whether the bytes go the known way with a host that withholds or not. An empty transaction needs no block. */
  predicate Known(env: Env, w: Bytes, withholds: bool) {
    Recognisable(env, w) && !(withholds && w != [])
  }

  /** The screens before the last ones. */
  function FirstScreens(env: Env, w: Bytes, known: bool): seq<Prompt> {
    if known then Eval(env.lib, Prompting(env.user), TxnParser(), w, |w|, []).st else [Warning()]
  }

  /** What a request comes to, told from transaction, path, setting and person alone. */
  datatype Fate = Denied(seen: seq<Prompt>) | Granted(sig: Bytes, known: bool, seen: seq<Prompt>)

  /** The last screens and the signature, after these. */
  function Closing(env: Env, path: seq<nat>, w: Bytes, known: bool, before: seq<Prompt>): Fate {
    var digest := env.h(w);
    var hashed := if known then before else before + [Scroll("Transaction Hash", env.base64(digest))];
    var last := hashed + [Final([if known then "Sign Transaction?" else "Blind Sign Transaction?"])];
    if !known && !env.user(hashed) then Denied(hashed)
    else if !env.user(last) then Denied(last)
    else
      match env.sign(path, digest)
      case None => Denied(last)
      case Some(der) =>
        match Keys.FormattedSignature(der)
        case None => Denied(last)
        case Some(sig) => Granted(sig, known, last)
  }

  /** Two to ten steps, of which the first are 44' and 505'. */
  predicate PathAllowed(path: seq<nat>) {
    2 <= |path| <= 10 && path[0] == 0x8000_0000 + 44 && path[1] == 0x8000_0000 + 505
  }

  function FateOf(env: Env, setting: nat, path: seq<nat>, w: Bytes, withholds: bool): Fate {
    if !PathAllowed(path) then Denied([])
    else if Known(env, w, withholds) then
      var es := TxnHanded(env.lib, w);
      var k := FirstRefused(env.user, [], es);
      if k < |es| then Denied(AllPrompts(es[..k + 1])) else Closing(env, path, w, true, AllPrompts(es))
    else if setting == 0 then
      Denied([Scroll("WARNING",
                     Ascii("Transaction not recognized, enable blind signing to sign unknown transactions"))])
    else
      var warned := [Scroll("WARNING", Ascii("Transaction not recognized"))];
      if env.user(warned) then Closing(env, path, w, false, warned) else Denied(warned)
  }

  /** The request has come to this. */
  predicate Meets(r: Run, w: Bytes, fate: Fate) {
    match fate
    case Denied(seen) => r == Refused(seen)
    case Granted(sig, known, seen) =>
      r.Signed? && r.sig == sig && r.known == known && r.seen == seen && Subject(r) == w
  }

  /** The request has ended with a signature of `w`, and the screens were those for `w`. */
  predicate SignsExactly(env: Env, r: Run, w: Bytes, known: bool) {
    && r.Signed? && Subject(r) == w && r.known == known
    && r.seen == FirstScreens(env, w, known) + LastScreens(env, known, env.h(w))
  }

  /** What a state comes to within some number of replies. */
  type Reach = (Run, nat) -> bool

  ghost predicate InductiveFor(step: Machine, answer: Answerer, reach: Reach) {
    && (forall r: Run, n: nat :: r.Waiting? && reach(step(r, answer(r)), n) ==> reach(r, n + 1))
    && (forall r: Run, n: nat, m: nat :: n <= m && reach(r, n) ==> reach(r, m))
  }

  /** It is enough that the next state comes to it; and more replies do no harm. */
  ghost predicate Inductive(env: Env, setting: nat, req: Request, host: Host, reach: Reach) {
    InductiveFor(MachineOf(env, setting, req), AnswererOf(env.h, host), reach)
  }

  lemma {:induction false} OnServed(env: Env, setting: nat, req: Request, r: Run, next: Run, u: seq<Bytes>, host: Host,
                                  n: nat, reach: Reach)
    requires Inductive(env, setting, req, host, reach)
    requires r.Waiting? && !(host.withholds && r.stage.RecogniseStage?)
    requires u != [] && Has(env.h, host, u) && r.at.head == env.h(u[0])
    requires next == Step(env, setting, req, r, Success(u[0])) && reach(next, n)
    ensures reach(r, n + 1)
  {
    assert AnswererOf(env.h, host)(r) == Success(u[0]);
    assert MachineOf(env, setting, req)(r, Success(u[0])) == next;
  }

  lemma {:induction false} Later(env: Env, setting: nat, req: Request, r: Run, host: Host, n: nat, m: nat, reach: Reach)
    requires Inductive(env, setting, req, host, reach) && n <= m && reach(r, n)
    ensures reach(r, m)
  {
  }

  /** Once all of `w` is there to be hashed, the goal is reached. */
  ghost predicate Finishes(env: Env, known: bool, path: seq<nat>, w: Bytes, seen: seq<Prompt>, reach: Reach) {
    forall p: Progress, trace: seq<Bytes>, buf: Bytes ::
      p.path == path && p.length == |w| && w <= buf ==>
        reach(Finish(env, known, p, trace, buf, seen), 0)
  }

  /** The last screens are accepted and the signer delivers. */
  ghost predicate WillSign(env: Env, known: bool, path: seq<nat>, w: Bytes, seen: seq<Prompt>) {
    && Accepted(env, seen, LastScreens(env, known, env.h(w)))
    && var der := env.sign(path, env.h(w));
    && der.Some? && Keys.FormattedSignature(der.value).Some?
  }

  lemma {:induction false} FinishMeets(env: Env, known: bool, p: Progress, trace: seq<Bytes>, buf: Bytes,
                                       seen: seq<Prompt>, w: Bytes)
    requires p.length == |w| && w <= buf
    ensures Meets(Finish(env, known, p, trace, buf, seen), w, Closing(env, p.path, w, known, seen))
  {
    assert Take(buf, |w|) == w;
  }

  /** For a person who accepts, that is a signature. */
  lemma {:induction false} WillClose(env: Env, known: bool, path: seq<nat>, w: Bytes, seen: seq<Prompt>)
    requires WillSign(env, known, path, w, seen)
    ensures var f := Closing(env, path, w, known, seen);
            f.Granted? && f.known == known && f.seen == seen + LastScreens(env, known, env.h(w))
  {
    var screens := LastScreens(env, known, env.h(w));
    assert screens[..|screens|] == screens;
    assert env.user(seen + screens[..|screens|]);
    if known {
      assert screens == [Final([FinalLine(true)])];
    } else {
      var hashed := seen + [Scroll("Transaction Hash", env.base64(env.h(w)))];
      assert seen + screens[..1] == hashed;
      assert seen + screens == hashed + [Final([FinalLine(false)])];
    }
  }

  /** What is present and what is still to come hold the wanted bytes. */
  ghost predicate Coming(h: Hash, at: Cursor, u: seq<Bytes>, buf: Bytes, w: Bytes) {
    Trace(h, at, u) && w <= buf + Read(h, at, u)
  }

  lemma {:induction false} NothingLeft(h: Hash, at: Cursor, u: seq<Bytes>, buf: Bytes)
    requires Trace(h, at, u)
    ensures u == [] ==> buf + Read(h, at, u) == buf
  {
  }

  lemma {:induction false} ComingStep(h: Hash, at: Cursor, u: seq<Bytes>, buf: Bytes, w: Bytes)
    requires Coming(h, at, u, buf, w) && |buf| < |w|
    ensures u != [] && Serves(h, at, u[0]) && !AtEnd(at)
    ensures Coming(h, Past(u[0]), u[1..], buf + Data(u[0])[at.offset..], w)
  {
    NothingLeft(h, at, u, buf);
    TakenAll(h, at, u, buf);
  }

  lemma {:induction false} DigestReaches(env: Env, setting: nat, req: Request, known: bool, p: Progress, at: Cursor,
                                         trace: seq<Bytes>, buf: Bytes, seen: seq<Prompt>, u: seq<Bytes>, w: Bytes,
                                         host: Host, reach: Reach)
    requires Inductive(env, setting, req, host, reach)
    requires Has(env.h, host, u)
    requires p.length == |w| && Coming(env.h, at, u, buf, w) && Finishes(env, known, p.path, w, seen, reach)
    ensures reach(SettleDigest(env, known, p, at, trace, buf, seen), |u|)
    decreases |u|
  {
    var r := SettleDigest(env, known, p, at, trace, buf, seen);
    if |buf| >= |w| {
      assert w <= buf by { assert w <= buf + Read(env.h, at, u); }
    } else {
      ComingStep(env.h, at, u, buf, w);
      DigestServed(env, setting, req, known, p, at, trace, buf, seen, u[0]);
      DigestReaches(env, setting, req, known, p, Past(u[0]), trace + [u[0]], buf + Data(u[0])[at.offset..], seen,
                    u[1..], w, host, reach);
      var next := SettleDigest(env, known, p, Past(u[0]), trace + [u[0]], buf + Data(u[0])[at.offset..], seen);
      OnServed(env, setting, req, r, next, u, host, |u[1..]|, reach);
    }
  }

  /** A pass over the beginning of `w` is undecided only while bytes are missing, and decides as all of `w`. */
  lemma {:induction false} PassOfPart(lib: Library, on: (Event, seq<Prompt>) -> (bool, seq<Prompt>), h: Hash,
                                      at: Cursor, u: seq<Bytes>, buf: Bytes, w: Bytes)
    requires Coming(h, at, u, buf, w)
    ensures var o := Eval(lib, on, TxnParser(), Take(buf, |w|), |w|, []);
            if o.Starved? then |buf| < |w| else o == Eval(lib, on, TxnParser(), w, |w|, [])
  {
    var part := Take(buf, |w|);
    assert part <= w by { assert w <= buf + Read(h, at, u); }
    if |buf| >= |w| { EvalDecided(lib, on, TxnParser(), part, |w|, []); }
    var o := Eval(lib, on, TxnParser(), part, |w|, []);
    if !o.Starved? { EvalStable(lib, on, TxnParser(), part, w, |w|, []); }
  }

  /** The goal is reached whether the prompting pass is accepted or not. */
  ghost predicate ShowReady(env: Env, path: seq<nat>, w: Bytes, reach: Reach) {
    var o := Eval(env.lib, Prompting(env.user), TxnParser(), w, |w|, []);
    if o.Accept? then Finishes(env, true, path, w, o.st, reach) else reach(Refused(o.st), 0)
  }

  lemma {:induction false} ShowReaches(env: Env, setting: nat, req: Request, p: Progress, at: Cursor,
                                       trace: seq<Bytes>, buf: Bytes, u: seq<Bytes>, t: seq<Bytes>, w: Bytes,
                                       host: Host, reach: Reach)
    requires Inductive(env, setting, req, host, reach)
    requires Has(env.h, host, u) && Has(env.h, host, t)
    requires p.length == |w| && Coming(env.h, at, u, buf, w) && Coming(env.h, p.txn, t, [], w)
    requires ShowReady(env, p.path, w, reach)
    ensures reach(SettleShow(env, p, at, trace, buf), |u| + |t|)
    decreases |u|
  {
    var r := SettleShow(env, p, at, trace, buf);
    PassOfPart(env.lib, Prompting(env.user), env.h, at, u, buf, w);
    var o := ShowPass(env, p, buf);
    if o.Starved? {
      ComingStep(env.h, at, u, buf, w);
      ShowServed(env, setting, req, p, at, trace, buf, u[0]);
      ShowReaches(env, setting, req, p, Past(u[0]), trace + [u[0]], buf + Data(u[0])[at.offset..], u[1..], t, w,
                  host, reach);
      var next := SettleShow(env, p, Past(u[0]), trace + [u[0]], buf + Data(u[0])[at.offset..]);
      OnServed(env, setting, req, r, next, u, host, |u[1..]| + |t|, reach);
    } else if o.Accept? {
      DigestReaches(env, setting, req, true, p.(showTrace := trace), p.txn, [], [], o.st, t, w, host, reach);
      Later(env, setting, req, r, host, |t|, |u| + |t|, reach);
    } else {
      Later(env, setting, req, r, host, 0, |u| + |t|, reach);
    }
  }

  /** The person accepts what this transaction puts on the screen, and the setting allows it. */
  ghost predicate Willing(env: Env, setting: nat, path: seq<nat>, w: Bytes, withholds: bool) {
    if Known(env, w, withholds) then
      var o := Eval(env.lib, Prompting(env.user), TxnParser(), w, |w|, []);
      o.Accept? && WillSign(env, true, path, w, o.st)
    else
      setting != 0 && env.user([Warning()]) && WillSign(env, false, path, w, [Warning()])
  }

  /** The goal is reached whichever way the transaction goes. */
  ghost predicate Ready(env: Env, setting: nat, path: seq<nat>, w: Bytes, withholds: bool, reach: Reach) {
    if Known(env, w, withholds) then ShowReady(env, path, w, reach)
    else if setting == 0 then reach(Refused([Scroll(WARNING, Ascii(ENABLE_FIRST))]), 0)
    else if !env.user([Warning()]) then reach(Refused([Warning()]), 0)
    else Finishes(env, false, path, w, [Warning()], reach)
  }

  lemma {:induction false} BlindReaches(env: Env, setting: nat, req: Request, p: Progress, t: seq<Bytes>, w: Bytes,
                                        host: Host, reach: Reach)
    requires Inductive(env, setting, req, host, reach)
    requires Has(env.h, host, t) && p.length == |w| && Coming(env.h, p.txn, t, [], w)
    requires !Known(env, w, host.withholds) && Ready(env, setting, p.path, w, host.withholds, reach)
    ensures reach(Unrecognised(env, setting, p), |t|)
  {
    var r := Unrecognised(env, setting, p);
    assert [] + [Warning()] == [Warning()];
    if setting == 0 {
      assert [] + [Scroll(WARNING, Ascii(ENABLE_FIRST))] == [Scroll(WARNING, Ascii(ENABLE_FIRST))];
      Later(env, setting, req, r, host, 0, |t|, reach);
    } else if !env.user([Warning()]) {
      Later(env, setting, req, r, host, 0, |t|, reach);
    } else {
      DigestReaches(env, setting, req, false, p, p.txn, [], [], [Warning()], t, w, host, reach);
    }
  }

  /** With nothing of a non-empty transaction present, no pass is decided. */
  lemma {:induction false} NothingDecides(env: Env, p: Progress)
    ensures SilentPass(env, p, []).Starved? <==> p.length > 0
  {
    var o: Out<seq<Prompt>> := Eval(env.lib, Silent(), Message(DocFields()), [], p.length, []);
    assert o == Closed(EvalFields(env.lib, Silent(), DocFields(), [], p.length, map[], []));
  }

  lemma {:induction false} RecogniseReaches(env: Env, setting: nat, req: Request, p: Progress, at: Cursor,
                                            trace: seq<Bytes>, buf: Bytes, u: seq<Bytes>, t: seq<Bytes>, w: Bytes,
                                            host: Host, reach: Reach)
    requires Inductive(env, setting, req, host, reach)
    requires Has(env.h, host, u) && Has(env.h, host, t)
    requires p.length == |w| && Coming(env.h, at, u, buf, w) && Coming(env.h, p.txn, t, [], w)
    requires host.withholds ==> buf == []
    requires Ready(env, setting, p.path, w, host.withholds, reach)
    ensures reach(SettleRecognise(env, setting, p, at, trace, buf), |u| + 2 * |t|)
    decreases |u|
  {
    var r := SettleRecognise(env, setting, p, at, trace, buf);
    PassOfPart(env.lib, Silent(), env.h, at, u, buf, w);
    NothingDecides(env, p);
    var o := SilentPass(env, p, buf);
    var p' := p.(silentTrace := trace);
    if o.Starved? {
      ComingStep(env.h, at, u, buf, w);
      if host.withholds {
        BlindReaches(env, setting, req, p', t, w, host, reach);
        assert AnswererOf(env.h, host)(r) == Failure;
        assert MachineOf(env, setting, req)(r, Failure) == Unrecognised(env, setting, p');
        Later(env, setting, req, r, host, |t| + 1, |u| + 2 * |t|, reach);
      } else {
        RecogniseMore(env, setting, req, p, at, trace, buf, u, t, w, host, reach);
      }
    } else if o.Accept? {
      ShowReaches(env, setting, req, p', p.txn, [], [], t, t, w, host, reach);
      Later(env, setting, req, r, host, |t| + |t|, |u| + 2 * |t|, reach);
    } else {
      BlindReaches(env, setting, req, p', t, w, host, reach);
      Later(env, setting, req, r, host, |t|, |u| + 2 * |t|, reach);
    }
  }

  lemma {:induction false} RecogniseMore(env: Env, setting: nat, req: Request, p: Progress, at: Cursor,
                                         trace: seq<Bytes>, buf: Bytes, u: seq<Bytes>, t: seq<Bytes>, w: Bytes,
                                         host: Host, reach: Reach)
    requires Inductive(env, setting, req, host, reach)
    requires Has(env.h, host, u) && Has(env.h, host, t) && !host.withholds
    requires p.length == |w| && Coming(env.h, at, u, buf, w) && Coming(env.h, p.txn, t, [], w) && |buf| < |w|
    requires Ready(env, setting, p.path, w, false, reach) && SilentPass(env, p, buf).Starved?
    ensures reach(SettleRecognise(env, setting, p, at, trace, buf), |u| + 2 * |t|)
    decreases |u|, 0
  {
    var r := SettleRecognise(env, setting, p, at, trace, buf);
    ComingStep(env.h, at, u, buf, w);
    RecogniseServed(env, setting, req, p, at, trace, buf, u[0]);
    RecogniseReaches(env, setting, req, p, Past(u[0]), trace + [u[0]], buf + Data(u[0])[at.offset..], u[1..], t, w,
                     host, reach);
    var next := SettleRecognise(env, setting, p, Past(u[0]), trace + [u[0]], buf + Data(u[0])[at.offset..]);
    OnServed(env, setting, req, r, next, u, host, |u[1..]| + 2 * |t|, reach);
  }

  /** From the recognition on, the goal is reached. */
  ghost predicate GoesOn(env: Env, setting: nat, req: Request, path: seq<nat>, length: nat, txn: Cursor, host: Host,
                         n: nat, reach: Reach) {
    forall p: Progress :: p.path == path && p.length == length && p.txn == txn ==>
      reach(StartRecognise(env, setting, p), n)
  }

  /** The goal is reached from where the path leads. */
  ghost predicate Leads(env: Env, setting: nat, req: Request, read: PathReading, length: nat, txn: Cursor, host: Host,
                        n: nat, reach: Reach) {
    if read.Path? && HasPrefix(read.steps) then GoesOn(env, setting, req, read.steps, length, txn, host, n, reach)
    else reach(Refused([]), 0)
  }

  lemma {:induction false} PathReaches(env: Env, setting: nat, req: Request, p: Progress, at: Cursor,
                                       trace: seq<Bytes>, buf: Bytes, u: seq<Bytes>, read: PathReading, host: Host,
                                       n: nat, reach: Reach)
    requires Inductive(env, setting, req, host, reach)
    requires Has(env.h, host, u) && Leads(env, setting, req, read, p.length, p.txn, host, n, reach)
    requires Trace(env.h, at, u) && ParsePath(buf + Read(env.h, at, u)) == read && !read.Incomplete?
    ensures reach(SettlePath(env, setting, p, at, trace, buf), |u| + n)
    decreases |u|
  {
    var r := SettlePath(env, setting, p, at, trace, buf);
    if ParsePath(buf).Incomplete? {
      NothingLeft(env.h, at, u, buf);
      PathServed(env, setting, req, p, at, trace, buf, u[0]);
      TakenAll(env.h, at, u, buf);
      PathReaches(env, setting, req, p, Past(u[0]), trace + [u[0]], buf + Data(u[0])[at.offset..], u[1..], read, host,
                  n, reach);
      var next := SettlePath(env, setting, p, Past(u[0]), trace + [u[0]], buf + Data(u[0])[at.offset..]);
      OnServed(env, setting, req, r, next, u, host, |u[1..]| + n, reach);
    } else {
      PathStable(buf, buf + Read(env.h, at, u));
      if read.Path? && HasPrefix(read.steps) {
        var p' := p.(path := read.steps, pathTrace := trace);
        assert r == StartRecognise(env, setting, p');
        Later(env, setting, req, r, host, n, |u| + n, reach);
      } else {
        assert r == Refused([]);
        Later(env, setting, req, r, host, 0, |u| + n, reach);
      }
    }
  }

  lemma {:induction false} RecognitionReaches(env: Env, setting: nat, req: Request, path: seq<nat>, txn: Cursor,
                                              t: seq<Bytes>, w: Bytes, host: Host, reach: Reach)
    requires Inductive(env, setting, req, host, reach)
    requires Has(env.h, host, t) && Coming(env.h, txn, t, [], w) && Ready(env, setting, path, w, host.withholds, reach)
    ensures GoesOn(env, setting, req, path, |w|, txn, host, 3 * |t|, reach)
  {
    forall p: Progress | p.path == path && p.length == |w| && p.txn == txn
      ensures reach(StartRecognise(env, setting, p), 3 * |t|)
    {
      RecogniseReaches(env, setting, req, p, txn, [], [], t, t, w, host, reach);
    }
  }

  ghost predicate PathComes(env: Env, req: Request, v: seq<Bytes>, read: PathReading) {
    Trace(env.h, Cursor(req.path, 0), v) && ParsePath(Read(env.h, Cursor(req.path, 0), v)) == read && !read.Incomplete?
  }

  /** The goal is reached for this path and transaction. */
  ghost predicate Destined(env: Env, setting: nat, read: PathReading, w: Bytes, withholds: bool, reach: Reach) {
    if read.Path? && HasPrefix(read.steps) then Ready(env, setting, read.steps, w, withholds, reach)
    else reach(Refused([]), 0)
  }

  lemma {:induction false} LengthSettled(env: Env, setting: nat, req: Request, at: Cursor, trace: seq<Bytes>,
                                         buf: Bytes)
    requires |buf| == LENGTH_BYTES
    ensures var p := FRESH.(length := LittleEndian(buf), txn := at, lengthTrace := trace);
            SettleLength(env, setting, req, at, trace, buf) ==
            SettlePath(env, setting, p, Cursor(req.path, 0), [], [])
  {
    assert buf[..LENGTH_BYTES] == buf;
  }

  /** The whole length is read: on to the path. */
  lemma {:induction false} LengthDone(env: Env, setting: nat, req: Request, at: Cursor, trace: seq<Bytes>, buf: Bytes,
                                      u: seq<Bytes>, read: PathReading, v: seq<Bytes>, w: Bytes, host: Host,
                                      reach: Reach)
    requires Inductive(env, setting, req, host, reach)
    requires Has(env.h, host, u) && Has(env.h, host, v)
    requires req.SignRequest? && Trace(env.h, at, u)
    requires |buf| == LENGTH_BYTES && LittleEndian(buf) == |w| && Read(env.h, at, u) == w
    requires PathComes(env, req, v, read) && Destined(env, setting, read, w, host.withholds, reach)
    ensures reach(SettleLength(env, setting, req, at, trace, buf), |v| + 3 * |u|)
  {
    var p := FRESH.(length := |w|, txn := at, lengthTrace := trace);
    var c := Cursor(req.path, 0);
    assert [] + Read(env.h, at, u) == w;
    assert [] + Read(env.h, c, v) == Read(env.h, c, v);
    if read.Path? && HasPrefix(read.steps) {
      RecognitionReaches(env, setting, req, read.steps, at, u, w, host, reach);
    }
    LengthSettled(env, setting, req, at, trace, buf);
    PathReaches(env, setting, req, p, c, [], [], v, read, host, 3 * |u|, reach);
  }

  /** Taking the next bytes of the length leaves the rest of the stream to come. */
  lemma {:induction false} LengthTaken(h: Hash, at: Cursor, u: seq<Bytes>, buf: Bytes)
    returns (at': Cursor, u': seq<Bytes>, got: Bytes)
    requires Trace(h, at, u) && u != [] && |buf| < LENGTH_BYTES
    ensures got == Limited(Data(u[0])[at.offset..], Some(LENGTH_BYTES - |buf|))
    ensures at' == if at.offset + |got| < |Data(u[0])| then Cursor(at.head, at.offset + |got|) else Past(u[0])
    ensures Trace(h, at', u') && (buf + got) + Read(h, at', u') == buf + Read(h, at, u)
    ensures u' == u || u' == u[1..]
    ensures |u'| < |u| || (u' == u && |buf + got| == LENGTH_BYTES)
  {
    var available := Data(u[0])[at.offset..];
    var k := LENGTH_BYTES - |buf|;
    if k < |available| {
      TakenInside(h, at, u, buf, k);
      assert available[..k] == Data(u[0])[at.offset..at.offset + k];
      at', u', got := Cursor(at.head, at.offset + k), u, available[..k];
    } else {
      TakenAll(h, at, u, buf);
      at', u', got := Past(u[0]), u[1..], available;
    }
  }

  lemma {:induction false} LengthBefore(env: Env, setting: nat, req: Request, at: Cursor, trace: seq<Bytes>, buf: Bytes,
                                        u: seq<Bytes>, at': Cursor, buf': Bytes, host: Host, n: nat,
                                        reach: Reach)
    requires Inductive(env, setting, req, host, reach)
    requires u != [] && Has(env.h, host, u)
    requires req.SignRequest? && |buf| < LENGTH_BYTES && Serves(env.h, at, u[0])
    requires var got := Limited(Data(u[0])[at.offset..], Some(LENGTH_BYTES - |buf|));
             && buf' == buf + got
             && at' == if at.offset + |got| < |Data(u[0])| then Cursor(at.head, at.offset + |got|) else Past(u[0])
    requires reach(SettleLength(env, setting, req, at', trace + [u[0]], buf'), n)
    ensures reach(SettleLength(env, setting, req, at, trace, buf), n + 1)
  {
    LengthServed(env, setting, req, at, trace, buf, u[0]);
    var r := SettleLength(env, setting, req, at, trace, buf);
    OnServed(env, setting, req, r, SettleLength(env, setting, req, at', trace + [u[0]], buf'), u, host, n, reach);
  }

  /** Replies that are enough from a position in the length. */
  function Enough(buf: Bytes, u: seq<Bytes>, v: seq<Bytes>): nat {
    if |buf| == LENGTH_BYTES then |v| + 3 * |u| else |v| + 4 * |u| + 1
  }

  lemma {:induction false} SplitAtHead(a: Bytes, b: Bytes, c: Bytes, d: Bytes)
    requires a + b == c + d && |a| == |c|
    ensures a == c && b == d
  {
    assert a == (a + b)[..|a|] && c == (c + d)[..|c|];
    assert b == (a + b)[|a|..] && d == (c + d)[|c|..];
  }

  lemma {:induction false} LengthReaches(env: Env, setting: nat, req: Request, at: Cursor, trace: seq<Bytes>,
                                         buf: Bytes, u: seq<Bytes>, read: PathReading, v: seq<Bytes>, head: Bytes,
                                         w: Bytes, host: Host, reach: Reach)
    requires Inductive(env, setting, req, host, reach)
    requires Has(env.h, host, u) && Has(env.h, host, v)
    requires req.SignRequest? && Trace(env.h, at, u) && |buf| <= LENGTH_BYTES
    requires |head| == LENGTH_BYTES && LittleEndian(head) == |w| && buf + Read(env.h, at, u) == head + w
    requires PathComes(env, req, v, read) && Destined(env, setting, read, w, host.withholds, reach)
    ensures reach(SettleLength(env, setting, req, at, trace, buf), Enough(buf, u, v))
    decreases |u|, if |buf| < LENGTH_BYTES then 1 else 0
  {
    if |buf| == LENGTH_BYTES {
      SplitAtHead(buf, Read(env.h, at, u), head, w);
      LengthDone(env, setting, req, at, trace, buf, u, read, v, w, host, reach);
    } else {
      NothingLeft(env.h, at, u, buf);
      var at', u', got := LengthTaken(env.h, at, u, buf);
      LengthReaches(env, setting, req, at', trace + [u[0]], buf + got, u', read, v, head, w, host, reach);
      var n := Enough(buf + got, u', v);
      LengthBefore(env, setting, req, at, trace, buf, u, at', buf + got, host, n, reach);
      Later(env, setting, req, SettleLength(env, setting, req, at, trace, buf), host, n + 1, Enough(buf, u, v), reach);
    }
  }

  // ---------------------------------------------------------------- a whole request

  /** The transaction parameter: length, then the bytes. */
  function TxnData(w: Bytes): Bytes
    requires |w| < Pow256(LENGTH_BYTES)
  {
    ToLittleEndian(LENGTH_BYTES, |w|) + w
  }

  /** Four bytes for the length, least significant first, and then the transaction. */
  lemma {:induction false} TxnDataSpelled(w: Bytes)
    requires |w| < 0x1_0000_0000
    ensures |w| < Pow256(LENGTH_BYTES)
    ensures var n := |w|;
            TxnData(w) == [n % 0x100, n / 0x100 % 0x100, n / 0x1_0000 % 0x100, n / 0x100_0000] + w
  {
    FourBytes();
    LittleEndianSpelled([0, 0, 0, 0], |w|);
  }

  /** A transaction and a path, each cut into chunks of some size. */
  datatype Parcel = Parcel(w: Bytes, path: seq<nat>, size: nat, size': nat)

  /** The chains can be told apart from the end of a chain, and their blocks from each other. */
  ghost predicate Chained(h: Hash, c: Parcel) {
    && c.size > 0 && c.size' > 0 && |c.w| < Pow256(LENGTH_BYTES) && ValidPath(c.path)
    && var u, v := Chain(h, c.size, TxnData(c.w)), Chain(h, c.size', EncodePath(c.path));
    && ProperHash(h, u) && ProperHash(h, v) && NoCollision(h, Set(u + v))
  }

  /** The path is one the app accepts. */
  ghost predicate Sound(h: Hash, c: Parcel) {
    Chained(h, c) && |c.path| <= MAX_STEPS && HasPrefix(c.path)
  }

  function HostOf(h: Hash, c: Parcel, withholds: bool): Host
    requires c.size > 0 && c.size' > 0 && |c.w| < Pow256(LENGTH_BYTES) && |c.path| < 256
  {
    Host(Chain(h, c.size, TxnData(c.w)) + Chain(h, c.size', EncodePath(c.path)), withholds)
  }

  function RequestFor(h: Hash, c: Parcel): Request
    requires c.size > 0 && c.size' > 0 && |c.w| < Pow256(LENGTH_BYTES) && |c.path| < 256
  {
    SignRequest(Head(h, c.size, TxnData(c.w)).head, Head(h, c.size', EncodePath(c.path)).head)
  }

  /** More replies than a request ever takes. */
  function Plenty(h: Hash, c: Parcel): nat
    requires c.size > 0 && c.size' > 0 && |c.w| < Pow256(LENGTH_BYTES) && |c.path| < 256
  {
    4 * |Chain(h, c.size, TxnData(c.w))| + |Chain(h, c.size', EncodePath(c.path))| + 1
  }

  /** All replies of that host to the first `n` requests for blocks. */
  function Replies(env: Env, setting: nat, req: Request, host: Host, n: nat): seq<Reply> {
    Dialogue(MachineOf(env, setting, req), AnswererOf(env.h, host), Start(env, setting, req), n)
  }

  lemma {:induction false} HostHas(h: Hash, c: Parcel, withholds: bool)
    requires Chained(h, c)
    ensures var u, v := Chain(h, c.size, TxnData(c.w)), Chain(h, c.size', EncodePath(c.path));
            Has(h, HostOf(h, c, withholds), u) && Has(h, HostOf(h, c, withholds), v)
  {
    HasAll(h, HostOf(h, c, withholds), Chain(h, c.size, TxnData(c.w)));
    HasAll(h, HostOf(h, c, withholds), Chain(h, c.size', EncodePath(c.path)));
  }

  /** What the app reads of a path it is sent. */
  function ReadingOf(path: seq<nat>): PathReading {
    if |path| <= 10 then Path(path, 1 + 4 * |path|) else TooLong
  }

  lemma {:induction false} PathArrives(env: Env, c: Parcel, req: Request)
    requires Chained(env.h, c) && req == RequestFor(env.h, c)
    ensures PathComes(env, req, Chain(env.h, c.size', EncodePath(c.path)), ReadingOf(c.path))
  {
    ChainReadsBack(env.h, c.size', EncodePath(c.path));
    PathRoundTrip(c.path, []);
    assert EncodePath(c.path) + [] == EncodePath(c.path);
  }

  lemma {:induction false} PathDecides(path: seq<nat>)
    ensures ReadingOf(path).Path? && HasPrefix(path) <==> PathAllowed(path)
  {
    if |path| >= 2 { assert path[..2] == [path[0], path[1]]; }
  }

  lemma {:induction false} ParcelReaches(env: Env, setting: nat, c: Parcel, withholds: bool, reach: Reach)
    requires Chained(env.h, c) && Destined(env, setting, ReadingOf(c.path), c.w, withholds, reach)
    requires Inductive(env, setting, RequestFor(env.h, c), HostOf(env.h, c, withholds), reach)
    ensures reach(Start(env, setting, RequestFor(env.h, c)), Plenty(env.h, c))
  {
    var data, host, req := TxnData(c.w), HostOf(env.h, c, withholds), RequestFor(env.h, c);
    var u, v := Chain(env.h, c.size, data), Chain(env.h, c.size', EncodePath(c.path));
    ChainReadsBack(env.h, c.size, data);
    PathArrives(env, c, req);
    HostHas(env.h, c, withholds);
    assert [] + Read(env.h, Cursor(req.txn, 0), u) == data;
    ToLittleEndianBack(LENGTH_BYTES, |c.w|);
    LengthReaches(env, setting, req, Cursor(req.txn, 0), [], [], u, ReadingOf(c.path), v,
                  ToLittleEndian(LENGTH_BYTES, |c.w|), c.w, host, reach);
  }

  predicate EndsWell(step: Machine, answer: Answerer, good: Run -> bool, r: Run, n: nat) {
    var end := Converse(step, answer, r, n);
    !end.Waiting? && good(end)
  }

  /** The conversation has ended, and well. */
  function EndsAs(step: Machine, answer: Answerer, good: Run -> bool): Reach {
    (r: Run, n: nat) => EndsWell(step, answer, good, r, n)
  }

  lemma {:induction false} EndsInductive(step: Machine, answer: Answerer, good: Run -> bool)
    ensures InductiveFor(step, answer, EndsAs(step, answer, good))
  {
    var reach := EndsAs(step, answer, good);
    forall r: Run, n: nat | r.Waiting? && reach(step(r, answer(r)), n) ensures reach(r, n + 1) {
    }
    forall r: Run, n: nat, m: nat | n <= m && reach(r, n) ensures reach(r, m) {
      ConverseMore(step, answer, r, n, m);
    }
  }

  function ComesTo(w: Bytes, fate: Fate): Run -> bool {
    (r: Run) => Meets(r, w, fate)
  }

  function Ends(env: Env, setting: nat, req: Request, host: Host, w: Bytes, fate: Fate): Reach {
    EndsAs(MachineOf(env, setting, req), AnswererOf(env.h, host), ComesTo(w, fate))
  }

  lemma {:induction false} ShowReplays(env: Env, w: Bytes)
    requires Recognisable(env, w)
    ensures var r := Replay(Prompting(env.user), TxnHanded(env.lib, w), []);
            var o := Eval(env.lib, Prompting(env.user), TxnParser(), w, |w|, []);
            (o.Accept? <==> r.0) && o.st == r.1
  {
    SilentShowsNothing(env.lib, TxnParser(), w, |w|, []);
    TxnHands(env.lib, w);
    EvalAgrees(env.lib, Prompting(env.user), TxnParser(), w, |w|, [], []);
    var es := TxnHanded(env.lib, w);
    assert es[0..] == es;
  }

  /** The prompting pass over a recognisable transaction stops at the first closure that is refused. */
  lemma {:induction false} ShowStops(env: Env, w: Bytes)
    requires Recognisable(env, w)
    ensures var es := TxnHanded(env.lib, w);
            var k := FirstRefused(env.user, [], es);
            var o := Eval(env.lib, Prompting(env.user), TxnParser(), w, |w|, []);
            if k == |es| then o.Accept? && o.st == AllPrompts(es) else !o.Accept? && o.st == AllPrompts(es[..k + 1])
  {
    ShowReplays(env, w);
    var es := TxnHanded(env.lib, w);
    ReplayStops(env.user, es, []);
    var k := FirstRefused(env.user, [], es);
    assert [] + AllPrompts(es) == AllPrompts(es);
    if k < |es| { assert [] + AllPrompts(es[..k + 1]) == AllPrompts(es[..k + 1]); }
  }

  lemma {:induction false} FinishesAs(env: Env, setting: nat, req: Request, host: Host, known: bool, path: seq<nat>,
                                      w: Bytes, seen: seq<Prompt>)
    ensures Finishes(env, known, path, w, seen,
                     Ends(env, setting, req, host, w, Closing(env, path, w, known, seen)))
  {
    var fate := Closing(env, path, w, known, seen);
    var reach := Ends(env, setting, req, host, w, fate);
    forall p: Progress, trace: seq<Bytes>, buf: Bytes | p.path == path && p.length == |w| && w <= buf
      ensures reach(Finish(env, known, p, trace, buf, seen), 0)
    {
      FinishMeets(env, known, p, trace, buf, seen, w);
    }
  }

  lemma {:induction false} KnownReady(env: Env, setting: nat, req: Request, host: Host, path: seq<nat>, w: Bytes)
    requires PathAllowed(path) && Known(env, w, host.withholds)
    ensures ShowReady(env, path, w, Ends(env, setting, req, host, w, FateOf(env, setting, path, w, host.withholds)))
  {
    ShowStops(env, w);
    FinishesAs(env, setting, req, host, true, path, w, AllPrompts(TxnHanded(env.lib, w)));
  }

  lemma {:induction false} FateIsReady(env: Env, setting: nat, req: Request, host: Host, path: seq<nat>, w: Bytes)
    requires PathAllowed(path)
    ensures Ready(env, setting, path, w, host.withholds,
                  Ends(env, setting, req, host, w, FateOf(env, setting, path, w, host.withholds)))
  {
    if Known(env, w, host.withholds) {
      KnownReady(env, setting, req, host, path, w);
    } else {
      FinishesAs(env, setting, req, host, false, path, w, [Warning()]);
    }
  }

  lemma {:induction false} FoldOfDialogue(env: Env, setting: nat, req: Request, host: Host, n: nat)
    ensures var step, answer, start := MachineOf(env, setting, req), AnswererOf(env.h, host), Start(env, setting, req);
            Fold(env, setting, req, Dialogue(step, answer, start, n)) == Converse(step, answer, start, n)
  {
    var step, answer, start := MachineOf(env, setting, req), AnswererOf(env.h, host), Start(env, setting, req);
    var replies := Dialogue(step, answer, start, n);
    ConverseIs(step, answer, start, n);
    FoldFromStart(env, setting, req, [], replies);
    assert [] + replies == replies;
  }

  // ---------------------------------------------------------------- signing and addresses

  lemma {:induction false} ConversationFate(env: Env, setting: nat, c: Parcel, withholds: bool, n: nat)
    requires Chained(env.h, c) && n >= Plenty(env.h, c)
    ensures var req, host := RequestFor(env.h, c), HostOf(env.h, c, withholds);
            var r := Converse(MachineOf(env, setting, req), AnswererOf(env.h, host), Start(env, setting, req), n);
            !r.Waiting? && Meets(r, c.w, FateOf(env, setting, c.path, c.w, withholds))
  {
    var req, host, fate := RequestFor(env.h, c), HostOf(env.h, c, withholds),
                           FateOf(env, setting, c.path, c.w, withholds);
    var step, answer, start := MachineOf(env, setting, req), AnswererOf(env.h, host), Start(env, setting, req);
    PathDecides(c.path);
    if PathAllowed(c.path) { FateIsReady(env, setting, req, host, c.path, c.w); }
    EndsInductive(step, answer, ComesTo(c.w, fate));
    ParcelReaches(env, setting, c, withholds, Ends(env, setting, req, host, c.w, fate));
    ConverseMore(step, answer, start, Plenty(env.h, c), n);
  }

  /** Every request with such a host comes to the fate of its transaction: for all bytes, paths, chunk sizes, settings,
      people and signers, refused or not. */
  lemma {:induction false} HonestFate(env: Env, setting: nat, c: Parcel, withholds: bool, n: nat)
    requires Chained(env.h, c) && n >= Plenty(env.h, c)
    ensures var req := RequestFor(env.h, c);
            var replies := Replies(env, setting, req, HostOf(env.h, c, withholds), n);
            Meets(Fold(env, setting, req, replies), c.w, FateOf(env, setting, c.path, c.w, withholds))
  {
    var req, host := RequestFor(env.h, c), HostOf(env.h, c, withholds);
    ConversationFate(env, setting, c, withholds, n);
    FoldOfDialogue(env, setting, req, host, n);
  }

  /** For every transaction and path, cut into chunks of any sizes: the host that answers every request with the block
      that was asked for brings a person who accepts to a signature of exactly that transaction, known if it is
      recognisable. If it withholds the blocks during recognition, a non-empty transaction is signed the blind way. */
  lemma {:induction false} HonestHostGetsSignature(env: Env, setting: nat, c: Parcel, withholds: bool, n: nat)
    requires Sound(env.h, c) && Willing(env, setting, c.path, c.w, withholds) && n >= Plenty(env.h, c)
    ensures var req := RequestFor(env.h, c);
            var replies := Replies(env, setting, req, HostOf(env.h, c, withholds), n);
            SignsExactly(env, Fold(env, setting, req, replies), c.w, Known(env, c.w, withholds))
  {
    HonestFate(env, setting, c, withholds, n);
    PathDecides(c.path);
    if Known(env, c.w, withholds) {
      ShowStops(env, c.w);
      WillClose(env, true, c.path, c.w, FirstScreens(env, c.w, true));
    } else {
      WillClose(env, false, c.path, c.w, [Warning()]);
    }
  }

  /** An honest host brings a transaction the app does not know to the screen that says why it is refused. */
  lemma {:induction false} UnknownIsTold(env: Env, c: Parcel, n: nat)
    requires Chained(env.h, c) && PathAllowed(c.path) && !Recognisable(env, c.w) && n >= Plenty(env.h, c)
    ensures var req := RequestFor(env.h, c);
            var replies := Replies(env, 0, req, HostOf(env.h, c, false), n);
            Fold(env, 0, req, replies) ==
            Refused([Scroll("WARNING",
                            Ascii("Transaction not recognized, enable blind signing to sign unknown transactions"))])
  {
    HonestFate(env, 0, c, false, n);
  }

  /** So the blind way is open to transactions that the app would know: whoever lets a host withhold, allows unknown
      transactions and accepts the screens for them has a recognisable one signed without its lines. */
  lemma {:induction false} RecognisableSignedBlindly(env: Env, setting: nat, c: Parcel, n: nat)
    requires Sound(env.h, c) && n >= Plenty(env.h, c) && c.w != [] && Recognisable(env, c.w)
    requires setting != 0 && env.user([Warning()]) && WillSign(env, false, c.path, c.w, [Warning()])
    ensures var req := RequestFor(env.h, c);
            var r := Fold(env, setting, req, Replies(env, setting, req, HostOf(env.h, c, true), n));
            r.Signed? && Subject(r) == c.w && !r.known
  {
    HonestHostGetsSignature(env, setting, c, true, n);
  }
}
