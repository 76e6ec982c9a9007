// What a signature stands for, over every run against every host.

module Outcomes {
  import opened Octets
  import opened Numbers
  import opened Interp
  import opened Runs
  import opened Screen
  import opened Transaction
  import opened Handed
  import opened Transcript
  import opened Paths
  import opened Blocks
  import opened Signing
  import Keys
  import Addresses

  /** Every block the host got accepted on the way to a signature. */
  function Served(r: Run): set<Bytes>
    requires r.Signed?
  {
    Set(r.done.lengthTrace) + Set(r.done.pathTrace) + Set(r.done.silentTrace) + Set(r.done.showTrace) + Set(r.trace)
  }

  /** The bytes that were hashed and signed. */
  function Subject(r: Run): Bytes
    requires r.Signed?
  {
    Take(r.buf, r.done.length)
  }

  /** A decided pass over a prefix has the same verdict on all of it. */
  lemma {:induction false} VerdictCarries<S>(lib: Library, on: (Event, S) -> (bool, S), part: Bytes, whole: Bytes,
                                             s: S)
    requires part <= whole && !Eval(lib, on, TxnParser(), part, |whole|, s).Starved?
    ensures Eval(lib, on, TxnParser(), whole, |whole|, s) == Eval(lib, on, TxnParser(), part, |whole|, s)
  {
    EvalStable(lib, on, TxnParser(), part, whole, |whole|, s);
  }

  /** One clone's pass beside the hashing pass. */
  lemma {:induction false} BesideHashed(h: Hash, c: Cursor, t: seq<Bytes>, u: seq<Bytes>, n: nat, all: set<Bytes>)
    requires Trace(h, c, t) && Trace(h, c, u) && Set(t) <= all && Set(u) <= all && NoCollision(h, all)
    requires |Read(h, c, u)| >= n
    ensures Take(Read(h, c, t), n) <= Take(Read(h, c, u), n)
    ensures |Take(Read(h, c, t), n)| == n ==> Take(Read(h, c, t), n) == Take(Read(h, c, u), n)
  {
    NoCollisionWithin(h, Set(u) + Set(t), all);
    ReadsAgree(h, c, u, t, n);
  }

  /** The passes of a signed request, as facts about the signed bytes. */
  ghost predicate SameThroughout(env: Env, r: Run)
    requires r.Signed?
  {
    var d, p := Subject(r), r.done;
    && |d| == p.length
    && Trace(env.h, p.txn, p.silentTrace)
    && Take(Read(env.h, p.txn, p.silentTrace), p.length) <= d
    && (r.known ==>
          && Trace(env.h, p.txn, p.showTrace)
          && Take(Read(env.h, p.txn, p.silentTrace), p.length) == d
          && Take(Read(env.h, p.txn, p.showTrace), p.length) == d
          && Eval(env.lib, Silent(), TxnParser(), d, |d|, []).Accept?
          && Eval(env.lib, Prompting(env.user), TxnParser(), d, |d|, []).Accept?)
    && (!r.known ==>
          SilentPass(env, p, Read(env.h, p.txn, p.silentTrace)).Reject? ==>
          Eval(env.lib, Silent(), TxnParser(), d, |d|, []).Reject?)
    && var der := env.sign(p.path, env.h(d));
    && der.Some? && Keys.FormattedSignature(der.value) == Some(r.sig)
  }

  /** Same bytes recognised, shown and signed: whatever the host answers, if its accepted blocks hold no
      collision, then the passes before a signature all read the bytes that are signed. */
  lemma {:induction false} SameBytes(env: Env, setting: nat, req: Request, replies: seq<Reply>)
    requires var r := Fold(env, setting, req, replies); r.Signed? && NoCollision(env.h, Served(r))
    ensures SameThroughout(env, Fold(env, setting, req, replies))
  {
    var r := Fold(env, setting, req, replies);
    var p, all := r.done, Served(r);
    FoldKeeps(env, setting, req, replies);
    var before :| SignedInv(env, setting, req, r, before);
    BesideHashed(env.h, p.txn, p.silentTrace, r.trace, p.length, all);
    var silent := Take(Read(env.h, p.txn, p.silentTrace), p.length);
    var o: Out<seq<Prompt>> := SilentPass(env, p, Read(env.h, p.txn, p.silentTrace));
    if !o.Starved? { VerdictCarries(env.lib, Silent(), silent, Subject(r), []); }
    if r.known {
      BesideHashed(env.h, p.txn, p.showTrace, r.trace, p.length, all);
    }
  }

  lemma {:induction false} PrefixTake(a: Bytes, b: Bytes, n: nat)
    requires a <= b && n <= |a|
    ensures Take(a, n) == Take(b, n)
  {
  }

  lemma {:induction false} OnwardEnds(h: Hash, c: Cursor, t: seq<Bytes>, k: nat)
    requires Trace(h, c, t) && k <= |Read(h, c, t)|
    ensures var d, u := Advanced(h, c, t, k), Onward(h, c, t, k);
            Trace(h, d, u) && After(h, d, u) == After(h, c, t)
    decreases |t|
  {
    OnwardReads(h, c, t, k);
    if k == 0 || t == [] {
    } else if c.offset + k >= |Data(t[0])| {
      OnwardEnds(h, Past(t[0]), t[1..], k - (|Data(t[0])| - c.offset));
    }
  }

  lemma {:induction false} TxnFixed(h: Hash, c: Cursor, t: seq<Bytes>, u: seq<Bytes>, whole: seq<Bytes>, n: nat,
                                    all: set<Bytes>)
    requires Trace(h, c, t) && Trace(h, c, whole) && AtEnd(After(h, c, whole)) && |Read(h, c, t)| >= LENGTH_BYTES
    requires Trace(h, Advanced(h, c, t, LENGTH_BYTES), u) && |Read(h, Advanced(h, c, t, LENGTH_BYTES), u)| >= n
    requires Set(t) <= all && Set(u) <= all && Set(whole) <= all && NoCollision(h, all)
    ensures var data := Read(h, c, whole);
            && |data| >= LENGTH_BYTES + n
            && data[..LENGTH_BYTES] == Read(h, c, t)[..LENGTH_BYTES]
            && Take(Read(h, Advanced(h, c, t, LENGTH_BYTES), u), n) == data[LENGTH_BYTES..LENGTH_BYTES + n]
  {
    var data := Read(h, c, whole);
    NoCollisionWithin(h, Set(t) + Set(whole), all);
    BesideComplete(h, c, t, whole);
    AdvancedAgrees(h, c, t, whole, LENGTH_BYTES);
    OnwardReads(h, c, whole, LENGTH_BYTES);
    OnwardEnds(h, c, whole, LENGTH_BYTES);
    var d, rest := Advanced(h, c, whole, LENGTH_BYTES), Onward(h, c, whole, LENGTH_BYTES);
    NoCollisionWithin(h, Set(u) + Set(rest), all);
    BesideComplete(h, d, u, rest);
    PrefixTake(Read(h, d, u), data[LENGTH_BYTES..], n);
    TakeOfDrop(data, LENGTH_BYTES, n);
  }

  lemma {:induction false} PathFixed(h: Hash, c: Cursor, t: seq<Bytes>, whole: seq<Bytes>, all: set<Bytes>)
    requires Trace(h, c, t) && Trace(h, c, whole) && AtEnd(After(h, c, whole)) && ParsePath(Read(h, c, t)).Path?
    requires Set(t) <= all && Set(whole) <= all && NoCollision(h, all)
    ensures ParsePath(Read(h, c, whole)) == ParsePath(Read(h, c, t))
  {
    NoCollisionWithin(h, Set(t) + Set(whole), all);
    BesideComplete(h, c, t, whole);
    PathStable(Read(h, c, t), Read(h, c, whole));
  }

  /** The signed bytes are fixed by the START hash: behind the four length bytes of the parameter it stands
      for, as many as those say. The path is the one the second hash stands for. */
  lemma {:induction false} FixedByStart(env: Env, setting: nat, req: Request, replies: seq<Reply>, txn: seq<Bytes>,
                                        path: seq<Bytes>)
    requires var r := Fold(env, setting, req, replies);
             r.Signed? && req.SignRequest?
             && Trace(env.h, Cursor(req.txn, 0), txn) && AtEnd(After(env.h, Cursor(req.txn, 0), txn))
             && Trace(env.h, Cursor(req.path, 0), path) && AtEnd(After(env.h, Cursor(req.path, 0), path))
             && NoCollision(env.h, Served(r) + Set(txn) + Set(path))
    ensures var r, data := Fold(env, setting, req, replies), Read(env.h, Cursor(req.txn, 0), txn);
            && |data| >= LENGTH_BYTES + r.done.length
            && r.done.length == LittleEndian(data[..LENGTH_BYTES])
            && Subject(r) == data[LENGTH_BYTES..LENGTH_BYTES + r.done.length]
    ensures var read := ParsePath(Read(env.h, Cursor(req.path, 0), path));
            read.Path? && read.steps == Fold(env, setting, req, replies).done.path
  {
    var r := Fold(env, setting, req, replies);
    var p, all := r.done, Served(r) + Set(txn) + Set(path);
    FoldKeeps(env, setting, req, replies);
    var before :| SignedInv(env, setting, req, r, before);
    TxnFixed(env.h, Cursor(req.txn, 0), p.lengthTrace, r.trace, txn, p.length, all);
    PathFixed(env.h, Cursor(req.path, 0), p.pathTrace, path, all);
  }

  // ---------------------------------------------------------------- authorisation

  function BlindScreens(env: Env, r: Run): seq<Prompt>
    requires r.Signed?
  {
    [Warning(), Scroll("Transaction Hash", env.base64(env.h(Subject(r)))), Final([FinalLine(false)])]
  }

  /** Every signature follows an accepted last prompt for a path with the required prefix. An unknown
      transaction also needs the setting, an accepted warning and an accepted screen with the digest that
      is signed; those are then the only screens. */
  lemma {:induction false} Authorised(env: Env, setting: nat, req: Request, replies: seq<Reply>)
    requires Fold(env, setting, req, replies).Signed?
    ensures var r := Fold(env, setting, req, replies);
            && req.SignRequest? && HasPrefix(r.done.path)
            && |r.seen| > 0 && r.seen[|r.seen| - 1] == Final([FinalLine(r.known)]) && env.user(r.seen)
    ensures var r := Fold(env, setting, req, replies);
            !r.known ==>
              && setting != 0 && r.seen == BlindScreens(env, r)
              && env.user(r.seen[..1]) && env.user(r.seen[..2]) && env.user(r.seen)
  {
    var r := Fold(env, setting, req, replies);
    FoldKeeps(env, setting, req, replies);
    var before :| SignedInv(env, setting, req, r, before);
    var screens := LastScreens(env, r.known, env.h(Subject(r)));
    assert screens[..|screens|] == screens;
    assert env.user(before + screens[..|screens|]);
    if !r.known {
      assert r.seen == BlindScreens(env, r);
      assert r.seen[..1] == before;
      assert r.seen[..2] == before + screens[..1];
    }
  }

  lemma {:induction false} ShownHanded(env: Env, d: Bytes)
    requires Eval(env.lib, Prompting(env.user), TxnParser(), d, |d|, []).Accept?
    ensures var es := TxnHanded(env.lib, d);
            && Accepts(env.lib, TxnParser(), d) && Noted(env.lib, TxnParser(), d, |d|).st == es
            && AllPass(env.user, [], es)
            && Eval(env.lib, Prompting(env.user), TxnParser(), d, |d|, []).st == AllPrompts(es)
  {
    TranscriptConserved(env.lib, env.user, d, []);
    TxnHands(env.lib, d);
    assert [] + AllPrompts(TxnHanded(env.lib, d)) == AllPrompts(TxnHanded(env.lib, d));
  }

  lemma {:induction false} SeenKnown(env: Env, setting: nat, req: Request, replies: seq<Reply>)
    requires var r := Fold(env, setting, req, replies); r.Signed? && r.known
    ensures var r := Fold(env, setting, req, replies);
            && Trace(env.h, r.done.txn, r.done.showTrace)
            && var o := ShowPass(env, r.done, Read(env.h, r.done.txn, r.done.showTrace));
            r.seen == o.st + [Final([FinalLine(true)])]
  {
    FoldKeeps(env, setting, req, replies);
    var r := Fold(env, setting, req, replies);
    var before :| SignedInv(env, setting, req, r, before);
    assert LastScreens(env, true, env.h(Subject(r))) == [Final([FinalLine(true)])];
  }

  /** What was on the screen of a recognised transaction: the prompts its bytes determine, told window by window, each
      of them accepted, and the last prompt. */
  lemma {:induction false} ShownIsSigned(env: Env, setting: nat, req: Request, replies: seq<Reply>)
    requires var r := Fold(env, setting, req, replies); r.Signed? && r.known && NoCollision(env.h, Served(r))
    ensures var r := Fold(env, setting, req, replies);
            var es := TxnHanded(env.lib, Subject(r));
            && Accepts(env.lib, TxnParser(), Subject(r))
            && Noted(env.lib, TxnParser(), Subject(r), |Subject(r)|).st == es
            && AllPass(env.user, [], es)
            && r.seen == AllPrompts(es) + [Final([FinalLine(true)])]
  {
    var r := Fold(env, setting, req, replies);
    SameBytes(env, setting, req, replies);
    SeenKnown(env, setting, req, replies);
    ShownHanded(env, Subject(r));
  }

  // ---------------------------------------------------------------- addresses

  ghost predicate AddressReply(reply: Bytes, key: Bytes, hash: Bytes) {
    && |reply| == 76
    && var parts := Addresses.Unframed(reply);
    && parts.Some? && parts.value.0 == key && |parts.value.1| == 41
    && Addresses.HashIn(parts.value.1) == Addresses.AsNumbers(hash)
  }

  lemma {:induction false} AnswerIs(env: Env, path: seq<nat>, verify: bool, trace: seq<Bytes>)
    requires Answer(env, path, verify, trace).Replied?
    ensures var r := Answer(env, path, verify, trace);
            && env.point(path).Some?
            && var key := Keys.Compressed(env.point(path).value);
            && env.pkh(key).Some?
            && AddressReply(r.reply, key, env.pkh(key).value)
            && r.seen == if verify then AddressScreens(Addresses.Unframed(r.reply).value.1) else []
  {
    var key := Keys.Compressed(env.point(path).value);
    var hash := env.pkh(key).value;
    var text := Addresses.AddressText(env.checksum, hash);
    Addresses.ReplyRoundTrip(env.checksum, key, hash);
    Addresses.UnframeFramed(key, text);
    assert [] + [Scroll("Provide Public Key", [])] + [Scroll("Address", text)] + [Final([])] == AddressScreens(text);
  }

  /** What an address request gives out: 76 bytes with the compressed key of a path that has the required
      prefix, and an address text from which the hash of that key can be read. It was shown if asked for. */
  lemma {:induction false} AddressAnswered(env: Env, setting: nat, req: Request, replies: seq<Reply>)
    requires Fold(env, setting, req, replies).Replied?
    ensures var r := Fold(env, setting, req, replies);
            && req.AddressRequest? && HasPrefix(r.path) && env.point(r.path).Some?
            && var key := Keys.Compressed(env.point(r.path).value);
            && env.pkh(key).Some?
            && AddressReply(r.reply, key, env.pkh(key).value)
            && r.seen == if req.verify then AddressScreens(Addresses.Unframed(r.reply).value.1) else []
  {
    FoldKeeps(env, setting, req, replies);
    var r := Fold(env, setting, req, replies);
    AnswerIs(env, r.path, req.verify, r.trace);
  }

  /** The key given out is that of the path the START hash stands for. */
  lemma {:induction false} AddressFixedByStart(env: Env, setting: nat, req: Request, replies: seq<Reply>,
                                               path: seq<Bytes>)
    requires var r := Fold(env, setting, req, replies);
             r.Replied? && Trace(env.h, Cursor(req.path, 0), path) && AtEnd(After(env.h, Cursor(req.path, 0), path))
             && NoCollision(env.h, Set(r.trace) + Set(path))
    ensures var read := ParsePath(Read(env.h, Cursor(req.path, 0), path));
            read.Path? && read.steps == Fold(env, setting, req, replies).path
  {
    FoldKeeps(env, setting, req, replies);
    var r := Fold(env, setting, req, replies);
    PathFixed(env.h, Cursor(req.path, 0), r.trace, path, Set(r.trace) + Set(path));
  }

  /** Two address requests with equal replies were for the same public key, if both keys are on the curve. */
  lemma {:induction false} ReplyTellsKey(env: Env, setting: nat, req: Request, req': Request, replies: seq<Reply>,
                                         replies': seq<Reply>, p: nat)
    requires Keys.OddPrime(p)
    requires var r, r' := Fold(env, setting, req, replies), Fold(env, setting, req', replies');
             r.Replied? && r'.Replied? && r.reply == r'.reply
             && var k, k' := env.point(r.path), env.point(r'.path);
             && (k.Some? ==> Keys.OnCurve(p, k.value)) && (k'.Some? ==> Keys.OnCurve(p, k'.value))
    ensures env.point(Fold(env, setting, req, replies).path) == env.point(Fold(env, setting, req', replies').path)
  {
    AddressAnswered(env, setting, req, replies);
    AddressAnswered(env, setting, req', replies');
    var r, r' := Fold(env, setting, req, replies), Fold(env, setting, req', replies');
    Keys.CompressionInjective(p, env.point(r.path).value, env.point(r'.path).value);
  }

  lemma {:induction false} StepIgnores(env: Env, setting: nat, req: Request, r: Run, reply: Reply, other: User)
    requires req.AddressRequest? && r.Waiting? && r.stage.AddressStage?
    ensures Step(env.(user := other), setting, req, r, reply) == Step(env, setting, req, r, reply)
    ensures var r' := Step(env, setting, req, r, reply); r'.Waiting? ==> r'.stage.AddressStage?
  {
  }

  lemma {:induction false} StartIgnores(env: Env, setting: nat, req: Request, other: User)
    requires req.AddressRequest?
    ensures Start(env.(user := other), setting, req) == Start(env, setting, req)
    ensures var r := Start(env, setting, req); r.Waiting? ==> r.stage.AddressStage?
  {
  }

  /** The answers of the person make no difference to an address request: it cannot be refused. */
  lemma {:induction false} AnswersIgnored(env: Env, setting: nat, req: Request, replies: seq<Reply>, other: User)
    requires req.AddressRequest?
    ensures Fold(env.(user := other), setting, req, replies) == Fold(env, setting, req, replies)
    ensures var r := Fold(env, setting, req, replies); r.Waiting? ==> r.stage.AddressStage?
  {
    if replies == [] {
      StartIgnores(env, setting, req, other);
    } else {
      var init := replies[..|replies| - 1];
      AnswersIgnored(env, setting, req, init, other);
      var r := Fold(env, setting, req, init);
      if r.Waiting? { StepIgnores(env, setting, req, r, replies[|replies| - 1], other); }
    }
  }
}
