// What stands behind a signature that leaves the device, over every sequence of events.

module Authority {
  import opened Octets
  import opened Screen
  import opened Transaction
  import opened Handed
  import opened Transcript
  import opened Paths
  import opened Blocks
  import opened Signing
  import opened Outcomes
  import opened Blind
  import opened EventLoop
  import Keys

  /** The run of the request that event `j` started, over the replies since. */
  function RunSince(env: Env, build: Build, setting: nat, es: seq<Event>, j: nat, req: Request): Run
    requires j < |es|
  {
    Fold(env, EventLoop.After(env, build, setting, es[..j]).live, req, RepliesIn(es[j + 1..]))
  }

  /** The screens of a recognised transaction: those its bytes determine, each accepted. */
  ghost predicate ReadAndAccepted(env: Env, r: Run)
    requires r.Signed?
  {
    var handed := TxnHanded(env.lib, Subject(r));
    && Accepts(env.lib, TxnParser(), Subject(r)) && AllPass(env.user, [], handed)
    && r.seen == AllPrompts(handed) + [Final([FinalLine(true)])] && env.user(r.seen)
  }

  /** The screens of an unknown one, each accepted, with the setting as it was at the START. */
  ghost predicate WarnedAndAccepted(env: Env, setting: nat, r: Run)
    requires r.Signed?
  {
    && setting != 0 && r.seen == BlindScreens(env, r)
    && env.user(r.seen[..1]) && env.user(r.seen[..2]) && env.user(r.seen)
  }

  /** The signature is over the digest of these bytes, with the key of a path that has the prefix. */
  ghost predicate SignedWith(env: Env, r: Run)
    requires r.Signed?
  {
    && HasPrefix(r.done.path)
    && var der := env.sign(r.done.path, env.h(Subject(r)));
    && der.Some? && Keys.FormattedSignature(der.value) == Some(r.sig)
  }

  /** Event `j` is a START for signing, and the request it began, pending ever since, has signed after the screens that
      were due. Nothing before the START counts for any of it. The other screens are shown if and only if the app knows
      the bytes and no FAILURE came while it looked at them. */
  ghost predicate Authorises(env: Env, build: Build, setting: nat, es: seq<Event>, j: nat, req: Request, sig: Bytes) {
    && SignedSince(env, build, setting, es, req, j, SignatureOut(sig))
    && req == SignRequest(es[j].message.hashes[0], es[j].message.hashes[1])
    && var r := RunSince(env, build, setting, es, j, req);
    && var live := EventLoop.After(env, build, setting, es[..j]).live;
    && SignedWith(env, r)
    && (!r.known ==> WarnedAndAccepted(env, live, r))
    && (NoCollision(env.h, Served(r)) ==>
          && (r.known <==> Recognisable(env, Subject(r)) && !Withheld(env, live, req, RepliesIn(es[j + 1..])))
          && (r.known ==> ReadAndAccepted(env, r)))
  }

  lemma {:induction false} RequestIsSign(hashes: seq<Bytes>, req: Request)
    requires RequestOf(Ins.Sign, hashes) == Some(req)
    ensures |hashes| >= 2 && req == SignRequest(hashes[0], hashes[1])
  {
  }

  lemma {:induction false} SignedByKey(env: Env, setting: nat, req: Request, replies: seq<Reply>)
    requires Fold(env, setting, req, replies).Signed?
    ensures SignedWith(env, Fold(env, setting, req, replies))
  {
    FoldKeeps(env, setting, req, replies);
    var r := Fold(env, setting, req, replies);
    var before :| SignedInv(env, setting, req, r, before);
  }

  /** After any events: a signature sent to the host was authorised within its own request. */
  lemma {:induction false} SignatureAuthorised(env: Env, build: Build, setting: nat, es: seq<Event>)
    returns (j: nat, req: Request)
    requires setting <= 1 && es != [] && LastOutput(env, build, setting, es).SignatureOut?
    ensures j < |es| && es[j].Command? && es[j].message.StartWith? && |es[j].message.hashes| >= 2
    ensures Authorises(env, build, setting, es, j, req, LastOutput(env, build, setting, es).sig)
  {
    j, req := SignatureHistory(env, build, setting, es);
    var live, replies := EventLoop.After(env, build, setting, es[..j]).live, RepliesIn(es[j + 1..]);
    RequestIsSign(es[j].message.hashes, req);
    Authorised(env, live, req, replies);
    SignedByKey(env, live, req, replies);
    var r := Fold(env, live, req, replies);
    if NoCollision(env.h, Served(r)) {
      KnownExactly(env, live, req, replies);
      if r.known { ShownIsSigned(env, live, req, replies); }
    }
  }
}
