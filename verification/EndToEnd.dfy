// A document from its encoder through the block chain, the prompts and the signature.

module EndToEnd {
  import opened Octets
  import opened Screen
  import opened Transaction
  import opened Messages
  import opened Documents
  import opened Display
  import opened Signing
  import opened Outcomes
  import opened Blind
  import opened Honest
  import opened Spelled
  import opened Paths
  import opened Blocks
  import opened EventLoop
  import opened Conversation
  import Keys

  function DocBytes(d: SignDoc): Bytes {
    Encode(DocWire(d))
  }

  /** The document is one the app takes, and the person accepts its lines and the last prompt. */
  ghost predicate Agreeable(env: Env, path: seq<nat>, d: SignDoc) {
    && DocSized(d) && MsgsFit(d.messages) && FeeFits(d.fee)
    && AllPass(env.user, [], DocEvents(false, d.messages, d.fee))
    && WillSign(env, true, path, DocBytes(d), DocPrompts(false, d.messages, d.fee))
  }

  /** The bytes of such a document are recognised and put its own lines on the screen. */
  lemma {:induction false} DocumentWilling(env: Env, setting: nat, path: seq<nat>, d: SignDoc)
    requires Agreeable(env, path, d)
    ensures Willing(env, setting, path, DocBytes(d), false) && Recognisable(env, DocBytes(d))
    ensures FirstScreens(env, DocBytes(d), true) == DocPrompts(false, d.messages, d.fee)
  {
    var w := DocBytes(d);
    EncoderLays(d);
    DocumentShown(env.lib, LayoutOf(d), d.messages, d.fee, env.user, []);
    PromptErasure(env.lib, TxnParser(), env.user, w, |w|, []);
    assert [] + DocPrompts(false, d.messages, d.fee) == DocPrompts(false, d.messages, d.fee);
  }

  /** Signed, after exactly the document's lines and the last prompt. */
  predicate SignedAsShown(r: Run, d: SignDoc) {
    && r.Signed? && r.known && Subject(r) == DocBytes(d)
    && r.seen == DocPrompts(false, d.messages, d.fee) + [Final([FinalLine(true)])]
  }

  /** Encode any document, cut it into chunks of any size, and let a host answer each request with the block that was
      asked for: the person reads exactly the lines of its messages and fee, and exactly its bytes are signed. */
  lemma {:induction false} DocumentGetsSigned(env: Env, setting: nat, d: SignDoc, c: Parcel, n: nat)
    requires Sound(env.h, c) && c.w == DocBytes(d) && Agreeable(env, c.path, d) && n >= Plenty(env.h, c)
    ensures var req := RequestFor(env.h, c);
            SignedAsShown(Fold(env, setting, req, Replies(env, setting, req, HostOf(env.h, c, false), n)), d)
  {
    DocumentWilling(env, setting, c.path, d);
    HonestHostGetsSignature(env, setting, c, false, n);
    assert LastScreens(env, true, env.h(c.w)) == [Final([FinalLine(true)])];
  }

  // ---------------------------------------------------------------- over events

  /** A document in its spelled form, small enough, whose path is allowed, whose lines and last prompt are accepted and
      for which the signer delivers. */
  ghost predicate Wanted(env: Env, path: seq<nat>, d: SignDoc, x: Unknown) {
    var lines, w := DocPrompts(false, d.messages, d.fee), DocumentBytes(d) + UnknownBytes(x);
    && DocSized(d) && UnknownSized(x) && DocSmall(d) && PathAllowed(path)
    && AllPass(env.user, [], DocEvents(false, d.messages, d.fee))
    && env.user(lines + [Final(["Sign Transaction?"])])
    && env.sign(path, env.h(w)).Some? && Keys.FormattedSignature(env.sign(path, env.h(w)).value).Some?
  }

  lemma {:induction false} WantedFate(env: Env, setting: nat, path: seq<nat>, d: SignDoc, x: Unknown)
    requires Wanted(env, path, d, x)
    ensures var w := DocumentBytes(d) + UnknownBytes(x);
            FateOf(env, setting, path, w, false) ==
            Granted(Keys.FormattedSignature(env.sign(path, env.h(w)).value).value, true,
                    DocPrompts(false, d.messages, d.fee) + [Final(["Sign Transaction?"])])
  {
    var w, es := DocumentBytes(d) + UnknownBytes(x), DocEvents(false, d.messages, d.fee);
    SpelledHands(env.lib, d, x);
    SilentShowsNothing(env.lib, TxnParser(), w, |w|, []);
    NoneRefused(env.user, es);
    DocPromptsAre(false, d.messages, d.fee);
  }

  /** After any events, in either build: START a signature for the spelled bytes of a document and answer each
      GET_CHUNK. The person reads exactly the lines of its messages and fee and the last prompt, and the host hears
      the signature over its digest. */
  lemma {:induction false} SessionSignsDocument(env: Env, build: Build, setting: nat, es: seq<Event>, d: SignDoc,
                                                x: Unknown, c: Parcel, n: nat)
    requires setting <= 1 && !EventLoop.After(env, build, setting, es).exited
    requires Chained(env.h, c) && n >= Plenty(env.h, c)
    requires c.w == DocumentBytes(d) + UnknownBytes(x) && Wanted(env, c.path, d, x)
    ensures var u, v := Chain(env.h, c.size, TxnData(c.w)), Chain(env.h, c.size', EncodePath(c.path));
            var all := Session(env, build, setting, es, Ins.Sign, [env.h(u[0]), env.h(v[0])], u + v, n);
            && |all| > |es|
            && LastOutput(env, build, setting, all) ==
               SignatureOut(Keys.FormattedSignature(env.sign(c.path, env.h(c.w)).value).value)
            && var r := RunOf(env, build, setting, es, all, RequestFor(env.h, c));
            && r.Signed? && Subject(r) == c.w
            && r.seen == DocPrompts(false, d.messages, d.fee) + [Final(["Sign Transaction?"])]
  {
    SessionSigns(env, build, setting, es, c, n);
    WantedFate(env, EventLoop.After(env, build, setting, es).live, c.path, d, x);
  }
}
