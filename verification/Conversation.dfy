// The whole device and an honest host: each command answers what the device asked for last.

module Conversation {
  import opened Octets
  import opened Paths
  import opened Blocks
  import opened Signing
  import opened EventLoop
  import opened Honest
  import opened HonestAddress

  // ---------------------------------------------------------------- playing events

  /** The device as something that events move on, and a host as something that speaks to what it hears. */
  type Turn = (App, Event) -> (App, Output)
  type Speaker = Output -> Event

  function TurnOf(env: Env, build: Build): Turn {
    (app: App, e: Event) => Handle(env, build, app, e)
  }

  /** The app and its last output after some events, from any state. */
  function Played(turn: Turn, app: App, out: Output, es: seq<Event>): (App, Output)
    decreases |es|
  {
    if es == [] then (app, out) else Played(turn, turn(app, es[0]).0, turn(app, es[0]).1, es[1..])
  }

  lemma {:induction false} AfterSnoc(env: Env, build: Build, setting: nat, es: seq<Event>, e: Event)
    ensures var next := Handle(env, build, EventLoop.After(env, build, setting, es), e);
            && EventLoop.After(env, build, setting, es + [e]) == next.0
            && LastOutput(env, build, setting, es + [e]) == next.1
  {
    assert (es + [e])[..|es|] == es;
  }

  lemma {:induction false} PlayedAfter(env: Env, build: Build, setting: nat, es: seq<Event>, more: seq<Event>,
                                       out: Output)
    requires es != [] ==> out == LastOutput(env, build, setting, es)
    ensures var p := Played(TurnOf(env, build), EventLoop.After(env, build, setting, es), out, more);
            && p.0 == EventLoop.After(env, build, setting, es + more)
            && (es + more == [] || (es == [] && more == []) || p.1 == LastOutput(env, build, setting, es + more))
    decreases |more|
  {
    if more == [] {
      assert es + more == es;
    } else {
      AfterSnoc(env, build, setting, es, more[0]);
      assert es + more == es + [more[0]] + more[1..];
      PlayedAfter(env, build, setting, es + [more[0]], more[1..], LastOutput(env, build, setting, es + [more[0]]));
    }
  }

  // ---------------------------------------------------------------- the host

  /** The block with this hash, or a FAILURE if the host has none. */
  function Reported(h: Hash, blocks: seq<Bytes>, head: Bytes): Reply {
    match Held(h, blocks, head)
    case None => Failure
    case Some(b) => Success(b)
  }

  /** A host that answers the hash in the last GET_CHUNK. */
  function SpeakerOf(h: Hash, ins: Ins, blocks: seq<Bytes>): Speaker {
    (out: Output) =>
      Command(ins, AnswerWith(if out.GetChunk? then Reported(h, blocks, out.head) else Failure))
  }

  /** Its commands, as long as it is asked for blocks; `n` at most. */
  function Talk(turn: Turn, say: Speaker, app: App, out: Output, n: nat): seq<Event>
    decreases n
  {
    if n == 0 || !out.GetChunk? then []
    else
      var e := say(out);
      [e] + Talk(turn, say, turn(app, e).0, turn(app, e).1, n - 1)
  }

  /** What the host hears of a request. */
  function Heard(r: Run): Output {
    match r
    case Waiting(_, _, at, _, _, _) => GetChunk(at.head)
    case Signed(sig, _, _, _, _, _) => SignatureOut(sig)
    case Replied(reply, _, _, _) => ReplyOut(reply)
    case Refused(_) => ErrorOut
  }

  /** The request is the pending one, or it has left the loop. */
  predicate Carries(app: App, req: Request, run: Run) {
    && !app.exited
    && if run.Waiting? then app.pending.Some? && app.pending.value.req == req && app.pending.value.run == run
       else app.pending.None? && app.busy == Menus.Working
  }

  lemma {:induction false} PolledCarries(app: App, job: Job)
    requires !app.exited
    ensures var p := Polled(app, job); Carries(p.0, job.req, job.run) && p.1 == Heard(job.run) && p.0.live == app.live
  {
  }

  lemma {:induction false} AnswerCarries(env: Env, build: Build, app: App, ins: Ins, reply: Reply, req: Request, r: Run)
    requires Good(env, app) && r.Waiting? && Carries(app, req, r)
    ensures var next := Handle(env, build, app, Command(ins, AnswerWith(reply)));
            var r' := Step(env, app.live, req, r, reply);
            Carries(next.0, req, r') && next.1 == Heard(r') && next.0.live == app.live && Good(env, next.0)
  {
    HandleKeeps(env, build, app, Command(ins, AnswerWith(reply)));
    var job := app.pending.value;
    PolledCarries(app, job.(replies := job.replies + [reply], run := Step(env, app.live, req, r, reply)));
  }

  /** Whether an app carries a request in some state. */
  type Tie = (App, Run) -> bool

  predicate InStepAt(turn: Turn, say: Speaker, step: Machine, answer: Answerer, tie: Tie, app: App, r: Run) {
    var e, r' := say(Heard(r)), step(r, answer(r));
    && e.Command? && e.message == AnswerWith(answer(r))
    && tie(turn(app, e).0, r') && turn(app, e).1 == Heard(r')
  }

  /** Each exchange keeps the tie, and the host hears the next state. */
  ghost predicate InStep(turn: Turn, say: Speaker, step: Machine, answer: Answerer, tie: Tie) {
    forall app: App, r: Run :: tie(app, r) && r.Waiting? ==>
      InStepAt(turn, say, step, answer, tie, app, r)
  }

  lemma {:induction false} TalkStep(turn: Turn, say: Speaker, app: App, r: Run, n: nat)
    requires n > 0 && r.Waiting?
    ensures var e := say(Heard(r));
            Talk(turn, say, app, Heard(r), n) == [e] + Talk(turn, say, turn(app, e).0, turn(app, e).1, n - 1)
  {
  }

  lemma {:induction false} PlayedStep(turn: Turn, app: App, out: Output, e: Event, es: seq<Event>)
    ensures Played(turn, app, out, [e] + es) == Played(turn, turn(app, e).0, turn(app, e).1, es)
  {
    assert ([e] + es)[1..] == es;
  }

  lemma {:induction false} RepliesCons(reply: Reply, ins: Ins, es: seq<Event>)
    ensures RepliesIn([Command(ins, AnswerWith(reply))] + es) == [reply] + RepliesIn(es)
  {
    var e := Command(ins, AnswerWith(reply));
    if es == [] {
      assert [e] + es == [e] && [e][..0] == [];
    } else {
      var all := [e] + es;
      assert all[..|all| - 1] == [e] + es[..|es| - 1] && all[|all| - 1] == es[|es| - 1];
      RepliesCons(reply, ins, es[..|es| - 1]);
    }
  }

  /** Talking to the device is conversing with the request. */
  lemma {:induction false} TalkConverses(turn: Turn, say: Speaker, step: Machine, answer: Answerer, tie: Tie,
                                         app: App, r: Run, n: nat)
    requires InStep(turn, say, step, answer, tie) && tie(app, r)
    ensures var talk := Talk(turn, say, app, Heard(r), n);
            var p := Played(turn, app, Heard(r), talk);
            var end := Converse(step, answer, r, n);
            |talk| <= n && tie(p.0, end) && p.1 == Heard(end)
    decreases n
  {
    if n == 0 || !r.Waiting? {
    } else {
      assert InStepAt(turn, say, step, answer, tie, app, r);
      var e, r' := say(Heard(r)), step(r, answer(r));
      TalkStep(turn, say, app, r, n);
      TalkConverses(turn, say, step, answer, tie, turn(app, e).0, r', n - 1);
      PlayedStep(turn, app, Heard(r), e, Talk(turn, say, turn(app, e).0, Heard(r'), n - 1));
    }
  }

  lemma {:induction false} TalkReplies(turn: Turn, say: Speaker, step: Machine, answer: Answerer, tie: Tie, app: App,
                                       r: Run, n: nat)
    requires InStep(turn, say, step, answer, tie) && tie(app, r)
    ensures RepliesIn(Talk(turn, say, app, Heard(r), n)) == Dialogue(step, answer, r, n)
    decreases n
  {
    if n == 0 || !r.Waiting? {
    } else {
      assert InStepAt(turn, say, step, answer, tie, app, r);
      var e, r' := say(Heard(r)), step(r, answer(r));
      TalkStep(turn, say, app, r, n);
      TalkReplies(turn, say, step, answer, tie, turn(app, e).0, r', n - 1);
      RepliesCons(answer(r), e.ins, Talk(turn, say, turn(app, e).0, Heard(r'), n - 1));
    }
  }

  /** The request is carried with this setting. */
  ghost function TieOf(env: Env, live: nat, req: Request): Tie {
    (app: App, r: Run) => Good(env, app) && app.live == live && Carries(app, req, r)
  }

  lemma {:induction false} DeviceInStep(env: Env, build: Build, live: nat, req: Request, ins: Ins, blocks: seq<Bytes>)
    ensures InStep(TurnOf(env, build), SpeakerOf(env.h, ins, blocks), MachineOf(env, live, req),
                   AnswererOf(env.h, Host(blocks, false)), TieOf(env, live, req))
  {
    var turn, say, tie := TurnOf(env, build), SpeakerOf(env.h, ins, blocks), TieOf(env, live, req);
    var step, answer := MachineOf(env, live, req), AnswererOf(env.h, Host(blocks, false));
    forall app: App, r: Run | tie(app, r) && r.Waiting? ensures InStepAt(turn, say, step, answer, tie, app, r) {
      assert answer(r) == Reported(env.h, blocks, r.at.head);
      AnswerCarries(env, build, app, ins, answer(r), req, r);
    }
  }

  lemma {:induction false} StartCarries(env: Env, build: Build, app: App, ins: Ins, hashes: seq<Bytes>, req: Request)
    requires Good(env, app) && !app.exited && RequestOf(ins, hashes) == Some(req)
    ensures var next := Handle(env, build, app, Command(ins, StartWith(hashes)));
            var r := Start(env, app.live, req);
            Carries(next.0, req, r) && next.1 == Heard(r) && next.0.live == app.live && Good(env, next.0)
  {
    HandleKeeps(env, build, app, Command(ins, StartWith(hashes)));
    PolledCarries(app, Job(req, app.live, [], Start(env, app.live, req)));
  }

  /** A START, and then the commands of such a host. */
  function Session(env: Env, build: Build, setting: nat, es: seq<Event>, ins: Ins, hashes: seq<Bytes>,
                   blocks: seq<Bytes>, n: nat): seq<Event>
  {
    var begun := es + [Command(ins, StartWith(hashes))];
    begun + Talk(TurnOf(env, build), SpeakerOf(env.h, ins, blocks), EventLoop.After(env, build, setting, begun),
                 LastOutput(env, build, setting, begun), n)
  }

  /** After any events, a session brings the host what the request comes to. */
  lemma {:induction false} SessionConverses(env: Env, build: Build, setting: nat, es: seq<Event>, ins: Ins,
                                            hashes: seq<Bytes>, req: Request, blocks: seq<Bytes>, n: nat)
    requires setting <= 1 && !EventLoop.After(env, build, setting, es).exited && RequestOf(ins, hashes) == Some(req)
    ensures var live := EventLoop.After(env, build, setting, es).live;
            var all := Session(env, build, setting, es, ins, hashes, blocks, n);
            var answer := AnswererOf(env.h, Host(blocks, false));
            var end := Converse(MachineOf(env, live, req), answer, Start(env, live, req), n);
            && |es| < |all| <= |es| + 1 + n
            && Carries(EventLoop.After(env, build, setting, all), req, end)
            && LastOutput(env, build, setting, all) == Heard(end)
            && Fold(env, live, req, RepliesIn(all[|es| + 1..])) == end
  {
    var start := Command(ins, StartWith(hashes));
    var begun := es + [start];
    AlwaysGood(env, build, setting, es);
    AfterSnoc(env, build, setting, es, start);
    StartCarries(env, build, EventLoop.After(env, build, setting, es), ins, hashes, req);
    var app, out := EventLoop.After(env, build, setting, begun), LastOutput(env, build, setting, begun);
    var turn, say, step := TurnOf(env, build), SpeakerOf(env.h, ins, blocks), MachineOf(env, app.live, req);
    DeviceInStep(env, build, app.live, req, ins, blocks);
    TalkConverses(turn, say, step, AnswererOf(env.h, Host(blocks, false)), TieOf(env, app.live, req), app,
                  Start(env, app.live, req), n);
    TalkReplies(turn, say, step, AnswererOf(env.h, Host(blocks, false)), TieOf(env, app.live, req), app,
                Start(env, app.live, req), n);
    var talk := Talk(turn, say, app, out, n);
    PlayedAfter(env, build, setting, begun, talk, out);
    assert (begun + talk)[|es| + 1..] == talk;
    FoldOfDialogue(env, app.live, req, Host(blocks, false), n);
  }

  /** The run behind a session: that of its request over the replies in it. */
  function RunOf(env: Env, build: Build, setting: nat, es: seq<Event>, all: seq<Event>, req: Request): Run
    requires |es| < |all|
  {
    Fold(env, EventLoop.After(env, build, setting, es).live, req, RepliesIn(all[|es| + 1..]))
  }

  /** After any events: START a signature and answer each GET_CHUNK with the block that has the hash in it. Within the
      blocks of the parcel the host hears the signature that is the fate of its transaction, or an error, and the person
      has seen the screens of that fate. */
  lemma {:induction false} SessionSigns(env: Env, build: Build, setting: nat, es: seq<Event>, c: Parcel, n: nat)
    requires setting <= 1 && !EventLoop.After(env, build, setting, es).exited
    requires Chained(env.h, c) && n >= Plenty(env.h, c)
    ensures var u, v := Chain(env.h, c.size, TxnData(c.w)), Chain(env.h, c.size', EncodePath(c.path));
            var all := Session(env, build, setting, es, Ins.Sign, [env.h(u[0]), env.h(v[0])], u + v, n);
            var fate := FateOf(env, EventLoop.After(env, build, setting, es).live, c.path, c.w, false);
            && EventLoop.After(env, build, setting, all).pending.None? && |all| > |es|
            && Meets(RunOf(env, build, setting, es, all, RequestFor(env.h, c)), c.w, fate)
            && LastOutput(env, build, setting, all) == if fate.Granted? then SignatureOut(fate.sig) else ErrorOut
  {
    var u, v := Chain(env.h, c.size, TxnData(c.w)), Chain(env.h, c.size', EncodePath(c.path));
    var live := EventLoop.After(env, build, setting, es).live;
    ConversationFate(env, live, c, false, n);
    SessionConverses(env, build, setting, es, Ins.Sign, [env.h(u[0]), env.h(v[0])], RequestFor(env.h, c), u + v, n);
  }

  /** After any events: START an address request and answer each GET_CHUNK. Within the blocks of the path the host hears
      key and address of an allowed path that has a key; VERIFY_ADDRESS shows them and GET_PUBKEY does not. */
  lemma {:induction false} SessionAnswers(env: Env, build: Build, setting: nat, es: seq<Event>, ins: Ins,
                                          path: seq<nat>, size: nat, n: nat)
    requires setting <= 1 && !EventLoop.After(env, build, setting, es).exited && ins in {VerifyAddress, GetPubkey}
    requires AddressChained(env.h, path, size) && n >= |Chain(env.h, size, EncodePath(path))|
    ensures var v := Chain(env.h, size, EncodePath(path));
            var all := Session(env, build, setting, es, ins, [env.h(v[0])], v, n);
            && EventLoop.After(env, build, setting, all).pending.None? && |all| > |es|
            && RequestOf(ins, [env.h(v[0])]).Some?
            && var r := RunOf(env, build, setting, es, all, RequestOf(ins, [env.h(v[0])]).value);
            && AddressMeets(env, r, path, ins == VerifyAddress)
            && LastOutput(env, build, setting, all) == if r.Replied? then ReplyOut(r.reply) else ErrorOut
  {
    var v, verify := Chain(env.h, size, EncodePath(path)), ins == VerifyAddress;
    var live := EventLoop.After(env, build, setting, es).live;
    var req, host := AddressRequestFor(env.h, path, size, verify), AddressHost(env.h, path, size);
    ConversationAnswers(env, live, path, size, verify, n);
    SessionConverses(env, build, setting, es, ins, [env.h(v[0])], req, v, n);
  }

  // ---------------------------------------------------------------- what the device asks for

  /** The pending request waits for the block that was asked for. */
  predicate Asks(app: App, out: Output) {
    && !app.exited && app.pending.Some? && app.pending.value.run.Waiting?
    && out == GetChunk(app.pending.value.run.at.head)
  }

  lemma {:induction false} PolledAsks(app: App, job: Job)
    ensures var next := Polled(app, job); !app.exited && next.1.GetChunk? ==> Asks(next.0, next.1)
  {
  }

  lemma {:induction false} AskedIsPending(env: Env, build: Build, app: App, e: Event)
    requires Handle(env, build, app, e).1.GetChunk?
    ensures var next := Handle(env, build, app, e);
            Asks(next.0, next.1)
  {
    var captured := app.live;
    match e.message
    case StartWith(hashes) =>
      var req := RequestOf(e.ins, hashes).value;
      PolledAsks(app, Job(req, captured, [], Start(env, SettingSeen(build, app.live, captured), req)));
    case AnswerWith(reply) =>
      var job := app.pending.value;
      var run := Step(env, SettingSeen(build, app.live, job.captured), job.req, job.run, reply);
      PolledAsks(app, job.(replies := job.replies + [reply], run := run));
  }

  lemma {:induction false} OtherBlockFails(env: Env, build: Build, app: App, ins: Ins, reply: Reply)
    requires !app.exited && app.pending.Some? && app.pending.value.run.Waiting?
    requires match reply
             case Success(b) => env.h(b) != app.pending.value.run.at.head
             case Failure => false
             case Unexpected => true
    ensures var next := Handle(env, build, app, Command(ins, AnswerWith(reply)));
            next.1 == ErrorOut && next.0.pending.None?
  {
  }

  /** Only the block that was asked for is taken: after a GET_CHUNK any other one ends in an error. So does a message
      that is not expected. */
  lemma {:induction false} OtherBlocksFail(env: Env, build: Build, setting: nat, es: seq<Event>, ins: Ins,
                                           reply: Reply)
    requires setting <= 1 && es != [] && LastOutput(env, build, setting, es).GetChunk?
    requires match reply
             case Success(b) => env.h(b) != LastOutput(env, build, setting, es).head
             case Failure => false
             case Unexpected => true
    ensures var all := es + [Command(ins, AnswerWith(reply))];
            LastOutput(env, build, setting, all) == ErrorOut && EventLoop.After(env, build, setting, all).pending.None?
  {
    var init, e := es[..|es| - 1], es[|es| - 1];
    assert es == init + [e];
    AskedIsPending(env, build, EventLoop.After(env, build, setting, init), e);
    AfterSnoc(env, build, setting, es, Command(ins, AnswerWith(reply)));
    OtherBlockFails(env, build, EventLoop.After(env, build, setting, es), ins, reply);
  }
}
