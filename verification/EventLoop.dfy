// The event loop of the app: commands go to the pending request, buttons to the idle or the busy menu.

module EventLoop {
  import opened Octets
  import opened Menus
  import opened Signing

  datatype Ins = GetVersion | VerifyAddress | GetPubkey | Sign | GetVersionStr | ExitApp

  datatype Button = LeftButton | RightButton | BothButtons

  /** The block-protocol message in a command: the hashes of the parameters, or the answer to a request. */
  datatype Message = StartWith(hashes: seq<Bytes>) | AnswerWith(reply: Reply)

  datatype Event = Command(ins: Ins, message: Message) | Press(button: Button) | Ticker

  /** What the host hears. */
  datatype Output = Nothing | GetChunk(head: Bytes) | SignatureOut(sig: Bytes) | ReplyOut(reply: Bytes) | ErrorOut

  /** `Nanos` keeps one setting in NVM; elsewhere `Settings` is a byte that is copied with its owner. */
  datatype Build = Nanos | NanosPlus

  /** The pending request. `captured` is the byte in its own `Settings`; the replies are history. */
  datatype Job = Job(req: Request, captured: nat, replies: seq<Reply>, run: Run)

  datatype App = App(live: nat, idle: IdleMenu, busy: BusyMenu, pending: Option<Job>, exited: bool)

  function Boot(setting: nat): App {
    App(setting, AppMain, Working, None, false)
  }

  const VERSION: Bytes := [0, 1, 0, 80, 114, 111, 118, 101, 110, 97, 110, 99, 101] // 0.1.0 Provenance

  // ---------------------------------------------------------------- commands

  /** What `settings.get()` gives inside a request. */
  function SettingSeen(build: Build, live: nat, captured: nat): nat {
    if build == Nanos then live else captured
  }

  function RequestOf(ins: Ins, hashes: seq<Bytes>): Option<Request> {
    if ins == Sign && |hashes| >= 2 then Some(SignRequest(hashes[0], hashes[1]))
    else if ins in {VerifyAddress, GetPubkey} && |hashes| >= 1 then
      Some(AddressRequest(hashes[0], ins == VerifyAddress))
    else None
  }

  /** A request has been polled; a finished one is taken out of the loop and the busy menu reset. */
  function Polled(app: App, job: Job): (App, Output) {
    var done := app.(pending := None, busy := Working);
    match job.run
    case Waiting(_, _, at, _, _, _) => (app.(pending := Some(job)), GetChunk(at.head))
    case Signed(sig, _, _, _, _, _) => (done, SignatureOut(sig))
    case Replied(reply, _, _, _) => (done, ReplyOut(reply))
    case Refused(_) => (done, ErrorOut)
  }

  function OnCommand(env: Env, build: Build, app: App, ins: Ins, message: Message): (App, Output) {
    var done := app.(pending := None, busy := Working);
    match message
    case StartWith(hashes) =>
      if ins == ExitApp then (app.(pending := None, exited := true), Nothing)
      else if ins == GetVersion then (done, ReplyOut(VERSION))
      else if ins == GetVersionStr then (done, Nothing)
      else
        (match RequestOf(ins, hashes)
         case None => (done, ErrorOut)
         case Some(req) =>
           var captured := app.live;
           Polled(app, Job(req, captured, [], Start(env, SettingSeen(build, app.live, captured), req))))
    case AnswerWith(reply) =>
      match app.pending
      case None => (done, ErrorOut)
      case Some(job) =>
        if !job.run.Waiting? then (done, ErrorOut)
        else
          var run := Step(env, SettingSeen(build, app.live, job.captured), job.req, job.run, reply);
          Polled(app, job.(replies := job.replies + [reply], run := run))
  }

  // ---------------------------------------------------------------- buttons

  function OnButton(app: App, b: Button): App {
    if app.pending.None? then
      match b
      case LeftButton => app.(idle := Left(app.idle, app.live))
      case RightButton => app.(idle := Right(app.idle, app.live))
      case BothButtons =>
        var p := Both(app.idle, app.live);
        app.(idle := p.menu, live := p.setting, exited := p.exit)
    else
      match b
      case LeftButton => app.(busy := BusyLeft(app.busy))
      case RightButton => app.(busy := BusyRight(app.busy))
      case BothButtons => if app.busy.Cancel? then app.(pending := None) else app
  }

  function Handle(env: Env, build: Build, app: App, e: Event): (App, Output) {
    if app.exited then (app, Nothing)
    else
      match e
      case Command(ins, message) => OnCommand(env, build, app, ins, message)
      case Press(b) => (OnButton(app, b), Nothing)
      case Ticker => (app, Nothing)
  }

  function LabelOf(app: App): Label {
    if app.pending.None? then IdleLabel(app.idle) else BusyLabel(app.busy)
  }

  /** The app after some events since it was started with a setting. */
  function After(env: Env, build: Build, setting: nat, es: seq<Event>): App {
    if es == [] then Boot(setting) else Handle(env, build, After(env, build, setting, es[..|es| - 1]), es[|es| - 1]).0
  }

  function LastOutput(env: Env, build: Build, setting: nat, es: seq<Event>): Output
    requires es != []
  {
    Handle(env, build, After(env, build, setting, es[..|es| - 1]), es[|es| - 1]).1
  }

  // ---------------------------------------------------------------- what every sequence of events keeps

  /** The copy taken when a request started is still the live value; the menu shows the setting; the request
      is the run of its replies. */
  ghost predicate Good(env: Env, app: App) {
    && Agrees(app.idle, app.live)
    && (app.pending.Some? ==>
          && app.pending.value.captured == app.live
          && app.pending.value.run.Waiting?
          && app.pending.value.run == Fold(env, app.live, app.pending.value.req, app.pending.value.replies))
  }

  lemma {:induction false} FoldStep(env: Env, setting: nat, req: Request, replies: seq<Reply>, reply: Reply)
    requires Fold(env, setting, req, replies).Waiting?
    ensures Fold(env, setting, req, replies + [reply]) ==
            Step(env, setting, req, Fold(env, setting, req, replies), reply)
  {
    assert (replies + [reply])[..|replies|] == replies;
  }

  ghost predicate GoodJob(env: Env, live: nat, job: Job) {
    job.captured == live && job.run == Fold(env, live, job.req, job.replies)
  }

  lemma {:induction false} PolledKeeps(env: Env, app: App, job: Job)
    requires Good(env, app) && GoodJob(env, app.live, job)
    ensures Good(env, Polled(app, job).0) && Polled(app, job).0.live == app.live
  {
  }

  lemma {:induction false} AnswerKeeps(env: Env, build: Build, app: App, ins: Ins, reply: Reply)
    requires Good(env, app)
    ensures var app' := OnCommand(env, build, app, ins, AnswerWith(reply)).0; Good(env, app') && app'.live == app.live
  {
    if app.pending.Some? {
      var job := app.pending.value;
      FoldStep(env, app.live, job.req, job.replies, reply);
      var run := Step(env, SettingSeen(build, app.live, job.captured), job.req, job.run, reply);
      PolledKeeps(env, app, job.(replies := job.replies + [reply], run := run));
    }
  }

  lemma {:induction false} StartKeepsGood(env: Env, build: Build, app: App, ins: Ins, hashes: seq<Bytes>)
    requires Good(env, app)
    ensures var app' := OnCommand(env, build, app, ins, StartWith(hashes)).0; Good(env, app') && app'.live == app.live
  {
    var req := RequestOf(ins, hashes);
    if req.Some? {
      PolledKeeps(env, app, Job(req.value, app.live, [], Start(env, app.live, req.value)));
    }
  }

  lemma {:induction false} HandleKeeps(env: Env, build: Build, app: App, e: Event)
    requires Good(env, app)
    ensures Good(env, Handle(env, build, app, e).0)
    ensures app.pending.Some? ==> Handle(env, build, app, e).0.live == app.live
  {
    match e
    case Command(ins, StartWith(hashes)) => StartKeepsGood(env, build, app, ins, hashes);
    case Command(ins, AnswerWith(reply)) => AnswerKeeps(env, build, app, ins, reply);
    case Press(b) => MenuKeepsAgreement(app.idle, app.live);
    case Ticker =>
  }

  lemma {:induction false} AlwaysGood(env: Env, build: Build, setting: nat, es: seq<Event>)
    requires setting <= 1
    ensures Good(env, After(env, build, setting, es))
  {
    if es == [] {
    } else {
      AlwaysGood(env, build, setting, es[..|es| - 1]);
      HandleKeeps(env, build, After(env, build, setting, es[..|es| - 1]), es[|es| - 1]);
    }
  }

  /** In every reachable state of either build the menu and the signer agree on the setting. */
  lemma {:induction false} MenuTellsSigner(env: Env, build: Build, setting: nat, es: seq<Event>)
    requires setting <= 1
    ensures var app := After(env, build, setting, es);
            && app.live <= 1
            && (app.pending.None? ==>
                  (LabelOf(app).bottom == "Disabled" <==> LabelOf(app).top == "Blind Signing" && app.live == 0))
            && (app.pending.Some? ==> SettingSeen(build, app.live, app.pending.value.captured) == app.live)
  {
    AlwaysGood(env, build, setting, es);
    LabelTellsSigner(After(env, build, setting, es).idle, After(env, build, setting, es).live);
  }

  /** The two ways of keeping the setting cannot be told apart: same states, outputs and labels. */
  lemma {:induction false} BuildsAgree(env: Env, setting: nat, es: seq<Event>)
    requires setting <= 1
    ensures After(env, Nanos, setting, es) == After(env, NanosPlus, setting, es)
    ensures es != [] ==> LastOutput(env, Nanos, setting, es) == LastOutput(env, NanosPlus, setting, es)
  {
    if es == [] {
    } else {
      BuildsAgree(env, setting, es[..|es| - 1]);
      AlwaysGood(env, Nanos, setting, es[..|es| - 1]);
    }
  }

  // ---------------------------------------------------------------- where signatures come from

  predicate Starts(e: Event) {
    e.Command? && e.message.StartWith?
  }

  /** The replies among the events, in order. */
  function RepliesIn(es: seq<Event>): seq<Reply> {
    if es == [] then []
    else
      RepliesIn(es[..|es| - 1])
      + if es[|es| - 1].Command? && es[|es| - 1].message.AnswerWith? then [es[|es| - 1].message.reply] else []
  }

  /** The request was started by event `j` with this setting and pending ever since, up to the last event. */
  ghost predicate StartedAt(env: Env, build: Build, setting: nat, es: seq<Event>, req: Request, live: nat, j: nat) {
    && j < |es| && Starts(es[j])
    && RequestOf(es[j].ins, es[j].message.hashes) == Some(req)
    && live == After(env, build, setting, es[..j]).live
    && (forall k :: j < k < |es| ==> !Starts(es[k]))
    && (forall k :: j < k < |es| ==> After(env, build, setting, es[..k]).pending.Some?)
  }

  lemma {:induction false} StartedStays(env: Env, build: Build, setting: nat, es: seq<Event>, e: Event, req: Request,
                                        live: nat, j: nat)
    requires StartedAt(env, build, setting, es, req, live, j) && !Starts(e)
    requires After(env, build, setting, es).pending.Some?
    ensures StartedAt(env, build, setting, es + [e], req, live, j)
  {
    var es' := es + [e];
    assert es'[..|es|] == es;
    forall k | j < k < |es'| ensures !Starts(es'[k]) && After(env, build, setting, es'[..k]).pending.Some? {
      if k < |es| { assert es'[..k] == es[..k]; }
    }
    assert es'[..j] == es[..j];
  }

  lemma {:induction false} RepliesSnoc(es: seq<Event>, e: Event, j: nat)
    requires j < |es|
    ensures RepliesIn((es + [e])[j + 1..]) ==
            RepliesIn(es[j + 1..]) + if e.Command? && e.message.AnswerWith? then [e.message.reply] else []
  {
    var tail := (es + [e])[j + 1..];
    assert tail == es[j + 1..] + [e];
    assert tail[..|tail| - 1] == es[j + 1..];
  }

  /** A pending request that no START began was pending before. */
  lemma {:induction false} PendingBefore(env: Env, build: Build, app: App, e: Event)
    requires !Starts(e) && Handle(env, build, app, e).0.pending.Some? && (app.exited ==> app.pending.None?)
    ensures var job' := Handle(env, build, app, e).0.pending.value;
            && app.pending.Some? && job'.req == app.pending.value.req && job'.captured == app.pending.value.captured
            && job'.replies ==
               app.pending.value.replies + if e.Command? && e.message.AnswerWith? then [e.message.reply] else []
  {
  }

  /** A pending request begun by this event. */
  lemma {:induction false} PendingBegun(env: Env, build: Build, app: App, e: Event)
    requires Starts(e) && !app.exited && Handle(env, build, app, e).0.pending.Some?
    ensures var job := Handle(env, build, app, e).0.pending.value;
            job.captured == app.live && job.replies == [] && RequestOf(e.ins, e.message.hashes) == Some(job.req)
  {
  }

  /** After leaving, nothing is pending. */
  lemma {:induction false} ExitedIdle(env: Env, build: Build, setting: nat, es: seq<Event>)
    ensures After(env, build, setting, es).exited ==> After(env, build, setting, es).pending.None?
  {
    if es == [] {
    } else {
      ExitedIdle(env, build, setting, es[..|es| - 1]);
    }
  }

  /** Where a pending request comes from. */
  lemma {:induction false} PendingHistory(env: Env, build: Build, setting: nat, es: seq<Event>) returns (j: nat)
    requires setting <= 1 && After(env, build, setting, es).pending.Some?
    ensures var job := After(env, build, setting, es).pending.value;
            && StartedAt(env, build, setting, es, job.req, job.captured, j)
            && job.replies == RepliesIn(es[j + 1..])
    decreases |es|
  {
    var init, e := es[..|es| - 1], es[|es| - 1];
    assert es == init + [e];
    var before := After(env, build, setting, init);
    ExitedIdle(env, build, setting, init);
    if Starts(e) {
      j := |init|;
      PendingBegun(env, build, before, e);
      assert es[..j] == init && es[j + 1..] == [];
    } else {
      PendingBefore(env, build, before, e);
      j := PendingHistory(env, build, setting, init);
      StartedStays(env, build, setting, init, e, before.pending.value.req, before.pending.value.captured, j);
      RepliesSnoc(init, e, j);
    }
  }

  /** A START alone gives no signature: the length still has to be read. */
  lemma {:induction false} StartNeverSigns(env: Env, build: Build, app: App, e: Event)
    requires Starts(e)
    ensures !Handle(env, build, app, e).1.SignatureOut?
  {
  }

  lemma {:induction false} SignedAtAnswer(env: Env, build: Build, app: App, e: Event)
    requires Good(env, app) && !Starts(e) && Handle(env, build, app, e).1.SignatureOut?
    ensures !app.exited && app.pending.Some? && e.Command?
    ensures var job := app.pending.value;
            var r := Fold(env, app.live, job.req, job.replies + [e.message.reply]);
            r.Signed? && Handle(env, build, app, e).1 == SignatureOut(r.sig)
  {
    var job := app.pending.value;
    FoldStep(env, app.live, job.req, job.replies, e.message.reply);
  }

  lemma {:induction false} SignedWasSign(env: Env, setting: nat, req: Request, replies: seq<Reply>, ins: Ins,
                                         hashes: seq<Bytes>)
    requires Fold(env, setting, req, replies).Signed? && RequestOf(ins, hashes) == Some(req)
    ensures ins == Sign
  {
    FoldKeeps(env, setting, req, replies);
  }

  /** The output is the signature of the request that event `j` started, over the replies since. */
  ghost predicate SignedSince(env: Env, build: Build, setting: nat, es: seq<Event>, req: Request, j: nat, out: Output) {
    && j < |es| && es[j].Command? && es[j].ins == Sign
    && var live := After(env, build, setting, es[..j]).live;
    && StartedAt(env, build, setting, es, req, live, j)
    && var r := Fold(env, live, req, RepliesIn(es[j + 1..]));
    && r.Signed? && out == SignatureOut(r.sig)
  }

  lemma {:induction false} SinceAnswer(env: Env, build: Build, setting: nat, init: seq<Event>, e: Event)
    returns (j: nat, req: Request)
    requires setting <= 1
    requires var app := After(env, build, setting, init);
             Good(env, app) && !Starts(e) && Handle(env, build, app, e).1.SignatureOut?
    ensures var out := Handle(env, build, After(env, build, setting, init), e).1;
            SignedSince(env, build, setting, init + [e], req, j, out)
  {
    var app, es := After(env, build, setting, init), init + [e];
    SignedAtAnswer(env, build, app, e);
    var job := app.pending.value;
    req := job.req;
    j := PendingHistory(env, build, setting, init);
    StartedStays(env, build, setting, init, e, req, job.captured, j);
    RepliesSnoc(init, e, j);
    assert es[..j] == init[..j] && es[j] == init[j];
    SignedWasSign(env, app.live, req, job.replies + [e.message.reply], es[j].ins, es[j].message.hashes);
  }

  /** A signature comes out only as the run of a request that some START for signing began, over exactly the
      replies since then, with no cancel, failure or other START in between. */
  lemma {:induction false} SignatureHistory(env: Env, build: Build, setting: nat, es: seq<Event>)
    returns (j: nat, req: Request)
    requires setting <= 1 && es != [] && LastOutput(env, build, setting, es).SignatureOut?
    ensures SignedSince(env, build, setting, es, req, j, LastOutput(env, build, setting, es))
  {
    var init, e := es[..|es| - 1], es[|es| - 1];
    assert es == init + [e];
    AlwaysGood(env, build, setting, init);
    if Starts(e) { StartNeverSigns(env, build, After(env, build, setting, init), e); }
    j, req := SinceAnswer(env, build, setting, init, e);
  }

  /** An event that is no START leaves an idle loop idle. */
  lemma {:induction false} IdleStays(env: Env, build: Build, app: App, e: Event)
    requires app.pending.None? && !Starts(e)
    ensures Handle(env, build, app, e).0.pending.None? && !Handle(env, build, app, e).1.SignatureOut?
  {
  }

  /** Once nothing is pending, no events without a START make anything pending or bring out a signature. */
  lemma {:induction false} NoStartNoSignature(env: Env, build: Build, setting: nat, es: seq<Event>, later: seq<Event>)
    requires After(env, build, setting, es).pending.None? && forall k :: 0 <= k < |later| ==> !Starts(later[k])
    ensures After(env, build, setting, es + later).pending.None?
    ensures later != [] ==> !LastOutput(env, build, setting, es + later).SignatureOut?
    decreases |later|
  {
    if later == [] {
      assert es + later == es;
    } else {
      var init := later[..|later| - 1];
      NoStartNoSignature(env, build, setting, es, init);
      var all, e := es + later, later[|later| - 1];
      assert all[..|all| - 1] == es + init && all[|all| - 1] == e;
      IdleStays(env, build, After(env, build, setting, es + init), e);
    }
  }

  /** Cancelling ends the request for good: whatever follows without a new START, no signature. */
  lemma {:induction false} CancelledStaysCancelled(env: Env, build: Build, setting: nat, es: seq<Event>,
                                                   later: seq<Event>)
    requires var app := After(env, build, setting, es); app.pending.Some? && app.busy.Cancel?
    requires later != [] && forall k :: 0 <= k < |later| ==> !Starts(later[k])
    ensures !LastOutput(env, build, setting, es + [Press(BothButtons)] + later).SignatureOut?
  {
    var es' := es + [Press(BothButtons)];
    assert es'[..|es'| - 1] == es;
    ExitedIdle(env, build, setting, es);
    NoStartNoSignature(env, build, setting, es', later);
  }
}
