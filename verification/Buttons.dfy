// What a person sees of the menus: labels before and after a button, in every state the app can reach.

module Buttons {
  import opened Octets
  import opened Menus
  import opened Signing
  import opened EventLoop

  /** The bottom lines of the idle menu are pairwise different. */
  lemma {:induction false} LabelsApart()
    ensures var ls := ["Provenance", "0.1.0", "Settings", "Quit", "Disabled", "Enabled", "Back"];
            forall i, j :: 0 <= i < j < |ls| ==> ls[i] != ls[j]
    ensures "Working..." != "Cancel"
  {
  }

  // ---------------------------------------------------------------- both buttons, nothing pending

  /** The setting after both buttons, told from the label. */
  function SettingAfter(line: string, live: nat): nat {
    if line == "Disabled" then 1 else if line == "Enabled" then 0 else live
  }

  function LabelAfter(line: string, live: nat): string {
    if line == "Disabled" then "Enabled"
    else if line == "Enabled" then "Disabled"
    else if line == "Settings" then (if live == 1 then "Enabled" else "Disabled")
    else if line == "Back" then "Settings"
    else line
  }

  /** Both buttons toggle the setting exactly where the label says Disabled or Enabled, and the label then says the
      other; they leave the app exactly where it says Quit. */
  lemma {:induction false} BothPressed(env: Env, build: Build, setting: nat, es: seq<Event>)
    requires setting <= 1
    requires var app := After(env, build, setting, es); !app.exited && app.pending.None?
    ensures var app, app' := After(env, build, setting, es), After(env, build, setting, es + [Press(BothButtons)]);
            && app'.pending.None?
            && app'.live == SettingAfter(LabelOf(app).bottom, app.live)
            && LabelOf(app').bottom == LabelAfter(LabelOf(app).bottom, app.live)
            && (app'.exited <==> LabelOf(app).bottom == "Quit")
  {
    var es' := es + [Press(BothButtons)];
    assert es'[..|es'| - 1] == es;
    AlwaysGood(env, build, setting, es);
    LabelsApart();
  }

  // ---------------------------------------------------------------- left and right, nothing pending

  /** The label to the right of a label. */
  function RightOf(line: string, live: nat): string {
    if line == "Provenance" then "0.1.0"
    else if line == "0.1.0" then "Settings"
    else if line == "Settings" then "Quit"
    else if line == "Quit" then "Provenance"
    else if line == "Back" then (if live == 1 then "Enabled" else "Disabled")
    else "Back"
  }

  function LeftOf(line: string, live: nat): string {
    if line == "Provenance" then "Quit"
    else if line == "Quit" then "Settings"
    else if line == "Settings" then "0.1.0"
    else if line == "0.1.0" then "Provenance"
    else if line == "Back" then (if live == 1 then "Enabled" else "Disabled")
    else "Back"
  }

  /** One button moves to the neighbouring label and changes nothing else. */
  lemma {:induction false} OnePressed(env: Env, build: Build, setting: nat, es: seq<Event>)
    requires setting <= 1
    requires var app := After(env, build, setting, es); !app.exited && app.pending.None?
    ensures var app, app' := After(env, build, setting, es), After(env, build, setting, es + [Press(RightButton)]);
            && LabelOf(app').bottom == RightOf(LabelOf(app).bottom, app.live)
            && app'.live == app.live && app'.pending.None? && !app'.exited
    ensures var app, app' := After(env, build, setting, es), After(env, build, setting, es + [Press(LeftButton)]);
            && LabelOf(app').bottom == LeftOf(LabelOf(app).bottom, app.live)
            && app'.live == app.live && app'.pending.None? && !app'.exited
  {
    assert (es + [Press(RightButton)])[..|es|] == es && (es + [Press(LeftButton)])[..|es|] == es;
    LabelsApart();
  }

  /** What else is on the label, and where the app begins. */
  lemma {:induction false} TopLines(env: Env, build: Build, setting: nat, es: seq<Event>)
    requires After(env, build, setting, es).pending.None?
    ensures var l := LabelOf(After(env, build, setting, es));
            && (l.bottom == "0.1.0" <==> l.top == "Version")
            && (l.bottom in {"Disabled", "Enabled"} <==> l.top == "Blind Signing")
            && (l.bottom in {"Provenance", "Settings", "Quit", "Back"} <==> l.top == "")
    ensures LabelOf(After(env, build, setting, [])).bottom == "Provenance"
  {
    LabelsApart();
    assert |"Version"| == 7 && |"Blind Signing"| == 13 && |""| == 0;
  }

  // ---------------------------------------------------------------- a request pending

  /** While a request is pending, right offers to cancel it, left takes the offer back, and both buttons cancel it
      exactly if the offer is on the screen. None of them touches the setting. */
  lemma {:induction false} BusyPressed(env: Env, build: Build, setting: nat, es: seq<Event>, b: Button)
    requires var app := After(env, build, setting, es); !app.exited && app.pending.Some?
    ensures var app, app' := After(env, build, setting, es), After(env, build, setting, es + [Press(b)]);
            && app'.live == app.live && !app'.exited
            && (app'.pending.None? <==> b == BothButtons && LabelOf(app).top == "Cancel")
            && (app'.pending.Some? ==>
                  && app'.pending == app.pending
                  && LabelOf(app').top ==
                     if b == LeftButton then "Working..." else if b == RightButton then "Cancel" else LabelOf(app).top)
  {
    assert (es + [Press(b)])[..|es|] == es;
    LabelsApart();
  }

  // ---------------------------------------------------------------- commands

  lemma {:induction false} PolledStays(app: App, job: Job)
    ensures Polled(app, job).0.exited == app.exited
  {
  }

  /** A START that begins a request does not leave the app. */
  lemma {:induction false} BegunStays(env: Env, build: Build, app: App, ins: Ins, hashes: seq<Bytes>)
    requires !app.exited && RequestOf(ins, hashes).Some?
    ensures !Handle(env, build, app, Command(ins, StartWith(hashes))).0.exited
  {
    var captured := app.live;
    var req := RequestOf(ins, hashes).value;
    PolledStays(app, Job(req, captured, [], Start(env, SettingSeen(build, app.live, captured), req)));
  }

  lemma {:induction false} PlainHandled(env: Env, build: Build, app: App, ins: Ins, hashes: seq<Bytes>)
    requires !app.exited && RequestOf(ins, hashes).None?
    ensures var next := Handle(env, build, app, Command(ins, StartWith(hashes)));
            && next.1 == (if ins == GetVersion then ReplyOut([0, 1, 0] + Ascii("Provenance"))
                          else if ins == GetVersionStr || ins == ExitApp then Nothing else ErrorOut)
            && (next.0.exited <==> ins == ExitApp)
  {
    assert [0, 1, 0] + Ascii("Provenance") == VERSION;
  }

  /** The answers to commands that need no blocks: a version, an error, or none; and which of them leave the app. */
  lemma {:induction false} PlainCommands(env: Env, build: Build, setting: nat, es: seq<Event>, ins: Ins,
                                         hashes: seq<Bytes>)
    requires !After(env, build, setting, es).exited
    ensures var all := es + [Command(ins, StartWith(hashes))];
            var out := LastOutput(env, build, setting, all);
            && (ins == GetVersion ==> out == ReplyOut([0, 1, 0] + Ascii("Provenance")))
            && (ins == GetVersionStr ==> out == Nothing)
            && (ins == ExitApp <==> After(env, build, setting, all).exited)
            && (ins == ExitApp ==> out == Nothing)
            && (ins == Ins.Sign && |hashes| < 2 ==> out == ErrorOut)
            && (ins in {VerifyAddress, GetPubkey} && hashes == [] ==> out == ErrorOut)
  {
    var app := After(env, build, setting, es);
    assert (es + [Command(ins, StartWith(hashes))])[..|es|] == es;
    if RequestOf(ins, hashes).Some? {
      BegunStays(env, build, app, ins, hashes);
    } else {
      PlainHandled(env, build, app, ins, hashes);
    }
  }

  /** An answer to no request is an error. */
  lemma {:induction false} UnaskedAnswer(env: Env, build: Build, setting: nat, es: seq<Event>, ins: Ins, reply: Reply)
    requires var app := After(env, build, setting, es); !app.exited && app.pending.None?
    ensures LastOutput(env, build, setting, es + [Command(ins, AnswerWith(reply))]) == ErrorOut
  {
    assert (es + [Command(ins, AnswerWith(reply))])[..|es|] == es;
  }

  /** Whenever a command leaves nothing pending, the next request finds the busy menu at its first item. */
  lemma {:induction false} BusyReset(env: Env, build: Build, setting: nat, es: seq<Event>, ins: Ins, message: Message)
    requires var app := After(env, build, setting, es + [Command(ins, message)]); !app.exited && app.pending.None?
    ensures After(env, build, setting, es + [Command(ins, message)]).busy == Working
  {
    assert (es + [Command(ins, message)])[..|es|] == es;
  }

  /** Buttons and ticks send nothing to the host, and a tick changes nothing. After leaving nothing happens any more. */
  lemma {:induction false} Quiet(env: Env, build: Build, setting: nat, es: seq<Event>, e: Event)
    ensures !e.Command? ==> LastOutput(env, build, setting, es + [e]) == Nothing
    ensures e.Ticker? || After(env, build, setting, es).exited ==>
              After(env, build, setting, es + [e]) == After(env, build, setting, es)
    ensures After(env, build, setting, es).exited ==> LastOutput(env, build, setting, es + [e]) == Nothing
  {
    assert (es + [e])[..|es|] == es;
  }
}
