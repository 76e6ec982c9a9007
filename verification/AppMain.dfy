// The loop of `app_main` with its objects: the menus, the setting cells and the slot for the pending request.

module AppMain {
  import opened Octets
  import opened Menus
  import opened Signing
  import opened EventLoop

  /** The slot for the pending request. Its settings are a handle of their own. */
  datatype Slot = Empty | Future(settings: SettingsCell, req: Request, replies: seq<Reply>, run: Run)

  class Device {
    const env: Env
    const build: Build
    const idleMenu: IdleMenuWithSettings
    var busyMenu: BusyMenu
    var states: Slot
    var exited: bool

    /** On `Nanos` every copy of the settings is a handle on the same cell; elsewhere it is a cell of its own. */
    ghost predicate Valid()
      reads this
    {
      states.Future? ==>
        && (build == Nanos ==> states.settings == idleMenu.settings)
        && (build == NanosPlus ==> states.settings != idleMenu.settings)
    }

    ghost function State(): App
      reads this, idleMenu, idleMenu.settings, if states.Future? then {states.settings} else {}
    {
      App(idleMenu.settings.value, idleMenu.idleMenu, busyMenu,
          if states.Empty? then None else Some(Job(states.req, states.settings.value, states.replies, states.run)),
          exited)
    }

    constructor (env: Env, build: Build, setting: nat)
      ensures Valid() && fresh(idleMenu) && fresh(idleMenu.settings)
      ensures this.env == env && this.build == build && State() == Boot(setting)
    {
      this.env, this.build := env, build;
      var cell := new SettingsCell(setting);
      idleMenu := new IdleMenuWithSettings(cell);
      busyMenu, states, exited := Working, Empty, false;
    }

    /** `Settings` is `Copy`: what that means differs between the builds. */
    method CopySettings() returns (copy: SettingsCell)
      ensures copy.value == idleMenu.settings.value
      ensures build == Nanos ==> copy == idleMenu.settings
      ensures build == NanosPlus ==> fresh(copy)
    {
      if build == Nanos {
        copy := idleMenu.settings;
      } else {
        copy := new SettingsCell(idleMenu.settings.Get());
      }
    }

    /** Takes a polled request into the slot or out of the loop. */
    method Settle(settings: SettingsCell, req: Request, replies: seq<Reply>, run: Run) returns (out: Output)
      requires build == Nanos ==> settings == idleMenu.settings
      requires build == NanosPlus ==> settings != idleMenu.settings
      modifies this`states, this`busyMenu
      ensures Valid()
      ensures (State(), out) == Polled(old(State()), Job(req, settings.value, replies, run))
    {
      match run {
        case Waiting(_, _, at, _, _, _) =>
          states := Future(settings, req, replies, run);
          return GetChunk(at.head);
        case Signed(sig, _, _, _, _, _) => out := SignatureOut(sig);
        case Replied(reply, _, _, _) => out := ReplyOut(reply);
        case Refused(_) => out := ErrorOut;
      }
      states := Empty;
      busyMenu := Working;
    }

    method OnCommandEvent(ins: Ins, message: EventLoop.Message) returns (out: Output)
      requires Valid()
      modifies this`states, this`busyMenu, this`exited
      ensures Valid()
      ensures (State(), out) == OnCommand(env, build, old(State()), ins, message)
    {
      if message.StartWith? {
        states := Empty;
        if ins == ExitApp {
          exited := true;
          return Nothing;
        }
        var req := RequestOf(ins, message.hashes);
        if ins == GetVersion || ins == GetVersionStr || req.None? {
          busyMenu := Working;
          return if ins == GetVersion then ReplyOut(VERSION) else if ins == GetVersionStr then Nothing else ErrorOut;
        }
        var settings := CopySettings();
        out := Settle(settings, req.value, [], Start(env, settings.Get(), req.value));
      } else if states.Empty? || !states.run.Waiting? {
        states := Empty;
        busyMenu := Working;
        return ErrorOut;
      } else {
        var job := states;
        var run := Step(env, job.settings.Get(), job.req, job.run, message.reply);
        out := Settle(job.settings, job.req, job.replies + [message.reply], run);
      }
    }

    method OnButtonEvent(b: Button)
      requires Valid()
      modifies this`states, this`busyMenu, this`exited, idleMenu`idleMenu, idleMenu.settings
      ensures Valid()
      ensures !old(exited) ==> State() == OnButton(old(State()), b)
    {
      if states.Empty? {
        match b
        case LeftButton => idleMenu.MoveLeft();
        case RightButton => idleMenu.MoveRight();
        case BothButtons =>
          var exit := idleMenu.HandleBoth();
          exited := exit;
      } else {
        match b
        case LeftButton => busyMenu := Working;
        case RightButton => busyMenu := Cancel;
        case BothButtons =>
          if busyMenu.Cancel? {
            states := Empty;
          }
      }
    }

    /** One turn of the loop. Both builds turn as the event machine says, which has no cells to share. */
    method OnEvent(e: Event) returns (out: Output)
      requires Valid()
      modifies this`states, this`busyMenu, this`exited, idleMenu`idleMenu, idleMenu.settings
      ensures Valid()
      ensures (State(), out) == Handle(env, build, old(State()), e)
    {
      out := Nothing;
      if exited {
        return;
      }
      match e
      case Command(ins, message) => out := OnCommandEvent(ins, message);
      case Press(b) => OnButtonEvent(b);
      case Ticker =>
    }

    /** The loop over a list of events. */
    method Run(es: seq<Event>) returns (outs: seq<Output>)
      requires Valid() && State() == Boot(State().live)
      modifies this`states, this`busyMenu, this`exited, idleMenu`idleMenu, idleMenu.settings
      ensures Valid() && |outs| == |es|
      ensures State() == After(env, build, old(State().live), es)
      ensures forall k :: 0 <= k < |es| ==> outs[k] == LastOutput(env, build, old(State().live), es[..k + 1])
    {
      ghost var setting := State().live;
      outs := [];
      var i := 0;
      assert es[..0] == [];
      while i < |es|
        invariant 0 <= i <= |es| && |outs| == i && Valid()
        invariant State() == After(env, build, setting, es[..i])
        invariant forall k :: 0 <= k < i ==> outs[k] == LastOutput(env, build, setting, es[..k + 1])
      {
        assert es[..i + 1][..i] == es[..i];
        var out := OnEvent(es[i]);
        outs := outs + [out];
        i := i + 1;
      }
      assert es[..i] == es;
    }
  }
}
