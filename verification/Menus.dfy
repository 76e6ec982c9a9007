// The menus of the device and the blind-signing setting behind them.

module Menus {
  import opened Octets

  datatype SettingsSubMenu = EnableBlindSigning | DisableBlindSigning | Back

  datatype IdleMenu =
    | AppMain
    | ShowVersion
    | Settings(sub: Option<SettingsSubMenu>)
    | Exit

  datatype BusyMenu = Working | Cancel

  datatype Label = Label(top: string, bottom: string)

  // ---------------------------------------------------------------- transitions

  /** The sub-menu item for a setting; the menu tests for 1. */
  function Item(setting: nat): IdleMenu {
    Settings(Some(if setting == 1 then DisableBlindSigning else EnableBlindSigning))
  }

  function Left(m: IdleMenu, setting: nat): IdleMenu {
    match m
    case AppMain => Exit
    case ShowVersion => AppMain
    case Settings(None) => ShowVersion
    case Settings(Some(Back)) => Item(setting)
    case Settings(Some(_)) => Settings(Some(Back))
    case Exit => Settings(None)
  }

  function Right(m: IdleMenu, setting: nat): IdleMenu {
    match m
    case AppMain => ShowVersion
    case ShowVersion => Settings(None)
    case Settings(None) => Exit
    case Settings(Some(Back)) => Item(setting)
    case Settings(Some(_)) => Settings(Some(Back))
    case Exit => AppMain
  }

  datatype Pressed = Pressed(menu: IdleMenu, setting: nat, exit: bool)

  function Both(m: IdleMenu, setting: nat): Pressed {
    match m
    case AppMain => Pressed(m, setting, false)
    case ShowVersion => Pressed(m, setting, false)
    case Settings(None) => Pressed(Item(setting), setting, false)
    case Settings(Some(EnableBlindSigning)) => Pressed(Settings(Some(DisableBlindSigning)), 1, false)
    case Settings(Some(DisableBlindSigning)) => Pressed(Settings(Some(EnableBlindSigning)), 0, false)
    case Settings(Some(Back)) => Pressed(Settings(None), setting, false)
    case Exit => Pressed(m, setting, true)
  }

  function IdleLabel(m: IdleMenu): Label {
    match m
    case AppMain => Label("", "Provenance")
    case ShowVersion => Label("Version", "0.1.0")
    case Settings(None) => Label("", "Settings")
    case Settings(Some(EnableBlindSigning)) => Label("Blind Signing", "Disabled")
    case Settings(Some(DisableBlindSigning)) => Label("Blind Signing", "Enabled")
    case Settings(Some(Back)) => Label("", "Back")
    case Exit => Label("", "Quit")
  }

  function BusyLeft(m: BusyMenu): BusyMenu {
    Working
  }

  function BusyRight(m: BusyMenu): BusyMenu {
    Cancel
  }

  function BusyLabel(m: BusyMenu): Label {
    if m.Working? then Label("Working...", "") else Label("Cancel", "")
  }

  // ---------------------------------------------------------------- the menu objects

  /** Where a setting lives: the NVM cell, or the byte inside a `Settings` value. */
  class SettingsCell {
    var value: nat

    constructor (value: nat)
      ensures this.value == value
    {
      this.value := value;
    }

    function Get(): nat
      reads this
    {
      value
    }

    method Set(v: nat)
      modifies this
      ensures value == v
    {
      value := v;
    }
  }

  class IdleMenuWithSettings {
    var idleMenu: IdleMenu
    const settings: SettingsCell

    constructor (settings: SettingsCell)
      ensures idleMenu == AppMain && this.settings == settings
    {
      this.idleMenu := AppMain;
      this.settings := settings;
    }

    method MoveLeft()
      modifies this`idleMenu
      ensures idleMenu == Left(old(idleMenu), settings.value)
    {
      match idleMenu
      case AppMain => idleMenu := Exit;
      case ShowVersion => idleMenu := AppMain;
      case Settings(None) => idleMenu := ShowVersion;
      case Settings(Some(Back)) =>
        if settings.Get() == 1 {
          idleMenu := Settings(Some(DisableBlindSigning));
        } else {
          idleMenu := Settings(Some(EnableBlindSigning));
        }
      case Settings(Some(_)) => idleMenu := Settings(Some(Back));
      case Exit => idleMenu := Settings(None);
    }

    method MoveRight()
      modifies this`idleMenu
      ensures idleMenu == Right(old(idleMenu), settings.value)
    {
      match idleMenu
      case AppMain => idleMenu := ShowVersion;
      case ShowVersion => idleMenu := Settings(None);
      case Settings(None) => idleMenu := Exit;
      case Settings(Some(Back)) =>
        if settings.Get() == 1 {
          idleMenu := Settings(Some(DisableBlindSigning));
        } else {
          idleMenu := Settings(Some(EnableBlindSigning));
        }
      case Settings(Some(_)) => idleMenu := Settings(Some(Back));
      case Exit => idleMenu := AppMain;
    }

    method HandleBoth() returns (exit: bool)
      modifies this`idleMenu, settings
      ensures Pressed(idleMenu, settings.value, exit) == Both(old(idleMenu), old(settings.value))
    {
      exit := false;
      match idleMenu
      case AppMain =>
      case ShowVersion =>
      case Settings(None) =>
        if settings.Get() == 1 {
          idleMenu := Settings(Some(DisableBlindSigning));
        } else {
          idleMenu := Settings(Some(EnableBlindSigning));
        }
      case Settings(Some(EnableBlindSigning)) =>
        settings.Set(1);
        idleMenu := Settings(Some(DisableBlindSigning));
      case Settings(Some(DisableBlindSigning)) =>
        settings.Set(0);
        idleMenu := Settings(Some(EnableBlindSigning));
      case Settings(Some(Back)) => idleMenu := Settings(None);
      case Exit => exit := true;
    }
  }

  // ---------------------------------------------------------------- menu and setting

  /** The setting is 0 or 1, and a sub-menu item that is shown is the one for it. */
  predicate Agrees(m: IdleMenu, setting: nat) {
    && setting <= 1
    && (m == Settings(Some(EnableBlindSigning)) ==> setting == 0)
    && (m == Settings(Some(DisableBlindSigning)) ==> setting == 1)
  }

  lemma {:induction false} MenuKeepsAgreement(m: IdleMenu, setting: nat)
    requires Agrees(m, setting)
    ensures Agrees(Left(m, setting), setting) && Agrees(Right(m, setting), setting)
    ensures Agrees(Both(m, setting).menu, Both(m, setting).setting)
  {
  }

  /** The two moves undo each other exactly where the sub-menu item matches the setting. */
  lemma {:induction false} MovesUndo(m: IdleMenu, setting: nat)
    ensures Right(Left(m, setting), setting) == m <==>
              m in {Settings(Some(EnableBlindSigning)), Settings(Some(DisableBlindSigning))} ==> m == Item(setting)
    ensures Left(Right(m, setting), setting) == m <==> Right(Left(m, setting), setting) == m
    ensures Agrees(m, setting) ==> Right(Left(m, setting), setting) == m
  {
  }

  /** "Disabled" is on the screen exactly if the item is shown and the signer would refuse, which it does on 0. */
  lemma {:induction false} LabelTellsSigner(m: IdleMenu, setting: nat)
    requires Agrees(m, setting)
    ensures IdleLabel(m).bottom == "Disabled" <==> IdleLabel(m).top == "Blind Signing" && setting == 0
    ensures IdleLabel(m).bottom == "Enabled" <==> IdleLabel(m).top == "Blind Signing" && setting != 0
  {
    assert "Disabled" != "Enabled" && |"Disabled"| == 8 && |"Enabled"| == 7;
    assert |"Blind Signing"| == 13 && |"Version"| == 7;
  }
}
