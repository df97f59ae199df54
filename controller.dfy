/** The controller of the ShadowsocksR desktop client's main process: the
    record `storedConfig` (its list of proxy configurations, the selected
    index, the enable flag and the auto-launch flag), the handlers of the tray
    events and of the `update-configs` channel that change it, and the calls
    those handlers make into their collaborators, recorded in order.

    A proxy configuration is opaque here: the type parameter `C`. */
module Controller {
  import opened Wrappers

  /** The record that `storage.getConfigs()` hands to the main process. */
  datatype Stored<C> = Stored(configs: seq<C>, selected: int, enable: bool, autoLaunch: bool)

  /** One call a handler makes into a collaborator. */
  datatype Effect<C> =
    | Save                                         // storage.saveConfig()
    | Run(enable: bool, config: Option<C>)         // client.run(enable, config); None is `undefined`
    | RefreshTray(configs: seq<C>, selected: int)  // tray.refreshConfigs(configs, selected)
    | AutoLaunchOn                                 // AutoLauncher.enable()
    | AutoLaunchOff                                // AutoLauncher.disable()
    | DestroyWindow                                // mainWindow.destroy()
    | DestroyTray                                  // tray.destroy()
    | Quit                                         // app.quit()

  /** One event delivered to the main process. `traySelected` is the index
      that `tray.getMenuConfig().selected` reports when `change-enable`
      fires; the tray keeps it, so it is an input of its own. */
  datatype Event<C> =
    | ChangeEnable(enable: bool, traySelected: int)
    | ChangeAutoLaunch(autoLaunch: bool)
    | ChangeSelected(index: int)
    | UpdateConfigs(configs: seq<C>)
    | Exit

  /** The new record and the calls made, in order, by one handler. */
  datatype Outcome<C> = Outcome(state: Stored<C>, effects: seq<Effect<C>>)

  /** `configs[index]` as JavaScript evaluates it: the element at a valid
      index, `undefined` anywhere else (the handlers never check bounds). */
  function ConfigAt<C>(configs: seq<C>, index: int): Option<C>
  {
    if 0 <= index < |configs| then Some(configs[index]) else None
  }

  /** The number of persistence calls among `effects`. */
  function Saves<C>(effects: seq<Effect<C>>): nat
  {
    if effects == [] then 0
    else (if effects[0].Save? then 1 else 0) + Saves(effects[1..])
  }

  /** The number of client launches among `effects`. */
  function Runs<C>(effects: seq<Effect<C>>): nat
  {
    if effects == [] then 0
    else (if effects[0].Run? then 1 else 0) + Runs(effects[1..])
  }

  lemma {:induction false} SavesAppend<C>(a: seq<Effect<C>>, b: seq<Effect<C>>)
    ensures Saves(a + b) == Saves(a) + Saves(b)
  {
    if a == [] {
      assert a + b == b;
    } else {
      assert (a + b)[1..] == a[1..] + b;
      SavesAppend(a[1..], b);
    }
  }

  lemma {:induction false} RunsAppend<C>(a: seq<Effect<C>>, b: seq<Effect<C>>)
    ensures Runs(a + b) == Runs(a) + Runs(b)
  {
    if a == [] {
      assert a + b == b;
    } else {
      assert (a + b)[1..] == a[1..] + b;
      RunsAppend(a[1..], b);
    }
  }

  /** What the handler of event `e` does to the record `s`: the new record
      and the calls made, in order. The reference definition that the
      methods of `App` are proved against. */
  function Step<C>(s: Stored<C>, e: Event<C>): Outcome<C>
  {
    match e
    case ChangeEnable(v, sel) =>
      if sel > -1 then Outcome(s.(enable := v), [Save, Run(v, ConfigAt(s.configs, sel))])
      else Outcome(s.(enable := v), [Save])
    case ChangeAutoLaunch(b) =>
      Outcome(s.(autoLaunch := b), [Save, if b then AutoLaunchOn else AutoLaunchOff])
    case ChangeSelected(i) =>
      if i > -1 then Outcome(s.(selected := i), [Save, Run(s.enable, ConfigAt(s.configs, i))])
      else Outcome(s.(selected := i), [Save])
    case UpdateConfigs(list) =>
      if |list| > 0 && s.selected < 0 then
        var n := |list| - 1;
        Outcome(s.(configs := list, selected := n),
                [Run(s.enable, Some(list[n])), Save, RefreshTray(list, n)])
      else
        Outcome(s.(configs := list), [Save, RefreshTray(list, s.selected)])
    case Exit =>
      Outcome(s, [DestroyWindow, DestroyTray, Quit])
  }

  /** Each handler assigns only the fields its event names, to the value the
      event carries, except that configurations arriving while nothing is
      selected also set the selection. */
  lemma StepAssigns<C>(s: Stored<C>, e: Event<C>)
    ensures Step(s, e).state.configs == if e.UpdateConfigs? then e.configs else s.configs
    ensures Step(s, e).state.enable == if e.ChangeEnable? then e.enable else s.enable
    ensures Step(s, e).state.autoLaunch == if e.ChangeAutoLaunch? then e.autoLaunch else s.autoLaunch
    ensures e.ChangeSelected? ==> Step(s, e).state.selected == e.index
    ensures !e.ChangeSelected? && !e.UpdateConfigs? ==> Step(s, e).state.selected == s.selected
    ensures e.UpdateConfigs? ==> Step(s, e).state.selected == s.selected || s.selected < 0
  {
  }

  /** Every handler except `exit` persists the record exactly once; none
      launches the client more than once, and `change-auto-launch` and
      `exit` never do. */
  lemma StepCalls<C>(s: Stored<C>, e: Event<C>)
    ensures Saves(Step(s, e).effects) == if e.Exit? then 0 else 1
    ensures Runs(Step(s, e).effects) <= 1
    ensures e.ChangeAutoLaunch? || e.Exit? ==> Runs(Step(s, e).effects) == 0
  {
    var effects := Step(s, e).effects;
    assert effects == [effects[0]] + effects[1..];
    SavesAppend([effects[0]], effects[1..]);
    RunsAppend([effects[0]], effects[1..]);
    if |effects| > 1 {
      assert effects[1..] == [effects[1]] + effects[2..];
      SavesAppend([effects[1]], effects[2..]);
      RunsAppend([effects[1]], effects[2..]);
      if |effects| > 2 {
        assert effects[2..] == [effects[2]];
      }
    }
  }

  /** The first configurations to arrive while nothing is selected: the last
      of them becomes the selection, which is then a valid index, and the
      client is launched with it before the record is persisted and the
      tray redrawn. */
  lemma FirstRunSelectsLast<C>(s: Stored<C>, list: seq<C>)
    requires s.selected < 0 && |list| > 0
    ensures var r := Step(s, UpdateConfigs(list));
      && r.state.selected == |list| - 1
      && 0 <= r.state.selected < |r.state.configs|
      && r.effects == [Run(s.enable, Some(list[|list| - 1])), Save, RefreshTray(list, |list| - 1)]
  {
  }

  /** A selection set earlier is kept when a shorter list arrives, so it can
      point past the end of the list; a later `change-enable` with that index
      from the tray then launches the client with `undefined`. */
  lemma StaleSelectionSurvivesShrink<C>(s: Stored<C>, list: seq<C>, value: bool)
    requires 0 <= |list| <= s.selected
    ensures var r := Step(s, UpdateConfigs(list));
      && r.state.selected == s.selected
      && r.state.selected >= |r.state.configs|
      && r.effects == [Save, RefreshTray(list, s.selected)]
      && Step(r.state, ChangeEnable(value, s.selected)).effects == [Save, Run(value, None)]
  {
  }

  /** The main process's controller: the fields of `storedConfig`, updated in
      place by the handlers, and the log of every collaborator call made so
      far, oldest first, which the handlers only extend. */
  class App<C> {
    var configs: seq<C>
    var selected: int
    var enable: bool
    var autoLaunch: bool
    var log: seq<Effect<C>>

    /** The record as it stands. */
    function State(): Stored<C>
      reads this
    {
      Stored(configs, selected, enable, autoLaunch)
    }

    /** The record just read back by `storage.getConfigs()`; no call made yet. */
    constructor (stored: Stored<C>)
      ensures State() == stored
      ensures log == []
    {
      configs := stored.configs;
      selected := stored.selected;
      enable := stored.enable;
      autoLaunch := stored.autoLaunch;
      log := [];
    }

    /** Tray event `change-enable`: set the flag, persist, and relaunch the
        client with the configuration at the index the tray reports, if any. */
    method ChangeEnable(value: bool, traySelected: int)
      modifies this`enable, this`log
      ensures enable == value
      ensures configs == old(configs) && selected == old(selected) && autoLaunch == old(autoLaunch)
      ensures traySelected > -1 ==>
        log == old(log) + [Save, Run(value, ConfigAt(configs, traySelected))]
      ensures traySelected <= -1 ==> log == old(log) + [Save]
      ensures Outcome(State(), log[|old(log)|..]) == Step(old(State()), Event.ChangeEnable(value, traySelected))
    {
      enable := value;
      log := log + [Save];
      var selectedConfigIndex := traySelected;
      if selectedConfigIndex > -1 {
        log := log + [Run(value, ConfigAt(configs, selectedConfigIndex))];
      }
    }

    /** Tray event `change-auto-launch`: set the flag, persist, and register
        or unregister the login item. The client is not touched. */
    method ChangeAutoLaunch(isAutoLaunch: bool)
      modifies this`autoLaunch, this`log
      ensures autoLaunch == isAutoLaunch
      ensures configs == old(configs) && selected == old(selected) && enable == old(enable)
      ensures log == old(log) + [Save, if isAutoLaunch then AutoLaunchOn else AutoLaunchOff]
      ensures Outcome(State(), log[|old(log)|..]) == Step(old(State()), Event.ChangeAutoLaunch(isAutoLaunch))
    {
      autoLaunch := isAutoLaunch;
      log := log + [Save];
      if isAutoLaunch {
        log := log + [AutoLaunchOn];
      } else {
        log := log + [AutoLaunchOff];
      }
    }

    /** Tray event `change-selected`: set the selection, persist, and, for a
        non-negative index, relaunch the client with the current enable flag
        and the configuration at that index. The index is not checked
        against the list. */
    method ChangeSelected(index: int)
      modifies this`selected, this`log
      ensures selected == index
      ensures configs == old(configs) && enable == old(enable) && autoLaunch == old(autoLaunch)
      ensures index > -1 ==> log == old(log) + [Save, Run(enable, ConfigAt(configs, index))]
      ensures index <= -1 ==> log == old(log) + [Save]
      ensures Outcome(State(), log[|old(log)|..]) == Step(old(State()), Event.ChangeSelected(index))
    {
      selected := index;
      log := log + [Save];
      if index > -1 {
        log := log + [Run(enable, ConfigAt(configs, index))];
      }
    }

    /** Channel `update-configs`: replace the list. When configurations
        arrive while nothing is selected, the last one becomes the selection
        and the client is launched with it before anything is persisted.
        Then persist and redraw the tray menu with the new list and
        selection. A selection that the new list no longer covers is kept. */
    method UpdateConfigs(list: seq<C>)
      modifies this`configs, this`selected, this`log
      ensures configs == list
      ensures enable == old(enable) && autoLaunch == old(autoLaunch)
      ensures |list| > 0 && old(selected) < 0 ==>
        && selected == |list| - 1
        && 0 <= selected < |configs|
        && log == old(log) + [Run(enable, Some(list[|list| - 1])), Save, RefreshTray(list, selected)]
      ensures |list| == 0 || old(selected) >= 0 ==>
        && selected == old(selected)
        && log == old(log) + [Save, RefreshTray(list, selected)]
      ensures Outcome(State(), log[|old(log)|..]) == Step(old(State()), Event.UpdateConfigs(list))
    {
      if |list| > 0 && selected < 0 {
        selected := |list| - 1;
        log := log + [Run(enable, Some(list[|list| - 1]))];
      }
      configs := list;
      log := log + [Save];
      log := log + [RefreshTray(list, selected)];
    }

    /** Tray event `exit`: close the window and the tray and quit. The
        record is not touched and nothing is persisted. */
    method Exit()
      modifies this`log
      ensures State() == old(State())
      ensures log == old(log) + [DestroyWindow, DestroyTray, Quit]
      ensures Outcome(State(), log[|old(log)|..]) == Step(old(State()), Event.Exit)
    {
      log := log + [DestroyWindow];
      log := log + [DestroyTray];
      log := log + [Quit];
    }
  }
}
