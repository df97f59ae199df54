# Controller of the ShadowsocksR desktop client

The Electron main process of `electron-ssr` keeps one mutable record,
`storedConfig`: the list of proxy configurations, the index of the selected
one (`-1` for none), the `enable` flag and the `autoLaunch` flag. The tray
events `change-enable`, `change-auto-launch` and `change-selected` and the IPC
channel `update-configs` each assign one or two of its fields, persist it
through `storage.saveConfig()`, and may relaunch the proxy client through
`client.run(enable, config)`, redraw the tray with `tray.refreshConfigs`, or
(un)register the login item. The tray event `exit` assigns and persists
nothing: it destroys the window and the tray and calls `app.quit()`.

This project models that controller in Dafny:

- `wrappers.dfy` — `Option`, used for a configuration that JavaScript may
  read as `undefined`.
- `controller.dfy` (module `Controller`) — the record `Stored`, the
  collaborator calls `Effect`, the events `Event`, the reference transition
  `Step`, and the class `App` whose fields are those of `storedConfig` plus an
  append-only `log` of every collaborator call. Each handler is a method of
  `App` whose postconditions give the new value of every field and the exact
  calls appended to the log, in order, and tie both to `Step`.
- `scenario.dfy` (module `Scenario`) — `FirstStart` drives an `App` through a
  first start (an empty store, one configuration arriving, then
  `change-enable`) using only those postconditions.
- `trace.dfy` (module `Trace`) — `Replay`, handling a sequence of events one
  at a time in arrival order, and lemmas about whole runs.

Choices made:

- A configuration is the opaque type parameter `C`.
- `change-enable` takes the index to launch from the tray
  (`tray.getMenuConfig().selected`), not from `storedConfig.selected`. The
  model makes it an explicit argument, `traySelected`, and assumes nothing
  about how it relates to `selected`.
- Indexing is never bounds-checked in the code. `ConfigAt` returns `None`
  (JavaScript's `undefined`) outside the list, and `Run` carries an
  `Option<C>`, so an out-of-range index reaches `client.run` as `None`.
- The handlers do not clamp `selected` when the list shrinks, and
  `change-selected` does not reject an out-of-range index; the model follows
  the code (`StaleSelectionSurvivesShrink` shows the consequence).
- `client.run` is called on every qualifying event, with no check whether
  the configuration already running is the same; so is `Run` in the model.
- `Save` records that `storage.saveConfig()` was called; what the storage
  module writes is not part of this model.

## Model

| member | source | states |
|---|---|---|
| Controller.StepAssigns | app/electron.js:88-148 | `configs`, `enable` and `autoLaunch` change only through `update-configs`, `change-enable` and `change-auto-launch`, each to the value its event carries; `selected` becomes the index of `change-selected`, and otherwise changes only through `update-configs` when nothing was selected |
| Controller.StepCalls | app/electron.js:88-148 | each handler except `exit` persists exactly once; none launches the client more than once, and `change-auto-launch` and `exit` never do |
| Controller.App.constructor | app/electron.js:84 | the controller starts from the record the storage hands over and with no call made |
| Controller.App.ChangeEnable | app/electron.js:88-95 | `enable` becomes the value; the log gains `Save`, then `Run(value, configs[traySelected])` exactly when the tray's index is above -1; `configs`, `selected` and `autoLaunch` are unchanged |
| Controller.App.ChangeAutoLaunch | app/electron.js:96-103 | `autoLaunch` becomes the value; the log gains `Save`, then `AutoLaunchOn` or `AutoLaunchOff`, and no `Run`; the other fields are unchanged |
| Controller.App.ChangeSelected | app/electron.js:104-109 | `selected` becomes the index, unchecked; the log gains `Save`, then `Run(enable, configs[index])` with the unchanged `enable` exactly when the index is above -1; the other fields are unchanged |
| Controller.App.UpdateConfigs | app/electron.js:139-148 | `configs` becomes the list; with a non-empty list and nothing selected, `selected` becomes the last index (a valid one) and the log gains `Run(enable, last)`, `Save`, `RefreshTray(list, selected)` in that order; otherwise `selected` is kept, even past the new end, and the log gains `Save`, `RefreshTray(list, selected)`; `enable` and `autoLaunch` are unchanged |
| Controller.App.Exit | app/electron.js:69-73 | the record is unchanged and not persisted; the log gains the window teardown, the tray teardown and the quit, in that order |
| Controller.FirstRunSelectsLast | app/electron.js:140-147 | when configurations arrive with nothing selected, the last becomes the selection, a valid index into the new list, and the client is launched with it before the record is saved and the tray redrawn |
| Controller.StaleSelectionSurvivesShrink | app/electron.js:139-148 | a selection at or past the end of a newly arrived list is kept without relaunch, and a later `change-enable` with that index launches the client with `undefined` |
| Trace.ReplayAppend | app/electron.js:88-148 | handling events one after another composes: the run of `a + b` ends in the record the run of `b` reaches from where `a` left off, and its calls are those of `a` followed by those of `b` |
| Trace.ReplaySaves | app/electron.js:88-148 | a run persists the record exactly once per event that is not `exit` |
| Trace.ReplayRuns | app/electron.js:88-148 | a run launches the client at most once per event |
| Trace.ReplayEnable | app/electron.js:88-89 | after a run, `enable` is the value of its last `change-enable`, or the stored value when there is none |
| Trace.ReplayAutoLaunch | app/electron.js:96-97 | after a run, `autoLaunch` is the value of its last `change-auto-launch`, or the stored value when there is none |
| Trace.ReplayConfigs | app/electron.js:145 | after a run, `configs` is the list of its last `update-configs`, or the stored list when there is none |
| Trace.ReplaySelected | app/electron.js:140-141 | once something is selected and no `change-selected` clears it, the selection stays set and is the index of the last `change-selected` (or the stored one): the automatic selection never fires again |

## Left out

- Window and application lifecycle (`createWindow`, `showWindow` and the `click` event, the `close`, `closed`, `activate` and `window-all-closed` handlers, devtools): user-interface plumbing over Electron, with no controller state.
- Development and production URL configuration from environment variables: start-up configuration of the window only.
- The `auto-launch` library: its `enable`/`disable` calls appear only as the log entries `AutoLaunchOn` and `AutoLaunchOff`.
- The modules `./storage`, `./client` and `./tray` are not part of this model: `storage.saveConfig()`, `client.run`, `tray.refreshConfigs`, `tray.destroy` are log entries, `storage.getConfigs()` is the constructor's argument, and `tray.getMenuConfig().selected` is the `traySelected` argument. `storage.setup`, `tray.setup`, `client.setup` (downloading the client sources) and the persistence format are not modelled.
- IPC transport: `init-configs` and `exec-error` are messages to the window with no effect on the record; the list `update-configs` delivers arrives as the method's argument.
- What happens after `app.quit()`: quitting is asynchronous in Electron, and `Replay` keeps handling events that follow an `exit`.
- JavaScript values of other types (a non-integer index, a `selected` that is not a number): indices are integers here.
- Failing collaborator calls: every call into `storage`, `client`, `tray`, the window, the `auto-launch` library and `app` is assumed to return normally. No handler catches anything, so a call that throws ends its handler there, with the assignments before it made and the calls after it not made (a throw from `client.run` in `update-configs` leaves `selected` set while `configs` is not assigned, nothing is saved and the tray is not redrawn). The exact logs in the postconditions of the `App` methods, `Step` and the run lemmas such as `ReplaySaves` hold only under this assumption.
