/** A client of the controller that relies on the postconditions of its
    handlers alone. */
module Scenario {
  import opened Wrappers
  import opened Controller

  /** A first start with an empty store: the first configuration to arrive
      becomes the selection, the client is launched with it, and only then is
      the record persisted and the tray redrawn; a later `change-enable` from
      the tray relaunches it with the new flag. */
  method FirstStart<C>(cfg: C)
  {
    var app := new App<C>(Stored([], -1, false, false));
    app.UpdateConfigs([cfg]);
    assert app.selected == 0 && app.configs == [cfg];
    assert app.log == [Run(false, Some(cfg)), Save, RefreshTray([cfg], 0)];
    app.ChangeEnable(true, app.selected);
    assert app.enable && app.selected == 0;
    assert app.log[3..] == [Save, Run(true, Some(cfg))];
  }
}
