/** Runs of the controller: the events it receives, handled one at a time in
    arrival order, and what the record and the collaborator calls are after
    all of them. */
module Trace {
  import opened Wrappers
  import opened Controller

  /** The record after handling `evs` in order from `s`, and every call made,
      in order: the last event is handled on the record the others left. */
  function Replay<C>(s: Stored<C>, evs: seq<Event<C>>): Outcome<C>
    decreases |evs|
  {
    if evs == [] then Outcome(s, [])
    else
      var before := Replay(s, evs[..|evs| - 1]);
      var last := Step(before.state, evs[|evs| - 1]);
      Outcome(last.state, before.effects + last.effects)
  }

  /** The number of events that are not `exit`. */
  function Intents<C>(evs: seq<Event<C>>): nat
  {
    if evs == [] then 0
    else Intents(evs[..|evs| - 1]) + (if evs[|evs| - 1].Exit? then 0 else 1)
  }

  /** The value of the last `change-enable` in `evs`, if there is one. */
  function LastEnable<C>(evs: seq<Event<C>>): Option<bool>
  {
    if evs == [] then None
    else if evs[|evs| - 1].ChangeEnable? then Some(evs[|evs| - 1].enable)
    else LastEnable(evs[..|evs| - 1])
  }

  /** The value of the last `change-auto-launch` in `evs`, if there is one. */
  function LastAutoLaunch<C>(evs: seq<Event<C>>): Option<bool>
  {
    if evs == [] then None
    else if evs[|evs| - 1].ChangeAutoLaunch? then Some(evs[|evs| - 1].autoLaunch)
    else LastAutoLaunch(evs[..|evs| - 1])
  }

  /** The list of the last `update-configs` in `evs`, if there is one. */
  function LastConfigs<C>(evs: seq<Event<C>>): Option<seq<C>>
  {
    if evs == [] then None
    else if evs[|evs| - 1].UpdateConfigs? then Some(evs[|evs| - 1].configs)
    else LastConfigs(evs[..|evs| - 1])
  }

  /** The index of the last `change-selected` in `evs`, if there is one. */
  function LastSelected<C>(evs: seq<Event<C>>): Option<int>
  {
    if evs == [] then None
    else if evs[|evs| - 1].ChangeSelected? then Some(evs[|evs| - 1].index)
    else LastSelected(evs[..|evs| - 1])
  }

  /** No `change-selected` in `evs` clears the selection. */
  ghost predicate NeverDeselects<C>(evs: seq<Event<C>>)
  {
    forall i :: 0 <= i < |evs| && evs[i].ChangeSelected? ==> evs[i].index >= 0
  }

  /** Handling `a` and then `b` is handling `a + b`: the second run starts
      from the record the first left, and the calls are those of the first
      followed by those of the second. Events are handled strictly one after
      another, so no event sees a partly handled earlier one. */
  lemma {:induction false} ReplayAppend<C>(s: Stored<C>, a: seq<Event<C>>, b: seq<Event<C>>)
    ensures Replay(s, a + b).state == Replay(Replay(s, a).state, b).state
    ensures Replay(s, a + b).effects == Replay(s, a).effects + Replay(Replay(s, a).state, b).effects
    decreases |b|
  {
    if b == [] {
      assert a + b == a;
    } else {
      var init := b[..|b| - 1];
      assert (a + b)[..|a + b| - 1] == a + init;
      assert (a + b)[|a + b| - 1] == b[|b| - 1];
      ReplayAppend(s, a, init);
    }
  }

  /** Every event except `exit` persists the record exactly once, so a run
      makes as many persistence calls as it has such events. */
  lemma {:induction false} ReplaySaves<C>(s: Stored<C>, evs: seq<Event<C>>)
    ensures Saves(Replay(s, evs).effects) == Intents(evs)
    decreases |evs|
  {
    if evs != [] {
      var before := Replay(s, evs[..|evs| - 1]);
      StepCalls(before.state, evs[|evs| - 1]);
      ReplaySaves(s, evs[..|evs| - 1]);
      SavesAppend(before.effects, Step(before.state, evs[|evs| - 1]).effects);
    }
  }

  /** No event launches the client more than once. */
  lemma {:induction false} ReplayRuns<C>(s: Stored<C>, evs: seq<Event<C>>)
    ensures Runs(Replay(s, evs).effects) <= |evs|
    decreases |evs|
  {
    if evs != [] {
      var before := Replay(s, evs[..|evs| - 1]);
      StepCalls(before.state, evs[|evs| - 1]);
      ReplayRuns(s, evs[..|evs| - 1]);
      RunsAppend(before.effects, Step(before.state, evs[|evs| - 1]).effects);
    }
  }

  /** The enable flag after a run is the value of its last `change-enable`,
      or the stored one when there is none. */
  lemma {:induction false} ReplayEnable<C>(s: Stored<C>, evs: seq<Event<C>>)
    ensures Replay(s, evs).state.enable == LastEnable(evs).GetOr(s.enable)
    decreases |evs|
  {
    if evs != [] {
      var init := evs[..|evs| - 1];
      StepAssigns(Replay(s, init).state, evs[|evs| - 1]);
      ReplayEnable(s, init);
    }
  }

  /** The auto-launch flag after a run is the value of its last
      `change-auto-launch`, or the stored one when there is none. */
  lemma {:induction false} ReplayAutoLaunch<C>(s: Stored<C>, evs: seq<Event<C>>)
    ensures Replay(s, evs).state.autoLaunch == LastAutoLaunch(evs).GetOr(s.autoLaunch)
    decreases |evs|
  {
    if evs != [] {
      var init := evs[..|evs| - 1];
      StepAssigns(Replay(s, init).state, evs[|evs| - 1]);
      ReplayAutoLaunch(s, init);
    }
  }

  /** The list after a run is the one its last `update-configs` delivered,
      or the stored one when there is none. */
  lemma {:induction false} ReplayConfigs<C>(s: Stored<C>, evs: seq<Event<C>>)
    ensures Replay(s, evs).state.configs == LastConfigs(evs).GetOr(s.configs)
    decreases |evs|
  {
    if evs != [] {
      var init := evs[..|evs| - 1];
      StepAssigns(Replay(s, init).state, evs[|evs| - 1]);
      ReplayConfigs(s, init);
    }
  }

  /** Once something is selected, and as long as no `change-selected`
      clears it, the selection stays set and only `change-selected` moves
      it: the automatic choice on `update-configs` never fires again. */
  lemma {:induction false} ReplaySelected<C>(s: Stored<C>, evs: seq<Event<C>>)
    requires s.selected >= 0
    requires NeverDeselects(evs)
    ensures Replay(s, evs).state.selected == LastSelected(evs).GetOr(s.selected)
    ensures Replay(s, evs).state.selected >= 0
    decreases |evs|
  {
    if evs != [] {
      var init := evs[..|evs| - 1];
      assert NeverDeselects(init) by {
        forall i | 0 <= i < |init| && init[i].ChangeSelected?
          ensures init[i].index >= 0
        {
          assert init[i] == evs[i];
        }
      }
      StepAssigns(Replay(s, init).state, evs[|evs| - 1]);
      ReplaySelected(s, init);
    }
  }
}
