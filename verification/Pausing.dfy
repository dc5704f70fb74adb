/** The `/off` and `/on` commands without a name: every output shown is paused or resumed. */
module Pausing {
  import opened Types
  import opened Sections
  import C = Controller

  /** The configured outputs that have a state. */
  ghost predicate Shows(outputs: seq<OutputConfig>, states: map<string, OutputState>, name: string) {
    name in states && exists o :: o in outputs && o.name == name
  }

  lemma {:induction false} ShownNames(outputs: seq<OutputConfig>, states: map<string, OutputState>, now: int,
          name: string)
    ensures Shows(outputs, states, name) <==> exists s :: s in C.ShownStates(outputs, states, now) && s.name == name
  {
    if outputs != [] {
      ShownNames(outputs[1..], states, now, name);
      assert outputs == [outputs[0]] + outputs[1..];
    }
  }

  /** Sets the flag of every output shown, one critical section each; the others keep theirs.  After `/off`
      the agent is gated exactly when every flag that belongs to no output shown was
      set already, and there is a flag at all. */
  method PauseAll(ctrl: C.Controller, value: bool, now: int)
    modifies ctrl`paused, ctrl`outputStates
    ensures forall name :: Shows(ctrl.outputs, old(ctrl.outputStates), name) ==> IsPaused(ctrl.Locked(), name) == value
    ensures forall name :: !Shows(ctrl.outputs, old(ctrl.outputStates), name) ==>
      (name in ctrl.paused <==> name in old(ctrl.paused)) &&
      IsPaused(ctrl.Locked(), name) == IsPaused(old(ctrl.Locked()), name)
    ensures ctrl.outputStates.Keys == old(ctrl.outputStates).Keys
    ensures forall name :: name in ctrl.outputStates ==>
      ctrl.outputStates[name] == if Shows(ctrl.outputs, old(ctrl.outputStates), name)
                                 then old(ctrl.outputStates)[name].(paused := value) else old(ctrl.outputStates)[name]
    ensures value && ctrl.paused != map[] ==>
      (AllPaused(ctrl.Locked()) <==>
        forall name :: name in old(ctrl.paused) && !Shows(ctrl.outputs, old(ctrl.outputStates), name) ==>
          old(ctrl.paused)[name])
  {
    var states := ctrl.OutputStates(now);
    forall name ensures Shows(ctrl.outputs, ctrl.outputStates, name) <==> exists s :: s in states && s.name == name {
      ShownNames(ctrl.outputs, ctrl.outputStates, now, name);
    }
    ghost var before := ctrl.Locked();
    for i := 0 to |states|
      invariant SetFor(before, ctrl.Locked(), states[..i], value)
    {
      assert states[..i + 1] == states[..i] + [states[i]];
      SetForMore(before, ctrl.Locked(), states[..i], states[i], value);
      ctrl.SetPaused(states[i].name, value);
    }
    assert states[..|states|] == states;
    assert forall name :: Named(states, name) <==> Shows(ctrl.outputs, before.ui, name);
  }

  /** Both flags of the names shown so far have the value; everything else is as before. */
  ghost predicate SetFor(before: Shared, sh: Shared, states: seq<C.Shown>, value: bool) {
    && sh.ui.Keys == before.ui.Keys
    && (forall name :: Named(states, name) ==> name in sh.paused && sh.paused[name] == value)
    && (forall name :: !Named(states, name) ==>
          (name in sh.paused <==> name in before.paused) &&
          (name in sh.paused ==> sh.paused[name] == before.paused[name]))
    && forall name :: name in sh.ui ==>
         sh.ui[name] == if Named(states, name) then before.ui[name].(paused := value) else before.ui[name]
  }

  lemma SetForMore(before: Shared, sh: Shared, front: seq<C.Shown>, last: C.Shown, value: bool)
    requires SetFor(before, sh, front, value)
    ensures SetFor(before, SetPausedIn(sh, last.name, value), front + [last], value)
  {
    NamedMore(front, last);
  }

  lemma NamedMore(front: seq<C.Shown>, last: C.Shown)
    ensures forall name :: Named(front + [last], name) <==> Named(front, name) || name == last.name
  {
    assert last in front + [last];
    forall name ensures Named(front, name) ==> Named(front + [last], name) {
      if Named(front, name) {
        var s :| s in front && s.name == name;
        assert s in front + [last];
      }
    }
  }

  ghost predicate Named(states: seq<C.Shown>, name: string) {
    exists s :: s in states && s.name == name
  }
}
