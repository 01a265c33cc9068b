/**
 * The engine of main.c as it runs: the registration tables the
 * `newState`/`newTransition` macros fill in, the global `States`,
 * `Transitions`, `Grafcets`, `Inputs` and `Outputs` arrays the cycle
 * updates in place, and one method per loop of the cycle. Each method is
 * proved to leave the arrays exactly as the matching function of module
 * GrafcetModel describes, so every lemma of module GrafcetProperties holds
 * of the running engine.
 */
module GrafcetEngine {
  import opened GrafcetModel
  import opened GrafcetProperties

  /** What a transition id holds before `newTransition` registers it. */
  const Unregistered: Link := Link([], [], Literal(false))

  class Engine {
    /** The `Active` flag and `Timer` of each state. */
    const states: array<StateRecord>
    /** The `Active` flag of each transition. */
    const firing: array<bool>
    /** The `Frozen` flag of each grafcet. */
    const frozen: array<bool>
    /** The `Active` latch of each input. */
    const inputs: array<bool>
    /** The `Active` flag of each output. */
    const outputs: array<bool>
    /** The `Key` of each input. */
    const keys: seq<char>
    /** The `Output` action of each state. */
    var actions: seq<seq<Effect>>
    /** The preconditions, targets and `Condition` of each transition. */
    var links: seq<Link>
    /** The member lists of each grafcet. */
    var grafcets: seq<Grafcet>

    function Registered(): Chart
      reads this
    {
      Chart(actions, links, grafcets, keys)
    }

    function Snapshot(): World
      reads states, firing, frozen, inputs, outputs
    {
      World(states[..], firing[..], frozen[..], inputs[..], outputs[..])
    }

    /** The member lists fit their fixed arrays. */
    ghost predicate WithinCapacity()
      reads this
    {
      forall g :: 0 <= g < |grafcets| ==>
        |grafcets[g].states| <= GrafcetMaxStates && |grafcets[g].transitions| <= GrafcetMaxTransitions
    }

    /** The four flag arrays are four different arrays. */
    ghost predicate Distinct()
      reads this
    {
      && firing != frozen && firing != inputs && firing != outputs
      && frozen != inputs && frozen != outputs && inputs != outputs
    }

    ghost predicate Valid()
      reads this, states, firing, frozen, inputs, outputs
    {
      && Distinct()
      && |grafcets| == GrafcetCount
      && WithinCapacity()
      && Sized(Registered(), Snapshot())
      && Linked(Registered(), outputs.Length)
    }

    /**
     * The static arrays before `main` runs: every flag false, every timer
     * 0, nothing registered.
     */
    constructor (stateCount: nat, transitionCount: nat, keys: seq<char>, outputCount: nat)
      requires 1 <= |keys| <= outputCount
      ensures Valid() && fresh(states) && fresh(firing) && fresh(frozen) && fresh(inputs) && fresh(outputs)
      ensures Registered() == Chart(seq(stateCount, _ => []), seq(transitionCount, _ => Unregistered),
                                    [Grafcet([], []), Grafcet([], [])], keys)
      ensures Snapshot() == World(seq(stateCount, _ => StateRecord(false, 0)), seq(transitionCount, _ => false),
                                  [false, false], seq(|keys|, _ => false), seq(outputCount, _ => false))
    {
      states := new StateRecord[stateCount](_ => StateRecord(false, 0));
      firing := new bool[transitionCount](_ => false);
      frozen := new bool[GrafcetCount](_ => false);
      inputs := new bool[|keys|](_ => false);
      outputs := new bool[outputCount](_ => false);
      this.keys := keys;
      actions := seq(stateCount, _ => []);
      links := seq(transitionCount, _ => Unregistered);
      grafcets := [Grafcet([], []), Grafcet([], [])];
      new;
      assert forall s :: 0 <= s < |actions| ==> actions[s] == [];
      assert forall t :: 0 <= t < |links| ==> links[t] == Unregistered;
      assert states[..] == seq(stateCount, _ => StateRecord(false, 0));
      assert firing[..] == seq(transitionCount, _ => false);
      assert frozen[..] == [false, false];
      assert inputs[..] == seq(|keys|, _ => false);
      assert outputs[..] == seq(outputCount, _ => false);
    }

    /**
     * `newState(g, id, effects)`: state id joins grafcet g's member list
     * and gets its output action.
     */
    method NewState(g: nat, id: nat, effects: seq<Effect>)
      requires Valid() && g < |grafcets| && id < |actions| && |grafcets[g].states| < GrafcetMaxStates
      requires forall k :: 0 <= k < |effects| ==> EffectInRange(effects[k], outputs.Length, |grafcets|)
      modifies this
      ensures Valid()
      ensures Registered() == old(Registered()).(
                actions := old(actions)[id := effects],
                grafcets := old(grafcets)[g := old(grafcets[g]).(states := old(grafcets[g].states) + [id])])
      ensures Snapshot() == old(Snapshot())
    {
      actions := actions[id := effects];
      grafcets := grafcets[g := grafcets[g].(states := grafcets[g].states + [id])];
    }

    /**
     * `newTransition(g, id, previous, next, condition)`: transition id
     * joins grafcet g's member list and gets its preconditions, targets
     * and condition.
     */
    method NewTransition(g: nat, id: nat, previous: seq<nat>, next: seq<nat>, condition: Cond)
      requires Valid() && g < |grafcets| && id < |links| && |grafcets[g].transitions| < GrafcetMaxTransitions
      requires |previous| <= GrafcetMaxStates && |next| <= GrafcetMaxStates
      requires InRange(previous, |actions|) && InRange(next, |actions|)
      modifies this
      ensures Valid()
      ensures Registered() == old(Registered()).(
                links := old(links)[id := Link(previous, next, condition)],
                grafcets := old(grafcets)[g := old(grafcets[g]).(transitions := old(grafcets[g].transitions) + [id])])
      ensures Snapshot() == old(Snapshot())
    {
      links := links[id := Link(previous, next, condition)];
      grafcets := grafcets[g := grafcets[g].(transitions := grafcets[g].transitions + [id])];
    }

    /** The default marking: state s starts active. */
    method SetInitial(s: nat)
      requires Valid() && s < states.Length
      modifies states
      ensures Valid()
      ensures Snapshot() == old(Snapshot()).(states := old(states[..])[s := old(states[s]).(active := true)])
    {
      states[s] := states[s].(active := true);
    }

    /**
     * checkTransitionState: the transition fires exactly when every
     * precondition is active and the condition holds, and the condition is
     * consulted only when every precondition is active.
     */
    method CheckTransitionState(t: nat) returns (fires: bool, conditionCalled: bool)
      requires Valid() && t < |links|
      ensures conditionCalled <==> AllActive(Snapshot(), links[t].previous)
      ensures fires <==> Enabled(Registered(), Snapshot(), t)
    {
      var previous := links[t].previous;
      assert InRange(previous, states.Length);
      var allPrevious := true;
      var k := 0;
      while k < |previous|
        invariant k <= |previous|
        invariant forall j :: 0 <= j < k ==> states[previous[j]].active
      {
        if !states[previous[k]].active {
          allPrevious := false;
          break;
        }
        k := k + 1;
      }
      if allPrevious {
        conditionCalled := true;
        fires := Holds(links[t].condition, Snapshot());
      } else {
        conditionCalled := false;
        fires := false;
      }
    }

    /** The evaluate loop of grafcet g: only the members' Active flags change, decided on the state before the loop. */
    method EvaluateTransitions(g: nat)
      requires Valid() && g < |grafcets|
      modifies firing
      ensures Valid()
      ensures Snapshot() == old(Snapshot()).(firing := Evaluate(Registered(), old(Snapshot()), g))
    {
      ghost var w := Snapshot();
      var members := grafcets[g].transitions;
      assert InRange(members, firing.Length);
      for k := 0 to |members|
        invariant Snapshot() == w.(firing := EvaluateUpTo(Registered(), w, g, k))
      {
        var t := members[k];
        var fires := false;
        if !frozen[g] {
          var conditionCalled;
          fires, conditionCalled := CheckTransitionState(t);
          EnabledOnSameView(Registered(), w, Snapshot(), t);
        }
        assert fires == Fires(Registered(), w, g, t);
        firing[t] := fires;
      }
    }

    /** The inner deactivate loop: the listed states lose their Active flag. */
    method ClearStates(ids: seq<nat>)
      requires InRange(ids, states.Length)
      modifies states
      ensures states[..] == ClearAll(old(states[..]), ids)
    {
      for k := 0 to |ids|
        invariant states[..] == ClearAll(old(states[..]), ids[..k])
      {
        states[ids[k]] := states[ids[k]].(active := false);
        assert ids[..k + 1][..k] == ids[..k];
      }
      assert ids[..|ids|] == ids;
    }

    /** The inner activate loop: the listed states become active with their timer at 0. */
    method SetStates(ids: seq<nat>)
      requires InRange(ids, states.Length)
      modifies states
      ensures states[..] == SetAll(old(states[..]), ids)
    {
      for k := 0 to |ids|
        invariant states[..] == SetAll(old(states[..]), ids[..k])
      {
        states[ids[k]] := states[ids[k]].(active := true, timer := 0);
        assert ids[..k + 1][..k] == ids[..k];
      }
      assert ids[..|ids|] == ids;
    }

    /** The deactivate loop of grafcet g: the preconditions of every fired member lose their Active flag. */
    method DeactivateAbove(g: nat)
      requires Valid() && g < |grafcets|
      modifies states
      ensures Valid()
      ensures Snapshot() == old(Snapshot()).(states := DeactivateUpTo(Registered(), old(Snapshot()), g, |grafcets[g].transitions|))
    {
      ghost var w := Snapshot();
      var members := grafcets[g].transitions;
      assert InRange(members, firing.Length);
      for k := 0 to |members|
        invariant Snapshot() == w.(states := DeactivateUpTo(Registered(), w, g, k))
      {
        var t := members[k];
        if firing[t] {
          assert InRange(links[t].previous, states.Length);
          ClearStates(links[t].previous);
        }
      }
    }

    /** The activate loop of grafcet g: the targets of every fired member become active with their timer at 0. */
    method ActivateBelow(g: nat)
      requires Valid() && g < |grafcets|
      modifies states
      ensures Valid()
      ensures Snapshot() == old(Snapshot()).(states := ActivateUpTo(Registered(), old(Snapshot()), g, |grafcets[g].transitions|))
    {
      ghost var w := Snapshot();
      var members := grafcets[g].transitions;
      assert InRange(members, firing.Length);
      for k := 0 to |members|
        invariant Snapshot() == w.(states := ActivateUpTo(Registered(), w, g, k))
      {
        var t := members[k];
        if firing[t] {
          assert InRange(links[t].next, states.Length);
          SetStates(links[t].next);
        }
      }
    }

    /** One call of a state's `Output`: each effect sets its output or freezes its grafcet. */
    method RunAction(effects: seq<Effect>)
      requires Distinct()
      requires forall k :: 0 <= k < |effects| ==> EffectInRange(effects[k], outputs.Length, frozen.Length)
      modifies outputs, frozen
      ensures Snapshot() == ApplyEffects(old(Snapshot()), effects)
    {
      for k := 0 to |effects|
        invariant Snapshot() == ApplyEffects(old(Snapshot()), effects[..k])
      {
        assert effects[..k + 1][..k] == effects[..k];
        match effects[k]
        case SetOutput(o) => outputs[o] := true;
        case Freeze(h) => frozen[h] := true;
      }
      assert effects[..|effects|] == effects;
    }

    /** The output loop of grafcet g: every active member state runs its action. */
    method RunOutputs(g: nat)
      requires Valid() && g < |grafcets|
      modifies outputs, frozen
      ensures Valid()
      ensures Snapshot() == OutputsUpTo(Registered(), old(Snapshot()), g, |grafcets[g].states|)
    {
      ghost var w := Snapshot();
      var members := grafcets[g].states;
      assert InRange(members, states.Length);
      for k := 0 to |members|
        invariant Snapshot() == OutputsUpTo(Registered(), w, g, k)
      {
        var s := members[k];
        if states[s].active {
          assert forall j :: 0 <= j < |actions[s]| ==> EffectInRange(actions[s][j], outputs.Length, |grafcets|);
          RunAction(actions[s]);
        }
      }
    }

    /** The body of the per-grafcet loop for grafcet g, ending with `Frozen = false`. */
    method RunGrafcet(g: nat)
      requires Valid() && g < |grafcets|
      modifies states, firing, frozen, outputs
      ensures Valid()
      ensures Snapshot() == Phase(Registered(), old(Snapshot()), g)
    {
      ghost var c := Registered();
      ghost var w := Snapshot();
      ghost var n := |grafcets[g].transitions|;
      EvaluateTransitions(g);
      ghost var w1 := Snapshot();
      assert w1 == w.(firing := Evaluate(c, w, g));
      DeactivateAbove(g);
      assert Snapshot() == w1.(states := DeactivateUpTo(c, w1, g, n));
      ActivateBelow(g);
      assert Snapshot() == AfterCommit(c, w, g);
      RunOutputs(g);
      ghost var w4 := Snapshot();
      assert w4 == OutputsUpTo(c, AfterCommit(c, w, g), g, |grafcets[g].states|);
      frozen[g] := false;
      assert Snapshot() == w4.(frozen := w4.frozen[g := false]);
    }

    /** The output reset, over the indices of `Inputs` as written. */
    method ClearOutputs()
      requires Valid()
      modifies outputs
      ensures Valid()
      ensures Snapshot() == ResetOutputs(old(Snapshot()))
    {
      for k := 0 to inputs.Length
        invariant forall i :: 0 <= i < outputs.Length ==> outputs[i] == if i < k then false else old(outputs[i])
      {
        outputs[k] := false;
      }
      assert outputs[..] == ResetOutputs(old(Snapshot())).outputs;
    }

    /** One character read: the first input with that key flips its latch. */
    method ToggleKey(ch: char)
      requires Valid()
      modifies inputs
      ensures inputs[..] == Toggle(keys, old(inputs[..]), ch)
    {
      var i := 0;
      while i < inputs.Length
        invariant i <= inputs.Length
        invariant FirstKey(keys, ch, 0) == FirstKey(keys, ch, i)
      {
        if keys[i] == ch {
          inputs[i] := !inputs[i];
          return;
        }
        i := i + 1;
      }
    }

    /** The read loop over the characters waiting in this cycle. */
    method ReadInputs(typed: seq<char>)
      requires Valid()
      modifies inputs
      ensures Valid()
      ensures Snapshot() == old(Snapshot()).(inputs := ReadKeys(keys, old(inputs[..]), typed))
    {
      for k := 0 to |typed|
        invariant Valid()
        invariant inputs[..] == ReadKeys(keys, old(inputs[..]), typed[..k])
      {
        ToggleKey(typed[k]);
        assert typed[..k + 1][..k] == typed[..k];
      }
      assert typed[..|typed|] == typed;
      assert inputs[..] == ReadKeys(keys, old(inputs[..]), typed);
    }

    /** The timer update: one tick for every active state. */
    method TickTimers()
      requires Valid()
      modifies states
      ensures Valid()
      ensures Snapshot() == UpdateTimers(old(Snapshot()))
    {
      for k := 0 to states.Length
        invariant forall i :: 0 <= i < states.Length ==>
                    states[i] == if i < k && old(states[i]).active then old(states[i]).(timer := old(states[i]).timer + 1)
                                 else old(states[i])
      {
        if states[k].active {
          states[k] := states[k].(timer := states[k].timer + 1);
        }
      }
    }

    /** One pass of the `for(;;)` loop; `quit` says whether it stopped at the QUIT check. */
    method Cycle(typed: seq<char>) returns (quit: bool)
      requires Valid()
      modifies states, firing, frozen, inputs, outputs
      ensures Valid()
      ensures (quit, Snapshot()) == GrafcetModel.Cycle(Registered(), old(Snapshot()), typed)
    {
      if inputs[Quit] {
        return true;
      }
      ClearOutputs();
      ReadInputs(typed);
      TickTimers();
      ghost var w := Snapshot();
      for g := 0 to GrafcetCount
        invariant Valid()
        invariant Snapshot() == Phases(Registered(), w, g)
      {
        RunGrafcet(g);
      }
      quit := false;
    }

    /** The `for(;;)` loop, one batch of waiting characters per cycle, until QUIT stops it. */
    method Run(batches: seq<seq<char>>) returns (quit: bool)
      requires Valid()
      modifies states, firing, frozen, inputs, outputs
      ensures Valid()
      ensures (quit, Snapshot()) == GrafcetModel.Run(Registered(), old(Snapshot()), batches)
    {
      quit := false;
      var i := 0;
      while i < |batches|
        invariant i <= |batches| && Valid()
        invariant GrafcetModel.Run(Registered(), Snapshot(), batches[i..]) == GrafcetModel.Run(Registered(), old(Snapshot()), batches)
      {
        assert batches[i..][0] == batches[i] && batches[i..][1..] == batches[i + 1..];
        quit := Cycle(batches[i]);
        if quit {
          return;
        }
        i := i + 1;
      }
    }
  }
}
