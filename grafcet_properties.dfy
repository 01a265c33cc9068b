/**
 * What one cycle of main.c guarantees, stated over the functions of module
 * GrafcetModel: firing is decided on the snapshot taken before the grafcet's
 * phase, the deactivate and activate loops commit exactly the fired
 * transitions, a frozen grafcet keeps its states, output actions only ever
 * set flags, a freeze lasts until the end of the frozen grafcet's next
 * phase, and each character read flips at most one input latch.
 */
module GrafcetProperties {
  import opened Common
  import opened GrafcetModel

  // ---------------------------------------------------------------------
  // Evaluation reads a snapshot

  /** A condition reads only the Active flags, the timers and the input latches. */
  lemma {:induction false} HoldsOnSameView(cond: Cond, w: World, w': World)
    requires w'.states == w.states && w'.inputs == w.inputs
    ensures Holds(cond, w') == Holds(cond, w)
  {
    match cond
    case Not(a) => HoldsOnSameView(a, w, w');
    case And(a, b) => HoldsOnSameView(a, w, w'); HoldsOnSameView(b, w, w');
    case Or(a, b) => HoldsOnSameView(a, w, w'); HoldsOnSameView(b, w, w');
    case _ =>
  }

  /**
   * checkTransitionState neither reads nor writes the transitions' Active
   * flags, the Frozen flags or the outputs: the evaluate loop's earlier
   * writes do not change what a later transition sees.
   */
  lemma EnabledOnSameView(c: Chart, w: World, w': World, t: nat)
    requires w'.states == w.states && w'.inputs == w.inputs
    ensures Enabled(c, w', t) == Enabled(c, w, t)
  {
    if t < |c.links| {
      HoldsOnSameView(c.links[t].condition, w, w');
    }
  }

  /** The evaluate loop stores, for each listed transition, whether it fires on the state before the loop. */
  lemma {:induction false} EvaluateUpToPointwise(c: Chart, w: World, g: nat, k: nat)
    requires g < |c.grafcets| && k <= |c.grafcets[g].transitions|
    ensures forall t :: 0 <= t < |w.firing| ==>
              EvaluateUpTo(c, w, g, k)[t] == if t in c.grafcets[g].transitions[..k] then Fires(c, w, g, t) else w.firing[t]
  {
    if k > 0 {
      var ts := c.grafcets[g].transitions;
      EvaluateUpToPointwise(c, w, g, k - 1);
      assert ts[..k] == ts[..k - 1] + [ts[k - 1]];
    }
  }

  /**
   * After the evaluate loop, a member transition's Active flag says whether
   * it fires on the snapshot, and every other transition keeps its flag.
   */
  lemma EvaluatePointwise(c: Chart, w: World, g: nat)
    requires g < |c.grafcets|
    ensures forall t :: 0 <= t < |w.firing| ==>
              Evaluate(c, w, g)[t] == if t in c.grafcets[g].transitions then Fires(c, w, g, t) else w.firing[t]
  {
    var ts := c.grafcets[g].transitions;
    EvaluateUpToPointwise(c, w, g, |ts|);
    assert ts[..|ts|] == ts;
  }

  /** Which transitions fire does not depend on the order, or repetitions, of the grafcet's transition list. */
  lemma EvaluateOrderIndependent(c: Chart, c': Chart, w: World, g: nat)
    requires g < |c.grafcets| && g < |c'.grafcets| && c'.links == c.links
    requires forall t :: t in c.grafcets[g].transitions <==> t in c'.grafcets[g].transitions
    ensures Evaluate(c, w, g) == Evaluate(c', w, g)
  {
    EvaluatePointwise(c, w, g);
    EvaluatePointwise(c', w, g);
  }

  // ---------------------------------------------------------------------
  // Deactivate above, activate below

  lemma {:induction false} ClearAllPointwise(ss: seq<StateRecord>, ids: seq<nat>)
    ensures forall i :: 0 <= i < |ss| ==> ClearAll(ss, ids)[i] == if i in ids then ss[i].(active := false) else ss[i]
    decreases |ids|
  {
    if ids != [] {
      ClearAllPointwise(ss, ids[..|ids| - 1]);
      assert ids == ids[..|ids| - 1] + [ids[|ids| - 1]];
    }
  }

  lemma {:induction false} SetAllPointwise(ss: seq<StateRecord>, ids: seq<nat>)
    ensures forall i :: 0 <= i < |ss| ==>
              SetAll(ss, ids)[i] == if i in ids then ss[i].(active := true, timer := 0) else ss[i]
    decreases |ids|
  {
    if ids != [] {
      SetAllPointwise(ss, ids[..|ids| - 1]);
      assert ids == ids[..|ids| - 1] + [ids[|ids| - 1]];
    }
  }

  /** Transition t has its Active flag set and lists state i among its preconditions. */
  predicate Drains(c: Chart, w: World, t: nat, i: nat) {
    Fired(w, t) && t < |c.links| && i in c.links[t].previous
  }

  /** Transition t has its Active flag set and lists state i among its targets. */
  predicate Feeds(c: Chart, w: World, t: nat, i: nat) {
    Fired(w, t) && t < |c.links| && i in c.links[t].next
  }

  lemma {:induction false} DeactivateUpToPointwise(c: Chart, w: World, g: nat, k: nat)
    requires g < |c.grafcets| && k <= |c.grafcets[g].transitions|
    ensures forall i :: 0 <= i < |w.states| ==>
              DeactivateUpTo(c, w, g, k)[i] ==
                if exists t :: t in c.grafcets[g].transitions[..k] && Drains(c, w, t, i)
                then w.states[i].(active := false) else w.states[i]
  {
    if k > 0 {
      var ts := c.grafcets[g].transitions;
      var t := ts[k - 1];
      var v := DeactivateUpTo(c, w, g, k - 1);
      DeactivateUpToPointwise(c, w, g, k - 1);
      assert ts[..k] == ts[..k - 1] + [t];
      if Fired(w, t) && t < |c.links| {
        ClearAllPointwise(v, c.links[t].previous);
      }
      forall i | 0 <= i < |w.states|
        ensures DeactivateUpTo(c, w, g, k)[i] ==
                  if exists t' :: t' in ts[..k] && Drains(c, w, t', i) then w.states[i].(active := false) else w.states[i]
      {
        if Drains(c, w, t, i) {
          assert t in ts[..k];
        } else if exists t' :: t' in ts[..k] && Drains(c, w, t', i) {
          var t' :| t' in ts[..k] && Drains(c, w, t', i);
          assert t' in ts[..k - 1];
        }
      }
    }
  }

  lemma {:induction false} ActivateUpToPointwise(c: Chart, w: World, g: nat, k: nat)
    requires g < |c.grafcets| && k <= |c.grafcets[g].transitions|
    ensures forall i :: 0 <= i < |w.states| ==>
              ActivateUpTo(c, w, g, k)[i] ==
                if exists t :: t in c.grafcets[g].transitions[..k] && Feeds(c, w, t, i)
                then w.states[i].(active := true, timer := 0) else w.states[i]
  {
    if k > 0 {
      var ts := c.grafcets[g].transitions;
      var t := ts[k - 1];
      var v := ActivateUpTo(c, w, g, k - 1);
      ActivateUpToPointwise(c, w, g, k - 1);
      assert ts[..k] == ts[..k - 1] + [t];
      if Fired(w, t) && t < |c.links| {
        SetAllPointwise(v, c.links[t].next);
      }
      forall i | 0 <= i < |w.states|
        ensures ActivateUpTo(c, w, g, k)[i] ==
                  if exists t' :: t' in ts[..k] && Feeds(c, w, t', i) then w.states[i].(active := true, timer := 0) else w.states[i]
      {
        if Feeds(c, w, t, i) {
          assert t in ts[..k];
        } else if exists t' :: t' in ts[..k] && Feeds(c, w, t', i) {
          var t' :| t' in ts[..k] && Feeds(c, w, t', i);
          assert t' in ts[..k - 1];
        }
      }
    }
  }


  /** A member transition of grafcet g fires on w and lists state i among its targets. */
  predicate Target(c: Chart, w: World, g: nat, i: nat)
    requires g < |c.grafcets|
  {
    exists t :: t in c.grafcets[g].transitions && t < |c.links| && Fires(c, w, g, t) && i in c.links[t].next
  }

  /** A member transition of grafcet g fires on w and lists state i among its preconditions. */
  predicate Source(c: Chart, w: World, g: nat, i: nat)
    requires g < |c.grafcets|
  {
    exists t :: t in c.grafcets[g].transitions && t < |c.links| && Fires(c, w, g, t) && i in c.links[t].previous
  }

  /**
   * The two-phase commit of one grafcet: every target of a fired transition
   * is active with its timer at 0 (even one that was already active, or is
   * also a precondition), every other precondition of a fired transition is
   * inactive, and every other state is untouched.
   */
  lemma CommitPointwise(c: Chart, w: World, g: nat)
    requires Sized(c, w) && g < |c.grafcets|
    ensures forall i :: 0 <= i < |w.states| ==>
              Committed(c, w, g)[i] ==
                if Target(c, w, g, i) then w.states[i].(active := true, timer := 0)
                else if Source(c, w, g, i) then w.states[i].(active := false)
                else w.states[i]
  {
    var ts := c.grafcets[g].transitions;
    var n := |ts|;
    var w1 := w.(firing := Evaluate(c, w, g));
    var w2 := w1.(states := DeactivateUpTo(c, w1, g, n));
    EvaluatePointwise(c, w, g);
    DeactivateUpToPointwise(c, w1, g, n);
    ActivateUpToPointwise(c, w2, g, n);
    assert ts[..n] == ts;
    forall i | 0 <= i < |w.states|
      ensures (exists t :: t in ts && Feeds(c, w2, t, i)) == Target(c, w, g, i)
      ensures (exists t :: t in ts && Drains(c, w1, t, i)) == Source(c, w, g, i)
    {
      assert forall t :: t in ts ==> (Fired(w1, t) && t < |c.links| <==> t < |c.links| && Fires(c, w, g, t));
    }
  }

  /**
   * The commit does not depend on the order, or repetitions, of the
   * grafcet's transition list: deactivating every precondition before
   * activating any target is what makes firing simultaneous.
   */
  lemma CommitOrderIndependent(c: Chart, c': Chart, w: World, g: nat)
    requires Sized(c, w) && g < |c.grafcets| && c'.links == c.links && c'.actions == c.actions
    requires c'.keys == c.keys && |c'.grafcets| == |c.grafcets|
    requires forall t :: t in c.grafcets[g].transitions <==> t in c'.grafcets[g].transitions
    ensures Committed(c, w, g) == Committed(c', w, g)
  {
    CommitPointwise(c, w, g);
    CommitPointwise(c', w, g);
    forall i | 0 <= i < |w.states|
      ensures Target(c, w, g, i) == Target(c', w, g, i) && Source(c, w, g, i) == Source(c', w, g, i)
    {
      assert forall t :: Fires(c, w, g, t) == Fires(c', w, g, t);
    }
  }

  /** A grafcet frozen when its phase starts fires nothing and keeps every state's flag and timer. */
  lemma FrozenGrafcetKeepsStates(c: Chart, w: World, g: nat)
    requires Sized(c, w) && g < |c.grafcets| && w.frozen[g]
    ensures forall t :: !Fires(c, w, g, t)
    ensures Committed(c, w, g) == w.states
    ensures Phase(c, w, g).states == w.states
  {
    CommitPointwise(c, w, g);
  }

  // ---------------------------------------------------------------------
  // Outputs and freezing

  lemma {:induction false} ApplyEffectsPointwise(w: World, es: seq<Effect>)
    ensures forall o :: 0 <= o < |w.outputs| ==> ApplyEffects(w, es).outputs[o] == (w.outputs[o] || SetOutput(o) in es)
    ensures forall h :: 0 <= h < |w.frozen| ==> ApplyEffects(w, es).frozen[h] == (w.frozen[h] || Freeze(h) in es)
    decreases |es|
  {
    if es != [] {
      ApplyEffectsPointwise(w, es[..|es| - 1]);
      assert es == es[..|es| - 1] + [es[|es| - 1]];
    }
  }

  /** Some listed state is active and its output action contains `output(o)`. */
  predicate Sets(c: Chart, w: World, ss: seq<nat>, o: nat) {
    exists s :: s in ss && StateActive(w, s) && s < |c.actions| && SetOutput(o) in c.actions[s]
  }

  /** Some listed state is active and its output action contains `FREEZE(h)`. */
  predicate Freezes(c: Chart, w: World, ss: seq<nat>, h: nat) {
    exists s :: s in ss && StateActive(w, s) && s < |c.actions| && Freeze(h) in c.actions[s]
  }

  lemma {:induction false} OutputsUpToPointwise(c: Chart, w: World, g: nat, k: nat)
    requires g < |c.grafcets| && k <= |c.grafcets[g].states|
    ensures forall o :: 0 <= o < |w.outputs| ==>
              OutputsUpTo(c, w, g, k).outputs[o] == (w.outputs[o] || Sets(c, w, c.grafcets[g].states[..k], o))
    ensures forall h :: 0 <= h < |w.frozen| ==>
              OutputsUpTo(c, w, g, k).frozen[h] == (w.frozen[h] || Freezes(c, w, c.grafcets[g].states[..k], h))
  {
    if k > 0 {
      var ss := c.grafcets[g].states;
      var s := ss[k - 1];
      OutputsUpToPointwise(c, w, g, k - 1);
      assert ss[..k] == ss[..k - 1] + [s];
      if StateActive(w, s) && s < |c.actions| {
        ApplyEffectsPointwise(OutputsUpTo(c, w, g, k - 1), c.actions[s]);
      }
    }
  }

  /**
   * What one grafcet's phase does to the flags: an output ends up set when
   * it was set or an active member state's action sets it, so nothing is
   * ever cleared; another grafcet ends up frozen when it was or an active
   * member state freezes it; the grafcet's own freeze is cleared. The
   * states are the committed ones and the inputs do not change.
   */
  lemma PhaseFlags(c: Chart, w: World, g: nat)
    requires Sized(c, w) && g < |c.grafcets|
    ensures var r := Phase(c, w, g);
            var ss := c.grafcets[g].states;
            && r.states == Committed(c, w, g)
            && (forall o :: 0 <= o < |w.outputs| ==> r.outputs[o] == (w.outputs[o] || Sets(c, AfterCommit(c, w, g), ss, o)))
            && (forall h :: 0 <= h < |w.frozen| && h != g ==>
                  r.frozen[h] == (w.frozen[h] || Freezes(c, AfterCommit(c, w, g), ss, h)))
            && !r.frozen[g]
  {
    var ss := c.grafcets[g].states;
    OutputsUpToPointwise(c, AfterCommit(c, w, g), g, |ss|);
    assert ss[..|ss|] == ss;
  }

  /**
   * Grafcets run in index order, so a freeze that an output action of
   * grafcet g sets on a later grafcet h takes effect in the same cycle:
   * h's phase fires nothing and keeps h's states.
   */
  lemma FreezeSuppressesLaterGrafcet(c: Chart, w: World, g: nat, h: nat)
    requires Sized(c, w) && g < h < |c.grafcets|
    requires Freezes(c, AfterCommit(c, w, g), c.grafcets[g].states, h)
    ensures Phase(c, w, g).frozen[h]
    ensures forall t :: !Fires(c, Phase(c, w, g), h, t)
    ensures Phase(c, Phase(c, w, g), h).states == Phase(c, w, g).states
  {
    PhaseFlags(c, w, g);
    FrozenGrafcetKeepsStates(c, Phase(c, w, g), h);
  }

  /** An output set before the grafcet loop stays set through all of it. */
  lemma {:induction false} PhasesKeepOutputs(c: Chart, w: World, n: nat, o: nat)
    requires Sized(c, w) && n <= |c.grafcets| && o < |w.outputs| && w.outputs[o]
    ensures |Phases(c, w, n).outputs| == |w.outputs| && Phases(c, w, n).outputs[o]
  {
    if n > 0 {
      PhasesKeepOutputs(c, w, n - 1, o);
      PhaseFlags(c, Phases(c, w, n - 1), n - 1);
    }
  }

  // ---------------------------------------------------------------------
  // Inputs, outputs, quitting

  /** A character flips the latch of the first input with that key and no other; an unknown key changes nothing. */
  lemma TogglePointwise(keys: seq<char>, inputs: seq<bool>, ch: char)
    requires |inputs| == |keys|
    ensures forall i :: 0 <= i < |inputs| ==>
              Toggle(keys, inputs, ch)[i] ==
                if keys[i] == ch && (forall j :: 0 <= j < i ==> keys[j] != ch) then !inputs[i] else inputs[i]
    ensures ch !in keys ==> Toggle(keys, inputs, ch) == inputs
  {
    var first := FirstKey(keys, ch, 0);
    if first.Some? {
      forall i | 0 <= i < |inputs| && keys[i] == ch && (forall j :: 0 <= j < i ==> keys[j] != ch)
        ensures i == first.value
      {
      }
    }
  }

  /** Typing the same key twice restores every latch. */
  lemma ToggleTwice(keys: seq<char>, inputs: seq<bool>, ch: char)
    requires |inputs| == |keys|
    ensures Toggle(keys, Toggle(keys, inputs, ch), ch) == inputs
  {
    var first := FirstKey(keys, ch, 0);
    if first.Some? {
      var i := first.value;
      assert inputs[i := !inputs[i]][i := !inputs[i := !inputs[i]][i]] == inputs;
    }
  }

  /**
   * The output reset runs over the indices of `Inputs`: outputs at or past
   * that count are never cleared, so once set they stay set for every
   * later cycle.
   */
  lemma OutputLatchedPastInputs(c: Chart, w: World, typed: seq<char>, o: nat)
    requires Sized(c, w) && |w.inputs| <= o < |w.outputs| && w.outputs[o]
    ensures Cycle(c, w, typed).1.outputs[o]
  {
    if !InputActive(w, Quit) {
      var w1 := ResetOutputs(w);
      var w3 := UpdateTimers(w1.(inputs := ReadKeys(c.keys, w1.inputs, typed)));
      PhasesKeepOutputs(c, w3, |c.grafcets|, o);
    }
  }

  /** The timer update adds exactly one tick to every active state and changes nothing else. */
  lemma TimerTicks(w: World, i: nat)
    requires i < |w.states|
    ensures UpdateTimers(w).states[i].active == w.states[i].active
    ensures UpdateTimers(w).states[i].timer == if w.states[i].active then w.states[i].timer + 1 else w.states[i].timer
  {
  }

  /** Once QUIT is latched, the loop stops at the top of the next cycle and changes nothing. */
  lemma QuitStops(c: Chart, w: World, batches: seq<seq<char>>)
    requires Sized(c, w) && InputActive(w, Quit) && batches != []
    ensures Run(c, w, batches) == (true, w)
  {
  }

  /** A cycle that does not stop clears the first |Inputs| outputs before the grafcets run. */
  lemma ResetClearsInputRange(w: World, o: nat)
    requires o < |w.inputs| && o < |w.outputs|
    ensures !ResetOutputs(w).outputs[o]
  {
  }
}
