/**
 * The execution engine of main.c as pure functions: the registered charts
 * (states with their output actions, transitions with their preconditions,
 * targets and conditions, and the two grafcets' member lists), the
 * per-cycle variables (Active flags, timers, the Frozen flags, the input
 * latches and the outputs), and one function per loop of the cycle. The
 * imperative engine (module GrafcetEngine) is proved against these
 * functions; the lemmas here state what the cycle guarantees.
 */
module GrafcetModel {
  import opened Common

  const GrafcetCount: nat := 2
  const GrafcetMaxStates: nat := 1024
  const GrafcetMaxTransitions: nat := 1024
  /** `IO_QUIT`, the first entry of `Inputs`. */
  const Quit: nat := 0

  /** What an output action can do: `output(X)` sets an output, `FREEZE(g)` freezes a grafcet. */
  datatype Effect = SetOutput(output: nat) | Freeze(grafcet: nat)

  /** A transition condition, over the input latches, the Active flags and the timers. */
  datatype Cond =
    | InputOn(input: nat)
    | StateOn(state: nat)
    | TimerAtLeast(state: nat, ticks: nat)
    | Not(operand: Cond)
    | And(left: Cond, right: Cond)
    | Or(left: Cond, right: Cond)
    | Literal(value: bool)

  /** What `newTransition` stores in a transition: its preconditions, its targets and its condition. */
  datatype Link = Link(previous: seq<nat>, next: seq<nat>, condition: Cond)

  /** The member lists of a `grafcet` record. */
  datatype Grafcet = Grafcet(states: seq<nat>, transitions: seq<nat>)

  /**
   * Everything registration writes, indexed like the C arrays: each
   * state's output action, each transition's links, each grafcet's
   * members, and each input's key.
   */
  datatype Chart = Chart(actions: seq<seq<Effect>>, links: seq<Link>, grafcets: seq<Grafcet>, keys: seq<char>)

  /** The fields of a `state` the cycle updates. */
  datatype StateRecord = StateRecord(active: bool, timer: nat)

  /**
   * Everything the cycle updates: the states' Active flags and timers, the
   * transitions' Active flags (`firing`), the grafcets' Frozen flags, the
   * input latches and the outputs.
   */
  datatype World = World(states: seq<StateRecord>, firing: seq<bool>, frozen: seq<bool>,
                         inputs: seq<bool>, outputs: seq<bool>)

  /** The sizes of the C arrays agree with the chart, QUIT exists, and the output reset stays in bounds. */
  predicate Sized(c: Chart, w: World) {
    && |w.states| == |c.actions| && |w.firing| == |c.links| && |w.frozen| == |c.grafcets|
    && |w.inputs| == |c.keys| && 1 <= |w.inputs| <= |w.outputs|
  }

  predicate InRange(ids: seq<nat>, n: nat) {
    forall k :: 0 <= k < |ids| ==> ids[k] < n
  }

  predicate EffectInRange(e: Effect, outputs: nat, grafcets: nat) {
    match e
    case SetOutput(o) => o < outputs
    case Freeze(g) => g < grafcets
  }

  /**
   * Every id registration stored names an existing state, transition,
   * output (of `outputCount`) or grafcet.
   */
  predicate Linked(c: Chart, outputCount: nat) {
    && (forall g :: 0 <= g < |c.grafcets| ==>
          InRange(c.grafcets[g].states, |c.actions|) && InRange(c.grafcets[g].transitions, |c.links|))
    && (forall t :: 0 <= t < |c.links| ==>
          InRange(c.links[t].previous, |c.actions|) && InRange(c.links[t].next, |c.actions|))
    && (forall s, k :: 0 <= s < |c.actions| && 0 <= k < |c.actions[s]| ==>
          EffectInRange(c.actions[s][k], outputCount, |c.grafcets|))
  }

  // ---------------------------------------------------------------------
  // What a condition sees

  /** `ACTIVE(s)` */
  predicate StateActive(w: World, s: nat) {
    s < |w.states| && w.states[s].active
  }

  /** `TIMER(s)` */
  function TimerOf(w: World, s: nat): nat {
    if s < |w.states| then w.states[s].timer else 0
  }

  /** `input(i)` */
  predicate InputActive(w: World, i: nat) {
    i < |w.inputs| && w.inputs[i]
  }

  predicate Holds(cond: Cond, w: World) {
    match cond
    case InputOn(i) => InputActive(w, i)
    case StateOn(s) => StateActive(w, s)
    case TimerAtLeast(s, k) => TimerOf(w, s) >= k
    case Not(a) => !Holds(a, w)
    case And(a, b) => Holds(a, w) && Holds(b, w)
    case Or(a, b) => Holds(a, w) || Holds(b, w)
    case Literal(b) => b
  }

  predicate AllActive(w: World, ids: seq<nat>) {
    forall k :: 0 <= k < |ids| ==> StateActive(w, ids[k])
  }

  /** checkTransitionState: every precondition state is active and the condition holds. */
  predicate Enabled(c: Chart, w: World, t: nat) {
    t < |c.links| && AllActive(w, c.links[t].previous) && Holds(c.links[t].condition, w)
  }

  /** What the evaluate loop of grafcet g stores for transition t: false while g is frozen. */
  predicate Fires(c: Chart, w: World, g: nat, t: nat) {
    g < |w.frozen| && !w.frozen[g] && Enabled(c, w, t)
  }

  // ---------------------------------------------------------------------
  // Phase 1: calculate transitions

  function SetAt(bs: seq<bool>, i: nat, b: bool): (r: seq<bool>)
    ensures |r| == |bs|
  {
    if i < |bs| then bs[i := b] else bs
  }

  /** The evaluate loop after its first k iterations. */
  function EvaluateUpTo(c: Chart, w: World, g: nat, k: nat): (r: seq<bool>)
    requires g < |c.grafcets| && k <= |c.grafcets[g].transitions|
    ensures |r| == |w.firing|
  {
    if k == 0 then w.firing
    else
      var t := c.grafcets[g].transitions[k - 1];
      SetAt(EvaluateUpTo(c, w, g, k - 1), t, Fires(c, w, g, t))
  }

  function Evaluate(c: Chart, w: World, g: nat): (r: seq<bool>)
    requires g < |c.grafcets|
    ensures |r| == |w.firing|
  {
    EvaluateUpTo(c, w, g, |c.grafcets[g].transitions|)
  }

  // ---------------------------------------------------------------------
  // Phases 2 and 3: deactivate above, activate below

  /** The inner deactivate loop: every listed state loses its Active flag. */
  function ClearAll(ss: seq<StateRecord>, ids: seq<nat>): (r: seq<StateRecord>)
    ensures |r| == |ss|
    decreases |ids|
  {
    if ids == [] then ss
    else
      var v := ClearAll(ss, ids[..|ids| - 1]);
      var i := ids[|ids| - 1];
      if i < |v| then v[i := v[i].(active := false)] else v
  }

  /** The inner activate loop: every listed state becomes active with its timer at 0. */
  function SetAll(ss: seq<StateRecord>, ids: seq<nat>): (r: seq<StateRecord>)
    ensures |r| == |ss|
    decreases |ids|
  {
    if ids == [] then ss
    else
      var v := SetAll(ss, ids[..|ids| - 1]);
      var i := ids[|ids| - 1];
      if i < |v| then v[i := v[i].(active := true, timer := 0)] else v
  }

  /** The Active flag of transition t, as the evaluate loop left it. */
  predicate Fired(w: World, t: nat) {
    t < |w.firing| && w.firing[t]
  }

  function DeactivateUpTo(c: Chart, w: World, g: nat, k: nat): (r: seq<StateRecord>)
    requires g < |c.grafcets| && k <= |c.grafcets[g].transitions|
    ensures |r| == |w.states|
  {
    if k == 0 then w.states
    else
      var t := c.grafcets[g].transitions[k - 1];
      var v := DeactivateUpTo(c, w, g, k - 1);
      if Fired(w, t) && t < |c.links| then ClearAll(v, c.links[t].previous) else v
  }

  function ActivateUpTo(c: Chart, w: World, g: nat, k: nat): (r: seq<StateRecord>)
    requires g < |c.grafcets| && k <= |c.grafcets[g].transitions|
    ensures |r| == |w.states|
  {
    if k == 0 then w.states
    else
      var t := c.grafcets[g].transitions[k - 1];
      var v := ActivateUpTo(c, w, g, k - 1);
      if Fired(w, t) && t < |c.links| then SetAll(v, c.links[t].next) else v
  }

  /** The states after the evaluate, deactivate and activate loops of grafcet g. */
  function Committed(c: Chart, w: World, g: nat): (r: seq<StateRecord>)
    requires g < |c.grafcets|
    ensures |r| == |w.states|
  {
    var n := |c.grafcets[g].transitions|;
    var w1 := w.(firing := Evaluate(c, w, g));
    var w2 := w1.(states := DeactivateUpTo(c, w1, g, n));
    ActivateUpTo(c, w2, g, n)
  }

  // ---------------------------------------------------------------------
  // Phase 4: outputs

  function ApplyEffect(w: World, e: Effect): (r: World)
    ensures r.states == w.states && r.firing == w.firing && r.inputs == w.inputs
    ensures |r.outputs| == |w.outputs| && |r.frozen| == |w.frozen|
  {
    match e
    case SetOutput(o) => w.(outputs := SetAt(w.outputs, o, true))
    case Freeze(g) => w.(frozen := SetAt(w.frozen, g, true))
  }

  /** One call of a state's `Output` function. */
  function ApplyEffects(w: World, es: seq<Effect>): (r: World)
    ensures r.states == w.states && r.firing == w.firing && r.inputs == w.inputs
    ensures |r.outputs| == |w.outputs| && |r.frozen| == |w.frozen|
    decreases |es|
  {
    if es == [] then w else ApplyEffect(ApplyEffects(w, es[..|es| - 1]), es[|es| - 1])
  }

  function OutputsUpTo(c: Chart, w: World, g: nat, k: nat): (r: World)
    requires g < |c.grafcets| && k <= |c.grafcets[g].states|
    ensures r.states == w.states && r.firing == w.firing && r.inputs == w.inputs
    ensures |r.outputs| == |w.outputs| && |r.frozen| == |w.frozen|
  {
    if k == 0 then w
    else
      var s := c.grafcets[g].states[k - 1];
      var v := OutputsUpTo(c, w, g, k - 1);
      if StateActive(w, s) && s < |c.actions| then ApplyEffects(v, c.actions[s]) else v
  }

  // ---------------------------------------------------------------------
  // One grafcet, one cycle, a run

  /** The whole body of the per-grafcet loop, ending with `Grafcet->Frozen = false`. */
  function Phase(c: Chart, w: World, g: nat): (r: World)
    requires Sized(c, w) && g < |c.grafcets|
    ensures Sized(c, r) && r.inputs == w.inputs && |r.outputs| == |w.outputs|
  {
    var w4 := OutputsUpTo(c, AfterCommit(c, w, g), g, |c.grafcets[g].states|);
    w4.(frozen := w4.frozen[g := false])
  }

  /** The variables after the evaluate, deactivate and activate loops of grafcet g. */
  function AfterCommit(c: Chart, w: World, g: nat): (r: World)
    requires g < |c.grafcets|
  {
    w.(firing := Evaluate(c, w, g), states := Committed(c, w, g))
  }

  /** The per-grafcet loop over grafcets 0 .. n-1, in index order. */
  function Phases(c: Chart, w: World, n: nat): (r: World)
    requires Sized(c, w) && n <= |c.grafcets|
    ensures Sized(c, r) && r.inputs == w.inputs && |r.outputs| == |w.outputs|
  {
    if n == 0 then w else Phase(c, Phases(c, w, n - 1), n - 1)
  }

  /** The timer update: one tick for every active state. */
  function UpdateTimers(w: World): (r: World)
    ensures |r.states| == |w.states| && r == w.(states := r.states)
  {
    w.(states := seq(|w.states|, i requires 0 <= i < |w.states| =>
                       if w.states[i].active then w.states[i].(timer := w.states[i].timer + 1) else w.states[i]))
  }

  /** The output reset as written: it runs over the indices of `Inputs`, not of `Outputs`. */
  function ResetOutputs(w: World): (r: World)
    ensures |r.outputs| == |w.outputs| && r == w.(outputs := r.outputs)
  {
    w.(outputs := seq(|w.outputs|, i requires 0 <= i < |w.outputs| => if i < |w.inputs| then false else w.outputs[i]))
  }

  /** The first input at or after `from` whose key is ch. */
  function FirstKey(keys: seq<char>, ch: char, from: nat): (r: Option<nat>)
    requires from <= |keys|
    ensures r.Some? ==> from <= r.value < |keys| && keys[r.value] == ch
    ensures r.Some? ==> forall j :: from <= j < r.value ==> keys[j] != ch
    ensures r.None? ==> forall j :: from <= j < |keys| ==> keys[j] != ch
    decreases |keys| - from
  {
    if from == |keys| then None
    else if keys[from] == ch then Some(from)
    else FirstKey(keys, ch, from + 1)
  }

  /** One character read: the first input with that key flips its latch. */
  function Toggle(keys: seq<char>, inputs: seq<bool>, ch: char): (r: seq<bool>)
    requires |inputs| == |keys|
    ensures |r| == |inputs|
  {
    match FirstKey(keys, ch, 0)
    case None => inputs
    case Some(i) => inputs[i := !inputs[i]]
  }

  /** The read loop over the characters waiting in this cycle, in order. */
  function ReadKeys(keys: seq<char>, inputs: seq<bool>, typed: seq<char>): (r: seq<bool>)
    requires |inputs| == |keys|
    ensures |r| == |inputs|
    decreases |typed|
  {
    if typed == [] then inputs
    else Toggle(keys, ReadKeys(keys, inputs, typed[..|typed| - 1]), typed[|typed| - 1])
  }

  /**
   * One pass of the `for(;;)` loop with the characters `typed` waiting:
   * the quit check, the output reset, the input toggles, the timer update
   * and the grafcets in index order. The first component says whether the
   * loop stopped.
   */
  function Cycle(c: Chart, w: World, typed: seq<char>): (r: (bool, World))
    requires Sized(c, w)
    ensures Sized(c, r.1) && |r.1.outputs| == |w.outputs|
  {
    if InputActive(w, Quit) then (true, w)
    else
      var w1 := ResetOutputs(w);
      var w2 := w1.(inputs := ReadKeys(c.keys, w1.inputs, typed));
      var w3 := UpdateTimers(w2);
      (false, Phases(c, w3, |c.grafcets|))
  }

  /** Cycles, one per batch of characters, until QUIT stops the loop. */
  function Run(c: Chart, w: World, batches: seq<seq<char>>): (r: (bool, World))
    requires Sized(c, w)
    ensures Sized(c, r.1)
    decreases |batches|
  {
    if batches == [] then (false, w)
    else
      var (quit, w') := Cycle(c, w, batches[0]);
      if quit then (true, w') else Run(c, w', batches[1..])
  }
}
