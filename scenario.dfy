/**
 * The two grafcets `main` registers: grafcet 0 moves between X1 and X2 on
 * the M_MAX and M_MIN inputs, and X2 freezes grafcet 1; grafcet 1
 * alternates X3 (output ESQUERDA) and X4 (output BOMBA_V5) every ten
 * ticks. The ids are the enum values the preprocessor emits for this file.
 */
module Scenario {
  import opened GrafcetModel
  import opened GrafcetProperties
  import opened GrafcetEngine

  const X1: nat := 0
  const X2: nat := 1
  const X3: nat := 2
  const X4: nat := 3
  const T0: nat := 0
  const T1: nat := 1
  const T2: nat := 2
  const T3: nat := 3
  /** `IO_M_MAX` and `IO_M_MIN` */
  const MMax: nat := 1
  const MMin: nat := 2
  /** `IO_ESQUERDA` and `IO_BOMBA_V5` */
  const Esquerda: nat := 0
  const BombaV5: nat := 1
  /** The `Key` of each entry of `Inputs`, QUIT first. */
  const Keys: seq<char> := "qasdfpc"
  const OutputCount: nat := 9

  const Example: Chart := Chart(
    [[], [Freeze(1)], [SetOutput(Esquerda)], [SetOutput(BombaV5)]],
    [Link([X1], [X2], InputOn(MMax)), Link([X2], [X1], InputOn(MMin)),
     Link([X3], [X4], TimerAtLeast(X3, 10)), Link([X4], [X3], TimerAtLeast(X4, 10))],
    [Grafcet([X1, X2], [T0, T1]), Grafcet([X3, X4], [T2, T3])],
    Keys)

  /** The variables after registration and the default marking: X1 and X3 active, everything else off. */
  const Start: World := World(
    [StateRecord(true, 0), StateRecord(false, 0), StateRecord(true, 0), StateRecord(false, 0)],
    [false, false, false, false], [false, false],
    [false, false, false, false, false, false, false],
    [false, false, false, false, false, false, false, false, false])

  /** The tables after `newState`/`newTransition` for grafcet 0 only. */
  const HalfRegistered: Chart := Chart(
    [[], [Freeze(1)], [], []],
    [Link([X1], [X2], InputOn(MMax)), Link([X2], [X1], InputOn(MMin)), Unregistered, Unregistered],
    [Grafcet([X1, X2], [T0, T1]), Grafcet([], [])],
    Keys)

  /** The registration and default-marking statements of `main`, run on a fresh engine. */
  method Setup() returns (e: Engine)
    ensures e.Valid() && e.Registered() == Example && e.Snapshot() == Start
  {
    e := new Engine(4, 4, Keys, OutputCount);
    assert e.Registered().actions == [[], [], [], []];
    assert e.Registered().links == [Unregistered, Unregistered, Unregistered, Unregistered];
    RegisterGrafcetZero(e);
    RegisterGrafcetOne(e);
    e.SetInitial(X1);
    e.SetInitial(X3);
  }

  method RegisterGrafcetZero(e: Engine)
    requires e.Valid() && e.states.Length == 4 && e.outputs.Length == OutputCount
    requires e.Registered() == HalfRegistered.(actions := [[], [], [], []],
                                               links := [Unregistered, Unregistered, Unregistered, Unregistered],
                                               grafcets := [Grafcet([], []), Grafcet([], [])])
    modifies e
    ensures e.Valid() && e.Registered() == HalfRegistered && e.Snapshot() == old(e.Snapshot())
  {
    e.NewState(0, X1, []);
    e.NewState(0, X2, [Freeze(1)]);
    e.NewTransition(0, T0, [X1], [X2], InputOn(MMax));
    e.NewTransition(0, T1, [X2], [X1], InputOn(MMin));
    assert e.actions == HalfRegistered.actions;
    assert e.links == HalfRegistered.links;
    assert e.grafcets[0].states == [] + [X1] + [X2] == [X1, X2];
    assert e.grafcets[0].transitions == [] + [T0] + [T1] == [T0, T1];
    assert e.grafcets == HalfRegistered.grafcets;
  }

  method RegisterGrafcetOne(e: Engine)
    requires e.Valid() && e.states.Length == 4 && e.outputs.Length == OutputCount
    requires e.Registered() == HalfRegistered
    modifies e
    ensures e.Valid() && e.Registered() == Example && e.Snapshot() == old(e.Snapshot())
  {
    e.NewState(1, X3, [SetOutput(Esquerda)]);
    e.NewState(1, X4, [SetOutput(BombaV5)]);
    e.NewTransition(1, T2, [X3], [X4], TimerAtLeast(X3, 10));
    e.NewTransition(1, T3, [X4], [X3], TimerAtLeast(X4, 10));
    assert e.actions == Example.actions;
    assert e.links == Example.links;
    assert e.grafcets[1].states == [] + [X3] + [X4] == [X3, X4];
    assert e.grafcets[1].transitions == [] + [T2] + [T3] == [T2, T3];
    assert e.grafcets == Example.grafcets;
  }

  /**
   * In the example, X2's action freezes grafcet 1: in any cycle where X2 is
   * active once grafcet 0 has committed, grafcet 1 fires nothing and its
   * states, timers included, do not move.
   */
  lemma {:induction false} ActiveX2HoldsGrafcetOne(w: World)
    requires Sized(Example, w) && Committed(Example, w, 0)[X2].active
    ensures forall t :: !Fires(Example, Phase(Example, w, 0), 1, t)
    ensures Phase(Example, Phase(Example, w, 0), 1).states == Phase(Example, w, 0).states
  {
    assert X2 in Example.grafcets[0].states && Freeze(1) in Example.actions[X2];
    assert StateActive(AfterCommit(Example, w, 0), X2);
    FreezeSuppressesLaterGrafcet(Example, w, 0, 1);
  }
}
