/**
 * The game's main(): zero a context, load it from the model, set up the
 * control point "G-FSM" and the instance "MAIN" in INIT, then call
 * cmFsmDriver until it reports FAILURE, storing the context in the model
 * after every successful step (src/GGameMainController.c).
 *
 * The endless loop runs here once per element of an input sequence; a run
 * that uses up its inputs without a FAILURE reports SUCCESS, meaning that
 * the game is still running.
 */
module GameMain {
  import opened Common
  import opened Fsm
  import opened GameModel
  import opened GameController
  import opened GameTheorems

  /** The entity cmFsmInstInit leaves in the context: "G-FSM-MAIN" in INIT, due at now. */
  function MainEntity(cp: ControlPoint<Adapter, HostFn>, now: TimeStamp): EntityRec<Adapter, HostFn> {
    AttachedEntity(cp, "G-FSM", GameStates, "MAIN", MainStInit, now)
  }

  /** The main entity is named "G-FSM-MAIN", starts in INIT with lastState 0, and is due at once. */
  lemma MainEntityShape(cp: ControlPoint<Adapter, HostFn>, now: TimeStamp)
    ensures var e := MainEntity(cp, now);
      && e.instName == "G-FSM-MAIN" && e.state == MainStInit && e.lastState == 0
      && e.timestamp == now && e.timeout == 0 && e.fsmCnt == 0 && e.fsmCp == cp
  {
    CStrWithoutNul("MAIN");
    AddZeroMs(now);
  }

  /**
   * main()'s cmFsmCpInit and cmFsmInstInit on the game's constant tables:
   * both succeed, and the context's entity is now "G-FSM-MAIN" in INIT,
   * linked with the new control point. The platform's
   * offsetof(PROC_INFO_t, fsmEnt) is the parameter fsmEntOffset.
   */
  method InitControlPoint(ctx: ProcInfo, fsmEntOffset: u16, now: TimeStamp)
    returns (cp: ControlPoint<Adapter, HostFn>)
    requires ctx.Valid()
    modifies ctx.fsmEnt
    ensures fresh(cp)
    ensures Wiring(cp, ctx) && cp.fsmStr == "G-FSM" && cp.offset == fsmEntOffset
    ensures ctx.fsmEnt.View() == MainEntity(cp, now)
  {
    cp := new ControlPoint();
    var ret := CpInit(cp, Some("G-FSM"), Some(ClMainFsmDr), fsmEntOffset, MainStMax, GameStates, Some(GameMt));
    CStrWithoutNul("G-FSM");
    assert cp.fsmStr == "G-FSM";
    ret := InstInit(cp, ctx.fsmEnt, "MAIN", MainStInit, now);
  }

  /**
   * main() up to the loop: the context is zeroed and loaded from the model,
   * the control point and instance are set up, and the result is FAILURE
   * exactly when VLED_Init fails (ledInitOk).
   */
  method GameSetup(store: ModelStore, fsmEntOffset: u16, ledInitOk: bool, now: TimeStamp)
    returns (r: Status, cp: ControlPoint<Adapter, HostFn>, ctx: ProcInfo)
    requires store.Valid()
    ensures fresh(cp) && fresh(ctx) && fresh(ctx.fsmEnt)
    ensures fresh(ctx.btnSeq) && fresh(ctx.btnUserInput) && fresh(ctx.ledStat)
    ensures r == Success <==> ledInitOk
    ensures store.mdProcInfo == old(store.mdProcInfo) && store.Valid()
    ensures Wiring(cp, ctx) && cp.fsmStr == "G-FSM" && cp.offset == fsmEntOffset
    ensures ctx.Snapshot() == old(store.mdProcInfo).(fsmEnt := MainEntity(cp, now))
  {
    ctx := new ProcInfo();
    var ret := store.GetProcInfo(ctx);
    cp := InitControlPoint(ctx, fsmEntOffset, now);
    if !ledInitOk {
      return Failure, cp, ctx;
    }
    return Success, cp, ctx;
  }

  /**
   * One pass of main()'s loop after `steps` earlier ones: cmFsmDriver moves
   * the context one Step further; on SUCCESS setProcInfo stores it in the
   * model, on FAILURE (the step entered QUIT) the model is left alone.
   */
  method LoopStep(cp: ControlPoint<Adapter, HostFn>, ctx: ProcInfo, store: ModelStore,
                  ghost p0: ProcRec, ins: seq<StepInputs>, steps: nat) returns (r: Status)
    requires p0.WellFormed() && p0.fsmEnt.state <= MainStMax
    requires Wiring(cp, ctx) && store.Valid()
    requires steps < |ins| && ReadEnds(ins[steps]) && ctx.Snapshot() == Run(p0, ins[..steps])
    modifies ctx, ctx.btnSeq, ctx.btnUserInput, ctx.ledStat, ctx.fsmEnt, store
    ensures Wiring(cp, ctx) && store.Valid()
    ensures ctx.Snapshot() == Run(p0, ins[..steps + 1])
    ensures r == Failure <==> ctx.Snapshot().fsmEnt.state == MainStQuit
    ensures store.mdProcInfo == if r == Success then ctx.Snapshot() else old(store.mdProcInfo)
  {
    RunLast(p0, ins, steps + 1);
    r := MainFsmDriver(cp, ctx, ins[steps]);
    if r == Success {
      r := store.SetProcInfo(ctx);
    }
  }

  /**
   * main()'s loop over the inputs ins: the context runs through Run, the
   * loop stops at the first FAILURE (the step that enters QUIT), and the
   * model holds the context as it was after the last successful step.
   * Started in INIT, START or INPUT, it never stops.
   */
  method GameLoop(cp: ControlPoint<Adapter, HostFn>, ctx: ProcInfo, store: ModelStore, ins: seq<StepInputs>)
    returns (r: Status, steps: nat)
    requires Wiring(cp, ctx) && store.Valid()
    requires forall i :: 0 <= i < |ins| ==> ReadEnds(ins[i])
    modifies ctx, ctx.btnSeq, ctx.btnUserInput, ctx.ledStat, ctx.fsmEnt, store
    ensures Wiring(cp, ctx) && store.Valid()
    ensures steps <= |ins|
    ensures ctx.Snapshot() == Run(old(ctx.Snapshot()), ins[..steps])
    ensures r == Success ==> steps == |ins|
    ensures r == Failure ==> 0 < steps && ctx.Snapshot().fsmEnt.state == MainStQuit
    ensures var stored := if r == Success then steps else steps - 1;
      store.mdProcInfo == if stored == 0 then old(store.mdProcInfo) else Run(old(ctx.Snapshot()), ins[..stored])
    ensures old(ctx.Snapshot()).fsmEnt.state <= MainStInput ==> r == Success
  {
    ghost var p0 := ctx.Snapshot();
    r, steps := Success, 0;
    while steps < |ins|
      invariant steps <= |ins| && Wiring(cp, ctx) && store.Valid() && r == Success
      invariant ctx.Snapshot() == Run(p0, ins[..steps])
      invariant store.mdProcInfo == if steps == 0 then old(store.mdProcInfo) else Run(p0, ins[..steps])
      modifies ctx, ctx.btnSeq, ctx.btnUserInput, ctx.ledStat, ctx.fsmEnt, store
    {
      r := LoopStep(cp, ctx, store, p0, ins, steps);
      steps := steps + 1;
      if r == Failure {
        break;
      }
    }
    if p0.fsmEnt.state <= MainStInput && r == Failure {
      RunNeverQuits(p0, ins[..steps]);
      assert false;
    }
  }

  /**
   * The whole of main() on a model store: FAILURE exactly when the LED view
   * cannot be set up; otherwise the game, started in INIT, never reports
   * FAILURE, and after each step the model holds the context as Run from
   * the loaded record leaves it.
   */
  method Game(store: ModelStore, fsmEntOffset: u16, ledInitOk: bool, now: TimeStamp, ins: seq<StepInputs>)
    returns (r: Status)
    requires store.Valid()
    requires forall i :: 0 <= i < |ins| ==> ReadEnds(ins[i])
    modifies store
    ensures r == Success <==> ledInitOk
    ensures ledInitOk && ins != [] ==> exists cp: ControlPoint<Adapter, HostFn> ::
      store.mdProcInfo == Run(old(store.mdProcInfo).(fsmEnt := MainEntity(cp, now)), ins)
    ensures !ledInitOk || ins == [] ==> store.mdProcInfo == old(store.mdProcInfo)
  {
    var cp, ctx;
    r, cp, ctx := GameSetup(store, fsmEntOffset, ledInitOk, now);
    if r == Failure {
      return;
    }
    var steps;
    r, steps := GameLoop(cp, ctx, store, ins);
    assert ins[..steps] == ins;
  }
}
