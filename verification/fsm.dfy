/**
 * The poll-driven finite-state-machine engine: a control point (CmFsmCp) that
 * holds the state descriptors and a matrix with two cells per state, and the
 * entity (CmFsmEntity) it drives (include/CommonFsm.h, src/CommonFsm.c).
 *
 * The engine stores references to host code it never inspects: the adapter
 * `fsmFp` (type parameter A) and the cells' output functions (type parameter H).
 * Logging calls are no-ops and are left out; every clock reading is a parameter.
 */
module Fsm {
  import opened Common

  const IdStrLen := 20      // CM_FSM_ID_STR_LEN: control-point name buffer
  const InstStrLen := 40    // CM_FSM_INST_STR_LEN: instance name buffer

  const CtrlNormal := 1     // CM_FSM_CTRL_NORMAL
  const CtrlTimeout := 2    // CM_FSM_CTRL_TIMEOUT
  const CtrlMax := CtrlTimeout

  /** CmFsmStatDesc: a label and a U16 timeout in ms, 0 meaning "no timeout". */
  datatype StateDesc = StateDesc(stateStr: string, timeout: u16)

  /** CmFsmEntry: an output function (None is a NULL pointer) and a U8 next state. */
  datatype Cell<H> = Cell(outputFn: Option<H>, nextState: u8)

  /** The fields of a CmFsmEntity as one value. */
  datatype EntityRec<A, H> = EntityRec(
    instName: string,
    lastState: u16,
    state: u16,
    timestamp: TimeStamp,
    timeout: u32,
    fsmCnt: u32,
    fsmCp: ControlPoint?<A, H>)

  /** An entity after memset(0). */
  function ZeroEntity<A, H>(): EntityRec<A, H> {
    EntityRec("", 0, 0, ZeroTime, 0, 0, null)
  }

  /**
   * Flat index of the cell for state `state` in the matrix: row `state` of
   * CtrlMax cells, the normal cell first and the timeout cell second.
   */
  function CellIndex(state: nat, timedOut: bool): (i: nat)
    ensures i / CtrlMax == state
    ensures i % CtrlMax == (if timedOut then CtrlTimeout else CtrlNormal) - 1
  {
    state * CtrlMax + if timedOut then 1 else 0
  }

  /** GET_FSM_ENT_FROM_CONTEXT on addresses: the entity sits `offset` bytes into its context. */
  function EntityAddress(offset: u32, contextAddress: int): int {
    contextAddress + offset
  }

  /** GET_CONTEXT_FROM_FSM_ENT / CM_FSM_GET_CONTEXT on addresses. */
  function ContextAddress(offset: u32, entityAddress: int): (c: int)
    ensures EntityAddress(offset, c) == entityAddress
  {
    entityAddress - offset
  }

  class ControlPoint<A, H> {
    var fsmStr: string
    var fsmFp: Option<A>
    var offset: u32
    var numStates: u8
    var states: seq<StateDesc>
    var fsmMt: seq<Cell<H>>
    var fsmEnt: Entity?<A, H>

    /** A control point before cmFsmCpInit. */
    constructor ()
      ensures fsmStr == "" && fsmFp == None && offset == 0 && numStates == 0
      ensures states == [] && fsmMt == [] && fsmEnt == null
    {
      fsmStr, fsmFp, offset, numStates := "", None, 0, 0;
      states, fsmMt, fsmEnt := [], [], null;
    }
  }

  class Entity<A, H> {
    var instName: string
    var lastState: u16
    var state: u16
    var timestamp: TimeStamp
    var timeout: u32
    var fsmCnt: u32
    var fsmCp: ControlPoint?<A, H>

    function View(): EntityRec<A, H>
      reads this
    {
      EntityRec(instName, lastState, state, timestamp, timeout, fsmCnt, fsmCp)
    }

    /** A zero-filled entity, as inside a zero-filled host context. */
    constructor ()
      ensures View() == ZeroEntity()
    {
      instName, lastState, state, timestamp, timeout, fsmCnt, fsmCp := "", 0, 0, ZeroTime, 0, 0, null;
    }

    /** Overwrite every field, as a structure copy does. */
    method Assign(rec: EntityRec<A, H>)
      modifies this
      ensures View() == rec
    {
      instName, lastState, state, timestamp := rec.instName, rec.lastState, rec.state, rec.timestamp;
      timeout, fsmCnt, fsmCp := rec.timeout, rec.fsmCnt, rec.fsmCp;
    }
  }

  /**
   * The tables a driven control point must have: a descriptor for every index
   * up to and including numStates (the driver and cmFsmSetState both accept
   * numStates itself) and a matrix of CtrlMax cells per descriptor.
   */
  ghost predicate Tables<A, H>(cp: ControlPoint<A, H>)
    reads cp
  {
    cp.numStates < |cp.states| && |cp.fsmMt| == CtrlMax * |cp.states|
  }

  /** A control point and the entity it caches, linked both ways, the entity's state in range. */
  ghost predicate Wired<A, H>(cp: ControlPoint<A, H>)
    reads cp, cp.fsmEnt
  {
    && Tables(cp)
    && cp.fsmEnt != null
    && cp.fsmEnt.fsmCp == cp
    && cp.fsmEnt.state <= cp.numStates
  }

  /**
   * cmFsmCheckTmr: NOT_EXPIRED whenever the current state has no timeout,
   * otherwise now compared against the entity's deadline.
   */
  function CheckTmr<A, H>(states: seq<StateDesc>, e: EntityRec<A, H>, now: TimeStamp): (r: TimeCmp)
    requires e.state < |states|
    ensures r != TimeNotExpired <==> states[e.state].timeout > 0 && !Before(now, e.timestamp)
    ensures r == TimeEqual ==> now == e.timestamp && states[e.state].timeout > 0
  {
    if states[e.state].timeout > 0 then CompareTimeStamp(now, e.timestamp) else TimeNotExpired
  }

  /**
   * The cell the driver selects: the timeout cell exactly when the state has a
   * timeout and the deadline has been reached (EQUAL included) or passed.
   */
  function SelectCell<A, H>(states: seq<StateDesc>, fsmMt: seq<Cell<H>>, e: EntityRec<A, H>, now: TimeStamp): (cell: Cell<H>)
    requires e.state < |states| && |fsmMt| == CtrlMax * |states|
    ensures cell == fsmMt[CellIndex(e.state, states[e.state].timeout > 0 && !Before(now, e.timestamp))]
    ensures states[e.state].timeout == 0 ==> cell == fsmMt[CellIndex(e.state, false)]
  {
    var row := e.state * CtrlMax;
    if CheckTmr(states, e, now) != TimeNotExpired then fsmMt[row + 1] else fsmMt[row]
  }

  /**
   * The entity after entering state s at time now: the old state becomes the
   * last state, the timeout and the deadline come from s's descriptor.
   */
  function EnterState<A, H>(states: seq<StateDesc>, e: EntityRec<A, H>, s: u16, now: TimeStamp): EntityRec<A, H>
    requires s < |states|
  {
    e.(lastState := e.state,
       state := s,
       timeout := states[s].timeout,
       timestamp := AddMsToTimeStamp(now, states[s].timeout))
  }

  /**
   * The driver's commit rule: a cell whose next state is at most numStates
   * (numStates itself included) is entered; any other leaves the entity alone.
   */
  function CommitCell<A, H>(numStates: u8, states: seq<StateDesc>, e: EntityRec<A, H>, cell: Cell<H>, now: TimeStamp): (e': EntityRec<A, H>)
    requires numStates < |states|
    ensures cell.nextState <= numStates ==>
      && e'.state == cell.nextState && e'.lastState == e.state
      && e'.timeout == states[cell.nextState].timeout
      && e'.timestamp == AddMsToTimeStamp(now, states[cell.nextState].timeout)
    ensures cell.nextState > numStates ==> e' == e
    ensures e'.instName == e.instName && e'.fsmCp == e.fsmCp && e'.fsmCnt == e.fsmCnt
    ensures e.state <= numStates ==> e'.state <= numStates
  {
    if cell.nextState <= numStates then EnterState(states, e, cell.nextState, now) else e
  }

  /** The engine's part of one driver step, before the output function runs. */
  function DriveEntity<A, H>(numStates: u8, states: seq<StateDesc>, fsmMt: seq<Cell<H>>, e: EntityRec<A, H>, nowCheck: TimeStamp, nowCommit: TimeStamp): EntityRec<A, H>
    requires numStates < |states| && e.state < |states| && |fsmMt| == CtrlMax * |states|
  {
    CommitCell(numStates, states, e, SelectCell(states, fsmMt, e, nowCheck), nowCommit)
  }

  /** The entity cmFsmInstInit builds for a valid initial state. */
  function AttachedEntity<A, H>(cp: ControlPoint<A, H>, fsmStr: string, states: seq<StateDesc>, instName: seq<char>, initState: u16, now: TimeStamp): EntityRec<A, H>
    requires initState < |states|
  {
    EntityRec(
      Truncate(fsmStr + "-" + CStr(instName), InstStrLen - 1),
      0, initState,
      AddMsToTimeStamp(now, states[initState].timeout),
      states[initState].timeout, 0, cp)
  }

  /**
   * cmFsmCpInit: fails, writing nothing, on a NULL control point, matrix or
   * name or a zero state count; otherwise stores the name cut to 19
   * characters, the offset, the state count truncated to U8, the tables and
   * the adapter, and leaves the cached entity alone.
   */
  method CpInit<A, H>(cp: ControlPoint?<A, H>, fsmStr: Option<seq<char>>, fsmFp: Option<A>, offset: u16,
                      numStates: u16, states: seq<StateDesc>, fsmMt: Option<seq<Cell<H>>>) returns (r: Status)
    modifies cp
    ensures r == Failure <==> cp == null || fsmMt.None? || fsmStr.None? || numStates == 0
    ensures r == Failure && cp != null ==> unchanged(cp)
    ensures r == Success ==>
      && cp.fsmStr == Truncate(CStr(fsmStr.value), IdStrLen - 1)
      && cp.offset == offset && cp.numStates == numStates % 0x100
      && cp.states == states && cp.fsmMt == fsmMt.value && cp.fsmFp == fsmFp
      && cp.fsmEnt == old(cp.fsmEnt)
  {
    if cp == null || fsmMt.None? || fsmStr.None? || numStates == 0 {
      return Failure;
    }
    cp.fsmStr := Truncate(CStr(fsmStr.value), IdStrLen - 1);
    cp.offset := offset;
    cp.numStates := numStates % 0x100;
    cp.states := states;
    cp.fsmMt := fsmMt.value;
    cp.fsmFp := fsmFp;
    return Success;
  }

  /**
   * cmFsmInstInit, given the entity embedded in the host context (null when
   * the context is NULL): zeroes the entity and links it with the control
   * point, then rejects an initial state that is not below numStates;
   * otherwise enters the initial state with lastState 0, the name
   * "<cp>-<inst>" cut to 39 characters and the deadline now + timeout.
   */
  method InstInit<A, H>(cp: ControlPoint?<A, H>, ent: Entity?<A, H>, instName: seq<char>, initState: u16, now: TimeStamp)
    returns (r: Status)
    requires cp != null ==> cp.numStates <= |cp.states|
    modifies cp, ent
    ensures cp == null || ent == null ==> r == Failure
    ensures cp == null ==> ent != null ==> unchanged(ent)
    ensures ent == null ==> cp != null ==> unchanged(cp)
    ensures cp != null && ent != null ==>
      && cp.fsmEnt == ent && ent.fsmCp == cp
      && cp.fsmStr == old(cp.fsmStr) && cp.fsmFp == old(cp.fsmFp) && cp.offset == old(cp.offset)
      && cp.numStates == old(cp.numStates) && cp.states == old(cp.states) && cp.fsmMt == old(cp.fsmMt)
      && (r == Success <==> initState < cp.numStates)
      && ent.View() == if r == Success then AttachedEntity(cp, cp.fsmStr, cp.states, instName, initState, now)
                       else ZeroEntity().(fsmCp := cp)
  {
    if cp == null || ent == null {
      return Failure;
    }
    ent.Assign(ZeroEntity());
    ent.fsmCp := cp;
    cp.fsmEnt := ent;
    if initState >= cp.numStates {
      return Failure;
    }
    ent.state := initState;
    ent.instName := Truncate(cp.fsmStr + "-" + CStr(instName), InstStrLen - 1);
    ent.timeout := cp.states[initState].timeout;
    ent.timestamp := AddMsToTimeStamp(now, ent.timeout);
    return Success;
  }

  /**
   * cmFsmDriver up to the output call: check the deadline (clock read
   * nowCheck), select the cell, and commit it when its next state is at most
   * numStates, restarting the deadline from nowCommit.
   */
  method DriverCommit<A, H>(cp: ControlPoint<A, H>, nowCheck: TimeStamp, nowCommit: TimeStamp) returns (cell: Cell<H>)
    requires Wired(cp)
    modifies cp.fsmEnt
    ensures Wired(cp)
    ensures cell == SelectCell(cp.states, cp.fsmMt, old(cp.fsmEnt.View()), nowCheck)
    ensures cp.fsmEnt.View() == CommitCell(cp.numStates, cp.states, old(cp.fsmEnt.View()), cell, nowCommit)
  {
    var ent := cp.fsmEnt;
    var row := ent.state * CtrlMax;
    var ret := CheckTmr(cp.states, ent.View(), nowCheck);
    if ret != TimeNotExpired {
      row := row + 1;
    }
    cell := cp.fsmMt[row];
    if cell.nextState <= cp.numStates {
      ent.lastState := ent.state;
      ent.state := cell.nextState;
      ent.timeout := cp.states[cell.nextState].timeout;
      ent.timestamp := AddMsToTimeStamp(nowCommit, ent.timeout);
    }
  }

  /** cmFsmDriver after the output call: FAILURE iff the state has reached numStates. */
  method DriverVerdict<A, H>(cp: ControlPoint<A, H>) returns (r: Status)
    requires cp.fsmEnt != null
    ensures r == Failure <==> cp.fsmEnt.state >= cp.numStates
  {
    if cp.fsmEnt.state >= cp.numStates {
      return Failure;
    }
    return Success;
  }

  /**
   * cmFsmSetState: fails with nothing changed on a NULL control point or a
   * state above numStates (numStates itself is accepted); otherwise enters
   * the state at time now.
   */
  method SetState<A, H>(cp: ControlPoint?<A, H>, state: u16, now: TimeStamp) returns (r: Status)
    requires cp != null && state <= cp.numStates ==> cp.fsmEnt != null && state < |cp.states|
    modifies if cp != null && cp.fsmEnt != null then {cp.fsmEnt} else {}
    ensures r == Failure <==> cp == null || state > cp.numStates
    ensures r == Failure && cp != null && cp.fsmEnt != null ==> unchanged(cp.fsmEnt)
    ensures r == Success ==> cp.fsmEnt.View() == EnterState(cp.states, old(cp.fsmEnt.View()), state, now)
    ensures cp != null && old(Wired(cp)) ==> Wired(cp)
  {
    if cp == null {
      return Failure;
    }
    if state > cp.numStates {
      return Failure;
    }
    var ent := cp.fsmEnt;
    ent.timeout := cp.states[state].timeout;
    ent.lastState := ent.state;
    ent.state := state;
    ent.timestamp := AddMsToTimeStamp(now, ent.timeout);
    return Success;
  }

  /**
   * cmFsmGetState: fails on a NULL control point or context, leaving the
   * caller's variables (state0, lastState0) as they were; otherwise reports
   * the cached entity's state and last state.
   */
  method GetState<A, H>(cp: ControlPoint?<A, H>, context: object?, state0: u16, lastState0: u16)
    returns (r: Status, state: u16, lastState: u16)
    requires cp != null && context != null ==> cp.fsmEnt != null
    ensures r == Failure <==> cp == null || context == null
    ensures r == Success ==> state == cp.fsmEnt.state && lastState == cp.fsmEnt.lastState
    ensures r == Failure ==> state == state0 && lastState == lastState0
  {
    if cp == null || context == null {
      return Failure, state0, lastState0;
    }
    var ent := cp.fsmEnt;
    return Success, ent.state, ent.lastState;
  }

  /** A timestamp as a count of microseconds. */
  function Micros(ts: TimeStamp): int {
    ts.seconds * 1_000_000 + ts.micros
  }

  /** For timestamps whose microsecond field is below one second, Before is the order of Micros. */
  lemma BeforeIsEarlier(a: TimeStamp, b: TimeStamp)
    requires a.micros < 1_000_000 && b.micros < 1_000_000
    ensures Before(a, b) <==> Micros(a) < Micros(b)
  {
  }

  /**
   * For a timeout of whole seconds started at `start`, the driver selects the
   * timeout cell exactly when at least the timeout has elapsed at `now`; an
   * elapsed time equal to the timeout already counts.
   */
  lemma DeadlineBoundary<A, H>(states: seq<StateDesc>, fsmMt: seq<Cell<H>>, e: EntityRec<A, H>, start: TimeStamp, now: TimeStamp)
    requires e.state < |states| && |fsmMt| == CtrlMax * |states|
    requires states[e.state].timeout > 0 && states[e.state].timeout % 1000 == 0
    requires start.micros < 1_000_000 && now.micros < 1_000_000
    requires start.seconds + states[e.state].timeout / 1000 < U32Modulus
    requires e.timestamp == AddMsToTimeStamp(start, states[e.state].timeout)
    ensures SelectCell(states, fsmMt, e, now)
         == fsmMt[CellIndex(e.state, Micros(now) - Micros(start) >= states[e.state].timeout * 1000)]
  {
    var t: int := states[e.state].timeout;
    AddWholeSeconds(start, t);
    assert t == (t / 1000) * 1000;
    assert Micros(e.timestamp) == Micros(start) + t * 1000;
    BeforeIsEarlier(now, e.timestamp);
  }

  /**
   * Driving twice through A --normal--> B --normal--> A (neither state has a
   * timeout) returns to A with B as the last state.
   */
  lemma RoundTrip<A, H>(numStates: u8, states: seq<StateDesc>, fsmMt: seq<Cell<H>>, e: EntityRec<A, H>,
                        b: u16, now1: TimeStamp, now2: TimeStamp, now3: TimeStamp, now4: TimeStamp)
    requires numStates < |states| && |fsmMt| == CtrlMax * |states|
    requires e.state <= numStates && b <= numStates
    requires states[e.state].timeout == 0 && states[b].timeout == 0
    requires fsmMt[CellIndex(e.state, false)].nextState == b
    requires fsmMt[CellIndex(b, false)].nextState == e.state
    ensures var e1 := DriveEntity(numStates, states, fsmMt, e, now1, now2);
            var e2 := DriveEntity(numStates, states, fsmMt, e1, now3, now4);
            e1.state == b && e2.state == e.state && e2.lastState == b
  {
  }

  /**
   * The commit rule's boundary: a selected cell naming numStates itself is
   * entered, and the driver then reports FAILURE for the step.
   */
  lemma CommitAtNumStates<A, H>(numStates: u8, states: seq<StateDesc>, e: EntityRec<A, H>, cell: Cell<H>, now: TimeStamp)
    requires numStates < |states| && cell.nextState == numStates
    ensures CommitCell(numStates, states, e, cell, now).state == numStates
    ensures CommitCell(numStates, states, e, cell, now).lastState == e.state
  {
  }
}
