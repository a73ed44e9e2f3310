/**
 * The guessing game's controller (src/GGameMainController.c): the constant
 * state descriptors and transition matrix, the random target sequence, the
 * timed key read, the output handlers the matrix names, the adapter that
 * dispatches them, and one run of cmFsmDriver on the game's control point.
 *
 * Every handler is a method on the context (ProcInfo) proved against a
 * function on its value (ProcRec); the step function Step composes the
 * engine's selection and commit with those functions, and GameTheorems
 * reasons about it.
 */
module GameController {
  import opened Common
  import opened Fsm
  import opened GameModel

  /** mainFsmDesc: four states, none with a timeout. */
  const GameStates: seq<StateDesc> := [
    StateDesc("MAIN_ST_INIT", 0),
    StateDesc("MAIN_ST_START", 0),
    StateDesc("MAIN_ST_INPUT", 0),
    StateDesc("MAIN_ST_QUIT", 0)
  ]

  /** mainCtrlFsmMt, flattened: per state the normal cell, then the timeout cell. */
  const GameMt: seq<Cell<HostFn>> := [
    Cell(Some(ClGenerateRandomSeq), 1), Cell(Some(ClGeneralTimeoutHdl), 3),
    Cell(Some(ClCollectUserInputStart), 2), Cell(Some(ClGeneralTimeoutHdl), 3),
    Cell(Some(ClCollectUserInput), 2), Cell(Some(ClGeneralTimeoutHdl), 3),
    Cell(Some(ClFsmQuit), 3), Cell(Some(ClGeneralTimeoutHdl), 3)
  ]

  /** BTN_ALLLOWED: the keys of the game and the alphabet of the target sequence. */
  const BtnAllowed := "abc"

  /** UI_TIMEOUT: seconds to wait for one key. */
  const UiTimeout: u32 := 10

  /** Every cell of a matrix names an output function, so the driver never aborts. */
  predicate Complete<H>(fsmMt: seq<Cell<H>>) {
    forall i :: 0 <= i < |fsmMt| ==> fsmMt[i].outputFn.Some?
  }

  /**
   * The game's tables fit the engine: numStates = MAIN_ST_MAX = 3 with four
   * rows (QUIT is a committable index), every cell has an output function,
   * and no state has a timeout.
   */
  lemma GameTables()
    ensures MainStMax as int + 1 == |GameStates| && |GameMt| == CtrlMax * |GameStates|
    ensures Complete(GameMt)
    ensures forall s :: 0 <= s < |GameStates| ==> GameStates[s].timeout == 0
    ensures forall i :: 0 <= i < |GameMt| ==> GameMt[i].nextState <= MainStMax
  {
  }

  // ----- generateRandSeq -----

  /** A value of random(): a long in [0, 2^31). */
  type RandomValue = x: int | 0 <= x < 0x8000_0000

  /**
   * The sequence generateRandSeq writes: number characters, the i-th being
   * the C string's character at rands[i] % strlen.
   */
  function RandomPick(inArray: seq<char>, number: nat, rands: seq<RandomValue>): (r: seq<char>)
    requires StrLen(inArray) >= 1 && number <= |rands|
    ensures |r| == number
    ensures forall i :: 0 <= i < |r| ==> Included(r[i], inArray)
  {
    var cs := CStr(inArray);
    seq(number, i requires 0 <= i < number => cs[rands[i] % |cs|])
  }

  /** sizeof(char *) on an LP64 platform: what generateRandSeq's guard takes for the buffer size. */
  const PointerSize := 8

  /**
   * generateRandSeq: FAILURE for a missing or empty input alphabet, a count
   * below one, a missing output buffer, a count above sizeof(outArray) (the
   * size of the pointer, not of the buffer), or when /dev/urandom cannot be
   * opened (urandomOk); otherwise the first `number` slots of the buffer
   * receive RandomPick and the rest are untouched. The random() results are
   * the parameter rands.
   */
  method GenerateRandSeq(inArray: Option<seq<char>>, number: s32, outArray: array?<char>,
                         urandomOk: bool, rands: seq<RandomValue>) returns (r: Status)
    requires outArray != null && 1 <= number <= PointerSize ==> number <= outArray.Length
    requires inArray.Some? && StrLen(inArray.value) >= 1 && 1 <= number <= PointerSize && urandomOk ==> number <= |rands|
    modifies outArray
    ensures r == Failure <==>
      inArray.None? || StrLen(inArray.value) < 1 || number < 1 || outArray == null || PointerSize < number || !urandomOk
    ensures r == Failure && outArray != null ==> unchanged(outArray)
    ensures r == Success ==>
      outArray[..] == RandomPick(inArray.value, number, rands) + old(outArray[..])[number..]
  {
    if inArray.None? || StrLen(inArray.value) < 1 || number < 1 || outArray == null || PointerSize < number {
      return Failure;
    }
    if !urandomOk {
      return Failure;
    }
    var maxIdx := StrLen(inArray.value);
    var cs := CStr(inArray.value);
    ghost var pick := RandomPick(inArray.value, number, rands);
    for i := 0 to number
      invariant forall k :: 0 <= k < i ==> outArray[k] == pick[k]
      invariant forall k :: i <= k < outArray.Length ==> outArray[k] == old(outArray[k])
    {
      var randIdx := rands[i] % maxIdx;
      outArray[i] := cs[randIdx];
    }
    assert outArray[..] == pick + old(outArray[..])[number..];
    return Success;
  }

  // ----- clReadUserInputChar -----

  /**
   * One pass of the read loop: the key fetched when one was pending (None
   * when no key was hit) and the monotonic clock read after it.
   */
  datatype Poll = Poll(key: Option<char>, now: TimeStamp)

  /** The read deadline: timeout whole seconds after start, in U32 seconds. */
  function Gate(start: TimeStamp, timeout: u32): TimeStamp {
    TimeStamp((start.seconds + timeout) % U32Modulus, start.micros)
  }

  /** Some pass of the loop reads the clock at or after the gate. */
  predicate ReachesGate(gate: TimeStamp, polls: seq<Poll>) {
    exists j :: 0 <= j < |polls| && !Before(polls[j].now, gate)
  }

  /**
   * What clReadUserInputChar delivers: the first allowed key fetched in a
   * pass whose clock reading is still before the gate, or nothing once a
   * pass reads the clock at or after the gate (a key fetched in that same
   * pass is dropped).
   */
  function ReadSpec(allowedStr: seq<char>, gate: TimeStamp, polls: seq<Poll>): (r: Option<char>)
    ensures r.Some? ==> Included(r.value, allowedStr)
    ensures r.Some? ==> exists j :: 0 <= j < |polls| && polls[j].key == r && Before(polls[j].now, gate)
  {
    if polls == [] then None
    else if !Before(polls[0].now, gate) then None
    else if polls[0].key.Some? && Included(polls[0].key.value, allowedStr) then polls[0].key
    else
      var r := ReadSpec(allowedStr, gate, polls[1..]);
      assert r.Some? ==> exists j :: 1 <= j < |polls| && polls[j].key == r && Before(polls[j].now, gate) by {
        if r.Some? {
          var j :| 0 <= j < |polls[1..]| && polls[1..][j].key == r && Before(polls[1..][j].now, gate);
          assert polls[j + 1] == polls[1..][j];
        }
      }
      r
  }

  /**
   * The other direction: when every pass up to j reads the clock before the
   * gate, pass j fetched an allowed key and no earlier pass did, that key is
   * what ReadSpec delivers.
   */
  lemma {:induction false} ReadFindsFirst(allowedStr: seq<char>, gate: TimeStamp, polls: seq<Poll>, j: nat)
    requires j < |polls|
    requires forall i :: 0 <= i <= j ==> Before(polls[i].now, gate)
    requires polls[j].key.Some? && Included(polls[j].key.value, allowedStr)
    requires forall i :: 0 <= i < j ==> !(polls[i].key.Some? && Included(polls[i].key.value, allowedStr))
    ensures ReadSpec(allowedStr, gate, polls) == polls[j].key
  {
    assert Before(polls[0].now, gate);
    if j > 0 {
      var rest := polls[1..];
      forall i | 0 <= i <= j - 1
        ensures Before(rest[i].now, gate)
      {
        assert rest[i] == polls[i + 1];
      }
      forall i | 0 <= i < j - 1
        ensures !(rest[i].key.Some? && Included(rest[i].key.value, allowedStr))
      {
        assert rest[i] == polls[i + 1];
      }
      assert !(polls[0].key.Some? && Included(polls[0].key.value, allowedStr));
      ReadFindsFirst(allowedStr, gate, rest, j - 1);
    }
  }

  /** ReadSpec from pass n on, one pass unfolded. */
  lemma ReadUnfold(allowedStr: seq<char>, gate: TimeStamp, polls: seq<Poll>, n: nat)
    requires n < |polls|
    ensures ReadSpec(allowedStr, gate, polls[n..]) ==
      if !Before(polls[n].now, gate) then None
      else if polls[n].key.Some? && Included(polls[n].key.value, allowedStr) then polls[n].key
      else ReadSpec(allowedStr, gate, polls[n + 1..])
  {
    assert polls[n..][1..] == polls[n + 1..];
  }

  /** A pass before the gate leaves the gate still to be reached by a later pass. */
  lemma GateAhead(gate: TimeStamp, polls: seq<Poll>, n: nat)
    requires n < |polls| && ReachesGate(gate, polls[n..]) && Before(polls[n].now, gate)
    ensures ReachesGate(gate, polls[n + 1..])
  {
    var j :| 0 <= j < |polls[n..]| && !Before(polls[n..][j].now, gate);
    assert polls[n + 1..][j - 1] == polls[n..][j];
  }

  /**
   * clReadUserInputChar: polls until an allowed key arrives or the clock
   * reaches start + timeout seconds; SUCCESS with that key, or FAILURE on
   * timeout. The terminal, the start clock reading and each pass's key and
   * clock reading are parameters.
   */
  method ReadUserInputChar(allowedStr: seq<char>, timeout: u32, start: TimeStamp, polls: seq<Poll>)
    returns (r: Status, outputChr: char)
    requires ReachesGate(Gate(start, timeout), polls)
    ensures r == Success <==> ReadSpec(allowedStr, Gate(start, timeout), polls).Some?
    ensures r == Success ==> Some(outputChr) == ReadSpec(allowedStr, Gate(start, timeout), polls)
  {
    var tsGate := TimeStamp(start.seconds, start.micros);
    tsGate := tsGate.(seconds := (tsGate.seconds + timeout) % U32Modulus);
    var keyCnt := 0;
    var outChr := '\0';
    var n := 0;
    while keyCnt == 0
      invariant 0 <= n <= |polls| && keyCnt in {0, 1, 0xF}
      invariant keyCnt == 0 ==> ReachesGate(tsGate, polls[n..])
      invariant keyCnt == 0 ==> ReadSpec(allowedStr, tsGate, polls[n..]) == ReadSpec(allowedStr, tsGate, polls)
      invariant keyCnt == 1 ==> ReadSpec(allowedStr, tsGate, polls) == Some(outChr)
      invariant keyCnt == 0xF ==> ReadSpec(allowedStr, tsGate, polls) == None
      decreases |polls| - n, if keyCnt == 0 then 1 else 0
    {
      var poll := polls[n];
      ReadUnfold(allowedStr, tsGate, polls, n);
      keyCnt := 0;
      if poll.key.Some? {
        outChr := poll.key.value;
        var inc := CharIncluded(outChr, allowedStr);
        keyCnt := if inc == Success then 1 else 0;
      }
      var ret := CompareTimeStamp(poll.now, tsGate);
      if ret != TimeNotExpired {
        keyCnt := 0xF;
      } else {
        GateAhead(tsGate, polls, n);
      }
      n := n + 1;
    }
    if keyCnt == 1 {
      return Success, outChr;
    }
    return Failure, outChr;
  }

  // ----- the handlers on values -----

  /** The record after clGenerateRandomSeq: btnSeq[0..3) drawn from "abc", or unchanged on failure. */
  function GenSpec(p: ProcRec, urandomOk: bool, rands: seq<RandomValue>): (q: ProcRec)
    requires p.WellFormed() && (urandomOk ==> MaxBtnCnt <= |rands|)
    ensures q.WellFormed() && q.fsmEnt == p.fsmEnt
  {
    if urandomOk then p.(btnSeq := RandomPick(BtnAllowed, MaxBtnCnt, rands) + p.btnSeq[MaxBtnCnt..]) else p
  }

  /**
   * The record after clCollectUserInputStart: input count 0 and btnUserInput
   * zeroed, but only ledStat[0] cleared, because the memset is sized by
   * btnUserInput (4 bytes, one 4-byte LED_COLOR_t).
   */
  function StartSpec(p: ProcRec): (q: ProcRec)
    requires p.WellFormed()
  {
    p.(inputIndex := 0, btnUserInput := seq(BufLen, _ => '\0'), ledStat := p.ledStat[0 := LedOff])
  }

  /** inputIndex as the U32 the handler copies it into: a negative S32 wraps to 2^32 above it. */
  function InputIdx(p: ProcRec): nat {
    if p.inputIndex < 0 then p.inputIndex + U32Modulus else p.inputIndex
  }

  /** InputIdx is the S32-to-U32 conversion, the residue modulo 2^32. */
  lemma InputIdxIsModular(p: ProcRec)
    ensures InputIdx(p) == p.inputIndex % U32Modulus
    ensures InputIdx(p) < U32Modulus
  {
  }

  /** ledStat[0..3) are all GREEN. */
  predicate AllGreen(ledStat: seq<LedColor>)
    requires |ledStat| == BufLen
  {
    forall k :: 0 <= k < MaxBtnCnt ==> ledStat[k] == LedGreen
  }

  /** The slots [2-idx, 1] take the value of their right neighbour. */
  function ShiftLeft<T>(s: seq<T>, idx: int): (r: seq<T>)
    requires |s| == BufLen && 0 <= idx < MaxBtnCnt
    ensures |r| == BufLen
  {
    seq(BufLen, k requires 0 <= k < BufLen => if MaxBtnCnt - 1 - idx <= k <= MaxBtnCnt - 2 then s[k + 1] else s[k])
  }

  /** The colour of a guess c for position idx of the target. */
  function Score(c: char, btnSeq: seq<char>, idx: nat): (l: LedColor)
    requires idx < |btnSeq|
    ensures l == LedGreen <==> c == btnSeq[idx]
    ensures l == LedOrange <==> c != btnSeq[idx] && Included(c, btnSeq)
    ensures l == LedRed <==> c != btnSeq[idx] && !Included(c, btnSeq)
  {
    if btnSeq[idx] == c then LedGreen else if Included(c, btnSeq) then LedOrange else LedRed
  }

  /** The state a finished round leads to: INIT (a new target) when all three LEDs are green, else START. */
  function NextRound(ledStat: seq<LedColor>): (s: u16)
    requires |ledStat| == BufLen
  {
    if AllGreen(ledStat) then MainStInit else MainStStart
  }

  /** The record after a finished round: the entity enters NextRound at time now, nothing else changes. */
  function RoundEnd(p: ProcRec, now: TimeStamp): (q: ProcRec)
    requires p.WellFormed()
    ensures q.WellFormed() && q.fsmEnt.state == NextRound(p.ledStat) && q.fsmEnt.lastState == p.fsmEnt.state
    ensures q.(fsmEnt := p.fsmEnt) == p
  {
    p.(fsmEnt := EnterState(GameStates, p.fsmEnt, NextRound(p.ledStat), now))
  }

  /**
   * The record after an accepted key c at input position InputIdx(p): the
   * earlier inputs and colours shift left, ledStat[2] scores c, the count
   * goes up by one.
   */
  function Accept(p: ProcRec, c: char): (q: ProcRec)
    requires p.WellFormed() && InputIdx(p) < MaxBtnCnt
    ensures q.WellFormed()
    ensures 0 <= p.inputIndex < MaxBtnCnt && q.inputIndex == p.inputIndex + 1
    ensures q.ledStat[MaxBtnCnt - 1] == Score(c, p.btnSeq, InputIdx(p))
    ensures forall k :: MaxBtnCnt - 1 - InputIdx(p) <= k < MaxBtnCnt - 1 ==> q.ledStat[k] == p.ledStat[k + 1]
    ensures q.btnSeq == p.btnSeq && q.fsmEnt == p.fsmEnt
  {
    var idx := InputIdx(p);
    var ui := ShiftLeft(p.btnUserInput[MaxBtnCnt - 1 := c], idx);
    var ls := ShiftLeft(p.ledStat, idx);
    p.(btnUserInput := ui, ledStat := ls[MaxBtnCnt - 1 := Score(c, p.btnSeq, idx)], inputIndex := p.inputIndex + 1)
  }

  /**
   * The record after clCollectUserInput, given what the read delivered
   * (read) and the clock reading of cmFsmSetState (now): the round ends once
   * three inputs are in, a key is accepted before that, and a read that
   * timed out changes nothing.
   */
  function CollectSpec(p: ProcRec, read: Option<char>, now: TimeStamp): (q: ProcRec)
    requires p.WellFormed()
    ensures q.WellFormed()
    ensures InputIdx(p) < MaxBtnCnt && read.None? ==> q == p
  {
    if InputIdx(p) > MaxBtnCnt - 1 then RoundEnd(p, now)
    else if read.None? then p
    else Accept(p, read.value)
  }

  /** The record after clGeneralTimeoutHdl: the entity enters QUIT. */
  function TimeoutSpec(p: ProcRec, now: TimeStamp): (q: ProcRec)
    requires p.WellFormed()
    ensures q.WellFormed() && q.fsmEnt.state == MainStQuit && q.fsmEnt.lastState == p.fsmEnt.state
  {
    p.(fsmEnt := EnterState(GameStates, p.fsmEnt, MainStQuit, now))
  }

  /** What the environment supplies to one driver step: clock readings, randomness and the keyboard. */
  datatype StepInputs = StepInputs(
    nowCheck: TimeStamp,       // cmFsmCheckTmr's clock reading
    nowCommit: TimeStamp,      // the commit's clock reading
    nowSet: TimeStamp,         // cmFsmSetState's clock reading inside a handler
    urandomOk: bool,           // /dev/urandom could be opened
    rands: (RandomValue, RandomValue, RandomValue),  // the random() results a target takes
    readStart: TimeStamp,      // the read's first clock reading
    polls: seq<Poll>)          // the read's passes

  /** The random() results of a step in call order. */
  function Draws(inp: StepInputs): (r: seq<RandomValue>)
    ensures |r| == MaxBtnCnt
  {
    [inp.rands.0, inp.rands.1, inp.rands.2]
  }

  /** The clock reaches the read's gate within the step's passes, so a read in this step ends. */
  predicate ReadEnds(inp: StepInputs) {
    ReachesGate(Gate(inp.readStart, UiTimeout), inp.polls)
  }

  /** The key clCollectUserInput's read delivers in this step. */
  function ReadOf(inp: StepInputs): Option<char> {
    ReadSpec(BtnAllowed, Gate(inp.readStart, UiTimeout), inp.polls)
  }

  /** clMainFsmDr on values: the record after the named handler has run. */
  function Dispatch(h: HostFn, p: ProcRec, inp: StepInputs): (q: ProcRec)
    requires p.WellFormed() && p.fsmEnt.state < |GameStates|
    ensures q.WellFormed() && q.fsmEnt.state < |GameStates| && q.fsmEnt.fsmCp == p.fsmEnt.fsmCp
  {
    match h
    case ClGenerateRandomSeq => GenSpec(p, inp.urandomOk, Draws(inp))
    case ClCollectUserInputStart => StartSpec(p)
    case ClCollectUserInput => CollectSpec(p, ReadOf(inp), inp.nowSet)
    case ClGeneralTimeoutHdl => TimeoutSpec(p, inp.nowSet)
    case ClFsmQuit => p
  }

  /**
   * One cmFsmDriver run on the game's control point: select the cell, commit
   * it, run its handler, and report FAILURE iff the state is now MAIN_ST_MAX
   * or beyond.
   */
  function Step(p: ProcRec, inp: StepInputs): (res: (ProcRec, Status))
    requires p.WellFormed() && p.fsmEnt.state <= MainStMax
    ensures res.0.WellFormed() && res.0.fsmEnt.state <= MainStMax && res.0.fsmEnt.fsmCp == p.fsmEnt.fsmCp
    ensures res.1 == Failure <==> res.0.fsmEnt.state == MainStMax
  {
    GameTables();
    var cell := SelectCell(GameStates, GameMt, p.fsmEnt, inp.nowCheck);
    var p1 := p.(fsmEnt := CommitCell(MainStMax as u8, GameStates, p.fsmEnt, cell, inp.nowCommit));
    var p2 := Dispatch(cell.outputFn.value, p1, inp);
    (p2, if p2.fsmEnt.state >= MainStMax then Failure else Success)
  }

  // ----- the handlers on the context -----

  /** The game's control point and context, linked as cmFsmInstInit leaves them. */
  ghost predicate Wiring(cp: ControlPoint<Adapter, HostFn>, ctx: ProcInfo)
    reads cp, cp.fsmEnt, ctx
  {
    && ctx.Valid() && Wired(cp) && cp.fsmEnt == ctx.fsmEnt
    && cp.numStates == MainStMax && cp.states == GameStates && cp.fsmMt == GameMt
    && cp.fsmFp == Some(ClMainFsmDr)
  }

  /** The context's entity belongs to the game's control point (context->fsmEnt.fsmCp). */
  ghost predicate Hosted(ctx: ProcInfo)
    reads ctx, ctx.fsmEnt, ctx.fsmEnt.fsmCp
  {
    ctx.fsmEnt.fsmCp != null && ctx.fsmEnt.fsmCp.fsmEnt == ctx.fsmEnt && Wiring(ctx.fsmEnt.fsmCp, ctx)
  }

  /** clGenerateRandomSeq: a new target in btnSeq[0..3), the result of generateRandSeq. */
  method GenerateRandomSeq(ctx: ProcInfo, urandomOk: bool, rands: seq<RandomValue>) returns (r: Status)
    requires ctx.Valid() && (urandomOk ==> MaxBtnCnt <= |rands|)
    modifies ctx.btnSeq
    ensures r == Success <==> urandomOk
    ensures ctx.Snapshot() == GenSpec(old(ctx.Snapshot()), urandomOk, rands)
  {
    r := GenerateRandSeq(Some(BtnAllowed), MaxBtnCnt, ctx.btnSeq, urandomOk, rands);
  }

  /** clCollectUserInputStart: always SUCCESS. */
  method CollectUserInputStart(ctx: ProcInfo) returns (r: Status)
    requires ctx.Valid()
    modifies ctx, ctx.btnUserInput, ctx.ledStat
    ensures r == Success && ctx.Valid()
    ensures ctx.Snapshot() == StartSpec(old(ctx.Snapshot()))
  {
    ctx.inputIndex := 0;
    forall i | 0 <= i < BufLen {
      ctx.btnUserInput[i] := '\0';
    }
    ctx.ledStat[0] := LedOff;
    assert ctx.btnUserInput[..] == seq(BufLen, _ => '\0');
    return Success;
  }

  /**
   * clCollectUserInput: after three inputs, re-enter INIT when all three
   * LEDs are green and START otherwise; before that, read one key and, when
   * one arrives, shift the earlier inputs left, score the new one into
   * ledStat[2] and count it. Always SUCCESS.
   */
  method CollectUserInput(ctx: ProcInfo, readStart: TimeStamp, polls: seq<Poll>, nowSet: TimeStamp) returns (r: Status)
    requires Hosted(ctx) && ReachesGate(Gate(readStart, UiTimeout), polls)
    modifies ctx, ctx.btnUserInput, ctx.ledStat, ctx.fsmEnt
    ensures r == Success && Hosted(ctx) && ctx.fsmEnt.fsmCp == old(ctx.fsmEnt.fsmCp)
    ensures ctx.Snapshot() ==
      CollectSpec(old(ctx.Snapshot()), ReadSpec(BtnAllowed, Gate(readStart, UiTimeout), polls), nowSet)
  {
    var idx := ctx.inputIndex % U32Modulus;
    InputIdxIsModular(ctx.Snapshot());
    if idx > MaxBtnCnt - 1 {
      EndRound(ctx, nowSet);
      return Success;
    }
    var ret, chrUserInput := ReadUserInputChar(BtnAllowed, UiTimeout, readStart, polls);
    if ret == Success {
      AcceptInput(ctx, idx, chrUserInput);
    }
    return Success;
  }

  /**
   * clCollectUserInput's end of a round: scan ledStat[0..3) for a colour
   * other than GREEN and re-enter INIT or START through cmFsmSetState.
   */
  method EndRound(ctx: ProcInfo, nowSet: TimeStamp)
    requires Hosted(ctx)
    modifies ctx.fsmEnt
    ensures Hosted(ctx) && ctx.fsmEnt.fsmCp == old(ctx.fsmEnt.fsmCp)
    ensures ctx.Snapshot() == RoundEnd(old(ctx.Snapshot()), nowSet)
  {
    var i := 0;
    while i < MaxBtnCnt && ctx.ledStat[i] == LedGreen
      invariant 0 <= i <= MaxBtnCnt
      invariant forall k :: 0 <= k < i ==> ctx.ledStat[k] == LedGreen
    {
      i := i + 1;
    }
    var ret: Status;
    if i == MaxBtnCnt {
      ret := SetState(ctx.fsmEnt.fsmCp, MainStInit, nowSet);
    } else {
      ret := SetState(ctx.fsmEnt.fsmCp, MainStStart, nowSet);
    }
  }

  /**
   * clCollectUserInput after a successful read of c at input position idx:
   * store c in btnUserInput[2], shift the earlier inputs and colours left,
   * score c into ledStat[2], count the input.
   */
  method AcceptInput(ctx: ProcInfo, idx: nat, c: char)
    requires ctx.Valid() && idx == InputIdx(ctx.Snapshot()) < MaxBtnCnt
    modifies ctx, ctx.btnUserInput, ctx.ledStat
    ensures ctx.Valid()
    ensures ctx.Snapshot() == Accept(old(ctx.Snapshot()), c)
  {
    ctx.btnUserInput[MaxBtnCnt - 1] := c;
    ShiftInputs(ctx, idx);
    ScoreInput(ctx, idx, c);
  }

  /** The source's descending loop: positions [2-idx, 1] of btnUserInput and ledStat take their right neighbour. */
  method ShiftInputs(ctx: ProcInfo, idx: nat)
    requires ctx.Valid() && idx < MaxBtnCnt
    modifies ctx.btnUserInput, ctx.ledStat
    ensures ctx.btnUserInput[..] == ShiftLeft(old(ctx.btnUserInput[..]), idx)
    ensures ctx.ledStat[..] == ShiftLeft(old(ctx.ledStat[..]), idx)
  {
    ghost var ui := ctx.btnUserInput[..];
    ghost var ls := ctx.ledStat[..];
    if idx > 0 {
      var i := idx - 1;
      while i >= 0
        invariant -1 <= i < idx
        invariant forall k {:trigger ctx.btnUserInput[k]} :: 0 <= k < BufLen ==>
          ctx.btnUserInput[k] == if MaxBtnCnt - 1 - idx <= k <= -i then ui[k + 1] else ui[k]
        invariant forall k {:trigger ctx.ledStat[k]} :: 0 <= k < BufLen ==>
          ctx.ledStat[k] == if MaxBtnCnt - 1 - idx <= k <= -i then ls[k + 1] else ls[k]
        modifies ctx.btnUserInput, ctx.ledStat
      {
        if MaxBtnCnt - 2 - i >= 0 {
          ctx.btnUserInput[MaxBtnCnt - 2 - i] := ctx.btnUserInput[MaxBtnCnt - 1 - i];
          ctx.ledStat[MaxBtnCnt - 2 - i] := ctx.ledStat[MaxBtnCnt - 1 - i];
        }
        i := i - 1;
      }
    }
    assert ctx.btnUserInput[..] == ShiftLeft(ui, idx);
    assert ctx.ledStat[..] == ShiftLeft(ls, idx);
  }

  /** ledStat[2] gets GREEN, ORANGE or RED for c against btnSeq position idx; the count goes up by one. */
  method ScoreInput(ctx: ProcInfo, idx: nat, c: char)
    requires ctx.Valid() && idx < MaxBtnCnt && 0 <= ctx.inputIndex < MaxBtnCnt
    modifies ctx, ctx.ledStat
    ensures ctx.ledStat[..] == old(ctx.ledStat[..])[MaxBtnCnt - 1 := Score(c, ctx.btnSeq[..], idx)]
    ensures ctx.inputIndex == old(ctx.inputIndex) + 1
    ensures ctx.procStat == old(ctx.procStat) && ctx.procStatTimeOut == old(ctx.procStatTimeOut)
  {
    var chrSeq := ctx.btnSeq[idx];
    ctx.ledStat[MaxBtnCnt - 1] := LedRed;
    if chrSeq == c {
      ctx.ledStat[MaxBtnCnt - 1] := LedGreen;
    } else {
      var inc := CharIncluded(c, ctx.btnSeq[..]);
      if inc == Success {
        ctx.ledStat[MaxBtnCnt - 1] := LedOrange;
      }
    }
    ctx.inputIndex := ctx.inputIndex + 1;
  }

  /** clGeneralTimeoutHdl: the entity enters QUIT; always SUCCESS. */
  method GeneralTimeoutHdl(ctx: ProcInfo, nowSet: TimeStamp) returns (r: Status)
    requires Hosted(ctx)
    modifies ctx.fsmEnt
    ensures r == Success && Hosted(ctx) && ctx.fsmEnt.fsmCp == old(ctx.fsmEnt.fsmCp)
    ensures ctx.Snapshot() == TimeoutSpec(old(ctx.Snapshot()), nowSet)
  {
    var ret := SetState(ctx.fsmEnt.fsmCp, MainStQuit, nowSet);
    return Success;
  }

  /** clFsmQuit: changes nothing and reports FAILURE. */
  method FsmQuit(ctx: ProcInfo) returns (r: Status)
    ensures r == Failure
  {
    return Failure;
  }

  /**
   * clMainFsmDr: runs the handler on the context and reports SUCCESS
   * whatever the handler returned.
   */
  method MainFsmDr(outputFn: HostFn, ctx: ProcInfo, inp: StepInputs) returns (r: Status)
    requires Hosted(ctx) && ReadEnds(inp)
    modifies ctx, ctx.btnSeq, ctx.btnUserInput, ctx.ledStat, ctx.fsmEnt
    ensures r == Success && Hosted(ctx) && ctx.fsmEnt.fsmCp == old(ctx.fsmEnt.fsmCp)
    ensures ctx.Snapshot() == Dispatch(outputFn, old(ctx.Snapshot()), inp)
  {
    var ret: Status;
    match outputFn {
      case ClGenerateRandomSeq => ret := GenerateRandomSeq(ctx, inp.urandomOk, Draws(inp));
      case ClCollectUserInputStart => ret := CollectUserInputStart(ctx);
      case ClCollectUserInput => ret := CollectUserInput(ctx, inp.readStart, inp.polls, inp.nowSet);
      case ClGeneralTimeoutHdl => ret := GeneralTimeoutHdl(ctx, inp.nowSet);
      case ClFsmQuit => ret := FsmQuit(ctx);
    }
    return Success;
  }

  /**
   * cmFsmDriver on the game's control point: the engine's select-and-commit,
   * the adapter call on the context holding the entity, then the verdict.
   */
  method MainFsmDriver(cp: ControlPoint<Adapter, HostFn>, ctx: ProcInfo, inp: StepInputs) returns (r: Status)
    requires Wiring(cp, ctx) && ReadEnds(inp)
    modifies ctx, ctx.btnSeq, ctx.btnUserInput, ctx.ledStat, ctx.fsmEnt
    ensures Wiring(cp, ctx)
    ensures (ctx.Snapshot(), r) == Step(old(ctx.Snapshot()), inp)
  {
    GameTables();
    var cell := DriverCommit(cp, inp.nowCheck, inp.nowCommit);
    var ret := MainFsmDr(cell.outputFn.value, ctx, inp);
    r := DriverVerdict(cp);
  }
}
