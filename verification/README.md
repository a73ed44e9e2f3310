# ggame: the FSM engine and the guessing game, modelled in Dafny

ggame is a terminal guessing game written in C on top of a small,
poll-driven finite-state-machine engine. The engine has three parts:

- A control point (`CmFsmCp`) holds a name, an array of state descriptors (a label and a timeout in ms) and a flattened transition matrix with two cells per state: a normal cell and a timeout cell.
- The entity it drives (`CmFsmEntity`) holds the current and last state, a timeout and a deadline.
- `cmFsmDriver` performs one step: check the deadline, select a cell, commit its next state, call the cell's output function through the control point's adapter, and report FAILURE once the state has reached `numStates`.

The game has four states: INIT, START, INPUT and QUIT.

- INIT draws a three-letter target from "abc".
- START resets the round.
- INPUT reads one key per step with a 10-second timeout and scores it on three LEDs: GREEN for the right letter in the right place, ORANGE for a letter elsewhere in the target, RED otherwise.
- After three keys, INPUT re-enters INIT when all three LEDs are green, and START otherwise.

A static model record keeps a copy of the game's context.

The project has one module per source file:

- `Common` (common.dfy) models `include/CommonInc.h`: the integer widths, return codes, monotonic timestamps and the character test.
- `Fsm` (fsm.dfy) models `include/CommonFsm.h` and `src/CommonFsm.c`:
  - the control point and the entity are classes, updated in place by methods;
  - each method is proved against pure functions (`CheckTmr`, `SelectCell`, `CommitCell`, `EnterState`).
- `GameModel` (game_model.dfy) models `include/GGameMainModel.h` and `src/GGameMainModel.c`: the context `PROC_INFO_t` as a class over arrays, its value `ProcRec`, and the model store.
- `GameController` (game_controller.dfy) models `src/GGameMainController.c`:
  - the constant tables, `generateRandSeq` and `clReadUserInputChar`;
  - every output handler, as a method on the context proved against a function on `ProcRec`;
  - the adapter, and one `cmFsmDriver` run on the game's control point (`MainFsmDriver`). It is proved equal to the pure step function `Step`.
- `GameTheorems` (game_theorems.dfy) holds what one step does from each state, proves that the game never reaches QUIT, and proves how a whole round is scored and ended.
- `GameMain` (game_main.dfy) models `main()`: the setup, then the driver loop storing the context in the model after every successful step.

The environment becomes parameters:

- every clock reading;
- whether `/dev/urandom` opens, and the values of `random()`;
- each pass of the key-read loop: the key fetched, if any, and the clock reading after it;
- the result of the LED view's set-up.

At these boundaries the model keeps the code's behaviour:

- The driver commits a cell whose next state is at most `numStates`, including `numStates` itself (`src/CommonFsm.c:152`). The same holds for `cmFsmSetState` (`src/CommonFsm.c:240`). The game supplies a descriptor and a matrix row for that index.
- A deadline that equals the current time already selects the timeout cell. Only `TIME_NOT_EXPIRED` selects the normal cell (`src/CommonFsm.c:146`).
- `cmFsmInstInit` leaves `lastState` at 0, from its memset, rather than setting it to the initial state.
- `SAddMsToTimeStamp` rounds the milliseconds half-up into whole seconds and also adds `ms % 1000` to the microsecond field, with no carry.
- `clCollectUserInputStart` clears `ledStat` with a memset sized by `btnUserInput` (4 bytes). Only `ledStat[0]` is cleared, because `LED_COLOR_t` is a 4-byte enum.
- `generateRandSeq` compares `number` with `sizeof(outArray)`, the size of a pointer (8), not the buffer's length. Counts above 8 fail.

## Model

| member | source | states |
|---|---|---|
| Common.CompareTimeStamp | include/CommonInc.h:176-198 | EXPIRED iff cmp is strictly before now (seconds, then microseconds); EQUAL iff both fields agree; NOT_EXPIRED iff cmp is strictly after now |
| Common.CompareSwapped | include/CommonInc.h:176-198 | swapping the arguments swaps EXPIRED with NOT_EXPIRED and keeps EQUAL |
| Common.AddZeroMs | include/CommonInc.h:206-211 | adding 0 ms leaves a timestamp unchanged |
| Common.AddMsToTimeStamp | include/CommonInc.h:206-211 | modulo 2^32, the seconds field advances by (ms + 500) / 1000, whole seconds rounded half-up, and the microsecond field by ms % 1000, with no carry between them; AddMsRoundsHalfUp and AddWholeSeconds give the unwrapped meaning |
| Common.AddMsRoundsHalfUp | include/CommonInc.h:206-211 | without wrap-around, the seconds added are ms/1000 rounded half-up, and the microsecond field grows by ms % 1000 |
| Common.AddWholeSeconds | include/CommonInc.h:208-209 | a multiple of 1000 ms adds ms/1000 seconds (mod 2^32) and leaves the microseconds unchanged |
| Common.AddFifteenHundredMs | include/CommonInc.h:208-209 | 1500 ms moves a timestamp by 2 s and 500 us: the remainder is not carried |
| Common.GetMonotonicTime | include/CommonInc.h:149-167 | all-zero when the clock cannot be read, else tv_sec mod 2^32 and tv_nsec/1000; microseconds always below 10^6 |
| Common.CStr | include/CommonInc.h:233 | the strlen prefix: a prefix of the buffer with no NUL, followed by a NUL when shorter than the buffer |
| Common.CStrStopsAtNul | include/CommonInc.h:233 | a C string ends at the first NUL, whatever follows it |
| Common.CStrWithoutNul | include/CommonInc.h:233 | a buffer without NUL is its own C string |
| Common.Truncate | src/CommonFsm.c:62-63 | the first n characters, or the whole string when shorter |
| Common.CharIncluded | include/CommonInc.h:230-239 | SUCCESS iff chr equals str[i] for some i below strlen(str) |
| Common.NulNeverIncluded | include/CommonInc.h:230-239 | the NUL character is never included |
| Fsm.CellIndex | include/CommonFsm.h:51-56 | the cells of state s sit at flat indices 2s (normal) and 2s+1 (timeout) |
| Fsm.ContextAddress | include/CommonFsm.h:40-42 | the context-from-entity macro inverts the entity-from-context macro |
| Fsm.ControlPoint.constructor | include/CommonFsm.h:83-92 | placeholder values for the automatic `CmFsmCp`, whose fields are indeterminate in C; cmFsmCpInit and cmFsmInstInit overwrite every field the model reads |
| Fsm.Entity.constructor | include/CommonFsm.h:72-81 | an entity after memset(0) |
| Fsm.Entity.Assign | src/GGameMainModel.c:43 | a structure copy overwrites every entity field |
| Fsm.CheckTmr | src/CommonFsm.c:203-214 | not NOT_EXPIRED iff the state has a timeout and now is not before the deadline; EQUAL only at the deadline itself |
| Fsm.SelectCell | src/CommonFsm.c:141-150 | the timeout cell exactly when the state has a timeout and the deadline is reached (EQUAL included) or passed; with timeout 0, always the normal cell |
| Fsm.CommitCell | src/CommonFsm.c:152-169 | next state at most numStates: lastState := state, state := next, timeout and deadline from the new descriptor; otherwise nothing changes; the state stays at most numStates |
| Fsm.CpInit | src/CommonFsm.c:45-72 | FAILURE, with nothing written, iff cp, matrix or name is NULL or numStates is 0; otherwise name cut to 19 characters, offset, numStates mod 256, tables and adapter stored, and fsmEnt untouched |
| Fsm.InstInit | src/CommonFsm.c:84-123 | the entity is zeroed and linked both ways before initState >= numStates is rejected; on success: state initState, lastState 0, fsmCnt 0, the descriptor's timeout, deadline now + timeout, name "<cp>-<inst>" cut to 39 characters |
| Fsm.DriverCommit | src/CommonFsm.c:139-169 | the selected cell is SelectCell, and the entity becomes CommitCell of it |
| Fsm.DriverVerdict | src/CommonFsm.c:186-192 | FAILURE iff the state is at least numStates |
| Fsm.SetState | src/CommonFsm.c:225-260 | FAILURE, with nothing changed, iff cp is NULL or state > numStates (numStates is accepted); otherwise the entity enters the state at now |
| Fsm.GetState | src/CommonFsm.c:274-294 | FAILURE iff cp or context is NULL, with the caller's variables untouched; otherwise the entity's state and last state, nothing modified |
| Fsm.BeforeIsEarlier | include/CommonInc.h:176-198 | for microsecond fields below 10^6, the lexicographic order is the order of elapsed microseconds |
| Fsm.DeadlineBoundary | src/CommonFsm.c:141-158 | for a whole-second timeout started at `start`, the timeout cell is selected iff at least the timeout has elapsed; exactly the timeout already counts |
| Fsm.RoundTrip | src/CommonFsm.c:141-169 | two steps around A -> B -> A (no timeouts) return to A with lastState B |
| Fsm.CommitAtNumStates | src/CommonFsm.c:152-156 | a cell naming numStates itself is committed |
| GameModel.ZeroProc | include/GGameMainModel.h:53-62 | a zero-filled context has its three 4-slot buffers |
| GameModel.ProcInfo.constructor | src/GGameMainController.c:83 | memset(0) of a context: the value is ZeroProc |
| GameModel.ProcInfo.Load | src/GGameMainModel.c:43 | a structure copy: every field of the context becomes the record's |
| GameModel.ModelStore.constructor | src/GGameMainModel.c:31 | the static record starts all-zero |
| GameModel.ModelStore.SetProcInfo | src/GGameMainModel.c:33-38 | always SUCCESS; stores a copy of *proc, or leaves the store unchanged for NULL |
| GameModel.ModelStore.GetProcInfo | src/GGameMainModel.c:40-45 | always SUCCESS; the context receives the stored record, nothing is written for NULL, and the store never changes |
| GameModel.SetThenGet | src/GGameMainModel.c:33-45 | a get after a set yields the record that was set; the source context is unchanged |
| GameController.GameTables | src/GGameMainController.c:42-73 | numStates 3 with 4 descriptor rows and 8 cells; every cell has an output function; every timeout is 0; every next state is at most QUIT |
| GameController.RandomPick | src/GGameMainController.c:186-191 | `number` characters, each one included in the alphabet |
| GameController.GenerateRandSeq | src/GGameMainController.c:152-194 | FAILURE iff the alphabet is missing or empty, number < 1, the buffer is missing, number > sizeof(char *), or urandom fails, with the buffer unchanged; otherwise the first `number` slots hold RandomPick and the rest are unchanged |
| GameController.ReadSpec | src/GGameMainController.c:438-461 | a delivered key is allowed, and was fetched in a pass whose clock reading was before the gate |
| GameController.ReadFindsFirst | src/GGameMainController.c:438-461 | conversely, when every pass up to j reads the clock before the gate, pass j fetched an allowed key and no earlier pass did, ReadSpec delivers exactly that key |
| GameController.ReadUnfold | src/GGameMainController.c:438-461 | one pass of the read loop: gate reached gives nothing; an allowed key is taken; otherwise the next pass decides |
| GameController.GateAhead | src/GGameMainController.c:453-460 | a pass before the gate leaves the gate to a later pass |
| GameController.ReadUserInputChar | src/GGameMainController.c:424-470 | SUCCESS iff ReadSpec delivers a key, and the output character is that key; FAILURE on timeout |
| GameController.GenSpec | src/GGameMainController.c:271-284 | only btnSeq changes, and only on success |
| GameController.InputIdxIsModular | src/GGameMainController.c:320 | the U32 copy of inputIndex is its residue mod 2^32 |
| GameController.ShiftLeft | src/GGameMainController.c:373-382 | the shifted buffer keeps its 4 slots |
| GameController.Score | src/GGameMainController.c:392-400 | GREEN iff c is the target letter at idx; ORANGE iff it is not but occurs in btnSeq; RED iff it occurs nowhere |
| GameController.RoundEnd | src/GGameMainController.c:328-351 | the entity enters INIT when all three LEDs are green, START otherwise; lastState is the old state; nothing else changes |
| GameController.Accept | src/GGameMainController.c:360-402 | inputIndex + 1; ledStat[2] scores c at position idx; ledStat[k] takes ledStat[k+1] for k in [2-idx, 1]; btnSeq and the entity are kept |
| GameController.CollectSpec | src/GGameMainController.c:312-412 | a read that timed out before the third input changes nothing |
| GameController.TimeoutSpec | src/GGameMainController.c:472-477 | the entity enters QUIT |
| GameController.Dispatch | src/GGameMainController.c:257-261 | any handler keeps the context well-formed, the state in range and the control point link |
| GameController.Step | src/CommonFsm.c:133-193 | a driver step keeps the state at most QUIT, and reports FAILURE iff the state is QUIT |
| GameController.GenerateRandomSeq | src/GGameMainController.c:271-284 | SUCCESS iff urandom opens; the context becomes GenSpec |
| GameController.CollectUserInputStart | src/GGameMainController.c:294-302 | always SUCCESS; the context becomes StartSpec: inputIndex 0, btnUserInput zeroed, only ledStat[0] cleared |
| GameController.CollectUserInput | src/GGameMainController.c:312-412 | always SUCCESS; the context becomes CollectSpec of what the read delivered |
| GameController.EndRound | src/GGameMainController.c:328-351 | the green scan and cmFsmSetState give RoundEnd |
| GameController.AcceptInput | src/GGameMainController.c:360-402 | the context becomes Accept of the read key |
| GameController.ShiftInputs | src/GGameMainController.c:366-383 | the descending loop produces ShiftLeft on btnUserInput and ledStat |
| GameController.ScoreInput | src/GGameMainController.c:385-402 | ledStat[2] becomes Score and inputIndex grows by one |
| GameController.GeneralTimeoutHdl | src/GGameMainController.c:472-477 | always SUCCESS; the context becomes TimeoutSpec |
| GameController.FsmQuit | src/GGameMainController.c:478-482 | always FAILURE |
| GameController.MainFsmDr | src/GGameMainController.c:257-261 | runs the handler (the context becomes Dispatch) and reports SUCCESS whatever it returned |
| GameController.MainFsmDriver | src/CommonFsm.c:133-193 | the context after one driver run and its verdict are exactly Step; the wiring is kept |
| GameTheorems.TimeoutCellNeverSelected | src/GGameMainController.c:44-47 | with every timeout 0, the normal cell is selected whatever the clock says, so clGeneralTimeoutHdl never runs |
| GameTheorems.StepStaysRunning | src/GGameMainController.c:53-67 | a step from INIT, START or INPUT reports SUCCESS and stays in those three states |
| GameTheorems.QuitStops | src/GGameMainController.c:68-72 | a step from QUIT runs clFsmQuit, stays in QUIT, reports FAILURE and changes nothing else |
| GameTheorems.Run | src/GGameMainController.c:128-137 | any number of driver steps keeps the state at most QUIT |
| GameTheorems.RunNeverQuits | src/GGameMainController.c:44-66 | from INIT, START or INPUT, the state after any number of steps is still INIT, START or INPUT: QUIT is unreachable |
| GameTheorems.EveryStepSucceeds | src/GGameMainController.c:128-132 | from INIT, START or INPUT, every driver step of any run reports SUCCESS, so the main loop never breaks |
| GameTheorems.RunLast | src/GGameMainController.c:128-137 | a run is the last step applied after the rest |
| GameTheorems.ThreeReads | src/GGameMainController.c:294-402 | after clCollectUserInputStart and three keys, LED j scores key j against btnSeq[j], GREEN iff they match, and the next call enters INIT iff all three matched |
| GameTheorems.TimedOutReadKeepsRound | src/GGameMainController.c:360-362 | a step whose read times out keeps the count, inputs and LEDs, and stays in INPUT |
| GameTheorems.StepFromInit | src/GGameMainController.c:53-57 | a step from INIT commits START and draws the target |
| GameTheorems.StepFromStart | src/GGameMainController.c:58-62 | a step from START commits INPUT and resets the round |
| GameTheorems.StepFromInput | src/GGameMainController.c:63-67 | a step from INPUT accepts a key before the third input, and ends the round in NextRound after it |
| GameTheorems.GuessSteps | src/GGameMainController.c:366-402 | three accepted keys leave LED j scoring key j against position j |
| GameTheorems.RoundOpening | src/GGameMainController.c:271-302 | two steps from INIT draw the target into btnSeq[0..3) and start the round in INPUT with no input |
| GameTheorems.StepAccepts | src/GGameMainController.c:360-402 | a step from INPUT reading c before the third input accepts c |
| GameTheorems.RoundGuesses | src/GGameMainController.c:360-402 | three reading steps from the round's start score the three keys against btnSeq |
| GameTheorems.WholeRound | src/GGameMainController.c:128-137 | six driver steps from INIT: LED j scores key j against the drawn target, and the sixth step enters INIT iff the guess is the target, START otherwise |
| GameTheorems.GreenIffGuessed | src/GGameMainController.c:332-338 | three LEDs scored against a three-letter target are all green iff the guess equals the target |
| GameTheorems.ScoreOnTarget | src/GGameMainController.c:386-396 | scoring against the 4-slot btnSeq with its trailing NUL equals scoring against the three target letters |
| GameMain.MainEntityShape | src/GGameMainController.c:104-107 | the main instance is "G-FSM-MAIN" in INIT with lastState 0, fsmCnt 0, timeout 0 and the deadline at now |
| GameMain.InitControlPoint | src/GGameMainController.c:87-112 | cmFsmCpInit and cmFsmInstInit succeed; the control point and the context are wired; the entity is the main instance |
| GameMain.GameSetup | src/GGameMainController.c:83-125 | the context is the stored record with the main entity; FAILURE iff the LED view fails to initialise |
| GameMain.LoopStep | src/GGameMainController.c:128-137 | one pass: the context advances by one Step; setProcInfo stores it on SUCCESS only |
| GameMain.GameLoop | src/GGameMainController.c:128-137 | the context follows Run; the loop stops only on a FAILURE, which means QUIT; the store holds the last successful step; from INIT, START or INPUT it never stops |
| GameMain.Game | src/GGameMainController.c:77-141 | FAILURE iff the LED view fails to initialise; otherwise the store ends at Run from the loaded record with the main entity |

## Left out

- Logging (`SLOG*`, syslog set-up) is a no-op. The LED view's rendering (`VLED_UpdateView`) is left out; `VLED_Init` is only the parameter `ledInitOk`.
- Terminal I/O is left out: `keyHit`, `setSysNonBlockMode`, `fgetc`, `usleep`. One pass of the read loop is a `Poll`: the key fetched, if any, and the clock reading after it.
- ReadUserInputChar: requires that some pass reads the clock at or after the gate (`ReachesGate`). A real monotonic clock guarantees this; a sequence of polls does not.
- The clock (`clock_gettime`) is a parameter: one reading for the deadline check, one for the commit, one for a handler's `cmFsmSetState`, and one at the read's start. Nothing in the model relies on the clock being monotonic.
- Randomness is left out: `/dev/urandom`, `srandom` and `random()`. Whether urandom opens is a bool, and the three `random()` results are parameters in [0, 2^31).
- The offset macros and `offsetof` work on addresses. They appear only as address arithmetic (`EntityAddress`, `ContextAddress`). The context holds its entity as a field, and the offset value is a parameter of `main()`.
- Function pointers are tags: `fsmFp` is `Adapter`, the cells' output functions are `HostFn`. The driver's indirect call is the dispatch in `MainFsmDriver`/`MainFsmDr`.
- MainFsmDriver: does not model the abort on a cell without an output function. The game's matrix has none (`Complete`, proved in `GameTables`).
- GenerateRandSeq: requires that a count accepted by the pointer-size guard fits the buffer, since the source writes past it otherwise.
- Reading `states[numStates]` needs `numStates + 1` descriptor and matrix rows (`Tables`). The source indexes without a check.
- C strings without a terminating NUL within the buffer are read up to its end. In the source this is undefined behaviour.
- `fsmCnt` is never incremented in the source, and stays 0.
- GameLoop: the endless `while(true)` runs once per element of a finite input sequence. Running out of inputs reports SUCCESS, meaning the game is still running.
- The `btnUserInput` contents after a shift are modelled as the source computes them, the new key also landing in slot 1. They have no property beyond that, because the game only logs them.
- `dumpProcInfo`, `dumpTimeStamp`, the signal-handler stubs and `SColorInfo` only log or render, and are left out.
