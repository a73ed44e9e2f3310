/**
 * Properties of the game as the engine drives it: what one driver step does
 * from each state, that the game never reaches QUIT, and how a round of
 * three guesses is scored and ends.
 */
module GameTheorems {
  import opened Common
  import opened Fsm
  import opened GameModel
  import opened GameController

  /**
   * Every descriptor timeout is 0, so from any state the driver selects the
   * normal cell, whatever the clock says; clGeneralTimeoutHdl never runs.
   */
  lemma TimeoutCellNeverSelected(e: EntityRec<Adapter, HostFn>, now: TimeStamp)
    requires e.state <= MainStMax
    ensures SelectCell(GameStates, GameMt, e, now) == GameMt[CellIndex(e.state, false)]
    ensures SelectCell(GameStates, GameMt, e, now).outputFn != Some(ClGeneralTimeoutHdl)
  {
    GameTables();
    assert GameMt[CellIndex(e.state, false)] == GameMt[2 * e.state];
    assert e.state == 0 || e.state == 1 || e.state == 2 || e.state == 3;
  }

  /**
   * One driver step from INIT, START or INPUT reports SUCCESS and leaves the
   * state in INIT, START or INPUT: INIT commits START and draws a target,
   * START commits INPUT and resets the round, INPUT commits INPUT and
   * collects (possibly re-entering INIT or START).
   */
  lemma StepStaysRunning(p: ProcRec, inp: StepInputs)
    requires p.WellFormed() && p.fsmEnt.state <= MainStInput
    ensures Step(p, inp).1 == Success
    ensures Step(p, inp).0.fsmEnt.state <= MainStInput
  {
    TimeoutCellNeverSelected(p.fsmEnt, inp.nowCheck);
    var cell := SelectCell(GameStates, GameMt, p.fsmEnt, inp.nowCheck);
    var p1 := p.(fsmEnt := CommitCell(MainStMax as u8, GameStates, p.fsmEnt, cell, inp.nowCommit));
    assert p1.fsmEnt.state == if p.fsmEnt.state == MainStInit then MainStStart else MainStInput;
    assert cell.outputFn.value != ClFsmQuit;
    var p2 := Dispatch(cell.outputFn.value, p1, inp);
    assert p2.fsmEnt.state <= MainStInput;
  }

  /** A step from QUIT runs clFsmQuit, stays in QUIT and reports FAILURE: the main loop ends. */
  lemma QuitStops(p: ProcRec, inp: StepInputs)
    requires p.WellFormed() && p.fsmEnt.state == MainStQuit
    ensures Step(p, inp).1 == Failure
    ensures Step(p, inp).0.fsmEnt.state == MainStQuit
    ensures Step(p, inp).0.(fsmEnt := p.fsmEnt) == p
  {
    TimeoutCellNeverSelected(p.fsmEnt, inp.nowCheck);
    assert SelectCell(GameStates, GameMt, p.fsmEnt, inp.nowCheck) == Cell(Some(ClFsmQuit), 3);
  }

  /** The record after the driver has run once per input, in order. */
  function Run(p: ProcRec, ins: seq<StepInputs>): (q: ProcRec)
    requires p.WellFormed() && p.fsmEnt.state <= MainStMax
    ensures q.WellFormed() && q.fsmEnt.state <= MainStMax
    decreases |ins|
  {
    if ins == [] then p else Step(Run(p, ins[..|ins| - 1]), ins[|ins| - 1]).0
  }

  /** Started in INIT, START or INPUT, the game stays there for any number of steps. */
  lemma {:induction false} RunNeverQuits(p: ProcRec, ins: seq<StepInputs>)
    requires p.WellFormed() && p.fsmEnt.state <= MainStInput
    ensures Run(p, ins).fsmEnt.state <= MainStInput
    decreases |ins|
  {
    if ins != [] {
      RunNeverQuits(p, ins[..|ins| - 1]);
      StepStaysRunning(Run(p, ins[..|ins| - 1]), ins[|ins| - 1]);
    }
  }

  /** Started in INIT, START or INPUT, every driver step of a run reports SUCCESS: the main loop never breaks. */
  lemma EveryStepSucceeds(p: ProcRec, ins: seq<StepInputs>)
    requires p.WellFormed() && p.fsmEnt.state <= MainStInput
    ensures forall i :: 0 <= i < |ins| ==> Step(Run(p, ins[..i]), ins[i]).1 == Success
  {
    forall i | 0 <= i < |ins|
      ensures Step(Run(p, ins[..i]), ins[i]).1 == Success
    {
      RunNeverQuits(p, ins[..i]);
      StepStaysRunning(Run(p, ins[..i]), ins[i]);
    }
  }

  /**
   * After clCollectUserInputStart and three accepted keys c0, c1, c2, LED j
   * shows the score of cj against target position j (GREEN iff it matches),
   * and the next clCollectUserInput re-enters INIT exactly when all three
   * matched, START otherwise.
   */
  lemma ThreeReads(p: ProcRec, c0: char, c1: char, c2: char, now: TimeStamp, read: Option<char>)
    requires p.WellFormed()
    ensures var q := CollectSpec(CollectSpec(CollectSpec(StartSpec(p), Some(c0), now), Some(c1), now), Some(c2), now);
      && q.inputIndex == MaxBtnCnt && q.btnSeq == p.btnSeq
      && q.ledStat[..MaxBtnCnt] == [Score(c0, p.btnSeq, 0), Score(c1, p.btnSeq, 1), Score(c2, p.btnSeq, 2)]
      && (q.ledStat[0] == LedGreen <==> c0 == p.btnSeq[0])
      && (q.ledStat[1] == LedGreen <==> c1 == p.btnSeq[1])
      && (q.ledStat[2] == LedGreen <==> c2 == p.btnSeq[2])
      && CollectSpec(q, read, now).fsmEnt.state ==
           if c0 == p.btnSeq[0] && c1 == p.btnSeq[1] && c2 == p.btnSeq[2] then MainStInit else MainStStart
  {
    var q0 := StartSpec(p);
    assert InputIdx(q0) == 0;
    var q1 := CollectSpec(q0, Some(c0), now);
    assert q1 == Accept(q0, c0);
    assert q1.ledStat[2] == Score(c0, p.btnSeq, 0);
    var q2 := CollectSpec(q1, Some(c1), now);
    assert InputIdx(q1) == 1 && q2 == Accept(q1, c1);
    assert q2.ledStat[1] == Score(c0, p.btnSeq, 0) && q2.ledStat[2] == Score(c1, p.btnSeq, 1);
    var q3 := CollectSpec(q2, Some(c2), now);
    assert InputIdx(q2) == 2 && q3 == Accept(q2, c2);
    assert q3.ledStat[0] == Score(c0, p.btnSeq, 0) && q3.ledStat[1] == Score(c1, p.btnSeq, 1);
    assert q3.ledStat[..MaxBtnCnt] == [Score(c0, p.btnSeq, 0), Score(c1, p.btnSeq, 1), Score(c2, p.btnSeq, 2)];
    assert InputIdx(q3) == 3;
    assert AllGreen(q3.ledStat) <==> q3.ledStat[0] == LedGreen && q3.ledStat[1] == LedGreen && q3.ledStat[2] == LedGreen;
  }

  /** A read that times out changes nothing in the round: count, inputs and LEDs stay as they were. */
  lemma TimedOutReadKeepsRound(p: ProcRec, now: TimeStamp, inp: StepInputs)
    requires p.WellFormed() && p.fsmEnt.state == MainStInput && InputIdx(p) < MaxBtnCnt
    requires ReadOf(inp).None?
    ensures var q := Step(p, inp).0;
      && q.(fsmEnt := p.fsmEnt) == p
      && q.fsmEnt.state == MainStInput && q.fsmEnt.lastState == MainStInput
  {
    TimeoutCellNeverSelected(p.fsmEnt, inp.nowCheck);
    assert SelectCell(GameStates, GameMt, p.fsmEnt, inp.nowCheck) == Cell(Some(ClCollectUserInput), 2);
  }

  /** Run over a non-empty input sequence: the last step applied after the rest. */
  lemma RunLast(p: ProcRec, ins: seq<StepInputs>, n: nat)
    requires p.WellFormed() && p.fsmEnt.state <= MainStMax
    requires 0 < n <= |ins|
    ensures Run(p, ins[..n]) == Step(Run(p, ins[..n - 1]), ins[n - 1]).0
  {
    var prefix := ins[..n];
    assert prefix[..|prefix| - 1] == ins[..n - 1];
    assert prefix[|prefix| - 1] == ins[n - 1];
  }

  /** A step from INIT commits START and runs clGenerateRandomSeq. */
  lemma StepFromInit(p: ProcRec, inp: StepInputs)
    requires p.WellFormed() && p.fsmEnt.state == MainStInit
    ensures Step(p, inp).0.fsmEnt.state == MainStStart
    ensures Step(p, inp).0.(fsmEnt := p.fsmEnt) == GenSpec(p, inp.urandomOk, Draws(inp))
  {
    TimeoutCellNeverSelected(p.fsmEnt, inp.nowCheck);
    assert SelectCell(GameStates, GameMt, p.fsmEnt, inp.nowCheck) == Cell(Some(ClGenerateRandomSeq), 1);
  }

  /** A step from START commits INPUT and runs clCollectUserInputStart. */
  lemma StepFromStart(p: ProcRec, inp: StepInputs)
    requires p.WellFormed() && p.fsmEnt.state == MainStStart
    ensures Step(p, inp).0.fsmEnt.state == MainStInput
    ensures Step(p, inp).0.(fsmEnt := p.fsmEnt) == StartSpec(p)
  {
    TimeoutCellNeverSelected(p.fsmEnt, inp.nowCheck);
    assert SelectCell(GameStates, GameMt, p.fsmEnt, inp.nowCheck) == Cell(Some(ClCollectUserInputStart), 2);
  }

  /**
   * A step from INPUT re-commits INPUT and runs clCollectUserInput: an
   * accepted key before the third is scored, and after the third the round
   * ends in NextRound.
   */
  lemma StepFromInput(p: ProcRec, inp: StepInputs)
    requires p.WellFormed() && p.fsmEnt.state == MainStInput
    ensures InputIdx(p) < MaxBtnCnt && ReadOf(inp).Some? ==>
      var q := Step(p, inp).0;
      && q.fsmEnt.state == MainStInput
      && q.btnSeq == p.btnSeq && q.inputIndex == p.inputIndex + 1
      && q.ledStat == Accept(p, ReadOf(inp).value).ledStat
    ensures InputIdx(p) >= MaxBtnCnt ==>
      && Step(p, inp).0.fsmEnt.state == NextRound(p.ledStat)
      && Step(p, inp).0.(fsmEnt := p.fsmEnt) == p
  {
    TimeoutCellNeverSelected(p.fsmEnt, inp.nowCheck);
    assert SelectCell(GameStates, GameMt, p.fsmEnt, inp.nowCheck) == Cell(Some(ClCollectUserInput), 2);
  }

  /** q is p after clCollectUserInput accepted the key c, whatever the entity did. */
  predicate Accepted(p: ProcRec, q: ProcRec, c: char)
    requires p.WellFormed() && InputIdx(p) < MaxBtnCnt
  {
    q.btnSeq == p.btnSeq && q.inputIndex == p.inputIndex + 1 && q.ledStat == Accept(p, c).ledStat
  }

  /**
   * Three accepted keys from the start of a round: LED j shows the score of
   * cj against btnSeq position j, and three inputs have been counted.
   */
  lemma GuessSteps(r0: ProcRec, r1: ProcRec, r2: ProcRec, r3: ProcRec, c0: char, c1: char, c2: char)
    requires r0.WellFormed() && r1.WellFormed() && r2.WellFormed() && InputIdx(r0) == 0
    requires Accepted(r0, r1, c0)
    requires InputIdx(r1) < MaxBtnCnt && Accepted(r1, r2, c1)
    requires InputIdx(r2) < MaxBtnCnt && Accepted(r2, r3, c2)
    ensures InputIdx(r3) == MaxBtnCnt && r3.btnSeq == r0.btnSeq
    ensures r3.ledStat[..MaxBtnCnt] == [Score(c0, r0.btnSeq, 0), Score(c1, r0.btnSeq, 1), Score(c2, r0.btnSeq, 2)]
  {
    assert r1.ledStat[2] == Score(c0, r0.btnSeq, 0) && InputIdx(r1) == 1;
    assert r2.ledStat[1] == Score(c0, r0.btnSeq, 0) && r2.ledStat[2] == Score(c1, r0.btnSeq, 1);
    assert InputIdx(r2) == 2;
  }

  /**
   * The first two steps of a round from INIT: a target is drawn into
   * btnSeq[0..3) and the round starts in INPUT with no input counted.
   */
  lemma RoundOpening(p: ProcRec, in0: StepInputs, in1: StepInputs)
    requires p.WellFormed() && p.fsmEnt.state == MainStInit
    requires in0.urandomOk
    ensures var r := Step(Step(p, in0).0, in1).0;
      && r.fsmEnt.state == MainStInput && InputIdx(r) == 0
      && r.btnSeq == RandomPick(BtnAllowed, MaxBtnCnt, Draws(in0)) + p.btnSeq[MaxBtnCnt..]
  {
    StepFromInit(p, in0);
    StepFromStart(Step(p, in0).0, in1);
  }

  /** A step from INPUT that reads c before the third input accepts c. */
  lemma StepAccepts(p: ProcRec, inp: StepInputs, c: char)
    requires p.WellFormed() && p.fsmEnt.state == MainStInput && InputIdx(p) < MaxBtnCnt
    requires ReadOf(inp) == Some(c)
    ensures Step(p, inp).0.fsmEnt.state == MainStInput
    ensures Accepted(p, Step(p, inp).0, c)
  {
    StepFromInput(p, inp);
  }

  /**
   * Three steps from INPUT at the start of a round, each accepting a key:
   * LED j then shows the score of cj against the round's btnSeq position j.
   */
  lemma RoundGuesses(r0: ProcRec, in0: StepInputs, in1: StepInputs, in2: StepInputs, c0: char, c1: char, c2: char)
    requires r0.WellFormed() && r0.fsmEnt.state == MainStInput && InputIdx(r0) == 0
    requires ReadOf(in0) == Some(c0) && ReadOf(in1) == Some(c1) && ReadOf(in2) == Some(c2)
    ensures var r := Step(Step(Step(r0, in0).0, in1).0, in2).0;
      && r.fsmEnt.state == MainStInput && InputIdx(r) == MaxBtnCnt && r.btnSeq == r0.btnSeq
      && r.ledStat[..MaxBtnCnt] == [Score(c0, r0.btnSeq, 0), Score(c1, r0.btnSeq, 1), Score(c2, r0.btnSeq, 2)]
  {
    var r1 := Step(r0, in0).0;
    StepAccepts(r0, in0, c0);
    var r2 := Step(r1, in1).0;
    StepAccepts(r1, in1, c1);
    var r3 := Step(r2, in2).0;
    StepAccepts(r2, in2, c2);
    GuessSteps(r0, r1, r2, r3, c0, c1, c2);
  }

  /**
   * A whole round driven through cmFsmDriver from INIT, one input per step:
   * the target is drawn, the round starts, three keys c0, c1, c2 are
   * accepted, and the sixth step re-enters INIT (a new target next) exactly
   * when the guess equals the target, START (the same target again) otherwise.
   */
  lemma WholeRound(p: ProcRec, in0: StepInputs, in1: StepInputs, in2: StepInputs, in3: StepInputs,
                   in4: StepInputs, in5: StepInputs, c0: char, c1: char, c2: char)
    requires p.WellFormed() && p.fsmEnt.state == MainStInit && p.btnSeq[MaxBtnCnt] == '\0'
    requires in0.urandomOk
    requires ReadOf(in2) == Some(c0) && ReadOf(in3) == Some(c1) && ReadOf(in4) == Some(c2)
    ensures var target := RandomPick(BtnAllowed, MaxBtnCnt, Draws(in0));
      var r5 := Step(Step(Step(Step(Step(p, in0).0, in1).0, in2).0, in3).0, in4).0;
      && r5.btnSeq[..MaxBtnCnt] == target
      && r5.ledStat[..MaxBtnCnt] == [Score(c0, target, 0), Score(c1, target, 1), Score(c2, target, 2)]
      && Step(r5, in5).0.fsmEnt.state == if [c0, c1, c2] == target then MainStInit else MainStStart
  {
    var r2 := Step(Step(p, in0).0, in1).0;
    RoundOpening(p, in0, in1);
    var target := RandomPick(BtnAllowed, MaxBtnCnt, Draws(in0));
    assert r2.btnSeq == target + ['\0'];
    RoundGuesses(r2, in2, in3, in4, c0, c1, c2);
    var r5 := Step(Step(Step(r2, in2).0, in3).0, in4).0;
    ScoreOnTarget(c0, r2.btnSeq, target, 0);
    ScoreOnTarget(c1, r2.btnSeq, target, 1);
    ScoreOnTarget(c2, r2.btnSeq, target, 2);
    StepFromInput(r5, in5);
    GreenIffGuessed(r5.ledStat, target, c0, c1, c2);
  }

  /** Three LEDs scored against a three-letter target are all GREEN iff the guess is the target. */
  lemma GreenIffGuessed(ledStat: seq<LedColor>, target: seq<char>, c0: char, c1: char, c2: char)
    requires |ledStat| == BufLen && |target| == MaxBtnCnt
    requires ledStat[..MaxBtnCnt] == [Score(c0, target, 0), Score(c1, target, 1), Score(c2, target, 2)]
    ensures AllGreen(ledStat) <==> [c0, c1, c2] == target
  {
    assert ledStat[0] == Score(c0, target, 0) && ledStat[1] == Score(c1, target, 1) && ledStat[2] == Score(c2, target, 2);
    if [c0, c1, c2] != target {
      assert c0 != target[0] || c1 != target[1] || c2 != target[2];
    }
  }

  /**
   * Scoring against the 4-slot btnSeq, whose last slot holds the NUL left by
   * zeroing, equals scoring against the three target letters alone.
   */
  lemma ScoreOnTarget(c: char, btnSeq: seq<char>, target: seq<char>, idx: nat)
    requires |btnSeq| == BufLen && btnSeq[..MaxBtnCnt] == target && btnSeq[MaxBtnCnt] == '\0' && idx < MaxBtnCnt
    requires forall i :: 0 <= i < |target| ==> Included(target[i], BtnAllowed)
    ensures Score(c, btnSeq, idx) == Score(c, target, idx)
  {
    assert '\0' !in target by {
      forall i | 0 <= i < |target| ensures target[i] != '\0' {
        NulNeverIncluded(BtnAllowed);
      }
    }
    assert btnSeq == target + ['\0'] + [];
    CStrStopsAtNul(target, []);
    CStrWithoutNul(target);
  }
}
