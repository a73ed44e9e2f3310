/**
 * The guessing game's model layer: state numbering, the per-process context
 * record PROC_INFO_t that embeds the FSM entity, and the single static record
 * md_ProcInfo with copy-in / copy-out accessors (include/GGameMainModel.h,
 * src/GGameMainModel.c).
 */
module GameModel {
  import opened Common
  import opened Fsm

  // PROC_STAT_t
  const MainStInit: u16 := 0
  const MainStStart: u16 := 1
  const MainStInput: u16 := 2
  const MainStQuit: u16 := 3
  const MainStMax: u16 := MainStQuit

  const MaxBtnCnt := 3
  /** Every button buffer has MAX_BTN_CNT + 1 slots. */
  const BufLen := MaxBtnCnt + 1

  /** LED_COLOR_t (include/GGameMainLEDView.h), LED_OFF being 0. */
  datatype LedColor = LedOff | LedGreen | LedOrange | LedRed

  /** The adapter the game gives its control point: clMainFsmDr. */
  datatype Adapter = ClMainFsmDr

  /** The controller's output functions that the game's matrix refers to. */
  datatype HostFn =
    | ClGenerateRandomSeq
    | ClCollectUserInputStart
    | ClCollectUserInput
    | ClGeneralTimeoutHdl
    | ClFsmQuit

  /** The fields of a PROC_INFO_t as one value. */
  datatype ProcRec = ProcRec(
    btnSeq: seq<char>,
    btnUserInput: seq<char>,
    ledStat: seq<LedColor>,
    inputIndex: s32,
    procStat: int,
    procStatTimeOut: int,
    fsmEnt: EntityRec<Adapter, HostFn>)
  {
    /** The three buffers have their declared MAX_BTN_CNT + 1 slots. */
    predicate WellFormed() {
      |btnSeq| == BufLen && |btnUserInput| == BufLen && |ledStat| == BufLen
    }
  }

  /** A PROC_INFO_t after memset(0), which is also what static storage starts as. */
  function ZeroProc(): (p: ProcRec)
    ensures p.WellFormed()
  {
    ProcRec(seq(BufLen, _ => '\0'), seq(BufLen, _ => '\0'), seq(BufLen, _ => LedOff), 0, 0, 0, ZeroEntity())
  }

  /** PROC_INFO_t: the host context of the game's FSM instance. */
  class ProcInfo {
    const btnSeq: array<char>
    const btnUserInput: array<char>
    const ledStat: array<LedColor>
    var inputIndex: s32
    var procStat: int
    var procStatTimeOut: int
    /** The embedded CmFsmEntity. */
    const fsmEnt: Entity<Adapter, HostFn>

    ghost predicate Valid()
      reads this
    {
      && btnSeq.Length == BufLen && btnUserInput.Length == BufLen && ledStat.Length == BufLen
      && btnSeq != btnUserInput
    }

    function Snapshot(): ProcRec
      reads this, btnSeq, btnUserInput, ledStat, fsmEnt
    {
      ProcRec(btnSeq[..], btnUserInput[..], ledStat[..], inputIndex, procStat, procStatTimeOut, fsmEnt.View())
    }

    /** A zero-filled context. */
    constructor ()
      ensures Valid() && Snapshot() == ZeroProc()
      ensures fresh(btnSeq) && fresh(btnUserInput) && fresh(ledStat) && fresh(fsmEnt)
    {
      btnSeq := new char[BufLen](_ => '\0');
      btnUserInput := new char[BufLen](_ => '\0');
      ledStat := new LedColor[BufLen](_ => LedOff);
      inputIndex, procStat, procStatTimeOut := 0, 0, 0;
      fsmEnt := new Entity();
    }

    /** `*this = rec`: a structure copy into this context. */
    method Load(rec: ProcRec)
      requires Valid() && rec.WellFormed()
      modifies this, btnSeq, btnUserInput, ledStat, fsmEnt
      ensures Valid() && Snapshot() == rec
    {
      forall i | 0 <= i < BufLen {
        btnSeq[i] := rec.btnSeq[i];
      }
      forall i | 0 <= i < BufLen {
        btnUserInput[i] := rec.btnUserInput[i];
      }
      forall i | 0 <= i < BufLen {
        ledStat[i] := rec.ledStat[i];
      }
      inputIndex, procStat, procStatTimeOut := rec.inputIndex, rec.procStat, rec.procStatTimeOut;
      fsmEnt.Assign(rec.fsmEnt);
    }
  }

  /** The module-static md_ProcInfo. */
  class ModelStore {
    var mdProcInfo: ProcRec

    ghost predicate Valid()
      reads this
    {
      mdProcInfo.WellFormed()
    }

    /** Static storage starts all-zero. */
    constructor ()
      ensures Valid() && mdProcInfo == ZeroProc()
    {
      mdProcInfo := ZeroProc();
    }

    /** setProcInfo: copies *proc into the store, ignores NULL, always SUCCESS. */
    method SetProcInfo(proc: ProcInfo?) returns (r: Status)
      requires Valid()
      requires proc != null ==> proc.Valid()
      modifies this
      ensures r == Success && Valid()
      ensures proc != null ==> mdProcInfo == proc.Snapshot()
      ensures proc == null ==> mdProcInfo == old(mdProcInfo)
    {
      if proc != null {
        mdProcInfo := proc.Snapshot();
      }
      return Success;
    }

    /**
     * getProcInfo: copies the store into *proc, writes nothing for NULL,
     * never changes the store, always SUCCESS.
     */
    method GetProcInfo(proc: ProcInfo?) returns (r: Status)
      requires Valid()
      requires proc != null ==> proc.Valid()
      modifies if proc != null then {proc, proc.btnSeq, proc.btnUserInput, proc.ledStat, proc.fsmEnt} else {}
      ensures r == Success
      ensures mdProcInfo == old(mdProcInfo) && Valid()
      ensures proc != null ==> proc.Valid() && proc.Snapshot() == mdProcInfo
    {
      if proc != null {
        proc.Load(mdProcInfo);
      }
      return Success;
    }
  }

  /** Two contexts share no storage. */
  ghost predicate Separate(p: ProcInfo, q: ProcInfo)
    reads p, q
  {
    && p != q && p.fsmEnt != q.fsmEnt && p.ledStat != q.ledStat
    && {p.btnSeq, p.btnUserInput} !! {q.btnSeq, q.btnUserInput}
  }

  /** A get after a set hands back the record that was set, and leaves the store as it was. */
  method SetThenGet(store: ModelStore, src: ProcInfo, dst: ProcInfo)
    requires store.Valid() && src.Valid() && dst.Valid() && Separate(src, dst)
    modifies store, dst, dst.btnSeq, dst.btnUserInput, dst.ledStat, dst.fsmEnt
    ensures dst.Snapshot() == src.Snapshot() == store.mdProcInfo
    ensures unchanged(src, src.btnSeq, src.btnUserInput, src.ledStat, src.fsmEnt)
  {
    var r := store.SetProcInfo(src);
    r := store.GetProcInfo(dst);
  }
}
