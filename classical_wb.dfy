/** The write-back stage of src/1_digital/classical/classical_wb.cpp: the pipeline
  * register after the memory stage and the register file it writes. */
module ClassicalWb {
  import CE = ClassicalExecute

  /** The 32 registers, all zero. */
  function Zeros(n: nat): (r: seq<CE.Word>)
    ensures |r| == n && forall i :: 0 <= i < n ==> r[i] == 0
  {
    if n == 0 then [] else Zeros(n - 1) + [0]
  }

  /** `mem2wb_ff` chooses the execute stage's result, or for a load the loaded value. */
  function WbValue(ex2reg: bool, exRdValue: CE.Word, memRdValue: CE.Word): CE.Word
  {
    if ex2reg then exRdValue else memRdValue
  }

  class WbStage {
    var run: bool
    var wrRdEn: bool
    var rdAddr: nat
    var rdValue: CE.Word
    /** `reg_file`: a fixed vector of `REG_FILE_NUM` registers. */
    const regFile: array<CE.Word>

    constructor ()
      ensures regFile.Length == CE.RegFileNum && fresh(regFile)
      ensures !run && !wrRdEn && rdAddr == 0 && rdValue == 0
    {
      run, wrRdEn, rdAddr, rdValue := false, false, 0, 0;
      regFile := new CE.Word[CE.RegFileNum](_ => 0);
    }

    /** The write this stage has pending, as the execute stage's forwarding sees it. */
    function Pending(): CE.StageWrite
      reads this
    {
      CE.StageWrite(run, wrRdEn, rdAddr, rdValue)
    }

    /** `mem2wb_ff`, one clock: the memory stage's run, destination and enable are
      * registered with the value to write. */
    method Mem2WbFf(memRun: bool, memWrRdEn: bool, memRdAddr: nat, memEx2Reg: bool,
                    memExRdValue: CE.Word, memRdValue: CE.Word)
      modifies this
      ensures Pending() == CE.StageWrite(memRun, memWrRdEn, memRdAddr,
                                         WbValue(memEx2Reg, memExRdValue, memRdValue))
    {
      wrRdEn := memWrRdEn;
      rdAddr := memRdAddr;
      run := memRun;
      if memEx2Reg {
        rdValue := memExRdValue;
      } else {
        rdValue := memRdValue;
      }
    }

    /** `write_reg_file`: `init` clears every register, then a running instruction
      * that writes its destination stores the registered value there. */
    method WriteRegFile(init: bool)
      requires regFile.Length == CE.RegFileNum
      requires run && wrRdEn ==> rdAddr < CE.RegFileNum
      modifies regFile
      ensures regFile[..] == CE.Commit(if init then Zeros(CE.RegFileNum) else old(regFile[..]), Pending())
    {
      if init {
        var i := 0;
        while i < CE.RegFileNum
          invariant 0 <= i <= CE.RegFileNum
          invariant forall k :: 0 <= k < i ==> regFile[k] == 0
        {
          regFile[i] := 0;
          i := i + 1;
        }
        assert regFile[..] == Zeros(CE.RegFileNum);
      }
      if run && wrRdEn {
        regFile[rdAddr] := rdValue;
      }
    }
  }

  /** After the write lands, every register reads what the execute stage's forwarding
    * offered one cycle earlier when the memory stage had nothing pending. */
  lemma CommitMatchesForward(rf: seq<CE.Word>, wb: CE.StageWrite, addr: nat)
    requires addr < |rf|
    ensures CE.Commit(rf, wb)[addr] == CE.Forward(rf, addr, CE.StageWrite(false, false, 0, 0), wb)
  {
  }

  /** A write lands in its destination only; every other register keeps its value, and
    * after `init` every other register is zero. */
  lemma CommitTouchesOnlyDestination(rf: seq<CE.Word>, wb: CE.StageWrite, addr: nat)
    requires addr < |rf| && (wb.run && wb.wrRdEn ==> wb.rdAddr < |rf|)
    ensures |CE.Commit(rf, wb)| == |rf|
    ensures CE.Commit(rf, wb)[addr] == if CE.Writes(wb, addr) then wb.value else rf[addr]
    ensures !CE.Writes(wb, addr) && addr < CE.RegFileNum ==> CE.Commit(Zeros(CE.RegFileNum), wb)[addr] == 0
  {
  }
}
