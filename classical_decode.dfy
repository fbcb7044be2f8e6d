/** The decode stage of src/1_digital/classical/classical_decode.cpp: the fetch to
  * decode register, the branch start, the stall and load-use hazard logic, and the
  * selection of measurement results for FMR. */
module ClassicalDecode {
  import Q = QasmInstruction
  import CE = ClassicalExecute

  /** `G_NUM_QUBITS_LOG2`: the width of the qubit selector of FMR. */
  const NumQubitsLog2 := 3
  const SelModulus := 8

  // ------------------------------------------------------------------ if2de_ff

  /** The next decode PC: held while the clock enable is low, else the branch target on
    * a branch start and the next sequential PC otherwise. */
  function NextPc(pc: nat, clkEn: bool, brStart: bool, targetPc: nat, normalPc: nat): nat
  {
    if !clkEn then pc else if brStart then targetPc else normalPc
  }

  /** The registers `if2de_ff` writes. */
  class DecodeRegs {
    var initPc: nat
    var reset: bool
    var resetDly: bool
    var run: bool
    var pc: nat

    constructor ()
      ensures initPc == 0 && !reset && !resetDly && !run && pc == 0
    {
      initPc, reset, resetDly, run, pc := 0, false, false, false, 0;
    }

    /** `if2de_ff`, one clock: the reset signals and initial PC are copied, `run` is
      * held while the stage stalls, and the PC follows `NextPc`. */
    method If2DeFf(ifInitPc: nat, ifReset: bool, ifResetDly: bool, ifRun: bool, stall: bool,
                   clkEn: bool, brStart: bool, targetPc: nat, normalPc: nat)
      modifies this
      ensures initPc == ifInitPc && reset == ifReset && resetDly == ifResetDly
      ensures run == if stall then old(run) else ifRun
      ensures pc == NextPc(old(pc), clkEn, brStart, targetPc, normalPc)
    {
      initPc := ifInitPc;
      reset := ifReset;
      resetDly := ifResetDly;
      if !stall {
        run := ifRun;
      }
      if clkEn {
        if brStart {
          pc := targetPc;
        } else {
          pc := normalPc;
        }
      }
    }
  }

  // ------------------------------------------------------------------ stalls

  /** `stalling_logic`: the clock enable drops when the measurement registers or the
    * quantum pipeline are not ready, on a load-use hazard, after STOP, and on a valid
    * FMR whose measurement results are not locked in. `de_stall` is its negation. */
  function ClkEn(qmrReady: bool, qpReady: bool, hazard: bool, done: bool, clValid: bool,
                 isFmr: bool, fmrReadyLock: bool): (r: bool)
    ensures r <==> qmrReady && qpReady && !hazard && !done && !(clValid && isFmr && !fmrReadyLock)
  {
    var afterQmr := qmrReady;
    var afterQp := afterQmr && qpReady;
    var afterHazard := afterQp && !hazard;
    var afterDone := afterHazard && !done;
    if clValid && isFmr && !fmrReadyLock then false else afterDone
  }

  /** `hazard_detection`: a load in the execute stage whose destination is a register
    * the instruction in decode reads. */
  function LoadUseHazard(exRun: bool, deRun: bool, exOpcode: nat, exRd: nat, deRs: nat,
                         deRt: nat, useRs: bool, useRt: bool): (r: bool)
  {
    if exRun && deRun && CE.IsLoad(exOpcode) then
      if useRs && deRs == exRd then true
      else if useRt && deRt == exRd then true
      else false
    else false
  }

  /** A hazard is raised exactly for a running load whose destination is a used source
    * register of the running instruction in decode, and it always stops the clock of
    * the decode stage, so the execute stage receives a bubble. */
  lemma HazardStalls(exRun: bool, deRun: bool, exOpcode: nat, exRd: nat, deRs: nat, deRt: nat,
                     useRs: bool, useRt: bool, qmrReady: bool, qpReady: bool, done: bool,
                     clValid: bool, isFmr: bool, lock: bool)
    ensures LoadUseHazard(exRun, deRun, exOpcode, exRd, deRs, deRt, useRs, useRt) <==>
      exRun && deRun && (exOpcode == Q.LB || exOpcode == Q.LBU || exOpcode == Q.LW)
      && ((useRs && deRs == exRd) || (useRt && deRt == exRd))
    ensures LoadUseHazard(exRun, deRun, exOpcode, exRd, deRs, deRt, useRs, useRt) ==>
      !ClkEn(qmrReady, qpReady, true, done, clValid, isFmr, lock)
  {
  }

  /** A stalled cycle freezes the decode PC. */
  lemma StallFreezesPc(pc: nat, brStart: bool, targetPc: nat, normalPc: nat, qmrReady: bool,
                       qpReady: bool, hazard: bool, done: bool, clValid: bool, isFmr: bool,
                       lock: bool)
    requires hazard || done || !qpReady
    ensures NextPc(pc, ClkEn(qmrReady, qpReady, hazard, done, clValid, isFmr, lock), brStart,
                   targetPc, normalPc) == pc
  {
  }

  /** `fmr_interlocking_logic`. */
  function FmrReadyLock(fmrReady: bool, exMeasEna: bool): bool
  {
    fmrReady && !exMeasEna
  }

  /** `fmr_ready_logic`: while stalled on an FMR, readiness waits for the selected
    * qubit only, otherwise for all qubits; a measurement in the execute stage always
    * withholds it. */
  function FmrReadyNext(clkEn: bool, clValid: bool, isFmr: bool, selValid: bool, allValid: bool,
                        exMeasEna: bool): (r: bool)
    ensures r ==> !exMeasEna
    ensures !exMeasEna && !clkEn && clValid && isFmr ==> (r <==> selValid)
    ensures !exMeasEna && !(!clkEn && clValid && isFmr) ==> (r <==> allValid)
  {
    if !clkEn && clValid && isFmr then selValid && !exMeasEna else allValid && !exMeasEna
  }

  // ------------------------------------------------------------------ measurement results

  /** `mrf_in`: after `init` every qubit reads result 0 and valid; otherwise the
    * measurement register file's outputs are copied. The ready flag is always true. */
  method MrfIn(init: bool, data: seq<bool>, valid: seq<bool>)
      returns (qmrData: seq<bool>, qmrValid: seq<bool>, qmrReady: bool)
    requires |data| == |valid|
    ensures |qmrData| == |qmrValid| == |data| && qmrReady
    ensures init ==> forall i :: 0 <= i < |data| ==> !qmrData[i] && qmrValid[i]
    ensures !init ==> qmrData == data && qmrValid == valid
  {
    qmrReady := true;
    if init {
      qmrData, qmrValid := [], [];
      var i := 0;
      while i < |data|
        invariant 0 <= i <= |data| && |qmrData| == |qmrValid| == i
        invariant forall k :: 0 <= k < i ==> !qmrData[k] && qmrValid[k]
      {
        qmrData, qmrValid := qmrData + [false], qmrValid + [true];
        i := i + 1;
      }
    } else {
      qmrData, qmrValid := data, valid;
    }
  }

  predicate AllSet(v: seq<bool>)
  {
    forall i :: 0 <= i < |v| ==> v[i]
  }

  /** The entry the 3-bit qubit selector picks, or 1 when it names no qubit. */
  function Selected(v: seq<bool>, sel: nat): bool
  {
    var s := sel % SelModulus;
    if s < |v| then v[s] else true
  }

  /** `measurement_valid_detection`, first half: the AND of all valid bits. */
  method AllValid(valid: seq<bool>) returns (r: bool)
    ensures r <==> AllSet(valid)
  {
    r := true;
    var i := 0;
    while i < |valid|
      invariant 0 <= i <= |valid|
      invariant r <==> AllSet(valid[..i])
    {
      r := r && valid[i];
      i := i + 1;
    }
    assert valid[..i] == valid;
  }

  /** `measurement_valid_detection` and `measurement_result_selection`, second half: scan
    * the qubits and keep the entry whose index equals the selector. */
  method SelectQubit(v: seq<bool>, sel: nat) returns (flag: bool)
    ensures flag == Selected(v, sel)
  {
    var selected := sel % SelModulus;
    flag := true;
    var i := 0;
    while i < |v|
      invariant 0 <= i <= |v|
      invariant flag == if selected < i then v[selected] else true
    {
      if i == selected {
        flag := v[i];
      }
      i := i + 1;
    }
  }

  /** When every qubit's result is valid, the selected one is valid too, so the
    * readiness FMR waits for is implied by the readiness of all qubits. */
  lemma AllValidSelects(v: seq<bool>, sel: nat)
    requires AllSet(v)
    ensures Selected(v, sel)
  {
  }

  // ------------------------------------------------------------------ branch start

  function BrInsn(insnValid: bool, newInsn: Q.InsnState, kept: Q.InsnState): Q.InsnState
  {
    if insnValid then newInsn else kept
  }

  /** `is_br`: a classical BR. */
  predicate IsBr(insn: Q.InsnState)
  {
    insn.op.clInsn && insn.op.opcode == Q.BR
  }

  /** `br_start`: a running BR starts a branch when the delayed flag of its condition is
    * set; otherwise the first cycle after reset forces a branch to the initial PC. The
    * instruction is held while no valid one arrives. */
  function BrStart(insnValid: bool, newInsn: Q.InsnState, kept: Q.InsnState, run: bool,
                   reset: bool, resetDly: bool, flagsCmpDly: seq<bool>): (r: bool)
    requires BrInsn(insnValid, newInsn, kept).operands.brCond < |flagsCmpDly|
    ensures var insn := BrInsn(insnValid, newInsn, kept);
      r <==> (IsBr(insn) && run && flagsCmpDly[insn.operands.brCond])
             || (!(IsBr(insn) && run) && resetDly && !reset)
  {
    var insn := BrInsn(insnValid, newInsn, kept);
    var condResult := flagsCmpDly[insn.operands.brCond];
    if IsBr(insn) && run then condResult
    else if resetDly && !reset then true
    else false
  }

  /** With the fixed flags the execute stage keeps, condition 0 ("always") always
    * branches and condition 1 ("never") never does. */
  lemma BrAlwaysNever(insn: Q.InsnState, kept: Q.InsnState, reset: bool, resetDly: bool,
                      flags: seq<bool>)
    requires CE.FixedFlags(flags) && IsBr(insn)
    ensures insn.operands.brCond == 0 ==> BrStart(true, insn, kept, true, reset, resetDly, flags)
    ensures insn.operands.brCond == 1 ==> !BrStart(true, insn, kept, true, reset, resetDly, flags)
  {
  }

  // ------------------------------------------------------------------ decode_stage

  /** The value of an `int` written to an `sc_int<20>`: its low 20 bits, sign-extended. */
  function Imm20Of(x: int): (r: CE.Imm20)
    ensures -0x8_0000 <= x < 0x8_0000 ==> r == x
  {
    (x + 0x8_0000) % 0x10_0000 - 0x8_0000
  }

  /** The unsigned 20-bit immediate field of a binary LDI reaches the execute stage
    * sign-extended: fields from 0x80000 up stand for negative values. */
  lemma Imm20OfField(f: nat)
    requires f < 0x10_0000
    ensures Imm20Of(f) == if f < 0x8_0000 then f else f - 0x10_0000
  {
  }

  /** `de_insn_use_rd`: opcode 13 or any opcode from 20 up. */
  predicate UsesRd(opcode: nat)
  {
    opcode >= 20 || opcode == Q.CMP
  }

  /** The decode outputs that `de2ex_ff` registers. */
  datatype DecodeOut = DecodeOut(
    opcode: nat, useRd: bool, isFmr: bool, clValid: bool, qValid: bool, measEna: bool,
    rsAddr: nat, useRs: bool, rtAddr: nat, useRt: bool, rdAddr: nat, uimm: CE.Uimm15,
    imm: CE.Imm20, brAddr: int, brCond: nat)

  /** `decode_stage`, one activation: the instruction and its 6-bit opcode are taken
    * when the instruction is valid and held otherwise; the classical and quantum valid
    * bits need a valid instruction and a running stage; the fields are narrowed to
    * their signal widths. Returns the outputs and the held instruction and opcode. */
  function DecodeStage(insnValid: bool, newInsn: Q.InsnState, kept: Q.InsnState, keptOpcode: nat,
                       run: bool): (r: (DecodeOut, Q.InsnState, nat))
    ensures var insn := if insnValid then newInsn else kept;
      r.1 == insn
      && r.2 == (if insnValid then newInsn.op.opcode % 64 else keptOpcode)
      && r.0.isFmr == (r.2 == Q.FMR)
      && (r.0.clValid <==> insn.op.clInsn && insnValid && run)
      && (r.0.qValid <==> insn.op.qInsn && insnValid && run)
      && r.0.measEna == insn.op.measInsn
  {
    var insn := if insnValid then newInsn else kept;
    var opcode := if insnValid then insn.op.opcode % 64 else keptOpcode;
    var o := insn.operands;
    (DecodeOut(opcode, UsesRd(opcode), opcode == Q.FMR, insn.op.clInsn && insnValid && run,
               insn.op.qInsn && insnValid && run, insn.op.measInsn,
               o.rsAddr % 0x1_0000_0000, o.rsUsed, o.rtAddr % 0x1_0000_0000, o.rtUsed,
               o.rdAddr % 0x1_0000_0000, o.uimm % 0x8000, Imm20Of(o.imm),
               (o.brAddr + 0x10_0000) % 0x20_0000 - 0x10_0000, o.brCond % 0x1_0000_0000),
     insn, opcode)
  }

  /** Without a valid instruction neither pipeline receives one, and a classical and a
    * quantum instruction are never valid in the same cycle unless the instruction
    * claims both kinds. */
  lemma DecodeValidBits(insnValid: bool, newInsn: Q.InsnState, kept: Q.InsnState, keptOpcode: nat,
                        run: bool)
    ensures var r := DecodeStage(insnValid, newInsn, kept, keptOpcode, run).0;
      (!insnValid || !run ==> !r.clValid && !r.qValid)
      && (r.clValid && r.qValid ==> newInsn.op.clInsn && newInsn.op.qInsn)
  {
  }
}
