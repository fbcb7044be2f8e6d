/** The instruction fetch stage of src/1_digital/classical/classical_fetch.cpp. Each
  * process computes its outputs from the signals it reads in one activation: the
  * pass-through of the cache and application signals, the next sequential PC, the
  * delayed start-up reset, the branch target and the `run` signal a branch drops. */
module ClassicalFetch {
  import Q = QasmInstruction
  import ClassicalDecode

  /** `MEMORY_ADDRESS_WIDTH` is 21: PCs are 21-bit unsigned values. */
  const PcModulus := 0x20_0000
  const HalfPcModulus := 0x10_0000

  type Pc = x: int | 0 <= x < PcModulus

  /** The signals `signal_update` copies from its inputs. */
  datatype FetchSignals = FetchSignals(initPc: Pc, reset: bool, brDone: bool, brDoneValid: bool,
                                       insnValid: bool, insn: Q.InsnState, qpReady: bool)

  /** `signal_update`: the initial PC, the reset, the cache's branch report and valid bit,
    * the fetched instruction and the quantum pipeline's ready flag are forwarded. The
    * cache's valid bit feeds both the branch-done valid and the instruction valid. */
  function SignalUpdate(initPc: Pc, reset: bool, icBranch: bool, icValid: bool, insn: Q.InsnState,
                        qpReady: bool): (r: FetchSignals)
    ensures r.brDoneValid == r.insnValid == icValid
    ensures r.insn == insn && r.initPc == initPc && r.reset == reset
    ensures r.brDone == icBranch && r.qpReady == qpReady
  {
    FetchSignals(initPc, reset, icBranch, icValid, icValid, insn, qpReady)
  }

  /** `pc_adder`: the PC of the instruction in decode, advanced by one (modulo the
    * address width) when that instruction is valid and the pipeline runs. */
  function NormalPc(insnValid: bool, run: bool, pc: Pc): Pc
  {
    if !insnValid || !run then pc else (pc + 1) % PcModulus
  }

  /** The sequential PC moves exactly when a valid instruction runs, and then to the
    * next address, wrapping from the last address to 0. */
  lemma NormalPcAdvances(insnValid: bool, run: bool, pc: Pc)
    ensures NormalPc(insnValid, run, pc) != pc <==> insnValid && run
    ensures insnValid && run && pc < PcModulus - 1 ==> NormalPc(insnValid, run, pc) == pc + 1
    ensures insnValid && run && pc == PcModulus - 1 ==> NormalPc(insnValid, run, pc) == 0
  {
  }

  /** `start_up_logic`: the reset delay is raised by reset and then held while the
    * decode stage's clock is disabled. */
  function ResetDly(clkEn: bool, resetDly: bool, reset: bool): bool
  {
    (!clkEn && resetDly) || reset
  }

  /** The delay after the reset is released for a sequence of cycles with the given
    * clock enables, the decode stage registering each new value. */
  function ResetDlyAfter(resetDly: bool, clkEns: seq<bool>): bool
  {
    if |clkEns| == 0 then resetDly
    else ResetDlyAfter(ResetDly(clkEns[0], resetDly, false), clkEns[1..])
  }

  /** Once reset is released the delay survives exactly as long as the decode clock
    * stays disabled; the first enabled cycle clears it for good. */
  lemma {:induction false} ResetDlyLastsUntilClock(clkEns: seq<bool>)
    ensures ResetDlyAfter(true, clkEns) <==> forall i :: 0 <= i < |clkEns| ==> !clkEns[i]
  {
    if |clkEns| > 0 {
      ResetDlyLastsUntilClock(clkEns[1..]);
      if clkEns[0] {
        ResetDlyStaysClear(clkEns[1..]);
      } else {
        assert forall i :: 1 <= i < |clkEns| ==> clkEns[i] == clkEns[1..][i - 1];
      }
    }
  }

  /** Without reset a cleared delay is never raised again. */
  lemma {:induction false} ResetDlyStaysClear(clkEns: seq<bool>)
    ensures !ResetDlyAfter(false, clkEns)
  {
    if |clkEns| > 0 {
      ResetDlyStaysClear(clkEns[1..]);
    }
  }

  /** `sc_int<MEMORY_ADDRESS_WIDTH>`: the low 21 bits of a branch offset read as a
    * two's-complement number. */
  function BrOffset(x: int): (r: int)
    ensures -HalfPcModulus <= r < HalfPcModulus && (r - x) % PcModulus == 0
    ensures -HalfPcModulus <= x < HalfPcModulus ==> r == x
  {
    var u := x % PcModulus;
    if u >= HalfPcModulus then u - PcModulus else u
  }

  /** `branch_target_adder`: during the start-up delay the target is the initial PC,
    * otherwise the decode PC plus the instruction's 21-bit signed offset, truncated to
    * the address width. */
  function TargetPc(resetDly: bool, initPc: Pc, pc: Pc, brAddr: int): Pc
  {
    if resetDly then initPc else (pc + BrOffset(brAddr)) % PcModulus
  }

  /** A binary BR stores its offset as an unsigned 21-bit field; the target adder reads
    * it back sign-extended, so field values from 2^20 up branch backwards. */
  lemma TargetOfBinaryField(pc: Pc, field: int)
    requires 0 <= field < PcModulus
    ensures field < HalfPcModulus ==> BrOffset(field) == field
    ensures field >= HalfPcModulus ==> BrOffset(field) == field - PcModulus
    ensures TargetPc(false, 0, pc, field) == (pc + field) % PcModulus
  {
  }

  /** An assembled `br <cond>, <label>` stores `label - pc` wrapped to 32 bits; the
    * target adder turns it back into the label's address, forwards or backwards. */
  lemma BranchReachesLabel(dest: Pc, pc: Pc, initPc: Pc)
    ensures TargetPc(false, initPc, pc, Q.WrapInt(dest - pc)) == dest
  {
    Q.BranchOffsetExact(dest, pc);
    var d := dest - pc;
    var u := d % PcModulus;
    assert d >= 0 ==> u == d;
    assert d < 0 ==> u == d + PcModulus;
  }

  /** In the first enabled cycle after reset is released, with no running BR in
    * decode, the decode stage forces a branch and the PC is loaded with the initial PC. */
  lemma StartUpLoadsInitPc(insnValid: bool, newInsn: Q.InsnState, kept: Q.InsnState, run: bool,
                           flagsCmpDly: seq<bool>, initPc: Pc, pc: Pc, brAddr: int, normalPc: nat)
    requires ClassicalDecode.BrInsn(insnValid, newInsn, kept).operands.brCond < |flagsCmpDly|
    requires !(ClassicalDecode.IsBr(ClassicalDecode.BrInsn(insnValid, newInsn, kept)) && run)
    ensures ClassicalDecode.NextPc(pc, true,
              ClassicalDecode.BrStart(insnValid, newInsn, kept, run, false, true, flagsCmpDly),
              TargetPc(true, initPc, pc, brAddr), normalPc) == initPc
  {
  }

  /** `branch_latency_control`: `run` follows the decode stage, drops when a valid
    * instruction starts a branch, and is raised again when the cache reports the
    * branch done; the report wins over the start in the same cycle. */
  function IfRun(deRun: bool, insnValid: bool, brStart: bool, brDoneValid: bool, brDone: bool): bool
  {
    var afterStart := if insnValid && brStart then false else deRun;
    if insnValid && brDoneValid && brDone then true else afterStart
  }

  /** Without a valid instruction `run` is passed through; a branch start drops it
    * unless the cache reports the branch done in the same cycle, and that report
    * raises it whatever the decode stage holds. */
  lemma IfRunBranchLatency(deRun: bool, insnValid: bool, brStart: bool, brDoneValid: bool, brDone: bool)
    ensures !insnValid ==> IfRun(deRun, insnValid, brStart, brDoneValid, brDone) == deRun
    ensures insnValid && brDoneValid && brDone ==> IfRun(deRun, insnValid, brStart, brDoneValid, brDone)
    ensures insnValid && brStart && !(brDoneValid && brDone) ==> !IfRun(deRun, insnValid, brStart, brDoneValid, brDone)
    ensures IfRun(deRun, insnValid, brStart, brDoneValid, brDone) != deRun ==> insnValid
  {
  }
}
