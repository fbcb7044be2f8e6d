/** The binary quantum instruction decoder of
  * src/1_digital/quantum/tech_ind/q_decoder_bin.cpp. A 32-bit bundle with its top bit
  * set is a VLIW bundle of two operations and a short wait; otherwise bits 30..25 are a
  * single-format opcode: `11x` a wait (QWAIT, or QWAITR when bit 28 is set), `10x` a
  * mask-register write (SMIS, or SMIT when bit 28 is set). */
module QDecoderBin {
  import opened GenericIf

  // ------------------------------------------------------------------ bit fields

  /** Bit 31, `bundle[QISA_WIDTH - 1]`. */
  predicate IsVliw(b: Uint32) { b >= 0x8000_0000 }

  /** Bits 30..25, the single-format opcode `s_op_code`. */
  function SOpcode(b: Uint32): nat { b / 0x200_0000 % 0x40 }

  /** Bits 19..0, the QWAIT time. */
  function QwaitField(b: Uint32): nat { b % 0x10_0000 }

  /** Bits 2..0, the VLIW bundle's wait time. */
  function VliwWaitField(b: Uint32): nat { b % 8 }

  /** Bits 24..20, the mask register of SMIS and SMIT. */
  function SetRegField(b: Uint32): nat { b / 0x10_0000 % 0x20 }

  /** Bits 6..0, the SMIS mask, and bits 15..0, the SMIT mask. */
  function SmisMaskField(b: Uint32): nat { b % 0x80 }
  function SmitMaskField(b: Uint32): nat { b % 0x1_0000 }

  /** The opcode and register of a VLIW lane: lane 0 in bits 30..23 and 22..17, lane 1
    * in bits 16..9 and 8..3. */
  function LaneOpcode(b: Uint32, lane: nat): nat
    requires lane < 2
  {
    if lane == 0 then b / 0x80_0000 % 0x100 else b / 0x200 % 0x100
  }

  function LaneReg(b: Uint32, lane: nat): nat
    requires lane < 2
  {
    if lane == 0 then b / 0x2_0000 % 0x40 else b / 8 % 0x40
  }

  // ------------------------------------------------------------------ classification

  /** What a valid bundle is. */
  datatype Kind = Vliw | Qwait | Qwaitr | Smis | Smit | Ignored

  /** The single-format opcode's top two bits choose wait, mask write or nothing; bit 3
    * chooses between the two forms. */
  function Classify(b: Uint32): Kind
  {
    if IsVliw(b) then Vliw
    else
      var op := SOpcode(b);
      if op / 16 == 3 then (if op / 8 % 2 == 1 then Qwaitr else Qwait)
      else if op / 16 == 2 then (if op / 8 % 2 == 1 then Smit else Smis)
      else Ignored
  }

  /** The wait time a bundle asks for, 0 when it asks for none. */
  function WaitTimeOf(b: Uint32, rsWait: Uint32): Uint32
  {
    match Classify(b)
    case Vliw => VliwWaitField(b)
    case Qwait => QwaitField(b)
    case Qwaitr => rsWait
    case _ => 0
  }

  /** The interface's timing: a WAIT_TIME entry when a wait of more than 0 cycles is
    * requested, the reset timing otherwise. */
  function TimingOf(k: Kind, wait: Uint32): TimingInfo
  {
    if k in {Vliw, Qwait, Qwaitr} && wait > 0 then TimingInfo(WaitTime, wait, 0) else DefaultTiming
  }

  /** The interface `q_pipe_interface.reset()` leaves, with the configured VLIW width. */
  function EmptyInterface(vliwWidth: nat): (r: QPipeInterface)
    ensures r.ifContent == NoContent && r.ops == [] && r.addrsToSet == [] && r.vliwWidth == vliwWidth
  {
    QPipeInterface(NoContent, [], DefaultTiming, DefaultAddrType, [], vliwWidth)
  }

  /** An operation after `Fledged_qop::reset`. The widths of its fields are never
    * changed by the decoder, so every reset gives the same value. */
  const ResetOp := ResetQop(DefaultQop)

  /** Lane `i` of a bundle: lanes 0 and 1 of a VLIW bundle with a non-zero opcode become
    * an opcode operation on the named mask register, addressed as multi-qubit when
    * the opcode's top bit is set; every other lane stays reset. */
  function LaneOp(b: Uint32, validQop: bool, timing: TimingInfo, i: nat): (r: FledgedQop)
    ensures r.IsValid() <==> validQop && i < 2 && LaneOpcode(b, i) != 0
  {
    if validQop && i < 2 && LaneOpcode(b, i) != 0 then
      var m := LaneOpcode(b, i);
      ResetOp.(timing := timing,
               op := ResetOp.op.(repr := ReprOpcode, opcode := AssignUint(ResetOp.op.opcode, m)),
               addr := ResetOp.addr.(addrType := QAddrType(IndirectRegNum, if m >= 0x80 then Multiple else Single),
                                     indirectAddrRegNum := AssignUint(ResetOp.addr.indirectAddrRegNum, LaneReg(b, i))))
    else ResetOp
  }

  /** The address an SMIS or SMIT writes, built on the previous `addr_to_set`: reset,
    * then the type, the register number, and the mask and `somq_width` of the form
    * used. The other form's `somq_width` is whatever an earlier bundle left there. */
  function SetAddr(prev: QTgtAddr, b: Uint32, single: bool): (r: QTgtAddr)
    ensures r.addrType == QAddrType(IndirectRegNum, if single then Single else Multiple)
    ensures r.indirectAddrRegNum == SimUint(SetRegField(b), 64)
    ensures single ==> r.sqOpAddr.mask.value == SmisMaskField(b) && r.sqOpAddr.somqWidth == 7
    ensures !single ==> r.mqOpAddr.mask.value == SmitMaskField(b) && r.mqOpAddr.somqWidth == 16
  {
    var a := ResetTgtAddr(prev).(addrType := QAddrType(IndirectRegNum, if single then Single else Multiple),
                                  indirectAddrRegNum := AssignUint(DefaultSimUint, SetRegField(b)));
    if single then a.(sqOpAddr := a.sqOpAddr.(mask := AssignUint(a.sqOpAddr.mask, SmisMaskField(b)), somqWidth := 7))
    else a.(mqOpAddr := a.mqOpAddr.(mask := AssignUint(a.mqOpAddr.mask, SmitMaskField(b)), somqWidth := 16))
  }

  /** The interface decoded from one valid bundle. */
  function Decoded(vliwWidth: nat, prevAddr: QTgtAddr, b: Uint32, rsWait: Uint32): QPipeInterface
  {
    var k := Classify(b);
    var wait := WaitTimeOf(b, rsWait);
    var timing := TimingOf(k, wait);
    var setAddr := k in {Smis, Smit};
    QPipeInterface(IfContent(timing.timingType == WaitTime, k == Vliw, setAddr),
                   if setAddr then [SetAddr(prevAddr, b, k == Smis)] else [],
                   timing,
                   if setAddr then QAddrType(IndirectRegNum, if k == Smis then Single else Multiple) else DefaultAddrType,
                   seq(vliwWidth, i requires 0 <= i => LaneOp(b, k == Vliw, timing, i)),
                   vliwWidth)
  }

  /** A bundle that is not valid leaves the interface empty apart from its reset ops. */
  function Idle(vliwWidth: nat): QPipeInterface
  {
    EmptyInterface(vliwWidth).(ops := seq(vliwWidth, _ => ResetOp))
  }

  // ------------------------------------------------------------------ the decoder

  class QDecoderBin {
    /** `m_vliw_width`, from the global configuration. */
    const vliwWidth: nat
    /** `addr_to_set`, which `do_output` keeps from one cycle to the next. */
    var addrToSet: QTgtAddr

    constructor (w: nat)
      ensures vliwWidth == w && addrToSet == DefaultTgtAddr
    {
      vliwWidth := w;
      addrToSet := DefaultTgtAddr;
    }

    /** `do_output`, one clock: the interface written to `out_q_pipe_interface`. */
    method DoOutput(reset: bool, validBundle: bool, bundle: Uint32, rsWait: Uint32) returns (out: QPipeInterface)
      modifies this
      ensures reset || !validBundle ==> out == Idle(vliwWidth)
      ensures !reset && validBundle ==> out == Decoded(vliwWidth, old(addrToSet), bundle, rsWait)
      ensures addrToSet == if !reset && validBundle && Classify(bundle) in {Smis, Smit}
                           then SetAddr(old(addrToSet), bundle, Classify(bundle) == Smis) else old(addrToSet)
    {
      out := EmptyInterface(vliwWidth);
      if reset {
        out := out.(ops := seq(vliwWidth, _ => ResetOp));
        return;
      }
      var isValidWait, isValidQop, isValidSetAddr, wrSOrT := false, false, false, false;
      var opWaitTime: Uint32 := 0;
      var regNum := 0;
      if validBundle {
        if IsVliw(bundle) {
          isValidQop, isValidWait := true, true;
          opWaitTime := bundle % 8;
        } else {
          var sOpCode := bundle / 0x200_0000 % 0x40;
          if sOpCode / 16 == 3 {
            isValidWait := true;
            if sOpCode / 8 % 2 == 1 {
              opWaitTime := rsWait;
            } else {
              opWaitTime := bundle % 0x10_0000;
            }
          } else if sOpCode / 16 == 2 {
            isValidSetAddr := true;
            wrSOrT := sOpCode / 8 % 2 != 1;
            regNum := bundle / 0x10_0000 % 0x20;
          }
        }
      }
      if isValidWait && opWaitTime > 0 {
        out := out.(ifContent := out.ifContent.(validWait := true), timing := out.timing.(timingType := WaitTime, waitTime := opWaitTime));
      } else {
        out := out.(ifContent := out.ifContent.(validWait := false));
      }
      out := out.(ifContent := out.ifContent.(validQop := isValidQop, validSetAddr := isValidSetAddr));
      if isValidSetAddr {
        out := out.(addrType := QAddrType(IndirectRegNum, if wrSOrT then Single else Multiple));
        var a := ResetTgtAddr(addrToSet).(addrType := out.addrType, indirectAddrRegNum := AssignUint(DefaultSimUint, regNum));
        if wrSOrT {
          a := a.(sqOpAddr := a.sqOpAddr.(mask := AssignUint(a.sqOpAddr.mask, bundle % 0x80), somqWidth := 7));
        } else {
          a := a.(mqOpAddr := a.mqOpAddr.(mask := AssignUint(a.mqOpAddr.mask, bundle % 0x1_0000), somqWidth := 16));
        }
        addrToSet := a;
        out := out.(addrsToSet := out.addrsToSet + [a]);
      }
      var ops := VliwOps(bundle, isValidQop, out.timing, vliwWidth);
      out := out.(ops := ops);
    }
  }

  /** The lane loop of `do_output`: one operation per lane, `vliw_width` in all. */
  method VliwOps(bundle: Uint32, isValidQop: bool, timing: TimingInfo, n: nat) returns (ops: seq<FledgedQop>)
    ensures ops == seq(n, i requires 0 <= i => LaneOp(bundle, isValidQop, timing, i))
  {
    ops := [];
    var i := 0;
    while i < n
      invariant 0 <= i <= n && |ops| == i
      invariant forall k :: 0 <= k < i ==> ops[k] == LaneOp(bundle, isValidQop, timing, k)
    {
      var op := ResetOp;
      if isValidQop && i < 2 {
        var mOpCode := if i == 0 then bundle / 0x80_0000 % 0x100 else bundle / 0x200 % 0x100;
        if mOpCode != 0 {
          op := op.(timing := timing,
                    op := op.op.(repr := ReprOpcode, opcode := AssignUint(op.op.opcode, mOpCode)),
                    addr := op.addr.(addrType := QAddrType(IndirectRegNum, if mOpCode / 0x80 == 1 then Multiple else Single),
                                     indirectAddrRegNum := AssignUint(op.addr.indirectAddrRegNum,
                                                                      if i == 0 then bundle / 0x2_0000 % 0x40 else bundle / 8 % 0x40)));
        }
      }
      ops := ops + [op];
      i := i + 1;
    }
  }

  // ------------------------------------------------------------------ properties

  /** Every output carries exactly `vliw_width` operations, and only lanes 0 and 1 of a
    * VLIW bundle can hold a valid one. */
  lemma OpsShape(vliwWidth: nat, prevAddr: QTgtAddr, b: Uint32, rsWait: Uint32, i: nat)
    requires i < vliwWidth
    ensures |Decoded(vliwWidth, prevAddr, b, rsWait).ops| == vliwWidth
    ensures |Idle(vliwWidth).ops| == vliwWidth && !Idle(vliwWidth).ops[i].IsValid()
    ensures Decoded(vliwWidth, prevAddr, b, rsWait).ops[i].IsValid() ==> i < 2 && IsVliw(b)
  {
  }

  /** A decoded bundle carries at most one kind of content besides its wait: a VLIW
    * bundle carries operations, a mask write an address, a wait nothing else; and the
    * wait is flagged exactly when a wait of more than 0 cycles is requested. */
  lemma ContentKinds(vliwWidth: nat, prevAddr: QTgtAddr, b: Uint32, rsWait: Uint32)
    ensures var c := Decoded(vliwWidth, prevAddr, b, rsWait).ifContent;
      !(c.validQop && c.validSetAddr) &&
      (c.validQop <==> IsVliw(b)) &&
      (c.validSetAddr <==> Classify(b) in {Smis, Smit}) &&
      (c.validWait <==> Classify(b) in {Vliw, Qwait, Qwaitr} && WaitTimeOf(b, rsWait) > 0)
    ensures var r := Decoded(vliwWidth, prevAddr, b, rsWait);
      r.ifContent.validWait ==> r.timing == TimingInfo(WaitTime, WaitTimeOf(b, rsWait), 0)
    ensures |Decoded(vliwWidth, prevAddr, b, rsWait).addrsToSet| == if Classify(b) in {Smis, Smit} then 1 else 0
  {
  }

  /** `SMIS s8, {3, 5}` is 0x40800028: register 8, single-qubit mask 0x28. */
  lemma SmisExample(vliwWidth: nat, prevAddr: QTgtAddr, rsWait: Uint32)
    ensures Classify(0x40800028) == Smis
    ensures var r := Decoded(vliwWidth, prevAddr, 0x40800028, rsWait);
      r.ifContent == IfContent(false, false, true) && |r.addrsToSet| == 1 &&
      r.addrsToSet[0].indirectAddrRegNum.value == 8 && r.addrsToSet[0].sqOpAddr.mask.value == 0x28 &&
      r.addrsToSet[0].addrType == QAddrType(IndirectRegNum, Single)
  {
    assert SOpcode(0x40800028) == 0x20;
    assert SetRegField(0x40800028) == 8 && SmisMaskField(0x40800028) == 0x28;
  }

  /** `SMIT t2, {(0, 2), (4, 6)}` is 0x50208100: register 2, multi-qubit mask 0x8100. */
  lemma SmitExample(vliwWidth: nat, prevAddr: QTgtAddr, rsWait: Uint32)
    ensures Classify(0x50208100) == Smit
    ensures var r := Decoded(vliwWidth, prevAddr, 0x50208100, rsWait);
      r.ifContent == IfContent(false, false, true) && |r.addrsToSet| == 1 &&
      r.addrsToSet[0].indirectAddrRegNum.value == 2 && r.addrsToSet[0].mqOpAddr.mask.value == 0x8100 &&
      r.addrsToSet[0].addrType == QAddrType(IndirectRegNum, Multiple)
  {
    assert SOpcode(0x50208100) == 0x28;
    assert SetRegField(0x50208100) == 2 && SmitMaskField(0x50208100) == 0x8100;
  }

  /** `QWAIT 10` is 0x6000000a, and `QWAITR` 0x70000000 takes its time from the register
    * operand. */
  lemma WaitExamples(vliwWidth: nat, prevAddr: QTgtAddr, rsWait: Uint32)
    ensures Decoded(vliwWidth, prevAddr, 0x6000000a, rsWait).timing == TimingInfo(WaitTime, 10, 0)
    ensures Decoded(vliwWidth, prevAddr, 0x6000000a, rsWait).ifContent == IfContent(true, false, false)
    ensures Classify(0x70000000) == Qwaitr && WaitTimeOf(0x70000000, rsWait) == rsWait
    ensures Decoded(vliwWidth, prevAddr, 0x70000000, rsWait).ifContent.validWait <==> rsWait > 0
  {
    assert SOpcode(0x6000000a) == 0x30 && QwaitField(0x6000000a) == 10;
    assert SOpcode(0x70000000) == 0x38;
  }

  /** `bs 1 H s8` is 0x80000241: lane 0 holds no operation, lane 1 opcode 1 on register 8,
    * and the bundle waits 1 cycle. */
  lemma VliwExample(vliwWidth: nat, prevAddr: QTgtAddr, rsWait: Uint32)
    requires vliwWidth >= 2
    ensures var r := Decoded(vliwWidth, prevAddr, 0x80000241, rsWait);
      r.ifContent == IfContent(true, true, false) && r.timing == TimingInfo(WaitTime, 1, 0) &&
      !r.ops[0].IsValid() && r.ops[1].IsValid() &&
      r.ops[1].op.opcode.value == 1 && r.ops[1].addr.indirectAddrRegNum.value == 8 &&
      r.ops[1].addr.addrType == QAddrType(IndirectRegNum, Single) && r.ops[1].timing == r.timing
  {
    assert LaneOpcode(0x80000241, 0) == 0 && LaneOpcode(0x80000241, 1) == 1;
    assert LaneReg(0x80000241, 1) == 8 && VliwWaitField(0x80000241) == 1;
  }

  /** `bs 0 CZ_1 t2` is 0x80010010: lane 1 holds the two-qubit opcode 0x80 on register 2,
    * addressed as multi-qubit, and with no wait the bundle carries no timing. */
  lemma TwoQubitExample(vliwWidth: nat, prevAddr: QTgtAddr, rsWait: Uint32)
    requires vliwWidth >= 2
    ensures var r := Decoded(vliwWidth, prevAddr, 0x80010010, rsWait);
      r.ifContent == IfContent(false, true, false) && r.timing == DefaultTiming &&
      r.ops[1].op.opcode.value == 0x80 && r.ops[1].addr.indirectAddrRegNum.value == 2 &&
      r.ops[1].addr.addrType == QAddrType(IndirectRegNum, Multiple)
  {
    assert LaneOpcode(0x80010010, 0) == 0 && LaneOpcode(0x80010010, 1) == 0x80;
    assert LaneReg(0x80010010, 1) == 2 && VliwWaitField(0x80010010) == 0;
  }
}
