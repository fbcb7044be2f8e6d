/** The assembly quantum instruction decoder of
  * src/1_digital/quantum/tech_ind/q_decoder_asm.cpp. It takes an instruction whose
  * quantum fields the parser has filled in and produces the interface the quantum
  * pipeline consumes: a wait, a bundle of named operations, or a mask-register write. */
module QDecoderAsm {
  import opened Wrappers
  import opened GenericIf
  import Q = QasmInstruction
  import QDecoderBin

  /** `m_vliw_width` reset operations. */
  function ResetOps(n: nat): (r: seq<FledgedQop>)
    ensures |r| == n && forall i :: 0 <= i < n ==> r[i] == QDecoderBin.ResetOp && !r[i].IsValid()
  {
    seq(n, _ => QDecoderBin.ResetOp)
  }

  /** The interface of a cycle with nothing to decode: `set_nop`. */
  function Nop(vliwWidth: nat): QPipeInterface
  {
    QDecoderBin.EmptyInterface(vliwWidth).(ops := ResetOps(vliwWidth))
  }

  /** The wait an instruction asks for: the register value for QWAITR, the time written
    * in the instruction otherwise (an `unsigned int`). */
  function WaitOf(q: Q.Quantum, rsWait: Uint32): Uint32
  {
    if q.qInsnType == Q.QWaitr then rsWait else q.qTimeSpecified % Uint32Modulus
  }

  /** The interface timing: a WAIT_TIME entry for a wait of more than 0 cycles, the reset
    * timing otherwise. */
  function WaitTiming(wait: Uint32): TimingInfo
  {
    if wait > 0 then TimingInfo(WaitTime, wait, 0) else DefaultTiming
  }

  /** What the decoder indexes without checking: the register of SMIS and SMIT, and the
    * type and register of every operation of a bundle that fits the VLIW width. The
    * parser fills these vectors together. */
  predicate Indexable(q: Q.Quantum, vliwWidth: nat)
  {
    (q.qInsnType in {Q.QSmis, Q.QSmit} ==> |q.qRegNum| >= 1) &&
    (q.qInsnType == Q.QOp && |q.qOpName| <= vliwWidth ==>
       |q.qRegNum| >= |q.qOpName| && |q.qNumTgtQubitsType| >= |q.qOpName|)
  }

  /** The address SMIS or SMIT writes: a default address, indirect through the named
    * mask register, carrying the qubit list (SMIS) or pair list (SMIT) and the number
    * of qubits as its width. */
  function AsmSetAddr(q: Q.Quantum, numQubits: nat, single: bool): (r: QTgtAddr)
    requires |q.qRegNum| >= 1
    ensures r.addrType == QAddrType(IndirectRegContent, if single then Single else Multiple)
    ensures r.indirectAddrRegNum == AssignUint(DefaultSimUint, q.qRegNum[0])
    ensures single ==> r.sqOpAddr.qubitIndices == q.qQubitIndices && r.sqOpAddr.somqWidth == numQubits &&
                       r.mqOpAddr == DefaultTgtAddr.mqOpAddr
    ensures !single ==> r.mqOpAddr.qubitTuples == q.qQubitTuples && r.mqOpAddr.somqWidth == numQubits &&
                        r.sqOpAddr == DefaultTgtAddr.sqOpAddr
  {
    var a := DefaultTgtAddr.(addrType := QAddrType(IndirectRegContent, if single then Single else Multiple),
                             indirectAddrRegNum := AssignUint(DefaultSimUint, q.qRegNum[0]));
    if single then a.(sqOpAddr := a.sqOpAddr.(qubitIndices := q.qQubitIndices, somqWidth := numQubits))
    else a.(mqOpAddr := a.mqOpAddr.(qubitTuples := q.qQubitTuples, somqWidth := numQubits))
  }

  /** Operation `i` of a bundle: named, timed as the interface is, addressed through the
    * mask register the instruction names for it. */
  function AsmOp(q: Q.Quantum, timing: TimingInfo, i: nat): (r: FledgedQop)
    requires i < |q.qOpName| && i < |q.qRegNum| && i < |q.qNumTgtQubitsType|
    ensures r.IsValid()
  {
    DefaultQop.(timing := timing,
                op := DefaultQop.op.(repr := ReprName, name := q.qOpName[i]),
                addr := DefaultQop.addr.(addrType := QAddrType(IndirectRegContent, q.qNumTgtQubitsType[i]),
                                         indirectAddrRegNum := AssignUint(DefaultSimUint, q.qRegNum[i])))
  }

  /** The operations of a bundle of `|qOpName|` operations, padded with reset ones. */
  function BundleOps(q: Q.Quantum, timing: TimingInfo, vliwWidth: nat): (r: seq<FledgedQop>)
    requires |q.qOpName| <= vliwWidth && |q.qRegNum| >= |q.qOpName| && |q.qNumTgtQubitsType| >= |q.qOpName|
    ensures |r| == vliwWidth
  {
    seq(vliwWidth, i requires 0 <= i < vliwWidth =>
          if i < |q.qOpName| then AsmOp(q, timing, i) else QDecoderBin.ResetOp)
  }

  /** `set_wait`: the wait of QWAIT or QWAITR, and reset operations. */
  function WaitInterface(q: Q.Quantum, rsWait: Uint32, vliwWidth: nat): QPipeInterface
  {
    var timing := WaitTiming(WaitOf(q, rsWait));
    QPipeInterface(IfContent(timing.timingType == WaitTime, false, false), [], timing,
                   DefaultAddrType, ResetOps(vliwWidth), vliwWidth)
  }

  /** `set_smis` (`single`) and `set_smit`: the address to write, and reset operations. */
  function MaskInterface(q: Q.Quantum, numQubits: nat, single: bool, vliwWidth: nat): QPipeInterface
    requires |q.qRegNum| >= 1
  {
    QPipeInterface(IfContent(false, false, true), [AsmSetAddr(q, numQubits, single)], DefaultTiming,
                   QAddrType(IndirectRegContent, if single then Single else Multiple), ResetOps(vliwWidth), vliwWidth)
  }

  /** `set_qop`: the bundle's wait and operations, or the abort for a bundle of more
    * operations than the VLIW width. */
  function QopInterface(q: Q.Quantum, vliwWidth: nat): Result<QPipeInterface, string>
    requires q.qInsnType == Q.QOp && Indexable(q, vliwWidth)
  {
    var timing := WaitTiming(WaitOf(q, 0));
    if |q.qOpName| > vliwWidth then Failure("too many operations")
    else Success(QPipeInterface(IfContent(timing.timingType == WaitTime, true, false), [], timing,
                                DefaultAddrType, BundleOps(q, timing, vliwWidth), vliwWidth))
  }

  /** `set_q_insn`: the interface for one parsed instruction. */
  function Decode(vliwWidth: nat, numQubits: nat, q: Q.Quantum, rsWait: Uint32): Result<QPipeInterface, string>
    requires Indexable(q, vliwWidth)
  {
    match q.qInsnType
    case QOp => QopInterface(q, vliwWidth)
    case QWait => Success(WaitInterface(q, rsWait, vliwWidth))
    case QWaitr => Success(WaitInterface(q, rsWait, vliwWidth))
    case QSmis => Success(MaskInterface(q, numQubits, true, vliwWidth))
    case QSmit => Success(MaskInterface(q, numQubits, false, vliwWidth))
    case _ => Success(Nop(vliwWidth))
  }

  // ------------------------------------------------------------------ properties

  /** The decoder aborts exactly on a bundle wider than the VLIW width; every interface
    * it produces carries exactly `vliwWidth` operations and at most one of an operation
    * bundle and a mask write. */
  lemma DecodeShape(vliwWidth: nat, numQubits: nat, q: Q.Quantum, rsWait: Uint32)
    requires Indexable(q, vliwWidth)
    ensures Decode(vliwWidth, numQubits, q, rsWait).Failure? <==> q.qInsnType == Q.QOp && |q.qOpName| > vliwWidth
    ensures Decode(vliwWidth, numQubits, q, rsWait).Success? ==>
      var r := Decode(vliwWidth, numQubits, q, rsWait).value;
      |r.ops| == vliwWidth && r.vliwWidth == vliwWidth &&
      !(r.ifContent.validQop && r.ifContent.validSetAddr) &&
      (r.ifContent.validSetAddr <==> q.qInsnType in {Q.QSmis, Q.QSmit}) &&
      (r.ifContent.validQop <==> q.qInsnType == Q.QOp) &&
      |r.addrsToSet| == (if r.ifContent.validSetAddr then 1 else 0)
  {
  }

  /** A wait, QWAIT, QWAITR or the wait attached to a bundle, is reported exactly when it
    * is more than 0 cycles, with its length in the timing; a mask write or a
    * non-quantum instruction carries no wait. */
  lemma DecodeWait(vliwWidth: nat, numQubits: nat, q: Q.Quantum, rsWait: Uint32)
    requires Indexable(q, vliwWidth)
    requires Decode(vliwWidth, numQubits, q, rsWait).Success?
    ensures var r := Decode(vliwWidth, numQubits, q, rsWait).value;
      (r.ifContent.validWait <==> q.qInsnType in {Q.QOp, Q.QWait, Q.QWaitr} && WaitOf(q, rsWait) > 0) &&
      (r.ifContent.validWait ==> r.timing == TimingInfo(WaitTime, WaitOf(q, rsWait), 0)) &&
      (!r.ifContent.validWait ==> r.timing == DefaultTiming)
    ensures q.qInsnType == Q.QWaitr ==> WaitOf(q, rsWait) == rsWait
  {
  }

  /** Lane `i` of a decoded bundle is valid exactly when the bundle names an operation
    * for it; that operation carries the `i`-th name, target type and mask register, and
    * the interface's timing. */
  lemma DecodeBundleOps(vliwWidth: nat, numQubits: nat, q: Q.Quantum, rsWait: Uint32, i: nat)
    requires Indexable(q, vliwWidth)
    requires Decode(vliwWidth, numQubits, q, rsWait).Success? && i < vliwWidth
    ensures var r := Decode(vliwWidth, numQubits, q, rsWait).value;
      (r.ops[i].IsValid() <==> q.qInsnType == Q.QOp && i < |q.qOpName|) &&
      (r.ops[i].IsValid() ==>
        r.ops[i].op.repr == ReprName && r.ops[i].op.name == q.qOpName[i] &&
        r.ops[i].addr.addrType == QAddrType(IndirectRegContent, q.qNumTgtQubitsType[i]) &&
        r.ops[i].addr.indirectAddrRegNum.value == q.qRegNum[i] % Uint32Modulus &&
        r.ops[i].timing == r.timing)
  {
    var r := Decode(vliwWidth, numQubits, q, rsWait).value;
    if q.qInsnType == Q.QOp {
      assert r.ops == BundleOps(q, r.timing, vliwWidth);
      if i < |q.qOpName| {
        assert r.ops[i] == AsmOp(q, r.timing, i);
      } else {
        assert r.ops[i] == QDecoderBin.ResetOp;
      }
    } else {
      assert r.ops == ResetOps(vliwWidth);
    }
  }

  /** A mask write names its register and carries the qubits (SMIS) or pairs (SMIT) the
    * instruction lists, with the number of qubits as the mask width. */
  lemma DecodeSetAddr(vliwWidth: nat, numQubits: nat, q: Q.Quantum, rsWait: Uint32)
    requires Indexable(q, vliwWidth) && q.qInsnType in {Q.QSmis, Q.QSmit}
    ensures var r := Decode(vliwWidth, numQubits, q, rsWait).value;
      var a := r.addrsToSet[0];
      r.addrType == a.addrType && a.indirectAddrRegNum.value == q.qRegNum[0] % Uint32Modulus &&
      (q.qInsnType == Q.QSmis ==> a.addrType.qNumType == Single && a.sqOpAddr.qubitIndices == q.qQubitIndices &&
                                  a.sqOpAddr.somqWidth == numQubits) &&
      (q.qInsnType == Q.QSmit ==> a.addrType.qNumType == Multiple && a.mqOpAddr.qubitTuples == q.qQubitTuples &&
                                  a.mqOpAddr.somqWidth == numQubits)
  {
  }

  /** The two decoders agree on waits: QWAIT with a time below 2^20, and QWAITR, decode
    * to the interface the binary decoder produces for the corresponding encoding. */
  lemma WaitAgreesWithBinary(vliwWidth: nat, numQubits: nat, q: Q.Quantum, rsWait: Uint32,
                             prevAddr: QTgtAddr)
    requires q.qInsnType in {Q.QWait, Q.QWaitr} && q.qTimeSpecified < 0x10_0000
    ensures var b: Uint32 := if q.qInsnType == Q.QWait then 0x6000_0000 + q.qTimeSpecified else 0x7000_0000;
      Decode(vliwWidth, numQubits, q, rsWait) == Success(QDecoderBin.Decoded(vliwWidth, prevAddr, b, rsWait))
  {
    var b: Uint32 := if q.qInsnType == Q.QWait then 0x6000_0000 + q.qTimeSpecified else 0x7000_0000;
    assert QDecoderBin.SOpcode(b) == if q.qInsnType == Q.QWait then 0x30 else 0x38;
    assert q.qInsnType == Q.QWait ==> QDecoderBin.QwaitField(b) == q.qTimeSpecified;
    var d := QDecoderBin.Decoded(vliwWidth, prevAddr, b, rsWait);
    assert d.ops == ResetOps(vliwWidth);
  }

  // ------------------------------------------------------------------ the decoder

  class QDecoderAsm {
    /** `m_vliw_width` and `m_num_qubits`, from the global configuration. */
    const vliwWidth: nat
    const numQubits: nat

    constructor (w: nat, n: nat)
      ensures vliwWidth == w && numQubits == n
    {
      vliwWidth, numQubits := w, n;
    }

    /** `output`, one clock: reset and an invalid bundle give the no-operation interface;
      * a valid one is decoded, and a decoding error aborts the simulation. `q` holds the
      * quantum fields `parse_q_insn` filled in. */
    method Output(reset: bool, validBundle: bool, q: Q.Quantum, rsWait: Uint32)
      returns (r: Result<QPipeInterface, string>)
      requires Indexable(q, vliwWidth)
      ensures reset || !validBundle ==> r == Success(Nop(vliwWidth))
      ensures !reset && validBundle ==> r == Decode(vliwWidth, numQubits, q, rsWait)
    {
      var iface := QDecoderBin.EmptyInterface(vliwWidth);
      if reset || !validBundle {
        var ops := PadWithResetOps([], vliwWidth);
        assert ops == ResetOps(vliwWidth);
        return Success(iface.(ops := ops));
      }
      match q.qInsnType
      case QOp =>
        r := SetQop(iface, q, vliwWidth);
      case QWait =>
        var i := SetWait(iface, q, rsWait, vliwWidth);
        r := Success(i);
      case QWaitr =>
        var i := SetWait(iface, q, rsWait, vliwWidth);
        r := Success(i);
      case QSmis =>
        var i := SetMask(iface, q, numQubits, true, vliwWidth);
        r := Success(i);
      case QSmit =>
        var i := SetMask(iface, q, numQubits, false, vliwWidth);
        r := Success(i);
      case _ =>
        var ops := PadWithResetOps([], vliwWidth);
        assert ops == ResetOps(vliwWidth);
        r := Success(iface.(ops := ops));
    }
  }

  /** The loop every `set_*` ends with: reset operations up to the VLIW width. */
  method PadWithResetOps(ops: seq<FledgedQop>, vliwWidth: nat) returns (r: seq<FledgedQop>)
    requires |ops| <= vliwWidth
    ensures r == ops + ResetOps(vliwWidth - |ops|)
  {
    r := ops;
    var i := |ops|;
    while i < vliwWidth
      invariant |ops| <= i <= vliwWidth && |r| == i
      invariant r == ops + ResetOps(i - |ops|)
    {
      r := r + [QDecoderBin.ResetOp];
      i := i + 1;
    }
  }

  /** `set_wait` on a freshly reset interface. */
  method SetWait(iface: QPipeInterface, q: Q.Quantum, rsWait: Uint32, vliwWidth: nat) returns (r: QPipeInterface)
    requires iface == QDecoderBin.EmptyInterface(vliwWidth) && q.qInsnType in {Q.QWait, Q.QWaitr}
    ensures r == WaitInterface(q, rsWait, vliwWidth)
  {
    var waitTime: Uint32;
    if q.qInsnType == Q.QWaitr {
      waitTime := rsWait;
    } else {
      waitTime := q.qTimeSpecified % Uint32Modulus;
    }
    r := iface.(ifContent := iface.ifContent.(validQop := false, validSetAddr := false));
    if waitTime > 0 {
      r := r.(ifContent := r.ifContent.(validWait := true),
              timing := r.timing.(timingType := WaitTime, waitTime := waitTime));
    } else {
      r := r.(ifContent := r.ifContent.(validWait := false));
    }
    var ops := PadWithResetOps(r.ops, vliwWidth);
    assert ops == ResetOps(vliwWidth);
    r := r.(ops := ops);
  }

  /** `set_smis` (`single`) and `set_smit` on a freshly reset interface. */
  method SetMask(iface: QPipeInterface, q: Q.Quantum, numQubits: nat, single: bool, vliwWidth: nat)
    returns (r: QPipeInterface)
    requires iface == QDecoderBin.EmptyInterface(vliwWidth) && |q.qRegNum| >= 1
    requires q.qInsnType == if single then Q.QSmis else Q.QSmit
    ensures r == MaskInterface(q, numQubits, single, vliwWidth)
  {
    r := iface.(ifContent := IfContent(false, false, true),
                addrType := QAddrType(IndirectRegContent, if single then Single else Multiple));
    var addr := DefaultTgtAddr.(addrType := r.addrType, indirectAddrRegNum := AssignUint(DefaultSimUint, q.qRegNum[0]));
    if single {
      addr := addr.(sqOpAddr := addr.sqOpAddr.(qubitIndices := q.qQubitIndices, somqWidth := numQubits));
    } else {
      addr := addr.(mqOpAddr := addr.mqOpAddr.(qubitTuples := q.qQubitTuples, somqWidth := numQubits));
    }
    r := r.(addrsToSet := r.addrsToSet + [addr]);
    var ops := PadWithResetOps(r.ops, vliwWidth);
    assert ops == ResetOps(vliwWidth);
    r := r.(ops := ops);
  }

  /** `set_qop` on a freshly reset interface: the timing, the abort for a bundle wider
    * than the VLIW width, one operation per name, then the padding. */
  method SetQop(iface: QPipeInterface, q: Q.Quantum, vliwWidth: nat) returns (r: Result<QPipeInterface, string>)
    requires iface == QDecoderBin.EmptyInterface(vliwWidth) && q.qInsnType == Q.QOp && Indexable(q, vliwWidth)
    ensures r == QopInterface(q, vliwWidth)
  {
    var waitTime: Uint32 := q.qTimeSpecified % Uint32Modulus;
    var i := iface.(ifContent := iface.ifContent.(validQop := true, validSetAddr := false));
    if waitTime > 0 {
      i := i.(ifContent := i.ifContent.(validWait := true),
              timing := i.timing.(timingType := WaitTime, waitTime := waitTime));
    } else {
      i := i.(ifContent := i.ifContent.(validWait := false));
    }
    if |q.qOpName| > vliwWidth {
      return Failure("too many operations");
    }
    var ops := NamedOps(q, i.timing);
    ops := PadWithResetOps(ops, vliwWidth);
    assert ops == BundleOps(q, i.timing, vliwWidth);
    r := Success(i.(ops := ops));
  }

  /** The loop of `set_qop` over the operation names. */
  method NamedOps(q: Q.Quantum, timing: TimingInfo) returns (ops: seq<FledgedQop>)
    requires |q.qRegNum| >= |q.qOpName| && |q.qNumTgtQubitsType| >= |q.qOpName|
    ensures |ops| == |q.qOpName|
    ensures forall k :: 0 <= k < |ops| ==> ops[k] == AsmOp(q, timing, k)
  {
    ops := [];
    var k := 0;
    while k < |q.qOpName|
      invariant 0 <= k <= |q.qOpName| && |ops| == k
      invariant forall j :: 0 <= j < k ==> ops[j] == AsmOp(q, timing, j)
    {
      var op := DefaultQop.(timing := timing);
      op := op.(op := op.op.(repr := ReprName, name := q.qOpName[k]));
      op := op.(addr := op.addr.(addrType := QAddrType(IndirectRegContent, q.qNumTgtQubitsType[k]),
                                 indirectAddrRegNum := AssignUint(op.addr.indirectAddrRegNum, q.qRegNum[k])));
      ops := ops + [op];
      k := k + 1;
    }
  }
}
