/** The technology-independent front of the quantum pipeline,
  * src/1_digital/quantum/tech_ind/q_tech_ind.cpp: it chooses the instruction decoder,
  * turns every wait into a numbered timing point, and hands operation `i` of each
  * decoded bundle to VLIW lane `i`. */
module QTechInd {
  import opened Wrappers
  import opened GenericIf
  import Q = QasmInstruction
  import ConfigReader
  import QDecoderBin
  import QDecoderAsm

  // ------------------------------------------------------------------ the decoder

  datatype DecoderKind = BinDecoder | AsmDecoder

  /** The constructor instantiates the binary decoder for binary instructions and the
    * assembly decoder otherwise. */
  function DecoderFor(t: ConfigReader.InstructionType): DecoderKind
  {
    if t == ConfigReader.Bin then BinDecoder else AsmDecoder
  }

  /** One cycle of the chosen decoder on a valid bundle, which carries both the binary
    * word and the parsed quantum fields. */
  function DecodeBundle(t: ConfigReader.InstructionType, vliwWidth: nat, numQubits: nat, prevAddr: QTgtAddr,
                        bin: Uint32, q: Q.Quantum, rsWait: Uint32): Result<QPipeInterface, string>
    requires QDecoderAsm.Indexable(q, vliwWidth)
  {
    match DecoderFor(t)
    case BinDecoder => Success(QDecoderBin.Decoded(vliwWidth, prevAddr, bin, rsWait))
    case AsmDecoder => QDecoderAsm.Decode(vliwWidth, numQubits, q, rsWait)
  }

  /** Whichever decoder is configured, a bundle it accepts fills exactly the VLIW lanes,
    * so the distribution below never indexes past them; only the assembly decoder can
    * refuse a bundle. */
  lemma DecodersFillEveryLane(t: ConfigReader.InstructionType, vliwWidth: nat, numQubits: nat, prevAddr: QTgtAddr,
                              bin: Uint32, q: Q.Quantum, rsWait: Uint32)
    requires QDecoderAsm.Indexable(q, vliwWidth)
    ensures var r := DecodeBundle(t, vliwWidth, numQubits, prevAddr, bin, q, rsWait);
      (r.Failure? ==> t == ConfigReader.Asm) &&
      (r.Success? ==> |r.value.ops| == vliwWidth && r.value.vliwWidth == vliwWidth)
  {
    if t != ConfigReader.Bin {
      QDecoderAsm.DecodeShape(vliwWidth, numQubits, q, rsWait);
    }
  }

  // ------------------------------------------------------------------ timing points

  /** The timing after reset: a timing point with no wait and label 0. */
  const ResetTiming := TimingInfo(TimingPoint, 0, 0)

  /** The timing the stage keeps after one interface: a valid wait, which must be a
    * WAIT_TIME, opens the next timing point with its wait and the next label (an
    * `unsigned int`); any other kind of wait aborts; no wait keeps the timing. */
  function NextTiming(cur: TimingInfo, i: QPipeInterface): Result<TimingInfo, string>
  {
    if !i.ifContent.validWait then Success(cur)
    else if i.timing.timingType == WaitTime then
      Success(TimingInfo(TimingPoint, i.timing.waitTime, (cur.timingLabel + 1) % Uint32Modulus))
    else Failure("bad timing type")
  }

  /** The timing after a run of interfaces, or the first abort. */
  function TimingAfter(cur: TimingInfo, ins: seq<QPipeInterface>): Result<TimingInfo, string>
    decreases |ins|
  {
    if ins == [] then Success(cur)
    else match NextTiming(cur, ins[0])
      case Success(t) => TimingAfter(t, ins[1..])
      case Failure(e) => Failure(e)
  }

  /** The number of interfaces in a run that carry a wait. */
  function WaitCount(ins: seq<QPipeInterface>): nat
  {
    if ins == [] then 0 else (if ins[0].ifContent.validWait then 1 else 0) + WaitCount(ins[1..])
  }

  predicate WaitsAreWaitTimes(ins: seq<QPipeInterface>)
  {
    forall k :: 0 <= k < |ins| && ins[k].ifContent.validWait ==> ins[k].timing.timingType == WaitTime
  }

  /** Timing points are numbered consecutively: after a run whose waits are all
    * WAIT_TIME the label has advanced by the number of waits, modulo 2^32, and the
    * timing is still a timing point. A run with a wait of another kind aborts. */
  lemma {:induction false} LabelsCountWaits(cur: TimingInfo, ins: seq<QPipeInterface>)
    requires cur.timingType == TimingPoint && cur.timingLabel < Uint32Modulus
    ensures TimingAfter(cur, ins).Success? <==> WaitsAreWaitTimes(ins)
    ensures TimingAfter(cur, ins).Success? ==>
      TimingAfter(cur, ins).value.timingType == TimingPoint &&
      TimingAfter(cur, ins).value.timingLabel == (cur.timingLabel + WaitCount(ins)) % Uint32Modulus
    decreases |ins|
  {
    if ins != [] {
      var rest := ins[1..];
      assert WaitsAreWaitTimes(ins) <==>
        (ins[0].ifContent.validWait ==> ins[0].timing.timingType == WaitTime) && WaitsAreWaitTimes(rest) by {
        if WaitsAreWaitTimes(ins) {
          forall k | 0 <= k < |rest| && rest[k].ifContent.validWait
            ensures rest[k].timing.timingType == WaitTime
          {
            assert rest[k] == ins[k + 1];
          }
        }
        if (ins[0].ifContent.validWait ==> ins[0].timing.timingType == WaitTime) && WaitsAreWaitTimes(rest) {
          forall k | 0 <= k < |ins| && ins[k].ifContent.validWait
            ensures ins[k].timing.timingType == WaitTime
          {
            if k > 0 {
              assert ins[k] == rest[k - 1];
            }
          }
        }
      }
      match NextTiming(cur, ins[0])
      case Success(t) =>
        LabelsCountWaits(t, rest);
        var c := if ins[0].ifContent.validWait then 1 else 0;
        assert t.timingLabel == (cur.timingLabel + c) % Uint32Modulus;
        ModAddAssoc(cur.timingLabel + c, WaitCount(rest));
      case Failure(_) =>
    }
  }

  lemma ModAddAssoc(x: nat, y: nat)
    ensures (x % Uint32Modulus + y) % Uint32Modulus == (x + y) % Uint32Modulus
  {
    var q := x / Uint32Modulus;
    assert x == Uint32Modulus * q + x % Uint32Modulus;
    assert x + y == Uint32Modulus * q + (x % Uint32Modulus + y);
  }

  // ------------------------------------------------------------------ lane distribution

  /** What lane `i` receives: the decoded interface with the stage's timing in place of
    * its own, and operation `i` as its only operation. */
  function LaneInterface(i: QPipeInterface, timing: TimingInfo, lane: nat): (r: QPipeInterface)
    requires lane < |i.ops|
    ensures r.ops == [i.ops[lane]] && r.timing == timing
    ensures r.ifContent == i.ifContent && r.addrsToSet == i.addrsToSet && r.addrType == i.addrType &&
            r.vliwWidth == i.vliwWidth
  {
    i.(timing := timing, ops := [i.ops[lane]])
  }

  /** The lane signals after one cycle: lanes with an operation in the interface are
    * written; the others keep what they last held. */
  function Distribute(lanes: seq<QPipeInterface>, i: QPipeInterface, timing: TimingInfo): (r: seq<QPipeInterface>)
    requires |i.ops| <= |lanes|
    ensures |r| == |lanes|
    ensures forall k :: 0 <= k < |r| ==> r[k] == if k < |i.ops| then LaneInterface(i, timing, k) else lanes[k]
  {
    seq(|lanes|, k requires 0 <= k < |lanes| => if k < |i.ops| then LaneInterface(i, timing, k) else lanes[k])
  }

  /** `n` copies of one interface. */
  function Fill(n: nat, i: QPipeInterface): (r: seq<QPipeInterface>)
    ensures |r| == n && forall k :: 0 <= k < n ==> r[k] == i
  {
    seq(n, _ => i)
  }

  class QTechInd {
    /** `m_vliw_width`, from the global configuration. */
    const vliwWidth: nat
    /** `current_timing`. */
    var currentTiming: TimingInfo
    /** `tmp_in_q_pipe_interface`, which `do_output` keeps across cycles. */
    var tmpIn: QPipeInterface
    /** `vec_vliw_in_pipe_sig`. */
    var lanes: seq<QPipeInterface>

    predicate Valid()
      reads this
    {
      |lanes| == vliwWidth
    }

    /** The timing starts at its default; the lane signals and the thread's interface
      * start default-constructed. */
    constructor (w: nat, init: QPipeInterface)
      ensures Valid() && vliwWidth == w && currentTiming == DefaultTiming
      ensures tmpIn == init && lanes == Fill(w, init)
    {
      vliwWidth := w;
      currentTiming := DefaultTiming;
      tmpIn := init;
      lanes := Fill(w, init);
    }

    /** `do_output`, one clock. On reset the timing returns to label 0 and every lane
      * receives the emptied interface; otherwise the decoded interface updates the
      * timing and is distributed over the lanes, or the simulation aborts. */
    method DoOutput(reset: bool, decoded: QPipeInterface) returns (r: Result<(), string>)
      requires Valid() && (!reset ==> |decoded.ops| <= vliwWidth)
      modifies this
      ensures Valid()
      ensures reset ==> r.Success? && currentTiming == ResetTiming &&
                        tmpIn == ResetInterface(old(tmpIn)) && lanes == Fill(vliwWidth, ResetInterface(old(tmpIn)))
      ensures !reset ==> (r.Success? <==> NextTiming(old(currentTiming), decoded).Success?)
      ensures !reset && r.Success? ==>
                currentTiming == NextTiming(old(currentTiming), decoded).value && tmpIn == decoded &&
                lanes == Distribute(old(lanes), decoded, currentTiming)
    {
      tmpIn := ResetInterface(tmpIn);
      if !reset {
        tmpIn := decoded;
        if decoded.ifContent.validWait {
          if decoded.timing.timingType == WaitTime {
            currentTiming := TimingInfo(TimingPoint, decoded.timing.waitTime, (currentTiming.timingLabel + 1) % Uint32Modulus);
          } else {
            return Failure("bad timing type");
          }
        }
        var out := decoded.(timing := currentTiming);
        var ls := lanes;
        var k := 0;
        while k < |decoded.ops|
          invariant 0 <= k <= |decoded.ops| && |ls| == vliwWidth
          invariant forall j :: 0 <= j < vliwWidth ==>
            ls[j] == if j < k then LaneInterface(decoded, currentTiming, j) else lanes[j]
        {
          ls := ls[k := out.(ops := [decoded.ops[k]])];
          k := k + 1;
        }
        lanes := ls;
      } else {
        currentTiming := ResetTiming;
        lanes := Fill(vliwWidth, tmpIn);
      }
      r := Success(());
    }
  }

  /** Lane `k` after a cycle that wrote it holds exactly operation `k` of the bundle
    * under the stage's timing, and nothing else of the bundle's operations. */
  lemma LaneCarriesItsOperation(lanes: seq<QPipeInterface>, i: QPipeInterface, timing: TimingInfo, k: nat)
    requires |i.ops| <= |lanes| && k < |i.ops|
    ensures var l := Distribute(lanes, i, timing)[k];
      |l.ops| == 1 && l.ops[0] == i.ops[k] && l.timing == timing && l.ifContent == i.ifContent
  {
  }
}
