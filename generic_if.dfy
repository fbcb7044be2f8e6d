/** The generic pipeline interface of src/0_core/generic_if.h: operations, target
  * addresses, timing and the interface record passed between quantum pipeline stages. */
module GenericIf {

  /** A C++ `unsigned int`. */
  type Uint32 = x: int | 0 <= x < 0x1_0000_0000

  const Uint32Modulus := 0x1_0000_0000

  // ------------------------------------------------------------------ Sim_uint

  /** `Sim_uint`: an unsigned value tagged with a bit width. */
  datatype SimUint = SimUint(value: nat, width: nat)

  /** `Sim_uint()`: value 0 with the default width 64. */
  const DefaultSimUint := SimUint(0, 64)

  /** `Sim_uint(size_t width)`: value 0 with the given width. The constructor is not
    * `explicit`, so a bare integer compared with a `Sim_uint` goes through it. */
  function SimUintOfWidth(w: nat): (r: SimUint)
    ensures r.value == 0 && r.width == w
  {
    SimUint(0, w)
  }

  /** `operator=(unsigned int)`: replaces the value (truncated to 32 bits) and keeps the width. */
  function AssignUint(x: SimUint, v: int): (r: SimUint)
    ensures r.width == x.width && r.value == v % Uint32Modulus
  {
    SimUint(v % Uint32Modulus, x.width)
  }

  /** `operator==`: equal value and equal width. */
  function SimUintEq(a: SimUint, b: SimUint): (r: bool)
    ensures r <==> a == b
  {
    a.value == b.value && a.width == b.width
  }

  // ------------------------------------------------------------------ Bare_qop

  /** `bare_qop_type`: the handler or content that represents an operation. */
  datatype ReprType = ReprUndef | ReprName | ReprOpcode | ReprCodeword | ReprMatrix | ReprPulse

  /** `Bare_qop`: an operation without address or timing. Pulse samples and matrix
    * rows are kept as sequences of reals. */
  datatype BareQop = BareQop(repr: ReprType, name: string, opcode: SimUint, codeword: SimUint,
                             pulse: seq<real>, matrix: seq<seq<real>>)

  /** `Bare_qop()`: undefined, empty name, opcode and codeword 0 of width 64. */
  const DefaultBareQop := BareQop(ReprUndef, "", DefaultSimUint, DefaultSimUint, [], [])

  /** `Bare_qop::reset`: as the default, except that `opcode = 0` and `codeword = 0`
    * keep the widths the fields already had. */
  function ResetBareQop(q: BareQop): (r: BareQop)
    ensures r.repr == ReprUndef && r.name == "" && r.pulse == [] && r.matrix == []
    ensures r.opcode == SimUint(0, q.opcode.width) && r.codeword == SimUint(0, q.codeword.width)
  {
    BareQop(ReprUndef, "", AssignUint(q.opcode, 0), AssignUint(q.codeword, 0), [], [])
  }

  /** `Bare_qop::operator=`: copies the type and only the payload that type selects;
    * the other payload fields of the destination keep their contents. */
  function AssignBareQop(dst: BareQop, src: BareQop): BareQop
  {
    match src.repr
    case ReprName => dst.(repr := src.repr, name := src.name)
    case ReprOpcode => dst.(repr := src.repr, opcode := src.opcode)
    case ReprCodeword => dst.(repr := src.repr, codeword := src.codeword)
    case ReprPulse => dst.(repr := src.repr, pulse := src.pulse)
    case ReprMatrix => dst.(repr := src.repr, matrix := src.matrix)
    case ReprUndef => dst.(repr := src.repr)
  }

  /** `Bare_qop::operator==`: different types differ; equal types compare only the
    * payload the type selects, and two undefined operations are always equal. */
  function BareQopEq(a: BareQop, b: BareQop): bool
  {
    a.repr == b.repr &&
    match a.repr
    case ReprName => a.name == b.name
    case ReprOpcode => SimUintEq(a.opcode, b.opcode)
    case ReprCodeword => SimUintEq(a.codeword, b.codeword)
    case ReprMatrix => a.matrix == b.matrix
    case ReprPulse => a.pulse == b.pulse
    case ReprUndef => true
  }

  /** The payload this type selects. */
  predicate SamePayload(a: BareQop, b: BareQop, t: ReprType)
  {
    match t
    case ReprName => a.name == b.name
    case ReprOpcode => a.opcode == b.opcode
    case ReprCodeword => a.codeword == b.codeword
    case ReprMatrix => a.matrix == b.matrix
    case ReprPulse => a.pulse == b.pulse
    case ReprUndef => true
  }

  /** Equality is the type plus the payload that type selects. */
  lemma BareQopEqMeaning(a: BareQop, b: BareQop)
    ensures BareQopEq(a, b) <==> a.repr == b.repr && SamePayload(a, b, a.repr)
    ensures a == b ==> BareQopEq(a, b)
    ensures a.repr == ReprUndef && b.repr == ReprUndef ==> BareQopEq(a, b)
  {
  }

  /** Equality is an equivalence. */
  lemma BareQopEqEquivalence(a: BareQop, b: BareQop, c: BareQop)
    ensures BareQopEq(a, a)
    ensures BareQopEq(a, b) ==> BareQopEq(b, a)
    ensures BareQopEq(a, b) && BareQopEq(b, c) ==> BareQopEq(a, c)
  {
  }

  /** After an assignment the destination equals the source, although the payload
    * fields the source's type does not select are those of the old destination. */
  lemma AssignBareQopEq(dst: BareQop, src: BareQop)
    ensures BareQopEq(AssignBareQop(dst, src), src)
    ensures var r := AssignBareQop(dst, src);
      r.repr == src.repr && SamePayload(r, src, src.repr) &&
      (forall t :: t != src.repr ==> SamePayload(r, dst, t))
  {
  }

  /** Assigning an operation over itself changes nothing. */
  lemma AssignBareQopSelf(q: BareQop)
    ensures AssignBareQop(q, q) == q
  {
  }

  // ------------------------------------------------------------------ addresses

  /** `content_type_t`. */
  datatype ContentType = Undef | Direct | IndirectRegNum | IndirectRegContent | IndirectContent | Hardwire

  /** `num_tgt_qubits_type_t`. */
  datatype NumTgtQubits = Single | Multiple

  /** `Q_addr_type`. */
  datatype QAddrType = QAddrType(cType: ContentType, qNumType: NumTgtQubits)

  const DefaultAddrType := QAddrType(Undef, Single)

  /** `Single_qubit_addr_info` (its `type` pointer is the enclosing address's type). */
  datatype SingleAddrInfo = SingleAddrInfo(somqWidth: nat, qubitIndices: seq<nat>, mask: SimUint)

  /** `Multi_qubit_addr_info`. */
  datatype MultiAddrInfo = MultiAddrInfo(somqWidth: nat, qubitTuples: seq<seq<nat>>, mask: SimUint)

  /** `Q_tgt_addr`. */
  datatype QTgtAddr = QTgtAddr(addrType: QAddrType, indirectAddrRegNum: SimUint,
                               sqOpAddr: SingleAddrInfo, mqOpAddr: MultiAddrInfo)

  const DefaultTgtAddr := QTgtAddr(DefaultAddrType, DefaultSimUint,
                                   SingleAddrInfo(1, [], DefaultSimUint), MultiAddrInfo(1, [], DefaultSimUint))

  /** `Q_tgt_addr::reset`: register number and masks become 0 (keeping their widths),
    * the type returns to (UNDEF, SINGLE), the lists are cleared; `somq_width` is kept. */
  function ResetTgtAddr(a: QTgtAddr): (r: QTgtAddr)
    ensures r.addrType == DefaultAddrType
    ensures r.indirectAddrRegNum == SimUint(0, a.indirectAddrRegNum.width)
    ensures r.sqOpAddr == SingleAddrInfo(a.sqOpAddr.somqWidth, [], SimUint(0, a.sqOpAddr.mask.width))
    ensures r.mqOpAddr == MultiAddrInfo(a.mqOpAddr.somqWidth, [], SimUint(0, a.mqOpAddr.mask.width))
  {
    QTgtAddr(DefaultAddrType, AssignUint(a.indirectAddrRegNum, 0),
             a.sqOpAddr.(qubitIndices := [], mask := AssignUint(a.sqOpAddr.mask, 0)),
             a.mqOpAddr.(qubitTuples := [], mask := AssignUint(a.mqOpAddr.mask, 0)))
  }

  // ------------------------------------------------------------------ Q_mask_reg

  /** `Q_mask_reg`: 32 single-qubit and 32 multi-qubit mask registers, plus the
    * register contents used by assembly instructions. */
  class MaskReg {
    var sRegMask: array<SimUint>
    var mRegMask: array<SimUint>
    var sRegContent: seq<seq<nat>>
    var mRegContent: seq<seq<seq<nat>>>

    ghost predicate Valid()
      reads this
    {
      sRegMask.Length == 32 && mRegMask.Length == 32 && sRegMask != mRegMask &&
      |sRegContent| == 32 && |mRegContent| == 32
    }

    /** `Q_mask_reg()`: `= { 0 }` builds element 0 through the width constructor
      * (width 0) and default-constructs the others (width 64); the contents are 32
      * empty lists. */
    constructor ()
      ensures Valid() && fresh(sRegMask) && fresh(mRegMask)
      ensures sRegMask[0] == SimUint(0, 0) && mRegMask[0] == SimUint(0, 0)
      ensures forall i :: 1 <= i < 32 ==> sRegMask[i] == DefaultSimUint && mRegMask[i] == DefaultSimUint
      ensures sRegContent == seq(32, _ => []) && mRegContent == seq(32, _ => [])
    {
      sRegMask := new SimUint[32](i => if i == 0 then SimUint(0, 0) else DefaultSimUint);
      mRegMask := new SimUint[32](i => if i == 0 then SimUint(0, 0) else DefaultSimUint);
      sRegContent := seq(32, _ => []);
      mRegContent := seq(32, _ => []);
    }

    /** `get_reg_mask`: SINGLE reads the single-qubit bank, anything else the other. */
    function GetRegMask(regNum: SimUint, t: NumTgtQubits): SimUint
      requires Valid() && regNum.value < 32
      reads this, sRegMask, mRegMask
    {
      if t == Single then sRegMask[regNum.value] else mRegMask[regNum.value]
    }

    /** `set_reg_mask`: writes one register of the bank the type selects; a later
      * `get_reg_mask` of that register returns the mask and nothing else changes. */
    method SetRegMask(mask: SimUint, regNum: SimUint, t: NumTgtQubits)
      requires Valid() && regNum.value < 32
      modifies sRegMask, mRegMask
      ensures Valid()
      ensures GetRegMask(regNum, t) == mask
      ensures t == Single ==> mRegMask[..] == old(mRegMask[..]) && sRegMask[..] == old(sRegMask[..])[regNum.value := mask]
      ensures t == Multiple ==> sRegMask[..] == old(sRegMask[..]) && mRegMask[..] == old(mRegMask[..])[regNum.value := mask]
    {
      if t == Single {
        sRegMask[regNum.value] := mask;
      } else {
        mRegMask[regNum.value] := mask;
      }
    }

    /** `get_s_reg_content`. */
    function GetSRegContent(regNum: SimUint): seq<nat>
      requires Valid() && regNum.value < 32
      reads this
    {
      sRegContent[regNum.value]
    }

    /** `get_m_reg_content`. */
    function GetMRegContent(regNum: SimUint): seq<seq<nat>>
      requires Valid() && regNum.value < 32
      reads this
    {
      mRegContent[regNum.value]
    }

    /** `set_s_reg_content`: replaces one register's qubit list. */
    method SetSRegContent(content: seq<nat>, regNum: SimUint)
      requires Valid() && regNum.value < 32
      modifies this
      ensures Valid() && sRegMask == old(sRegMask) && mRegMask == old(mRegMask)
      ensures sRegContent == old(sRegContent)[regNum.value := content] && mRegContent == old(mRegContent)
      ensures GetSRegContent(regNum) == content
    {
      sRegContent := sRegContent[regNum.value := content];
    }

    /** `set_m_reg_content`: replaces one register's tuple list. */
    method SetMRegContent(content: seq<seq<nat>>, regNum: SimUint)
      requires Valid() && regNum.value < 32
      modifies this
      ensures Valid() && sRegMask == old(sRegMask) && mRegMask == old(mRegMask)
      ensures mRegContent == old(mRegContent)[regNum.value := content] && sRegContent == old(sRegContent)
      ensures GetMRegContent(regNum) == content
    {
      mRegContent := mRegContent[regNum.value := content];
    }

    /** `reset` as written: zeroes the 64 masks (widths kept) and clears
      * `s_reg_content` twice; `m_reg_content` is left as it was. */
    method ResetAsWritten()
      requires Valid()
      modifies this, sRegMask, mRegMask
      ensures Valid() && sRegMask == old(sRegMask) && mRegMask == old(mRegMask)
      ensures forall i :: 0 <= i < 32 ==> sRegMask[i] == SimUint(0, old(sRegMask[i]).width)
      ensures forall i :: 0 <= i < 32 ==> mRegMask[i] == SimUint(0, old(mRegMask[i]).width)
      ensures sRegContent == seq(32, _ => [])
      ensures mRegContent == old(mRegContent)
    {
      var i := 0;
      while i < 32
        invariant 0 <= i <= 32
        invariant Valid() && sRegMask == old(sRegMask) && mRegMask == old(mRegMask)
        invariant forall k :: 0 <= k < i ==> sRegMask[k] == SimUint(0, old(sRegMask[k]).width)
        invariant forall k :: i <= k < 32 ==> sRegMask[k] == old(sRegMask[k])
        invariant forall k :: 0 <= k < i ==> mRegMask[k] == SimUint(0, old(mRegMask[k]).width)
        invariant forall k :: i <= k < 32 ==> mRegMask[k] == old(mRegMask[k])
        invariant forall k :: 0 <= k < i ==> sRegContent[k] == []
        invariant mRegContent == old(mRegContent)
      {
        sRegMask[i] := AssignUint(sRegMask[i], 0);
        mRegMask[i] := AssignUint(mRegMask[i], 0);
        sRegContent := sRegContent[i := []];
        sRegContent := sRegContent[i := []];
        i := i + 1;
      }
    }

    /** `reset` as intended: as above, and the multi-qubit contents are cleared too. */
    method Reset()
      requires Valid()
      modifies this, sRegMask, mRegMask
      ensures Valid() && sRegMask == old(sRegMask) && mRegMask == old(mRegMask)
      ensures forall i :: 0 <= i < 32 ==> sRegMask[i] == SimUint(0, old(sRegMask[i]).width)
      ensures forall i :: 0 <= i < 32 ==> mRegMask[i] == SimUint(0, old(mRegMask[i]).width)
      ensures sRegContent == seq(32, _ => []) && mRegContent == seq(32, _ => [])
    {
      var i := 0;
      while i < 32
        invariant 0 <= i <= 32
        invariant Valid() && sRegMask == old(sRegMask) && mRegMask == old(mRegMask)
        invariant forall k :: 0 <= k < i ==> sRegMask[k] == SimUint(0, old(sRegMask[k]).width)
        invariant forall k :: i <= k < 32 ==> sRegMask[k] == old(sRegMask[k])
        invariant forall k :: 0 <= k < i ==> mRegMask[k] == SimUint(0, old(mRegMask[k]).width)
        invariant forall k :: i <= k < 32 ==> mRegMask[k] == old(mRegMask[k])
        invariant forall k :: 0 <= k < i ==> sRegContent[k] == [] && mRegContent[k] == []
      {
        sRegMask[i] := AssignUint(sRegMask[i], 0);
        mRegMask[i] := AssignUint(mRegMask[i], 0);
        sRegContent := sRegContent[i := []];
        mRegContent := mRegContent[i := []];
        i := i + 1;
      }
    }
  }

  /** A register file whose multi-qubit register 0 holds a tuple still holds it after
    * the reset as written, and no longer after the intended reset. */
  method ResetLeavesMultiContent()
  {
    var r := new MaskReg();
    r.SetMRegContent([[0, 2]], SimUint(0, 64));
    r.ResetAsWritten();
    assert r.GetMRegContent(SimUint(0, 64)) == [[0, 2]];
    r.SetMRegContent([[0, 2]], SimUint(0, 64));
    r.Reset();
    assert r.GetMRegContent(SimUint(0, 64)) == [];
  }

  // ------------------------------------------------------------------ timing

  /** `timing_type_t`. */
  datatype TimingType = NoTiming | WaitTime | TimingLabel | TimingPoint

  /** `Timing_info`. */
  datatype TimingInfo = TimingInfo(timingType: TimingType, waitTime: Uint32, timingLabel: Uint32)

  const DefaultTiming := TimingInfo(NoTiming, 0, 0)

  /** `Timing_info::operator==`: WAIT_TIME compares the wait time, TIMING_LABEL the
    * label, TIMING_POINT both, and NONE nothing. */
  function TimingEq(a: TimingInfo, b: TimingInfo): bool
  {
    a.timingType == b.timingType &&
    match a.timingType
    case WaitTime => a.waitTime == b.waitTime
    case TimingLabel => a.timingLabel == b.timingLabel
    case TimingPoint => a.timingLabel == b.timingLabel && a.waitTime == b.waitTime
    case NoTiming => true
  }

  /** Timing equality is an equivalence that ignores exactly the fields the type does not use. */
  lemma TimingEqMeaning(a: TimingInfo, b: TimingInfo, c: TimingInfo)
    ensures TimingEq(a, a)
    ensures TimingEq(a, b) ==> TimingEq(b, a)
    ensures TimingEq(a, b) && TimingEq(b, c) ==> TimingEq(a, c)
    ensures a.timingType == b.timingType ==>
      (TimingEq(a, b) <==>
        (a.timingType in {WaitTime, TimingPoint} ==> a.waitTime == b.waitTime) &&
        (a.timingType in {TimingLabel, TimingPoint} ==> a.timingLabel == b.timingLabel))
  {
  }

  // ------------------------------------------------------------------ fledged operations

  /** `Fledged_qop`: timing, operation and target address. */
  datatype FledgedQop = FledgedQop(timing: TimingInfo, op: BareQop, addr: QTgtAddr)
  {
    /** `is_valid`: the operation type is not undefined (`op.type != NONE`, NONE being 0). */
    predicate IsValid() { op.repr != ReprUndef }
  }

  const DefaultQop := FledgedQop(DefaultTiming, DefaultBareQop, DefaultTgtAddr)

  /** `Fledged_qop::reset`. */
  function ResetQop(q: FledgedQop): (r: FledgedQop)
    ensures !r.IsValid()
    ensures r.timing == DefaultTiming && r.op == ResetBareQop(q.op) && r.addr == ResetTgtAddr(q.addr)
  {
    FledgedQop(DefaultTiming, ResetBareQop(q.op), ResetTgtAddr(q.addr))
  }

  /** `Fledged_qop::operator==`. */
  function FledgedQopEq(a: FledgedQop, b: FledgedQop): bool
  {
    TimingEq(a.timing, b.timing) && BareQopEq(a.op, b.op) && a.addr == b.addr
  }

  /** Validity depends only on the operation type, so equal operations agree on it. */
  lemma FledgedQopEqValid(a: FledgedQop, b: FledgedQop)
    ensures FledgedQopEq(a, b) ==> (a.IsValid() <==> b.IsValid())
    ensures FledgedQopEq(a, a)
  {
  }

  // ------------------------------------------------------------------ the pipeline interface

  /** `If_content_type`: which of the three kinds of content an interface carries. */
  datatype IfContent = IfContent(validWait: bool, validQop: bool, validSetAddr: bool)

  const NoContent := IfContent(false, false, false)

  /** `Q_pipe_interface`. */
  datatype QPipeInterface = QPipeInterface(ifContent: IfContent, addrsToSet: seq<QTgtAddr>,
                                           timing: TimingInfo, addrType: QAddrType,
                                           ops: seq<FledgedQop>, vliwWidth: nat)

  /** `Q_pipe_interface::reset`: no content, default timing and type, no addresses,
    * no operations; `vliw_width` is not touched. */
  function ResetInterface(i: QPipeInterface): (r: QPipeInterface)
    ensures r.ifContent == NoContent && r.addrsToSet == [] && r.ops == []
    ensures r.timing == DefaultTiming && r.addrType == DefaultAddrType && r.vliwWidth == i.vliwWidth
  {
    QPipeInterface(NoContent, [], DefaultTiming, DefaultAddrType, [], i.vliwWidth)
  }

  /** A reset interface with `n` reset (invalid) operations, the shape most pipeline
    * stages output on reset. */
  function ResetInterfaceWithOps(i: QPipeInterface, n: nat): (r: QPipeInterface)
    ensures |r.ops| == n && forall k :: 0 <= k < n ==> !r.ops[k].IsValid()
    ensures r.ifContent == NoContent && r.vliwWidth == i.vliwWidth
  {
    ResetInterface(i).(ops := seq(n, _ => ResetQop(DefaultQop)))
  }

  // ------------------------------------------------------------------ measurement interface

  /** `Generic_meas_if`: the timing of a cycle and four per-qubit bit vectors. */
  datatype GenericMeas = GenericMeas(timing: TimingInfo, measEna: seq<bool>, measEnaCancel: seq<bool>,
                                     measData: seq<bool>, measDataValid: seq<bool>)

  /** `Generic_meas_if::reset`: default timing and four empty vectors. */
  const EmptyMeas := GenericMeas(DefaultTiming, [], [], [], [])
}
