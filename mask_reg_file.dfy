/** The mask register file of src/1_digital/quantum/tech_ind/mask_reg_file.cpp. SMIS and
  * SMIT bundles write the 32 single-qubit and 32 multi-qubit mask registers; a quantum
  * operation that names a register has its mask, or its qubit list, read out of it. */
module MaskRegFile {
  import opened Wrappers
  import opened GenericIf

  /** The register file as a value: the two mask banks and the two content banks. */
  datatype Regs = Regs(sMask: seq<SimUint>, mMask: seq<SimUint>,
                       sContent: seq<seq<nat>>, mContent: seq<seq<seq<nat>>>)

  predicate WellFormed(r: Regs)
  {
    |r.sMask| == 32 && |r.mMask| == 32 && |r.sContent| == 32 && |r.mContent| == 32
  }

  /** The value a `Q_mask_reg` object holds. */
  function View(m: MaskReg): (r: Regs)
    requires m.Valid()
    reads m, m.sRegMask, m.mRegMask
    ensures WellFormed(r)
  {
    Regs(m.sRegMask[..], m.mRegMask[..], m.sRegContent, m.mRegContent)
  }

  /** `Q_mask_reg::reset` as written: every mask becomes 0 with its width kept and every
    * single-qubit list empty, but the multi-qubit pair lists are kept. */
  function Cleared(r: Regs): (c: Regs)
    requires WellFormed(r)
    ensures WellFormed(c)
  {
    Regs(seq(32, i requires 0 <= i < 32 => SimUint(0, r.sMask[i].width)),
         seq(32, i requires 0 <= i < 32 => SimUint(0, r.mMask[i].width)),
         seq(32, _ => []), r.mContent)
  }

  /** The register an address names. The source indexes its 32-entry arrays with it
    * unchecked; the model treats a number of 32 or more as an abort. */
  predicate RegInRange(n: SimUint) { n.value < 32 }

  // ------------------------------------------------------------------ do_write

  /** One address of an SMIS/SMIT bundle written into the file: a REG_NUM address writes
    * its single- or multi-qubit mask into that bank, a REG_CONTENT address its qubit
    * list or pair list; every other addressing mode writes nothing. */
  function WriteAddr(r: Regs, a: QTgtAddr): Result<Regs, string>
    requires WellFormed(r)
  {
    var n := a.indirectAddrRegNum.value;
    match a.addrType.cType
    case IndirectRegNum =>
      if n >= 32 then Failure("bad mask register")
      else if a.addrType.qNumType == Single then Success(r.(sMask := r.sMask[n := a.sqOpAddr.mask]))
      else Success(r.(mMask := r.mMask[n := a.mqOpAddr.mask]))
    case IndirectRegContent =>
      if n >= 32 then Failure("bad mask register")
      else if a.addrType.qNumType == Single then Success(r.(sContent := r.sContent[n := a.sqOpAddr.qubitIndices]))
      else Success(r.(mContent := r.mContent[n := a.mqOpAddr.qubitTuples]))
    case _ => Success(r)
  }

  lemma WriteAddrWellFormed(r: Regs, a: QTgtAddr)
    requires WellFormed(r)
    ensures WriteAddr(r, a).Success? ==> WellFormed(WriteAddr(r, a).value)
  {
  }

  /** The file after the first `k` addresses, in order, or the first abort. */
  function WriteAll(r: Regs, addrs: seq<QTgtAddr>, k: nat): (w: Result<Regs, string>)
    requires WellFormed(r) && k <= |addrs|
    ensures w.Success? ==> WellFormed(w.value)
  {
    if k == 0 then Success(r)
    else match WriteAll(r, addrs, k - 1)
      case Success(v) => WriteAddrWellFormed(v, addrs[k - 1]); WriteAddr(v, addrs[k - 1])
      case Failure(e) => Failure(e)
  }

  lemma {:induction false} WriteAllFailsOnward(r: Regs, addrs: seq<QTgtAddr>, i: nat, k: nat)
    requires WellFormed(r) && i <= k <= |addrs|
    requires WriteAll(r, addrs, i).Failure?
    ensures WriteAll(r, addrs, k).Failure?
    decreases k
  {
    if k > i {
      WriteAllFailsOnward(r, addrs, i, k - 1);
    }
  }

  /** What a cycle of `do_write` does to the file: the addresses of an interface that
    * carries register updates, or nothing. */
  function WriteInterface(r: Regs, i: QPipeInterface): (w: Result<Regs, string>)
    requires WellFormed(r)
    ensures w.Success? ==> WellFormed(w.value)
  {
    if !i.ifContent.validSetAddr then Success(r) else WriteAll(r, i.addrsToSet, |i.addrsToSet|)
  }

  // ------------------------------------------------------------------ do_read

  /** The operation `do_read` passes on: a REG_NUM operation gets the mask of the named
    * register in the bank of its type, a REG_CONTENT operation gets the qubit list or
    * pair list stored there; other operations pass unchanged. */
  function ReadOp(r: Regs, q: FledgedQop): Result<FledgedQop, string>
    requires WellFormed(r)
  {
    var n := q.addr.indirectAddrRegNum.value;
    match q.addr.addrType.cType
    case IndirectRegNum =>
      if n >= 32 then Failure("bad mask register")
      else if q.addr.addrType.qNumType == Single then
        Success(q.(addr := q.addr.(sqOpAddr := q.addr.sqOpAddr.(mask := r.sMask[n]))))
      else Success(q.(addr := q.addr.(mqOpAddr := q.addr.mqOpAddr.(mask := r.mMask[n]))))
    case IndirectRegContent =>
      if n >= 32 then Failure("bad mask register")
      else if q.addr.addrType.qNumType == Single then
        Success(q.(addr := q.addr.(sqOpAddr := q.addr.sqOpAddr.(qubitIndices := r.sContent[n]))))
      else Success(q.(addr := q.addr.(mqOpAddr := q.addr.mqOpAddr.(qubitTuples := r.mContent[n]))))
    case _ => Success(q)
  }

  /** The interface `do_read` outputs outside reset: with an operation, exactly that
    * operation with its register read out; and never a register update, so later
    * stages do not write the file again. */
  function ReadInterface(r: Regs, i: QPipeInterface): (o: Result<QPipeInterface, string>)
    requires WellFormed(r) && (i.ifContent.validQop ==> |i.ops| >= 1)
    ensures o.Success? ==> !o.value.ifContent.validSetAddr
    ensures o.Success? ==> o.value.ifContent.validQop == i.ifContent.validQop &&
                           o.value.ifContent.validWait == i.ifContent.validWait &&
                           o.value.timing == i.timing && o.value.addrsToSet == i.addrsToSet
    ensures o.Success? && i.ifContent.validQop ==> ReadOp(r, i.ops[0]).Success? && o.value.ops == [ReadOp(r, i.ops[0]).value]
    ensures o.Success? && !i.ifContent.validQop ==> o.value.ops == i.ops
    ensures o.Failure? <==> i.ifContent.validQop && ReadOp(r, i.ops[0]).Failure?
  {
    var content := i.ifContent.(validSetAddr := false);
    if !i.ifContent.validQop then Success(i.(ifContent := content))
    else match ReadOp(r, i.ops[0])
      case Success(q) => Success(i.(ifContent := content, ops := [q]))
      case Failure(e) => Failure(e)
  }

  // ------------------------------------------------------------------ properties

  /** A register written by an SMIS/SMIT address is what a later operation of the same
    * addressing type on the same register reads: its mask, or its qubit or pair list. */
  lemma ReadAfterWrite(r: Regs, a: QTgtAddr, q: FledgedQop)
    requires WellFormed(r) && WriteAddr(r, a).Success?
    requires a.addrType.cType in {IndirectRegNum, IndirectRegContent}
    requires q.addr.addrType == a.addrType && q.addr.indirectAddrRegNum.value == a.indirectAddrRegNum.value
    ensures ReadOp(WriteAddr(r, a).value, q).Success?
    ensures var o := ReadOp(WriteAddr(r, a).value, q).value;
      o.op == q.op && o.timing == q.timing && o.addr.addrType == q.addr.addrType &&
      match a.addrType.cType
      case IndirectRegNum =>
        if a.addrType.qNumType == Single then o.addr.sqOpAddr.mask == a.sqOpAddr.mask
        else o.addr.mqOpAddr.mask == a.mqOpAddr.mask
      case _ =>
        if a.addrType.qNumType == Single then o.addr.sqOpAddr.qubitIndices == a.sqOpAddr.qubitIndices
        else o.addr.mqOpAddr.qubitTuples == a.mqOpAddr.qubitTuples
  {
  }

  /** A write leaves every other register alone: an operation of another addressing
    * type, or naming another register, reads the same before and after it. */
  lemma WriteKeepsOtherRegisters(r: Regs, a: QTgtAddr, q: FledgedQop)
    requires WellFormed(r) && WriteAddr(r, a).Success?
    requires q.addr.addrType != a.addrType || q.addr.indirectAddrRegNum.value != a.indirectAddrRegNum.value
    ensures ReadOp(WriteAddr(r, a).value, q) == ReadOp(r, q)
  {
  }

  /** After a reset every mask register reads as 0 and every single-qubit list as
    * empty; a multi-qubit pair list still reads as what it held before the reset. */
  lemma ClearedReadsEmpty(r: Regs, q: FledgedQop)
    requires WellFormed(r) && RegInRange(q.addr.indirectAddrRegNum)
    ensures ReadOp(Cleared(r), q).Success?
    ensures var o := ReadOp(Cleared(r), q).value;
      (q.addr.addrType == QAddrType(IndirectRegNum, Single) ==> o.addr.sqOpAddr.mask.value == 0) &&
      (q.addr.addrType == QAddrType(IndirectRegNum, Multiple) ==> o.addr.mqOpAddr.mask.value == 0) &&
      (q.addr.addrType == QAddrType(IndirectRegContent, Single) ==> o.addr.sqOpAddr.qubitIndices == []) &&
      (q.addr.addrType == QAddrType(IndirectRegContent, Multiple) ==>
         o.addr.mqOpAddr.qubitTuples == r.mContent[q.addr.indirectAddrRegNum.value])
  {
  }

  // ------------------------------------------------------------------ the module

  class MaskRegisterFile {
    /** `q_mask_reg`. */
    const reg: MaskReg
    /** The interface `do_read` keeps between cycles; its reset keeps only `vliw_width`. */
    var readTmp: QPipeInterface

    ghost predicate Valid()
      reads this, reg
    {
      reg.Valid()
    }

    constructor (init: QPipeInterface)
      ensures Valid() && fresh(reg) && fresh(reg.sRegMask) && fresh(reg.mRegMask) && readTmp == init
    {
      reg := new MaskReg();
      readTmp := init;
    }

    /** `do_write`, one clock: reset clears the file as written, keeping the pair lists;
      * otherwise an interface that carries
      * register updates writes its addresses in order. */
    method DoWrite(reset: bool, i: QPipeInterface) returns (r: Result<(), string>)
      requires Valid()
      modifies reg, reg.sRegMask, reg.mRegMask
      ensures Valid() && reg.sRegMask == old(reg.sRegMask) && reg.mRegMask == old(reg.mRegMask)
      ensures reset ==> r.Success? && View(reg) == Cleared(old(View(reg)))
      ensures !reset ==> (r.Success? <==> WriteInterface(old(View(reg)), i).Success?)
      ensures !reset && r.Success? ==> View(reg) == WriteInterface(old(View(reg)), i).value
    {
      if reset {
        reg.ResetAsWritten();
        assert View(reg).sMask == Cleared(old(View(reg))).sMask;
        assert View(reg).mMask == Cleared(old(View(reg))).mMask;
        return Success(());
      }
      if !i.ifContent.validSetAddr {
        return Success(());
      }
      ghost var start := View(reg);
      var addrs := i.addrsToSet;
      var k := 0;
      while k < |addrs|
        invariant 0 <= k <= |addrs| && Valid()
        invariant reg.sRegMask == old(reg.sRegMask) && reg.mRegMask == old(reg.mRegMask)
        invariant WriteAll(start, addrs, k) == Success(View(reg))
      {
        var a := addrs[k];
        var n := a.indirectAddrRegNum;
        if a.addrType.cType == IndirectRegNum {
          if n.value >= 32 {
            WriteAllFailsOnward(start, addrs, k + 1, |addrs|);
            return Failure("bad mask register");
          }
          if a.addrType.qNumType == Single {
            reg.SetRegMask(a.sqOpAddr.mask, n, Single);
          } else {
            reg.SetRegMask(a.mqOpAddr.mask, n, a.addrType.qNumType);
          }
        } else if a.addrType.cType == IndirectRegContent {
          if n.value >= 32 {
            WriteAllFailsOnward(start, addrs, k + 1, |addrs|);
            return Failure("bad mask register");
          }
          if a.addrType.qNumType == Single {
            reg.SetSRegContent(a.sqOpAddr.qubitIndices, n);
          } else {
            reg.SetMRegContent(a.mqOpAddr.qubitTuples, n);
          }
        }
        k := k + 1;
      }
      r := Success(());
    }

    /** `do_read`, one clock: reset outputs the emptied interface; otherwise the
      * interface's operation has its register read out of the file. */
    method DoRead(reset: bool, i: QPipeInterface) returns (r: Result<QPipeInterface, string>)
      requires Valid() && (i.ifContent.validQop ==> |i.ops| >= 1)
      modifies this`readTmp
      ensures reset ==> r == Success(ResetInterface(old(readTmp))) && readTmp == ResetInterface(old(readTmp))
      ensures !reset ==> r == ReadInterface(View(reg), i) && readTmp == i
    {
      readTmp := ResetInterface(readTmp);
      if reset {
        return Success(readTmp);
      }
      readTmp := i;
      var out := i;
      if i.ifContent.validQop {
        var q := i.ops[0];
        var n := q.addr.indirectAddrRegNum;
        if q.addr.addrType.cType in {IndirectRegNum, IndirectRegContent} && n.value >= 32 {
          return Failure("bad mask register");
        }
        if q.addr.addrType.cType == IndirectRegNum {
          if q.addr.addrType.qNumType == Single {
            q := q.(addr := q.addr.(sqOpAddr := q.addr.sqOpAddr.(mask := reg.GetRegMask(n, q.addr.addrType.qNumType))));
          } else {
            q := q.(addr := q.addr.(mqOpAddr := q.addr.mqOpAddr.(mask := reg.GetRegMask(n, q.addr.addrType.qNumType))));
          }
        } else if q.addr.addrType.cType == IndirectRegContent {
          if q.addr.addrType.qNumType == Single {
            q := q.(addr := q.addr.(sqOpAddr := q.addr.sqOpAddr.(qubitIndices := reg.GetSRegContent(n))));
          } else {
            q := q.(addr := q.addr.(mqOpAddr := q.addr.mqOpAddr.(qubitTuples := reg.GetMRegContent(n))));
          }
        }
        out := out.(ops := [q]);
      }
      r := Success(out.(ifContent := out.ifContent.(validSetAddr := false)));
    }
  }
}
