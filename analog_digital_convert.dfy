/** The converters of src/2_analog_digital_if/analog_digital_convert.cpp, which turn the
  * per-qubit operations of the quantum pipeline into the atomic operations the qubit
  * simulator applies in one moment. `Adi_convert_to_quantumsim` and
  * `Adi_convert_to_circuit` have the same `signal_convert`, so one class models both;
  * the cycle counter the source reads becomes a parameter. */
module AnalogDigitalConvert {
  import opened Wrappers
  import opened GenericIf

  /** `Atom_qop`: an operation name and its target qubits. */
  datatype AtomQop = AtomQop(operation: string, targets: seq<nat>)

  /** `Ops_2_qsim`: whether the moment holds any operation, the cycle it was stamped
    * with, and its atomic operations. */
  datatype Ops2Qsim = Ops2Qsim(triggered: bool, cycle: nat, atomOps: seq<AtomQop>)

  /** The cleared moment. */
  const NoOps := Ops2Qsim(false, 0, [])

  /** The gate name of an operation: an opcode is looked up in the opcode-to-name table,
    * a name is used as it is; a missing opcode or any other representation aborts. */
  function OpName(lut: map<nat, string>, op: BareQop): Result<string, string>
  {
    match op.repr
    case ReprOpcode =>
      if op.opcode.value in lut then Success(lut[op.opcode.value]) else Failure("unknown opcode")
    case ReprName => Success(op.name)
    case _ => Failure("bad representation")
  }

  /** What the operation at qubit `k` contributes: nothing when it is invalid; a
    * single-qubit gate on `k`; a two-qubit gate on its first pair, but only at the
    * pair's left qubit, so that the copy at the right qubit is skipped. A two-qubit
    * operation without a pair indexes past its tuples in the source and aborts here. */
  function AtomAt(lut: map<nat, string>, q: FledgedQop, k: nat): Result<Option<AtomQop>, string>
  {
    if !q.IsValid() then Success(None)
    else match OpName(lut, q.op)
      case Failure(e) => Failure(e)
      case Success(name) =>
        if q.addr.addrType.qNumType == Single then Success(Some(AtomQop(name, [k])))
        else if q.addr.mqOpAddr.qubitTuples == [] || |q.addr.mqOpAddr.qubitTuples[0]| < 2 then
          Failure("no qubit pair")
        else
          var t := q.addr.mqOpAddr.qubitTuples[0];
          if k == t[0] then Success(Some(AtomQop(name, [t[0], t[1]]))) else Success(None)
  }

  /** The moment after a valid operation has been seen: triggered and stamped. */
  function Stamp(acc: Ops2Qsim, q: FledgedQop, cycle: nat): Ops2Qsim
  {
    if q.IsValid() then acc.(triggered := true, cycle := cycle) else acc
  }

  function Add(acc: Ops2Qsim, a: Option<AtomQop>): Ops2Qsim
  {
    match a
    case None => acc
    case Some(x) => acc.(atomOps := acc.atomOps + [x])
  }

  /** The moment built from qubit `k` onwards, or the first abort. */
  function ConvertFrom(lut: map<nat, string>, ops: seq<FledgedQop>, k: nat, acc: Ops2Qsim, cycle: nat): Result<Ops2Qsim, string>
    decreases |ops| - k
  {
    if k >= |ops| then Success(acc)
    else match AtomAt(lut, ops[k], k)
      case Failure(e) => Failure(e)
      case Success(a) => ConvertFrom(lut, ops, k + 1, Add(Stamp(acc, ops[k], cycle), a), cycle)
  }

  /** `signal_convert`, one cycle: reset sends the cleared moment. */
  function Convert(reset: bool, cycle: nat, lut: map<nat, string>, i: QPipeInterface): Result<Ops2Qsim, string>
  {
    if reset then Success(NoOps) else ConvertFrom(lut, i.ops, 0, NoOps, cycle)
  }

  // ------------------------------------------------------------------ the reference

  /** Every operation from qubit `k` on is accepted. */
  predicate Accepted(lut: map<nat, string>, ops: seq<FledgedQop>, k: nat)
  {
    forall j :: k <= j < |ops| ==> AtomAt(lut, ops[j], j).Success?
  }

  predicate ValidAt(ops: seq<FledgedQop>, j: int)
  {
    0 <= j < |ops| && ops[j].IsValid()
  }

  /** The atomic operations of the accepted qubits from `k` on, in qubit order. */
  function AtomsFrom(lut: map<nat, string>, ops: seq<FledgedQop>, k: nat): seq<AtomQop>
    requires Accepted(lut, ops, k)
    decreases |ops| - k
  {
    if k >= |ops| then []
    else
      (match AtomAt(lut, ops[k], k).value case None => [] case Some(a) => [a]) + AtomsFrom(lut, ops, k + 1)
  }

  /** An atomic operation is in the list iff some qubit contributes it. */
  lemma {:induction false} AtomsFromMembers(lut: map<nat, string>, ops: seq<FledgedQop>, k: nat, a: AtomQop)
    requires Accepted(lut, ops, k)
    ensures a in AtomsFrom(lut, ops, k) <==> exists j :: k <= j < |ops| && AtomAt(lut, ops[j], j) == Success(Some(a))
    decreases |ops| - k
  {
    if k < |ops| {
      AtomsFromMembers(lut, ops, k + 1, a);
    }
  }

  /** The fold succeeds iff every remaining operation is accepted, and then appends the
    * reference list. */
  lemma {:induction false} ConvertFromAtoms(lut: map<nat, string>, ops: seq<FledgedQop>, k: nat, acc: Ops2Qsim, cycle: nat)
    requires k <= |ops|
    ensures ConvertFrom(lut, ops, k, acc, cycle).Success? <==> Accepted(lut, ops, k)
    ensures ConvertFrom(lut, ops, k, acc, cycle).Success? ==>
      ConvertFrom(lut, ops, k, acc, cycle).value.atomOps == acc.atomOps + AtomsFrom(lut, ops, k)
    decreases |ops| - k
  {
    if k < |ops| {
      match AtomAt(lut, ops[k], k)
      case Failure(_) =>
      case Success(a) =>
        var acc1 := Add(Stamp(acc, ops[k], cycle), a);
        ConvertFromAtoms(lut, ops, k + 1, acc1, cycle);
        if Accepted(lut, ops, k + 1) {
          assert acc1.atomOps == acc.atomOps + (match a case None => [] case Some(x) => [x]);
        }
    }
  }

  /** Some operation from qubit `k` on is valid. */
  predicate AnyValid(ops: seq<FledgedQop>, k: nat)
  {
    exists j :: k <= j < |ops| && ValidAt(ops, j)
  }

  lemma AnyValidStep(ops: seq<FledgedQop>, k: nat)
    requires k < |ops|
    ensures AnyValid(ops, k) <==> ops[k].IsValid() || AnyValid(ops, k + 1)
  {
    if AnyValid(ops, k) {
      var j :| k <= j < |ops| && ValidAt(ops, j);
      if j > k {
        assert k + 1 <= j < |ops| && ValidAt(ops, j);
      }
    }
    if ops[k].IsValid() {
      assert ValidAt(ops, k);
    }
  }

  /** A successful fold leaves the moment triggered and stamped iff some remaining
    * operation is valid. */
  lemma {:induction false} ConvertFromStamp(lut: map<nat, string>, ops: seq<FledgedQop>, k: nat, acc: Ops2Qsim, cycle: nat)
    requires k <= |ops| && ConvertFrom(lut, ops, k, acc, cycle).Success?
    ensures var r := ConvertFrom(lut, ops, k, acc, cycle).value;
      r.triggered == (acc.triggered || AnyValid(ops, k)) &&
      r.cycle == (if AnyValid(ops, k) then cycle else acc.cycle)
    decreases |ops| - k
  {
    if k < |ops| {
      var a := AtomAt(lut, ops[k], k).value;
      ConvertFromStamp(lut, ops, k + 1, Add(Stamp(acc, ops[k], cycle), a), cycle);
      AnyValidStep(ops, k);
    }
  }

  /** The moment of a cycle: reset clears it; otherwise it succeeds iff every operation
    * is accepted, lists exactly the atomic operations the qubits contribute, in qubit
    * order, and is triggered and stamped with the cycle iff some operation is valid. */
  lemma ConvertMeaning(reset: bool, cycle: nat, lut: map<nat, string>, i: QPipeInterface)
    ensures reset ==> Convert(reset, cycle, lut, i) == Success(NoOps)
    ensures !reset ==> (Convert(reset, cycle, lut, i).Success? <==> Accepted(lut, i.ops, 0))
    ensures !reset && Convert(reset, cycle, lut, i).Success? ==>
      var r := Convert(reset, cycle, lut, i).value;
      r.atomOps == AtomsFrom(lut, i.ops, 0) &&
      (r.triggered <==> exists j :: ValidAt(i.ops, j)) &&
      r.cycle == (if r.triggered then cycle else 0)
  {
    if !reset {
      ConvertFromAtoms(lut, i.ops, 0, NoOps, cycle);
      if Accepted(lut, i.ops, 0) {
        ConvertFromStamp(lut, i.ops, 0, NoOps, cycle);
      }
      assert (exists j :: ValidAt(i.ops, j)) <==> AnyValid(i.ops, 0);
    }
  }

  /** A single-qubit gate at qubit `k` targets `k` alone; a two-qubit gate whose copies
    * sit at both qubits of its pair `(l, r)` is emitted once, from the left qubit. */
  lemma GatesTargetTheirQubits(lut: map<nat, string>, ops: seq<FledgedQop>, l: nat, r: nat)
    requires l < |ops| && r < |ops| && l != r
    requires ops[l].IsValid() && ops[r].IsValid()
    requires ops[l].addr.addrType.qNumType == Multiple && ops[r].addr.addrType.qNumType == Multiple
    requires ops[l].addr.mqOpAddr.qubitTuples == [[l, r]] && ops[r].addr.mqOpAddr.qubitTuples == [[l, r]]
    requires OpName(lut, ops[l].op).Success? && OpName(lut, ops[r].op).Success?
    ensures AtomAt(lut, ops[l], l) == Success(Some(AtomQop(OpName(lut, ops[l].op).value, [l, r])))
    ensures AtomAt(lut, ops[r], r) == Success(None)
  {
  }

  class AdiConvert {
    /** `opcode_to_opname_lut_content`, set from the configuration. */
    const lut: map<nat, string>

    constructor (table: map<nat, string>)
      ensures lut == table
    {
      lut := table;
    }

    /** The body of the loop for a valid operation: its gate name, then its targets. */
    method AtomOf(q: FledgedQop, k: nat) returns (r: Result<Option<AtomQop>, string>)
      requires q.IsValid()
      ensures r == AtomAt(lut, q, k)
    {
      var name: string;
      if q.op.repr == ReprOpcode {
        if q.op.opcode.value !in lut {
          return Failure("unknown opcode");
        }
        name := lut[q.op.opcode.value];
      } else if q.op.repr == ReprName {
        name := q.op.name;
      } else {
        return Failure("bad representation");
      }
      if q.addr.addrType.qNumType == Single {
        return Success(Some(AtomQop(name, [k])));
      }
      var tuples := q.addr.mqOpAddr.qubitTuples;
      if tuples == [] || |tuples[0]| < 2 {
        return Failure("no qubit pair");
      }
      if k == tuples[0][0] {
        return Success(Some(AtomQop(name, [tuples[0][0], tuples[0][1]])));
      }
      return Success(None);
    }

    /** `signal_convert`, one cycle at simulator cycle `cycle`. */
    method SignalConvert(reset: bool, cycle: nat, i: QPipeInterface) returns (r: Result<Ops2Qsim, string>)
      ensures r == Convert(reset, cycle, lut, i)
    {
      var iOps := NoOps;
      if reset {
        return Success(iOps);
      }
      var k := 0;
      while k < |i.ops|
        invariant 0 <= k <= |i.ops|
        invariant ConvertFrom(lut, i.ops, k, iOps, cycle) == Convert(reset, cycle, lut, i)
      {
        var q := i.ops[k];
        if q.IsValid() {
          iOps := iOps.(triggered := true, cycle := cycle);
          var atom := AtomOf(q, k);
          match atom
          case Failure(e) => return Failure(e);
          case Success(None) =>
          case Success(Some(x)) => iOps := iOps.(atomOps := iOps.atomOps + [x]);
        }
        k := k + 1;
      }
      r := Success(iOps);
    }
  }
}
