/** One eQASM instruction, binary or assembly, as parsed by
  * src/0_core/qasm_instruction.cpp. The regular expressions of the source are stated
  * as the character-level predicates they match; the matches of `\d+` are the maximal
  * digit runs of `NumUtil.DigitRuns`. */
module QasmInstruction {
  import opened Wrappers
  import Text
  import NumUtil
  import opened GenericIf

  // ------------------------------------------------------------------ opcode constants

  const NOP := 0
  const BR := 1
  const ADDI := 2
  const STOP := 8
  const LW := 9
  const SW := 10
  const TEST := 12
  const CMP := 13
  const LB := 14
  const LBU := 15
  const SB := 16
  const DIV := 17
  const MUL := 18
  const REM := 19
  const FBR := 20
  const FMR := 21
  const LDI := 22
  const LDUI := 23
  const OR := 24
  const XOR := 25
  const AND := 26
  const NOT := 27
  const ADDC := 28
  const SUBC := 29
  const ADD := 30
  const SUB := 31

  /** `Instruction_type`. */
  datatype InsnKind = Bin | Asm

  /** `Q_instr_type`. */
  datatype QInstrType = QNop | QStop | QSmis | QSmit | QWait | QWaitr | QOp

  /** `map_opcode`, keyed by lower-case names. */
  function OpcodeOf(name: string): (r: Option<nat>)
    ensures r.Some? ==> r.value < 32 && r.value !in {3, 4, 5, 6, 7, 11, 12, 28, 29}
  {
    match name
    case "br" => Some(BR)      case "cmp" => Some(CMP)   case "fbr" => Some(FBR)
    case "fmr" => Some(FMR)    case "ldi" => Some(LDI)   case "ldui" => Some(LDUI)
    case "add" => Some(ADD)    case "addi" => Some(ADDI) case "sub" => Some(SUB)
    case "and" => Some(AND)    case "or" => Some(OR)     case "xor" => Some(XOR)
    case "not" => Some(NOT)    case "lb" => Some(LB)     case "lbu" => Some(LBU)
    case "lw" => Some(LW)      case "sb" => Some(SB)     case "sw" => Some(SW)
    case "rem" => Some(REM)    case "mul" => Some(MUL)   case "div" => Some(DIV)
    case "nop" => Some(NOP)    case "stop" => Some(STOP)
    case _ => None
  }

  /** `map_br_cond`, keyed by lower-case names. */
  function BrCondOf(name: string): (r: Option<nat>)
    ensures r.Some? ==> r.value < 16 && r.value !in {4, 5, 6, 7}
  {
    match name
    case "always" => Some(0) case "never" => Some(1) case "eq" => Some(2) case "ne" => Some(3)
    case "ltu" => Some(8)    case "geu" => Some(9)   case "leu" => Some(10) case "gtu" => Some(11)
    case "lt" => Some(12)    case "ge" => Some(13)   case "le" => Some(14)  case "gt" => Some(15)
    case _ => None
  }

  // ------------------------------------------------------------------ the instruction state

  /** Where the instruction came from. */
  datatype Header = Header(kind: InsnKind, insnAddr: Uint32, insnBin: Uint32, insnAsm: string,
                           lineNum: string, strInFile: string)

  /** What `parse_opcode` (or the binary decoder) decides. */
  datatype Opcode = Opcode(clInsn: bool, qInsn: bool, measInsn: bool, opcode: nat)

  /** The classical operand fields. */
  datatype Operands = Operands(rsAddr: nat, rtAddr: nat, rdAddr: nat, imm: int, uimm: nat,
                               brAddr: int, brCond: nat, qubitSel: nat,
                               rdUsed: bool, rsUsed: bool, rtUsed: bool)

  /** The quantum fields. */
  datatype Quantum = Quantum(qInsnType: QInstrType, qTimeSpecified: nat,
                             qQubitIndices: seq<nat>, qQubitTuples: seq<seq<nat>>, qRegNum: seq<nat>,
                             qOpName: seq<string>, qNumTgtQubitsType: seq<NumTgtQubits>)

  /** Every member field of `Qasm_instruction`. */
  datatype InsnState = InsnState(header: Header, op: Opcode, operands: Operands, quantum: Quantum)

  const ResetHeader := Header(Bin, 0, 0, "", "", "")
  const ResetOpcode := Opcode(false, false, false, NOP)
  const ResetOperands := Operands(0x1F, 0x1F, 0x1F, 0, 0, 0, 0xF, 0, false, false, false)
  const ResetQuantum := Quantum(QNop, 0, [], [], [], [], [])

  /** The state `reset` establishes. */
  const ResetState := InsnState(ResetHeader, ResetOpcode, ResetOperands, ResetQuantum)

  /** `operator==`: only the kind, address, binary word and assembly text count. */
  function InsnEq(a: InsnState, b: InsnState): (r: bool)
    ensures r <==> a.header.kind == b.header.kind && a.header.insnAddr == b.header.insnAddr &&
                   a.header.insnBin == b.header.insnBin && a.header.insnAsm == b.header.insnAsm
  {
    var (x, y) := (a.header, b.header);
    x.kind == y.kind && x.insnAddr == y.insnAddr && x.insnBin == y.insnBin && x.insnAsm == y.insnAsm
  }

  /** `operator==` is an equivalence that ignores every decoded field. */
  lemma InsnEqEquivalence(a: InsnState, b: InsnState, c: InsnState, o: Opcode, q: Quantum)
    ensures InsnEq(a, a)
    ensures InsnEq(a, b) ==> InsnEq(b, a)
    ensures InsnEq(a, b) && InsnEq(b, c) ==> InsnEq(a, c)
    ensures InsnEq(a, a.(op := o, quantum := q, header := a.header.(lineNum := "", strInFile := "")))
  {
  }

  // ------------------------------------------------------------------ binary decoding

  /** `(insn & (mask << shift)) >> shift`, with `unit` = 2^shift and `size` = mask + 1. */
  function Field(insn: Uint32, unit: nat, size: nat): (r: nat)
    requires unit > 0 && size > 0
    ensures r < size
  {
    (insn / unit) % size
  }

  /** The classical opcodes the binary decoder has a case for. */
  predicate BinaryDecodable(opcode: nat)
  {
    opcode in {NOP, BR, CMP, FBR, FMR, LDI, LDUI, SUB, ADD, AND, OR, XOR, NOT, STOP}
  }

  /** The measurement flag of the binary decoder as written: the masked opcode bits
    * `insn & 0x7E000000` (and `insn & 0x0001F800`) are compared with 1, and the
    * result, a `bool` promoted to 1, is ANDed with `insn & 0x80000000`. */
  function MeasBinaryAsWritten(insn: Uint32): bool
  {
    var msb := if insn >= 0x8000_0000 then 0x8000_0000 else 0;
    var a := if Field(insn, 0x200_0000, 64) * 0x200_0000 == 1 then 1 else 0;
    var b := if Field(insn, 0x800, 64) * 0x800 == 1 then 1 else 0;
    (msb == 1 && a == 1) || (msb == 1 && b == 1)
  }

  /** Neither conjunct can be 1, so the flag never holds. */
  lemma MeasBinaryAsWrittenNever(insn: Uint32)
    ensures !MeasBinaryAsWritten(insn)
  {
  }

  /** The measurement test as evidently intended: a bundle word (bit 31 set) whose
    * shifted lane-0 field (bits 30..25) or lane-1 field (bits 16..11) equals 1. */
  function MeasBinary(insn: Uint32): (r: bool)
    ensures r ==> insn >= 0x8000_0000
    ensures r <==> insn >= 0x8000_0000 && (Field(insn, 0x200_0000, 64) == 1 || Field(insn, 0x800, 64) == 1)
  {
    insn >= 0x8000_0000 && (Field(insn, 0x200_0000, 64) == 1 || Field(insn, 0x800, 64) == 1)
  }

  /** The word 0x83000000 is a measurement bundle under the intended test, but not
    * under the test as written. */
  lemma MeasBinaryExample()
    ensures MeasBinary(0x8300_0000) && !MeasBinaryAsWritten(0x8300_0000)
  {
    assert Field(0x8300_0000, 0x200_0000, 64) == 1;
  }

  /** The state `set_instruction(insn, addr)` leaves: classical iff bits 31..30 are
    * clear, the opcode in bits 30..25, and the fields of the opcode's format
    * extracted unsigned. An unknown classical opcode aborts. */
  function DecodeBinary(insn: Uint32, addr: Uint32): (r: Result<InsnState, string>)
    ensures r.Failure? <==> insn < 0x4000_0000 && !BinaryDecodable(Field(insn, 0x200_0000, 64))
    ensures r.Success? ==> r.value.header == ResetHeader.(insnBin := insn, insnAddr := addr)
    ensures r.Success? ==> r.value.op == Opcode(insn < 0x4000_0000, insn >= 0x4000_0000, false, Field(insn, 0x200_0000, 64))
    ensures r.Success? ==> r.value.quantum == ResetQuantum
  {
    var cl := insn < 0x4000_0000;
    var opc := Field(insn, 0x200_0000, 64);
    MeasBinaryAsWrittenNever(insn);
    var s := ResetState.(header := ResetHeader.(kind := Bin, insnBin := insn, insnAddr := addr),
                         op := Opcode(cl, !cl, MeasBinaryAsWritten(insn), opc));
    var o := ResetOperands;
    var rs, rt, rd := Field(insn, 0x8000, 32), Field(insn, 0x400, 32), Field(insn, 0x10_0000, 32);
    var brAddr := Field(insn, 0x10, 0x20_0000);
    if !cl || opc == NOP || opc == STOP then Success(s)
    else if opc == BR then Success(s.(operands := o.(brAddr := brAddr, brCond := Field(insn, 1, 16))))
    else if opc == CMP then Success(s.(operands := o.(rsAddr := rs, rtAddr := rt, rsUsed := true, rtUsed := true)))
    else if opc == FBR then Success(s.(operands := o.(brAddr := brAddr, rdAddr := rd, rdUsed := true)))
    else if opc == FMR then Success(s.(operands := o.(qubitSel := Field(insn, 1, 8), rdAddr := rd, rdUsed := true)))
    else if opc == LDI then Success(s.(operands := o.(imm := Field(insn, 1, 0x10_0000), rdAddr := rd, rdUsed := true)))
    else if opc == LDUI then
      Success(s.(operands := o.(uimm := Field(insn, 1, 0x8000), rsAddr := rs, rdAddr := rd, rdUsed := true, rsUsed := true)))
    else if opc in {SUB, ADD, AND, OR, XOR} then
      Success(s.(operands := o.(rsAddr := rs, rtAddr := rt, rdAddr := rd, rdUsed := true, rsUsed := true, rtUsed := true)))
    else if opc == NOT then Success(s.(operands := o.(rtAddr := rt, rdAddr := rd, rdUsed := true, rtUsed := true)))
    else Failure("bad binary")
  }

  /** Binary fields are extracted without sign extension: LDI immediates and branch
    * offsets are never negative, and every field fits its width, so a decoded word
    * always passes the range checks. */
  lemma DecodeBinaryInRange(insn: Uint32, addr: Uint32, numQubits: nat)
    requires DecodeBinary(insn, addr).Success?
    ensures var o := DecodeBinary(insn, addr).value.operands;
      0 <= o.imm < 0x10_0000 && 0 <= o.brAddr < 0x20_0000
    ensures var o := DecodeBinary(insn, addr).value.operands;
      o.imm <= 0x7_FFFF && o.brAddr <= 0xF_FFFF ==> ParserResultOk(DecodeBinary(insn, addr).value, numQubits)
  {
  }

  /** A quantum word always decodes; a classical word decodes iff its opcode has a
    * binary format. */
  lemma DecodeBinaryExamples()
    ensures DecodeBinary(0x4080_0028, 0).Success? && DecodeBinary(0x4080_0028, 0).value.op.qInsn
    ensures var o := DecodeBinary(0x3C30_8400, 7).value.operands;
      o.rdAddr == 3 && o.rsAddr == 1 && o.rtAddr == 1 && o.rdUsed && o.rsUsed && o.rtUsed
    ensures DecodeBinary(0x0400_0000, 0).Failure?
  {
    assert Field(0x3C30_8400, 0x200_0000, 64) == ADD;
    assert Field(0x0400_0000, 0x200_0000, 64) == ADDI;
  }

  // ------------------------------------------------------------------ assembly: opcode

  /** The characters `\s` matches. */
  predicate RegexSpace(c: char)
  {
    c == ' ' || c == '\t' || c == '\n' || c == '\r' || c == 11 as char || c == 12 as char
  }

  /** `s` without its leading and trailing `\s` characters. */
  function StripRegexSpace(s: string): (r: string)
    ensures |r| <= |s|
    decreases |s|
  {
    if s != [] && RegexSpace(s[0]) then StripRegexSpace(s[1..])
    else if s != [] && RegexSpace(s[|s| - 1]) then StripRegexSpace(s[..|s| - 1])
    else s
  }

  /** `^\s*nop\s*$`, case-insensitive. */
  predicate IsBareNop(s: string)
  {
    Text.ToLower(StripRegexSpace(s)) == "nop"
  }

  /** A case-insensitive search for the lower-case `word`. */
  predicate Mentions(s: string, word: string)
  {
    Text.Contains(Text.ToLower(s), word)
  }

  /** `s.find(" ")`: the index of the first blank, or `|s|`. */
  function FirstSpace(s: string): (i: nat)
    ensures i <= |s| && (i < |s| ==> s[i] == ' ') && forall k :: 0 <= k < i ==> s[k] != ' '
  {
    NumUtil.IndexOf(s, ' ')
  }

  /** What `parse_opcode` decides. */
  function ClassifyOpcode(insn: string): (r: Opcode)
    ensures r.clInsn != r.qInsn
    ensures Mentions(insn, "meas") ==> r == Opcode(false, true, true, NOP)
    ensures r.clInsn ==> r.opcode < 32 && (FirstSpace(insn) < |insn| ==> Some(r.opcode) == OpcodeOf(Text.ToLower(NumUtil.Trim(insn[..FirstSpace(insn)]))))
    ensures r.qInsn ==> r.opcode == NOP
    ensures var tok := Text.ToLower(NumUtil.Trim(insn[..FirstSpace(insn)]));
      FirstSpace(insn) < |insn| && !Mentions(insn, "meas") && OpcodeOf(tok).Some? ==>
        r == Opcode(true, false, false, OpcodeOf(tok).value)
  {
    var first :=
      if FirstSpace(insn) < |insn| then
        match OpcodeOf(Text.ToLower(NumUtil.Trim(insn[..FirstSpace(insn)])))
        case Some(opc) => Opcode(true, false, false, opc)
        case None => Opcode(false, true, false, NOP)
      else if IsBareNop(insn) then Opcode(true, false, false, NOP)
      else if Mentions(insn, "stop") then Opcode(true, false, false, STOP)
      else Opcode(false, true, false, NOP);
    if Mentions(insn, "meas") then Opcode(false, true, true, NOP) else first
  }

  /** A first word that is not an opcode name makes the line a quantum instruction. */
  lemma ClassifyUnknownWord(insn: string)
    requires FirstSpace(insn) < |insn| && !Mentions(insn, "meas")
    requires OpcodeOf(Text.ToLower(NumUtil.Trim(insn[..FirstSpace(insn)]))).None?
    ensures ClassifyOpcode(insn) == Opcode(false, true, false, NOP)
  {
  }

  /** `parse_q_insn_type`: the first of smis, smit, qwaitr, qwait, stop, a bare nop
    * that the text mentions (case-insensitively), else a quantum operation. */
  function QInsnTypeOf(insn: string): (r: QInstrType)
    ensures r == QOp <==>
      !Mentions(insn, "smis") && !Mentions(insn, "smit") && !Mentions(insn, "qwaitr") &&
      !Mentions(insn, "qwait") && !Mentions(insn, "stop") && !IsBareNop(insn)
  {
    if Mentions(insn, "smis") then QSmis
    else if Mentions(insn, "smit") then QSmit
    else if Mentions(insn, "qwaitr") then QWaitr
    else if Mentions(insn, "qwait") then QWait
    else if Mentions(insn, "stop") then QStop
    else if IsBareNop(insn) then QNop
    else QOp
  }

  // ------------------------------------------------------------------ assembly: branches

  /** An unsigned difference read back as a 32-bit two's-complement `int`. */
  function WrapInt(x: int): (r: int)
    ensures -0x8000_0000 <= r < 0x8000_0000 && (r - x) % 0x1_0000_0000 == 0
  {
    var u := x % 0x1_0000_0000;
    if u >= 0x8000_0000 then u - 0x1_0000_0000 else u
  }

  /** The two comma-separated parts after the mnemonic of a `br`, or `None` when there
    * is no blank or not exactly two parts. */
  function BrParts(insn: string): Option<(string, string)>
  {
    if FirstSpace(insn) == |insn| then None
    else
      var parts := NumUtil.SplitSpec(insn[FirstSpace(insn)..], ',');
      if |parts| != 2 then None else Some((parts[0], parts[1]))
  }

  /** `parse_br`: `br <cond>,<label>` yields the condition code and
    * `label_addr - addr`. No blank, not exactly two comma-separated parts, an
    * unknown condition or an unknown label aborts. */
  function ParseBrSpec(insn: string, labels: map<string, nat>, addr: nat): (r: Result<(nat, int), string>)
    ensures r.Success? ==> r.value.0 < 16
    ensures BrParts(insn).None? ==> r.Failure?
    ensures BrParts(insn).Some? && BrCondOf(Text.ToLower(NumUtil.Trim(BrParts(insn).value.0))).None? ==> r.Failure?
    ensures r.Success? ==>
      BrParts(insn).Some? && Some(r.value.0) == BrCondOf(Text.ToLower(NumUtil.Trim(BrParts(insn).value.0)))
  {
    match BrParts(insn)
    case None => Failure("bad asm")
    case Some(parts) =>
      var cond := BrCondOf(Text.ToLower(NumUtil.Trim(parts.0)));
      var target := NumUtil.Trim(parts.1);
      if cond.None? || target !in labels then Failure("bad asm")
      else Success((cond.value, WrapInt(labels[target] - addr)))
  }

  /** A branch is accepted exactly when its trimmed target is a defined label, and
    * then its offset is that label's address minus the branch's own, as a 32-bit
    * two's-complement number. */
  lemma ParseBrTargetsLabel(insn: string, labels: map<string, nat>, addr: nat)
    requires ParseBrSpec(insn, labels, addr).Success?
    ensures BrParts(insn).Some? && NumUtil.Trim(BrParts(insn).value.1) in labels
    ensures ParseBrSpec(insn, labels, addr).value.1 == WrapInt(labels[NumUtil.Trim(BrParts(insn).value.1)] - addr)
  {
  }

  /** Within the 31-bit address range the wrapped offset is the plain difference,
    * so a backward branch gets a negative offset. */
  lemma BranchOffsetExact(target: nat, addr: nat)
    requires target < 0x8000_0000 && addr < 0x8000_0000
    ensures WrapInt(target - addr) == target - addr
    ensures target < addr ==> WrapInt(target - addr) < 0
  {
  }

  // ------------------------------------------------------------------ assembly: mask setting

  /** `c\d+` occurs (the case-sensitive `t\d+` / `s\d+` guards). */
  predicate LetterBeforeDigit(s: string, c: char)
  {
    exists i :: 0 <= i < |s| - 1 && s[i] == c && Text.IsDigit(s[i + 1])
  }

  /** `str_to_uint` of a match (a digit run is never empty). */
  function UintOf(run: string): (v: nat)
    ensures v < 0x1_0000_0000
  {
    match NumUtil.StrToUint(run)
    case Success(v) => v
    case Failure(_) => 0
  }

  /** `str_to_sizet` of a match. */
  function SizetOf(run: string): (v: nat)
    ensures v < 0x1_0000_0000_0000_0000
  {
    match NumUtil.StrToSizet(run)
    case Success(v) => v
    case Failure(_) => 0
  }

  function SizetsOf(runs: seq<string>): (r: seq<nat>)
    ensures |r| == |runs| && forall k :: 0 <= k < |runs| ==> r[k] == SizetOf(runs[k])
  {
    if runs == [] then [] else SizetsOf(runs[..|runs| - 1]) + [SizetOf(runs[|runs| - 1])]
  }

  /** The matches read two at a time as `str_to_sizet` pairs. */
  function PairsOf(runs: seq<string>): (r: seq<seq<nat>>)
    requires |runs| % 2 == 0
    ensures 2 * |r| == |runs|
  {
    if runs == [] then []
    else PairsOf(runs[..|runs| - 2]) + [[SizetOf(runs[|runs| - 2]), SizetOf(runs[|runs| - 1])]]
  }

  /** Flattening the pairs gives back every value, in order. */
  lemma {:induction false} PairsOfFlatten(runs: seq<string>)
    requires |runs| % 2 == 0
    ensures Flatten(PairsOf(runs)) == SizetsOf(runs)
  {
    if runs != [] {
      var init := runs[..|runs| - 2];
      var a, b := SizetOf(runs[|runs| - 2]), SizetOf(runs[|runs| - 1]);
      PairsOfFlatten(init);
      FlattenSnoc(PairsOf(init), [a, b]);
      assert runs[..|runs| - 1][..|runs| - 2] == init;
      assert SizetsOf(runs) == SizetsOf(init) + [a] + [b];
    }
  }

  function Flatten(xss: seq<seq<nat>>): seq<nat>
  {
    if xss == [] then [] else xss[0] + Flatten(xss[1..])
  }

  lemma {:induction false} FlattenSnoc(xss: seq<seq<nat>>, xs: seq<nat>)
    ensures Flatten(xss + [xs]) == Flatten(xss) + xs
  {
    if xss == [] {
      assert [] + [xs] == [xs];
      assert Flatten([xs]) == xs + Flatten([xs][1..]);
    } else {
      assert (xss + [xs])[1..] == xss[1..] + [xs];
      FlattenSnoc(xss[1..], xs);
    }
  }

  // ------------------------------------------------------------------ assembly: operations

  /** Where the angle digits of a rotation name start: after `r?[xyz]m?`. */
  function AngleStart(s: string): nat
  {
    var i0 := if |s| > 0 && s[0] == 'r' then 1 else 0;
    if i0 + 1 < |s| && s[i0 + 1] == 'm' then i0 + 2 else i0 + 1
  }

  /** `^r?[xyz]m?\d+(_\d+)?$` (the rotation names are lower case by now). */
  predicate RotationName(s: string)
  {
    var i0 := if |s| > 0 && s[0] == 'r' then 1 else 0;
    var i1 := AngleStart(s);
    i0 < |s| && s[i0] in "xyz" && i1 <= |s| &&
    var d := NumUtil.DigitRun(s[i1..]);
    d > 0 &&
    (i1 + d == |s| ||
     (s[i1 + d] == '_' && 0 < NumUtil.DigitRun(s[i1 + d + 1..]) == |s| - (i1 + d + 1)))
  }

  /** The angle `\d{1,3}(_\d+)?$` picks, compared with 180: at most the last three
    * integer digits, then the fraction after `_`. It exceeds 180 when those digits
    * do, or when they are 180 and the fraction has a nonzero digit. */
  predicate AngleAbove180(s: string)
    requires RotationName(s)
  {
    var i1 := AngleStart(s);
    var d := NumUtil.DigitRun(s[i1..]);
    var intPart := s[i1..i1 + d];
    var last3 := if d > 3 then intPart[d - 3..] else intPart;
    var frac := s[i1 + d..];
    Text.DigitsValue(last3) > 180 ||
    (Text.DigitsValue(last3) == 180 && exists k :: 0 <= k < |frac| && frac[k] in "123456789")
  }

  /** `verify_rotate_angle`: checks a rotation name and returns its gate prefix, two
    * characters when it starts with `r` or its second character is `m`, else one. */
  function VerifyRotateAngle(opName: string): (r: Result<string, string>)
  {
    if !RotationName(opName) then Failure("bad smit")
    else if opName[0] == 'r' && |opName| > 2 && opName[2] == 'm' then Failure("bad smit")
    else if AngleAbove180(opName) then Failure("bad smit")
    else if opName[0] == 'r' || opName[1] == 'm' then Success(opName[..2])
    else Success(opName[..1])
  }

  /** An accepted rotation name matches the pattern, its angle is at most 180, and its
    * prefix is its first one or two characters, starting with `r`, `x`, `y` or `z`. */
  lemma VerifyRotateAngleMeaning(opName: string)
    requires VerifyRotateAngle(opName).Success?
    ensures RotationName(opName) && !AngleAbove180(opName)
    ensures VerifyRotateAngle(opName).value == (if opName[0] == 'r' || opName[1] == 'm' then opName[..2] else opName[..1])
    ensures VerifyRotateAngle(opName).value[0] in "rxyz" && !(opName[0] == 'r' && |opName| > 2 && opName[2] == 'm')
  {
  }

  lemma VerifyRotateAngleX90()
    ensures VerifyRotateAngle("x90") == Success("x")
  {
    assert AngleStart("x90") == 1;
    assert "x90"[1..] == "90" && "x90"[3..] == "" && "x90"[..1] == "x";
    assert NumUtil.DigitRun("90") == 2;
    assert "x90"[1..3] == "90";
    assert Text.DigitsValue("90") == 90 by { assert "90"[..1] == "9"; assert "9"[..0] == ""; }
  }

  lemma VerifyRotateAngleRejects()
    ensures VerifyRotateAngle("x270").Failure?
    ensures VerifyRotateAngle("rxm90").Failure?
    ensures VerifyRotateAngle("h").Failure?
  {
    assert "x270"[1..] == "270";
    assert NumUtil.DigitRun("270") == 3;
    assert "x270"[1..4] == "270";
    assert Text.DigitsValue("270") == 270 by { assert "270"[..2] == "27"; assert "27"[..1] == "2"; assert "2"[..0] == ""; }
  }

  /** `^r?[xyz](m)?` searched on a name longer than one character. */
  predicate LooksLikeRotation(s: string)
  {
    |s| > 1 && (s[0] in "xyz" || (s[0] == 'r' && s[1] in "xyz"))
  }

  /** One `|`-separated operation after parsing. */
  datatype ParsedOp = ParsedOp(name: string, regNum: nat, tgt: NumTgtQubits, mock: bool)

  /** The gate tables of the configuration: the names of the single- and two-qubit
    * gates. */
  datatype GateTables = GateTables(single: set<string>, two: set<string>)

  /** The one operation that may not share its bundle. */
  const MockMeasName: string := "mock_meas"

  /** The name (with `meas*` renamed `measure`), register number and mock flag of
    * one trimmed, lower-cased operation. */
  function NameAndRegister(op: string): (r: Result<(string, nat, bool), string>)
  {
    if op == MockMeasName then Success((op, 0, true))
    else if FirstSpace(op) == |op| then Failure("bad asm")
    else
      var word := op[..FirstSpace(op)];
      var runs := NumUtil.DigitRuns(op[FirstSpace(op)..]);
      if |runs| != 1 then Failure("bad asm")
      else Success((if Text.Contains(word, "meas") then "measure" else word, UintOf(runs[0]), false))
  }

  /** Only `mock_meas` is flagged as the mock measurement; any other accepted operation
    * has exactly one number after its name, and a name containing `meas` becomes
    * `measure`. */
  lemma NameAndRegisterMeaning(op: string)
    requires NameAndRegister(op).Success?
    ensures (NameAndRegister(op).value.2 <==> op == MockMeasName)
    ensures !NameAndRegister(op).value.2 ==> FirstSpace(op) < |op| && |NumUtil.DigitRuns(op[FirstSpace(op)..])| == 1
    ensures !NameAndRegister(op).value.2 && Text.Contains(op[..FirstSpace(op)], "meas") ==> NameAndRegister(op).value.0 == "measure"
  {
  }

  /** The loop body of `parse_qop` for one operation: its name and register are read,
    * then its gate class looked up. */
  function ParseOneOp(raw: string, gates: GateTables): (r: Result<ParsedOp, string>)
  {
    var named := NameAndRegister(Text.ToLower(NumUtil.Trim(raw)));
    if named.Failure? then Failure(named.error) else GateClass(named.value.0, named.value.1, named.value.2, gates)
  }

  /** The gate class of a named operation: the name's prefix (the rotation prefix for
    * rotation names) must be a configured gate; a two-qubit gate wins over a
    * single-qubit gate of the same name. */
  function GateClass(name: string, reg: nat, mock: bool, gates: GateTables): (r: Result<ParsedOp, string>)
    ensures r.Success? ==> r.value.name == name && r.value.regNum == reg && r.value.mock == mock
    ensures var p := if LooksLikeRotation(name) then VerifyRotateAngle(name) else Success(name);
      r.Success? <==> p.Success? && p.value in gates.two + gates.single
    ensures var p := if LooksLikeRotation(name) then VerifyRotateAngle(name) else Success(name);
      r.Success? ==> (r.value.tgt == Multiple <==> p.value in gates.two)
  {
    var prefix := if LooksLikeRotation(name) then VerifyRotateAngle(name) else Success(name);
    if prefix.Failure? then Failure(prefix.error)
    else if prefix.value in gates.two then Success(ParsedOp(name, reg, Multiple, mock))
    else if prefix.value in gates.single then Success(ParsedOp(name, reg, Single, mock))
    else Failure("bad asm")
  }

  /** An accepted operation is the mock measurement exactly when its trimmed, lower-cased
    * text is `mock_meas`, which has register 0; every register number fits 32 bits. */
  lemma ParseOneOpMeaning(raw: string, gates: GateTables)
    requires ParseOneOp(raw, gates).Success?
    ensures (ParseOneOp(raw, gates).value.mock <==> Text.ToLower(NumUtil.Trim(raw)) == MockMeasName)
    ensures ParseOneOp(raw, gates).value.mock ==> ParseOneOp(raw, gates).value.regNum == 0 && ParseOneOp(raw, gates).value.name == MockMeasName
    ensures ParseOneOp(raw, gates).value.regNum < 0x1_0000_0000
  {
    NameAndRegisterMeaning(Text.ToLower(NumUtil.Trim(raw)));
  }

  /** `ParseOneOp` for the given gate tables. */
  function OpParser(gates: GateTables): string -> Result<ParsedOp, string>
  {
    raw => ParseOneOp(raw, gates)
  }

  /** The operations of a bundle parsed one by one with `parse`, stopping at the
    * first that aborts. */
  function ParseOps(ops: seq<string>, parse: string -> Result<ParsedOp, string>): (r: Result<seq<ParsedOp>, string>)
    ensures r.Success? ==> |r.value| == |ops|
  {
    if ops == [] then Success([])
    else
      var init := ParseOps(ops[..|ops| - 1], parse);
      if init.Failure? then init
      else
        var last := parse(ops[|ops| - 1]);
        if last.Failure? then Failure(last.error) else Success(init.value + [last.value])
  }

  function Names(ops: seq<ParsedOp>): (r: seq<string>)
    ensures |r| == |ops| && forall k :: 0 <= k < |ops| ==> r[k] == ops[k].name
  {
    if ops == [] then [] else Names(ops[..|ops| - 1]) + [ops[|ops| - 1].name]
  }

  function Registers(ops: seq<ParsedOp>): (r: seq<nat>)
    ensures |r| == |ops| && forall k :: 0 <= k < |ops| ==> r[k] == ops[k].regNum
  {
    if ops == [] then [] else Registers(ops[..|ops| - 1]) + [ops[|ops| - 1].regNum]
  }

  function Targets(ops: seq<ParsedOp>): (r: seq<NumTgtQubits>)
    ensures |r| == |ops| && forall k :: 0 <= k < |ops| ==> r[k] == ops[k].tgt
  {
    if ops == [] then [] else Targets(ops[..|ops| - 1]) + [ops[|ops| - 1].tgt]
  }

  predicate AnyMock(ops: seq<ParsedOp>)
  {
    exists k :: 0 <= k < |ops| && ops[k].mock
  }

  predicate WordChar(c: char)
  {
    Text.IsAlnum(c) || c == '_'
  }

  /** The number of `\s` characters `s` starts with. */
  function SkipRegexSpace(s: string): (i: nat)
    ensures i <= |s| && forall k :: 0 <= k < i ==> RegexSpace(s[k])
  {
    if s != [] && RegexSpace(s[0]) then 1 + SkipRegexSpace(s[1..]) else 0
  }

  /** `^\d+\s*,\s*\w`: the bundle starts with an explicit wait time. */
  predicate HasTimePrefix(s: string)
  {
    var d := NumUtil.DigitRun(s);
    var a := d + SkipRegexSpace(s[d..]);
    d > 0 && a < |s| && s[a] == ',' &&
    var b := a + 1 + SkipRegexSpace(s[a + 1..]);
    b < |s| && WordChar(s[b])
  }

  /** The wait time and the operation text of a bundle: an explicit `N,` prefix gives
    * N and the text after the first comma, otherwise 1 and the whole text. */
  function SplitTime(s: string): (r: (nat, string))
    ensures !HasTimePrefix(s) ==> r == (1, s)
    ensures HasTimePrefix(s) ==> r.0 == UintOf(s[..NumUtil.DigitRun(s)]) && |r.1| < |s| && r.1 == s[|s| - |r.1|..]
  {
    if HasTimePrefix(s) then
      (UintOf(s[..NumUtil.DigitRun(s)]), s[NumUtil.IndexOf(s, ',') + 1..])
    else (1, s)
  }

  /** `parse_qop`'s outcome for `insnAsm`, given that `prior` operations were already
    * recorded: the wait time and the parsed operations, or an abort when an
    * operation is malformed, no operation results, or `mock_meas` is not alone. */
  function ParseQopSpec(insnAsm: string, gates: GateTables, prior: nat): (r: Result<(nat, seq<ParsedOp>), string>)
    ensures r.Success? ==> prior + |r.value.1| > 0
    ensures r.Success? && AnyMock(r.value.1) ==> prior == 0 && |r.value.1| == 1
    ensures r.Success? ==> r.value.0 == SplitTime(insnAsm).0
  {
    var tc := SplitTime(insnAsm);
    var parsed := ParseOps(NumUtil.SplitSpec(NumUtil.Trim(tc.1), '|'), OpParser(gates));
    if parsed.Failure? then Failure(parsed.error)
    else if prior + |parsed.value| == 0 || (AnyMock(parsed.value) && prior + |parsed.value| > 1) then
      Failure("bad asm")
    else Success((tc.0, parsed.value))
  }

  /** The quantum fields after `parse_qop` accepted a bundle: the wait time is set and
    * every operation's name, register number and gate class is appended. */
  function WithOps(q: Quantum, time: nat, ops: seq<ParsedOp>): (r: Quantum)
    ensures r.qOpName == q.qOpName + Names(ops) && r.qRegNum == q.qRegNum + Registers(ops)
    ensures r.qNumTgtQubitsType == q.qNumTgtQubitsType + Targets(ops) && r.qTimeSpecified == time
    ensures r.qQubitTuples == q.qQubitTuples && r.qQubitIndices == q.qQubitIndices && r.qInsnType == q.qInsnType
  {
    q.(qTimeSpecified := time, qOpName := q.qOpName + Names(ops), qRegNum := q.qRegNum + Registers(ops),
       qNumTgtQubitsType := q.qNumTgtQubitsType + Targets(ops))
  }

  /** The quantum fields after `parse_qop`: those of `q` with the bundle of `insnAsm`
    * recorded, or the abort `ParseQopSpec` describes. */
  function QopResult(q: Quantum, insnAsm: string, gates: GateTables): (r: Result<Quantum, string>)
    ensures r.Success? <==> ParseQopSpec(insnAsm, gates, |q.qOpName|).Success?
    ensures r.Success? ==> |r.value.qOpName| > 0 && r.value.qTimeSpecified == SplitTime(insnAsm).0
  {
    var p := ParseQopSpec(insnAsm, gates, |q.qOpName|);
    if p.Failure? then Failure(p.error) else Success(WithOps(q, p.value.0, p.value.1))
  }

  // ------------------------------------------------------------------ verify_parser_result

  /** The checks of `verify_parser_result` on the scalar fields. */
  predicate OperandsOk(o: Operands)
  {
    o.rsAddr < 32 && o.rtAddr < 32 && o.rdAddr < 32 &&
    -0x8_0000 <= o.imm <= 0x7_FFFF && o.uimm <= 0x7FFF &&
    -0x10_0000 <= o.brAddr <= 0xF_FFFF && o.brCond < 16 && o.qubitSel < 8
  }

  /** Every qubit index and tuple member is below `bound`, and every register number
    * below 32. */
  predicate QuantumOk(q: Quantum, bound: nat)
  {
    (forall i, j :: 0 <= i < |q.qQubitTuples| && 0 <= j < |q.qQubitTuples[i]| ==> q.qQubitTuples[i][j] < bound) &&
    (forall i :: 0 <= i < |q.qQubitIndices| ==> q.qQubitIndices[i] < bound) &&
    (forall i :: 0 <= i < |q.qRegNum| ==> q.qRegNum[i] < 32)
  }

  /** `verify_parser_result` as written: qubit indices are compared with `>`. */
  predicate ParserResultOkAsWritten(s: InsnState, numQubits: nat)
  {
    OperandsOk(s.operands) && QuantumOk(s.quantum, numQubits + 1)
  }

  /** `verify_parser_result` with every qubit index required to name a qubit. */
  predicate ParserResultOk(s: InsnState, numQubits: nat)
  {
    OperandsOk(s.operands) && QuantumOk(s.quantum, numQubits)
  }

  /** On a 7-qubit chip the index 7 passes the check as written but names no qubit. */
  lemma ParserResultOffByOne()
    ensures var s := ResetState.(quantum := ResetQuantum.(qQubitIndices := [7]));
      ParserResultOkAsWritten(s, 7) && !ParserResultOk(s, 7)
  {
    var s := ResetState.(quantum := ResetQuantum.(qQubitIndices := [7]));
    assert s.quantum.qQubitIndices[0] == 7;
  }

  /** The intended check is stronger than the check as written, and exactly as strong
    * when no index equals the qubit count. */
  lemma ParserResultOkStronger(s: InsnState, numQubits: nat)
    ensures ParserResultOk(s, numQubits) ==> ParserResultOkAsWritten(s, numQubits)
    ensures (ParserResultOkAsWritten(s, numQubits) && numQubits !in s.quantum.qQubitIndices &&
             (forall t :: t in s.quantum.qQubitTuples ==> numQubits !in t)) ==> ParserResultOk(s, numQubits)
  {
    var q := s.quantum;
    if ParserResultOkAsWritten(s, numQubits) && numQubits !in q.qQubitIndices &&
       (forall t :: t in q.qQubitTuples ==> numQubits !in t) {
      forall i, j | 0 <= i < |q.qQubitTuples| && 0 <= j < |q.qQubitTuples[i]|
        ensures q.qQubitTuples[i][j] < numQubits
      {
        assert q.qQubitTuples[i] in q.qQubitTuples;
      }
    }
  }

  // ------------------------------------------------------------------ the object

  /** `Qasm_instruction`: `reset`, `set_instruction` and the `parse_*` members assign
    * its fields in place. */
  class Instruction {
    var header: Header
    var op: Opcode
    var operands: Operands
    var quantum: Quantum

    function State(): InsnState
      reads this
    {
      InsnState(header, op, operands, quantum)
    }

    /** `Qasm_instruction()`: a reset instruction. */
    constructor ()
      ensures State() == ResetState
    {
      header, op, operands, quantum := ResetHeader, ResetOpcode, ResetOperands, ResetQuantum;
    }

    /** `reset`. */
    method Reset()
      modifies this
      ensures State() == ResetState
    {
      header, op, operands, quantum := ResetHeader, ResetOpcode, ResetOperands, ResetQuantum;
    }

    /** `set_instruction(insn, addr)`: reset, then decode the binary word. */
    method SetBinary(insn: Uint32, addr: Uint32) returns (r: Result<(), string>)
      modifies this
      ensures r.Success? <==> DecodeBinary(insn, addr).Success?
      ensures r.Success? ==> State() == DecodeBinary(insn, addr).value
    {
      Reset();
      var d := DecodeBinary(insn, addr);
      if d.Failure? {
        return Failure(d.error);
      }
      header, op, operands, quantum := d.value.header, d.value.op, d.value.operands, d.value.quantum;
      r := Success(());
    }

    /** `parse_opcode`. */
    method ParseOpcode(insn: string)
      modifies this
      ensures op == ClassifyOpcode(insn)
      ensures header == old(header) && operands == old(operands) && quantum == old(quantum)
    {
      op := ClassifyOpcode(insn);
    }

    /** `parse_br`: sets the condition and the relative branch address. */
    method ParseBr(insn: string, labels: map<string, nat>, addr: nat) returns (r: Result<(), string>)
      modifies this
      ensures r.Success? <==> ParseBrSpec(insn, labels, addr).Success?
      ensures r.Success? ==> operands == old(operands).(brCond := ParseBrSpec(insn, labels, addr).value.0,
                                                        brAddr := ParseBrSpec(insn, labels, addr).value.1)
      ensures r.Failure? ==> operands == old(operands)
      ensures header == old(header) && op == old(op) && quantum == old(quantum)
    {
      var p := ParseBrSpec(insn, labels, addr);
      if p.Failure? {
        return Failure(p.error);
      }
      operands := operands.(brCond := p.value.0, brAddr := p.value.1);
      r := Success(());
    }

    /** `parse_smis`: `smis s<r>, {<q>, ...}` records the register number and every
      * qubit index; a `t` register or fewer than two numbers aborts. */
    method ParseSmis() returns (r: Result<(), string>)
      modifies this
      ensures var runs := NumUtil.DigitRuns(header.insnAsm);
        r.Success? <==> !LetterBeforeDigit(header.insnAsm, 't') && |runs| >= 2
      ensures var runs := NumUtil.DigitRuns(header.insnAsm);
        r.Success? ==> quantum == old(quantum).(qRegNum := old(quantum.qRegNum) + [UintOf(runs[0])],
                                                qQubitIndices := old(quantum.qQubitIndices) + SizetsOf(runs[1..]))
      ensures r.Failure? ==> quantum == old(quantum)
      ensures header == old(header) && op == old(op) && operands == old(operands)
    {
      var s := header.insnAsm;
      if LetterBeforeDigit(s, 't') {
        return Failure("bad smis");
      }
      var runs := NumUtil.DigitRuns(s);
      if |runs| < 2 {
        return Failure("bad smis");
      }
      var indices := AppendIndices(quantum.qQubitIndices, runs);
      quantum := quantum.(qRegNum := quantum.qRegNum + [UintOf(runs[0])], qQubitIndices := indices);
      r := Success(());
    }

    /** `parse_smit`: `smit t<r>, {(<l>, <r>), ...}` records the register number and
      * the pairs; an `s` register, or an even count or fewer than three numbers,
      * aborts. */
    method ParseSmit() returns (r: Result<(), string>)
      modifies this
      ensures var runs := NumUtil.DigitRuns(header.insnAsm);
        r.Success? <==> !LetterBeforeDigit(header.insnAsm, 's') && |runs| % 2 == 1 && |runs| >= 3
      ensures var runs := NumUtil.DigitRuns(header.insnAsm);
        r.Success? ==> quantum == old(quantum).(qRegNum := old(quantum.qRegNum) + [UintOf(runs[0])],
                                                qQubitTuples := old(quantum.qQubitTuples) + PairsOf(runs[1..]))
      ensures r.Failure? ==> quantum == old(quantum)
      ensures header == old(header) && op == old(op) && operands == old(operands)
    {
      var s := header.insnAsm;
      if LetterBeforeDigit(s, 's') {
        return Failure("bad smit");
      }
      var runs := NumUtil.DigitRuns(s);
      if |runs| % 2 == 0 || |runs| < 3 {
        return Failure("bad smit");
      }
      var tuples := AppendPairs(quantum.qQubitTuples, runs);
      quantum := quantum.(qRegNum := quantum.qRegNum + [UintOf(runs[0])], qQubitTuples := tuples);
      r := Success(());
    }

    /** `parse_qop`: sets the wait time and records every operation's name, register
      * number and gate class, as `ParseQopSpec` describes. */
    method ParseQop(gates: GateTables) returns (r: Result<(), string>)
      modifies this
      ensures r.Success? <==> QopResult(old(quantum), header.insnAsm, gates).Success?
      ensures r.Success? ==> quantum == QopResult(old(quantum), header.insnAsm, gates).value
      ensures header == old(header) && op == old(op) && operands == old(operands)
    {
      var q := QopOf(quantum, header.insnAsm, gates);
      if q.Failure? {
        return Failure(q.error);
      }
      quantum := q.value;
      r := Success(());
    }

    /** The parsing half of `parse_qop`, before any field is written. */
    static method QopOf(q: Quantum, insnAsm: string, gates: GateTables) returns (r: Result<Quantum, string>)
      ensures r == QopResult(q, insnAsm, gates)
    {
      var tc := SplitTime(insnAsm);
      var qops := NumUtil.Split(NumUtil.Trim(tc.1), '|');
      var parsed, isMock := ParseEach(qops, OpParser(gates));
      if parsed.Failure? {
        return Failure(parsed.error);
      }
      var prior := |q.qOpName|;
      if prior + |parsed.value| == 0 || (isMock && prior + |parsed.value| > 1) {
        return Failure("bad asm");
      }
      r := Success(WithOps(q, tc.0, parsed.value));
    }

    /** `verify_parser_result` as written. */
    method VerifyParserResultAsWritten(numQubits: nat) returns (ok: bool)
      ensures ok == ParserResultOkAsWritten(State(), numQubits)
    {
      ok := OperandsOk(operands);
      if ok {
        ok := CheckQuantum(numQubits + 1);
      }
    }

    /** `verify_parser_result` with every qubit index required to name a qubit. */
    method VerifyParserResult(numQubits: nat) returns (ok: bool)
      ensures ok == ParserResultOk(State(), numQubits)
    {
      ok := OperandsOk(operands);
      if ok {
        ok := CheckQuantum(numQubits);
      }
    }

    /** The loops over the tuples, the indices and the register numbers. */
    method CheckQuantum(bound: nat) returns (ok: bool)
      ensures ok == QuantumOk(quantum, bound)
    {
      var q := quantum;
      var i := 0;
      while i < |q.qQubitTuples|
        invariant 0 <= i <= |q.qQubitTuples|
        invariant forall a, b :: 0 <= a < i && 0 <= b < |q.qQubitTuples[a]| ==> q.qQubitTuples[a][b] < bound
      {
        var j := 0;
        while j < |q.qQubitTuples[i]|
          invariant 0 <= j <= |q.qQubitTuples[i]|
          invariant forall b :: 0 <= b < j ==> q.qQubitTuples[i][b] < bound
        {
          if q.qQubitTuples[i][j] >= bound {
            return false;
          }
          j := j + 1;
        }
        i := i + 1;
      }
      i := 0;
      while i < |q.qQubitIndices|
        invariant 0 <= i <= |q.qQubitIndices|
        invariant forall a :: 0 <= a < i ==> q.qQubitIndices[a] < bound
      {
        if q.qQubitIndices[i] >= bound {
          return false;
        }
        i := i + 1;
      }
      i := 0;
      while i < |q.qRegNum|
        invariant 0 <= i <= |q.qRegNum|
        invariant forall a :: 0 <= a < i ==> q.qRegNum[a] < 32
      {
        if q.qRegNum[i] >= 32 {
          return false;
        }
        i := i + 1;
      }
      ok := true;
    }
  }

  /** The loop of `parse_qop` over the operations, stopping at the first abort. */
  method ParseEach(qops: seq<string>, parse: string -> Result<ParsedOp, string>) returns (r: Result<seq<ParsedOp>, string>, isMock: bool)
    ensures r == ParseOps(qops, parse)
    ensures r.Success? ==> (isMock <==> AnyMock(r.value))
  {
    var done: seq<ParsedOp> := [];
    isMock := false;
    var i := 0;
    while i < |qops|
      invariant 0 <= i <= |qops|
      invariant ParseOps(qops[..i], parse) == Success(done)
      invariant isMock <==> AnyMock(done)
    {
      assert qops[..i + 1][..i] == qops[..i];
      var p := parse(qops[i]);
      if p.Failure? {
        assert qops[..i + 1][..i] == qops[..i];
        ParseOpsExtends(qops, i + 1, parse);
        return Failure(p.error), isMock;
      }
      isMock := isMock || p.value.mock;
      AnyMockSnoc(done, p.value);
      assert (done + [p.value])[..|done|] == done;
      done := done + [p.value];
      i := i + 1;
    }
    assert qops[..i] == qops;
    r := Success(done);
  }

  lemma AnyMockSnoc(ops: seq<ParsedOp>, o: ParsedOp)
    ensures AnyMock(ops + [o]) <==> AnyMock(ops) || o.mock
  {
    var d := ops + [o];
    assert d[|ops|] == o;
    if AnyMock(ops) {
      var k :| 0 <= k < |ops| && ops[k].mock;
      assert d[k] == ops[k];
    }
    if AnyMock(d) {
      var k :| 0 <= k < |d| && d[k].mock;
      if k < |ops| {
        assert ops[k] == d[k];
      }
    }
  }

  /** A bundle aborts exactly when one of its operations does. */
  lemma {:induction false} ParseOpsFailure(ops: seq<string>, parse: string -> Result<ParsedOp, string>)
    ensures ParseOps(ops, parse).Failure? <==> exists k :: 0 <= k < |ops| && parse(ops[k]).Failure?
  {
    if ops != [] {
      var init := ops[..|ops| - 1];
      ParseOpsFailure(init, parse);
      if ParseOps(init, parse).Failure? {
        var k :| 0 <= k < |init| && parse(init[k]).Failure?;
        assert ops[k] == init[k];
      } else if ParseOps(ops, parse).Failure? {
        assert parse(ops[|ops| - 1]).Failure?;
      } else {
        forall k | 0 <= k < |ops|
          ensures parse(ops[k]).Success?
        {
        }
      }
    }
  }

  /** The first operation to abort decides the bundle's error. */
  lemma {:induction false} ParseOpsExtends(ops: seq<string>, n: nat, parse: string -> Result<ParsedOp, string>)
    requires 0 < n <= |ops| && ParseOps(ops[..n - 1], parse).Success? && parse(ops[n - 1]).Failure?
    ensures ParseOps(ops, parse) == Failure(parse(ops[n - 1]).error)
    decreases |ops|
  {
    if |ops| == n {
      assert ops[..|ops| - 1] == ops[..n - 1];
    } else {
      var init := ops[..|ops| - 1];
      assert init[..n - 1] == ops[..n - 1] && init[n - 1] == ops[n - 1];
      ParseOpsExtends(init, n, parse);
    }
  }

  /** The loop of `parse_smis`: every number after the register is a qubit index. */
  method AppendIndices(indices0: seq<nat>, runs: seq<string>) returns (indices: seq<nat>)
    requires |runs| >= 1
    ensures indices == indices0 + SizetsOf(runs[1..])
  {
    indices := indices0;
    var i := 1;
    while i < |runs|
      invariant 1 <= i <= |runs|
      invariant indices == indices0 + SizetsOf(runs[1..i])
    {
      SizetsStep(runs, i);
      indices := indices + [SizetOf(runs[i])];
      i := i + 1;
    }
    assert runs[1..i] == runs[1..];
  }

  /** The loop of `parse_smit`: the numbers after the register, two at a time. */
  method AppendPairs(tuples0: seq<seq<nat>>, runs: seq<string>) returns (tuples: seq<seq<nat>>)
    requires |runs| % 2 == 1
    ensures tuples == tuples0 + PairsOf(runs[1..])
  {
    tuples := tuples0;
    var i := 1;
    assert runs[1..1] == [];
    while i < |runs|
      invariant 1 <= i <= |runs| && i % 2 == 1
      invariant tuples == tuples0 + PairsOf(runs[1..i])
    {
      PairsStep(runs, i);
      tuples := tuples + [[SizetOf(runs[i]), SizetOf(runs[i + 1])]];
      i := i + 2;
    }
    assert runs[1..i] == runs[1..];
  }

  lemma PairsStep(runs: seq<string>, i: nat)
    requires 1 <= i && i + 1 < |runs| && i % 2 == 1
    ensures PairsOf(runs[1..i + 2]) == PairsOf(runs[1..i]) + [[SizetOf(runs[i]), SizetOf(runs[i + 1])]]
  {
    assert runs[1..i + 2][..i - 1] == runs[1..i];
  }

  lemma SizetsStep(runs: seq<string>, i: nat)
    requires 1 <= i < |runs|
    ensures SizetsOf(runs[1..i + 1]) == SizetsOf(runs[1..i]) + [SizetOf(runs[i])]
  {
    assert runs[1..i + 1][..i - 1] == runs[1..i];
  }
}
