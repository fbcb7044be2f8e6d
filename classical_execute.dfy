/** The execute stage of src/1_digital/classical/classical_execute.cpp: the decode to
  * execute pipeline register, operand forwarding from the memory and write-back stages,
  * the 32-bit ALU, the compare and test flags and the load/store control signals.
  *
  * A register holds an `sc_int<32>`; here it is the unsigned reading of its 32 bits, a
  * `Word`, and `Signed` gives its two's complement value. */
module ClassicalExecute {
  import opened Wrappers
  import opened GenericIf
  import Q = QasmInstruction
  import ClassicalMem
  import NumUtil

  const RegFileNum := 32
  const NumCmpFlags := 16
  const NumTestFlags := 11

  /** The 32 bits of a register, read as an unsigned number. */
  type Word = Uint32

  /** `sc_int<20>`: the immediate of ADDI, LDI and the memory instructions. */
  type Imm20 = x: int | -0x8_0000 <= x < 0x8_0000

  /** `sc_uint<15>`: the upper immediate of LDUI. */
  type Uimm15 = x: int | 0 <= x < 0x8000

  // ------------------------------------------------------------------ 32-bit arithmetic

  /** The two's complement value of a register. */
  function Signed(w: Word): int
  {
    if w < 0x8000_0000 then w else w - 0x1_0000_0000
  }

  /** What assigning a 64-bit intermediate result to an `sc_int<32>` keeps. */
  function Wrap(x: int): Word
  {
    x % 0x1_0000_0000
  }

  /** Reading a register as a signed value and writing it back changes nothing, and the
    * signed reading of a wrapped value is its 32-bit two's complement wrap. */
  lemma WrapSigned(w: Word, x: int)
    ensures Wrap(Signed(w)) == w
    ensures Signed(Wrap(x)) == NumUtil.Int32(x)
    ensures NumUtil.IntMin <= Signed(w) <= NumUtil.IntMax
  {
  }

  /** C++ integer division: the quotient truncated toward zero. */
  function TruncDiv(a: int, b: int): int
    requires b != 0
  {
    var q := (if a < 0 then -a else a) / (if b < 0 then -b else b);
    if (a < 0) != (b < 0) then -q else q
  }

  /** C++ `%`: the remainder that goes with the truncated quotient. */
  function TruncRem(a: int, b: int): int
    requires b != 0
  {
    a - b * TruncDiv(a, b)
  }

  /** The remainder is smaller than the divisor in magnitude and carries the sign of the
    * dividend, which is what tells C++ division apart from Euclidean division. */
  lemma TruncDivRem(a: int, b: int)
    requires b != 0
    ensures -(if b < 0 then -b else b) < TruncRem(a, b) < (if b < 0 then -b else b)
    ensures a >= 0 ==> TruncRem(a, b) >= 0
    ensures a <= 0 ==> TruncRem(a, b) <= 0
  {
    var na := if a < 0 then -a else a;
    var nb := if b < 0 then -b else b;
    var q := na / nb;
    var m := na % nb;
    assert na == nb * q + m && 0 <= m < nb;
    if a < 0 {
      assert b * TruncDiv(a, b) == -(nb * q);
      assert TruncRem(a, b) == -m;
    } else {
      assert b * TruncDiv(a, b) == nb * q;
      assert TruncRem(a, b) == m;
    }
  }

  // ------------------------------------------------------------------ bitwise operations

  function Pow2(k: nat): nat
  {
    if k == 0 then 1 else 2 * Pow2(k - 1)
  }

  /** Bit `k` of a number. */
  function Bit(x: nat, k: nat): bool
  {
    if k == 0 then x % 2 == 1 else Bit(x / 2, k - 1)
  }

  /** The `n` low bits of `a` and `b` combined bit by bit with `f`. */
  function Bitwise(f: (bool, bool) -> bool, a: nat, b: nat, n: nat): (r: nat)
    ensures r < Pow2(n)
  {
    if n == 0 then 0
    else (if f(a % 2 == 1, b % 2 == 1) then 1 else 0) + 2 * Bitwise(f, a / 2, b / 2, n - 1)
  }

  /** Each bit of the result is `f` of the operands' bits in that position. */
  lemma {:induction false} BitwiseBit(f: (bool, bool) -> bool, a: nat, b: nat, n: nat, k: nat)
    requires k < n
    ensures Bit(Bitwise(f, a, b, n), k) == f(Bit(a, k), Bit(b, k))
  {
    var r := Bitwise(f, a, b, n);
    var rest := Bitwise(f, a / 2, b / 2, n - 1);
    assert r / 2 == rest && r % 2 == (if f(a % 2 == 1, b % 2 == 1) then 1 else 0);
    if k > 0 {
      BitwiseBit(f, a / 2, b / 2, n - 1, k - 1);
    }
  }

  function OrBit(x: bool, y: bool): bool { x || y }
  function AndBit(x: bool, y: bool): bool { x && y }
  function XorBit(x: bool, y: bool): bool { x != y }
  function NotBit(x: bool, y: bool): bool { !x }

  /** A value XORed with itself is zero in every width. */
  lemma {:induction false} XorSelf(a: nat, n: nat)
    ensures Bitwise(XorBit, a, a, n) == 0
  {
    if n > 0 {
      XorSelf(a / 2, n - 1);
    }
  }

  /** Complementing twice gives back every value that fits in the width. */
  lemma {:induction false} NotNot(a: nat, n: nat)
    requires a < Pow2(n)
    ensures Bitwise(NotBit, Bitwise(NotBit, a, 0, n), 0, n) == a
  {
    if n > 0 {
      var inner := Bitwise(NotBit, a, 0, n);
      var rest := Bitwise(NotBit, a / 2, 0, n - 1);
      assert inner / 2 == rest && inner % 2 == 1 - a % 2;
      NotNot(a / 2, n - 1);
    }
  }

  lemma Pow2Word()
    ensures Pow2(32) == 0x1_0000_0000
  {
    assert Pow2(8) == 0x100;
    assert Pow2(16) == 0x1_0000;
    assert Pow2(24) == 0x100_0000;
  }

  /** A bitwise operation of two registers, on all 32 bits. */
  function Logic(f: (bool, bool) -> bool, a: Word, b: Word): (r: Word)
  {
    Pow2Word();
    Bitwise(f, a, b, 32)
  }

  /** Each of the 32 bits of a register-to-register logic result is `f` of the operands'
    * bits, so OR, AND, XOR and NOT act on the 32 bits independently. */
  lemma LogicBits(f: (bool, bool) -> bool, a: Word, b: Word, k: nat)
    requires k < 32
    ensures Bit(Logic(f, a, b), k) == f(Bit(a, k), Bit(b, k))
  {
    BitwiseBit(f, a, b, 32, k);
  }

  /** `xor rd, rs, rs` clears a register and `not` undoes itself. */
  lemma LogicIdioms(a: Word, b: Word)
    ensures Logic(XorBit, a, a) == 0
    ensures Logic(NotBit, Logic(NotBit, b, a), a) == b
  {
    XorSelf(a, 32);
    Pow2Word();
    var nb := Bitwise(NotBit, b, a, 32);
    NotIgnoresRight(b, a, 32);
    NotIgnoresRight(nb, a, 32);
    NotNot(b, 32);
  }

  lemma {:induction false} NotIgnoresRight(a: nat, b: nat, n: nat)
    ensures Bitwise(NotBit, a, b, n) == Bitwise(NotBit, a, 0, n)
  {
    if n > 0 {
      NotIgnoresRight(a / 2, b / 2, n - 1);
    }
  }

  // ------------------------------------------------------------------ the ALU

  /** ADD and ADDC: the sum of the two signed operands, kept in 32 bits. */
  function Add(a: Word, b: Word): Word
  {
    Wrap(Signed(a) + Signed(b))
  }

  /** SUB: the difference of the two signed operands, kept in 32 bits. */
  function Sub(a: Word, b: Word): Word
  {
    Wrap(Signed(a) - Signed(b))
  }

  /** ADDI and the address of a memory access: the register plus the sign-extended
    * 20-bit immediate. */
  function AddImm(a: Word, imm: Imm20): Word
  {
    Wrap(Signed(a) + imm)
  }

  function Mul(a: Word, b: Word): Word
  {
    Wrap(Signed(a) * Signed(b))
  }

  function Div(a: Word, b: Word): Word
    requires b != 0
  {
    Wrap(TruncDiv(Signed(a), Signed(b)))
  }

  function Rem(a: Word, b: Word): Word
    requires b != 0
  {
    Wrap(TruncRem(Signed(a), Signed(b)))
  }

  /** LDI: the sign-extended 20-bit immediate. */
  function Ldi(imm: Imm20): Word
  {
    Wrap(imm)
  }

  /** LDUI: bits 31..17 become the 15-bit immediate and bits 16..0 are those of Rs. */
  function Ldui(uimm: Uimm15, rs: Word): (r: Word)
    ensures r / 0x2_0000 == uimm
    ensures r % 0x2_0000 == rs % 0x2_0000
  {
    uimm * 0x2_0000 + rs % 0x2_0000
  }

  /** Subtracting what was added gives the register back, overflow or not. */
  lemma AddSubInverse(a: Word, b: Word)
    ensures Sub(Add(a, b), b) == a
  {
    var s := Signed(a) + Signed(b);
    var w := Add(a, b);
    assert Signed(w) == s - (s - Signed(w)) && (s - Signed(w)) % 0x1_0000_0000 == 0;
    WrapShift(Signed(a), s - Signed(w));
  }

  lemma WrapShift(x: int, d: int)
    requires d % 0x1_0000_0000 == 0
    ensures Wrap(x - d) == Wrap(x)
  {
    var k := d / 0x1_0000_0000;
    assert d == k * 0x1_0000_0000;
  }

  /** Away from the single overflowing case `INT_MIN / -1`, DIV and REM give the C++
    * quotient and remainder exactly, and together they rebuild the dividend. */
  lemma DivRemExact(a: Word, b: Word)
    requires b != 0 && !(Signed(a) == NumUtil.IntMin && Signed(b) == -1)
    ensures Signed(Div(a, b)) == TruncDiv(Signed(a), Signed(b))
    ensures Signed(Rem(a, b)) == TruncRem(Signed(a), Signed(b))
    ensures Signed(a) == Signed(b) * Signed(Div(a, b)) + Signed(Rem(a, b))
  {
    var x, y := Signed(a), Signed(b);
    TruncDivRange(x, y);
    TruncDivRem(x, y);
    SignedWrapInRange(TruncDiv(x, y));
    SignedWrapInRange(TruncRem(x, y));
  }

  lemma SignedWrapInRange(t: int)
    requires NumUtil.IntMin <= t <= NumUtil.IntMax
    ensures Signed(Wrap(t)) == t
  {
  }

  lemma TruncDivRange(x: int, y: int)
    requires NumUtil.IntMin <= x <= NumUtil.IntMax && NumUtil.IntMin <= y <= NumUtil.IntMax
    requires y != 0 && !(x == NumUtil.IntMin && y == -1)
    ensures NumUtil.IntMin <= TruncDiv(x, y) <= NumUtil.IntMax
  {
    var nx := if x < 0 then -x else x;
    var ny := if y < 0 then -y else y;
    QuotientBound(nx, ny);
  }

  lemma QuotientBound(n: nat, d: nat)
    requires d >= 1
    ensures n / d <= n
    ensures d == 1 ==> n / d == n
    ensures d >= 2 ==> 2 * (n / d) <= n
  {
    var q, m := n / d, n % d;
    assert n == d * q + m && m >= 0;
    MulMono(d, q, if d >= 2 then 2 else 1);
  }

  lemma {:induction false} MulMono(d: nat, q: nat, c: nat)
    requires d >= c
    ensures d * q >= c * q
  {
    if q > 0 {
      MulMono(d, q - 1, c);
      assert d * q == d * (q - 1) + d;
      assert c * q == c * (q - 1) + c;
    }
  }

  /** `INT_MIN / -1` wraps back to `INT_MIN`, and the remainder is 0. */
  lemma DivOverflow()
    ensures Div(0x8000_0000, 0xFFFF_FFFF) == 0x8000_0000
    ensures Rem(0x8000_0000, 0xFFFF_FFFF) == 0
  {
  }

  /** LDI of the low 17 bits followed by LDUI of the high 15 bits loads any 32-bit
    * constant. */
  lemma LdiLduiLoadsConstant(c: Word)
    ensures Ldui(c / 0x2_0000, Ldi(c % 0x2_0000)) == c
  {
  }

  // ------------------------------------------------------------------ flags

  /** The compare flags after CMP or SUBC: 2/3 equal and not equal, 8..11 the unsigned
    * and 12..15 the signed less, greater-or-equal, less-or-equal and greater; the other
    * flags keep their values. */
  function CmpFlags(f: seq<bool>, rs: Word, rt: Word): (r: seq<bool>)
    requires |f| == NumCmpFlags
  {
    var a, b := Signed(rs), Signed(rt);
    f[2 := rs == rt][3 := !(rs == rt)]
     [8 := rs < rt][9 := rs >= rt][10 := rs <= rt][11 := rs > rt]
     [12 := a < b][13 := a >= b][14 := a <= b][15 := a > b]
  }

  /** The condition codes a branch can test after a compare: each "not" code is the
    * negation of its partner, "less or equal" is "less" or "equal" in both readings,
    * the two readings agree on non-negative operands, and the codes 0, 1 and 4..7 are
    * not touched. */
  lemma CmpFlagsConditions(f: seq<bool>, rs: Word, rt: Word)
    requires |f| == NumCmpFlags
    ensures |CmpFlags(f, rs, rt)| == NumCmpFlags
    ensures var r := CmpFlags(f, rs, rt);
      (r[2] <==> Signed(rs) == Signed(rt)) && r[3] == !r[2]
      && r[9] == !r[8] && r[10] == (r[8] || r[2]) && r[11] == !r[10]
      && r[13] == !r[12] && r[14] == (r[12] || r[2]) && r[15] == !r[14]
      && (Signed(rs) >= 0 && Signed(rt) >= 0 ==> r[8] == r[12])
      && (forall i :: 0 <= i < NumCmpFlags && !(2 <= i <= 3) && !(8 <= i) ==> r[i] == f[i])
  {
  }

  /** `de2ex_ff` forces flag 0 ("always") to 1 and flag 1 ("never") to 0 every cycle. */
  function FixFlags(f: seq<bool>): (r: seq<bool>)
    requires |f| == NumCmpFlags
    ensures |r| == NumCmpFlags && FixedFlags(r)
    ensures forall i :: 2 <= i < NumCmpFlags ==> r[i] == f[i]
  {
    f[0 := true][1 := false]
  }

  predicate FixedFlags(f: seq<bool>)
  {
    |f| == NumCmpFlags && f[0] && !f[1]
  }

  /** `flags_test` after TEST or ADDC as the source writes it: flag 6, commented "gez",
    * is assigned `!(Rs >= 0)`. */
  function TestFlagsAsWritten(f: seq<bool>, rs: Word, rt: Word): seq<bool>
    requires |f| == NumTestFlags
  {
    f[0 := true][1 := false][5 := Signed(rs) < 0][6 := !(Signed(rs) >= 0)]
     [7 := rs < rt][8 := rs >= rt][9 := Signed(rs) == 0][10 := Signed(rs) != 0]
  }

  /** As written, "gez" is a copy of "ltz": a zero register reads as not
    * greater-or-equal to zero. */
  lemma TestGezAsWritten(f: seq<bool>, rs: Word, rt: Word)
    requires |f| == NumTestFlags
    ensures TestFlagsAsWritten(f, rs, rt)[6] == TestFlagsAsWritten(f, rs, rt)[5]
    ensures !TestFlagsAsWritten(f, 0, rt)[6]
  {
  }

  /** `flags_test` after TEST or ADDC, with "gez" meaning Rs >= 0. */
  function TestFlags(f: seq<bool>, rs: Word, rt: Word): seq<bool>
    requires |f| == NumTestFlags
  {
    f[0 := true][1 := false][5 := Signed(rs) < 0][6 := Signed(rs) >= 0]
     [7 := rs < rt][8 := rs >= rt][9 := Signed(rs) == 0][10 := Signed(rs) != 0]
  }

  /** Each test code is the negation of its partner: ltz/gez, notcarry/carry and
    * eqz/nez; "always" and "never" hold their fixed values. */
  lemma TestFlagsConditions(f: seq<bool>, rs: Word, rt: Word)
    requires |f| == NumTestFlags
    ensures |TestFlags(f, rs, rt)| == NumTestFlags
    ensures var r := TestFlags(f, rs, rt);
      r[0] && !r[1] && (r[5] <==> Signed(rs) < 0) && r[6] == !r[5] && r[8] == !r[7]
      && (r[9] <==> rs == 0) && r[10] == !r[9] && r[2] == f[2] && r[3] == f[3] && r[4] == f[4]
  {
  }

  // ------------------------------------------------------------------ forwarding

  /** What a later stage is about to write back: its `run`, `wr_rd_en`, `rd_addr` and
    * value. */
  datatype StageWrite = StageWrite(run: bool, wrRdEn: bool, rdAddr: nat, value: Word)

  predicate Writes(w: StageWrite, addr: nat)
  {
    w.run && w.wrRdEn && w.rdAddr == addr
  }

  /** Operand forwarding: the memory stage's value when it is about to write the
    * register, else the write-back stage's, else the register file. */
  function Forward(rf: seq<Word>, addr: nat, mem: StageWrite, wb: StageWrite): Word
    requires addr < |rf|
  {
    if Writes(mem, addr) then mem.value
    else if Writes(wb, addr) then wb.value
    else rf[addr]
  }

  /** The register file once a stage's pending write has landed. */
  function Commit(rf: seq<Word>, w: StageWrite): (r: seq<Word>)
  {
    if w.run && w.wrRdEn && w.rdAddr < |rf| then rf[w.rdAddr := w.value] else rf
  }

  /** A forwarded operand is the register as it will be once the older write-back
    * stage's and then the younger memory stage's writes have landed, so the memory
    * stage's value wins over the write-back stage's. */
  lemma ForwardSeesPendingWrites(rf: seq<Word>, addr: nat, mem: StageWrite, wb: StageWrite)
    requires addr < |rf|
    ensures Forward(rf, addr, mem, wb) == Commit(Commit(rf, wb), mem)[addr]
  {
  }

  // ------------------------------------------------------------------ memory control

  predicate IsLoad(op: nat)
  {
    op == Q.LB || op == Q.LBU || op == Q.LW
  }

  predicate IsStore(op: nat)
  {
    op == Q.SB || op == Q.SW
  }

  /** The control signals of a memory instruction. */
  datatype MemCtl = MemCtl(strobe: bool, rw: bool, wrRdEn: bool, addrSel: ClassicalMem.AddrSel, sext: bool)

  const NoMemCtl := MemCtl(false, false, false, ClassicalMem.AddrWord, false)

  /** LB, LBU, LW, SB and SW all strobe the memory; only loads read and write Rd back,
    * only LB sign-extends, and the access is a byte for LB, LBU and SB and a word for LW
    * and SW. */
  function MemControl(op: nat): (c: MemCtl)
    requires IsLoad(op) || IsStore(op)
    ensures c.strobe && c.rw == IsLoad(op) && c.wrRdEn == IsLoad(op) && (c.sext <==> op == Q.LB)
    ensures c.addrSel == ClassicalMem.AddrByte <==> op == Q.LB || op == Q.LBU || op == Q.SB
    ensures c.addrSel == ClassicalMem.AddrWord <==> op == Q.LW || op == Q.SW
  {
    if op == Q.LB then MemCtl(true, true, true, ClassicalMem.AddrByte, true)
    else if op == Q.LBU then MemCtl(true, true, true, ClassicalMem.AddrByte, false)
    else if op == Q.LW then MemCtl(true, true, true, ClassicalMem.AddrWord, false)
    else if op == Q.SB then MemCtl(true, false, false, ClassicalMem.AddrByte, false)
    else MemCtl(true, false, false, ClassicalMem.AddrWord, false)
  }

  // ------------------------------------------------------------------ SUBC

  /** SUBC as the source writes it: Rd receives Rs + Rt while the flags are set as by
    * CMP. */
  function SubcResultAsWritten(rs: Word, rt: Word): Word
  {
    Add(rs, rt)
  }

  /** As written, SUBC of two equal registers sets "equal" yet writes a non-zero result:
    * 1 SUBC 1 gives 2. */
  lemma SubcAsWrittenDisagrees(f: seq<bool>)
    requires |f| == NumCmpFlags
    ensures CmpFlags(f, 1, 1)[2] && SubcResultAsWritten(1, 1) == 2
  {
  }

  /** SUBC: Rd receives the difference Rs - Rt. */
  function SubcResult(rs: Word, rt: Word): Word
  {
    Sub(rs, rt)
  }

  /** The difference SUBC writes is zero exactly when the flags it sets say "equal". */
  lemma SubcAgreesWithFlags(f: seq<bool>, rs: Word, rt: Word)
    requires |f| == NumCmpFlags
    ensures SubcResult(rs, rt) == 0 <==> CmpFlags(f, rs, rt)[2]
  {
    var d := Signed(rs) - Signed(rt);
    assert -0x1_0000_0000 < d < 0x1_0000_0000;
    if Wrap(d) == 0 {
      assert d == 0 || d == 0x1_0000_0000 || d == -0x1_0000_0000;
    }
  }

  // ------------------------------------------------------------------ the stage

  /** The decode-stage outputs that `de2ex_ff` registers. */
  datatype DeSignals = DeSignals(
    insn: Q.InsnState, stall: bool, qValid: bool, measEna: bool, run: bool,
    fmrReadyNext: bool, qmrData: bool, pc: nat, opcode: nat, rsAddr: nat, rtAddr: nat,
    rdAddr: nat, imm: Imm20, uimm: Uimm15, brAddr: int, brCond: nat, insnUseRd: bool)

  /** The execute-stage registers. */
  datatype ExRegs = ExRegs(
    insn: Q.InsnState, qValid: bool, measEna: bool, run: bool, fmrReady: bool,
    qmrData: bool, pc: nat, opcode: nat, rsAddr: nat, rtAddr: nat, rdAddr: nat, imm: Imm20,
    uimm: Uimm15, brAddr: int, brCond: nat, insnUseRd: bool)

  /** `de2ex_ff`: every decode signal one cycle later, except that a stalled decode
    * stage hands over an instruction that neither runs nor issues to the quantum
    * pipeline nor enables a measurement. */
  function De2Ex(d: DeSignals): (e: ExRegs)
    ensures d.stall ==> !e.qValid && !e.measEna && !e.run
    ensures !d.stall ==> e.qValid == d.qValid && e.measEna == d.measEna && e.run == d.run
    ensures e.insn == d.insn && e.fmrReady == d.fmrReadyNext && e.qmrData == d.qmrData
    ensures e.opcode == d.opcode && e.rsAddr == d.rsAddr && e.rtAddr == d.rtAddr && e.rdAddr == d.rdAddr
    ensures e.imm == d.imm && e.uimm == d.uimm && e.brCond == d.brCond && e.pc == d.pc
  {
    ExRegs(d.insn, !d.stall && d.qValid, !d.stall && d.measEna, !d.stall && d.run,
           d.fmrReadyNext, d.qmrData, d.pc, d.opcode, d.rsAddr, d.rtAddr, d.rdAddr, d.imm,
           d.uimm, d.brAddr, d.brCond, d.insnUseRd)
  }

  /** The opcodes of the `execution` switch, 0..2, 8..10 and 12..31; any other opcode of
    * a classical instruction aborts the simulation. */
  predicate Known(op: nat)
  {
    op <= Q.ADDI || Q.STOP <= op <= Q.SW || Q.TEST <= op <= Q.SUB
  }

  /** The opcodes that write a value back to Rd: ADDI, the three loads and DIV..SUB
    * (opcodes 17..31). */
  predicate WritesRd(op: nat)
  {
    op == Q.ADDI || IsLoad(op) || Q.DIV <= op <= Q.SUB
  }

  /** The value `execution` drives onto `ex_rd_value`: the ALU result, the flag FBR
    * copies, the measurement result FMR copies, the address of a memory access, or 0.
    * `WritesRd` says which of these are written back. */
  function Compute(op: nat, rs: Word, rt: Word, e: ExRegs, flag: bool): Word
    requires (op == Q.DIV || op == Q.REM) ==> rt != 0
  {
    if op == Q.ADD || op == Q.ADDC then Add(rs, rt)
    else if op == Q.ADDI then AddImm(rs, e.imm)
    else if op == Q.SUB then Sub(rs, rt)
    else if op == Q.SUBC then SubcResultAsWritten(rs, rt)
    else if op == Q.DIV then Div(rs, rt)
    else if op == Q.MUL then Mul(rs, rt)
    else if op == Q.REM then Rem(rs, rt)
    else if op == Q.OR then Logic(OrBit, rs, rt)
    else if op == Q.AND then Logic(AndBit, rs, rt)
    else if op == Q.XOR then Logic(XorBit, rs, rt)
    else if op == Q.NOT then Logic(NotBit, rt, 0)
    else if op == Q.LDI then Ldi(e.imm)
    else if op == Q.LDUI then Ldui(e.uimm, rs)
    else if op == Q.FBR then (if flag then 1 else 0)
    else if op == Q.FMR then (if e.qmrData then 1 else 0)
    else if IsLoad(op) || IsStore(op) then AddImm(rs, e.imm)
    else 0
  }

  /** A memory instruction drives the address Rs + imm, and an instruction that writes
    * nothing back drives 0 unless it is a store. */
  lemma ComputeAddress(op: nat, rs: Word, rt: Word, e: ExRegs, flag: bool)
    requires (op == Q.DIV || op == Q.REM) ==> rt != 0
    ensures IsLoad(op) || IsStore(op) ==> Compute(op, rs, rt, e, flag) == AddImm(rs, e.imm)
    ensures !WritesRd(op) && !IsStore(op) ==> Compute(op, rs, rt, e, flag) == 0
  {
  }

  /** The execute outputs the memory stage reads. */
  datatype ExOut = ExOut(rdValue: Word, wrRdEn: bool, memRw: bool, memStrobe: bool,
                         memData: Word, addrSel: ClassicalMem.AddrSel, sext: bool, ex2reg: bool)

  /** The values `execution` drives and keeps between activations. */
  datatype ExecState = ExecState(out: ExOut, condResult: bool, done: bool,
                                 flagsCmp: seq<bool>, flagsTest: seq<bool>)

  predicate ValidState(s: ExecState)
  {
    |s.flagsCmp| == NumCmpFlags && |s.flagsTest| == NumTestFlags
  }

  /** The cases in which `execution` ends the simulation: a division by zero, and an
    * unknown opcode on an instruction that is not a quantum one. REM by zero is given
    * the same outcome. */
  predicate Aborts(e: ExRegs, rt: Word)
  {
    ((e.opcode == Q.DIV || e.opcode == Q.REM) && rt == 0) || (!Known(e.opcode) && !e.qValid)
  }

  /** `execution`, one activation: nothing happens unless the stage runs; otherwise the
    * forwarded operands go through the ALU, the flags and the memory control. */
  function Execute(s: ExecState, e: ExRegs, rf: seq<Word>, mem: StageWrite, wb: StageWrite): (r: Result<ExecState, string>)
    requires ValidState(s) && |rf| == RegFileNum
    requires e.rsAddr < RegFileNum && e.rtAddr < RegFileNum && e.brCond < NumCmpFlags
    ensures !e.run ==> r == Success(s)
    ensures r.Failure? <==> e.run && Aborts(e, Forward(rf, e.rtAddr, mem, wb))
    ensures r.Success? ==> ValidState(r.value)
    ensures r.Success? && FixedFlags(s.flagsCmp) ==> FixedFlags(r.value.flagsCmp)
  {
    if !e.run then Success(s)
    else
      var rs := Forward(rf, e.rsAddr, mem, wb);
      var rt := Forward(rf, e.rtAddr, mem, wb);
      var op := e.opcode;
      if Aborts(e, rt) then
        Failure(if op == Q.DIV || op == Q.REM then "division by zero"
                else "unknown insn")
      else
        var rd := Compute(op, rs, rt, e, s.flagsCmp[e.brCond]);
        var mc := if IsLoad(op) || IsStore(op) then MemControl(op) else NoMemCtl;
        var flags :=
          if op == Q.CMP then CmpFlags(s.flagsCmp, rs, rt)
          else if op == Q.SUBC then FixFlags(CmpFlags(s.flagsCmp, rs, rt))
          else s.flagsCmp;
        var test := if op == Q.TEST || op == Q.ADDC then TestFlagsAsWritten(s.flagsTest, rs, rt) else s.flagsTest;
        Success(ExecState(
          ExOut(rd, WritesRd(op), mc.rw, mc.strobe, rt, mc.addrSel, mc.sext, !(IsLoad(op) || IsStore(op))),
          op == Q.BR && s.flagsCmp[e.brCond], s.done || op == Q.STOP, flags, test))
  }

  /** A running activation that does not abort stores Rt for a store, lets the
    * write-back stage take the memory data exactly for memory instructions, enables the
    * write-back exactly for the opcodes that have a result, resolves BR on the flag its
    * condition selects, and raises `done` on STOP. SUBC and TEST behave as written:
    * SUBC drives Rs + Rt under the flags of CMP, and TEST (and ADDC) sets "gez" to a copy
    * of "ltz". */
  lemma ExecuteOutputs(s: ExecState, e: ExRegs, rf: seq<Word>, mem: StageWrite, wb: StageWrite)
    requires ValidState(s) && |rf| == RegFileNum
    requires e.rsAddr < RegFileNum && e.rtAddr < RegFileNum && e.brCond < NumCmpFlags
    requires e.run && !Aborts(e, Forward(rf, e.rtAddr, mem, wb))
    ensures var o := Execute(s, e, rf, mem, wb).value;
      o.out.memData == Forward(rf, e.rtAddr, mem, wb)
      && o.out.ex2reg == !(IsLoad(e.opcode) || IsStore(e.opcode))
      && o.out.wrRdEn == WritesRd(e.opcode)
      && (o.condResult <==> e.opcode == Q.BR && s.flagsCmp[e.brCond])
      && (o.done <==> s.done || e.opcode == Q.STOP)
    ensures var o := Execute(s, e, rf, mem, wb).value;
      var rs := Forward(rf, e.rsAddr, mem, wb); var rt := Forward(rf, e.rtAddr, mem, wb);
      (e.opcode == Q.SUBC ==> o.out.rdValue == Add(rs, rt) && o.flagsCmp == FixFlags(CmpFlags(s.flagsCmp, rs, rt)))
      && (e.opcode == Q.TEST || e.opcode == Q.ADDC ==>
            o.flagsTest == TestFlagsAsWritten(s.flagsTest, rs, rt) && o.flagsTest[6] == o.flagsTest[5])
  {
  }

  /** A stalled decode stage hands the execute stage a bubble: the activation changes
    * nothing and no instruction goes to the quantum pipeline. */
  lemma StallIsBubble(s: ExecState, d: DeSignals, rf: seq<Word>, mem: StageWrite, wb: StageWrite)
    requires ValidState(s) && |rf| == RegFileNum
    requires d.rsAddr < RegFileNum && d.rtAddr < RegFileNum && d.brCond < NumCmpFlags
    requires d.stall
    ensures Execute(s, De2Ex(d), rf, mem, wb) == Success(s)
    ensures !WriteToQp(De2Ex(d), rf).valid
  {
  }

  /** What `write_to_qp` sends to the quantum pipeline. */
  datatype QpOut = QpOut(insn: Q.InsnState, valid: bool, rs: Word)

  /** `write_to_qp`: the instruction, its quantum-valid bit and the value of Rs read
    * straight from the register file. */
  function WriteToQp(e: ExRegs, rf: seq<Word>): (r: QpOut)
    requires e.rsAddr < |rf|
  {
    QpOut(e.insn, e.qValid, rf[e.rsAddr])
  }

  /** The Rs value sent to the quantum pipeline is not forwarded: it equals the
    * forwarded operand when no later stage is about to write Rs, and otherwise it is the
    * value from before that write. */
  lemma WriteToQpUnforwarded(e: ExRegs, rf: seq<Word>, mem: StageWrite, wb: StageWrite)
    requires e.rsAddr < |rf|
    ensures !Writes(mem, e.rsAddr) && !Writes(wb, e.rsAddr) ==>
      WriteToQp(e, rf).rs == Forward(rf, e.rsAddr, mem, wb)
    ensures Writes(mem, e.rsAddr) ==> Forward(rf, e.rsAddr, mem, wb) == mem.value
    ensures WriteToQp(e, rf).rs == rf[e.rsAddr]
  {
  }
}
