/** The memory stage of the classical pipeline, src/1_digital/classical/classical_mem.cpp:
  * byte, half-word and word loads and stores at any byte address over the word memory
  * (unaligned accesses spill into the next word), the bound checks, sign extension of
  * loaded values, and the execute-to-memory pipeline register. */
module ClassicalMem {
  import opened Wrappers
  import opened GenericIf
  import DataMemory
  import QasmInstruction

  /** `MEM_ACCESS_TYPE`. */
  datatype AddrSel = AddrByte | AddrHalfWord | AddrWord

  /** Bytes covered by an access. */
  function Width(sel: AddrSel): nat
  {
    match sel
    case AddrByte => 1
    case AddrHalfWord => 2
    case AddrWord => 4
  }

  /** The memory a `read_mem` activation works on: `|words| == mem_size >> 2`, and the
    * size is a multiple of 4 (every configured size is a multiple of 1024). */
  predicate Fits(words: seq<bv32>, memSize: Uint32)
  {
    memSize % 4 == 0 && |words| == memSize / 4
  }

  /** An access is refused when its address is outside the memory or, for half words and
    * words, when `addr > mem_size - 2` or `addr > mem_size - 4`. */
  predicate OutOfRange(memSize: Uint32, addr: Uint32, sel: AddrSel)
  {
    addr >= memSize
    || (sel == AddrWord && addr > memSize - 4)
    || (sel == AddrHalfWord && addr > memSize - 2)
  }

  /** Whether an access touches the word after `addr >> 2`. */
  predicate NeedsNext(addr: nat, sel: AddrSel)
  {
    (sel == AddrWord && addr % 4 != 0) || (sel == AddrHalfWord && addr % 4 == 3)
  }

  /** The little-endian window of a word `w` and the word `n` after it: byte lane `i` of
    * the window is byte address `4 * (addr >> 2) + i`. */
  function Window(w: bv32, n: bv32): bv64
  {
    ((n as bv64) << 32) | (w as bv64)
  }

  /** The low half of a window is its first word, the high half the next word. */
  lemma WindowParts(w: bv32, n: bv32)
    ensures (Window(w, n) & 0xFFFF_FFFF) as bv32 == w
    ensures (Window(w, n) >> 32) as bv32 == n
  {
  }

  /** A window determines both of its words. */
  lemma WindowInjective(w: bv32, n: bv32, w': bv32, n': bv32)
    requires Window(w, n) == Window(w', n')
    ensures w == w' && n == n'
  {
    WindowParts(w, n);
    WindowParts(w', n');
  }

  /** The bits an access of width `sel` covers, at lane 0. */
  function WidthMask(sel: AddrSel): bv64
  {
    match sel
    case AddrByte => 0xFF
    case AddrHalfWord => 0xFFFF
    case AddrWord => 0xFFFF_FFFF
  }

  /** Lane `b` of a window as a bit-vector index. */
  function Lane(b: nat): bv2
    requires b < 4
  {
    if b == 0 then 0 else if b == 1 then 1 else if b == 2 then 2 else 3
  }

  /** The bit offset of a lane. */
  function Shift(b: bv2): bv64
  {
    (b as bv64) << 3
  }

  /** The bits of a window outside lanes `[b, b + Width(sel))`. */
  function Outside(b: bv2, sel: AddrSel): bv64
  {
    !(WidthMask(sel) << Shift(b))
  }

  /** Two windows agree outside lanes `[b, b + Width(sel))`. */
  predicate SameOutside(x: bv64, y: bv64, b: bv2, sel: AddrSel)
  {
    x & Outside(b, sel) == y & Outside(b, sel)
  }

  /** The low `Width(sel)` bytes of a value, the part of a register a store writes. */
  function LowBits(d: bv32, sel: AddrSel): bv32
  {
    ((d as bv64) & WidthMask(sel)) as bv32
  }

  /** Reference read: `Width(sel)` bytes of the window from lane `b`. */
  function Extract(x: bv64, b: bv2, sel: AddrSel): bv32
  {
    ((x >> Shift(b)) & WidthMask(sel)) as bv32
  }

  /** Reference write: the window with lanes `[b, b + Width(sel))` replaced by the low
    * bytes of `d`. */
  function Deposit(x: bv64, b: bv2, sel: AddrSel, d: bv32): bv64
  {
    (x & Outside(b, sel)) | (((d as bv64) & WidthMask(sel)) << Shift(b))
  }

  /** The switch of `read_mem` on the word `w` at `addr >> 2` and the next word `n`
    * (read only when the access spills over). */
  function ReadLanes(w: bv32, n: bv32, byteSel: nat, sel: AddrSel): bv32
    requires byteSel < 4
  {
    match sel
    case AddrByte =>
      if byteSel == 0 then w & 0x000000FF
      else if byteSel == 1 then (w & 0x0000FF00) >> 8
      else if byteSel == 2 then (w & 0x00FF0000) >> 16
      else (w & 0xFF000000) >> 24
    case AddrHalfWord =>
      if byteSel == 0 then w & 0x0000FFFF
      else if byteSel == 1 then (w & 0x00FFFF00) >> 8
      else if byteSel == 2 then (w & 0xFFFF0000) >> 16
      else ((n & 0x000000FF) << 8) | ((w & 0xFF000000) >> 24)
    case AddrWord =>
      if byteSel == 0 then w
      else if byteSel == 1 then (w >> 8) | ((n & 0x000000FF) << 24)
      else if byteSel == 2 then (w >> 16) | ((n & 0x0000FFFF) << 16)
      else (w >> 24) | ((n & 0x00FFFFFF) << 8)
  }

  /** The bit identity behind one case of the `read_mem` switch. */
  lemma ReadByte0(w: bv32, n: bv32)
    ensures w & 0x000000FF == Extract(Window(w, n), 0, AddrByte)
  {
  }

  lemma ReadByte1(w: bv32, n: bv32)
    ensures (w & 0x0000FF00) >> 8 == Extract(Window(w, n), 1, AddrByte)
  {
  }

  lemma ReadByte2(w: bv32, n: bv32)
    ensures (w & 0x00FF0000) >> 16 == Extract(Window(w, n), 2, AddrByte)
  {
  }

  lemma ReadByte3(w: bv32, n: bv32)
    ensures (w & 0xFF000000) >> 24 == Extract(Window(w, n), 3, AddrByte)
  {
  }

  lemma ReadHalf0(w: bv32, n: bv32)
    ensures w & 0x0000FFFF == Extract(Window(w, n), 0, AddrHalfWord)
  {
  }

  lemma ReadHalf1(w: bv32, n: bv32)
    ensures (w & 0x00FFFF00) >> 8 == Extract(Window(w, n), 1, AddrHalfWord)
  {
  }

  lemma ReadHalf2(w: bv32, n: bv32)
    ensures (w & 0xFFFF0000) >> 16 == Extract(Window(w, n), 2, AddrHalfWord)
  {
  }

  lemma ReadHalf3(w: bv32, n: bv32)
    ensures ((n & 0x000000FF) << 8) | ((w & 0xFF000000) >> 24) == Extract(Window(w, n), 3, AddrHalfWord)
  {
  }

  lemma ReadWord0(w: bv32, n: bv32)
    ensures w == Extract(Window(w, n), 0, AddrWord)
  {
  }

  lemma ReadWord1(w: bv32, n: bv32)
    ensures (w >> 8) | ((n & 0x000000FF) << 24) == Extract(Window(w, n), 1, AddrWord)
  {
  }

  lemma ReadWord2(w: bv32, n: bv32)
    ensures (w >> 16) | ((n & 0x0000FFFF) << 16) == Extract(Window(w, n), 2, AddrWord)
  {
  }

  lemma ReadWord3(w: bv32, n: bv32)
    ensures (w >> 24) | ((n & 0x00FFFFFF) << 8) == Extract(Window(w, n), 3, AddrWord)
  {
  }

  lemma ReadLanesByte(w: bv32, n: bv32, b: nat)
    requires b < 4
    ensures ReadLanes(w, n, b, AddrByte) == Extract(Window(w, n), Lane(b), AddrByte)
  {
    if b == 0 { ReadByte0(w, n); }
    else if b == 1 { ReadByte1(w, n); }
    else if b == 2 { ReadByte2(w, n); }
    else { ReadByte3(w, n); }
  }

  lemma ReadLanesHalf(w: bv32, n: bv32, b: nat)
    requires b < 4
    ensures ReadLanes(w, n, b, AddrHalfWord) == Extract(Window(w, n), Lane(b), AddrHalfWord)
  {
    if b == 0 { ReadHalf0(w, n); }
    else if b == 1 { ReadHalf1(w, n); }
    else if b == 2 { ReadHalf2(w, n); }
    else { ReadHalf3(w, n); }
  }

  lemma ReadLanesWord(w: bv32, n: bv32, b: nat)
    requires b < 4
    ensures ReadLanes(w, n, b, AddrWord) == Extract(Window(w, n), Lane(b), AddrWord)
  {
    if b == 0 { ReadWord0(w, n); }
    else if b == 1 { ReadWord1(w, n); }
    else if b == 2 { ReadWord2(w, n); }
    else { ReadWord3(w, n); }
  }

  /** Every case of the `read_mem` switch reads the addressed bytes of the two-word
    * window, zero-extended. */
  lemma ReadLanesWindow(w: bv32, n: bv32, b: nat, sel: AddrSel)
    requires b < 4
    ensures ReadLanes(w, n, b, sel) == Extract(Window(w, n), Lane(b), sel)
  {
    match sel {
      case AddrByte => ReadLanesByte(w, n, b);
      case AddrHalfWord => ReadLanesHalf(w, n, b);
      case AddrWord => ReadLanesWord(w, n, b);
    }
  }

  /** The new value of the word at `addr >> 2` after a store (`m_data`). */
  function StoreFirst(w: bv32, byteSel: nat, sel: AddrSel, d: bv32): bv32
    requires byteSel < 4
  {
    match sel
    case AddrByte =>
      if byteSel == 0 then (w & 0xFFFFFF00) | (d & 0xFF)
      else if byteSel == 1 then (w & 0xFFFF00FF) | ((d & 0xFF) << 8)
      else if byteSel == 2 then (w & 0xFF00FFFF) | ((d & 0xFF) << 16)
      else (w & 0x00FFFFFF) | ((d & 0xFF) << 24)
    case AddrHalfWord =>
      if byteSel == 0 then (w & 0xFFFF0000) | (d & 0xFFFF)
      else if byteSel == 1 then (w & 0xFF0000FF) | ((d & 0xFFFF) << 8)
      else if byteSel == 2 then (w & 0x0000FFFF) | ((d & 0xFFFF) << 16)
      else (w & 0x00FFFFFF) | ((d & 0xFF) << 24)
    case AddrWord =>
      if byteSel == 0 then d
      else if byteSel == 1 then (w & 0x000000FF) | ((d & 0xFFFFFF) << 8)
      else if byteSel == 2 then (w & 0x0000FFFF) | ((d & 0xFFFF) << 16)
      else (w & 0x00FFFFFF) | ((d & 0xFF) << 24)
  }

  /** The new value of the following word when the store spills over (`m_data_next`). */
  function StoreNext(n: bv32, byteSel: nat, sel: AddrSel, d: bv32): bv32
    requires byteSel < 4
  {
    match sel
    case AddrByte => n
    case AddrHalfWord => if byteSel == 3 then (n & 0xFFFFFF00) | ((d >> 8) & 0xFF) else n
    case AddrWord =>
      if byteSel == 1 then (n & 0xFFFFFF00) | (d >> 24)
      else if byteSel == 2 then (n & 0xFFFF0000) | (d >> 16)
      else if byteSel == 3 then (n & 0xFF000000) | (d >> 8)
      else n
  }

  /** The bit identity behind one case of the `write_mem` switch. */
  lemma StoreByte0(w: bv32, n: bv32, d: bv32)
    ensures Window((w & 0xFFFFFF00) | (d & 0xFF), n) == Deposit(Window(w, n), 0, AddrByte, d)
  {
  }

  lemma StoreByte1(w: bv32, n: bv32, d: bv32)
    ensures Window((w & 0xFFFF00FF) | ((d & 0xFF) << 8), n) == Deposit(Window(w, n), 1, AddrByte, d)
  {
  }

  lemma StoreByte2(w: bv32, n: bv32, d: bv32)
    ensures Window((w & 0xFF00FFFF) | ((d & 0xFF) << 16), n) == Deposit(Window(w, n), 2, AddrByte, d)
  {
  }

  lemma StoreByte3(w: bv32, n: bv32, d: bv32)
    ensures Window((w & 0x00FFFFFF) | ((d & 0xFF) << 24), n) == Deposit(Window(w, n), 3, AddrByte, d)
  {
  }

  lemma StoreHalf0(w: bv32, n: bv32, d: bv32)
    ensures Window((w & 0xFFFF0000) | (d & 0xFFFF), n) == Deposit(Window(w, n), 0, AddrHalfWord, d)
  {
  }

  lemma StoreHalf1(w: bv32, n: bv32, d: bv32)
    ensures Window((w & 0xFF0000FF) | ((d & 0xFFFF) << 8), n) == Deposit(Window(w, n), 1, AddrHalfWord, d)
  {
  }

  lemma StoreHalf2(w: bv32, n: bv32, d: bv32)
    ensures Window((w & 0x0000FFFF) | ((d & 0xFFFF) << 16), n) == Deposit(Window(w, n), 2, AddrHalfWord, d)
  {
  }

  lemma StoreHalf3(w: bv32, n: bv32, d: bv32)
    ensures Window((w & 0x00FFFFFF) | ((d & 0xFF) << 24), (n & 0xFFFFFF00) | ((d >> 8) & 0xFF)) == Deposit(Window(w, n), 3, AddrHalfWord, d)
  {
  }

  lemma StoreWord0(w: bv32, n: bv32, d: bv32)
    ensures Window(d, n) == Deposit(Window(w, n), 0, AddrWord, d)
  {
  }

  lemma StoreWord1(w: bv32, n: bv32, d: bv32)
    ensures Window((w & 0x000000FF) | ((d & 0xFFFFFF) << 8), (n & 0xFFFFFF00) | (d >> 24)) == Deposit(Window(w, n), 1, AddrWord, d)
  {
  }

  lemma StoreWord2(w: bv32, n: bv32, d: bv32)
    ensures Window((w & 0x0000FFFF) | ((d & 0xFFFF) << 16), (n & 0xFFFF0000) | (d >> 16)) == Deposit(Window(w, n), 2, AddrWord, d)
  {
  }

  lemma StoreWord3(w: bv32, n: bv32, d: bv32)
    ensures Window((w & 0x00FFFFFF) | ((d & 0xFF) << 24), (n & 0xFF000000) | (d >> 8)) == Deposit(Window(w, n), 3, AddrWord, d)
  {
  }

  lemma StoreLanesByte(w: bv32, n: bv32, b: nat, d: bv32)
    requires b < 4
    ensures Window(StoreFirst(w, b, AddrByte, d), StoreNext(n, b, AddrByte, d)) == Deposit(Window(w, n), Lane(b), AddrByte, d)
  {
    if b == 0 { StoreByte0(w, n, d); }
    else if b == 1 { StoreByte1(w, n, d); }
    else if b == 2 { StoreByte2(w, n, d); }
    else { StoreByte3(w, n, d); }
  }

  lemma StoreLanesHalf(w: bv32, n: bv32, b: nat, d: bv32)
    requires b < 4
    ensures Window(StoreFirst(w, b, AddrHalfWord, d), StoreNext(n, b, AddrHalfWord, d)) == Deposit(Window(w, n), Lane(b), AddrHalfWord, d)
  {
    if b == 0 {
      assert StoreFirst(w, b, AddrHalfWord, d) == (w & 0xFFFF0000) | (d & 0xFFFF);
      assert StoreNext(n, b, AddrHalfWord, d) == n;
      StoreHalf0(w, n, d);
    } else if b == 1 {
      assert StoreFirst(w, b, AddrHalfWord, d) == (w & 0xFF0000FF) | ((d & 0xFFFF) << 8);
      assert StoreNext(n, b, AddrHalfWord, d) == n;
      StoreHalf1(w, n, d);
    } else if b == 2 {
      assert StoreFirst(w, b, AddrHalfWord, d) == (w & 0x0000FFFF) | ((d & 0xFFFF) << 16);
      assert StoreNext(n, b, AddrHalfWord, d) == n;
      StoreHalf2(w, n, d);
    } else {
      assert StoreFirst(w, b, AddrHalfWord, d) == (w & 0x00FFFFFF) | ((d & 0xFF) << 24);
      assert StoreNext(n, b, AddrHalfWord, d) == (n & 0xFFFFFF00) | ((d >> 8) & 0xFF);
      StoreHalf3(w, n, d);
    }
  }

  lemma StoreLanesWord(w: bv32, n: bv32, b: nat, d: bv32)
    requires b < 4
    ensures Window(StoreFirst(w, b, AddrWord, d), StoreNext(n, b, AddrWord, d)) == Deposit(Window(w, n), Lane(b), AddrWord, d)
  {
    if b == 0 { StoreWord0(w, n, d); }
    else if b == 1 { StoreWord1(w, n, d); }
    else if b == 2 { StoreWord2(w, n, d); }
    else { StoreWord3(w, n, d); }
  }

  /** Every case of the `write_mem` switch writes the data's low bytes into the addressed
    * lanes of the two-word window and keeps the other lanes. */
  lemma StoreLanesWindow(w: bv32, n: bv32, b: nat, sel: AddrSel, d: bv32)
    requires b < 4
    ensures Window(StoreFirst(w, b, sel, d), StoreNext(n, b, sel, d)) == Deposit(Window(w, n), Lane(b), sel, d)
  {
    match sel {
      case AddrByte => StoreLanesByte(w, n, b, d);
      case AddrHalfWord => StoreLanesHalf(w, n, b, d);
      case AddrWord => StoreLanesWord(w, n, b, d);
    }
  }

  /** Reading back what was deposited returns the deposited low bytes. */
  lemma ExtractDeposit(x: bv64, b: nat, sel: AddrSel, d: bv32)
    requires b < 4
    ensures Extract(Deposit(x, Lane(b), sel, d), Lane(b), sel) == LowBits(d, sel)
  {
    if b == 0 { ExtractDeposit0(x, sel, d); }
    else if b == 1 { ExtractDeposit1(x, sel, d); }
    else if b == 2 { ExtractDeposit2(x, sel, d); }
    else { ExtractDeposit3(x, sel, d); }
  }

  lemma ExtractDeposit0(x: bv64, sel: AddrSel, d: bv32)
    ensures Extract(Deposit(x, 0, sel, d), 0, sel) == LowBits(d, sel)
  {
  }

  lemma ExtractDeposit1(x: bv64, sel: AddrSel, d: bv32)
    ensures Extract(Deposit(x, 1, sel, d), 1, sel) == LowBits(d, sel)
  {
  }

  lemma ExtractDeposit2(x: bv64, sel: AddrSel, d: bv32)
    ensures Extract(Deposit(x, 2, sel, d), 2, sel) == LowBits(d, sel)
  {
  }

  lemma ExtractDeposit3(x: bv64, sel: AddrSel, d: bv32)
    ensures Extract(Deposit(x, 3, sel, d), 3, sel) == LowBits(d, sel)
  {
  }

  /** Depositing the bytes just extracted leaves the window unchanged. */
  lemma DepositExtract(x: bv64, b: nat, sel: AddrSel)
    requires b < 4
    ensures Deposit(x, Lane(b), sel, Extract(x, Lane(b), sel)) == x
  {
    if b == 0 { DepositExtract0(x, sel); }
    else if b == 1 { DepositExtract1(x, sel); }
    else if b == 2 { DepositExtract2(x, sel); }
    else { DepositExtract3(x, sel); }
  }

  lemma DepositExtract0(x: bv64, sel: AddrSel)
    ensures Deposit(x, 0, sel, Extract(x, 0, sel)) == x
  {
  }

  lemma DepositExtract1(x: bv64, sel: AddrSel)
    ensures Deposit(x, 1, sel, Extract(x, 1, sel)) == x
  {
  }

  lemma DepositExtract2(x: bv64, sel: AddrSel)
    ensures Deposit(x, 2, sel, Extract(x, 2, sel)) == x
  {
  }

  lemma DepositExtract3(x: bv64, sel: AddrSel)
    ensures Deposit(x, 3, sel, Extract(x, 3, sel)) == x
  {
  }

  /** A deposit keeps every bit outside the addressed lanes. */
  lemma DepositFrame(x: bv64, b: nat, sel: AddrSel, d: bv32)
    requires b < 4
    ensures SameOutside(Deposit(x, Lane(b), sel, d), x, Lane(b), sel)
  {
    if b == 0 { DepositFrame0(x, sel, d); }
    else if b == 1 { DepositFrame1(x, sel, d); }
    else if b == 2 { DepositFrame2(x, sel, d); }
    else { DepositFrame3(x, sel, d); }
  }

  lemma DepositFrame0(x: bv64, sel: AddrSel, d: bv32)
    ensures SameOutside(Deposit(x, 0, sel, d), x, 0, sel)
  {
  }

  lemma DepositFrame1(x: bv64, sel: AddrSel, d: bv32)
    ensures SameOutside(Deposit(x, 1, sel, d), x, 1, sel)
  {
  }

  lemma DepositFrame2(x: bv64, sel: AddrSel, d: bv32)
    ensures SameOutside(Deposit(x, 2, sel, d), x, 2, sel)
  {
  }

  lemma DepositFrame3(x: bv64, sel: AddrSel, d: bv32)
    ensures SameOutside(Deposit(x, 3, sel, d), x, 3, sel)
  {
  }

  /** The word after `addr >> 2` when the access spills into it, 0 otherwise (the C++
    * reads it only then). */
  function NextWord(words: seq<bv32>, addr: nat, sel: AddrSel): bv32
    requires (addr + Width(sel) - 1) / 4 < |words|
  {
    if NeedsNext(addr, sel) then words[addr / 4 + 1] else 0
  }

  /** `read_mem`'s data for one in-range access. */
  function ReadData(words: seq<bv32>, addr: nat, sel: AddrSel): (r: bv32)
    requires (addr + Width(sel) - 1) / 4 < |words|
    ensures r == Extract(Window(words[addr / 4], NextWord(words, addr, sel)), Lane(addr % 4), sel)
  {
    ReadLanesWindow(words[addr / 4], NextWord(words, addr, sel), addr % 4, sel);
    ReadLanes(words[addr / 4], NextWord(words, addr, sel), addr % 4, sel)
  }

  /** `read_mem` for one load: the abort conditions, then the data read. */
  function Load(words: seq<bv32>, memSize: Uint32, addr: Uint32, sel: AddrSel): (r: Result<bv32, string>)
    requires Fits(words, memSize)
    ensures r.Failure? <==> addr + Width(sel) > memSize
    ensures r.Success? ==>
      r.value == Extract(Window(words[addr / 4], NextWord(words, addr, sel)), Lane(addr % 4), sel)
  {
    if OutOfRange(memSize, addr, sel) then Failure("read out of range")
    else Success(ReadData(words, addr, sel))
  }

  /** The memory after `write_mem`'s read-modify-write of one store: only the word at
    * `addr >> 2` and, when the store spills over, the word after it change, and their
    * window is the old window with the data deposited at lane `addr % 4`. */
  function StoreWords(words: seq<bv32>, addr: nat, sel: AddrSel, d: bv32): (r: seq<bv32>)
    requires (addr + Width(sel) - 1) / 4 < |words|
    ensures |r| == |words|
    ensures forall j :: 0 <= j < |words| && j != addr / 4 && !(NeedsNext(addr, sel) && j == addr / 4 + 1) ==>
      r[j] == words[j]
  {
    var k := addr / 4;
    var first := words[k := StoreFirst(words[k], addr % 4, sel, d)];
    if NeedsNext(addr, sel) then first[k + 1 := StoreNext(words[k + 1], addr % 4, sel, d)]
    else first
  }

  /** The window of the stored words is the old window with the data deposited at lane
    * `addr % 4`. */
  lemma StoreWordsWindow(words: seq<bv32>, addr: nat, sel: AddrSel, d: bv32)
    requires (addr + Width(sel) - 1) / 4 < |words|
    ensures var r := StoreWords(words, addr, sel, d);
      Window(r[addr / 4], NextWord(r, addr, sel))
      == Deposit(Window(words[addr / 4], NextWord(words, addr, sel)), Lane(addr % 4), sel, d)
  {
    var k := addr / 4;
    var n := NextWord(words, addr, sel);
    StoreLanesWindow(words[k], n, addr % 4, sel, d);
    if !NeedsNext(addr, sel) {
      assert StoreNext(n, addr % 4, sel, d) == 0;
    }
  }

  /** `write_mem` for one store: the abort conditions, then the new memory. */
  function Store(words: seq<bv32>, memSize: Uint32, addr: Uint32, sel: AddrSel, d: bv32): (r: Result<seq<bv32>, string>)
    requires Fits(words, memSize)
    ensures r.Failure? <==> addr + Width(sel) > memSize
    ensures r.Success? ==> Fits(r.value, memSize) && r.value == StoreWords(words, addr, sel, d)
  {
    if OutOfRange(memSize, addr, sel) then Failure("write out of range")
    else Success(StoreWords(words, addr, sel, d))
  }

  /** A store followed by a load of the same width and address returns the stored low
    * bits. */
  lemma LoadAfterStore(words: seq<bv32>, memSize: Uint32, addr: Uint32, sel: AddrSel, d: bv32)
    requires Fits(words, memSize) && Store(words, memSize, addr, sel, d).Success?
    ensures Load(Store(words, memSize, addr, sel, d).value, memSize, addr, sel) == Success(LowBits(d, sel))
  {
    StoreWordsWindow(words, addr, sel, d);
    ExtractDeposit(Window(words[addr / 4], NextWord(words, addr, sel)), addr % 4, sel, d);
  }

  /** Storing the value just loaded (same width, same address) leaves memory unchanged. */
  lemma StoreWhatWasLoaded(words: seq<bv32>, memSize: Uint32, addr: Uint32, sel: AddrSel)
    requires Fits(words, memSize) && Load(words, memSize, addr, sel).Success?
    ensures Store(words, memSize, addr, sel, Load(words, memSize, addr, sel).value) == Success(words)
  {
    var x := Window(words[addr / 4], NextWord(words, addr, sel));
    DepositExtract(x, addr % 4, sel);
    StoreWordsWindow(words, addr, sel, Extract(x, Lane(addr % 4), sel));
    var r := StoreWords(words, addr, sel, Extract(x, Lane(addr % 4), sel));
    WindowInjective(r[addr / 4], NextWord(r, addr, sel), words[addr / 4], NextWord(words, addr, sel));
    assert r == words;
  }

  /** The signed value of a 32-bit register. */
  function Int32Of(w: bv32): int
  {
    if w < 0x8000_0000 then w as int else w as int - 0x1_0000_0000
  }

  /** `sign_extend`: bytes and half words loaded with `sext` copy their top bit into the
    * upper bits; without `sext` they are zero-extended; words pass unchanged. */
  function SignExtend(data: bv32, sel: AddrSel, sext: bool): bv32
  {
    match sel
    case AddrByte => if sext && data & 0x80 != 0 then data | 0xFFFFFF00 else data
    case AddrHalfWord => if sext && data & 0x8000 != 0 then data | 0xFFFF0000 else data
    case AddrWord => data
  }

  /** On a loaded byte, sign extension yields the two's complement value of the byte when
    * `sext` holds and its unsigned value otherwise. */
  lemma SignExtendByte(data: bv32, sext: bool)
    requires LowBits(data, AddrByte) == data
    ensures Int32Of(SignExtend(data, AddrByte, sext))
      == (if sext && data >= 0x80 then data as int - 0x100 else data as int)
  {
    if sext && data >= 0x80 {
      assert data & 0x80 != 0;
      assert (data | 0xFFFFFF00) == data + 0xFFFFFF00;
      assert (data + 0xFFFFFF00) as int == data as int + 0xFFFFFF00;
    }
  }

  /** The same for a loaded half word. */
  lemma SignExtendHalf(data: bv32, sext: bool)
    requires LowBits(data, AddrHalfWord) == data
    ensures Int32Of(SignExtend(data, AddrHalfWord, sext))
      == (if sext && data >= 0x8000 then data as int - 0x1_0000 else data as int)
  {
    if sext && data >= 0x8000 {
      assert data & 0x8000 != 0;
      assert (data | 0xFFFF0000) == data + 0xFFFF0000;
      assert (data + 0xFFFF0000) as int == data as int + 0xFFFF0000;
    }
  }

  /** The execute-stage outputs the memory stage reads. */
  datatype ExSignals = ExSignals(
    insn: QasmInstruction.InsnState, wrRdEn: bool, run: bool, memStrobe: bool, rdValue: bv32,
    memRw: bool, memData: bv32, rdAddr: Uint32, addrSel: AddrSel, sext: bool, ex2reg: bool,
    flagsCmp: seq<bool>)

  /** The registered outputs of the memory stage. */
  datatype MemRegs = MemRegs(
    insn: QasmInstruction.InsnState, exRdValue: bv32, wrRdEn: bool, rdAddr: Uint32, run: bool,
    ex2reg: bool, addrSel: AddrSel, sext: bool, flagsCmpDly: seq<bool>)

  /** `Classical_mem`: the pipeline registers, the loaded data and the data memory. */
  class MemStage {
    var regs: MemRegs
    var outData: bv32
    var rdValue: bv32
    const dataMem: DataMemory.Memory

    constructor (mem: DataMemory.Memory, init: MemRegs)
      ensures dataMem == mem && regs == init && outData == 0 && rdValue == 0
    {
      dataMem := mem;
      regs := init;
      outData := 0;
      rdValue := 0;
    }

    /** `ex2mem_ff`: every execute signal, and the compare flags, one cycle later. */
    method Ex2MemFf(ex: ExSignals)
      modifies this
      ensures regs == MemRegs(ex.insn, ex.rdValue, ex.wrRdEn, ex.rdAddr, ex.run, ex.ex2reg,
                              ex.addrSel, ex.sext, ex.flagsCmp)
      ensures outData == old(outData) && rdValue == old(rdValue)
    {
      regs := MemRegs(ex.insn, ex.rdValue, ex.wrRdEn, ex.rdAddr, ex.run, ex.ex2reg,
                      ex.addrSel, ex.sext, ex.flagsCmp);
    }

    /** `read_mem`, one clock: a running load reads the memory at `ex_rd_value`. */
    method ReadMemCycle(ex: ExSignals) returns (r: Result<(), string>)
      requires dataMem.Valid() && dataMem.memSize % 4 == 0
      modifies this
      ensures regs == old(regs) && rdValue == old(rdValue)
      ensures !(ex.run && ex.memStrobe && ex.memRw) ==> r.Success? && outData == old(outData)
      ensures ex.run && ex.memStrobe && ex.memRw ==>
        var l := Load(dataMem.memory[..], dataMem.memSize, ex.rdValue as int, ex.addrSel);
        (r.Failure? <==> l.Failure?) && (l.Success? ==> outData == l.value)
    {
      if ex.run && ex.memStrobe && ex.memRw {
        var l := Load(dataMem.memory[..], dataMem.memSize, ex.rdValue as int, ex.addrSel);
        if l.Failure? {
          return Failure(l.error);
        }
        outData := l.value;
      }
      r := Success(());
    }

    /** `write_mem`, one clock: a running store rewrites one word, or two when it spills
      * into the next. */
    method WriteMemCycle(ex: ExSignals) returns (r: Result<(), string>)
      requires dataMem.Valid() && dataMem.memSize % 4 == 0
      modifies dataMem.memory
      ensures !(ex.run && ex.memStrobe && !ex.memRw) ==> r.Success? && dataMem.memory[..] == old(dataMem.memory[..])
      ensures ex.run && ex.memStrobe && !ex.memRw ==>
        var s := Store(old(dataMem.memory[..]), dataMem.memSize, ex.rdValue as int, ex.addrSel, ex.memData);
        (r.Failure? <==> s.Failure?)
        && (s.Success? ==> dataMem.memory[..] == s.value)
        && (s.Failure? ==> dataMem.memory[..] == old(dataMem.memory[..]))
    {
      if ex.run && ex.memStrobe && !ex.memRw {
        var addr: Uint32 := ex.rdValue as int;
        if OutOfRange(dataMem.memSize, addr, ex.addrSel) {
          return Failure("write out of range");
        }
        WriteWords(addr, ex.addrSel, ex.memData);
      }
      r := Success(());
    }

    /** The read-modify-write of an in-range store: the word at `addr >> 2` and, when the
      * store spills over, the word after it. */
    method WriteWords(addr: Uint32, sel: AddrSel, d: bv32)
      requires dataMem.Valid() && dataMem.memSize % 4 == 0 && !OutOfRange(dataMem.memSize, addr, sel)
      modifies dataMem.memory
      ensures dataMem.memory[..] == StoreWords(old(dataMem.memory[..]), addr, sel, d)
    {
      ghost var words := dataMem.memory[..];
      var k := addr / 4;
      var w := dataMem.ReadMem(k);
      var first := StoreFirst(w, addr % 4, sel, d);
      if NeedsNext(addr, sel) {
        var n := dataMem.ReadMem(k + 1);
        var next := StoreNext(n, addr % 4, sel, d);
        dataMem.WriteMem(k, first);
        dataMem.WriteMem(k + 1, next);
      } else {
        dataMem.WriteMem(k, first);
      }
    }

    /** `sign_extend`: the value written back for a load. */
    method SignExtendCycle()
      modifies this
      ensures rdValue == SignExtend(old(outData), old(regs.addrSel), old(regs.sext))
      ensures regs == old(regs) && outData == old(outData)
    {
      rdValue := SignExtend(outData, regs.addrSel, regs.sext);
    }
  }
}
