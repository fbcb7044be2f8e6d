/** The word-addressed data memory of src/0_core/data_memory.cpp: an array of 32-bit
  * words, a dump window checked against the memory size, and the little-endian byte
  * stream the dump writes. */
module DataMemory {
  import opened Wrappers
  import opened GenericIf

  /** The four bytes of a word, least significant first (`c0`..`c3` of `dump`). */
  function LeBytes(w: bv32): (r: seq<bv8>)
    ensures |r| == 4
  {
    [(w & 0xFF) as bv8, ((w >> 8) & 0xFF) as bv8, ((w >> 16) & 0xFF) as bv8, ((w >> 24) & 0xFF) as bv8]
  }

  /** The word whose little-endian bytes are `b`. */
  function WordOfLeBytes(b: seq<bv8>): bv32
    requires |b| == 4
  {
    (b[0] as bv32) | ((b[1] as bv32) << 8) | ((b[2] as bv32) << 16) | ((b[3] as bv32) << 24)
  }

  /** Splitting a word into bytes and joining them again is the identity, both ways. */
  lemma LeBytesRoundTrip(w: bv32, b: seq<bv8>)
    requires |b| == 4
    ensures WordOfLeBytes(LeBytes(w)) == w
    ensures LeBytes(WordOfLeBytes(b)) == b
  {
    var r := LeBytes(WordOfLeBytes(b));
    assert r[0] == b[0] && r[1] == b[1] && r[2] == b[2] && r[3] == b[3];
  }

  /** The bytes `dump` writes for the addresses `i, i + 4, ...` below `end`: each step
    * emits the four bytes of word `i >> 2`. */
  function DumpBytes(words: seq<bv32>, i: nat, end: nat): seq<bv8>
    requires end <= 4 * |words|
    decreases end - i
  {
    if i >= end then [] else LeBytes(words[i / 4]) + DumpBytes(words, i + 4, end)
  }

  /** Number of words a dump of `[i, end)` visits. */
  function DumpSteps(i: nat, end: nat): nat
  {
    if i >= end then 0 else (end - i + 3) / 4
  }

  /** The dump is `DumpSteps` words long and its `k`-th group of four bytes is the
    * little-endian form of the `k`-th visited word. */
  lemma {:induction false} DumpBytesLayout(words: seq<bv32>, i: nat, end: nat)
    requires end <= 4 * |words|
    ensures |DumpBytes(words, i, end)| == 4 * DumpSteps(i, end)
    ensures forall k :: 0 <= k < DumpSteps(i, end) ==>
      (i + 4 * k) / 4 < |words| && DumpBytes(words, i, end)[4 * k..4 * k + 4] == LeBytes(words[(i + 4 * k) / 4])
    decreases end - i
  {
    if i < end {
      DumpBytesLayout(words, i + 4, end);
      var rest := DumpBytes(words, i + 4, end);
      var all := DumpBytes(words, i, end);
      assert all == LeBytes(words[i / 4]) + rest;
      assert DumpSteps(i, end) == DumpSteps(i + 4, end) + 1;
      forall k | 0 <= k < DumpSteps(i, end)
        ensures (i + 4 * k) / 4 < |words| && all[4 * k..4 * k + 4] == LeBytes(words[(i + 4 * k) / 4])
      {
        if k == 0 {
          assert all[..4] == LeBytes(words[i / 4]);
        } else {
          assert all[4 * k..4 * k + 4] == rest[4 * (k - 1)..4 * (k - 1) + 4];
          assert i + 4 + 4 * (k - 1) == i + 4 * k;
        }
      }
    }
  }

  /** `Data_memory`: `mem_size` bytes held as `mem_size >> 2` words, and the dump
    * window set by `set_dump`. */
  class Memory {
    var memory: array<bv32>
    var memSize: Uint32
    var dumpStart: Uint32
    var dumpSize: Uint32

    /** The word array matches the size and the dump window passed the bound check of
      * `set_dump`. */
    ghost predicate Valid()
      reads this
    {
      memory.Length == memSize / 4
      && dumpStart <= memSize && (dumpStart + dumpSize) % Uint32Modulus <= memSize
    }

    /** `Data_memory(size)`: `size >> 2` zero words. The C++ leaves the dump window
      * uninitialised; here it starts empty. */
    constructor (size: Uint32)
      ensures Valid() && fresh(memory)
      ensures memSize == size && memory[..] == seq(size / 4, _ => 0)
      ensures dumpStart == 0 && dumpSize == 0
    {
      memSize := size;
      dumpStart := 0;
      dumpSize := 0;
      memory := new bv32[size / 4];
      new;
      InitDataMem();
    }

    /** `init_data_mem`: every word becomes 0. */
    method InitDataMem()
      requires memory.Length == memSize / 4
      modifies memory
      ensures memory[..] == seq(memSize / 4, _ => 0)
    {
      var addr := 0;
      while addr < memory.Length
        invariant 0 <= addr <= memory.Length
        invariant forall k :: 0 <= k < addr ==> memory[k] == 0
      {
        memory[addr] := 0;
        addr := addr + 1;
      }
    }

    /** `read_mem`: the word at a word address. */
    function ReadMem(addr: nat): (r: bv32)
      requires addr < memory.Length
      reads this, memory
    {
      memory[addr]
    }

    /** `write_mem`: replaces one word; a following `ReadMem` of that word returns it
      * and every other word is unchanged. */
    method WriteMem(addr: nat, data: bv32)
      requires addr < memory.Length
      modifies memory
      ensures memory[..] == old(memory[..])[addr := data]
      ensures ReadMem(addr) == data
      ensures forall k :: 0 <= k < memory.Length && k != addr ==> memory[k] == old(memory[k])
    {
      memory[addr] := data;
    }

    /** `set_dump`: aborts when the start or the (32-bit) end lies past the memory,
      * otherwise records the window. */
    method SetDump(start: Uint32, size: Uint32) returns (r: Result<(), string>)
      requires Valid()
      modifies this
      ensures Valid() && memory == old(memory) && memSize == old(memSize)
      ensures r.Failure? <==> start > memSize || (start + size) % Uint32Modulus > memSize
      ensures r.Success? ==> dumpStart == start && dumpSize == size
      ensures r.Failure? ==> dumpStart == old(dumpStart) && dumpSize == old(dumpSize)
    {
      if start > memSize || (start + size) % Uint32Modulus > memSize {
        return Failure("dump out of range");
      }
      dumpStart := start;
      dumpSize := size;
      r := Success(());
    }

    /** `get_mem_size`. */
    function GetMemSize(): Uint32
      reads this
    {
      memSize
    }

    /** `dump`: the byte stream written to the file, four little-endian bytes per word
      * of the window. The memory size is a multiple of 4, as every configured size is. */
    method Dump() returns (bytes: seq<bv8>)
      requires Valid() && memSize % 4 == 0
      ensures bytes == DumpBytes(memory[..], dumpStart, (dumpStart + dumpSize) % Uint32Modulus)
    {
      var end := (dumpStart + dumpSize) % Uint32Modulus;
      var i := dumpStart;
      bytes := [];
      while i < end
        invariant dumpStart <= i
        invariant bytes + DumpBytes(memory[..], i, end) == DumpBytes(memory[..], dumpStart, end)
        decreases end - i
      {
        var w := memory[i / 4];
        bytes := bytes + LeBytes(w);
        i := i + 4;
      }
    }
  }
}
