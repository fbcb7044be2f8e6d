/** The parts of src/0_core/config_reader.cpp that shape the simulated machine: the
  * data-memory size text, the default and the configured qubit topology (directed
  * edges spread into per-qubit in/out edge lists), the default gate tables, the
  * instruction-type and simulator switches, and the gate-name normalisation of the
  * gate configuration. */
module ConfigReader {
  import opened Wrappers
  import opened GenericIf
  import opened JsonWrapper
  import NumUtil
  import Text
  import DataMemory

  datatype InstructionType = Bin | Asm
  datatype QubitSimulatorType = QuantumSim | QiCircuit

  // ------------------------------------------------------------------ type switches

  /** The `instruction_type` switch of `read_from_file`: 0 is binary, 1 is assembly,
    * anything else aborts. */
  function InstructionTypeOf(n: Uint32): (r: Result<InstructionType, string>)
    ensures r == Success(Bin) <==> n == 0
    ensures r == Success(Asm) <==> n == 1
    ensures r.Failure? <==> n > 1
  {
    if n == 0 then Success(Bin)
    else if n == 1 then Success(Asm)
    else Failure("bad insn type")
  }

  /** The `qubit_simulator` switch: 0 is QuantumSim; 1 (QICircuit, unsupported) and
    * every other value abort. */
  function QubitSimulatorOf(n: Uint32): (r: Result<QubitSimulatorType, string>)
    ensures r.Success? <==> n == 0
    ensures r.Success? ==> r.value == QuantumSim
  {
    if n == 0 then Success(QuantumSim)
    else if n == 1 then Failure("QICircuit")
    else Failure("bad qubit simulator")
  }

  // ------------------------------------------------------------------ data memory size

  const Kilo := 0x400
  const Mega := 0x10_0000

  /** The multiplier a size suffix selects: 2^20 for `M`/`m`, 2^10 for `K`/`k`, and 0
    * for every other character, which `init_data_memory` rejects. */
  function UnitOf(c: char): nat
  {
    if c == 'M' || c == 'm' then Mega else if c == 'K' || c == 'k' then Kilo else 0
  }

  function Abort(msg: string): Result<nat, string>
  {
    Failure(msg)
  }

  /** The byte size `init_data_memory` allocates for the trimmed text `t`: the number
    * before a `M`/`m`/`K`/`k` suffix times that unit, in 32-bit unsigned arithmetic.
    * `G`/`g` and every other last character abort, as does an empty number. The text
    * must not be blank: the suffix is read at `size() - 1`. */
  function DataMemorySize(dataSize: string): (r: Result<nat, string>)
    requires NumUtil.Trim(dataSize) != []
    ensures var t := NumUtil.Trim(dataSize);
      r.Success? <==> UnitOf(t[|t| - 1]) != 0 && t[..|t| - 1] != []
    ensures var t := NumUtil.Trim(dataSize);
      r.Success? ==> r.value == NumUtil.StrToUint(t[..|t| - 1]).value * UnitOf(t[|t| - 1]) % Uint32Modulus
  {
    var t := NumUtil.Trim(dataSize);
    var u := t[|t| - 1];
    if u == 'G' || u == 'g' then Abort("size too large: " + dataSize)
    else if UnitOf(u) == 0 then Abort("bad unit: " + dataSize)
    else
      var number := NumUtil.StrToUint(t[..|t| - 1]);
      if number.Failure? then Abort("empty number")
      else Success(number.value * UnitOf(u) % Uint32Modulus)
  }

  /** `str_to_uint` reads back every unsigned value that is printed in decimal. */
  lemma StrToUintRoundTrip(n: nat)
    requires n < Uint32Modulus
    ensures NumUtil.StrToUint(Text.NatToString(n)) == Success(n)
  {
    var t := Text.NatToString(n);
    NumUtil.DigitsExtracted(n);
    Text.NatToStringValue(n);
    assert t[..|t|] == t && t[0..] == t;
    assert !(t[0] == '-' || t[0] == '+');
    assert NumUtil.Extracted(t) == (false, n);
  }

  /** A size printed as a decimal number with a `K`/`k`/`M`/`m` suffix allocates that
    * many kibibytes or mebibytes, modulo 2^32. */
  lemma DataMemorySizeOfText(n: nat, unit: char)
    requires n < Uint32Modulus && UnitOf(unit) != 0
    ensures NumUtil.Trim(Text.NatToString(n) + [unit]) != []
    ensures DataMemorySize(Text.NatToString(n) + [unit]) == Success(n * UnitOf(unit) % Uint32Modulus)
  {
    var t := Text.NatToString(n) + [unit];
    assert !NumUtil.Blank(t[0]) && !NumUtil.Blank(t[|t| - 1]);
    NumUtil.TrimKeepsTrimmed(t);
    assert t[..|t| - 1] == Text.NatToString(n);
    StrToUintRoundTrip(n);
  }

  /** A gibibyte size aborts. */
  lemma DataMemorySizeRejectsGiga(n: nat)
    ensures NumUtil.Trim(Text.NatToString(n) + "G") != []
    ensures DataMemorySize(Text.NatToString(n) + "G").Failure?
  {
    var t := Text.NatToString(n) + "G";
    assert !NumUtil.Blank(t[0]) && !NumUtil.Blank(t[|t| - 1]);
    NumUtil.TrimKeepsTrimmed(t);
  }

  // ------------------------------------------------------------------ topology

  /** `directed_edges`: (source qubit, target qubit) per edge index; an entry the
    * configuration never fills stays (-1, -1). */
  type Edge = (int, int)

  /** The seven-qubit topology of `set_topology_default`. */
  const DefaultEdges: seq<Edge> := [
    (2, 0), (0, 3), (3, 1), (1, 4), (2, 5), (5, 3), (3, 6), (6, 4),
    (0, 2), (3, 0), (1, 3), (4, 1), (5, 2), (3, 5), (6, 3), (4, 6)]

  const DefaultNumDirectedEdges := 16

  /** In the default topology edge `i + 8` runs opposite to edge `i`. */
  lemma DefaultEdgesReversed(i: nat)
    requires i < 8
    ensures DefaultEdges[i + 8] == (DefaultEdges[i].1, DefaultEdges[i].0)
  {
  }

  /** Every endpoint indexes one of `size` edge lists. */
  predicate EndpointsBelow(edges: seq<Edge>, size: nat)
  {
    forall i :: 0 <= i < |edges| ==> 0 <= edges[i].0 < size && 0 <= edges[i].1 < size
  }

  /** The endpoint whose list receives an edge: the source for the out-lists, the
    * target for the in-lists. */
  function End(e: Edge, outgoing: bool): int
  {
    if outgoing then e.0 else e.1
  }

  /** The `size` edge lists after the first `k` edges have been pushed: edge `i` is
    * appended to the list of its source (`outgoing`) or of its target. */
  function Spread(edges: seq<Edge>, k: nat, size: nat, outgoing: bool): (r: seq<seq<nat>>)
    requires k <= |edges| && EndpointsBelow(edges, size)
    ensures |r| == size
  {
    if k == 0 then seq(size, _ => [])
    else
      var s := Spread(edges, k - 1, size, outgoing);
      var q := End(edges[k - 1], outgoing);
      s[q := s[q] + [k - 1]]
  }

  /** Edge lists hold edge indices in increasing order, so none twice. */
  predicate Increasing(l: seq<nat>)
  {
    forall a, b :: 0 <= a < b < |l| ==> l[a] < l[b]
  }

  /** Edge index `i` lies in the list of qubit `q` exactly when `i` is among the first
    * `k` edges and `q` is its endpoint; every list is increasing. So each edge index
    * sits in exactly one out-list and one in-list. */
  lemma {:induction false} SpreadMembers(edges: seq<Edge>, k: nat, size: nat, outgoing: bool, q: nat, i: nat)
    requires k <= |edges| && EndpointsBelow(edges, size) && q < size
    ensures i in Spread(edges, k, size, outgoing)[q] <==> i < k && End(edges[i], outgoing) == q
    ensures Increasing(Spread(edges, k, size, outgoing)[q])
    ensures forall x :: x in Spread(edges, k, size, outgoing)[q] ==> x < k
  {
    if k > 0 {
      SpreadMembers(edges, k - 1, size, outgoing, q, i);
      var s := Spread(edges, k - 1, size, outgoing);
      if End(edges[k - 1], outgoing) == q {
        var l := s[q] + [k - 1];
        assert Spread(edges, k, size, outgoing)[q] == l;
        assert forall a :: 0 <= a < |s[q]| ==> s[q][a] in s[q];
        assert forall a, b :: 0 <= a < b < |l| ==> l[a] < l[b];
      } else {
        assert Spread(edges, k, size, outgoing)[q] == s[q];
      }
    }
  }

  /** The default endpoints index the 16 lists. */
  lemma DefaultEndpointsBelow()
    ensures EndpointsBelow(DefaultEdges, DefaultNumDirectedEdges)
  {
  }

  // ------------------------------------------------------------------ configured edges

  /** The range check `read_from_file` applies to an edge id, as written: the id may
    * equal the number of edges, one past the last slot of `directed_edges`. */
  function EdgeIdAcceptedAsWritten(id: int, numDirectedEdges: Uint32): bool
  {
    CheckIntRange(id, 0, numDirectedEdges)
  }

  /** The check as written lets through an id that indexes past the edge vector. */
  lemma EdgeIdOffByOne(numDirectedEdges: Uint32)
    ensures EdgeIdAcceptedAsWritten(numDirectedEdges, numDirectedEdges)
    ensures !(numDirectedEdges < numDirectedEdges)
  {
  }

  /** The intended check: the id indexes one of the `num_directed_edges` slots. */
  function EdgeIdAccepted(id: int, numDirectedEdges: Uint32): (r: bool)
    ensures r <==> 0 <= id < numDirectedEdges
  {
    CheckIntRange(id, 0, numDirectedEdges - 1)
  }

  /** The fields read so far: the edge vector, and the last `id`, `src` and `dst`,
    * which carry over to the next edge when its value is not a number. */
  datatype EdgeScan = EdgeScan(edges: seq<Edge>, id: int, src: int, dst: int)

  /** The edge vector has its `n` slots and the carried fields are `int` values. */
  predicate ScanValid(s: EdgeScan, n: nat)
  {
    |s.edges| == n
    && NumUtil.IntMin <= s.id <= NumUtil.IntMax
    && NumUtil.IntMin <= s.src <= NumUtil.IntMax
    && NumUtil.IntMin <= s.dst <= NumUtil.IntMax
  }

  /** Every slot is unfilled or holds two endpoints in `[0, num_qubits]`. */
  predicate EdgesInRange(edges: seq<Edge>, numQubits: Uint32)
  {
    forall i :: 0 <= i < |edges| ==>
      (edges[i] == (-1, -1) || (0 <= edges[i].0 <= numQubits && 0 <= edges[i].1 <= numQubits))
  }

  function ScanStart(n: nat): EdgeScan
  {
    EdgeScan(seq(n, _ => (-1, -1)), -1, -1, -1)
  }

  /** One edge: read `id`, `src` and `dst`, check the id against the edge count as
    * written and the endpoints against `[0, num_qubits]`, and store the pair at the id.
    * An id equal to the edge count passes the check and then writes one past the end
    * of `directed_edges`, which is undefined and modelled as an abort. */
  function EdgeStep(s: EdgeScan, e: Json, numQubits: Uint32): (r: Result<EdgeScan, string>)
    requires ScanValid(s, |s.edges|) && |s.edges| < Uint32Modulus
    ensures r.Success? ==> ScanValid(r.value, |s.edges|)
    ensures r.Success? ==> 0 <= r.value.id < |s.edges|
    ensures r.Success? ==> r.value.edges == s.edges[r.value.id := (r.value.src, r.value.dst)]
  {
    var id := IntTarget(e, "id", s.id);
    var src := if id.Failure? then id else IntTarget(e, "src", s.src);
    var dst := if src.Failure? then src else IntTarget(e, "dst", s.dst);
    if dst.Failure? then Failure(dst.error)
    else if !EdgeIdAcceptedAsWritten(id.value, |s.edges|) then Failure("bad edge id")
    else if !CheckIntRange(src.value, 0, NumUtil.Int32(numQubits)) then Failure("bad source qubit")
    else if !CheckIntRange(dst.value, 0, NumUtil.Int32(numQubits)) then Failure("bad target qubit")
    else if !EdgeIdAccepted(id.value, |s.edges|) then Failure("write past the edge vector")
    else Success(EdgeScan(s.edges[id.value := (src.value, dst.value)], id.value, src.value, dst.value))
  }

  /** The scan after the first `k` configured edges. */
  function ScanEdges(js: seq<Json>, k: nat, numQubits: Uint32): (r: Result<EdgeScan, string>)
    requires k <= |js| < Uint32Modulus
    ensures r.Success? ==> ScanValid(r.value, |js|)
  {
    if k == 0 then Success(ScanStart(|js|))
    else
      var s := ScanEdges(js, k - 1, numQubits);
      if s.Failure? then s else EdgeStep(s.value, js[k - 1], numQubits)
  }

  /** An edge whose three fields are in-range numbers is stored at its id, and a
    * configuration whose ids are a permutation of the slots fills every slot. */
  lemma EdgeStepStores(s: EdgeScan, e: Json, numQubits: Uint32, id: int, src: int, dst: int)
    requires ScanValid(s, |s.edges|) && |s.edges| < Uint32Modulus
    requires e.JObject? && "id" in e.members && "src" in e.members && "dst" in e.members
    requires e.members["id"] == JNumber(id) && e.members["src"] == JNumber(src) && e.members["dst"] == JNumber(dst)
    requires 0 <= id < |s.edges| && id <= NumUtil.IntMax && numQubits <= NumUtil.IntMax
    requires 0 <= src <= numQubits && 0 <= dst <= numQubits
    ensures EdgeStep(s, e, numQubits) == Success(EdgeScan(s.edges[id := (src, dst)], id, src, dst))
  {
    IntTargetReadsBack(e, "id", s.id, id);
    IntTargetReadsBack(e, "src", s.src, src);
    IntTargetReadsBack(e, "dst", s.dst, dst);
  }

  /** As written, an id equal to the edge count with in-range endpoints passes every
    * check and reaches the write past the end of the edge vector; an id below 0 or
    * above the edge count is refused by the check. */
  lemma EdgeStepIdPastEnd(s: EdgeScan, e: Json, numQubits: Uint32, id: int, src: int, dst: int)
    requires ScanValid(s, |s.edges|) && |s.edges| < Uint32Modulus
    requires e.JObject? && "id" in e.members && "src" in e.members && "dst" in e.members
    requires e.members["id"] == JNumber(id) && e.members["src"] == JNumber(src) && e.members["dst"] == JNumber(dst)
    requires NumUtil.IntMin <= id <= NumUtil.IntMax && numQubits <= NumUtil.IntMax
    requires 0 <= src <= numQubits && 0 <= dst <= numQubits
    ensures id == |s.edges| ==> EdgeStep(s, e, numQubits) == Failure("write past the edge vector")
    ensures (id < 0 || id > |s.edges|) ==> EdgeStep(s, e, numQubits) == Failure("bad edge id")
  {
    IntTargetReadsBack(e, "id", s.id, id);
    IntTargetReadsBack(e, "src", s.src, src);
    IntTargetReadsBack(e, "dst", s.dst, dst);
  }

  lemma Int32AtMost(x: nat)
    ensures NumUtil.Int32(x) <= x
  {
  }

  /** A successful scan leaves every slot unfilled or with endpoints in range. */
  lemma {:induction false} ScanEdgesInRange(js: seq<Json>, k: nat, numQubits: Uint32)
    requires k <= |js| < Uint32Modulus && ScanEdges(js, k, numQubits).Success?
    ensures EdgesInRange(ScanEdges(js, k, numQubits).value.edges, numQubits)
  {
    if k > 0 {
      ScanEdgesInRange(js, k - 1, numQubits);
      var s := ScanEdges(js, k - 1, numQubits).value;
      var t := EdgeStep(s, js[k - 1], numQubits).value;
      Int32AtMost(numQubits);
      assert 0 <= t.src <= numQubits && 0 <= t.dst <= numQubits;
    }
  }

  /** A failed read or check ends the scan: every longer prefix fails too. */
  lemma {:induction false} ScanFailsOnward(js: seq<Json>, k: nat, numQubits: Uint32)
    requires k <= |js| < Uint32Modulus && ScanEdges(js, k, numQubits).Failure?
    ensures ScanEdges(js, |js|, numQubits).Failure?
    decreases |js| - k
  {
    if k < |js| {
      ScanFailsOnward(js, k + 1, numQubits);
    }
  }

  /** One iteration of the edge loop of `read_from_file`. */
  method ReadEdge(s: EdgeScan, e: Json, numQubits: Uint32) returns (r: Result<EdgeScan, string>)
    requires ScanValid(s, |s.edges|) && |s.edges| < Uint32Modulus
    ensures r == EdgeStep(s, e, numQubits)
  {
    var id := ReadJsonInt(e, "id", s.id);
    if id.Failure? {
      return Failure(id.error);
    }
    var src := ReadJsonInt(e, "src", s.src);
    if src.Failure? {
      return Failure(src.error);
    }
    var dst := ReadJsonInt(e, "dst", s.dst);
    if dst.Failure? {
      return Failure(dst.error);
    }
    if !EdgeIdAcceptedAsWritten(id.value, |s.edges|) {
      return Failure("bad edge id");
    }
    if !CheckIntRange(src.value, 0, NumUtil.Int32(numQubits)) {
      return Failure("bad source qubit");
    }
    if !CheckIntRange(dst.value, 0, NumUtil.Int32(numQubits)) {
      return Failure("bad target qubit");
    }
    if !EdgeIdAccepted(id.value, |s.edges|) {
      return Failure("write past the edge vector");
    }
    r := Success(EdgeScan(s.edges[id.value := (src.value, dst.value)], id.value, src.value, dst.value));
  }

  // ------------------------------------------------------------------ gate tables

  /** `asm_gate_time_mapping_default`: name and duration per row. */
  const AsmSingleDefault: seq<seq<string>> := [
    ["x", "20"], ["rx", "20"], ["xm", "20"], ["y", "20"], ["ry", "20"], ["ym", "20"],
    ["z", "20"], ["rz", "20"], ["zm", "20"], ["h", "20"], ["s", "20"], ["t", "20"],
    ["tdg", "20"], ["sdg", "20"], ["mock_meas", "20"], ["measure", "600"]]
  const AsmTwoDefault: seq<seq<string>> := [["cz", "40"]]

  /** `opcode_gate_mapping_default`: opcode, name and duration per row. */
  const OpcodeSingleDefault: seq<seq<string>> := [
    ["0", "null", "0"], ["1", "h", "20"], ["2", "x45", "20"], ["3", "xm45", "20"],
    ["6", "measure", "600"], ["8", "x90", "20"], ["9", "xm90", "20"], ["10", "x180", "20"],
    ["11", "xm180", "20"], ["12", "y90", "20"], ["13", "ym90", "20"], ["14", "z45", "20"],
    ["15", "zm45", "20"], ["16", "x15", "20"], ["17", "zm45", "20"], ["18", "x30", "20"],
    ["19", "xm30", "20"], ["20", "x60", "20"], ["21", "xm60", "20"], ["22", "x75", "20"],
    ["23", "xm75", "20"], ["24", "x105", "20"], ["25", "xm105", "20"], ["26", "z90", "20"],
    ["27", "zm90", "20"], ["28", "y180", "20"], ["29", "z180", "20"]]
  const OpcodeTwoDefault: seq<seq<string>> := [["128", "cz", "40"]]

  /** Every row has `width` cells and the cells `str_to_uint` reads are not empty. */
  predicate RowsWellFormed(rows: seq<seq<string>>, width: nat)
  {
    width > 0 && forall i :: 0 <= i < |rows| ==> |rows[i]| == width && rows[i][0] != [] && rows[i][width - 1] != []
  }

  /** The default tables are well formed. */
  lemma DefaultTablesWellFormed()
    ensures RowsWellFormed(AsmSingleDefault, 2) && RowsWellFormed(AsmTwoDefault, 2)
    ensures RowsWellFormed(OpcodeSingleDefault, 3) && RowsWellFormed(OpcodeTwoDefault, 3)
  {
  }

  /** One gate-table entry: an opcode, a name and a duration. */
  datatype GateEntry = GateEntry(code: nat, name: string, time: Uint32)

  function CodeOf(e: GateEntry): nat { e.code }
  function NameOf(e: GateEntry): string { e.name }
  function TimeOf(e: GateEntry): Uint32 { e.time }

  /** The map `m` after writing `key(e) := val(e)` for each entry in order. */
  function MapAfter<K, V>(m: map<K, V>, es: seq<GateEntry>, key: GateEntry -> K, val: GateEntry -> V): (r: map<K, V>)
  {
    if es == [] then m
    else MapAfter(m, es[..|es| - 1], key, val)[key(es[|es| - 1]) := val(es[|es| - 1])]
  }

  /** The last entry written under a key decides its value; keys nothing writes keep
    * their old value. */
  lemma {:induction false} MapAfterLastWins<K, V>(m: map<K, V>, es: seq<GateEntry>, key: GateEntry -> K, val: GateEntry -> V, i: nat)
    requires i < |es| && forall j :: i < j < |es| ==> key(es[j]) != key(es[i])
    ensures key(es[i]) in MapAfter(m, es, key, val) && MapAfter(m, es, key, val)[key(es[i])] == val(es[i])
  {
    if i < |es| - 1 {
      MapAfterLastWins(m, es[..|es| - 1], key, val, i);
    }
  }

  lemma {:induction false} MapAfterUntouched<K, V>(m: map<K, V>, es: seq<GateEntry>, key: GateEntry -> K, val: GateEntry -> V, k: K)
    requires k in m && forall j :: 0 <= j < |es| ==> key(es[j]) != k
    ensures k in MapAfter(m, es, key, val) && MapAfter(m, es, key, val)[k] == m[k]
  {
    if es != [] {
      MapAfterUntouched(m, es[..|es| - 1], key, val, k);
    }
  }

  /** The entry of a default-table row: in binary mode the opcode, name and duration
    * columns; in assembly mode the name and duration columns, with no opcode. */
  function RowEntry(row: seq<string>, bin: bool): (e: GateEntry)
    requires |row| == (if bin then 3 else 2) && row[0] != [] && row[|row| - 1] != []
  {
    var time := NumUtil.StrToUint(row[|row| - 1]).value;
    if bin then GateEntry(NumUtil.StrToUint(row[0]).value, row[1], time)
    else GateEntry(0, row[0], time)
  }

  function RowEntries(rows: seq<seq<string>>, bin: bool): (es: seq<GateEntry>)
    requires RowsWellFormed(rows, if bin then 3 else 2)
    ensures |es| == |rows|
  {
    seq(|rows|, i requires 0 <= i < |rows| => RowEntry(rows[i], bin))
  }

  // ------------------------------------------------------------------ gate configuration

  /** `std::stoi(key)`: leading white space, an optional sign and at least one decimal
    * digit; no digit, or a value outside `int`, throws. */
  function Stoi(s: string): (r: Result<int, string>)
    ensures r.Success? ==> NumUtil.IntMin <= r.value <= NumUtil.IntMax
  {
    var t := s[NumUtil.SkipSpace(s)..];
    var neg := t != [] && t[0] == '-';
    var u := if t != [] && (t[0] == '-' || t[0] == '+') then t[1..] else t;
    var d := NumUtil.DigitRun(u);
    if d == 0 then Failure("invalid_argument: stoi")
    else
      var m := Text.DigitsValue(u[..d]);
      var v: int := if neg then -(m as int) else m;
      if v < NumUtil.IntMin || v > NumUtil.IntMax then Failure("out_of_range: stoi") else Success(v)
  }

  /** Every unsigned key printed in decimal is read back by `stoi` when it fits. */
  lemma StoiOfText(n: nat)
    requires n <= NumUtil.IntMax
    ensures Stoi(Text.NatToString(n)) == Success(n)
  {
    var t := Text.NatToString(n);
    NumUtil.DigitsExtracted(n);
    Text.NatToStringValue(n);
    assert t[0..] == t && t[..|t|] == t;
    assert !(t[0] == '-' || t[0] == '+');
  }

  /** The stored form of a configured gate name: trimmed, then lower-cased. */
  function Normalise(name: string): string
  {
    Text.ToLower(NumUtil.Trim(name))
  }

  /** Normalising a stored name again leaves it as it is. */
  lemma NormaliseIdempotent(name: string)
    ensures Normalise(Normalise(name)) == Normalise(name)
  {
    var t := NumUtil.Trim(name);
    var l := Text.ToLower(t);
    if l != [] {
      assert !NumUtil.Blank(l[0]) && !NumUtil.Blank(l[|l| - 1]);
    }
    NumUtil.TrimKeepsTrimmed(l);
    var ll := Text.ToLower(l);
    assert forall i :: 0 <= i < |l| ==> ll[i] == l[i];
  }

  /** A binary-mode entry `key: [name, time, ...]`: the key is the opcode (cast to
    * `unsigned`), the value must be an array of at least two elements whose first is a
    * string and whose second converts to `unsigned`. */
  function BinGateEntry(obj: Json, key: string): Result<GateEntry, string>
  {
    var code := Stoi(key);
    if code.Failure? then Failure(code.error)
    else
      var ok := CheckKeyExist(obj, key);
      if ok.Failure? then Failure(ok.error)
      else
        var v := obj.members[key];
        if Size(v) < 2 then Failure("missing entry")
        else if !v.JArray? then Failure("type_error")
        else
          var name := GetString(v.items[0]);
          var time := GetUint(v.items[1]);
          if name.Failure? then Failure(name.error)
          else if time.Failure? then Failure(time.error)
          else Success(GateEntry(code.value % Uint32Modulus, Normalise(name.value), time.value))
  }

  /** An entry that is read has the key's number as its opcode and the normalised
    * first element of the key's array, a string, as its name. */
  lemma BinGateEntryMeaning(obj: Json, key: string)
    ensures var r := BinGateEntry(obj, key);
      r.Success? ==> Stoi(key).Success? && r.value.code == Stoi(key).value % Uint32Modulus
    ensures var r := BinGateEntry(obj, key);
      r.Success? ==>
      (CheckKeyExist(obj, key).Success? && obj.members[key].JArray?
       && |obj.members[key].items| >= 2 && obj.members[key].items[0].JString?
       && r.value.name == Normalise(obj.members[key].items[0].s))
  {
  }

  /** The entries of a binary-mode gate object, visited in the given key order. */
  function BinGateEntries(obj: Json, keys: seq<string>): (r: Result<seq<GateEntry>, string>)
    ensures r.Success? ==> |r.value| == |keys|
  {
    if keys == [] then Success([])
    else
      var init := BinGateEntries(obj, keys[..|keys| - 1]);
      var last := BinGateEntry(obj, keys[|keys| - 1]);
      if init.Failure? then init
      else if last.Failure? then Failure(last.error)
      else Success(init.value + [last.value])
  }

  /** Entry `i` is what key `i` reads as on its own. */
  predicate EntriesOf(obj: Json, es: seq<GateEntry>, keys: seq<string>)
  {
    |es| == |keys| && forall i :: 0 <= i < |keys| ==> BinGateEntry(obj, keys[i]) == Success(es[i])
  }

  lemma EntriesOfAppend(obj: Json, es: seq<GateEntry>, keys: seq<string>, e: GateEntry, k: string)
    requires EntriesOf(obj, es, keys) && BinGateEntry(obj, k) == Success(e)
    ensures EntriesOf(obj, es + [e], keys + [k])
  {
  }

  lemma BinGateEntriesStep(obj: Json, keys: seq<string>)
    requires keys != [] && BinGateEntries(obj, keys).Success?
    ensures var n := |keys| - 1; var es := BinGateEntries(obj, keys).value;
      BinGateEntries(obj, keys[..n]).Success? && BinGateEntries(obj, keys[..n]).value == es[..n] &&
      BinGateEntry(obj, keys[n]) == Success(es[n])
  {
  }

  /** A binary-mode gate object that is read completely yields, for each key in order,
    * exactly the entry that key reads as. */
  lemma {:induction false} BinGateEntriesEach(obj: Json, keys: seq<string>)
    requires BinGateEntries(obj, keys).Success?
    ensures EntriesOf(obj, BinGateEntries(obj, keys).value, keys)
  {
    if keys != [] {
      var n := |keys| - 1;
      var es := BinGateEntries(obj, keys).value;
      BinGateEntriesStep(obj, keys);
      BinGateEntriesEach(obj, keys[..n]);
      EntriesOfAppend(obj, es[..n], keys[..n], es[n], keys[n]);
      assert es[..n] + [es[n]] == es;
      assert keys[..n] + [keys[n]] == keys;
    }
  }

  /** The durations read for the keys of an assembly-mode gate object, in order: each
    * value is read into a variable that keeps the previous duration (first `time0`)
    * when the value is not a number. */
  function AsmGateTimes(obj: Json, keys: seq<string>, time0: Uint32): (r: Result<seq<Uint32>, string>)
    ensures r.Success? ==> |r.value| == |keys|
  {
    if keys == [] then Success([])
    else
      var init := AsmGateTimes(obj, keys[..|keys| - 1], time0);
      if init.Failure? then init
      else
        var cur := if init.value == [] then time0 else init.value[|init.value| - 1];
        var time := UintTarget(obj, keys[|keys| - 1], cur);
        if time.Failure? then Failure(time.error)
        else Success(init.value + [time.value])
  }

  /** Entry `i` is named by key `i`, normalised. */
  predicate NamedBy(es: seq<GateEntry>, keys: seq<string>)
  {
    |es| == |keys| && forall i :: 0 <= i < |keys| ==> es[i].name == Normalise(keys[i])
  }

  /** The entries of an assembly-mode gate object: key `i`, normalised, with the
    * duration read for it. */
  function AsmGateEntries(obj: Json, keys: seq<string>, time0: Uint32): (r: Result<seq<GateEntry>, string>)
    ensures r.Success? <==> AsmGateTimes(obj, keys, time0).Success?
    ensures r.Success? ==> NamedBy(r.value, keys)
    ensures r.Success? ==> forall i :: 0 <= i < |keys| ==> r.value[i].time == AsmGateTimes(obj, keys, time0).value[i]
  {
    match AsmGateTimes(obj, keys, time0)
    case Failure(e) => Failure(e)
    case Success(ts) => Success(seq(|keys|, i requires 0 <= i < |keys| => GateEntry(0, Normalise(keys[i]), ts[i])))
  }

  /** Every name the gate configuration stores is in normal form. */
  lemma GateNamesNormal(obj: Json, keys: seq<string>, time0: Uint32, bin: bool, i: nat)
    requires bin ==> BinGateEntries(obj, keys).Success?
    requires !bin ==> AsmGateEntries(obj, keys, time0).Success?
    requires i < |keys|
    ensures var es := if bin then BinGateEntries(obj, keys).value else AsmGateEntries(obj, keys, time0).value;
      Normalise(es[i].name) == es[i].name
  {
    if bin {
      var e := BinGateEntries(obj, keys).value[i];
      BinGateEntriesEach(obj, keys);
      assert BinGateEntry(obj, keys[i]) == Success(e);
      BinGateEntryMeaning(obj, keys[i]);
      NormaliseIdempotent(obj.members[keys[i]].items[0].s);
    } else {
      NormaliseIdempotent(keys[i]);
    }
  }

  // ------------------------------------------------------------------ the reader

  /** `config_reader`: the topology lists, the gate maps, the instruction type and the
    * data memory. */
  class Config {
    var numQubits: Uint32
    var numDirectedEdges: Uint32
    var inEdgesOfQubit: seq<seq<nat>>
    var outEdgesOfQubit: seq<seq<nat>>
    var instructionType: InstructionType
    var qubitSimulator: QubitSimulatorType
    var singleQubitGateTime: map<string, Uint32>
    var twoQubitGateTime: map<string, Uint32>
    var opcodeToOpnameLut: map<nat, string>
    var dataMemory: DataMemory.Memory?

    /** `config_reader()`: the field defaults, then `set_topology_default`. */
    constructor ()
      ensures numQubits == 7 && numDirectedEdges == 0
      ensures instructionType == Asm && qubitSimulator == QuantumSim
      ensures EndpointsBelow(DefaultEdges, DefaultNumDirectedEdges)
      ensures outEdgesOfQubit == Spread(DefaultEdges, 16, 16, true)
      ensures inEdgesOfQubit == Spread(DefaultEdges, 16, 16, false)
      ensures singleQubitGateTime == map[] && twoQubitGateTime == map[] && opcodeToOpnameLut == map[]
      ensures dataMemory == null
    {
      numQubits := 7;
      numDirectedEdges := 0;
      instructionType := Asm;
      qubitSimulator := QuantumSim;
      singleQubitGateTime := map[];
      twoQubitGateTime := map[];
      opcodeToOpnameLut := map[];
      dataMemory := null;
      inEdgesOfQubit := [];
      outEdgesOfQubit := [];
      new;
      SetTopologyDefault();
    }

    /** Pushes every edge index onto the out-list of its source and the in-list of its
      * target, over `|edges|` cleared lists (the loops of `set_topology_default` and
      * `read_from_file`). */
    method SpreadEdges(edges: seq<Edge>)
      requires EndpointsBelow(edges, |edges|)
      modifies this
      ensures outEdgesOfQubit == Spread(edges, |edges|, |edges|, true)
      ensures inEdgesOfQubit == Spread(edges, |edges|, |edges|, false)
      ensures numQubits == old(numQubits) && numDirectedEdges == old(numDirectedEdges)
      ensures instructionType == old(instructionType) && qubitSimulator == old(qubitSimulator)
      ensures singleQubitGateTime == old(singleQubitGateTime) && twoQubitGateTime == old(twoQubitGateTime)
      ensures opcodeToOpnameLut == old(opcodeToOpnameLut) && dataMemory == old(dataMemory)
    {
      var n := |edges|;
      var ins: seq<seq<nat>> := seq(n, _ => []);
      var outs: seq<seq<nat>> := seq(n, _ => []);
      var i := 0;
      while i < n
        invariant 0 <= i <= n
        invariant outs == Spread(edges, i, n, true) && ins == Spread(edges, i, n, false)
      {
        var left := edges[i].0;
        var right := edges[i].1;
        outs := outs[left := outs[left] + [i]];
        ins := ins[right := ins[right] + [i]];
        i := i + 1;
      }
      inEdgesOfQubit, outEdgesOfQubit := ins, outs;
    }

    /** `set_topology_default`: the default edges spread into 16 lists. The edge count
      * there is a local variable, so `num_directed_edges` keeps its value. */
    method SetTopologyDefault()
      modifies this
      ensures EndpointsBelow(DefaultEdges, DefaultNumDirectedEdges)
      ensures outEdgesOfQubit == Spread(DefaultEdges, 16, 16, true)
      ensures inEdgesOfQubit == Spread(DefaultEdges, 16, 16, false)
      ensures numQubits == old(numQubits) && numDirectedEdges == old(numDirectedEdges)
      ensures instructionType == old(instructionType) && qubitSimulator == old(qubitSimulator)
      ensures singleQubitGateTime == old(singleQubitGateTime) && twoQubitGateTime == old(twoQubitGateTime)
      ensures opcodeToOpnameLut == old(opcodeToOpnameLut) && dataMemory == old(dataMemory)
    {
      DefaultEndpointsBelow();
      SpreadEdges(DefaultEdges);
    }

    /** The edge loop of `read_from_file`: reads each configured edge and stores it,
      * aborting on a failed read or range check. */
    method ReadEdges(js: seq<Json>) returns (r: Result<seq<Edge>, string>)
      requires |js| < Uint32Modulus
      ensures r.Success? <==> ScanEdges(js, |js|, numQubits).Success?
      ensures r.Success? ==> r.value == ScanEdges(js, |js|, numQubits).value.edges
    {
      var s := ScanStart(|js|);
      var i := 0;
      while i < |js|
        invariant 0 <= i <= |js|
        invariant ScanEdges(js, i, numQubits) == Success(s)
      {
        var step := ReadEdge(s, js[i], numQubits);
        if step.Failure? {
          ScanFailsOnward(js, i + 1, numQubits);
          return Failure(step.error);
        }
        s := step.value;
        i := i + 1;
      }
      r := Success(s.edges);
    }

    /** The type switches of `read_from_file`. */
    method SetTypes(instrType: Uint32, quantSim: Uint32) returns (r: Result<(), string>)
      modifies this
      ensures r.Success? <==> InstructionTypeOf(instrType).Success? && QubitSimulatorOf(quantSim).Success?
      ensures r.Success? ==> instructionType == InstructionTypeOf(instrType).value && qubitSimulator == QuantumSim
    {
      var it := InstructionTypeOf(instrType);
      if it.Failure? {
        return Failure(it.error);
      }
      instructionType := it.value;
      var qs := QubitSimulatorOf(quantSim);
      if qs.Failure? {
        return Failure(qs.error);
      }
      qubitSimulator := qs.value;
      r := Success(());
    }

    /** `init_data_memory`: allocates a zeroed data memory of the configured size. */
    method InitDataMemory(dataSize: string) returns (r: Result<(), string>)
      requires NumUtil.Trim(dataSize) != []
      modifies this
      ensures r.Success? <==> DataMemorySize(dataSize).Success?
      ensures r.Success? ==>
        (dataMemory != null && fresh(dataMemory) && fresh(dataMemory.memory)
         && dataMemory.memSize == DataMemorySize(dataSize).value
         && dataMemory.memory[..] == seq(DataMemorySize(dataSize).value / 4, _ => 0))
    {
      var size := DataMemorySize(dataSize);
      if size.Failure? {
        return Failure(size.error);
      }
      dataMemory := new DataMemory.Memory(size.value);
      r := Success(());
    }

    /** Writes a list of gate entries into the opcode table (binary mode only) and into
      * the single- or two-qubit duration map. */
    method StoreGateEntries(es: seq<GateEntry>, bin: bool, single: bool)
      modifies this
      ensures opcodeToOpnameLut == if bin then MapAfter(old(opcodeToOpnameLut), es, CodeOf, NameOf) else old(opcodeToOpnameLut)
      ensures singleQubitGateTime == if single then MapAfter(old(singleQubitGateTime), es, NameOf, TimeOf) else old(singleQubitGateTime)
      ensures twoQubitGateTime == if single then old(twoQubitGateTime) else MapAfter(old(twoQubitGateTime), es, NameOf, TimeOf)
      ensures inEdgesOfQubit == old(inEdgesOfQubit) && outEdgesOfQubit == old(outEdgesOfQubit)
      ensures instructionType == old(instructionType) && dataMemory == old(dataMemory)
    {
      var i := 0;
      while i < |es|
        invariant 0 <= i <= |es|
        invariant opcodeToOpnameLut == if bin then MapAfter(old(opcodeToOpnameLut), es[..i], CodeOf, NameOf) else old(opcodeToOpnameLut)
        invariant singleQubitGateTime == if single then MapAfter(old(singleQubitGateTime), es[..i], NameOf, TimeOf) else old(singleQubitGateTime)
        invariant twoQubitGateTime == if single then old(twoQubitGateTime) else MapAfter(old(twoQubitGateTime), es[..i], NameOf, TimeOf)
        invariant inEdgesOfQubit == old(inEdgesOfQubit) && outEdgesOfQubit == old(outEdgesOfQubit)
        invariant instructionType == old(instructionType) && dataMemory == old(dataMemory)
      {
        assert es[..i + 1][..i] == es[..i];
        if bin {
          opcodeToOpnameLut := opcodeToOpnameLut[es[i].code := es[i].name];
        }
        if single {
          singleQubitGateTime := singleQubitGateTime[es[i].name := es[i].time];
        } else {
          twoQubitGateTime := twoQubitGateTime[es[i].name := es[i].time];
        }
        i := i + 1;
      }
      assert es[..|es|] == es;
    }

    /** `set_qubit_gate_default`: in binary mode the opcode table and both duration maps
      * are filled from the opcode table; in assembly mode only the duration maps. */
    method SetQubitGateDefault()
      modifies this
      ensures DefaultTablesAreWellFormed()
      ensures var bin := instructionType == Bin;
        var s := if bin then RowEntries(OpcodeSingleDefault, true) else RowEntries(AsmSingleDefault, false);
        var t := if bin then RowEntries(OpcodeTwoDefault, true) else RowEntries(AsmTwoDefault, false);
        && opcodeToOpnameLut == (if bin then MapAfter(MapAfter(old(opcodeToOpnameLut), s, CodeOf, NameOf), t, CodeOf, NameOf)
                                 else old(opcodeToOpnameLut))
        && singleQubitGateTime == MapAfter(old(singleQubitGateTime), s, NameOf, TimeOf)
        && twoQubitGateTime == MapAfter(old(twoQubitGateTime), t, NameOf, TimeOf)
      ensures instructionType == old(instructionType)
    {
      DefaultTablesWellFormed();
      var bin := instructionType == Bin;
      if bin {
        StoreGateEntries(RowEntries(OpcodeSingleDefault, true), true, true);
        StoreGateEntries(RowEntries(OpcodeTwoDefault, true), true, false);
      } else {
        StoreGateEntries(RowEntries(AsmSingleDefault, false), false, true);
        StoreGateEntries(RowEntries(AsmTwoDefault, false), false, false);
      }
    }

    /** `read_qubit_gate_config` once its file is parsed: the opcode table and both
      * duration maps are cleared, then the per-entry loops run over the single- and
      * two-qubit gate objects, whose keys are visited in the given order. `gateTime` is
      * the duration variable's value before the loops. */
    method ReadQubitGateConfig(single: Json, singleKeys: seq<string>, two: Json, twoKeys: seq<string>, gateTime: Uint32)
      returns (r: Result<(), string>)
      modifies this
      ensures instructionType == old(instructionType)
      ensures r.Success? && instructionType == Bin ==>
        && BinGateEntries(single, singleKeys).Success? && BinGateEntries(two, twoKeys).Success?
        && singleQubitGateTime == MapAfter(map[], BinGateEntries(single, singleKeys).value, NameOf, TimeOf)
        && twoQubitGateTime == MapAfter(map[], BinGateEntries(two, twoKeys).value, NameOf, TimeOf)
        && opcodeToOpnameLut == MapAfter(MapAfter(map[], BinGateEntries(single, singleKeys).value, CodeOf, NameOf),
                                         BinGateEntries(two, twoKeys).value, CodeOf, NameOf)
      ensures r.Success? && instructionType == Asm ==>
        && AsmGateEntries(single, singleKeys, gateTime).Success?
        && var s := AsmGateEntries(single, singleKeys, gateTime).value;
           var last := if s == [] then gateTime else s[|s| - 1].time;
           && AsmGateEntries(two, twoKeys, last).Success?
           && singleQubitGateTime == MapAfter(map[], s, NameOf, TimeOf)
           && twoQubitGateTime == MapAfter(map[], AsmGateEntries(two, twoKeys, last).value, NameOf, TimeOf)
           && opcodeToOpnameLut == map[]
    {
      opcodeToOpnameLut, singleQubitGateTime, twoQubitGateTime := map[], map[], map[];
      if instructionType == Bin {
        var s := BinGateEntries(single, singleKeys);
        if s.Failure? {
          return Failure(s.error);
        }
        StoreGateEntries(s.value, true, true);
        var t := BinGateEntries(two, twoKeys);
        if t.Failure? {
          return Failure(t.error);
        }
        StoreGateEntries(t.value, true, false);
      } else {
        var s := AsmGateEntries(single, singleKeys, gateTime);
        if s.Failure? {
          return Failure(s.error);
        }
        StoreGateEntries(s.value, false, true);
        var last := if s.value == [] then gateTime else s.value[|s.value| - 1].time;
        var t := AsmGateEntries(two, twoKeys, last);
        if t.Failure? {
          return Failure(t.error);
        }
        StoreGateEntries(t.value, false, false);
      }
      r := Success(());
    }
  }

  predicate DefaultTablesAreWellFormed()
  {
    RowsWellFormed(AsmSingleDefault, 2) && RowsWellFormed(AsmTwoDefault, 2)
    && RowsWellFormed(OpcodeSingleDefault, 3) && RowsWellFormed(OpcodeTwoDefault, 3)
  }
}
