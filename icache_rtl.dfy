/** The instruction cache of src/1_digital/classical/icache_rtl.cpp: loading an
  * assembly or binary program, expanding the `bne`/`beq` macros, the fetch-address
  * loop and the two-stage read pipeline. */
module IcacheRtl {
  import opened Wrappers
  import opened GenericIf
  import NumUtil
  import Text
  import Q = QasmInstruction

  /** `CACHE_SIZE`: the number of words of the binary cache. */
  const CacheSize := 1_000_000
  /** Fetch addresses are `MEMORY_ADDRESS_WIDTH` (21) bits wide. */
  const PcModulus := 0x20_0000

  type Pc = x: int | 0 <= x < PcModulus
  type Byte = x: int | 0 <= x < 256

  // ------------------------------------------------------------------ assembly lines

  /** One entry of `cache_mem_asm`: the instruction text, the number of the source line
    * and the (trimmed) source line it came from. */
  datatype AsmEntry = AsmEntry(insn: string, lineNum: string, line: string)

  /** The regular expression `[0-9a-zA-Z]+` finds a match. */
  predicate HasAlnum(s: string)
  {
    exists i :: 0 <= i < |s| && Text.IsAlnum(s[i])
  }

  /** `find_last_of(c)`, with `|s|` standing for npos. */
  function LastIndexOf(s: string, c: char): (i: nat)
    ensures i <= |s| && (i < |s| ==> s[i] == c && forall k :: i < k < |s| ==> s[k] != c)
    ensures i == |s| ==> c !in s
  {
    if s == [] then 0
    else if s[|s| - 1] == c then |s| - 1
    else
      var j := LastIndexOf(s[..|s| - 1], c);
      if j == |s| - 1 then |s| else j
  }

  /** The three entries a macro line expands to: the compare of everything after the
    * first blank up to the last comma, a `nop`, and a branch on `cond` to the part
    * from the last comma on. */
  function Expand(t: string, cond: string, lineNum: string): (r: seq<AsmEntry>)
    ensures |r| == 3 && forall e :: e in r ==> e.lineNum == lineNum && e.line == t
    ensures r[1].insn == "nop" && "cmp " <= r[0].insn && "br " <= r[2].insn
  {
    var start := Q.FirstSpace(t);
    var content := t[start..];
    var end := LastIndexOf(content, ',');
    [AsmEntry("cmp " + content[..end], lineNum, t), AsmEntry("nop", lineNum, t),
     AsmEntry("br " + cond + content[end..], lineNum, t)]
  }

  /** `convert_line_to_ele_instr` as written: the line is trimmed, and a case-insensitive
    * `bne` (else `beq`) anywhere in it makes it a macro; any other line is one entry.
    * The result's length is the count the call returns. */
  function ConvertLineAsWritten(line: string, lineNum: string): (r: seq<AsmEntry>)
  {
    var t := NumUtil.Trim(line);
    if Q.Mentions(t, "bne") then Expand(t, "ne", lineNum)
    else if Q.Mentions(t, "beq") then Expand(t, "eq", lineNum)
    else [AsmEntry(t, lineNum, t)]
  }

  /** A branch to a label whose name contains `bne` is taken for the macro: the
    * unconditional `br always, subnet` becomes a compare with the single operand
    * `always`, a `nop` and a conditional `br ne, subnet`. */
  lemma ConvertLineAsWrittenMisreadsLabel(line: string)
    requires line == "br always, subnet"
    ensures ConvertLineAsWritten(line, "1") ==
      [AsmEntry("cmp  always", "1", line), AsmEntry("nop", "1", line), AsmEntry("br ne, subnet", "1", line)]
  {
    SubnetFacts(line);
    SubnetPieces(line);
    ExpandShape(line, "ne", "1", 2, 7, " always", ", subnet");
  }

  /** Recognising the macro by its mnemonic keeps that branch a single entry. */
  lemma ConvertLineKeepsLabelBranch(line: string)
    requires line == "br always, subnet"
    ensures ConvertLine(line, "1") == [AsmEntry(line, "1", line)]
  {
    SubnetFacts(line);
  }

  /** `Expand` in terms of the operand and label parts. */
  lemma ExpandShape(t: string, cond: string, lineNum: string, start: nat, end: nat, ops: string, lbl: string)
    requires start == Q.FirstSpace(t) && end == LastIndexOf(t[start..], ',')
    requires t[start..][..end] == ops && t[start..][end..] == lbl
    ensures Expand(t, cond, lineNum) ==
      [AsmEntry("cmp " + ops, lineNum, t), AsmEntry("nop", lineNum, t), AsmEntry("br " + cond + lbl, lineNum, t)]
  {
  }

  /** The line `br always, subnet` is its own trim, mentions `bne`, has the mnemonic
    * `br`, its first blank at 2 and its last comma 7 characters after that. */
  lemma SubnetFacts(t: string)
    requires t == "br always, subnet"
    ensures NumUtil.Trim(t) == t && Q.Mentions(t, "bne") && Mnemonic(t) == "br"
    ensures Q.FirstSpace(t) == 2 && LastIndexOf(t[2..], ',') == 7
  {
    NumUtil.TrimKeepsTrimmed(t);
    SubnetMentionsBne(t);
    SubnetSplitPoints(t);
    SubnetMnemonic(t);
  }

  lemma SubnetMnemonic(t: string)
    requires t == "br always, subnet" && Q.FirstSpace(t) == 2
    ensures Mnemonic(t) == "br"
  {
    LowerCaseUnchanged(t[..2]);
  }

  lemma SubnetPieces(t: string)
    requires t == "br always, subnet"
    ensures t[2..][..7] == " always" && t[2..][7..] == ", subnet"
    ensures "cmp " + " always" == "cmp  always" && "br " + "ne" + ", subnet" == "br ne, subnet"
  {
  }

  lemma SubnetMentionsBne(t: string)
    requires t == "br always, subnet"
    ensures Q.Mentions(t, "bne")
  {
    assert t[13..16] == "bne";
    assert Text.OccursAt(t, "bne", 13);
    Text.ContainsAt(t, "bne");
    assert forall i :: 0 <= i < |t| ==> !('A' <= t[i] <= 'Z');
    LowerCaseUnchanged(t);
  }

  lemma SubnetSplitPoints(t: string)
    requires t == "br always, subnet"
    ensures Q.FirstSpace(t) == 2 && LastIndexOf(t[2..], ',') == 7
  {
    assert t[0] != ' ' && t[1] != ' ' && t[2] == ' ';
    assert t[9] == ',' && forall k :: 9 < k < |t| ==> t[k] != ',';
    LastIndexOfAt(t[2..], ',', 7);
  }

  /** A string without upper-case letters is its own lower case. */
  lemma LowerCaseUnchanged(s: string)
    requires forall i :: 0 <= i < |s| ==> !('A' <= s[i] <= 'Z')
    ensures Text.ToLower(s) == s
  {
  }

  /** The last occurrence is the one with no occurrence after it. */
  lemma {:induction false} LastIndexOfAt(s: string, c: char, i: nat)
    requires i < |s| && s[i] == c && forall k :: i < k < |s| ==> s[k] != c
    ensures LastIndexOf(s, c) == i
  {
    if i < |s| - 1 {
      LastIndexOfAt(s[..|s| - 1], c, i);
    }
  }

  /** The mnemonic of a trimmed line in lower case: everything before the first blank. */
  function Mnemonic(t: string): string
  {
    Text.ToLower(t[..Q.FirstSpace(t)])
  }

  /** `convert_line_to_ele_instr` with the macro recognised by its mnemonic only. */
  function ConvertLine(line: string, lineNum: string): seq<AsmEntry>
  {
    var t := NumUtil.Trim(line);
    if Mnemonic(t) == "bne" then Expand(t, "ne", lineNum)
    else if Mnemonic(t) == "beq" then Expand(t, "eq", lineNum)
    else [AsmEntry(t, lineNum, t)]
  }

  /** As written, a line becomes one entry holding its trimmed text, unless `bne` or
    * `beq`, in any case, occurs anywhere in it, when it becomes the three entries
    * compare, `nop`, branch (`ne` when `bne` occurs); every entry carries the line's
    * number and trimmed text. */
  lemma ConvertLineAsWrittenMeaning(line: string, lineNum: string)
    ensures var r := ConvertLineAsWritten(line, lineNum); var t := NumUtil.Trim(line);
      (|r| == 1 || |r| == 3) &&
      (forall e :: e in r ==> e.lineNum == lineNum && e.line == t) &&
      (|r| == 1 <==> !Q.Mentions(t, "bne") && !Q.Mentions(t, "beq")) &&
      (|r| == 1 ==> r[0].insn == t) &&
      (|r| == 3 ==> r[1].insn == "nop" && "cmp " <= r[0].insn && "br " <= r[2].insn) &&
      (|r| == 3 ==> r[2].insn[3..5] == (if Q.Mentions(t, "bne") then "ne" else "eq"))
  {
  }

  /** As intended, a line becomes one entry holding its trimmed text, unless its mnemonic is `bne`
    * or `beq`, when it becomes the three entries compare, `nop`, branch; every entry
    * carries the line's number and trimmed text. */
  lemma ConvertLineMeaning(line: string, lineNum: string)
    ensures var r := ConvertLine(line, lineNum);
      (|r| == 1 || |r| == 3) &&
      (forall e :: e in r ==> e.lineNum == lineNum && e.line == NumUtil.Trim(line)) &&
      (|r| == 1 <==> Mnemonic(NumUtil.Trim(line)) != "bne" && Mnemonic(NumUtil.Trim(line)) != "beq") &&
      (|r| == 1 ==> r[0].insn == NumUtil.Trim(line)) &&
      (|r| == 3 ==> r[1].insn == "nop" && "cmp " <= r[0].insn && "br " <= r[2].insn)
  {
  }

  /** The macro keeps every character after the mnemonic: the compare's operands
    * followed by the branch's comma and label give back the rest of the line. */
  lemma ExpandKeepsOperands(line: string, lineNum: string)
    requires |ConvertLine(line, lineNum)| == 3
    ensures var t := NumUtil.Trim(line);
      var r := ConvertLine(line, lineNum);
      r[0].insn[4..] + r[2].insn[5..] == t[Q.FirstSpace(t)..]
    ensures var r := ConvertLine(line, lineNum);
      r[2].insn[3..5] == (if Mnemonic(NumUtil.Trim(line)) == "bne" then "ne" else "eq")
  {
    var t := NumUtil.Trim(line);
    var cond := if Mnemonic(t) == "bne" then "ne" else "eq";
    assert ConvertLine(line, lineNum) == Expand(t, cond, lineNum);
    ExpandOperands(t, cond, lineNum);
  }

  lemma ExpandOperands(t: string, cond: string, lineNum: string)
    requires |cond| == 2
    ensures var r := Expand(t, cond, lineNum);
      r[0].insn[4..] + r[2].insn[5..] == t[Q.FirstSpace(t)..] && r[2].insn[3..5] == cond
  {
    var content := t[Q.FirstSpace(t)..];
    var end := LastIndexOf(content, ',');
    var r := Expand(t, cond, lineNum);
    assert r[0].insn[4..] == content[..end];
    assert r[2].insn[5..] == content[end..];
    assert content[..end] + content[end..] == content;
  }

  /** The macro of a well-formed line: `bne r1, r2, loop` compares `r1, r2` and then
    * branches on "not equal" to `loop`. */
  lemma ConvertLineExample(t: string)
    requires t == "bne r1, r2, loop"
    ensures ConvertLine(t, "3") ==
      [AsmEntry("cmp  r1, r2", "3", t), AsmEntry("nop", "3", t), AsmEntry("br ne, loop", "3", t)]
  {
    LoopFacts(t);
    ExpandShape(t, "ne", "3", 3, 7, " r1, r2", ", loop");
  }

  /** The line `bne r1, r2, loop` is its own trim, has the mnemonic `bne`, and its last
    * comma lies 7 characters after its first blank. */
  lemma LoopFacts(t: string)
    requires t == "bne r1, r2, loop"
    ensures NumUtil.Trim(t) == t && Q.FirstSpace(t) == 3 && Mnemonic(t) == "bne"
    ensures LastIndexOf(t[3..], ',') == 7
    ensures t[3..][..7] == " r1, r2" && t[3..][7..] == ", loop"
    ensures "cmp " + " r1, r2" == "cmp  r1, r2" && "br " + "ne" + ", loop" == "br ne, loop"
  {
    NumUtil.TrimKeepsTrimmed(t);
    LoopSplitPoints(t);
    LoopMnemonic(t);
    LoopPieces(t);
  }

  lemma LoopSplitPoints(t: string)
    requires t == "bne r1, r2, loop"
    ensures Q.FirstSpace(t) == 3 && LastIndexOf(t[3..], ',') == 7
  {
    assert t[0] != ' ' && t[1] != ' ' && t[2] != ' ' && t[3] == ' ';
    assert t[10] == ',' && forall k :: 10 < k < |t| ==> t[k] != ',';
    LastIndexOfAt(t[3..], ',', 7);
  }

  lemma LoopMnemonic(t: string)
    requires t == "bne r1, r2, loop" && Q.FirstSpace(t) == 3
    ensures Mnemonic(t) == "bne"
  {
    LowerCaseUnchanged(t[..3]);
  }

  lemma LoopPieces(t: string)
    requires t == "bne r1, r2, loop"
    ensures t[3..][..7] == " r1, r2" && t[3..][7..] == ", loop"
    ensures "cmp " + " r1, r2" == "cmp  r1, r2" && "br " + "ne" + ", loop" == "br ne, loop"
  {
  }

  // ------------------------------------------------------------------ assembly program

  /** The entries loaded so far and the label map. */
  datatype AsmImage = AsmImage(entries: seq<AsmEntry>, labels: map<string, nat>)

  /** A line with a delimiter splits into at least one piece. */
  lemma {:induction false} PiecesAtLeastTwo(s: string, d: char)
    requires d in s
    ensures |NumUtil.Pieces(s, d)| >= 2
  {
    var init := s[..|s| - 1];
    if s[|s| - 1] != d {
      assert d in init;
      PiecesAtLeastTwo(init, d);
    }
  }

  /** The label a line defines, once its comment is stripped: the trimmed text before
    * its first colon. */
  function LineLabel(raw: string): Option<string>
  {
    var insn := NumUtil.TrimComments(raw);
    if ':' in insn then
      PiecesAtLeastTwo(insn, ':');
      Some(NumUtil.Trim(NumUtil.SplitSpec(insn, ':')[0]))
    else None
  }

  /** The entries one line of `init_mem_asm` appends, after its comment is stripped:
    * on a `label:` line the instruction part, when it is the only other part and has
    * an alphanumeric character, is converted; a line without a colon is converted when
    * it has an alphanumeric character. */
  function LineEntries(raw: string, lineNum: nat): seq<AsmEntry>
  {
    var insn := NumUtil.TrimComments(raw);
    var num := Text.NatToString(lineNum);
    if ':' in insn then
      PiecesAtLeastTwo(insn, ':');
      var parts := NumUtil.SplitSpec(insn, ':');
      if |parts| == 2 && HasAlnum(parts[1]) then ConvertLineAsWritten(parts[1], num) else []
    else if HasAlnum(insn) then ConvertLineAsWritten(insn, num)
    else []
  }

  /** The labels after a line that may define `name` when `count` entries precede it:
    * an unknown label is recorded at `count`, a known one keeps its first address
    * (`map::insert` does not overwrite). */
  function AddLabel(labels: map<string, nat>, name: Option<string>, count: nat): map<string, nat>
  {
    if name.Some? && name.value !in labels then labels[name.value := count] else labels
  }

  /** What one line of `init_mem_asm` contributes: the label it defines, if any, and
    * the entries it appends. */
  datatype LineParts = LineParts(name: Option<string>, entries: seq<AsmEntry>)

  function ParseLine(raw: string, lineNum: nat): LineParts
  {
    LineParts(LineLabel(raw), LineEntries(raw, lineNum))
  }

  /** The parts of every line of a file, the lines numbered from 1. */
  function ParseLines(lines: seq<string>): (r: seq<LineParts>)
    ensures |r| == |lines| && forall i :: 0 <= i < |lines| ==> r[i] == ParseLine(lines[i], i + 1)
  {
    seq(|lines|, i requires 0 <= i < |lines| => ParseLine(lines[i], i + 1))
  }

  /** One line of `init_mem_asm`: its label, if any, is recorded and its entries are
    * appended. */
  function LineStep(img: AsmImage, p: LineParts): AsmImage
  {
    AsmImage(img.entries + p.entries, AddLabel(img.labels, p.name, |img.entries|))
  }

  /** The image after the given line parts, starting from an empty cache and the labels
    * already known. */
  function Load(parts: seq<LineParts>, labels0: map<string, nat>): AsmImage
  {
    if parts == [] then AsmImage([], labels0)
    else LineStep(Load(parts[..|parts| - 1], labels0), parts[|parts| - 1])
  }

  /** The image after the lines of a file. */
  function LoadAsm(lines: seq<string>, labels0: map<string, nat>): AsmImage
  {
    Load(ParseLines(lines), labels0)
  }

  /** The `stop` appended after the program, numbered as the line after the last. */
  function StopEntry(numLines: nat): AsmEntry
  {
    AsmEntry("stop", Text.NatToString(numLines + 1), "stop")
  }

  /** Loading one more line is one more step. */
  lemma LoadAsmStep(lines: seq<string>, i: nat, labels0: map<string, nat>)
    requires i < |lines|
    ensures LoadAsm(lines[..i + 1], labels0) == LineStep(LoadAsm(lines[..i], labels0), ParseLine(lines[i], i + 1))
  {
    var ps := ParseLines(lines[..i + 1]);
    assert ps[..i] == ParseLines(lines[..i]);
  }

  /** The parts of a prefix of the lines are a prefix of the parts. */
  lemma ParseLinesPrefix(lines: seq<string>, k: nat)
    requires k <= |lines|
    ensures ParseLines(lines[..k]) == ParseLines(lines)[..k]
  {
  }

  /** `AddLabel` keeps every known label and adds at most the one it is given. */
  lemma AddLabelFacts(labels: map<string, nat>, name: Option<string>, count: nat)
    ensures forall l :: l in labels ==> l in AddLabel(labels, name, count) && AddLabel(labels, name, count)[l] == labels[l]
    ensures forall l :: l in AddLabel(labels, name, count) && l !in labels ==> name == Some(l) && AddLabel(labels, name, count)[l] == count
    ensures name.Some? ==> name.value in AddLabel(labels, name, count)
  {
  }

  /** Every label the program defines names an entry of the loaded cache: the first
    * instruction emitted at or after its line, or the appended `stop`; the labels
    * already known keep their addresses. */
  lemma LabelsWithinProgram(lines: seq<string>, labels0: map<string, nat>)
    ensures var img := LoadAsm(lines, labels0);
      forall l :: l in img.labels && l !in labels0 ==> img.labels[l] <= |img.entries|
    ensures forall l :: l in labels0 ==> l in LoadAsm(lines, labels0).labels && LoadAsm(lines, labels0).labels[l] == labels0[l]
  {
    LoadLabelsWithin(ParseLines(lines), labels0);
  }

  lemma {:induction false} LoadLabelsWithin(parts: seq<LineParts>, labels0: map<string, nat>)
    ensures var img := Load(parts, labels0);
      forall l :: l in img.labels && l !in labels0 ==> img.labels[l] <= |img.entries|
    ensures forall l :: l in labels0 ==> l in Load(parts, labels0).labels && Load(parts, labels0).labels[l] == labels0[l]
  {
    if parts != [] {
      var prev := Load(parts[..|parts| - 1], labels0);
      LoadLabelsWithin(parts[..|parts| - 1], labels0);
      AddLabelFacts(prev.labels, parts[|parts| - 1].name, |prev.entries|);
    }
  }

  /** A label the program adds is defined by a line, no earlier line defines it, and it
    * maps to the number of entries the lines before that one emitted. */
  lemma LabelDefinedAt(lines: seq<string>, labels0: map<string, nat>, l: string) returns (i: nat)
    requires l in LoadAsm(lines, labels0).labels && l !in labels0
    ensures i < |lines| && LineLabel(lines[i]) == Some(l)
    ensures forall j :: 0 <= j < i ==> LineLabel(lines[j]) != Some(l)
    ensures LoadAsm(lines, labels0).labels[l] == |LoadAsm(lines[..i], labels0).entries|
  {
    var ps := ParseLines(lines);
    i := PartDefinesLabel(ps, labels0, l);
    ParseLinesPrefix(lines, i);
    assert forall j :: 0 <= j < |lines| ==> ps[j].name == LineLabel(lines[j]);
  }

  lemma {:induction false} PartDefinesLabel(parts: seq<LineParts>, labels0: map<string, nat>, l: string) returns (i: nat)
    requires l in Load(parts, labels0).labels && l !in labels0
    ensures i < |parts| && parts[i].name == Some(l)
    ensures forall j :: 0 <= j < i ==> parts[j].name != Some(l)
    ensures Load(parts, labels0).labels[l] == |Load(parts[..i], labels0).entries|
  {
    var n := |parts|;
    var init := parts[..n - 1];
    var prev := Load(init, labels0);
    AddLabelFacts(prev.labels, parts[n - 1].name, |prev.entries|);
    if l in prev.labels {
      i := PartDefinesLabel(init, labels0, l);
      assert init[..i] == parts[..i];
      assert forall j :: 0 <= j <= i ==> init[j] == parts[j];
    } else {
      i := n - 1;
      NoPartDefines(init, labels0, l);
      assert forall j :: 0 <= j < i ==> init[j] == parts[j];
    }
  }

  /** A label missing from the map is defined by none of the loaded parts. */
  lemma NoPartDefines(parts: seq<LineParts>, labels0: map<string, nat>, l: string)
    requires l !in Load(parts, labels0).labels
    ensures forall j :: 0 <= j < |parts| ==> parts[j].name != Some(l)
  {
    forall j | 0 <= j < |parts|
      ensures parts[j].name != Some(l)
    {
      if parts[j].name == Some(l) {
        PartLabelLoaded(parts, labels0, j);
      }
    }
  }

  /** Every line's label is in the map once the program is loaded. */
  lemma LabelOfEarlierLine(lines: seq<string>, labels0: map<string, nat>, j: nat)
    requires j < |lines| && LineLabel(lines[j]).Some?
    ensures LineLabel(lines[j]).value in LoadAsm(lines, labels0).labels
  {
    PartLabelLoaded(ParseLines(lines), labels0, j);
  }

  lemma {:induction false} PartLabelLoaded(parts: seq<LineParts>, labels0: map<string, nat>, j: nat)
    requires j < |parts| && parts[j].name.Some?
    ensures parts[j].name.value in Load(parts, labels0).labels
  {
    var n := |parts|;
    var init := parts[..n - 1];
    var prev := Load(init, labels0);
    AddLabelFacts(prev.labels, parts[n - 1].name, |prev.entries|);
    if j < n - 1 {
      assert init[j] == parts[j];
      PartLabelLoaded(init, labels0, j);
    }
  }

  // ------------------------------------------------------------------ binary program

  /** The byte at `n`, zero past the end of the file. */
  function ByteAt(bytes: seq<Byte>, n: nat): Byte
  {
    if n < |bytes| then bytes[n] else 0
  }

  /** Instruction word `k` of a binary file: four bytes, least significant first. */
  function WordAt(bytes: seq<Byte>, k: nat): Uint32
  {
    ByteAt(bytes, 4 * k) + ByteAt(bytes, 4 * k + 1) * 0x100 + ByteAt(bytes, 4 * k + 2) * 0x1_0000
      + ByteAt(bytes, 4 * k + 3) * 0x100_0000
  }

  /** The four bytes of a word, least significant first. */
  function WordBytes(w: Uint32): seq<Byte>
  {
    [w % 0x100, w / 0x100 % 0x100, w / 0x100 / 0x100 % 0x100, w / 0x100 / 0x100 / 0x100]
  }

  /** Division by 256 has a unique quotient and remainder. */
  lemma Split256(x: int, q: int, r: int)
    requires x == 0x100 * q + r && 0 <= r < 0x100
    ensures x / 0x100 == q && x % 0x100 == r
  {
  }

  /** Assembling a word's bytes gives the word back. */
  lemma WordOfWordBytes(w: Uint32)
    ensures WordAt(WordBytes(w), 0) == w
  {
    var q1 := w / 0x100;
    var q2 := q1 / 0x100;
    assert w == w % 0x100 + 0x100 * q1;
    assert q1 == q1 % 0x100 + 0x100 * q2;
    assert q2 == q2 % 0x100 + 0x100 * (q2 / 0x100);
  }

  /** Splitting an assembled word gives its four bytes back. */
  lemma WordBytesOfWord(b: seq<Byte>)
    requires |b| == 4
    ensures WordBytes(WordAt(b, 0)) == b
  {
    var x := WordAt(b, 0);
    var b0, b1, b2, b3 := b[0] as int, b[1] as int, b[2] as int, b[3] as int;
    var q1 := b1 + 0x100 * b2 + 0x1_0000 * b3;
    var q2 := b2 + 0x100 * b3;
    assert x == 0x100 * q1 + b0;
    Split256(x, q1, b0);
    Split256(q1, q2, b1);
    Split256(q2, b3, b2);
    Split256(b3, 0, b3);
  }

  /** The number of words the copy loop writes: one per started group of four bytes. */
  function WordsWritten(length: nat): nat
  {
    (length + 3) / 4
  }

  /** The size check as written: `length / 4 > CACHE_SIZE` aborts. */
  predicate BinSizeAcceptedAsWritten(length: nat)
  {
    !(length / 4 > CacheSize)
  }

  /** A file of `4 * CACHE_SIZE + 1` bytes passes the check, yet the copy loop writes
    * word index `CACHE_SIZE`, one past the end of the cache. */
  lemma BinSizeCheckMissesPartialWord()
    ensures BinSizeAcceptedAsWritten(4 * CacheSize + 1)
    ensures WordsWritten(4 * CacheSize + 1) - 1 == CacheSize
  {
  }

  /** The size check counting a trailing partial word. */
  predicate BinSizeAccepted(length: nat)
  {
    WordsWritten(length) <= CacheSize
  }

  /** With the corrected check every word the copy loop writes lies inside the cache,
    * and it accepts exactly the files the check as written accepts whose length is a
    * multiple of four. */
  lemma BinSizeAcceptedFits(length: nat)
    ensures BinSizeAccepted(length) ==> forall i :: 0 <= i < length && i % 4 == 0 ==> i / 4 < CacheSize
    ensures length % 4 == 0 ==> (BinSizeAccepted(length) <==> BinSizeAcceptedAsWritten(length))
  {
  }

  /** The cache contents a binary file yields: its words, then zeros. */
  function BinImage(bytes: seq<Byte>): (r: seq<Uint32>)
    ensures |r| == CacheSize
  {
    seq(CacheSize, k requires 0 <= k => if 4 * k < |bytes| then WordAt(bytes, k) else 0)
  }

  // ------------------------------------------------------------------ fetch addresses

  /** The values `combinational_gen` drives: the fetch address and branch flag, and the
    * next sequential address and branch flag. */
  datatype Comb = Comb(pc: Pc, branch: bool, pcb: Pc, branchb: bool)

  /** `combinational_gen`: a branch the processor starts while ready fetches the target
    * and reports a branch; otherwise the registered sequential address and flag are
    * used. The next sequential address is one past the registered one when the last
    * transfer was accepted, with the flag cleared. */
  function CombinationalGen(branching: bool, ready: bool, target: Pc, pcc: Pc, branchc: bool,
                            readya: bool, pca: Pc, brancha: bool): Comb
  {
    var pc := if branching && ready then target else pcc;
    var branch := if branching && ready then true else branchc;
    var pcb := if readya then (pca + 1) % PcModulus else pca;
    var branchb := if readya then false else brancha;
    Comb(pc, branch, pcb, branchb)
  }

  /** With `register_right` passing the fetch address, flag and ready straight back
    * (`G_PC_REGISTER` is 1), a ready cycle fetches the target on a branch and the
    * sequential address otherwise, and the next sequential address is one past the
    * address fetched; a stalled cycle fetches and keeps the same address. */
  lemma FetchAddressLoop(branching: bool, ready: bool, target: Pc, pcc: Pc, branchc: bool)
    ensures var c := CombinationalGen(branching, ready, target, pcc, branchc, ready, 0, false);
      var d := CombinationalGen(branching, ready, target, pcc, branchc, ready, c.pc, c.branch);
      d.pc == c.pc && d.branch == c.branch
      && (ready ==> d.pcb == (c.pc + 1) % PcModulus && !d.branchb)
      && (!ready ==> d.pcb == pcc && d.branchb == branchc)
      && (branching && ready ==> c.pc == target && c.branch)
      && (!(branching && ready) ==> c.pc == pcc && c.branch == branchc)
  {
  }

  /** What a fetch reads: a binary word or an assembly entry, with its address. */
  datatype Fetched = NoInsn | BinWord(word: Uint32, addr: Pc) | AsmText(entry: AsmEntry, addr: Pc)

  /** The assembly entry `read_insn` reads: the one at `pc`, or the last (the appended
    * `stop`) when `pc` is past the end. */
  function AsmEntryAt(entries: seq<AsmEntry>, pc: Pc): (r: AsmEntry)
    requires |entries| > 0
    ensures pc < |entries| ==> r == entries[pc]
    ensures pc >= |entries| ==> r == entries[|entries| - 1]
  {
    if pc >= |entries| then entries[|entries| - 1] else entries[pc]
  }

  /** `Icache_rtl`: the loaded program, the label map, the fetch-address registers and
    * the read pipeline. */
  class Icache {
    var cacheMemAsm: seq<AsmEntry>
    var mapLabel: map<string, nat>
    var cacheMemBin: seq<Uint32>
    var programLength: nat
    var isBin: bool
    var pcc: Pc
    var branchc: bool
    var branchRegB: bool
    var insnRegB: Fetched
    var insnRegC: Fetched

    constructor (isBin: bool)
      ensures this.isBin == isBin && cacheMemAsm == [] && mapLabel == map[] && cacheMemBin == []
      ensures programLength == 0 && pcc == 0 && !branchc && !branchRegB
      ensures insnRegB == NoInsn && insnRegC == NoInsn
    {
      this.isBin := isBin;
      cacheMemAsm, mapLabel, cacheMemBin, programLength := [], map[], [], 0;
      pcc, branchc, branchRegB, insnRegB, insnRegC := 0, false, false, NoInsn, NoInsn;
    }

    /** `init_mem_asm` over the lines of the file: the cache is rebuilt line by line and
      * a `stop` is appended; labels are added to the map already held. */
    method InitMemAsm(lines: seq<string>)
      modifies this
      ensures var img := LoadAsm(lines, old(mapLabel));
        cacheMemAsm == img.entries + [StopEntry(|lines|)] && mapLabel == img.labels
      ensures cacheMemBin == old(cacheMemBin) && programLength == old(programLength)
      ensures isBin == old(isBin) && pcc == old(pcc) && branchc == old(branchc)
      ensures branchRegB == old(branchRegB) && insnRegB == old(insnRegB) && insnRegC == old(insnRegC)
    {
      var labels0 := mapLabel;
      cacheMemAsm := [];
      var count := 0;
      var i := 0;
      while i < |lines|
        invariant 0 <= i <= |lines|
        invariant AsmImage(cacheMemAsm, mapLabel) == LoadAsm(lines[..i], labels0)
        invariant count == |cacheMemAsm|
        invariant cacheMemBin == old(cacheMemBin) && programLength == old(programLength)
        invariant isBin == old(isBin) && pcc == old(pcc) && branchc == old(branchc)
        invariant branchRegB == old(branchRegB) && insnRegB == old(insnRegB) && insnRegC == old(insnRegC)
      {
        LoadAsmStep(lines, i, labels0);
        AsmLine(lines[i], i + 1, count);
        count := |cacheMemAsm|;
        i := i + 1;
      }
      assert lines[..|lines|] == lines;
      cacheMemAsm := cacheMemAsm + [StopEntry(|lines|)];
    }

    /** The body of the `init_mem_asm` loop for one line. */
    method AsmLine(raw: string, lineNum: nat, count: nat)
      requires count == |cacheMemAsm|
      modifies this
      ensures AsmImage(cacheMemAsm, mapLabel) == LineStep(AsmImage(old(cacheMemAsm), old(mapLabel)), ParseLine(raw, lineNum))
      ensures cacheMemBin == old(cacheMemBin) && programLength == old(programLength)
      ensures isBin == old(isBin) && pcc == old(pcc) && branchc == old(branchc)
      ensures branchRegB == old(branchRegB) && insnRegB == old(insnRegB) && insnRegC == old(insnRegC)
    {
      var labels := LabelOfLine(mapLabel, raw, count);
      var entries := EntriesOfLine(raw, lineNum);
      cacheMemAsm, mapLabel := cacheMemAsm + entries, labels;
    }

    /** The label map after one line: a `label:` line inserts its trimmed label at the
      * current count unless the label is known. */
    static method LabelOfLine(labels0: map<string, nat>, raw: string, count: nat) returns (labels: map<string, nat>)
      ensures labels == AddLabel(labels0, LineLabel(raw), count)
    {
      labels := labels0;
      var insn := NumUtil.TrimComments(raw);
      if ':' in insn {
        PiecesAtLeastTwo(insn, ':');
        var parts := NumUtil.Split(insn, ':');
        var name := NumUtil.Trim(parts[0]);
        if name !in labels {
          labels := labels[name := count];
        }
      }
    }

    /** The entries one line appends: the instruction after a label when it is the only
      * other part, or the whole line when it has no colon, if it has an alphanumeric
      * character. */
    static method EntriesOfLine(raw: string, lineNum: nat) returns (entries: seq<AsmEntry>)
      ensures entries == LineEntries(raw, lineNum)
    {
      entries := [];
      var insn := NumUtil.TrimComments(raw);
      var num := Text.NatToString(lineNum);
      if ':' in insn {
        PiecesAtLeastTwo(insn, ':');
        var parts := NumUtil.Split(insn, ':');
        if |parts| == 2 && HasAlnum(parts[1]) {
          entries := ConvertLineAsWritten(parts[1], num);
        }
      } else if HasAlnum(insn) {
        entries := ConvertLineAsWritten(insn, num);
      }
    }

    /** The copy loop of `init_mem_bin`: a cleared cache with word `k` of the file at
      * address `k`. */
    static method LoadWords(bytes: seq<Byte>) returns (mem: seq<Uint32>)
      requires BinSizeAccepted(|bytes|)
      ensures mem == BinImage(bytes)
    {
      mem := seq(CacheSize, _ => 0);
      var i := 0;
      while i < |bytes|
        invariant 0 <= i && i % 4 == 0 && i <= |bytes| + 3 && |mem| == CacheSize
        invariant forall k :: 0 <= k < CacheSize ==> mem[k] == if 4 * k < i then WordAt(bytes, k) else 0
      {
        mem := mem[i / 4 := WordAt(bytes, i / 4)];
        i := i + 4;
      }
      assert forall k :: 0 <= k < CacheSize ==> (4 * k < i <==> 4 * k < |bytes|);
    }

    /** `init_mem_bin` over the bytes of the file: a program whose whole words exceed
      * the cache aborts (the check as written); a file whose trailing partial word
      * would be copied to index `CACHE_SIZE` passes that check and then writes past the
      * end of the cache, which is undefined and modelled as an abort; otherwise the
      * cache is cleared to `CACHE_SIZE` zero words and the file's words are copied in. */
    method InitMemBin(bytes: seq<Byte>) returns (r: Result<(), string>)
      modifies this
      ensures r == Failure("program too large") <==> !BinSizeAcceptedAsWritten(|bytes|)
      ensures r == Failure("write past the cache") <==> BinSizeAcceptedAsWritten(|bytes|) && !BinSizeAccepted(|bytes|)
      ensures r.Success? <==> BinSizeAccepted(|bytes|)
      ensures r.Success? ==> cacheMemBin == BinImage(bytes) && programLength == |bytes| / 4
      ensures r.Failure? ==> cacheMemBin == old(cacheMemBin) && programLength == old(programLength)
      ensures cacheMemAsm == old(cacheMemAsm) && mapLabel == old(mapLabel)
      ensures isBin == old(isBin) && pcc == old(pcc) && branchc == old(branchc)
      ensures branchRegB == old(branchRegB) && insnRegB == old(insnRegB) && insnRegC == old(insnRegC)
    {
      if !BinSizeAcceptedAsWritten(|bytes|) {
        return Failure("program too large");
      }
      if !BinSizeAccepted(|bytes|) {
        return Failure("write past the cache");
      }
      var mem := LoadWords(bytes);
      cacheMemBin, programLength := mem, |bytes| / 4;
      r := Success(());
    }

    /** One clock of the fetch side: the combinational values of the cycle, then the
      * registers `register_right_logic`, `memory_out_reg` and `read_insn` update
      * (`G_PC_REGISTER` is 1, `G_MEM_OUT_REG` is 1). A ready cycle reads the
      * instruction at the fetch address into the first output register and moves the
      * first into the second; reset clears the branch flags. */
    method Clock(reset: bool, ready: bool, branching: bool, target: Pc)
      requires isBin ==> |cacheMemBin| == CacheSize
      requires !isBin ==> |cacheMemAsm| > 0
      modifies this
      ensures cacheMemAsm == old(cacheMemAsm) && mapLabel == old(mapLabel) && isBin == old(isBin)
      ensures cacheMemBin == old(cacheMemBin) && programLength == old(programLength)
      ensures var c := CombinationalGen(branching, ready, target, old(pcc), old(branchc), ready, 0, false);
        var d := CombinationalGen(branching, ready, target, old(pcc), old(branchc), ready, c.pc, c.branch);
        pcc == d.pcb && branchc == (!reset && d.branchb)
        && branchRegB == (!reset && (if ready then c.branch else old(branchRegB)))
        && insnRegB == (if ready then Fetch(c.pc) else old(insnRegB))
        && insnRegC == (if ready then old(insnRegB) else old(insnRegC))
    {
      var pc := if branching && ready then target else pcc;
      var branch := if branching && ready then true else branchc;
      var pcb := if ready then (pc + 1) % PcModulus else pc;
      var branchb := if ready then false else branch;
      pcc := pcb;
      branchc := if reset then false else branchb;
      if ready {
        branchRegB := branch;
        insnRegC := insnRegB;
        insnRegB := Fetch(pc);
      }
      if reset {
        branchRegB := false;
      }
    }

    /** `read_insn`'s lookup: the binary word at the address (zero past the end of the
      * cache), or the assembly entry at the address (the last one past the end). */
    function Fetch(pc: Pc): (r: Fetched)
      reads `isBin, `cacheMemBin, `cacheMemAsm
      requires !isBin ==> |cacheMemAsm| > 0
      ensures isBin && pc < |cacheMemBin| ==> r == BinWord(cacheMemBin[pc], pc)
      ensures !isBin ==> r == AsmText(AsmEntryAt(cacheMemAsm, pc), pc)
    {
      if isBin then BinWord(if pc < |cacheMemBin| then cacheMemBin[pc] else 0, pc)
      else AsmText(AsmEntryAt(cacheMemAsm, pc), pc)
    }
  }

  /** After loading, an assembly fetch at any address reads a program entry, and every
    * address at or past the program's end reads the appended `stop`. */
  lemma FetchPastEndIsStop(lines: seq<string>, labels0: map<string, nat>, pc: Pc)
    ensures var entries := LoadAsm(lines, labels0).entries + [StopEntry(|lines|)];
      pc >= |entries| - 1 ==> AsmEntryAt(entries, pc).insn == "stop"
  {
  }
}
