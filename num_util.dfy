/** String and number helpers of src/0_core/num_util.cpp. */
module NumUtil {
  import opened Wrappers
  import Text

  /** Every helper that gives up calls `exit(EXIT_FAILURE)`. */
  datatype Abort = EmptyString | NotHex

  // ------------------------------------------------------------------ trim

  predicate Blank(c: char) { c == ' ' || c == '\t' }

  /** `find_first_not_of(" \t")`, with `|s|` standing for npos. */
  function FirstNonBlank(s: string): (i: nat)
    ensures i <= |s| && (forall k :: 0 <= k < i ==> Blank(s[k])) && (i < |s| ==> !Blank(s[i]))
  {
    if s == [] || !Blank(s[0]) then 0 else 1 + FirstNonBlank(s[1..])
  }

  /** One past `find_last_not_of(" \t")`; 0 when every character is blank. */
  function EndNonBlank(s: string): (j: nat)
    ensures j <= |s| && (forall k :: j <= k < |s| ==> Blank(s[k])) && (j > 0 ==> !Blank(s[j - 1]))
  {
    if s == [] || !Blank(s[|s| - 1]) then |s| else EndNonBlank(s[..|s| - 1])
  }

  /** `trim(s)`: drops every leading and trailing space or tab. */
  function Trim(s: string): (r: string)
    ensures |r| <= |s|
    ensures var i := FirstNonBlank(s);
      i + |r| <= |s| && r == s[i..i + |r|] && (forall k :: i + |r| <= k < |s| ==> Blank(s[k]))
    ensures r != [] ==> !Blank(r[0]) && !Blank(r[|r| - 1])
  {
    var i := FirstNonBlank(s);
    var j := EndNonBlank(s[i..]);
    TrimWindowTail(s, i, j);
    TrimWindowEnds(s, i, j);
    s[i..][..j]
  }

  lemma TrimWindowTail(s: string, i: nat, j: nat)
    requires i <= |s| && j == EndNonBlank(s[i..])
    ensures i + j <= |s| && s[i..][..j] == s[i..i + j] && forall k :: i + j <= k < |s| ==> Blank(s[k])
  {
    var t := s[i..];
    forall k | i + j <= k < |s|
      ensures Blank(s[k])
    {
      assert s[k] == t[k - i];
    }
  }

  lemma TrimWindowEnds(s: string, i: nat, j: nat)
    requires i == FirstNonBlank(s) && j == EndNonBlank(s[i..])
    ensures j > 0 ==> !Blank(s[i..][..j][0]) && !Blank(s[i..][..j][j - 1])
  {
  }

  /** Trimming twice is trimming once. */
  lemma TrimIdempotent(s: string)
    ensures Trim(Trim(s)) == Trim(s)
  {
    var r := Trim(s);
    if r != [] {
      assert FirstNonBlank(r) == 0;
      assert EndNonBlank(r) == |r|;
      assert r[0..][..|r|] == r;
    }
  }

  /** A string that neither starts nor ends with a blank is its own trim. */
  lemma TrimKeepsTrimmed(s: string)
    requires s != [] ==> !Blank(s[0]) && !Blank(s[|s| - 1])
    ensures Trim(s) == s
  {
    if s != [] {
      assert FirstNonBlank(s) == 0 && EndNonBlank(s) == |s|;
      assert s[0..][..|s|] == s;
    }
  }

  // ------------------------------------------------------------------ trim_comments

  /** Index of the first `c`, or `|s|` when there is none. */
  function IndexOf(s: string, c: char): (i: nat)
    ensures i <= |s| && (forall k :: 0 <= k < i ==> s[k] != c) && (i < |s| ==> s[i] == c)
  {
    if s == [] then 0 else if s[0] == c then 0 else 1 + IndexOf(s[1..], c)
  }

  /** `trim_comments(s)`: erases from the first `#` onward. */
  function TrimComments(s: string): (r: string)
    ensures '#' !in r
    ensures |r| <= |s| && r == s[..|r|]
    ensures r == s || s[|r|] == '#'
    ensures '#' !in s ==> r == s
  {
    s[..IndexOf(s, '#')]
  }

  // ------------------------------------------------------------------ decimal conversions

  predicate Space(c: char) { c == ' ' || c == '\t' || c == '\n' || c == '\r' || c == 11 as char || c == 12 as char }

  function SkipSpace(s: string): (i: nat)
    ensures i <= |s|
  {
    if s == [] || !Space(s[0]) then 0 else 1 + SkipSpace(s[1..])
  }

  /** Length of the run of decimal digits `s` starts with. */
  function DigitRun(s: string): (n: nat)
    ensures n <= |s| && (forall k :: 0 <= k < n ==> Text.IsDigit(s[k])) && (n < |s| ==> !Text.IsDigit(s[n]))
  {
    if s == [] || !Text.IsDigit(s[0]) then 0 else 1 + DigitRun(s[1..])
  }

  /** What `ss >> i` extracts: leading white space, an optional sign, then the digits.
    * The magnitude is 0 when no digit follows (the stream's failure value). */
  function Extracted(s: string): (r: (bool, nat))
  {
    var t := s[SkipSpace(s)..];
    var neg := t != [] && t[0] == '-';
    var u := if t != [] && (t[0] == '-' || t[0] == '+') then t[1..] else t;
    (neg, Text.DigitsValue(u[..DigitRun(u)]))
  }

  const IntMin := -0x8000_0000
  const IntMax := 0x7FFF_FFFF

  /** `str_to_int(s)`: an out-of-range value saturates at the int limits. */
  function StrToInt(s: string): (r: Result<int, Abort>)
    ensures s == [] <==> r.Failure?
    ensures r.Success? ==> IntMin <= r.value <= IntMax
  {
    if s == [] then Failure(EmptyString)
    else
      var (neg, m) := Extracted(s);
      var v: int := if neg then -(m as int) else m;
      Success(if v < IntMin then IntMin else if v > IntMax then IntMax else v)
  }

  /** `str_to_uint(s)`: a negative value wraps modulo 2^32, a too large one saturates. */
  function StrToUint(s: string): (r: Result<nat, Abort>)
    ensures s == [] <==> r.Failure?
    ensures r.Success? ==> r.value < 0x1_0000_0000
  {
    if s == [] then Failure(EmptyString)
    else
      var (neg, m) := Extracted(s);
      if m > 0xFFFF_FFFF then Success(0xFFFF_FFFF)
      else Success(if neg then (0x1_0000_0000 - m) % 0x1_0000_0000 else m)
  }

  /** `str_to_sizet(s)`: as `str_to_uint` with 64-bit limits. */
  function StrToSizet(s: string): (r: Result<nat, Abort>)
    ensures s == [] <==> r.Failure?
    ensures r.Success? ==> r.value < 0x1_0000_0000_0000_0000
  {
    if s == [] then Failure(EmptyString)
    else
      var (neg, m) := Extracted(s);
      if m > 0xFFFF_FFFF_FFFF_FFFF then Success(0xFFFF_FFFF_FFFF_FFFF)
      else Success(if neg then (0x1_0000_0000_0000_0000 - m) % 0x1_0000_0000_0000_0000 else m)
  }

  lemma DigitsExtracted(n: nat)
    ensures var t := Text.NatToString(n); SkipSpace(t) == 0 && DigitRun(t) == |t|
  {
    var t := Text.NatToString(n);
    assert !Space(t[0]);
  }

  /** The digits `std::to_string` prints for a natural number extract to that number. */
  lemma ExtractedOfDigits(m: nat)
    ensures Extracted(Text.NatToString(m)) == (false, m)
  {
    var t := Text.NatToString(m);
    DigitsExtracted(m);
    Text.NatToStringValue(m);
    assert t[0..] == t && t[..|t|] == t;
  }

  /** A minus sign before those digits extracts the same magnitude, negated. */
  lemma ExtractedOfNegDigits(m: nat)
    ensures Extracted("-" + Text.NatToString(m)) == (true, m)
  {
    var t := Text.NatToString(m);
    var s := "-" + t;
    DigitsExtracted(m);
    Text.NatToStringValue(m);
    assert SkipSpace(s) == 0;
    assert s[0..] == s && s[1..] == t && t[..|t|] == t;
  }

  /** The text `std::to_string` prints for an int extracts to its sign and magnitude. */
  lemma ExtractedOfIntString(i: int)
    ensures Extracted(Text.IntToString(i)) == (i < 0, if i < 0 then -i else i)
  {
    if i < 0 {
      ExtractedOfNegDigits(-i);
    } else {
      ExtractedOfDigits(i);
    }
  }

  /** `str_to_int` reads back every int that `std::to_string` prints. */
  lemma StrToIntRoundTrip(i: int)
    requires IntMin <= i <= IntMax
    ensures StrToInt(Text.IntToString(i)) == Success(i)
  {
    ExtractedOfIntString(i);
  }

  // ------------------------------------------------------------------ hexadecimal

  /** The digit value the conversion loop gives a character: `c-55` for `A`-`F`,
    * `c-87` for `a`-`f`, and `c-48` for everything else. */
  function HexDigit(c: char): int
  {
    if 'A' <= c <= 'F' then c as int - 55
    else if 'a' <= c <= 'f' then c as int - 87
    else c as int - 48
  }

  /** Positional value of a digit string, most significant first. */
  function HexValue(h: string): int
  {
    if h == [] then 0 else HexValue(h[..|h| - 1]) * 16 + HexDigit(h[|h| - 1])
  }

  function Pow16(k: nat): nat { if k == 0 then 1 else 16 * Pow16(k - 1) }

  /** Index just past the first `0x` (or, failing that, `0X`). */
  function HexStart(s: string): Option<nat>
  {
    var i := FindPair(s, '0', 'x');
    if i < |s| then Some(i + 2)
    else var j := FindPair(s, '0', 'X'); if j < |s| then Some(j + 2) else None
  }

  /** Index of the first `ab`, or `|s|`. */
  function FindPair(s: string, a: char, b: char): (i: nat)
    ensures i <= |s| && (i < |s| ==> i + 1 < |s| && s[i] == a && s[i + 1] == b)
  {
    if |s| < 2 then |s| else if s[0] == a && s[1] == b then 0 else 1 + FindPair(s[1..], a, b)
  }

  /** The digits after the prefix, read by a loop that adds `digit << 4*(n-1-i)`. */
  method HexDigitsSum(h: string) returns (result: int)
    ensures result == HexValue(h)
  {
    result := 0;
    var i := 0;
    while i < |h|
      invariant 0 <= i <= |h|
      invariant result == HexValue(h[..i]) * Pow16(|h| - i)
    {
      HexStep(h, i);
      result := result + HexDigit(h[i]) * Pow16(|h| - 1 - i);
      i := i + 1;
    }
    assert h[..|h|] == h;
  }

  /** One more digit: the prefix value shifts up one position. */
  lemma HexStep(h: string, i: nat)
    requires i < |h|
    ensures HexValue(h[..i + 1]) * Pow16(|h| - 1 - i) == HexValue(h[..i]) * Pow16(|h| - i) + HexDigit(h[i]) * Pow16(|h| - 1 - i)
  {
    assert h[..i + 1][..i] == h[..i];
    var v, d, p := HexValue(h[..i]), HexDigit(h[i]), Pow16(|h| - 1 - i);
    assert HexValue(h[..i + 1]) == v * 16 + d;
    assert Pow16(|h| - i) == 16 * p;
    ShiftDigit(v, d, p);
  }

  lemma ShiftDigit(v: int, d: int, p: int)
    ensures (v * 16 + d) * p == v * (16 * p) + d * p
  {
    calc {
      (v * 16 + d) * p;
      v * 16 * p + d * p;
      v * (16 * p) + d * p;
    }
  }

  /** `hexstr_to_uint(s)`: the digit sum in 32-bit unsigned arithmetic. */
  method HexstrToUint(s: string) returns (r: Result<nat, Abort>)
    ensures s == [] ==> r == Failure(EmptyString)
    ensures s != [] && HexStart(s).None? ==> r == Failure(NotHex)
    ensures s != [] && HexStart(s).Some? ==> r == Success(HexValue(s[HexStart(s).value..]) % 0x1_0000_0000)
  {
    if s == [] {
      return Failure(EmptyString);
    }
    var start := HexStart(s);
    if start.None? {
      return Failure(NotHex);
    }
    var sum := HexDigitsSum(s[start.value..]);
    r := Success(sum % 0x1_0000_0000);
  }

  /** Two's-complement reading of a value modulo 2^32. */
  function Int32(x: int): int
  {
    var u := x % 0x1_0000_0000;
    if u >= 0x8000_0000 then u - 0x1_0000_0000 else u
  }

  /** `hexstr_to_int(s)`: the digit sum, negated when the string holds a `-` anywhere. */
  method HexstrToInt(s: string) returns (r: Result<int, Abort>)
    ensures s == [] ==> r == Failure(EmptyString)
    ensures s != [] && HexStart(s).None? ==> r == Failure(NotHex)
    ensures s != [] && HexStart(s).Some? ==>
      r == Success(Int32(if '-' in s then -HexValue(s[HexStart(s).value..]) else HexValue(s[HexStart(s).value..])))
  {
    if s == [] {
      return Failure(EmptyString);
    }
    var sign := '-' in s;
    var start := HexStart(s);
    if start.None? {
      return Failure(NotHex);
    }
    var sum := HexDigitsSum(s[start.value..]);
    r := Success(Int32(if sign then 0 - sum else sum));
  }

  /** Hex text of a natural number, upper-case digits. */
  function NatToHex(n: nat): (h: string)
    decreases n
  {
    if n < 16 then [HexChar(n)] else NatToHex(n / 16) + [HexChar(n % 16)]
  }

  function HexChar(d: nat): char
    requires d < 16
  {
    if d < 10 then ('0' as int + d) as char else ('A' as int + d - 10) as char
  }

  /** The digit sum reads back every number printed in hex. */
  lemma {:induction false} HexRoundTrip(n: nat)
    ensures HexValue(NatToHex(n)) == n
    decreases n
  {
    var h := NatToHex(n);
    if n >= 16 {
      HexRoundTrip(n / 16);
      assert h[..|h| - 1] == NatToHex(n / 16);
    }
  }

  /** `hexstr_to_uint("0x" + hex)` is the number for every value that fits 32 bits. */
  lemma HexstrToUintOfHex(n: nat)
    requires n < 0x1_0000_0000
    ensures HexStart("0x" + NatToHex(n)) == Some(2)
    ensures ("0x" + NatToHex(n))[2..] == NatToHex(n)
    ensures HexValue(NatToHex(n)) % 0x1_0000_0000 == n
  {
    HexRoundTrip(n);
    assert FindPair("0x" + NatToHex(n), '0', 'x') == 0;
  }

  // ------------------------------------------------------------------ split

  /** The pieces of `s` between the occurrences of `d`, the last piece included. */
  function Pieces(s: string, d: char): (p: seq<string>)
    ensures |p| >= 1
  {
    if s == [] then [""]
    else
      var p := Pieces(s[..|s| - 1], d);
      if s[|s| - 1] == d then p + [""] else p[..|p| - 1] + [p[|p| - 1] + [s[|s| - 1]]]
  }

  /** What the `getline` loop yields: every piece except an empty final one. */
  function SplitSpec(s: string, d: char): seq<string>
  {
    var p := Pieces(s, d);
    if p[|p| - 1] == "" then p[..|p| - 1] else p
  }

  /** `split(s, d)`. */
  method Split(s: string, d: char) returns (tokens: seq<string>)
    ensures tokens == SplitSpec(s, d)
  {
    tokens := [];
    var token := "";
    var i := 0;
    while i < |s|
      invariant 0 <= i <= |s|
      invariant Pieces(s[..i], d) == tokens + [token]
    {
      assert s[..i + 1][..i] == s[..i];
      if s[i] == d {
        tokens := tokens + [token];
        token := "";
      } else {
        token := token + [s[i]];
      }
      i := i + 1;
    }
    assert s[..|s|] == s;
    if token != "" {
      tokens := tokens + [token];
    }
  }

  function JoinChar(parts: seq<string>, d: char): string
    requires |parts| >= 1
  {
    if |parts| == 1 then parts[0] else JoinChar(parts[..|parts| - 1], d) + [d] + parts[|parts| - 1]
  }

  /** The pieces joined with the delimiter give the input back. */
  lemma {:induction false} PiecesJoin(s: string, d: char)
    ensures JoinChar(Pieces(s, d), d) == s
  {
    if s != [] {
      var init := s[..|s| - 1];
      PiecesJoin(init, d);
      PiecesJoinStep(s, d);
      assert init + [s[|s| - 1]] == s;
    }
  }

  lemma PiecesJoinStep(s: string, d: char)
    requires s != []
    ensures JoinChar(Pieces(s, d), d) == JoinChar(Pieces(s[..|s| - 1], d), d) + [s[|s| - 1]]
  {
    var p := Pieces(s[..|s| - 1], d);
    if s[|s| - 1] == d {
      JoinCharSnoc(p, "", d);
    } else {
      JoinCharExtendLast(p, s[|s| - 1], d);
    }
  }

  lemma JoinCharSnoc(p: seq<string>, x: string, d: char)
    requires |p| >= 1
    ensures JoinChar(p + [x], d) == JoinChar(p, d) + [d] + x
  {
    assert (p + [x])[..|p|] == p;
  }

  lemma JoinCharExtendLast(p: seq<string>, c: char, d: char)
    requires |p| >= 1
    ensures JoinChar(p[..|p| - 1] + [p[|p| - 1] + [c]], d) == JoinChar(p, d) + [c]
  {
    var q := p[..|p| - 1] + [p[|p| - 1] + [c]];
    if |p| > 1 {
      assert q[..|q| - 1] == p[..|p| - 1];
      var j := JoinChar(p[..|p| - 1], d);
      assert j + [d] + (p[|p| - 1] + [c]) == (j + [d] + p[|p| - 1]) + [c];
    }
  }

  lemma {:induction false} PiecesNoDelimiter(s: string, d: char)
    ensures forall k, j :: 0 <= k < |Pieces(s, d)| && 0 <= j < |Pieces(s, d)[k]| ==> Pieces(s, d)[k][j] != d
  {
    if s != [] {
      PiecesNoDelimiter(s[..|s| - 1], d);
    }
  }

  /** `split` is undone by joining with the delimiter (plus the dropped trailing one),
    * and no token contains the delimiter. */
  lemma SplitJoin(s: string, d: char)
    ensures var t := SplitSpec(s, d);
      forall k, j :: 0 <= k < |t| && 0 <= j < |t[k]| ==> t[k][j] != d
    ensures var t := SplitSpec(s, d);
      if t == [] then s == [] || s == [d]
      else s == JoinChar(t, d) || s == JoinChar(t, d) + [d]
  {
    PiecesJoin(s, d);
    PiecesNoDelimiter(s, d);
    var p := Pieces(s, d);
    if p[|p| - 1] == "" && |p| > 1 {
      assert JoinChar(p, d) == JoinChar(p[..|p| - 1], d) + [d] + "";
    }
  }

  lemma SplitExamples()
    ensures SplitSpec("", ',') == []
    ensures SplitSpec("a,", ',') == ["a"]
    ensures SplitSpec("a,,b", ',') == ["a", "", "b"]
  {
    assert "a"[..0] == "";
    assert Pieces("", ',') == [""];
    assert "" + ['a'] == "a";
    assert Pieces("a", ',') == ["a"];
    assert "a,"[..1] == "a";
    assert Pieces("a,", ',') == ["a", ""];
    assert "a,,"[..2] == "a,";
    assert Pieces("a,,", ',') == ["a", "", ""];
    assert "a,,b"[..3] == "a,,";
    assert "" + ['b'] == "b";
    assert Pieces("a,,b", ',') == ["a", "", "b"];
  }

  // ------------------------------------------------------------------ digit runs

  /** The maximal runs of decimal digits of `s`, in order. */
  function DigitRuns(s: string): (runs: seq<string>)
    ensures forall k :: 0 <= k < |runs| ==> runs[k] != []
    decreases |s|
  {
    if s == [] then []
    else if Text.IsDigit(s[0]) then
      var n := DigitRun(s);
      [s[..n]] + DigitRuns(s[n..])
    else DigitRuns(s[1..])
  }

  lemma JoinSnoc(runs: seq<string>, x: string, sep: string)
    requires runs != []
    ensures Text.Join(runs + [x], sep) == Text.Join(runs, sep) + sep + x
  {
    if |runs| == 1 {
      assert (runs + [x])[1..] == [x];
    } else {
      assert (runs + [x])[1..] == runs[1..] + [x];
      JoinSnoc(runs[1..], x, sep);
    }
  }

  lemma JoinNonEmpty(runs: seq<string>, sep: string)
    requires runs != [] && runs[0] != []
    ensures Text.Join(runs, sep) != []
  {
  }

  /** `extract_integer_words(s)`: the digit runs joined by `_`. */
  method ExtractIntegerWords(s: string) returns (numStr: string)
    ensures numStr == Text.Join(DigitRuns(s), "_")
  {
    numStr := "";
    ghost var runs: seq<string> := [];
    var pos := 0;
    while pos < |s|
      invariant pos <= |s| + 1
      invariant runs + RunsFrom(s, pos) == RunsFrom(s, 0)
      invariant numStr == Text.Join(runs, "_") && (numStr == "" <==> runs == [])
      decreases |s| + 1 - pos
    {
      if Text.IsDigit(s[pos]) {
        var len := DigitRunAt(s, pos);
        var run := s[pos..pos + len];
        if numStr == "" {
          numStr := run;
        } else {
          JoinSnoc(runs, run, "_");
          numStr := numStr + "_" + run;
        }
        assert RunsFrom(s, pos) == [run] + RunsFrom(s, pos + len + 1);
        assert runs + ([run] + RunsFrom(s, pos + len + 1)) == runs + [run] + RunsFrom(s, pos + len + 1);
        runs := runs + [run];
        pos := pos + len + 1;
      } else {
        assert RunsFrom(s, pos) == RunsFrom(s, pos + 1);
        pos := pos + 1;
      }
    }
    assert runs + [] == runs;
    RunsFromStart(s);
  }

  /** The inner loop of `extract_integer_words`: the run at a digit is extended while
    * the next character is a digit (the terminating NUL of the string is not). */
  method DigitRunAt(s: string, pos: nat) returns (len: nat)
    requires pos < |s| && Text.IsDigit(s[pos])
    ensures len == RunLen(s, pos)
  {
    len := 1;
    while pos + len < |s| && Text.IsDigit(s[pos + len])
      invariant 1 <= len && pos + len <= |s|
      invariant RunLen(s, pos) == len + RunLen(s, pos + len)
    {
      len := len + 1;
    }
  }

  /** The length of the run of digits starting at index `pos`. */
  function RunLen(s: string, pos: nat): (n: nat)
    requires pos <= |s|
    ensures pos + n <= |s|
    decreases |s| - pos
  {
    if pos == |s| || !Text.IsDigit(s[pos]) then 0 else 1 + RunLen(s, pos + 1)
  }

  /** The runs of digits from index `pos` on, as the loop of `extract_integer_words`
    * visits them: after a run it skips the character that ended it. */
  function RunsFrom(s: string, pos: nat): seq<string>
    decreases |s| + 1 - pos
  {
    if pos >= |s| then []
    else if Text.IsDigit(s[pos]) then [s[pos..pos + RunLen(s, pos)]] + RunsFrom(s, pos + RunLen(s, pos) + 1)
    else RunsFrom(s, pos + 1)
  }

  /** The loop's runs are the runs of digits. */
  lemma RunsFromStart(s: string)
    ensures RunsFrom(s, 0) == DigitRuns(s)
  {
    RunsFromSuffix(s, 0);
    assert s[0..] == s;
  }

  lemma {:induction false} RunsFromSuffix(s: string, pos: nat)
    requires pos <= |s|
    ensures RunsFrom(s, pos) == DigitRuns(s[pos..])
    decreases |s| - pos
  {
    if pos < |s| {
      if Text.IsDigit(s[pos]) {
        var len := RunLen(s, pos);
        var rest := RunsFrom(s, pos + len + 1);
        if pos + len < |s| {
          RunsFromSuffix(s, pos + len + 1);
        }
        calc {
          RunsFrom(s, pos);
          { RunsFromAtDigit(s, pos); }
          [s[pos..pos + len]] + rest;
          { DigitRunsAtDigit(s, pos); }
          DigitRuns(s[pos..]);
        }
      } else {
        RunsFromSuffix(s, pos + 1);
        assert s[pos..][1..] == s[pos + 1..];
        assert DigitRuns(s[pos..]) == DigitRuns(s[pos + 1..]);
      }
    }
  }

  /** At a digit the loop takes the run there and resumes after the character that
    * ends it. */
  lemma RunsFromAtDigit(s: string, pos: nat)
    requires pos < |s| && Text.IsDigit(s[pos])
    ensures RunsFrom(s, pos) == [s[pos..pos + RunLen(s, pos)]] + RunsFrom(s, pos + RunLen(s, pos) + 1)
  {
  }

  lemma {:induction false} RunLenIsDigitRun(s: string, pos: nat)
    requires pos <= |s|
    ensures RunLen(s, pos) == DigitRun(s[pos..])
    decreases |s| - pos
  {
    if pos < |s| && Text.IsDigit(s[pos]) {
      RunLenIsDigitRun(s, pos + 1);
      assert s[pos..][1..] == s[pos + 1..];
    }
  }

  /** At a digit, the runs are the current run followed by the runs after the
    * character that ends it. */
  lemma DigitRunsAtDigit(s: string, pos: nat)
    requires pos < |s| && Text.IsDigit(s[pos])
    ensures var len := RunLen(s, pos);
      DigitRuns(s[pos..]) == [s[pos..pos + len]] + (if pos + len < |s| then DigitRuns(s[pos + len + 1..]) else [])
  {
    var t := s[pos..];
    var len := DigitRun(t);
    RunLenIsDigitRun(s, pos);
    assert t[..len] == s[pos..pos + len];
    var rest := t[len..];
    if len < |t| {
      assert rest[1..] == s[pos + len + 1..];
    } else {
      assert rest == [];
    }
  }

  // ------------------------------------------------------------------ telf file names

  /** `sep_telf_fn(dir, module, compact)`. */
  function SepTelfFn(outputDir: string, moduleName: string, compactFn: string): (fn: string)
  {
    var dir := if outputDir != [] && outputDir[|outputDir| - 1] == '/' then outputDir else outputDir + "/";
    var nums := Text.Join(DigitRuns(moduleName), "_");
    if |nums| > 0 then dir + compactFn + "_" + nums + ".csv" else dir + compactFn + ".csv"
  }

  /** The file name ends in `.csv`, sits in the directory (with one `/` added when
    * missing), and carries the module's numbers exactly when it has digits. */
  lemma SepTelfFnShape(outputDir: string, moduleName: string, compactFn: string)
    ensures var fn := SepTelfFn(outputDir, moduleName, compactFn);
      var dir := if outputDir != [] && outputDir[|outputDir| - 1] == '/' then outputDir else outputDir + "/";
      |dir + compactFn| + 4 <= |fn| && fn[..|dir + compactFn|] == dir + compactFn && fn[|fn| - 4..] == ".csv"
    ensures DigitRuns(moduleName) == [] ==>
      SepTelfFn(outputDir, moduleName, compactFn) == (if outputDir != [] && outputDir[|outputDir| - 1] == '/' then outputDir else outputDir + "/") + compactFn + ".csv"
  {
    var fn := SepTelfFn(outputDir, moduleName, compactFn);
    var runs := DigitRuns(moduleName);
    if runs != [] {
      JoinNonEmpty(runs, "_");
    }
  }

  lemma ModuleNameHasNoRuns(m: string)
    requires m == "module_name"
    ensures DigitRuns(m) == []
  {
    assert forall k :: 0 <= k < |m| ==> !Text.IsDigit(m[k]);
    NoDigitsNoRuns(m);
  }

  /** A directory that ends in `/` is used as it is. */
  lemma SepTelfFnExamples(dir: string, m: string, c: string)
    requires dir == "hello/" && m == "module_name" && c == "dummy"
    ensures SepTelfFn(dir, m, c) == dir + c + ".csv"
  {
    ModuleNameHasNoRuns(m);
    SepTelfFnShape(dir, m, c);
    assert dir[|dir| - 1] == '/';
  }

  /** A directory without a trailing `/` gets one. */
  lemma SepTelfFnAddsSlash(dir: string, m: string, c: string)
    requires dir == "hello/world" && m == "module_name" && c == "dummy"
    ensures SepTelfFn(dir, m, c) == dir + "/" + c + ".csv"
  {
    ModuleNameHasNoRuns(m);
    SepTelfFnShape(dir, m, c);
    assert dir[|dir| - 1] == 'd';
  }

  lemma {:induction false} NoDigitsNoRuns(s: string)
    requires forall k :: 0 <= k < |s| ==> !Text.IsDigit(s[k])
    ensures DigitRuns(s) == []
    decreases |s|
  {
    if s != [] {
      NoDigitsNoRuns(s[1..]);
    }
  }
}
