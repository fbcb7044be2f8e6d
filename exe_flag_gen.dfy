/** The execution-flag generator of src/1_digital/cclight/exe_flag_gen.cpp. Each qubit has
  * its own `Fce_logic`: a three-entry history of its measurement results and four flags
  * computed from it, which fast conditional execution will select from. */
module ExeFlagGen {
  import DelayRegister

  /** `NUM_HIS_MSMT_RES` and `NUM_EXE_FLAGS`. */
  const HistoryLength := 3
  const NumExeFlags := 4

  /** `log_msmt_his`, one clock: reset clears the history; an enabled result is shifted
    * in at the front; otherwise the history is kept. */
  function LogStep(his: seq<bool>, reset: bool, ena: bool, data: bool): (r: seq<bool>)
    requires |his| == HistoryLength
    ensures |r| == HistoryLength
  {
    if reset then [false, false, false]
    else if ena then DelayRegister.Shifted(his, data)
    else his
  }

  /** The flags as intended: bit 0 always set, bit 1 the last result, bit 2 its negation,
    * bit 3 whether the last two results differ. */
  function ExeFlags(his: seq<bool>): (r: seq<bool>)
    requires |his| == HistoryLength
    ensures |r| == NumExeFlags && r[0]
    ensures r[1] == his[0] && r[1] != r[2]
    ensures r[3] <==> his[0] != his[1]
  {
    [true, his[0], !his[0], his[0] != his[1]]
  }

  /** The flags as written. `~` is applied to an `sc_uint<1>` that has been widened to a
    * 64-bit integer, so the result is never zero, and a bit select assigned a non-zero
    * integer is set: bit 2 is always 1. */
  function ExeFlagsAsWritten(his: seq<bool>): (r: seq<bool>)
    requires |his| == HistoryLength
    ensures |r| == NumExeFlags && r[0] && r[2]
    ensures r[1] == his[0] && (r[3] <==> his[0] != his[1])
  {
    [true, his[0], true, his[0] != his[1]]
  }

  /** `~x` for a one-bit value widened to 64 bits. */
  function Not64(x: bool): nat
  {
    0x1_0000_0000_0000_0000 - 1 - (if x then 1 else 0)
  }

  /** After a measurement with result 1 the intended bit 2 is clear, but the bit as
    * written is set, because `~1` widened to 64 bits is not zero. The two definitions
    * agree on every other bit. */
  lemma Bit2AsWritten(his: seq<bool>)
    requires |his| == HistoryLength
    ensures Not64(his[0]) != 0 && Not64(true) != 0
    ensures his[0] ==> ExeFlagsAsWritten(his)[2] && !ExeFlags(his)[2]
    ensures forall b :: 0 <= b < NumExeFlags && b != 2 ==> ExeFlagsAsWritten(his)[b] == ExeFlags(his)[b]
  {
  }

  /** The history after a run of clocks. */
  function LogRun(his: seq<bool>, resets: seq<bool>, enas: seq<bool>, datas: seq<bool>): (r: seq<bool>)
    requires |his| == HistoryLength && |resets| == |enas| == |datas|
    ensures |r| == HistoryLength
    decreases |resets|
  {
    if resets == [] then his
    else LogRun(LogStep(his, resets[0], enas[0], datas[0]), resets[1..], enas[1..], datas[1..])
  }

  /** Without reset and with every result enabled, the history holds the last three
    * results, newest first, then what it held before. */
  lemma {:induction false} LogRunRemembers(his: seq<bool>, resets: seq<bool>, enas: seq<bool>, datas: seq<bool>)
    requires |his| == HistoryLength && |resets| == |enas| == |datas|
    requires forall k :: 0 <= k < |resets| ==> !resets[k] && enas[k]
    ensures LogRun(his, resets, enas, datas) == DelayRegister.Run(his, datas)
    decreases |resets|
  {
    if resets != [] {
      LogRunRemembers(LogStep(his, resets[0], enas[0], datas[0]), resets[1..], enas[1..], datas[1..]);
    }
  }

  /** After two enabled results `a` then `b`, bit 1 is `b` and bit 3 tells whether the
    * two results differ; bit 2 is set as written, and would be `b`'s negation as
    * intended. */
  lemma FlagsAfterTwoResults(his: seq<bool>, a: bool, b: bool)
    requires |his| == HistoryLength
    ensures ExeFlagsAsWritten(LogRun(his, [false, false], [true, true], [a, b])) == [true, b, true, a != b]
    ensures ExeFlags(LogRun(his, [false, false], [true, true], [a, b])) == [true, b, !b, a != b]
  {
    LogRunTwo(his, a, b);
  }

  /** Two enabled clocks without reset leave `b`, then `a`, then the oldest entry. */
  lemma LogRunTwo(his: seq<bool>, a: bool, b: bool)
    requires |his| == HistoryLength
    ensures LogRun(his, [false, false], [true, true], [a, b]) == [b, a, his[0]]
  {
    var h1 := LogStep(his, false, true, a);
    assert h1 == [a, his[0], his[1]];
    var h2 := LogStep(h1, false, true, b);
    assert h2 == [b, a, his[0]];
    assert [false, false][1..] == [false] && [true, true][1..] == [true] && [a, b][1..] == [b];
    assert LogRun(h1, [false], [true], [b]) == LogRun(h2, [], [], []);
  }

  /** `Fce_logic`: one qubit's history registers and flag output. */
  class FceLogic {
    var his: seq<bool>
    var exeFlag: seq<bool>

    predicate Valid()
      reads this
    {
      |his| == HistoryLength && |exeFlag| == NumExeFlags
    }

    constructor ()
      ensures Valid() && his == [false, false, false] && exeFlag == [false, false, false, false]
    {
      his := [false, false, false];
      exeFlag := [false, false, false, false];
    }

    /** One clock of both threads: the flags are computed, as written, from the history
      * as it stood before the clock, and the history is updated. */
    method Clock(reset: bool, ena: bool, data: bool)
      requires Valid()
      modifies this
      ensures Valid()
      ensures his == LogStep(old(his), reset, ena, data) && exeFlag == ExeFlagsAsWritten(old(his))
    {
      exeFlag := [true, his[0], Not64(his[0]) != 0, his[0] != his[1]];
      if reset {
        his := [false, false, false];
      } else if ena {
        var next := his;
        next := next[0 := data];
        for i := 0 to HistoryLength - 1
          invariant |next| == HistoryLength && next[0] == data
          invariant forall j :: 1 <= j <= i ==> next[j] == his[j - 1]
          invariant forall j :: i < j < HistoryLength ==> next[j] == his[j]
        {
          next := next[i + 1 := his[i]];
        }
        his := next;
      }
    }
  }

  /** `Exe_flag_gen`: one independent `Fce_logic` per qubit, sharing clock and reset. */
  class ExeFlagGen {
    const units: seq<FceLogic>

    predicate Valid()
      reads this, set u | u in units
    {
      (forall i, j :: 0 <= i < j < |units| ==> units[i] != units[j]) &&
      forall i :: 0 <= i < |units| ==> units[i].Valid()
    }

    constructor (numQubits: nat)
      ensures Valid() && |units| == numQubits
      ensures forall i :: 0 <= i < numQubits ==> fresh(units[i]) && units[i].his == [false, false, false]
    {
      var us: seq<FceLogic> := [];
      while |us| < numQubits
        invariant |us| <= numQubits
        invariant forall i :: 0 <= i < |us| ==> fresh(us[i]) && us[i].Valid() && us[i].his == [false, false, false]
        invariant forall i, j :: 0 <= i < j < |us| ==> us[i] != us[j]
      {
        var u := new FceLogic();
        us := us + [u];
      }
      units := us;
    }

    /** One clock: qubit `q`'s unit sees only qubit `q`'s result and enable. */
    method Clock(reset: bool, ena: seq<bool>, data: seq<bool>)
      requires Valid() && |ena| == |units| && |data| == |units|
      modifies set u | u in units
      ensures Valid()
      ensures forall q :: 0 <= q < |units| ==>
        units[q].his == LogStep(old(units[q].his), reset, ena[q], data[q]) &&
        units[q].exeFlag == ExeFlagsAsWritten(old(units[q].his))
    {
      for q := 0 to |units|
        invariant Valid()
        invariant forall j :: 0 <= j < q ==>
          units[j].his == LogStep(old(units[j].his), reset, ena[j], data[j]) &&
          units[j].exeFlag == ExeFlagsAsWritten(old(units[j].his))
        invariant forall j :: q <= j < |units| ==> units[j].his == old(units[j].his)
      {
        units[q].Clock(reset, ena[q], data[q]);
      }
    }
  }
}
