/** The measurement-result generator of src/2_analog_digital_if/msmt_result_gen.cpp: every
  * cycle it turns the (qubit, result) pairs the qubit simulator returns into the
  * per-qubit data and valid vectors of a measurement record. Nothing is kept between
  * cycles. */
module MsmtResultGen {
  import opened Wrappers
  import opened GenericIf

  /** One returned result: the qubit and its outcome, both `unsigned int`. */
  type QubitResult = (nat, nat)

  /** The vectors after the results from `i` on are written, or the abort when a result
    * names a qubit past the vectors (an out-of-range `std::vector` write in the source). */
  function WriteFrom(data: seq<bool>, valid: seq<bool>, results: seq<QubitResult>, i: nat): Result<(seq<bool>, seq<bool>), string>
    requires |data| == |valid|
    decreases |results| - i
  {
    if i >= |results| then Success((data, valid))
    else
      var (q, res) := results[i];
      if q >= |data| then Failure("qubit out of range")
      else WriteFrom(data[q := res > 0], valid[q := true], results, i + 1)
  }

  /** The measurement record of one cycle. Too many results abort even under reset;
    * under reset the results are ignored. */
  function MsmtResult(reset: bool, numQubits: nat, results: seq<QubitResult>): Result<GenericMeas, string>
  {
    var none := seq(numQubits, _ => false);
    if |results| > numQubits then Failure("too many results")
    else if reset then Success(EmptyMeas.(measData := none, measDataValid := none))
    else match WriteFrom(none, none, results, 0)
      case Success((d, v)) => Success(EmptyMeas.(measData := d, measDataValid := v))
      case Failure(e) => Failure(e)
  }

  /** `gen_msmt_result`, one cycle. */
  method GenMsmtResult(reset: bool, numQubits: nat, results: seq<QubitResult>) returns (r: Result<GenericMeas, string>)
    ensures r == MsmtResult(reset, numQubits, results)
  {
    var data: seq<bool> := [];
    var valid: seq<bool> := [];
    var q := 0;
    while q < numQubits
      invariant 0 <= q <= numQubits && data == seq(q, _ => false) && valid == data
    {
      data := data + [false];
      valid := valid + [false];
      q := q + 1;
    }
    if |results| > numQubits {
      return Failure("too many results");
    }
    if !reset {
      var i := 0;
      while i < |results|
        invariant 0 <= i <= |results| && |data| == |valid| == numQubits
        invariant WriteFrom(data, valid, results, i) == WriteFrom(seq(numQubits, _ => false), seq(numQubits, _ => false), results, 0)
      {
        var (qubit, res) := results[i];
        if qubit >= |data| {
          return Failure("qubit out of range");
        }
        data := data[qubit := res > 0];
        valid := valid[qubit := true];
        i := i + 1;
      }
    }
    r := Success(EmptyMeas.(measData := data, measDataValid := valid));
  }

  // ------------------------------------------------------------------ the reference

  /** The outcome of the last result from `i` on that names qubit `q`, if any. */
  function LastFrom(results: seq<QubitResult>, i: nat, q: nat): Option<nat>
    decreases |results| - i
  {
    if i >= |results| then None
    else match LastFrom(results, i + 1, q)
      case Some(r) => Some(r)
      case None => if results[i].0 == q then Some(results[i].1) else None
  }

  predicate InRange(results: seq<QubitResult>, i: nat, n: nat)
  {
    forall j :: i <= j < |results| ==> results[j].0 < n
  }

  /** Writing succeeds iff every qubit is in range; a qubit with a result is then valid
    * and holds its last outcome, and every other qubit keeps its entries. */
  lemma {:induction false} WriteFromMeaning(data: seq<bool>, valid: seq<bool>, results: seq<QubitResult>, i: nat)
    requires |data| == |valid| && i <= |results|
    ensures WriteFrom(data, valid, results, i).Success? <==> InRange(results, i, |data|)
    ensures WriteFrom(data, valid, results, i).Success? ==>
      var (d, v) := WriteFrom(data, valid, results, i).value;
      |d| == |v| == |data| &&
      forall q :: 0 <= q < |data| ==>
        match LastFrom(results, i, q)
        case Some(res) => v[q] && d[q] == (res > 0)
        case None => v[q] == valid[q] && d[q] == data[q]
    decreases |results| - i
  {
    if i < |results| {
      var (q0, res0) := results[i];
      if q0 < |data| {
        WriteFromMeaning(data[q0 := res0 > 0], valid[q0 := true], results, i + 1);
      }
    }
  }

  /** The record has one data and one valid entry per qubit. A qubit is valid iff it is
    * not a reset cycle and some result names it, and its data is its last result's
    * outcome being positive; too many results, or a qubit out of range, abort. */
  lemma MsmtResultMeaning(reset: bool, numQubits: nat, results: seq<QubitResult>)
    ensures MsmtResult(reset, numQubits, results).Success? <==>
      |results| <= numQubits && (reset || InRange(results, 0, numQubits))
    ensures MsmtResult(reset, numQubits, results).Success? ==>
      var m := MsmtResult(reset, numQubits, results).value;
      |m.measData| == numQubits && |m.measDataValid| == numQubits &&
      forall q :: 0 <= q < numQubits ==>
        (m.measDataValid[q] <==> !reset && LastFrom(results, 0, q).Some?) &&
        (m.measData[q] <==> !reset && LastFrom(results, 0, q).Some? && LastFrom(results, 0, q).value > 0)
  {
    if !reset && |results| <= numQubits {
      WriteFromMeaning(seq(numQubits, _ => false), seq(numQubits, _ => false), results, 0);
    }
  }

  /** A qubit that some result names has a last result. */
  lemma {:induction false} NamedQubitHasLast(results: seq<QubitResult>, i: nat, j: nat)
    requires i <= j < |results|
    ensures LastFrom(results, i, results[j].0).Some?
    decreases |results| - i
  {
    if i < j {
      NamedQubitHasLast(results, i + 1, j);
    }
  }
}
