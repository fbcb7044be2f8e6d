/** The measurement register file of src/1_digital/classical/meas_reg_file_rtl.cpp: an
  * interlock counter of measure instructions the classical pipeline issued and the
  * quantum pipeline has not yet taken, one counter per qubit of measurements still
  * pending, the last result of every qubit, and the registered outputs to the
  * classical pipeline. */
module MeasRegFileRtl {

  /** `G_INTERLOCK_COUNTER_BITS` is 6: every counter is an `sc_uint<6>`. */
  const CounterModulus := 64

  type Counter = x: int | 0 <= x < CounterModulus

  /** A 6-bit counter after adding `d`, wrapping as `sc_uint<6>` does. */
  function Wrap(x: int): Counter
  {
    x % CounterModulus
  }

  function Bit(b: bool): int
  {
    if b then 1 else 0
  }

  // ------------------------------------------------------------------ counters

  /** `interlocking_counter`, one clock: +1 for a measure the classical pipeline issues,
    * -1 for one the quantum pipeline issues, 0 on reset. */
  function LockNext(c: Counter, clpIssue: bool, qpIssue: bool, reset: bool): Counter
  {
    if reset then 0 else Wrap(c + Bit(clpIssue) - Bit(qpIssue))
  }

  /** `interlocking_ready`: the lock is free when no measure is outstanding and none is
    * being issued. */
  function LockReady(c: Counter, clpIssue: bool): bool
  {
    c == 0 && !clpIssue
  }

  /** `qubit_valid_counter` for one qubit: +1 for a measure issued on it, -1 for a
    * cancelled one, -1 for a result that arrives; 0 on reset. */
  function PendingNext(c: Counter, ena: bool, cancel: bool, result: bool, reset: bool): Counter
  {
    if reset then 0 else Wrap(c + Bit(ena) - Bit(cancel) - Bit(result))
  }

  /** A 6-bit counter after a run of changes, starting from `c`. */
  function CounterAfter(c: Counter, deltas: seq<int>): Counter
    decreases |deltas|
  {
    if deltas == [] then c else CounterAfter(Wrap(c + deltas[0]), deltas[1..])
  }

  function Sum(deltas: seq<int>): int
  {
    if deltas == [] then 0 else deltas[0] + Sum(deltas[1..])
  }

  /** A wrapping counter holds its start plus the total of its changes, modulo 64:
    * wrapping at every step is the same as wrapping once. */
  lemma {:induction false} CounterAfterIsSum(c: Counter, deltas: seq<int>)
    ensures CounterAfter(c, deltas) == Wrap(c + Sum(deltas))
    decreases |deltas|
  {
    if deltas != [] {
      CounterAfterIsSum(Wrap(c + deltas[0]), deltas[1..]);
      WrapAdd(c + deltas[0], Sum(deltas[1..]));
    }
  }

  lemma WrapAdd(x: int, y: int)
    ensures Wrap(Wrap(x) + y) == Wrap(x + y)
  {
    var q := x / CounterModulus;
    assert x == CounterModulus * q + Wrap(x);
    assert x + y == CounterModulus * q + (Wrap(x) + y);
  }

  function Count(bs: seq<bool>): nat
  {
    if bs == [] then 0 else Bit(bs[0]) + Count(bs[1..])
  }

  /** The interlock counter after a run of cycles without reset, from its reset value. */
  function LockAfter(clpIssues: seq<bool>, qpIssues: seq<bool>): Counter
    requires |clpIssues| == |qpIssues|
  {
    if clpIssues == [] then 0
    else LockNext(LockAfter(clpIssues[..|clpIssues| - 1], qpIssues[..|qpIssues| - 1]),
                  clpIssues[|clpIssues| - 1], qpIssues[|qpIssues| - 1], false)
  }

  /** After reset the interlock counter holds the number of measures the classical
    * pipeline issued less the number the quantum pipeline issued, modulo 64; so the
    * lock is free again exactly when the two counts agree modulo 64. */
  lemma {:induction false} LockCountsOutstanding(clpIssues: seq<bool>, qpIssues: seq<bool>)
    requires |clpIssues| == |qpIssues|
    ensures LockAfter(clpIssues, qpIssues) == Wrap(Count(clpIssues) - Count(qpIssues))
    ensures LockReady(LockAfter(clpIssues, qpIssues), false) <==>
              (Count(clpIssues) - Count(qpIssues)) % CounterModulus == 0
  {
    if clpIssues != [] {
      var n := |clpIssues|;
      var ci, qi := clpIssues[..n - 1], qpIssues[..n - 1];
      LockCountsOutstanding(ci, qi);
      CountSnoc(ci, clpIssues[n - 1]);
      CountSnoc(qi, qpIssues[n - 1]);
      assert ci + [clpIssues[n - 1]] == clpIssues;
      assert qi + [qpIssues[n - 1]] == qpIssues;
      WrapAdd(Count(ci) - Count(qi), Bit(clpIssues[n - 1]) - Bit(qpIssues[n - 1]));
    }
  }

  lemma {:induction false} CountSnoc(bs: seq<bool>, b: bool)
    ensures Count(bs + [b]) == Count(bs) + Bit(b)
  {
    if bs != [] {
      assert (bs + [b])[1..] == bs[1..] + [b];
      CountSnoc(bs[1..], b);
    }
  }

  /** One cycle of the interlock counter: simultaneous issues cancel, a lone issue
    * moves it by one, and it wraps at 6 bits in both directions. */
  lemma LockNextSteps(c: Counter, clpIssue: bool, qpIssue: bool)
    ensures clpIssue == qpIssue ==> LockNext(c, clpIssue, qpIssue, false) == c
    ensures clpIssue && !qpIssue ==> LockNext(c, clpIssue, qpIssue, false) == if c == 63 then 0 else c + 1
    ensures !clpIssue && qpIssue ==> LockNext(c, clpIssue, qpIssue, false) == if c == 0 then 63 else c - 1
    ensures LockNext(c, clpIssue, qpIssue, true) == 0
    ensures LockReady(c, clpIssue) <==> c == 0 && !clpIssue
  {
  }

  /** One cycle of a qubit's pending counter changes it by the issues less the cancels
    * and results, modulo 64. */
  lemma PendingNextSteps(c: Counter, ena: bool, cancel: bool, result: bool)
    ensures PendingNext(c, ena, cancel, result, false) == CounterAfter(c, [Bit(ena) - Bit(cancel) - Bit(result)])
    ensures ena && !cancel && !result ==> PendingNext(c, ena, cancel, result, false) == Wrap(c + 1)
    ensures !ena && (cancel != result) ==> PendingNext(c, ena, cancel, result, false) == Wrap(c - 1)
    ensures PendingNext(c, ena, cancel, result, true) == 0
  {
  }

  // ------------------------------------------------------------------ the register file

  class MeasRegFile {
    /** `num_qubits`, from the global configuration. */
    const numQubits: nat
    /** `i_lock_counter`. */
    var lockCounter: Counter
    /** `pending_meas_counter`. */
    var pending: seq<Counter>
    /** `v_qubit_data`, the last result of every qubit, and the `qubit_data` signals. */
    var qubitData: seq<bool>
    /** `MRF2Clp_data`, `MRF2Clp_valid` and `MRF2Clp_ready`. */
    var outData: seq<bool>
    var outValid: seq<bool>
    var outReady: bool
    /** `i_lock_ready` and the `qubit_valid` signals. Their threads wake only when the
      * counter they watch changes value, so each holds what it was last set to. */
    var lockReady: bool
    var qubitValid: seq<bool>

    /** The sizes, and the safety invariant of the registered signals: the lock reads
      * ready only while the interlock counter is zero, and a qubit reads valid only
      * while it has no pending measurement. */
    predicate Valid()
      reads this
    {
      |pending| == numQubits && |qubitData| == numQubits && |outData| == numQubits &&
      |outValid| == numQubits && |qubitValid| == numQubits &&
      (lockReady ==> lockCounter == 0) &&
      (forall q :: 0 <= q < numQubits && qubitValid[q] ==> pending[q] == 0)
    }

    /** Every signal starts at its default, zero. */
    constructor (n: nat)
      ensures Valid() && numQubits == n && lockCounter == 0
      ensures pending == seq(n, _ => 0) && qubitData == seq(n, _ => false)
      ensures outData == seq(n, _ => false) && outValid == seq(n, _ => false) && !outReady
      ensures !lockReady && qubitValid == seq(n, _ => false)
    {
      numQubits := n;
      lockCounter := 0;
      pending := seq(n, _ => 0);
      qubitData := seq(n, _ => false);
      outData := seq(n, _ => false);
      outValid := seq(n, _ => false);
      outReady := false;
      lockReady := false;
      qubitValid := seq(n, _ => false);
    }

    /** `generate_signals`: a qubit's result is valid when no measurement on it is
      * pending. */
    method GenerateSignals() returns (valid: seq<bool>)
      requires |pending| == numQubits
      ensures |valid| == numQubits
      ensures forall q :: 0 <= q < numQubits ==> (valid[q] <==> pending[q] == 0)
    {
      valid := [];
      var q := 0;
      while q < numQubits
        invariant 0 <= q <= numQubits && |valid| == q
        invariant forall k :: 0 <= k < q ==> (valid[k] <==> pending[k] == 0)
      {
        valid := valid + [pending[q] == 0];
        q := q + 1;
      }
    }

    /** One rising clock edge of `interlocking_counter`, `qubit_valid_counter` and
      * `output_register`, followed by the wake-ups of `interlocking_ready` and
      * `generate_signals` it causes. The clocked threads read the signals as they were
      * before the edge: the quantum pipeline's issue is the OR of its per-qubit enables,
      * the valid outputs come from the registered ready and valid signals, and the data
      * sent out is the register before this edge's results land. Then the ready signal
      * is recomputed only if the interlock counter changed, from the new counter and the
      * classical issue `clpIssueNext` it sees at that moment, and every qubit's valid is
      * recomputed only if some pending counter changed. A valid output is never more
      * permissive than the settled condition on the counters before the edge. */
    method Clock(reset: bool, clpIssue: bool, clpIssueNext: bool, qpEna: seq<bool>, qpCancel: seq<bool>,
                 qmData: seq<bool>, qmEna: seq<bool>)
      requires Valid()
      requires |qpEna| == |qpCancel| == |qmData| == |qmEna| == numQubits
      modifies this
      ensures Valid()
      ensures lockCounter == LockNext(old(lockCounter), clpIssue, AnyOf(qpEna), reset)
      ensures pending == PendingAll(old(pending), qpEna, qpCancel, qmEna, reset)
      ensures qubitData == DataAll(old(qubitData), qmData, qmEna)
      ensures outData == old(qubitData) && outReady
      ensures forall q :: 0 <= q < numQubits ==>
        outValid[q] == (reset || (old(lockReady) && !clpIssue && old(qubitValid)[q]))
      ensures lockReady == if lockCounter != old(lockCounter) then lockCounter == 0 && !clpIssueNext else old(lockReady)
      ensures pending != old(pending) ==> forall q :: 0 <= q < numQubits ==> (qubitValid[q] <==> pending[q] == 0)
      ensures pending == old(pending) ==> qubitValid == old(qubitValid)
      ensures forall q :: 0 <= q < numQubits && outValid[q] ==>
        OutValidAll(reset, LockReady(old(lockCounter), clpIssue), old(pending))[q]
    {
      var qpIssue := QuantumIssue(qpEna);
      var nextValid := OutputValids(reset, lockReady, clpIssue, qubitValid);
      RegisteredValidIsSafe(reset, clpIssue, lockReady, lockCounter, qubitValid, pending, nextValid);
      var nextPending, nextData := QubitValidCounter(reset, pending, qubitData, qpEna, qpCancel, qmData, qmEna);
      var nextLock := LockNext(lockCounter, clpIssue, qpIssue, reset);
      outData := qubitData;
      outValid := nextValid;
      outReady := true;
      qubitData := nextData;
      WriteCounters(nextLock, nextPending, clpIssueNext);
    }

    /** The counters take their new values, and the threads sensitive to them react:
      * `interlocking_ready` runs only if the interlock counter changed, and
      * `generate_signals` only if some pending counter changed. */
    method WriteCounters(nextLock: Counter, nextPending: seq<Counter>, clpIssueNext: bool)
      requires |nextPending| == numQubits == |qubitValid| == |pending|
      requires lockReady ==> lockCounter == 0
      requires forall q :: 0 <= q < numQubits && qubitValid[q] ==> pending[q] == 0
      modifies this
      ensures lockCounter == nextLock && pending == nextPending
      ensures qubitData == old(qubitData) && outData == old(outData) && outValid == old(outValid) && outReady == old(outReady)
      ensures |qubitValid| == numQubits
      ensures lockReady == if nextLock != old(lockCounter) then nextLock == 0 && !clpIssueNext else old(lockReady)
      ensures nextPending != old(pending) ==> forall q :: 0 <= q < numQubits ==> (qubitValid[q] <==> nextPending[q] == 0)
      ensures nextPending == old(pending) ==> qubitValid == old(qubitValid)
      ensures lockReady ==> lockCounter == 0
      ensures forall q :: 0 <= q < numQubits && qubitValid[q] ==> pending[q] == 0
    {
      if nextLock != lockCounter {
        lockReady := nextLock == 0 && !clpIssueNext;
      }
      lockCounter := nextLock;
      if nextPending != pending {
        pending := nextPending;
        qubitValid := GenerateSignals();
      }
    }
  }

  /** The valid outputs computed from registered signals that keep the safety invariant
    * never exceed the settled condition on the counters. */
  lemma RegisteredValidIsSafe(reset: bool, clpIssue: bool, lockReady: bool, lockCounter: Counter,
                              qubitValid: seq<bool>, pending: seq<Counter>, out: seq<bool>)
    requires |qubitValid| == |pending| == |out|
    requires lockReady ==> lockCounter == 0
    requires forall q :: 0 <= q < |pending| && qubitValid[q] ==> pending[q] == 0
    requires forall q :: 0 <= q < |out| ==> out[q] == (reset || (lockReady && !clpIssue && qubitValid[q]))
    ensures forall q :: 0 <= q < |out| && out[q] ==> OutValidAll(reset, LockReady(lockCounter, clpIssue), pending)[q]
  {
    forall q | 0 <= q < |out| && out[q]
      ensures OutValidAll(reset, LockReady(lockCounter, clpIssue), pending)[q]
    {
    }
  }

  /** The loop of `output_register` over the qubits: low while the lock is not free or
    * a measure is being issued, the qubit's valid otherwise, and high on reset. */
  method OutputValids(reset: bool, lockReady: bool, clpIssue: bool, valid: seq<bool>) returns (r: seq<bool>)
    ensures |r| == |valid|
    ensures forall q :: 0 <= q < |r| ==> r[q] == (reset || (lockReady && !clpIssue && valid[q]))
  {
    r := [];
    var i := 0;
    while i < |valid|
      invariant 0 <= i <= |valid| && |r| == i
      invariant forall k :: 0 <= k < i ==> r[k] == (reset || (lockReady && !clpIssue && valid[k]))
    {
      var v := if !lockReady || clpIssue then false else valid[i];
      if reset {
        v := true;
      }
      r := r + [v];
      i := i + 1;
    }
  }

  /** The loop of `qubit_valid_counter` over the qubits: each pending counter moves by
    * the issue, the cancel and the result of its qubit, and a valid result replaces
    * the qubit's stored one. */
  method QubitValidCounter(reset: bool, pending: seq<Counter>, data: seq<bool>, qpEna: seq<bool>,
                           qpCancel: seq<bool>, qmData: seq<bool>, qmEna: seq<bool>)
    returns (nextPending: seq<Counter>, nextData: seq<bool>)
    requires |qpEna| == |qpCancel| == |qmData| == |qmEna| == |pending| == |data|
    ensures nextPending == PendingAll(pending, qpEna, qpCancel, qmEna, reset)
    ensures nextData == DataAll(data, qmData, qmEna)
  {
    nextPending, nextData := [], [];
    var q := 0;
    while q < |pending|
      invariant 0 <= q <= |pending| && |nextPending| == q && |nextData| == q
      invariant forall k :: 0 <= k < q ==>
        nextPending[k] == PendingNext(pending[k], qpEna[k], qpCancel[k], qmEna[k], reset)
      invariant forall k :: 0 <= k < q ==> nextData[k] == if qmEna[k] then qmData[k] else data[k]
    {
      var c := CountOne(reset, pending[q], qpEna[q], qpCancel[q], qmEna[q]);
      var d := if qmEna[q] then qmData[q] else data[q];
      nextPending := nextPending + [c];
      nextData := nextData + [d];
      q := q + 1;
    }
  }

  /** Every qubit's pending counter after one clock. */
  function PendingAll(pending: seq<Counter>, ena: seq<bool>, cancel: seq<bool>, result: seq<bool>,
                      reset: bool): (r: seq<Counter>)
    requires |ena| == |cancel| == |result| == |pending|
    ensures |r| == |pending|
    ensures forall q :: 0 <= q < |r| ==> r[q] == PendingNext(pending[q], ena[q], cancel[q], result[q], reset)
  {
    seq(|pending|, q requires 0 <= q < |pending| => PendingNext(pending[q], ena[q], cancel[q], result[q], reset))
  }

  /** The data register after one clock: a qubit whose result is valid takes it; every
    * other qubit keeps its last result. */
  function DataAll(data: seq<bool>, result: seq<bool>, resultValid: seq<bool>): (r: seq<bool>)
    requires |result| == |resultValid| == |data|
    ensures |r| == |data|
    ensures forall q :: 0 <= q < |r| ==> r[q] == if resultValid[q] then result[q] else data[q]
  {
    seq(|data|, q requires 0 <= q < |data| => if resultValid[q] then result[q] else data[q])
  }

  /** `MRF2Clp_valid` for every qubit. */
  function OutValidAll(reset: bool, lockReady: bool, pending: seq<Counter>): (r: seq<bool>)
    ensures |r| == |pending|
    ensures forall q :: 0 <= q < |r| ==> r[q] == OutValid(reset, lockReady, pending[q])
  {
    seq(|pending|, q requires 0 <= q < |pending| => OutValid(reset, lockReady, pending[q]))
  }

  /** The body of `qubit_valid_counter` for one qubit's counter. */
  method CountOne(reset: bool, c0: Counter, ena: bool, cancel: bool, result: bool) returns (c: Counter)
    ensures c == PendingNext(c0, ena, cancel, result, reset)
  {
    c := c0;
    if ena {
      c := Wrap(c + 1);
    }
    assert c == Wrap(c0 + Bit(ena));
    if cancel {
      WrapAdd(c0 + Bit(ena), -1);
      c := Wrap(c - 1);
    }
    assert c == Wrap(c0 + Bit(ena) - Bit(cancel));
    if result {
      WrapAdd(c0 + Bit(ena) - Bit(cancel), -1);
      c := Wrap(c - 1);
    }
    if reset {
      c := 0;
    }
  }

  /** `MRF2Clp_valid` of one qubit: reset forces it high; a lock that is not free
    * forces it low; otherwise it reports whether no measurement is pending. The
    * lock's ready already includes the classical pipeline's issue. */
  function OutValid(reset: bool, lockReady: bool, pending: Counter): bool
  {
    reset || (lockReady && pending == 0)
  }

  /** A result is reported valid only when no measure instruction is outstanding in
    * either pipeline and none is being issued, and that qubit has nothing pending. */
  lemma OutValidMeansSettled(reset: bool, c: Counter, clpIssue: bool, pending: Counter)
    ensures OutValid(reset, LockReady(c, clpIssue), pending) <==> reset || (c == 0 && !clpIssue && pending == 0)
  {
  }

  /** `Qp2MRF_meas_issue_sig`: whether any qubit's measure enable is set. */
  function AnyOf(bs: seq<bool>): bool
  {
    exists i :: 0 <= i < |bs| && bs[i]
  }

  /** The OR loop of `update_signals` over the quantum pipeline's enables. */
  method QuantumIssue(ena: seq<bool>) returns (issue: bool)
    ensures issue <==> AnyOf(ena)
    ensures issue <==> Count(ena) > 0
  {
    issue := false;
    var i := 0;
    while i < |ena|
      invariant 0 <= i <= |ena|
      invariant issue <==> exists k :: 0 <= k < i && ena[k]
    {
      issue := issue || ena[i];
      i := i + 1;
    }
    CountPositive(ena);
  }

  /** A sequence of flags has a set one exactly when it counts more than zero. */
  lemma {:induction false} CountPositive(bs: seq<bool>)
    ensures Count(bs) > 0 <==> exists i :: 0 <= i < |bs| && bs[i]
  {
    if bs != [] {
      CountPositive(bs[1..]);
      if !bs[0] && exists i :: 0 <= i < |bs| && bs[i] {
        var i :| 0 <= i < |bs| && bs[i];
        assert bs[1..][i - 1];
      }
    }
  }
}
