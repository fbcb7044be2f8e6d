/** The slice between the measurement register file and the classical pipeline, from
  * src/1_digital/classical/meas_reg_file_slice.cpp: every output of the register file
  * is registered once more, and the valid bits are also held low in the cycle after
  * the classical pipeline issues a measure. */
module MeasRegFileSlice {
  import MeasRegFileRtl

  class MeasSlice {
    const numQubits: nat
    /** `i_MCS2MRF_meas_issue`: the classical pipeline's measure issue, one cycle late;
      * `drive_directly` forwards it to the register file as `MCS2MRF_meas_issue`. */
    var issueDly: bool
    /** `MCS2Clp_valid`, `MCS2Clp_data` and `MCS2Clp_ready`. */
    var valid: seq<bool>
    var data: seq<bool>
    var ready: bool

    predicate Valid()
      reads this
    {
      |valid| == numQubits && |data| == numQubits
    }

    constructor (n: nat)
      ensures Valid() && numQubits == n && !issueDly && !ready
      ensures valid == seq(n, _ => false) && data == seq(n, _ => false)
    {
      numQubits := n;
      issueDly := false;
      valid := seq(n, _ => false);
      data := seq(n, _ => false);
      ready := false;
    }

    /** `slice_register`, one rising clock edge. */
    method Clock(reset: bool, clpIssue: bool, mrfReady: bool, mrfData: seq<bool>, mrfValid: seq<bool>)
      requires Valid() && |mrfData| == |mrfValid| == numQubits
      modifies this
      ensures Valid()
      ensures valid == SliceValid(reset, clpIssue, old(issueDly), mrfValid)
      ensures data == mrfData
      ensures ready == (reset || mrfReady)
      ensures issueDly == (clpIssue && !reset)
    {
      var v: seq<bool> := [];
      var i := 0;
      while i < numQubits
        invariant 0 <= i <= numQubits && |v| == i
        invariant forall k :: 0 <= k < i ==> v[k] == (!clpIssue && !issueDly && mrfValid[k])
      {
        v := v + [if clpIssue || issueDly then false else mrfValid[i]];
        i := i + 1;
      }
      var d: seq<bool> := [];
      i := 0;
      while i < numQubits
        invariant 0 <= i <= numQubits && |d| == i
        invariant forall k :: 0 <= k < i ==> d[k] == mrfData[k]
      {
        d := d + [mrfData[i]];
        i := i + 1;
      }
      ready := mrfReady;
      issueDly := clpIssue;
      if reset {
        v := seq(numQubits, _ => true);
        ready := true;
        issueDly := false;
      }
      valid, data := v, d;
    }
  }

  /** `MCS2Clp_valid` after one clock: all high on reset, otherwise low while a measure
    * is issued now or was issued in the previous cycle, and the register file's valid
    * bit otherwise. */
  function SliceValid(reset: bool, clpIssue: bool, issueDly: bool, mrfValid: seq<bool>): (r: seq<bool>)
    ensures |r| == |mrfValid|
    ensures forall i :: 0 <= i < |r| ==> r[i] == (reset || (!clpIssue && !issueDly && mrfValid[i]))
  {
    seq(|mrfValid|, i requires 0 <= i < |mrfValid| => reset || (!clpIssue && !issueDly && mrfValid[i]))
  }

  /** Through both stages a measure issued by the classical pipeline hides every result
    * in the cycle that follows: the register file drops its valid bits in the cycle of
    * the issue, and the slice holds them low for one more cycle, while the interlock
    * counter it delays the issue to records the measure. */
  lemma IssueHidesResults(clpIssue: bool, issueDly: bool, lockCounter: MeasRegFileRtl.Counter,
                          pending: seq<MeasRegFileRtl.Counter>, mrfValid: seq<bool>, q: nat)
    requires q < |pending| == |mrfValid|
    ensures clpIssue ==> !MeasRegFileRtl.OutValidAll(false, MeasRegFileRtl.LockReady(lockCounter, clpIssue), pending)[q]
    ensures clpIssue || issueDly ==> !SliceValid(false, clpIssue, issueDly, mrfValid)[q]
    ensures !clpIssue && !issueDly ==> SliceValid(false, clpIssue, issueDly, mrfValid)[q] == mrfValid[q]
  {
  }
}
