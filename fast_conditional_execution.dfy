/** Fast conditional execution, src/1_digital/quantum/tech_dep/fast_conditional_execution.cpp.
  * Conditions are not designed yet: every cycle the unit forwards the interface unchanged
  * and cancels no measurement. The interface the thread keeps across cycles matters only
  * for the VLIW width of the emptied interface it sends on reset. */
module FastConditionalExecution {
  import opened Wrappers
  import opened GenericIf
  import MeasIssueGen

  /** What one cycle writes: the cancel record and the forwarded interface. */
  datatype FceOutput = FceOutput(meas: GenericMeas, pipe: QPipeInterface)

  /** `do_output`, one cycle, given the interface the thread last held. */
  function DoOutput(reset: bool, numQubits: nat, held: QPipeInterface, i: QPipeInterface): (r: FceOutput)
    ensures reset ==> |r.meas.measEnaCancel| == numQubits && r.pipe == ResetInterface(held)
    ensures !reset ==> |r.meas.measEnaCancel| == |i.ops| && r.pipe == i &&
                       r.meas.timing == (if i.ops == [] then DefaultTiming else i.timing)
    ensures forall q :: 0 <= q < |r.meas.measEnaCancel| ==> !r.meas.measEnaCancel[q]
    ensures r.meas.measEna == [] && r.meas.measData == [] && r.meas.measDataValid == []
  {
    if reset then FceOutput(EmptyMeas.(measEnaCancel := seq(numQubits, _ => false)), ResetInterface(held))
    else FceOutput(EmptyMeas.(timing := if i.ops == [] then DefaultTiming else i.timing,
                              measEnaCancel := seq(|i.ops|, _ => false)), i)
  }

  /** The cancel vector lines up with the enable vector the measurement-issue generator
    * builds from the same interface, entry for entry and with the same timing, and
    * cancels none of the measurements it issues. */
  lemma CancelMatchesIssue(reset: bool, numQubits: nat, held: QPipeInterface, i: QPipeInterface)
    requires MeasIssueGen.MeasIssue(reset, numQubits, i).Success?
    ensures var ena := MeasIssueGen.MeasIssue(reset, numQubits, i).value;
      var out := DoOutput(reset, numQubits, held, i);
      |out.meas.measEnaCancel| == |ena.measEna| && out.meas.timing == ena.timing &&
      forall q :: 0 <= q < |ena.measEna| && ena.measEna[q] ==> !out.meas.measEnaCancel[q]
  {
    MeasIssueGen.MeasIssueShape(reset, numQubits, i);
  }
}
