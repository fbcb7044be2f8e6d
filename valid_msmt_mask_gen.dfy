/** `Valid_msmt_mask_gen` of src/1_digital/cclight/valid_msmt_mask_gen.h: it pairs the
  * measurement results the UHFQC returns on its DIO lines with the mask of qubits that
  * were measured, read from a mask FIFO. An `sc_uint<g>` is a sequence of `g` bits, bit
  * `i` belonging to qubit `i`; the DIO word has one more bit, its valid strobe. */
module ValidMsmtMaskGen {

  /** The registers of the unit after a clock. */
  datatype MaskRegs = MaskRegs(bufferedMask: seq<bool>, validBufMask: bool, readEnable: bool,
                               rden0: bool, rden1: bool, oldValid: bool,
                               resultData: seq<bool>, resultValid: seq<bool>)

  /** An all-zero `sc_uint<n>`. */
  function Zeros(n: nat): (r: seq<bool>)
    ensures |r| == n && forall i :: 0 <= i < n ==> !r[i]
  {
    seq(n, _ => false)
  }

  /** The low bits of the DIO word, masked bit by bit. */
  function Masked(dio: seq<bool>, mask: seq<bool>): (r: seq<bool>)
    requires |dio| == |mask| + 1
    ensures |r| == |mask| && forall i :: 0 <= i < |mask| ==> r[i] == (dio[i] && mask[i])
  {
    seq(|mask|, i requires 0 <= i < |mask| => dio[i] && mask[i])
  }

  /** `rising_edge_gen`: the strobe is high now and was low a clock ago. */
  function RisingEdge(oldValid: bool, strobe: bool): bool
  {
    !oldValid && strobe
  }

  /** `read_enable_gen`'s decision: read a mask when none is held, no read is in flight
    * and the FIFO is not empty, or when the held mask is being used by a new result and
    * the FIFO is not empty. */
  function ReadNow(validBufMask: bool, rden0: bool, rden1: bool, re: bool, empty: bool): bool
  {
    (!validBufMask && !rden0 && !rden1 && !empty) || (validBufMask && re && !empty)
  }

  /** One clock of the four clocked threads, with `re` settled from the strobe and the
    * registers before the clock. */
  function Step(s: MaskRegs, g: nat, reset: bool, mask: seq<bool>, dio: seq<bool>, empty: bool): (r: MaskRegs)
    requires |mask| == g && |dio| == g + 1
  {
    var re := RisingEdge(s.oldValid, dio[g]);
    var read := ReadNow(s.validBufMask, s.rden0, s.rden1, re, empty);
    var valid := if re then false else if s.rden1 then true else if reset then false else s.validBufMask;
    MaskRegs(if reset then Zeros(g) else mask, valid, read,
             read, !read && s.rden0, dio[g],
             if re then Masked(dio, mask) else Zeros(g),
             if re then mask else Zeros(g))
  }

  /** A result is reported only on a rising edge of the strobe, only for qubits in the
    * mask, and then every qubit of the mask is valid; the strobe never rises on two
    * clocks in a row, so each strobe pulse reports once. */
  lemma ResultsFollowTheMask(s: MaskRegs, g: nat, reset: bool, mask: seq<bool>, dio: seq<bool>, empty: bool,
                             dio2: seq<bool>)
    requires |mask| == g && |dio| == g + 1 && |dio2| == g + 1
    ensures var r := Step(s, g, reset, mask, dio, empty);
      |r.resultData| == g && |r.resultValid| == g &&
      (forall i :: 0 <= i < g ==>
        (r.resultValid[i] <==> RisingEdge(s.oldValid, dio[g]) && mask[i]) &&
        (r.resultData[i] <==> RisingEdge(s.oldValid, dio[g]) && mask[i] && dio[i])) &&
      (RisingEdge(s.oldValid, dio[g]) ==> !RisingEdge(r.oldValid, dio2[g]))
  {
  }

  /** A mask becomes valid two clocks after it is read. From an idle state (no mask
    * held, no read in flight) with a non-empty FIFO and a strobe that stays low, the
    * first clock reads, the second lets the read travel, and the third marks the mask
    * valid; no second read is issued meanwhile. */
  lemma MaskValidTwoClocksAfterRead(s: MaskRegs, g: nat, mask: seq<bool>, dio: seq<bool>)
    requires |mask| == g && |dio| == g + 1 && !dio[g]
    requires !s.validBufMask && !s.rden0 && !s.rden1
    ensures var r1 := Step(s, g, false, mask, dio, false);
      var r2 := Step(r1, g, false, mask, dio, false);
      var r3 := Step(r2, g, false, mask, dio, false);
      r1.readEnable && !r1.validBufMask &&
      !r2.readEnable && !r2.validBufMask &&
      !r3.readEnable && r3.validBufMask
  {
  }

  class ValidMsmtMaskGen {
    /** The template parameter `g_num_meas_qubits`. */
    const g: nat
    /** `i_buffered_mask`, `i_valid_buf_mask`, `i_read_enable`, `i_rden_delay` (two bits),
      * `old_uhfqc_result_valid`. */
    var bufferedMask: seq<bool>
    var validBufMask: bool
    var readEnable: bool
    var rden0: bool
    var rden1: bool
    var oldValid: bool
    /** `uhfqc_result_data` and `uhfqc_result_valid`. */
    var resultData: seq<bool>
    var resultValid: seq<bool>

    function Regs(): MaskRegs
      reads this
    {
      MaskRegs(bufferedMask, validBufMask, readEnable, rden0, rden1, oldValid, resultData, resultValid)
    }

    constructor (n: nat)
      ensures g == n && Regs() == MaskRegs(seq(n, _ => false), false, false, false, false, false,
                                           seq(n, _ => false), seq(n, _ => false))
    {
      g := n;
      bufferedMask := seq(n, _ => false);
      validBufMask, readEnable, rden0, rden1, oldValid := false, false, false, false, false;
      resultData := seq(n, _ => false);
      resultValid := seq(n, _ => false);
    }

    /** `buffered_mask_valid`: the new `i_buffered_mask` and `i_valid_buf_mask`. */
    method BufferedMaskValid(reset: bool, mask: seq<bool>, re: bool) returns (bm: seq<bool>, valid: bool)
      requires |mask| == g
      ensures bm == (if reset then Zeros(g) else mask)
      ensures valid == if re then false else if rden1 then true else if reset then false else validBufMask
    {
      valid := validBufMask;
      if reset {
        bm := Zeros(g);
        valid := false;
      } else {
        bm := mask;
      }
      if rden1 {
        valid := true;
      }
      if re {
        valid := false;
      }
    }

    /** `read_enable_gen`: the new `i_read_enable` and the two bits of `i_rden_delay`. */
    method ReadEnableGen(re: bool, empty: bool) returns (rd: bool, d0: bool, d1: bool)
      ensures rd == ReadNow(validBufMask, rden0, rden1, re, empty) && d0 == rd && d1 == (!rd && rden0)
    {
      d1, d0 := rden0, false;
      rd := false;
      if !validBufMask && !rden0 && !rden1 && !empty {
        rd := true;
        d1, d0 := false, true;
      }
      if validBufMask && re && !empty {
        rd := true;
        d1, d0 := false, true;
      }
    }

    /** `msmt_result_gen`: the new result data and valid vectors. */
    method MsmtResultGen(mask: seq<bool>, dio: seq<bool>, re: bool) returns (data: seq<bool>, dvalid: seq<bool>)
      requires |mask| == g && |dio| == g + 1
      ensures data == (if re then Masked(dio, mask) else Zeros(g))
      ensures dvalid == (if re then mask else Zeros(g))
    {
      data := Zeros(g);
      dvalid := Zeros(g);
      if re {
        data := Masked(dio, mask);
        dvalid := mask;
      }
    }

    /** One clock. Every thread reads the signals as they stood before the clock; of two
      * writes to one signal in a thread the later one wins. The read enable output is
      * driven straight from `readEnable`. */
    method Clock(reset: bool, mask: seq<bool>, dio: seq<bool>, empty: bool)
      requires |mask| == g && |dio| == g + 1
      modifies this
      ensures Regs() == Step(old(Regs()), g, reset, mask, dio, empty)
    {
      var re := !oldValid && dio[g];
      var bm, valid := BufferedMaskValid(reset, mask, re);
      var rd, d0, d1 := ReadEnableGen(re, empty);
      var data, dvalid := MsmtResultGen(mask, dio, re);
      bufferedMask, validBufMask, readEnable, rden0, rden1, oldValid, resultData, resultValid :=
        bm, valid, rd, d0, d1, dio[g], data, dvalid;
    }
  }
}
