/** The slice between the instruction cache and the classical pipeline, from
  * src/1_digital/classical/icache_slice.cpp, configured as in constants.h: no command
  * slice, a ready slice and a data slice. The ready slice registers the cache's ready
  * and holds one instruction when the pipeline's side refuses it; the data slice
  * registers the instruction handed to the pipeline. Together they form a two-entry
  * first-in first-out buffer. */
module IcacheSlice {

  /** What travels with each instruction: the cache's branch-done report and the
    * instruction itself. */
  datatype Beat<T> = Beat(brDone: bool, insn: T)

  /** A valid flag with the beat it qualifies. */
  datatype Port<T> = Port(valid: bool, beat: Beat<T>)

  /** The slice's registers: `Rsl_buf_*` with its `Rsl_buf_invalid` flag and
    * `Dsl_buf_*` with its `Dsl_buf_valid` flag. */
  datatype SliceState<T> = SliceState(rslBuf: Beat<T>, rslBufInvalid: bool, dslBuf: Beat<T>, dslBufValid: bool)

  /** `drive_ready_output`: the data slice takes a beat when it is empty or when the
    * pipeline takes the one it holds. */
  function DataSliceReady<T>(s: SliceState<T>, clpReady: bool): bool
  {
    !s.dslBufValid || clpReady
  }

  /** `drive_slice_output`: a full ready buffer offers its beat; an empty one passes the
    * cache's output through. */
  function ReadySliceOut<T>(s: SliceState<T>, icValid: bool, ic: Beat<T>): Port<T>
  {
    if !s.rslBufInvalid then Port(true, s.rslBuf) else Port(icValid, ic)
  }

  /** `drive_ready`: the cache may deliver exactly when the ready buffer is empty. */
  function CacheReady<T>(s: SliceState<T>): bool
  {
    s.rslBufInvalid
  }

  /** `drive_data_output`: the pipeline sees the data buffer. */
  function PipelineOut<T>(s: SliceState<T>): Port<T>
  {
    Port(s.dslBufValid, s.dslBuf)
  }

  /** One rising clock edge: `ready_slice_gen` and `data_slice_gen` read the registers
    * and the combinational signals as they were before the edge; reset empties both
    * buffers and keeps their contents. */
  function Step<T>(s: SliceState<T>, reset: bool, icValid: bool, ic: Beat<T>, clpReady: bool): SliceState<T>
  {
    var dReady := DataSliceReady(s, clpReady);
    var (rslBuf, rslInvalid) :=
      if s.rslBufInvalid && icValid && !dReady then (ic, false)
      else if !s.rslBufInvalid && dReady then (s.rslBuf, true)
      else (s.rslBuf, s.rslBufInvalid);
    var out := ReadySliceOut(s, icValid, ic);
    var (dslBuf, dslValid) :=
      if !s.dslBufValid && out.valid then (out.beat, true)
      else if s.dslBufValid && clpReady then (out.beat, out.valid)
      else (s.dslBuf, s.dslBufValid);
    SliceState(rslBuf, rslInvalid || reset, dslBuf, dslValid && !reset)
  }

  /** The beats the slice holds, oldest first: the data buffer's, then the ready
    * buffer's. */
  function Held<T>(s: SliceState<T>): (r: seq<Beat<T>>)
    ensures |r| <= 2
  {
    (if s.dslBufValid then [s.dslBuf] else []) + (if !s.rslBufInvalid then [s.rslBuf] else [])
  }

  /** A beat leaves towards the pipeline when it is offered and the pipeline is ready. */
  predicate Delivers<T>(s: SliceState<T>, clpReady: bool)
  {
    PipelineOut(s).valid && clpReady
  }

  /** A beat enters from the cache when the cache offers one and the slice is ready. */
  predicate Accepts<T>(s: SliceState<T>, icValid: bool)
  {
    icValid && CacheReady(s)
  }

  /** The slice is a first-in first-out buffer: after a clock edge without reset it
    * holds what it held, less the beat the pipeline took, followed by the beat the cache
    * delivered. No beat is lost, duplicated or reordered. */
  lemma StepIsFifo<T>(s: SliceState<T>, icValid: bool, ic: Beat<T>, clpReady: bool)
    ensures var taken := if Delivers(s, clpReady) then 1 else 0;
      Held(Step(s, false, icValid, ic, clpReady)) ==
        Held(s)[taken..] + (if Accepts(s, icValid) then [ic] else [])
  {
    var h := Held(s);
    if s.dslBufValid && !s.rslBufInvalid {
      assert h == [s.dslBuf, s.rslBuf];
    }
  }

  /** The pipeline always sees the oldest beat the slice holds. */
  lemma PipelineSeesOldest<T>(s: SliceState<T>)
    requires Wellformed(s)
    ensures PipelineOut(s).valid <==> |Held(s)| > 0
    ensures PipelineOut(s).valid ==> PipelineOut(s).beat == Held(s)[0]
  {
  }

  /** The state a reset leaves and every later edge keeps: the ready buffer is only
    * full when the data buffer is. */
  predicate Wellformed<T>(s: SliceState<T>)
  {
    !s.rslBufInvalid ==> s.dslBufValid
  }

  /** Reset establishes the invariant, each edge keeps it, and the cache sees the slice
    * ready exactly when it holds fewer than two beats. */
  lemma StepKeepsWellformed<T>(s: SliceState<T>, reset: bool, icValid: bool, ic: Beat<T>, clpReady: bool)
    requires Wellformed(s) || reset
    ensures Wellformed(Step(s, reset, icValid, ic, clpReady))
    ensures reset ==> Held(Step(s, reset, icValid, ic, clpReady)) == []
  {
  }

  /** With the invariant, the ready the cache sees is "fewer than two beats held". */
  lemma CacheReadyIffRoom<T>(s: SliceState<T>)
    requires Wellformed(s)
    ensures CacheReady(s) <==> |Held(s)| < 2
  {
  }

  /** A beat offered by the cache to an empty slice reaches the pipeline on the next
    * edge. */
  lemma EmptySliceLatencyOne<T>(s: SliceState<T>, ic: Beat<T>, clpReady: bool)
    requires Held(s) == []
    ensures PipelineOut(Step(s, false, true, ic, clpReady)) == Port(true, ic)
  {
    assert s.rslBufInvalid && !s.dslBufValid;
  }

  class Slice<T> {
    var rslBuf: Beat<T>
    var rslBufInvalid: bool
    var dslBuf: Beat<T>
    var dslBufValid: bool

    /** The signals start at their default: both flags false, so the ready buffer
      * counts as full until the first reset. */
    constructor (init: Beat<T>)
      ensures State() == SliceState(init, false, init, false)
    {
      rslBuf, rslBufInvalid, dslBuf, dslBufValid := init, false, init, false;
    }

    function State(): SliceState<T>
      reads this
    {
      SliceState(rslBuf, rslBufInvalid, dslBuf, dslBufValid)
    }

    /** One clock edge of `ready_slice_gen` and `data_slice_gen`. */
    method Clock(reset: bool, icValid: bool, ic: Beat<T>, clpReady: bool)
      modifies this
      ensures State() == Step(old(State()), reset, icValid, ic, clpReady)
    {
      var dReady := !dslBufValid || clpReady;
      var out := if !rslBufInvalid then Port(true, rslBuf) else Port(icValid, ic);
      if rslBufInvalid && icValid && !dReady {
        rslBuf := ic;
        rslBufInvalid := false;
      } else if !rslBufInvalid && dReady {
        rslBufInvalid := true;
      }
      if reset {
        rslBufInvalid := true;
      }
      if !dslBufValid && out.valid {
        dslBuf := out.beat;
        dslBufValid := true;
      } else if dslBufValid && clpReady {
        dslBuf := out.beat;
        dslBufValid := out.valid;
      }
      if reset {
        dslBufValid := false;
      }
    }
  }
}
