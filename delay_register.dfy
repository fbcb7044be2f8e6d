/** The delay line of src/1_digital/quantum/tech_ind/delay_register.h (`Delay_register`,
  * over `bool`), which has the same shape as `delay_elements` in
  * src/0_core/util_modules.h (over `sc_uint<w>`): a shift register of `delayCycles`
  * signals in front of an output register. */
module DelayRegister {

  /** One clock of the shift register: the input enters slot 0 and every other slot
    * takes what its predecessor held. */
  function Shifted<T>(buffer: seq<T>, x: T): (r: seq<T>)
    requires |buffer| >= 1
    ensures |r| == |buffer|
  {
    [x] + buffer[..|buffer| - 1]
  }

  /** The buffer after a run of inputs, oldest first. */
  function Run<T>(buffer: seq<T>, inputs: seq<T>): seq<T>
    requires |buffer| >= 1
    decreases |inputs|
  {
    if inputs == [] then buffer else Run(Shifted(buffer, inputs[0]), inputs[1..])
  }

  /** The outputs written during a run of inputs: each clock writes the buffer's last
    * slot as it stood before the clock. */
  function Outputs<T>(buffer: seq<T>, inputs: seq<T>): seq<T>
    requires |buffer| >= 1
    decreases |inputs|
  {
    if inputs == [] then [] else [buffer[|buffer| - 1]] + Outputs(Shifted(buffer, inputs[0]), inputs[1..])
  }

  /** The buffer holds the most recent inputs, newest in slot 0, followed by what it held
    * before; its length never changes. */
  lemma {:induction false} RunRemembers<T>(buffer: seq<T>, inputs: seq<T>)
    requires |buffer| >= 1
    ensures |Run(buffer, inputs)| == |buffer|
    ensures forall i :: 0 <= i < |buffer| ==>
      Run(buffer, inputs)[i] == if i < |inputs| then inputs[|inputs| - 1 - i] else buffer[i - |inputs|]
    decreases |inputs|
  {
    if inputs != [] {
      var b1 := Shifted(buffer, inputs[0]);
      var rest := inputs[1..];
      RunRemembers(b1, rest);
      forall i | 0 <= i < |buffer|
        ensures Run(buffer, inputs)[i] == if i < |inputs| then inputs[|inputs| - 1 - i] else buffer[i - |inputs|]
      {
        if i < |rest| {
          assert rest[|rest| - 1 - i] == inputs[|inputs| - 1 - i];
        } else if i == |rest| {
          assert b1[0] == inputs[0];
        } else {
          assert b1[i - |rest|] == buffer[i - |inputs|];
        }
      }
    }
  }

  /** The output written at clock `k` is the input of clock `k - delayCycles`; the first
    * `delayCycles` clocks drain the initial contents, last slot first. Since the output
    * register is read one clock after it is written, a reader sees each input
    * `delayCycles + 1` clocks late. */
  lemma {:induction false} OutputsAreDelayedInputs<T>(buffer: seq<T>, inputs: seq<T>)
    requires |buffer| >= 1
    ensures |Outputs(buffer, inputs)| == |inputs|
    ensures forall k :: 0 <= k < |inputs| ==>
      Outputs(buffer, inputs)[k] == if k >= |buffer| then inputs[k - |buffer|] else buffer[|buffer| - 1 - k]
    decreases |inputs|
  {
    if inputs != [] {
      var d := |buffer|;
      var b1 := Shifted(buffer, inputs[0]);
      var rest := inputs[1..];
      OutputsAreDelayedInputs(b1, rest);
      var outs := Outputs(buffer, inputs);
      assert outs == [buffer[d - 1]] + Outputs(b1, rest);
      forall k | 0 <= k < |inputs|
        ensures outs[k] == if k >= d then inputs[k - d] else buffer[d - 1 - k]
      {
        if k > 0 {
          assert outs[k] == Outputs(b1, rest)[k - 1];
          if k - 1 >= d {
            assert rest[k - 1 - d] == inputs[k - d];
          } else if k == d {
            assert b1[0] == inputs[0];
          } else {
            assert b1[d - 1 - (k - 1)] == buffer[d - 1 - k];
          }
        }
      }
    }
  }

  class DelayRegister<T> {
    /** The template parameter `delay_cycles`. */
    const delayCycles: nat
    /** `delay_buffer`. */
    var buffer: seq<T>
    /** The `data_out` port. */
    var dataOut: T

    predicate Valid()
      reads this
    {
      delayCycles >= 1 && |buffer| == delayCycles
    }

    /** The buffer is initialised with `delay_cycles` signals holding their default value. */
    constructor (d: nat, init: T)
      requires d >= 1
      ensures Valid() && delayCycles == d && buffer == seq(d, _ => init) && dataOut == init
    {
      delayCycles := d;
      buffer := seq(d, _ => init);
      dataOut := init;
    }

    /** `delay`, one clock: every read sees the buffer as it stood before the clock. */
    method Delay(dataIn: T)
      requires Valid()
      modifies this
      ensures Valid()
      ensures buffer == Shifted(old(buffer), dataIn) && dataOut == old(buffer)[delayCycles - 1]
    {
      var next := buffer[0 := dataIn];
      for i := 0 to delayCycles - 1
        invariant |next| == delayCycles && next[0] == dataIn
        invariant forall j :: 1 <= j <= i ==> next[j] == buffer[j - 1]
        invariant forall j :: i < j < delayCycles ==> next[j] == buffer[j]
      {
        next := next[i + 1 := buffer[i]];
      }
      dataOut := buffer[delayCycles - 1];
      buffer := next;
    }
  }
}
