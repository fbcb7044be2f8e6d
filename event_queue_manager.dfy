/** The event queue manager of src/1_digital/quantum/tech_dep/event_queue_manager.cpp.
  * Timing points (interfaces with a valid wait) are queued; after the run signal rises
  * they are taken out one by one, and each is released once a counter has counted its
  * wait time on the 50 MHz clock. The clocked threads become methods of a class whose
  * fields are the signals and the FIFO; every read sees the value before the clock.
  * The combinational threads become functions of the registers. */
module EventQueueManager {
  import opened GenericIf

  /** The capacity of `event_queue`. */
  const Capacity := 32

  /** The queue is almost full from this many entries on. */
  const AlmostFullLevel := 16

  // ------------------------------------------------------------------ combinational signals

  /** `generate_run_pos_sig`: a rising edge of the synchronised run signal. */
  function RunPos(run: bool, runOld: bool): bool
  {
    run && !runOld
  }

  /** `generate_event_queue_read_sig`: one read right at the rising edge, one more a clock
    * later to fetch the following event, and one whenever an event is released. */
  function ReadRequest(runPosOld: bool, runPos: bool, finished: bool): bool
  {
    runPosOld || runPos || finished
  }

  /** `generate_counter_start`: the counter starts a clock after the rising edge and
    * whenever an event is released, but only while running and not in error. */
  function CounterStart(run: bool, errorState: bool, runPosOld: bool, finished: bool): bool
  {
    if !run || errorState then false else runPosOld || finished
  }

  /** Once in error, or once the run signal drops, no event is started any more. */
  lemma StoppedOrFailedNeverStarts(run: bool, errorState: bool, runPosOld: bool, finished: bool)
    ensures CounterStart(run, errorState, runPosOld, finished) ==> run && !errorState
    ensures CounterStart(run, errorState, runPosOld, finished) ==> ReadRequest(runPosOld, false, finished)
  {
  }

  // ------------------------------------------------------------------ the countdown

  /** `x - 2` in `unsigned int` arithmetic. */
  function Minus2(x: Uint32): Uint32
  {
    (x - 2) % Uint32Modulus
  }

  /** `x + 1` in `unsigned int` arithmetic. */
  function Plus1(x: Uint32): Uint32
  {
    (x + 1) % Uint32Modulus
  }

  /** The registers of `generate_count_finish_sig`. */
  datatype CounterRegs = CounterRegs(counter: Uint32, target: Uint32, running: bool, lastButOne: bool,
                                     finished: bool, next: QPipeInterface)

  /** One clock of `generate_count_finish_sig`, given the start signal and the event last
    * read from the queue. Reads see the registers before the clock, and of two writes to
    * one register the later one wins. The subtraction `target - 2` is unsigned. */
  function CounterStep(r: CounterRegs, start: bool, ev: QPipeInterface): CounterRegs
  {
    var w := ev.timing.waitTime;
    var counter: Uint32 :=
      if start then 1
      else if r.running then (if r.counter < r.target then Plus1(r.counter) else 0)
      else r.counter;
    var running := if start then true else r.running && r.counter < r.target;
    var lastButOne := (start && w == 2) || r.counter == Minus2(r.target);
    var finished := (r.running && r.lastButOne) || (start && w == 1);
    CounterRegs(counter, if start then w else r.target, running, lastButOne, finished,
                if start then ev else r.next)
  }

  /** The registers after `j` clocks without a start. */
  function Idle(r: CounterRegs, j: nat, ev: QPipeInterface): CounterRegs
  {
    if j == 0 then r else CounterStep(Idle(r, j - 1, ev), false, ev)
  }

  /** The countdown of an event with wait time `w` of at least 2: `j` clocks after the
    * start clock the counter holds `j + 1`, it is still running towards `w`, and the
    * event is released (`finished`) exactly `w - 1` clocks after the start. The clock
    * before the start must not itself have been a last-but-one count, which holds after
    * power-up and after every release. */
  lemma {:induction false} Countdown(r0: CounterRegs, ev: QPipeInterface, j: nat)
    requires r0.counter != Minus2(r0.target)
    requires 2 <= ev.timing.waitTime && j <= ev.timing.waitTime - 1
    ensures var s := Idle(CounterStep(r0, true, ev), j, ev);
      s.running && s.counter == j + 1 && s.target == ev.timing.waitTime && s.next == ev &&
      s.lastButOne == (j == ev.timing.waitTime - 2) &&
      (j >= 1 ==> (s.finished <==> j == ev.timing.waitTime - 1))
  {
    var w := ev.timing.waitTime;
    assert Minus2(w) == w - 2;
    if j > 0 {
      Countdown(r0, ev, j - 1);
      RunningStep(Idle(CounterStep(r0, true, ev), j - 1, ev), ev);
    }
  }

  /** A clock without a start while the counter is below its target. */
  lemma RunningStep(s: CounterRegs, ev: QPipeInterface)
    requires s.running && s.counter < s.target
    ensures var t := CounterStep(s, false, ev);
      t.running && t.counter == s.counter + 1 && t.target == s.target && t.next == s.next &&
      t.lastButOne == (s.counter == Minus2(s.target)) && t.finished == s.lastButOne
  {
  }

  /** After its release an event that is not followed by a new start stops the counter
    * and resets it to 0; an event with wait time 1 is released on its start clock. */
  lemma CountdownEnds(r0: CounterRegs, ev: QPipeInterface)
    requires r0.counter != Minus2(r0.target)
    ensures ev.timing.waitTime == 1 ==> CounterStep(r0, true, ev).finished
    ensures ev.timing.waitTime >= 2 ==>
      var s := Idle(CounterStep(r0, true, ev), ev.timing.waitTime, ev);
      !s.running && s.counter == 0
  {
    if ev.timing.waitTime >= 2 {
      Countdown(r0, ev, ev.timing.waitTime - 1);
    }
  }

  // ------------------------------------------------------------------ the module

  class EventQueueManager {
    /** `m_num_qubits`. */
    const numQubits: nat
    /** `event_queue`, front first. */
    var queue: seq<QPipeInterface>
    /** `out_eq_almostfull` and `eq_empty`. */
    var almostFull: bool
    var eqEmpty: bool
    /** `q_pipe_interface_sig`: the event last read from the queue. */
    var pending: QPipeInterface
    /** `i_error_state`. */
    var errorState: bool
    /** `i_run`, `i_run_old`, `i_run_pos`, `i_run_pos_old`. */
    var run: bool
    var runOld: bool
    var runPos: bool
    var runPosOld: bool
    /** `counter_start` and `event_queue_read_sig`. */
    var counterStart: bool
    var readSig: bool
    /** The registers of the countdown. */
    var counter: Uint32
    var target: Uint32
    var running: bool
    var lastButOne: bool
    var finished: bool
    var next: QPipeInterface
    /** The interface `do_output` keeps across clocks, and `out_q_pipe_interface`. */
    var held: QPipeInterface
    var out: QPipeInterface

    predicate Valid()
      reads this
    {
      |queue| <= Capacity
    }

    function Regs(): CounterRegs
      reads this
    {
      CounterRegs(counter, target, running, lastButOne, finished, next)
    }

    /** All signals start at their defaults and the queue is empty. */
    constructor (n: nat, init: QPipeInterface)
      ensures Valid() && numQubits == n && queue == [] && !errorState && !eqEmpty
      ensures Regs() == CounterRegs(0, 0, false, false, false, init)
    {
      numQubits := n;
      queue := [];
      almostFull, eqEmpty, errorState := false, false, false;
      pending := init;
      run, runOld, runPos, runPosOld := false, false, false, false;
      counterStart, readSig := false, false;
      counter, target := 0, 0;
      running, lastButOne, finished := false, false, false;
      next, held, out := init, init, init;
    }

    /** `write_fifo`: only interfaces that carry a wait are queued. */
    method WriteFifo(i: QPipeInterface)
      requires Valid() && (i.ifContent.validWait ==> |queue| < Capacity)
      modifies this`queue
      ensures Valid()
      ensures queue == if i.ifContent.validWait then old(queue) + [i] else old(queue)
    {
      if i.ifContent.validWait {
        queue := queue + [i];
      }
    }

    /** `read_fifo`: report whether the queue is almost full; on a read request take the
      * front event and report whether the queue has run empty. */
    method ReadFifo()
      requires Valid() && (readSig ==> queue != [])
      modifies this`almostFull, this`queue, this`pending, this`eqEmpty
      ensures Valid()
      ensures almostFull == (|old(queue)| >= AlmostFullLevel)
      ensures readSig ==> pending == old(queue)[0] && queue == old(queue)[1..] && eqEmpty == (queue == [])
      ensures !readSig ==> pending == old(pending) && queue == old(queue) && eqEmpty == old(eqEmpty)
    {
      almostFull := |queue| >= AlmostFullLevel;
      if readSig {
        pending := queue[0];
        queue := queue[1..];
        eqEmpty := queue == [];
      }
    }

    /** `counter_control`: running on an empty queue is an error, which is never
      * cleared; the run input is synchronised and its edge delayed by a clock. */
    method CounterControl(runIn: bool)
      modifies this`errorState, this`run, this`runOld, this`runPosOld
      ensures errorState == (old(errorState) || (old(run) && eqEmpty))
      ensures run == runIn && runOld == old(run) && runPosOld == old(runPos)
    {
      if run && eqEmpty {
        errorState := true;
      }
      var runVal := runIn;
      runOld := run;
      run := runVal;
      runPosOld := runPos;
    }

    /** The combinational threads, settled after a clock. */
    method Settle()
      modifies this`runPos, this`readSig, this`counterStart
      ensures runPos == RunPos(run, runOld)
      ensures readSig == ReadRequest(runPosOld, runPos, finished)
      ensures counterStart == CounterStart(run, errorState, runPosOld, finished)
    {
      runPos := run && !runOld;
      readSig := runPosOld || runPos || finished;
      if !run || errorState {
        counterStart := false;
      } else {
        counterStart := runPosOld || finished;
      }
    }

    /** `generate_count_finish_sig`, one clock. */
    method CountFinish()
      modifies this`counter, this`target, this`running, this`lastButOne, this`finished, this`next
      ensures Regs() == CounterStep(old(Regs()), counterStart, pending)
    {
      var ev := pending;
      var c, t, run0, lbo, fin, nx := counter, target, running, lastButOne, finished, next;
      if counterStart {
        nx := ev;
        t := ev.timing.waitTime;
      }
      if running {
        if counter < target {
          c := Plus1(counter);
        } else {
          run0 := false;
          c := 0;
        }
      }
      if counterStart {
        run0 := true;
        c := 1;
      }
      if counterStart && ev.timing.waitTime == 2 {
        lbo := true;
      } else if counter == Minus2(target) {
        lbo := true;
      } else {
        lbo := false;
      }
      if running && lastButOne {
        fin := true;
      } else if counterStart && ev.timing.waitTime == 1 {
        fin := true;
      } else {
        fin := false;
      }
      counter, target, running, lastButOne, finished, next := c, t, run0, lbo, fin, nx;
    }

    /** `do_output`: a released event is output; otherwise an emptied interface with
      * `numQubits` default operations. */
    method DoOutput()
      modifies this`held, this`out
      ensures finished ==> out == next
      ensures !finished ==> out == ResetInterface(old(held)).(ops := seq(numQubits, _ => DefaultQop))
      ensures held == out
    {
      var q := ResetInterface(held);
      if finished {
        q := next;
      } else {
        q := q.(ops := seq(numQubits, _ => DefaultQop));
      }
      out := q;
      held := q;
    }
  }
}
