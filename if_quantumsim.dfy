/** The scheduling side of the quantumsim interface,
  * src/3_qubit_sim/quantumsim/if_quantumsim.cpp: for every moment the converter hands
  * over, it looks up each operation's duration, inserts an idling gate on each target
  * qubit for the time since that qubit was last busy, applies the operation, and
  * records when each qubit's last gate started and how long it took. The simulator
  * itself is foreign code: what the thread asks of it is recorded as a list of calls. */
module IfQuantumSim {
  import opened Wrappers
  import opened GenericIf
  import opened AnalogDigitalConvert

  // ------------------------------------------------------------------ idle durations

  /** An `unsigned int` result of `int` arithmetic. */
  function Wrap(x: int): Uint32
  {
    x % Uint32Modulus
  }

  /** `get_idle_duration`: half the gate for the circuit's first moment; otherwise the
    * cycles since the circuit started (no earlier gate on the qubit, seen as a recorded
    * duration of 0) or since the earlier gate started, in nanoseconds, plus the
    * difference of the two half durations, all in `unsigned int`. */
  function IdleDuration(isFirstOp: bool, cycleTime: Uint32, startingCycle: Uint32, cur: Uint32,
                        currentCycle: Uint32, preStart: Uint32, pre: Uint32): Uint32
  {
    if isFirstOp then cur / 2
    else if pre == 0 then Wrap(Wrap(currentCycle - startingCycle) * cycleTime + cur / 2)
    else Wrap(Wrap(currentCycle - preStart) * cycleTime + Wrap(cur / 2 - pre / 2))
  }

  /** The middle of a gate that starts at `cycle` and lasts `d` nanoseconds, in
    * nanoseconds from cycle 0. */
  function Mid(cycle: int, d: Uint32, cycleTime: Uint32): int
  {
    cycle * cycleTime + d / 2
  }

  lemma WrapShift(x: int, k: int)
    ensures Wrap(x + k * Uint32Modulus) == Wrap(x)
  {
    var q := x / Uint32Modulus;
    var r := x % Uint32Modulus;
    assert x + k * Uint32Modulus == (q + k) * Uint32Modulus + r;
  }

  /** Wrapping a factor early does not change the wrapped result. */
  lemma WrapFactor(a: int, c: int, b: int)
    ensures Wrap(Wrap(a) * c + b) == Wrap(a * c + b)
  {
    var qa := a / Uint32Modulus;
    var w := Wrap(a);
    assert a == qa * Uint32Modulus + w;
    assert a * c == w * c + (qa * c) * Uint32Modulus;
    WrapShift(w * c + b, qa * c);
  }

  /** Wrapping a summand early does not change the wrapped result. */
  lemma WrapSummand(a: int, b: int)
    ensures Wrap(a + Wrap(b)) == Wrap(a + b)
  {
    var qb := b / Uint32Modulus;
    assert a + b == a + Wrap(b) + qb * Uint32Modulus;
    WrapShift(a + Wrap(b), qb);
  }

  lemma Distrib(a: int, b: int, c: int)
    ensures (a - b) * c == a * c - b * c
  {
  }

  /** With no earlier gate on the qubit the idle time is the distance from the start
    * of the circuit to the middle of the current gate, modulo 2^32. */
  lemma IdleSinceStart(cycleTime: Uint32, startingCycle: Uint32, cur: Uint32, currentCycle: Uint32, preStart: Uint32)
    ensures IdleDuration(false, cycleTime, startingCycle, cur, currentCycle, preStart, 0) ==
            Wrap(Mid(currentCycle, cur, cycleTime) - startingCycle * cycleTime)
  {
    WrapFactor(currentCycle - startingCycle, cycleTime, cur / 2);
    Distrib(currentCycle, startingCycle, cycleTime);
  }

  /** After an earlier gate on the qubit the idle time is the distance from the middle
    * of that gate to the middle of the current one, modulo 2^32; in the circuit's
    * first moment it is half the current gate. */
  lemma IdleIsMidpointGap(cycleTime: Uint32, startingCycle: Uint32, cur: Uint32,
                          currentCycle: Uint32, preStart: Uint32, pre: Uint32)
    requires pre != 0
    ensures IdleDuration(false, cycleTime, startingCycle, cur, currentCycle, preStart, pre) ==
            Wrap(Mid(currentCycle, cur, cycleTime) - Mid(preStart, pre, cycleTime))
    ensures IdleDuration(true, cycleTime, startingCycle, cur, currentCycle, preStart, pre) ==
            Mid(currentCycle, cur, cycleTime) - currentCycle * cycleTime
  {
    var h := cur / 2 - pre / 2;
    WrapFactor(currentCycle - preStart, cycleTime, Wrap(h));
    WrapSummand((currentCycle - preStart) * cycleTime, h);
    Distrib(currentCycle, preStart, cycleTime);
  }

  /** When the current gate's middle comes after the previous gate's middle by less
    * than 2^32 ns the idle time is exactly that gap, and an idling gate is inserted
    * iff the gap is positive; when it comes before, the difference wraps around to a
    * huge positive duration and an idling gate is inserted all the same. */
  lemma IdleGapOrWrap(cycleTime: Uint32, startingCycle: Uint32, cur: Uint32,
                      currentCycle: Uint32, preStart: Uint32, pre: Uint32)
    requires pre != 0
    ensures var gap := Mid(currentCycle, cur, cycleTime) - Mid(preStart, pre, cycleTime);
      var r := IdleDuration(false, cycleTime, startingCycle, cur, currentCycle, preStart, pre);
      (0 <= gap < Uint32Modulus ==> r == gap) &&
      (-Uint32Modulus < gap < 0 ==> r == Uint32Modulus + gap && r > 0)
  {
    IdleIsMidpointGap(cycleTime, startingCycle, cur, currentCycle, preStart, pre);
    var gap := Mid(currentCycle, cur, cycleTime) - Mid(preStart, pre, cycleTime);
    if -Uint32Modulus < gap < 0 {
      WrapShift(gap, 1);
    }
  }

  // ------------------------------------------------------------------ operation names

  /** In assembly mode a name that starts with `r`, `x`, `y` or `z` is looked up by its
    * first two characters when it is longer than two and its second character is `m`
    * or its first is `r`, and by its first character otherwise; every other name, and
    * every name in binary mode, is looked up whole. */
  function NamePrefix(isAsm: bool, name: string): string
  {
    if isAsm && |name| > 0 && name[0] in "rxyz" then
      if |name| > 2 && (name[1] == 'm' || name[0] == 'r') then name[..2] else name[..1]
    else name
  }

  /** The looked-up key is always a prefix of the name, and it is shorter only in
    * assembly mode for a name starting with `r`, `x`, `y` or `z`, where it keeps one
    * or two characters. */
  lemma NamePrefixMeaning(isAsm: bool, name: string)
    ensures var p := NamePrefix(isAsm, name);
      p <= name &&
      (p != name ==> isAsm && name[0] in "rxyz" && 1 <= |p| <= 2) &&
      (!isAsm ==> p == name)
  {
  }

  /** Rotations keep their axis (`rx90` is timed as `rx`), `x`, `y`, `z` gates and their
    * `xm`, `ym` variants are timed by the leading letters, a two-letter `ry` falls back to
    * `r`, and names like `cz` or `measure` are used whole. */
  lemma NamePrefixExamples(rx90: string, x90: string, ym90: string, ry: string, cz: string)
    requires rx90 == "rx90" && x90 == "x90" && ym90 == "ym90" && ry == "ry" && cz == "cz"
    ensures NamePrefix(true, rx90) == rx90[..2] && NamePrefix(true, x90) == x90[..1]
    ensures NamePrefix(true, ym90) == ym90[..2] && NamePrefix(true, ry) == ry[..1]
    ensures NamePrefix(true, cz) == cz && NamePrefix(false, rx90) == rx90
  {
  }

  // ------------------------------------------------------------------ simulator calls

  /** What the thread asks of the simulator, in order. */
  datatype SimCall =
    | IdleGate(duration: Uint32, qubit: nat)
    | SingleQubitGate(name: string, qubit: nat)
    | MeasureQubit(qubit: nat)
    | MockMeasure
    | TwoQubitGate(qubit0: nat, qubit1: nat)

  /** The thread's configuration: the instruction type, `cycle_time` (20 ns unless
    * configured) and `operation_time`, the single- and two-qubit gate times. */
  datatype SimConfig = SimConfig(isAsm: bool, cycleTime: Uint32, operationTime: map<string, Uint32>)

  /** The thread's state: `is_1st_op`, `starting_cycle`, `last_gate_durations`,
    * `pre_gate_start_point`, and the calls made so far. */
  datatype SimState = SimState(isFirstOp: bool, startingCycle: Uint32, durations: seq<Uint32>,
                               starts: seq<Uint32>, calls: seq<SimCall>)

  predicate Fits(s: SimState, numQubits: nat)
  {
    |s.durations| == numQubits && |s.starts| == numQubits
  }

  /** Every target of an operation names a qubit. */
  predicate InRange(targets: seq<nat>, numQubits: nat)
  {
    forall i :: 0 <= i < |targets| ==> targets[i] < numQubits
  }

  predicate TargetsInRange(ops: seq<AtomQop>, numQubits: nat)
  {
    forall k :: 0 <= k < |ops| ==> InRange(ops[k].targets, numQubits)
  }

  /** Every idling gate asked for has a positive duration. */
  predicate IdlesPositive(calls: seq<SimCall>)
  {
    forall c :: c in calls && c.IdleGate? ==> c.duration > 0
  }

  /** The duration of an operation, or the abort: more than two targets, or a name
    * whose prefix has no gate time. */
  function OpTime(cfg: SimConfig, op: AtomQop): Result<Uint32, string>
  {
    if |op.targets| > 2 then Failure("too many targets")
    else
      var p := NamePrefix(cfg.isAsm, op.operation);
      if p in cfg.operationTime then Success(cfg.operationTime[p]) else Failure("undefined operation")
  }

  /** The calls after the idling gates of targets `i` on are added. */
  function IdlesFrom(cfg: SimConfig, s: SimState, current: Uint32, cur: Uint32, targets: seq<nat>,
                     i: nat, calls: seq<SimCall>): seq<SimCall>
    requires Fits(s, |s.durations|) && i <= |targets|
    requires InRange(targets, |s.durations|)
    decreases |targets| - i
  {
    if i == |targets| then calls
    else
      var q := targets[i];
      var d := IdleDuration(s.isFirstOp, cfg.cycleTime, s.startingCycle, cur, current, s.starts[q], s.durations[q]);
      IdlesFrom(cfg, s, current, cur, targets, i + 1, if d > 0 then calls + [IdleGate(d, q)] else calls)
  }

  /** The call applying an operation with one or two targets: a measurement, a mock
    * measurement (made once, for qubit 0), a named single-qubit gate, or a two-qubit
    * gate, which the source passes on without its name. */
  function Apply(op: AtomQop): seq<SimCall>
    requires 1 <= |op.targets| <= 2
  {
    if |op.targets| == 1 then
      var q := op.targets[0];
      if op.operation == "measure" then [MeasureQubit(q)]
      else if op.operation == "mock_meas" then (if q == 0 then [MockMeasure] else [])
      else [SingleQubitGate(op.operation, q)]
    else [TwoQubitGate(op.targets[0], op.targets[1])]
  }

  /** `v` recorded for each of one or two targets. */
  function Record(xs: seq<Uint32>, targets: seq<nat>, v: Uint32): (r: seq<Uint32>)
    requires |targets| <= 2 && InRange(targets, |xs|)
    ensures |r| == |xs|
    ensures forall q :: 0 <= q < |xs| ==> r[q] == if q in targets then v else xs[q]
  {
    if |targets| == 0 then xs
    else if |targets| == 1 then xs[targets[0] := v]
    else xs[targets[0] := v][targets[1] := v]
  }

  /** One operation: the idling gates, the operation, and the bookkeeping of its
    * targets; or the abort. */
  function OpStep(cfg: SimConfig, s: SimState, current: Uint32, op: AtomQop): (r: Result<SimState, string>)
    requires Fits(s, |s.durations|) && InRange(op.targets, |s.durations|)
    ensures r.Success? ==> Fits(r.value, |s.durations|) && r.value.isFirstOp == s.isFirstOp &&
                           r.value.startingCycle == s.startingCycle
  {
    match OpTime(cfg, op)
    case Failure(e) => Failure(e)
    case Success(d) =>
      var idles := IdlesFrom(cfg, s, current, d, op.targets, 0, s.calls);
      Success(s.(calls := if op.targets == [] then idles else idles + Apply(op),
                 starts := Record(s.starts, op.targets, current),
                 durations := Record(s.durations, op.targets, d)))
  }

  /** The state after operations `k` on of a moment, or the first abort. */
  function MomentFrom(cfg: SimConfig, s: SimState, current: Uint32, ops: seq<AtomQop>, k: nat): (r: Result<SimState, string>)
    requires Fits(s, |s.durations|) && k <= |ops| && TargetsInRange(ops, |s.durations|)
    ensures r.Success? ==> Fits(r.value, |s.durations|) && r.value.isFirstOp == s.isFirstOp &&
                           r.value.startingCycle == s.startingCycle
    decreases |ops| - k
  {
    if k == |ops| then Success(s)
    else match OpStep(cfg, s, current, ops[k])
      case Failure(e) => Failure(e)
      case Success(t) => MomentFrom(cfg, t, current, ops, k + 1)
  }

  lemma MomentFromStep(cfg: SimConfig, s: SimState, current: Uint32, ops: seq<AtomQop>, k: nat)
    requires Fits(s, |s.durations|) && k < |ops| && TargetsInRange(ops, |s.durations|)
    requires OpStep(cfg, s, current, ops[k]).Success?
    ensures MomentFrom(cfg, s, current, ops, k) == MomentFrom(cfg, OpStep(cfg, s, current, ops[k]).value, current, ops, k + 1)
  {
  }

  /** The state at the start of a triggered moment: the first one fixes the circuit's
    * starting cycle. */
  function Begin(s: SimState, current: Uint32): SimState
  {
    if s.isFirstOp then s.(startingCycle := current) else s
  }

  /** One iteration of `apply_quantum_operation`: a moment without operations changes
    * nothing; otherwise its operations are applied at its cycle (an `unsigned int`)
    * and the circuit is no longer at its first operation. */
  function Moment(cfg: SimConfig, s: SimState, m: Ops2Qsim): (r: Result<SimState, string>)
    requires Fits(s, |s.durations|) && TargetsInRange(m.atomOps, |s.durations|)
    ensures r.Success? ==> Fits(r.value, |s.durations|)
    ensures r.Success? && m.triggered ==> !r.value.isFirstOp
    ensures r.Success? && m.triggered ==>
      r.value.startingCycle == if s.isFirstOp then m.cycle % Uint32Modulus else s.startingCycle
    ensures !m.triggered ==> r == Success(s)
  {
    if !m.triggered then Success(s)
    else
      var current := m.cycle % Uint32Modulus;
      match MomentFrom(cfg, Begin(s, current), current, m.atomOps, 0)
      case Failure(e) => Failure(e)
      case Success(t) => Success(t.(isFirstOp := false))
  }

  // ------------------------------------------------------------------ properties

  /** Some operation at `k` or later aborts. */
  predicate AbortsFrom(cfg: SimConfig, ops: seq<AtomQop>, k: nat)
  {
    exists j :: k <= j < |ops| && OpTime(cfg, ops[j]).Failure?
  }

  lemma {:induction false} MomentFromAborts(cfg: SimConfig, s: SimState, current: Uint32, ops: seq<AtomQop>, k: nat)
    requires Fits(s, |s.durations|) && k <= |ops| && TargetsInRange(ops, |s.durations|)
    ensures MomentFrom(cfg, s, current, ops, k).Failure? <==> AbortsFrom(cfg, ops, k)
    decreases |ops| - k
  {
    if k < |ops| {
      match OpStep(cfg, s, current, ops[k])
      case Failure(_) =>
        assert OpTime(cfg, ops[k]).Failure?;
      case Success(t) =>
        MomentFromAborts(cfg, t, current, ops, k + 1);
        assert AbortsFrom(cfg, ops, k) <==> AbortsFrom(cfg, ops, k + 1) by {
          if AbortsFrom(cfg, ops, k) {
            var j :| k <= j < |ops| && OpTime(cfg, ops[j]).Failure?;
            assert j != k;
          }
        }
    }
  }

  /** A moment aborts iff it carries an operation with more than two targets or one
    * whose name has no gate time. */
  lemma MomentAborts(cfg: SimConfig, s: SimState, m: Ops2Qsim)
    requires Fits(s, |s.durations|) && TargetsInRange(m.atomOps, |s.durations|)
    ensures Moment(cfg, s, m).Failure? <==> m.triggered && AbortsFrom(cfg, m.atomOps, 0)
  {
    if m.triggered {
      var current := m.cycle % Uint32Modulus;
      MomentFromAborts(cfg, Begin(s, current), current, m.atomOps, 0);
    }
  }

  lemma {:induction false} IdlesFromPositive(cfg: SimConfig, s: SimState, current: Uint32, cur: Uint32,
                                             targets: seq<nat>, i: nat, calls: seq<SimCall>)
    requires Fits(s, |s.durations|) && i <= |targets|
    requires InRange(targets, |s.durations|)
    requires IdlesPositive(calls)
    ensures IdlesPositive(IdlesFrom(cfg, s, current, cur, targets, i, calls))
    decreases |targets| - i
  {
    if i < |targets| {
      var q := targets[i];
      var d := IdleDuration(s.isFirstOp, cfg.cycleTime, s.startingCycle, cur, current, s.starts[q], s.durations[q]);
      var next := if d > 0 then calls + [IdleGate(d, q)] else calls;
      assert IdlesPositive(next);
      IdlesFromPositive(cfg, s, current, cur, targets, i + 1, next);
    }
  }

  lemma {:induction false} MomentFromPositive(cfg: SimConfig, s: SimState, current: Uint32, ops: seq<AtomQop>, k: nat)
    requires Fits(s, |s.durations|) && k <= |ops| && TargetsInRange(ops, |s.durations|)
    requires IdlesPositive(s.calls)
    ensures MomentFrom(cfg, s, current, ops, k).Success? ==> IdlesPositive(MomentFrom(cfg, s, current, ops, k).value.calls)
    decreases |ops| - k
  {
    if k < |ops| {
      var op := ops[k];
      match OpTime(cfg, op)
      case Failure(_) =>
      case Success(d) =>
        IdlesFromPositive(cfg, s, current, d, op.targets, 0, s.calls);
        var t := OpStep(cfg, s, current, op).value;
        MomentFromPositive(cfg, t, current, ops, k + 1);
    }
  }

  /** An idling gate is only ever asked for with a positive duration. */
  lemma IdlesArePositive(cfg: SimConfig, s: SimState, m: Ops2Qsim)
    requires Fits(s, |s.durations|) && TargetsInRange(m.atomOps, |s.durations|) && IdlesPositive(s.calls)
    ensures Moment(cfg, s, m).Success? ==> IdlesPositive(Moment(cfg, s, m).value.calls)
  {
    if m.triggered {
      var current := m.cycle % Uint32Modulus;
      MomentFromPositive(cfg, Begin(s, current), current, m.atomOps, 0);
    }
  }

  /** Some operation at `k` or later targets `q`. */
  predicate TargetedFrom(ops: seq<AtomQop>, q: nat, k: nat)
  {
    exists j :: k <= j < |ops| && q in ops[j].targets
  }

  /** Operation `j` is the last one at `k` or later that targets `q`. */
  predicate LastTargeting(ops: seq<AtomQop>, q: nat, j: int)
  {
    0 <= j < |ops| && q in ops[j].targets && forall i :: j < i < |ops| ==> q !in ops[i].targets
  }

  lemma {:induction false} MomentFromStarts(cfg: SimConfig, s: SimState, current: Uint32, ops: seq<AtomQop>, k: nat, q: nat)
    requires Fits(s, |s.durations|) && k <= |ops| && TargetsInRange(ops, |s.durations|) && q < |s.starts|
    ensures MomentFrom(cfg, s, current, ops, k).Success? ==>
      MomentFrom(cfg, s, current, ops, k).value.starts[q] == if TargetedFrom(ops, q, k) then current else s.starts[q]
    decreases |ops| - k
  {
    if k < |ops| && OpStep(cfg, s, current, ops[k]).Success? {
      var t := OpStep(cfg, s, current, ops[k]).value;
      MomentFromStarts(cfg, t, current, ops, k + 1, q);
      if q in ops[k].targets {
        assert t.starts[q] == current;
      } else if TargetedFrom(ops, q, k) {
        var j :| k <= j < |ops| && q in ops[j].targets;
        assert TargetedFrom(ops, q, k + 1);
      }
    }
  }

  lemma {:induction false} MomentFromDurations(cfg: SimConfig, s: SimState, current: Uint32, ops: seq<AtomQop>, k: nat, q: nat)
    requires Fits(s, |s.durations|) && k <= |ops| && TargetsInRange(ops, |s.durations|) && q < |s.durations|
    ensures var r := MomentFrom(cfg, s, current, ops, k);
      r.Success? ==>
        (!TargetedFrom(ops, q, k) ==> r.value.durations[q] == s.durations[q]) &&
        (forall j :: k <= j && LastTargeting(ops, q, j) ==> OpTime(cfg, ops[j]) == Success(r.value.durations[q]))
    decreases |ops| - k
  {
    if k < |ops| && OpStep(cfg, s, current, ops[k]).Success? {
      var t := OpStep(cfg, s, current, ops[k]).value;
      MomentFromDurations(cfg, t, current, ops, k + 1, q);
      var r := MomentFrom(cfg, t, current, ops, k + 1);
      if r.Success? {
        if !TargetedFrom(ops, q, k + 1) {
          if q in ops[k].targets {
            assert OpTime(cfg, ops[k]) == Success(t.durations[q]);
          }
        } else {
          var i :| k + 1 <= i < |ops| && q in ops[i].targets;
        }
        if !TargetedFrom(ops, q, k) {
          assert q !in ops[k].targets;
        }
      }
    }
  }

  /** The bookkeeping after a moment: a qubit the moment targets has its gate start at
    * the moment's cycle and its duration from the last operation on it; every other
    * qubit keeps both. */
  lemma Bookkeeping(cfg: SimConfig, s: SimState, m: Ops2Qsim, q: nat)
    requires Fits(s, |s.durations|) && TargetsInRange(m.atomOps, |s.durations|) && q < |s.durations|
    requires m.triggered && Moment(cfg, s, m).Success?
    ensures var t := Moment(cfg, s, m).value;
      (TargetedFrom(m.atomOps, q, 0) ==> t.starts[q] == m.cycle % Uint32Modulus) &&
      (!TargetedFrom(m.atomOps, q, 0) ==> t.starts[q] == s.starts[q] && t.durations[q] == s.durations[q]) &&
      (forall j :: LastTargeting(m.atomOps, q, j) ==> OpTime(cfg, m.atomOps[j]) == Success(t.durations[q]))
  {
    var current := m.cycle % Uint32Modulus;
    MomentFromStarts(cfg, Begin(s, current), current, m.atomOps, 0, q);
    MomentFromDurations(cfg, Begin(s, current), current, m.atomOps, 0, q);
  }

  // ------------------------------------------------------------------ the thread

  /** The state `apply_quantum_operation` keeps across moments. */
  class QuantumSimThread {
    const numQubits: nat
    const isAsm: bool
    const cycleTime: Uint32
    const operationTime: map<string, Uint32>
    var isFirstOp: bool
    var startingCycle: Uint32
    var lastGateDurations: seq<Uint32>
    var preGateStartPoint: seq<Uint32>
    var calls: seq<SimCall>

    predicate Valid()
      reads this
    {
      |lastGateDurations| == numQubits && |preGateStartPoint| == numQubits
    }

    function Config(): SimConfig
      reads this
    {
      SimConfig(isAsm, cycleTime, operationTime)
    }

    function State(): SimState
      reads this
    {
      SimState(isFirstOp, startingCycle, lastGateDurations, preGateStartPoint, calls)
    }

    /** Before the first moment: first operation pending, and no qubit has had a gate. */
    constructor (n: nat, asm: bool, ct: Uint32, times: map<string, Uint32>)
      ensures Valid() && numQubits == n && Config() == SimConfig(asm, ct, times)
      ensures isFirstOp && startingCycle == 0 && calls == []
      ensures forall q :: 0 <= q < n ==> lastGateDurations[q] == 0 && preGateStartPoint[q] == 0
    {
      numQubits, isAsm, cycleTime, operationTime := n, asm, ct, times;
      isFirstOp, startingCycle, calls := true, 0, [];
      lastGateDurations := seq(n, _ => 0);
      preGateStartPoint := seq(n, _ => 0);
    }

    /** The idling gates in front of one operation, one per target with a positive idle. */
    method Idles(current: Uint32, cur: Uint32, targets: seq<nat>)
      requires Valid() && InRange(targets, numQubits)
      modifies this
      ensures Valid() && State() == old(State()).(calls := IdlesFrom(Config(), old(State()), current, cur, targets, 0, old(calls)))
    {
      ghost var s := State();
      var i := 0;
      while i < |targets|
        invariant i <= |targets| && State() == s.(calls := calls)
        invariant IdlesFrom(Config(), s, current, cur, targets, i, calls) == IdlesFrom(Config(), s, current, cur, targets, 0, s.calls)
      {
        var q := targets[i];
        var d := IdleDuration(isFirstOp, cycleTime, startingCycle, cur, current, preGateStartPoint[q], lastGateDurations[q]);
        if d > 0 {
          calls := calls + [IdleGate(d, q)];
        }
        i := i + 1;
      }
    }

    /** The call that applies an operation with one or two targets. */
    method ApplyGate(op: AtomQop)
      requires 1 <= |op.targets| <= 2
      modifies this
      ensures calls == old(calls) + Apply(op)
      ensures isFirstOp == old(isFirstOp) && startingCycle == old(startingCycle)
      ensures lastGateDurations == old(lastGateDurations) && preGateStartPoint == old(preGateStartPoint)
    {
      if |op.targets| == 1 {
        var q := op.targets[0];
        if op.operation == "measure" {
          calls := calls + [MeasureQubit(q)];
        } else if op.operation == "mock_meas" {
          if q == 0 {
            calls := calls + [MockMeasure];
          }
        } else {
          calls := calls + [SingleQubitGate(op.operation, q)];
        }
      } else {
        calls := calls + [TwoQubitGate(op.targets[0], op.targets[1])];
      }
    }

    /** One operation of a moment at cycle `current`, or the abort. */
    method ApplyOp(current: Uint32, op: AtomQop) returns (r: Result<(), string>)
      requires Valid() && InRange(op.targets, numQubits)
      modifies this
      ensures Valid() && isFirstOp == old(isFirstOp) && startingCycle == old(startingCycle)
      ensures r.Success? <==> OpStep(Config(), old(State()), current, op).Success?
      ensures r.Success? ==> State() == OpStep(Config(), old(State()), current, op).value
    {
      if |op.targets| > 2 {
        return Failure("too many targets");
      }
      var prefix := NamePrefix(isAsm, op.operation);
      if prefix !in operationTime {
        return Failure("undefined operation");
      }
      var d := operationTime[prefix];
      Idles(current, d, op.targets);
      if op.targets != [] {
        ApplyGate(op);
      }
      preGateStartPoint := Record(preGateStartPoint, op.targets, current);
      lastGateDurations := Record(lastGateDurations, op.targets, d);
      r := Success(());
    }

    /** The operations of a moment, in order, at cycle `current`; the first abort stops
      * the thread. */
    method ApplyOps(current: Uint32, ops: seq<AtomQop>) returns (r: Result<(), string>)
      requires Valid() && TargetsInRange(ops, numQubits)
      modifies this
      ensures Valid()
      ensures r.Success? <==> MomentFrom(Config(), old(State()), current, ops, 0).Success?
      ensures r.Success? ==> State() == MomentFrom(Config(), old(State()), current, ops, 0).value
    {
      ghost var s0 := State();
      var k := 0;
      while k < |ops|
        invariant k <= |ops| && Valid()
        invariant MomentFrom(Config(), State(), current, ops, k) == MomentFrom(Config(), s0, current, ops, 0)
      {
        ghost var before := State();
        r := ApplyOp(current, ops[k]);
        if r.Failure? {
          return;
        }
        MomentFromStep(Config(), before, current, ops, k);
        k := k + 1;
      }
      r := Success(());
    }

    /** One iteration of the thread's loop on the moment the converter hands over. */
    method ApplyMoment(m: Ops2Qsim) returns (r: Result<(), string>)
      requires Valid() && TargetsInRange(m.atomOps, numQubits)
      modifies this
      ensures Valid()
      ensures r.Success? <==> Moment(Config(), old(State()), m).Success?
      ensures r.Success? ==> State() == Moment(Config(), old(State()), m).value
    {
      if !m.triggered {
        return Success(());
      }
      var current := m.cycle % Uint32Modulus;
      if isFirstOp {
        startingCycle := current;
      }
      r := ApplyOps(current, m.atomOps);
      if r.Success? {
        isFirstOp := false;
      }
    }
  }
}
