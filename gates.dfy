/** The symbolic gate-expression algebra of demo/bin/gates.py.
  * An expression is its text `_s` plus a flag saying whether it may be called.
  * Every operation builds a new expression with `type(self)()` and appends text;
  * the receiver is a value here, so it is never changed. */
module Gates {
  import opened Wrappers

  /** The Python class of an expression: `_GateNotInput` or its subclass `_CONTROL`. */
  datatype GateClass = NotInput | Control

  datatype Expr = Expr(s: string, callable: bool, cls: GateClass)

  /** The argument of a call, carrying the text `str()` gives for it. */
  datatype Arg =
    | Number(repr: string)     // an int, float or complex
    | GateArg(e: Expr)         // an instance of `_GateNotInput` (or `_CONTROL`)
    | OtherArg(repr: string)   // anything else

  datatype GateError = ValueError | TypeError

  function ArgStr(a: Arg): string
  {
    match a
    case Number(r) => r
    case GateArg(e) => e.s
    case OtherArg(r) => r
  }

  /** `type(self)()` followed by `r._s = text`: never callable, same class. */
  function Derived(x: Expr, text: string): Expr
  {
    Expr(text, false, x.cls)
  }

  function Dot(x: Expr, other: string): Expr
  {
    Derived(x, x.s + ".dot(" + other + ")")
  }

  function T(x: Expr): Expr
  {
    Derived(x, x.s + ".T")
  }

  function H(x: Expr): Expr
  {
    Derived(x, x.s + ".T.conj()")
  }

  function Conj(x: Expr): Expr
  {
    Derived(x, x.s + ".conj()")
  }

  /** `x(arg)`: `_GateNotInput.__call__` accepts numbers, `_CONTROL.__call__` accepts
    * gate expressions; both refuse when the expression is not callable. */
  function Call(x: Expr, arg: Arg): (r: Result<Expr, GateError>)
    ensures r.Success? <==> x.callable && Accepts(x.cls, arg)
    ensures !x.callable ==> r == Failure(ValueError)
    ensures x.callable && !Accepts(x.cls, arg) ==> r == Failure(TypeError)
    ensures r.Success? ==> r.value.s == x.s + "(" + ArgStr(arg) + ")" && !r.value.callable
    ensures r.Success? ==> r.value.cls == x.cls
  {
    if !x.callable then Failure(ValueError)
    else if !Accepts(x.cls, arg) then Failure(TypeError)
    else Success(Derived(x, x.s + "(" + ArgStr(arg) + ")"))
  }

  /** The `isinstance` test of each `__call__`. */
  predicate Accepts(cls: GateClass, arg: Arg)
  {
    match cls
    case NotInput => arg.Number?
    case Control => arg.GateArg?
  }

  function Str(x: Expr): string { x.s }

  /** The module-level constants. */
  const X := Expr("X", false, NotInput)
  const Y := Expr("Y", false, NotInput)
  const Z := Expr("Z", false, NotInput)
  const HGate := Expr("H", false, NotInput)
  const S := Expr("S", false, NotInput)
  const R := Expr("R", true, NotInput)
  const ROTATION := Expr("ROTATION", true, NotInput)
  const Rx := Expr("Rx", true, NotInput)
  const Ry := Expr("Ry", true, NotInput)
  const Rz := Expr("Rz", true, NotInput)
  const Xh := Expr("Xh", false, NotInput)
  const Yh := Expr("Yh", false, NotInput)
  const TGate := Expr("T", false, NotInput)
  const CZ := Expr("CZ", false, NotInput)
  const CNOT := Expr("CNOT", false, NotInput)
  const SWAP := Expr("SWAP", false, NotInput)
  const CONTROL := Expr("CONTROL", true, Control)
  const CONTROLCONTROL := Expr("CONTROLCONTROL", true, Control)
  const TOFFOLI := Expr("TOFFOLI", false, NotInput)

  const Constants: seq<Expr> :=
    [X, Y, Z, HGate, S, R, ROTATION, Rx, Ry, Rz, Xh, Yh, TGate, CZ, CNOT, SWAP,
     CONTROL, CONTROLCONTROL, TOFFOLI]

  /** A postfix operation that cannot fail. */
  datatype Postfix = DotBy(other: string) | Transpose | Adjoint | Conjugate

  function Suffix(p: Postfix): string
  {
    match p
    case DotBy(o) => ".dot(" + o + ")"
    case Transpose => ".T"
    case Adjoint => ".T.conj()"
    case Conjugate => ".conj()"
  }

  function ApplyOne(x: Expr, p: Postfix): Expr
  {
    match p
    case DotBy(o) => Dot(x, o)
    case Transpose => T(x)
    case Adjoint => H(x)
    case Conjugate => Conj(x)
  }

  /** Applies the postfix operations left to right: `x.T.conj().dot(y)` and so on. */
  function Apply(x: Expr, ps: seq<Postfix>): Expr
    decreases |ps|
  {
    if ps == [] then x else Apply(ApplyOne(x, ps[0]), ps[1..])
  }

  function Suffixes(ps: seq<Postfix>): string
  {
    if ps == [] then "" else Suffix(ps[0]) + Suffixes(ps[1..])
  }

  /** `str(x.H) == str(x.T.conj())` for every expression. */
  lemma AdjointIsTransposeConj(x: Expr)
    ensures Str(H(x)) == Str(Conj(T(x)))
    ensures H(x) == Conj(T(x))
  {
  }

  /** Transposition does not cancel: `x.T.T` prints as `x` followed by `.T.T`. */
  lemma TransposeTwice(x: Expr)
    ensures Str(T(T(x))) == Str(x) + ".T.T"
    ensures T(T(x)) != x
  {
    assert |Str(T(T(x)))| == |Str(x)| + 4;
  }

  lemma ApplyOneAppends(x: Expr, p: Postfix)
    ensures ApplyOne(x, p).s == x.s + Suffix(p)
    ensures ApplyOne(x, p).cls == x.cls && !ApplyOne(x, p).callable
  {
    match p
    case DotBy(o) =>
    case Transpose =>
    case Adjoint =>
    case Conjugate =>
  }

  /** A chain of postfix operations only appends text, keeps the class, and
    * leaves a non-callable expression unless the chain is empty. */
  lemma ApplyAppends(x: Expr, ps: seq<Postfix>)
    ensures Apply(x, ps).s == x.s + Suffixes(ps)
    ensures Apply(x, ps).cls == x.cls
    ensures ps != [] ==> !Apply(x, ps).callable
  {
    ApplyText(x, ps);
    ApplyKeepsClass(x, ps);
  }

  lemma {:induction false} ApplyText(x: Expr, ps: seq<Postfix>)
    ensures Apply(x, ps).s == x.s + Suffixes(ps)
    decreases |ps|
  {
    if ps != [] {
      var y := ApplyOne(x, ps[0]);
      ApplyText(y, ps[1..]);
      ApplyOneAppends(x, ps[0]);
      assert Apply(x, ps) == Apply(y, ps[1..]);
      assert Suffixes(ps) == Suffix(ps[0]) + Suffixes(ps[1..]);
      assert (x.s + Suffix(ps[0])) + Suffixes(ps[1..]) == x.s + (Suffix(ps[0]) + Suffixes(ps[1..]));
    }
  }

  lemma {:induction false} ApplyKeepsClass(x: Expr, ps: seq<Postfix>)
    ensures Apply(x, ps).cls == x.cls
    ensures ps != [] ==> !Apply(x, ps).callable
    decreases |ps|
  {
    if ps != [] {
      var y := ApplyOne(x, ps[0]);
      ApplyKeepsClass(y, ps[1..]);
      ApplyOneAppends(x, ps[0]);
      assert Apply(x, ps) == Apply(y, ps[1..]);
    }
  }

  /** Every derived expression refuses a call: `Rx(0.5)(1)` and `Rx.T(1)` raise ValueError. */
  lemma DerivedNotCallable(x: Expr, ps: seq<Postfix>, a: Arg, b: Arg)
    ensures ps != [] ==> Call(Apply(x, ps), b) == Failure(ValueError)
    ensures Call(x, a).Success? ==> Call(Call(x, a).value, b) == Failure(ValueError)
  {
    ApplyAppends(x, ps);
  }

  /** The receiver's text is a prefix of every expression derived from it. */
  lemma ReceiverTextKept(x: Expr, ps: seq<Postfix>)
    ensures |x.s| <= |Apply(x, ps).s| && Apply(x, ps).s[..|x.s|] == x.s
  {
    ApplyAppends(x, ps);
  }

  /** Names of the constants that define `__call__`. */
  const CallableNames: set<string> := {"R", "ROTATION", "Rx", "Ry", "Rz", "CONTROL", "CONTROLCONTROL"}

  /** R, ROTATION, Rx, Ry, Rz, CONTROL and CONTROLCONTROL are the only callable constants. */
  lemma CallableConstants()
    ensures forall k :: 0 <= k < |Constants| ==> (Constants[k].callable <==> Constants[k].s in CallableNames)
  {
    forall k | 0 <= k < |Constants|
      ensures Constants[k].callable <==> Constants[k].s in CallableNames
    {
      if k < 10 {
        assert k in {0, 1, 2, 3, 4, 5, 6, 7, 8, 9};
      } else {
        assert k in {10, 11, 12, 13, 14, 15, 16, 17, 18};
      }
    }
  }

  /** Every constant of the control class is callable. */
  lemma ControlConstantsCallable()
    ensures forall k :: 0 <= k < |Constants| && Constants[k].cls == Control ==> Constants[k].callable
  {
    forall k | 0 <= k < |Constants| && Constants[k].cls == Control
      ensures Constants[k].callable
    {
      assert k == 16 || k == 17 || k < 16 || k > 17;
    }
  }
}
