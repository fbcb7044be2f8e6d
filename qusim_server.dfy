/** The circuit container of demo/bin/qusim_server.py: immutable node values
  * (`_Gate`, `_Observer`, `_ClassicalObserver`), the fixed-length initial state
  * `QState`, the ordered node container `_Network` / `QuantumCircuit`, and the
  * URL and HTTP-status decision table of `QuantumCircuit.run`. */
module QusimServer {
  import opened Wrappers
  import Gates
  import Text

  /** The Python exceptions the container raises. */
  datatype PyError =
    | TypeError
    | AttributeError
    | IndexError
    | ValueError(info: string)
    | NotKeyError(info: string)
    | SystemError(info: string)
    | RequestError(message: Option<string>)

  /** A node key: `None`, an int, or a tuple of ints. */
  datatype Key = NoKey | IntKey(i: int) | TupleKey(items: seq<int>)

  /** A node operation: `None`, a gate expression of the gates module, or a plain name
    * (the operation names the C++ simulator hands over are strings). */
  datatype Op = NoOp | GateOp(e: Gates.Expr) | NameOp(name: string)

  /** `auto_reset` is an int by default and `True` when the simulator adds a measurement. */
  datatype Flag = IntFlag(i: int) | BoolFlag(b: bool)

  datatype Node =
    | Gate(key: Key, op: Op)
    | Observer(key: Key, autoReset: Flag, keep: int)
    | ClassicalObserver(sites: seq<int>, opname: string, name: Option<string>)

  /** The `distance` argument of `shift`. */
  datatype Distance = IntDistance(d: int) | NotInt

  // ---------------------------------------------------------------- text forms

  function Ints(xs: seq<int>): seq<string>
  {
    if xs == [] then [] else [Text.IntToString(xs[0])] + Ints(xs[1..])
  }

  /** Python's `str` of a tuple of ints: `(1, 2)`, and `(1,)` for one element. */
  function TupleStr(xs: seq<int>): string
  {
    if |xs| == 1 then "(" + Text.IntToString(xs[0]) + ",)" else "(" + Text.Join(Ints(xs), ", ") + ")"
  }

  function KeyStr(k: Key): string
  {
    match k
    case NoKey => "None"
    case IntKey(i) => Text.IntToString(i)
    case TupleKey(xs) => TupleStr(xs)
  }

  function OpStr(op: Op): string
  {
    match op
    case NoOp => "None"
    case GateOp(e) => Gates.Str(e)
    case NameOp(n) => n
  }

  function FlagStr(f: Flag): string
  {
    match f
    case IntFlag(i) => Text.IntToString(i)
    case BoolFlag(b) => if b then "True" else "False"
  }

  /** `str(node)`; the classical observer prints its name as a bytes literal. */
  function NodeStr(n: Node): string
  {
    match n
    case Gate(k, op) => "Gate(" + KeyStr(k) + ", " + OpStr(op) + ")"
    case Observer(k, a, keep) => "Observer(" + KeyStr(k) + ", " + FlagStr(a) + ", " + Text.IntToString(keep) + ")"
    case ClassicalObserver(sites, opname, name) =>
      if name.None? then "ClassicalObserver(" + TupleStr(sites) + ", b'" + opname + "')"
      else "ClassicalObserver(" + TupleStr(sites) + ", b'" + opname + "', " + name.value + ")"
  }

  // ---------------------------------------------------------------- node operations

  function ShiftAll(xs: seq<int>, d: int): (r: seq<int>)
    ensures |r| == |xs| && forall i :: 0 <= i < |xs| ==> r[i] == xs[i] + d
  {
    if xs == [] then [] else [xs[0] + d] + ShiftAll(xs[1..], d)
  }

  /** `_Gate.shift`'s key rule: an int key moves by `d`, anything else is iterated. */
  function ShiftKey(k: Key, d: int): Result<Key, PyError>
  {
    match k
    case IntKey(i) => Success(IntKey(i + d))
    case TupleKey(xs) => Success(TupleKey(ShiftAll(xs, d)))
    case NoKey => Failure(TypeError)
  }

  /** `node.shift(distance)`. */
  function Shift(n: Node, dist: Distance): (r: Result<Node, PyError>)
    ensures dist.NotInt? ==> r == Failure(TypeError)
    ensures dist.IntDistance? && n.Gate? && n.key.IntKey? ==>
      r == Success(Gate(IntKey(n.key.i + dist.d), n.op))
    ensures dist.IntDistance? && n.Gate? && n.key.TupleKey? ==>
      r.Success? && r.value.Gate? && r.value.op == n.op && r.value.key.TupleKey? &&
      |r.value.key.items| == |n.key.items| &&
      forall i :: 0 <= i < |n.key.items| ==> r.value.key.items[i] == n.key.items[i] + dist.d
    ensures n.Gate? && n.key.NoKey? ==> r == Failure(TypeError)
    ensures dist.IntDistance? && n.Observer? ==>
      (r.Success? <==> n.key.IntKey?) &&
      (r.Success? ==> r.value == Observer(IntKey(n.key.i + dist.d), n.autoReset, n.keep)) &&
      (r.Failure? ==> r.error == TypeError)
    ensures dist.IntDistance? && n.ClassicalObserver? ==>
      r.Success? && r.value.ClassicalObserver? && r.value.opname == n.opname && r.value.name == n.name &&
      |r.value.sites| == |n.sites| &&
      forall i :: 0 <= i < |n.sites| ==> r.value.sites[i] == n.sites[i] + dist.d
  {
    if dist.NotInt? then Failure(TypeError)
    else
      var d := dist.d;
      match n
      case Gate(k, op) =>
        (match ShiftKey(k, d)
         case Success(k') => Success(Gate(k', op))
         case Failure(e) => Failure(e))
      case Observer(k, a, keep) =>
        if k.IntKey? then Success(Observer(IntKey(k.i + d), a, keep)) else Failure(TypeError)
      case ClassicalObserver(sites, opname, name) =>
        Success(ClassicalObserver(ShiftAll(sites, d), opname, name))
  }

  /** The per-node `.T`, `.H` and `.conj()`; only a gate whose op is a gate expression has them. */
  datatype Unary = UT | UH | UConj

  function GateUnary(u: Unary, e: Gates.Expr): Gates.Expr
  {
    match u
    case UT => Gates.T(e)
    case UH => Gates.H(e)
    case UConj => Gates.Conj(e)
  }

  function NodeUnary(u: Unary, n: Node): (r: Result<Node, PyError>)
    ensures r.Success? <==> n.Gate? && n.op.GateOp?
    ensures r.Success? ==> n.Gate? && n.op.GateOp? && r.value == Gate(n.key, GateOp(GateUnary(u, n.op.e)))
  {
    if n.Gate? && n.op.GateOp? then Success(Gate(n.key, GateOp(GateUnary(u, n.op.e))))
    else Failure(AttributeError)
  }

  /** Shifting by `d` and then by `-d` gives the node back. */
  lemma ShiftRoundTrip(n: Node, d: int)
    requires Shift(n, IntDistance(d)).Success?
    ensures Shift(Shift(n, IntDistance(d)).value, IntDistance(-d)) == Success(n)
  {
    match n
    case Gate(k, op) =>
      if k.TupleKey? {
        ShiftAllRoundTrip(k.items, d);
      }
    case Observer(k, a, keep) =>
    case ClassicalObserver(sites, opname, name) =>
      ShiftAllRoundTrip(sites, d);
  }

  lemma ShiftAllRoundTrip(xs: seq<int>, d: int)
    ensures ShiftAll(ShiftAll(xs, d), -d) == xs
  {
    var back := ShiftAll(ShiftAll(xs, d), -d);
    assert |back| == |xs|;
    forall i | 0 <= i < |xs| ensures back[i] == xs[i] {
    }
  }

  function Arity(n: Node): nat
  {
    match n
    case Gate(k, _) => if k.TupleKey? then |k.items| else 1
    case Observer(k, _, _) => if k.TupleKey? then |k.items| else 1
    case ClassicalObserver(sites, _, _) => |sites|
  }

  /** A successful shift keeps the kind of node, its arity and every non-key field. */
  lemma ShiftKeepsShape(n: Node, d: int)
    requires Shift(n, IntDistance(d)).Success?
    ensures var m := Shift(n, IntDistance(d)).value;
      Arity(m) == Arity(n) &&
      (n.Gate? ==> m.Gate? && m.op == n.op) &&
      (n.Observer? ==> m.Observer? && m.autoReset == n.autoReset && m.keep == n.keep) &&
      (n.ClassicalObserver? ==> m.ClassicalObserver? && m.opname == n.opname && m.name == n.name)
  {
  }

  // ---------------------------------------------------------------- list transforms

  /** `[s.T for s in nodes[::-1]]` and friends: reversed for T and H, in order for conj. */
  function MapUnary(u: Unary, ns: seq<Node>): (r: Result<seq<Node>, PyError>)
    ensures r.Success? ==> |r.value| == |ns|
  {
    if ns == [] then Success([])
    else match NodeUnary(u, ns[0])
      case Failure(e) => Failure(e)
      case Success(m) =>
        match MapUnary(u, ns[1..])
        case Failure(e) => Failure(e)
        case Success(rest) => Success([m] + rest)
  }

  function Reverse<T>(s: seq<T>): (r: seq<T>)
    ensures |r| == |s| && forall i :: 0 <= i < |s| ==> r[i] == s[|s| - 1 - i]
  {
    if s == [] then [] else Reverse(s[1..]) + [s[0]]
  }

  function Transformed(u: Unary, ns: seq<Node>): Result<seq<Node>, PyError>
  {
    if u == UConj then MapUnary(u, ns) else MapUnary(u, Reverse(ns))
  }

  lemma {:induction false} MapUnaryAt(u: Unary, ns: seq<Node>, i: nat)
    requires MapUnary(u, ns).Success? && i < |ns|
    ensures NodeUnary(u, ns[i]).Success? && MapUnary(u, ns).value[i] == NodeUnary(u, ns[i]).value
  {
    if i > 0 {
      MapUnaryAt(u, ns[1..], i - 1);
    }
  }

  /** `T` and `H` reverse the node order, `conj` keeps it; node i of the result is
    * the transformed node `n-1-i` (resp. `i`) of the input. */
  lemma TransformedOrder(u: Unary, ns: seq<Node>, i: nat)
    requires Transformed(u, ns).Success? && i < |ns|
    ensures var j := if u == UConj then i else |ns| - 1 - i;
      NodeUnary(u, ns[j]).Success? && Transformed(u, ns).value[i] == NodeUnary(u, ns[j]).value
  {
    if u == UConj { MapUnaryAt(u, ns, i); } else { MapUnaryAt(u, Reverse(ns), i); }
  }

  /** Applying `T` twice restores the node order: the keys come back in the same order
    * and each op has gained `.T.T`. */
  lemma TransposeTwiceRestoresOrder(ns: seq<Node>)
    requires Transformed(UT, ns).Success?
    ensures Transformed(UT, Transformed(UT, ns).value).Success?
    ensures var r := Transformed(UT, Transformed(UT, ns).value).value;
      |r| == |ns| &&
      forall i :: 0 <= i < |ns| ==>
        ns[i].Gate? && ns[i].op.GateOp? && r[i] == Gate(ns[i].key, GateOp(Gates.T(Gates.T(ns[i].op.e))))
  {
    var once := Transformed(UT, ns).value;
    var rev := Reverse(once);
    forall i | 0 <= i < |rev| ensures NodeUnary(UT, rev[i]).Success? {
      TransformedOrder(UT, ns, |ns| - 1 - i);
    }
    MapUnaryAllOk(UT, rev);
    var r := Transformed(UT, once).value;
    forall i | 0 <= i < |ns|
      ensures ns[i].Gate? && ns[i].op.GateOp? && r[i] == Gate(ns[i].key, GateOp(Gates.T(Gates.T(ns[i].op.e))))
    {
      TransformedOrder(UT, once, i);
      TransformedOrder(UT, ns, |ns| - 1 - i);
    }
  }

  lemma {:induction false} MapUnaryAllOk(u: Unary, ns: seq<Node>)
    requires forall i :: 0 <= i < |ns| ==> NodeUnary(u, ns[i]).Success?
    ensures MapUnary(u, ns).Success?
  {
    if ns != [] {
      assert NodeUnary(u, ns[0]).Success?;
      MapUnaryAllOk(u, ns[1..]);
    }
  }

  function SerializeNodes(ns: seq<Node>): (r: seq<string>)
    ensures |r| == |ns| && forall i :: 0 <= i < |ns| ==> r[i] == NodeStr(ns[i])
  {
    if ns == [] then [] else [NodeStr(ns[0])] + SerializeNodes(ns[1..])
  }

  // ---------------------------------------------------------------- QState

  /** One initial-state slot: an int, a tuple or a list (of ints). */
  datatype StateValue = IntState(i: int) | TupleState(xs: seq<int>) | ListState(ys: seq<int>)

  /** A value handed to `QState.__setitem__`: an accepted slot value or anything else. */
  datatype SetValue = Accepted(v: StateValue) | Rejected

  class QState {
    var qstates: seq<StateValue>

    constructor (L: nat)
      ensures qstates == seq(L, _ => IntState(0))
    {
      qstates := seq(L, _ => IntState(0));
    }

    function Size(): (n: nat)
      reads this
    {
      |qstates|
    }

    /** `qstates[key] = value`, with Python's negative indexing. */
    method SetItem(key: int, value: SetValue) returns (err: Option<PyError>)
      modifies this
      ensures value.Rejected? ==> err == Some(ValueError("Wrong parameter")) && qstates == old(qstates)
      ensures value.Accepted? && !(-|old(qstates)| <= key < |old(qstates)|) ==>
        err == Some(IndexError) && qstates == old(qstates)
      ensures value.Accepted? && -|old(qstates)| <= key < |old(qstates)| ==>
        err.None? && qstates == old(qstates)[(if key < 0 then key + |old(qstates)| else key) := value.v]
    {
      if value.Rejected? {
        return Some(ValueError("Wrong parameter"));
      }
      if !(-|qstates| <= key < |qstates|) {
        return Some(IndexError);
      }
      var k := if key < 0 then key + |qstates| else key;
      qstates := qstates[k := value.v];
      err := None;
    }

    function Serialize(): seq<StateValue>
      reads this
    {
      qstates
    }
  }

  // ---------------------------------------------------------------- networks

  /** The connection record `Auth`. */
  datatype Auth = Auth(ip: string, token: Option<string>, port: int)

  /** `_Network` itself, or the subclass `QuantumCircuit` with its constructor arguments. */
  datatype NetworkKind = Plain | Circuit(L: nat, auth: Auth, interactive: bool)

  class Network {
    var nodes: seq<Node>
    const kind: NetworkKind
    /** The circuit's initial state (`QuantumCircuit.states`); unused by a plain network. */
    const states: QState

    /** `_Network()`. */
    constructor Plain()
      ensures nodes == [] && kind == NetworkKind.Plain && fresh(states)
    {
      nodes := [];
      kind := NetworkKind.Plain;
      states := new QState(0);
    }

    /** `QuantumCircuit(L, auth, interactive)`: no nodes and L zero states. */
    constructor Circuit(L: nat, auth: Auth, interactive: bool)
      ensures nodes == [] && kind == NetworkKind.Circuit(L, auth, interactive)
      ensures fresh(states) && states.qstates == seq(L, _ => IntState(0))
    {
      nodes := [];
      kind := NetworkKind.Circuit(L, auth, interactive);
      states := new QState(L);
    }

    function Len(): nat
      reads this
    {
      |nodes|
    }

    /** `network[i]` with an int key. */
    function GetItem(i: int): (r: Result<Node, PyError>)
      reads this
      ensures r.Success? <==> -|nodes| <= i < |nodes|
      ensures r.Success? ==> r.value == nodes[if i < 0 then i + |nodes| else i]
    {
      if -|nodes| <= i < |nodes| then Success(nodes[if i < 0 then i + |nodes| else i])
      else Failure(IndexError)
    }

    /** `network[lo:hi]` for non-negative bounds: builds `type(self)()`, which only a
      * plain network can do. */
    method Slice(lo: nat, hi: nat) returns (r: Result<Network, PyError>)
      ensures kind.Circuit? ==> r == Failure(TypeError)
      ensures kind.Plain? ==> (r.Success? && fresh(r.value) && r.value.kind.Plain? &&
        r.value.nodes == nodes[Clip(lo, |nodes|)..Clip(if hi < lo then lo else hi, |nodes|)])
    {
      if kind.Circuit? {
        return Failure(TypeError);
      }
      var net := new Network.Plain();
      net.nodes := nodes[Clip(lo, |nodes|)..Clip(if hi < lo then lo else hi, |nodes|)];
      r := Success(net);
    }

    /** `add(key, op)`. */
    method Add(key: Key, op: Op) returns (err: Option<PyError>)
      modifies this
      ensures key == NoKey && op == NoOp ==> err == Some(NotKeyError("Invalid parameter")) && nodes == old(nodes)
      ensures !(key == NoKey && op == NoOp) ==> err.None? && nodes == old(nodes) + [Gate(key, op)]
    {
      if key == NoKey && op == NoOp {
        return Some(NotKeyError("Invalid parameter"));
      }
      nodes := nodes + [Gate(key, op)];
      err := None;
    }

    /** `add_observer`: refused by `_Network`, defined by `QuantumCircuit`. */
    method AddObserver(key: Key, autoReset: Flag, keep: int) returns (err: Option<PyError>)
      modifies this
      ensures kind.Plain? ==> err == Some(SystemError("Invalid Method")) && nodes == old(nodes)
      ensures kind.Circuit? && key == NoKey ==> err == Some(NotKeyError("Invalid parameter")) && nodes == old(nodes)
      ensures kind.Circuit? && key != NoKey ==> err.None? && nodes == old(nodes) + [Observer(key, autoReset, keep)]
    {
      if kind.Plain? {
        return Some(SystemError("Invalid Method"));
      }
      if key == NoKey {
        return Some(NotKeyError("Invalid parameter"));
      }
      nodes := nodes + [Observer(key, autoReset, keep)];
      err := None;
    }

    /** `add_classical_observer(sites, opname, name)`. */
    method AddClassicalObserver(sites: seq<int>, opname: string, name: Option<string>)
      modifies this
      ensures nodes == old(nodes) + [ClassicalObserver(sites, opname, name)]
    {
      nodes := nodes + [ClassicalObserver(sites, opname, name)];
    }

    /** `add_network(seq)` with a plain sequence of nodes. */
    method AddNodes(ns: seq<Node>)
      modifies this
      ensures nodes == old(nodes) + ns
    {
      nodes := nodes + ns;
    }

    /** `add_network(other)` with another network (possibly this one). */
    method AddNetwork(other: Network)
      modifies this
      ensures nodes == old(nodes) + old(other.nodes)
    {
      nodes := nodes + other.nodes;
    }

    function Serialize(): (r: seq<string>)
      reads this
      ensures |r| == |nodes| && forall i :: 0 <= i < |nodes| ==> r[i] == NodeStr(nodes[i])
    {
      SerializeNodes(nodes)
    }

    /** `.T`, `.H` and `.conj()` of the container. */
    method Transform(u: Unary) returns (r: Result<Network, PyError>)
      ensures kind.Circuit? ==> r == Failure(TypeError)
      ensures kind.Plain? && Transformed(u, nodes).Failure? ==> r == Failure(Transformed(u, nodes).error)
      ensures kind.Plain? && Transformed(u, nodes).Success? ==>
        r.Success? && fresh(r.value) && r.value.kind.Plain? && r.value.nodes == Transformed(u, nodes).value
    {
      if kind.Circuit? {
        return Failure(TypeError);
      }
      var ns := Transformed(u, nodes);
      if ns.Failure? {
        return Failure(ns.error);
      }
      var net := new Network.Plain();
      net.AddNodes(ns.value);
      r := Success(net);
    }

    /** `QuantumCircuit.shift(distance)` as written: its first step, `type(self)()`,
      * calls `QuantumCircuit()` without the three required arguments, so it always
      * raises TypeError; a plain network has no `shift` at all. */
    method ShiftAsWritten(dist: Distance) returns (r: Result<Network, PyError>)
      ensures r.Failure?
    {
      if kind.Plain? {
        return Failure(AttributeError);
      }
      return Failure(TypeError);
    }

    /** The evidently intended `QuantumCircuit.shift`: a new circuit with the same
      * parameters whose nodes are the shifted nodes, in order. */
    method Shift(dist: Distance) returns (r: Result<Network, PyError>)
      ensures kind.Plain? ==> r == Failure(AttributeError)
      ensures kind.Circuit? ==> (r.Success? <==> ShiftedNodes(nodes, dist).Success?)
      ensures kind.Circuit? && r.Failure? ==> r.error == ShiftedNodes(nodes, dist).error
      ensures kind.Circuit? && r.Success? ==>
        fresh(r.value) && r.value.kind == kind && r.value.nodes == ShiftedNodes(nodes, dist).value
    {
      if kind.Plain? {
        return Failure(AttributeError);
      }
      var shifted := ShiftedNodes(nodes, dist);
      if shifted.Failure? {
        return Failure(shifted.error);
      }
      var net := new Network.Circuit(kind.L, kind.auth, kind.interactive);
      net.AddNodes(shifted.value);
      r := Success(net);
    }

    /** `clear()`: empties the node list only. */
    method Clear()
      modifies this
      ensures nodes == []
    {
      nodes := [];
    }
  }

  function Clip(i: nat, n: nat): nat { if i < n then i else n }

  function ShiftedNodes(ns: seq<Node>, dist: Distance): (r: Result<seq<Node>, PyError>)
    ensures r.Success? ==> (|r.value| == |ns| &&
      forall i :: 0 <= i < |ns| ==> Shift(ns[i], dist) == Success(r.value[i]))
    ensures r.Failure? ==> exists i :: 0 <= i < |ns| && Shift(ns[i], dist).Failure?
  {
    if ns == [] then Success([])
    else match Shift(ns[0], dist)
      case Failure(e) => Failure(e)
      case Success(m) =>
        match ShiftedNodes(ns[1..], dist)
        case Failure(e) => (assert Shift(ns[1..][0], dist).Failure? || exists i :: 1 <= i < |ns| && Shift(ns[i], dist).Failure?; Failure(e))
        case Success(rest) => Success([m] + rest)
  }

  /** Shifting a whole node list by `d` and back by `-d` restores it. */
  lemma ShiftedNodesRoundTrip(ns: seq<Node>, d: int)
    requires ShiftedNodes(ns, IntDistance(d)).Success?
    ensures ShiftedNodes(ShiftedNodes(ns, IntDistance(d)).value, IntDistance(-d)) == Success(ns)
  {
    var once := ShiftedNodes(ns, IntDistance(d)).value;
    forall i | 0 <= i < |ns| ensures Shift(once[i], IntDistance(-d)) == Success(ns[i]) {
      ShiftRoundTrip(ns[i], d);
    }
    var back := ShiftedNodes(once, IntDistance(-d));
    assert back.Success?;
    assert back.value == ns;
  }

  lemma ShiftAllCompose(xs: seq<int>, d1: int, d2: int)
    ensures ShiftAll(ShiftAll(xs, d1), d2) == ShiftAll(xs, d1 + d2)
  {
    var twice := ShiftAll(ShiftAll(xs, d1), d2);
    assert |twice| == |xs|;
    forall i | 0 <= i < |xs| ensures twice[i] == ShiftAll(xs, d1 + d2)[i] {
    }
  }

  /** Two successive shifts of a node are one shift by the summed distance. */
  lemma ShiftCompose(n: Node, d1: int, d2: int)
    requires Shift(n, IntDistance(d1)).Success?
    ensures Shift(Shift(n, IntDistance(d1)).value, IntDistance(d2)) == Shift(n, IntDistance(d1 + d2))
  {
    match n
    case Gate(k, op) =>
      if k.TupleKey? {
        ShiftAllCompose(k.items, d1, d2);
      }
    case Observer(k, a, keep) =>
    case ClassicalObserver(sites, opname, name) =>
      ShiftAllCompose(sites, d1, d2);
  }

  /** Shifting all nodes by `d1` and then by `d2` is shifting them once by `d1 + d2`;
    * so two successive `shift`s of a circuit hold the nodes of a single one. */
  lemma ShiftedNodesCompose(ns: seq<Node>, d1: int, d2: int)
    requires ShiftedNodes(ns, IntDistance(d1)).Success?
    ensures ShiftedNodes(ShiftedNodes(ns, IntDistance(d1)).value, IntDistance(d2)) == ShiftedNodes(ns, IntDistance(d1 + d2))
  {
    var once := ShiftedNodes(ns, IntDistance(d1)).value;
    forall i | 0 <= i < |ns| ensures Shift(once[i], IntDistance(d2)) == Shift(ns[i], IntDistance(d1 + d2)) {
      ShiftCompose(ns[i], d1, d2);
    }
    var twice := ShiftedNodes(once, IntDistance(d2));
    var direct := ShiftedNodes(ns, IntDistance(d1 + d2));
    assert twice.value == direct.value;
  }

  /** `.H` of a list of nodes is `.T` followed by `.conj()`, node by node: whenever `.H`
    * succeeds, `.T` succeeds, `.conj()` of its result succeeds and the two agree. */
  lemma AdjointNodesIsTransposeConj(ns: seq<Node>)
    requires Transformed(UH, ns).Success?
    ensures Transformed(UT, ns).Success?
    ensures MapUnary(UConj, Transformed(UT, ns).value) == Transformed(UH, ns)
  {
    var rev := Reverse(ns);
    forall i | 0 <= i < |rev| ensures NodeUnary(UT, rev[i]).Success? {
      TransformedOrder(UH, ns, i);
    }
    MapUnaryAllOk(UT, rev);
    var t := Transformed(UT, ns).value;
    forall i | 0 <= i < |t| ensures NodeUnary(UConj, t[i]).Success? {
      TransformedOrder(UT, ns, i);
    }
    MapUnaryAllOk(UConj, t);
    var c := MapUnary(UConj, t).value;
    var h := Transformed(UH, ns).value;
    forall i | 0 <= i < |ns| ensures c[i] == h[i] {
      MapUnaryAt(UConj, t, i);
      TransformedOrder(UT, ns, i);
      TransformedOrder(UH, ns, i);
      Gates.AdjointIsTransposeConj(ns[|ns| - 1 - i].op.e);
    }
    assert c == h;
  }

  // ---------------------------------------------------------------- run

  const ResultPath := "/api/v1/circuit/result/"

  /** The URL `run` posts to: https on port 80, plain http with the port otherwise. */
  function RunUrl(auth: Auth): string
  {
    if auth.port == 80 then "https://" + auth.ip + ResultPath
    else "http://" + auth.ip + ":" + Text.IntToString(auth.port) + ResultPath
  }

  /** The server's reply, already decoded: its status and the body's `message`. */
  datatype Response = Response(status: int, message: Option<string>)

  function RunOutcome(resp: Response): (r: Result<Option<string>, PyError>)
    ensures resp.status == 200 <==> r.Success?
    ensures r.Success? ==> r.value == resp.message
    ensures resp.status == 401 ==> r == Failure(RequestError(Some("User Authentication Failed")))
    ensures resp.status != 200 && resp.status != 401 ==> r == Failure(RequestError(resp.message))
  {
    if resp.status == 200 then Success(resp.message)
    else if resp.status == 401 then Failure(RequestError(Some("User Authentication Failed")))
    else Failure(RequestError(resp.message))
  }

  /** The port alone decides the scheme: every URL ends with the result path and is
    * https exactly when the port is 80. */
  lemma RunUrlScheme(auth: Auth)
    ensures |ResultPath| <= |RunUrl(auth)| && RunUrl(auth)[|RunUrl(auth)| - |ResultPath|..] == ResultPath
    ensures (RunUrl(auth)[..5] == "https") <==> auth.port == 80
  {
    var url := RunUrl(auth);
    if auth.port == 80 {
      assert url == "https://" + auth.ip + ResultPath;
      assert url[..5] == "https";
    } else {
      assert url == "http://" + (auth.ip + ":" + Text.IntToString(auth.port) + ResultPath);
      assert url[4] == ':';
    }
  }
}
