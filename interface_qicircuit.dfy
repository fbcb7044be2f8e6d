/** The bridge of demo/bin/interface_QIcircuit.py through which the C++ simulator
  * builds a circuit: it owns one `QuantumCircuit` and appends gates and
  * measurements to it. */
module InterfaceQIcircuit {
  import opened Wrappers
  import opened QusimServer

  /** The fixed connection data the bridge is built with. */
  const DefaultAuth := Auth("qcapi.supremacyfuture.com", Some(""), 80)

  class Interface {
    var numQubit: int
    /** `None` until `init_circuit` runs. */
    var circuit: Network?
    const auth: Auth

    /** The bridge only ever holds a `QuantumCircuit`, never a plain network. */
    predicate Valid()
      reads this
    {
      circuit != null ==> circuit.kind.Circuit?
    }

    constructor ()
      ensures Valid()
      ensures numQubit == 0 && circuit == null && auth == DefaultAuth
    {
      numQubit := 0;
      circuit := null;
      auth := DefaultAuth;
    }

    /** `init_circuit(n)`: a new QuantumCircuit with `L = n`, this bridge's auth and
      * `interactive = True`. */
    method InitCircuit(n: nat)
      modifies this
      ensures Valid()
      ensures numQubit == n && circuit != null && fresh(circuit)
      ensures circuit.kind == Circuit(n, auth, true) && circuit.nodes == []
    {
      numQubit := n;
      circuit := new Network.Circuit(n, auth, true);
    }

    /** `add_single_qubit_operation(op, q)`: one gate keyed by the qubit. Before
      * `init_circuit` the attribute lookup on `None` fails. */
    method AddSingleQubitOperation(operation: string, qubit: int) returns (err: Option<PyError>)
      requires Valid()
      modifies circuit
      ensures Valid()
      ensures circuit == null ==> err == Some(AttributeError)
      ensures circuit != null ==> err.None? && circuit.nodes == old(circuit.nodes) + [Gate(IntKey(qubit), NameOp(operation))]
    {
      if circuit == null {
        return Some(AttributeError);
      }
      err := circuit.Add(IntKey(qubit), NameOp(operation));
    }

    /** `add_two_qubit_operation(op, q0, q1)`: one gate keyed by the pair. */
    method AddTwoQubitOperation(operation: string, qubit0: int, qubit1: int) returns (err: Option<PyError>)
      requires Valid()
      modifies circuit
      ensures Valid()
      ensures circuit == null ==> err == Some(AttributeError)
      ensures circuit != null ==>
        err.None? && circuit.nodes == old(circuit.nodes) + [Gate(TupleKey([qubit0, qubit1]), NameOp(operation))]
    {
      if circuit == null {
        return Some(AttributeError);
      }
      err := circuit.Add(TupleKey([qubit0, qubit1]), NameOp(operation));
    }

    /** `add_measurement(q)`: one observer with `auto_reset=True`, `keep=1`. */
    method AddMeasurement(qubit: int) returns (err: Option<PyError>)
      requires Valid()
      modifies circuit
      ensures Valid()
      ensures circuit == null ==> err == Some(AttributeError)
      ensures circuit != null ==>
        err.None? && circuit.nodes == old(circuit.nodes) + [Observer(IntKey(qubit), BoolFlag(true), 1)]
    {
      if circuit == null {
        return Some(AttributeError);
      }
      err := circuit.AddObserver(IntKey(qubit), BoolFlag(true), 1);
    }

    /** `clear_circuit()`. */
    method ClearCircuit() returns (err: Option<PyError>)
      requires Valid()
      modifies circuit
      ensures Valid()
      ensures circuit == null ==> err == Some(AttributeError)
      ensures circuit != null ==> err.None? && circuit.nodes == [] && circuit.kind == old(circuit.kind)
    {
      if circuit == null {
        return Some(AttributeError);
      }
      circuit.Clear();
      err := None;
    }
  }

  /** The wire string of the gate `add_single_qubit_operation` appends. */
  lemma SingleGateWire(op: string, q: nat)
    ensures NodeStr(Gate(IntKey(q), NameOp(op))) == "Gate(" + Text.IntToString(q) + ", " + op + ")"
  {
  }

  /** The wire string of the gate `add_two_qubit_operation` appends. */
  lemma TwoQubitGateWire(op: string, q0: nat, q1: nat)
    ensures NodeStr(Gate(TupleKey([q0, q1]), NameOp(op))) ==
      "Gate((" + Text.IntToString(q0) + ", " + Text.IntToString(q1) + "), " + op + ")"
  {
    var a, b := Text.IntToString(q0), Text.IntToString(q1);
    assert Ints([q0, q1][1..]) == [b];
    assert Ints([q0, q1]) == [a, b];
    assert Text.Join([a, b][1..], ", ") == b;
    assert Text.Join([a, b], ", ") == a + ", " + b;
    var k := KeyStr(TupleKey([q0, q1]));
    assert k == "(" + a + ", " + b + ")";
    assert NodeStr(Gate(TupleKey([q0, q1]), NameOp(op))) == "Gate(" + k + ", " + op + ")";
  }

  /** The wire string of the observer `add_measurement` appends. */
  lemma MeasurementWire(q: nat)
    ensures NodeStr(Observer(IntKey(q), BoolFlag(true), 1)) == "Observer(" + Text.IntToString(q) + ", True, 1)"
  {
  }
}
