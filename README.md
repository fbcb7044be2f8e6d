# Circuit IR and eQASM simulator core, in Dafny

This project models two parts of the repository and proves properties of the models.

The first part is the Python circuit description in `demo/bin`:

- the operation-expression algebra of `gates.py`: adjoint, transpose, conjugate, and calls with an angle or a control target;
- the node values (`Gate`, `Observer`, `ClassicalObserver`) with their index shift;
- the ordered `_Network` / `QuantumCircuit` container and its `QState`;
- the wire serialisation of a circuit and its state;
- the URL and HTTP-status decision table of `QuantumCircuit.run`.

The second part is the SystemC/C++ simulator of the eQASM control microarchitecture. The model covers:

- the instruction layer: assembly and binary decode of `Qasm_instruction`, the string and hex helpers of `num_util`, the word memory, and the configuration maps and topology tables;
- the classical pipeline: fetch, instruction cache, decode, execute, memory stage and write-back;
- the technology-independent quantum pipeline: decoders, timing, mask registers, the address-mask decoder and the operation combiner;
- the measurement path: measurement issue, the measurement register file, fast conditional execution and the measurement-result generator;
- the interface to the quantumsim back end, which builds moments.

Each source file is one module. A SystemC thread becomes either a step function over a state value or a class whose fields are the registers it keeps, with one method per clock. The class's contract relates the new state to a specification function, and lemmas about that function state what the hardware promises.

`exit(EXIT_FAILURE)` and thrown exceptions become the `Failure` side of a `Result`. Machine integers are unbounded in Dafny, so their wrap-around and truncation are written out explicitly.

## Model

| member | source | states |
|---|---|---|
| Gates.Call | demo/bin/gates.py:13-57 | a call succeeds exactly on a callable expression with an argument its class accepts (a number, or a gate expression for the control class); a non-callable expression raises ValueError and a callable one given an argument of the wrong type raises TypeError; the result text is the receiver's text, the argument in parentheses, and is itself not callable and of the receiver's class (`type(self)()`) |
| Gates.AdjointIsTransposeConj | demo/bin/gates.py:23-38 | `.H` gives the same expression and the same text as `.T` followed by `.conj()` |
| Gates.TransposeTwice | demo/bin/gates.py:23-27 | `.T.T` is not the identity: it appends `.T.T` to the text |
| Gates.ApplyOneAppends | demo/bin/gates.py:8-38 | each infallible postfix operation (`.dot`, `.T`, `.H`, `.conj()`) appends its suffix, keeps the class and yields a non-callable expression (a successful call does the same, stated by `Gates.Call`) |
| Gates.ApplyAppends | demo/bin/gates.py:8-38 | a chain of postfix operations appends the concatenated suffixes, keeps the class, and is non-callable unless the chain is empty |
| Gates.ApplyText | demo/bin/gates.py:8-38 | the text of a chain is the receiver's text followed by every suffix in order |
| Gates.ApplyKeepsClass | demo/bin/gates.py:9-55 | `type(self)()` keeps the class along a chain, and a non-empty chain ends non-callable |
| Gates.DerivedNotCallable | demo/bin/gates.py:4-52 | every derived expression raises ValueError when called, including the result of a successful call |
| Gates.ReceiverTextKept | demo/bin/gates.py:8-38 | the receiver's text is a prefix of every expression derived from it |
| Gates.CallableConstants | demo/bin/gates.py:60-78 | among the module constants exactly R, ROTATION, Rx, Ry, Rz, CONTROL and CONTROLCONTROL are callable |
| Gates.ControlConstantsCallable | demo/bin/gates.py:76-77 | both constants of the control class are callable |
| InterfaceQIcircuit.Interface.constructor | demo/bin/interface_QIcircuit.py:23-42 | a new bridge has no qubits, no circuit and the default authorisation; it establishes `Valid()`: any circuit the bridge holds is a QuantumCircuit |
| InterfaceQIcircuit.Interface.InitCircuit | demo/bin/interface_QIcircuit.py:44-52 | `init_circuit(n)` stores `n` and a fresh empty interactive circuit of `n` qubits carrying the bridge's authorisation; `Valid()` holds afterwards |
| InterfaceQIcircuit.Interface.AddSingleQubitOperation | demo/bin/interface_QIcircuit.py:54-57 | appends exactly one gate keyed by the qubit; before `init_circuit` it fails with AttributeError; keeps `Valid()` |
| InterfaceQIcircuit.Interface.AddTwoQubitOperation | demo/bin/interface_QIcircuit.py:59-62 | appends exactly one gate keyed by the pair of qubits; before `init_circuit` it fails with AttributeError; keeps `Valid()` |
| InterfaceQIcircuit.Interface.AddMeasurement | demo/bin/interface_QIcircuit.py:64-66 | appends exactly one observer with `auto_reset=True` and `keep=1`; before `init_circuit` it fails with AttributeError; keeps `Valid()` |
| InterfaceQIcircuit.Interface.ClearCircuit | demo/bin/interface_QIcircuit.py:74-75 | empties the circuit's node list and keeps its parameters; before `init_circuit` it fails with AttributeError; keeps `Valid()` |
| InterfaceQIcircuit.SingleGateWire | demo/bin/interface_QIcircuit.py:54-55 | the node added for a single-qubit gate prints as `Gate(q, op)` on the wire |
| InterfaceQIcircuit.TwoQubitGateWire | demo/bin/interface_QIcircuit.py:59-60 | the node added for a two-qubit gate prints as `Gate((q0, q1), op)` on the wire |
| InterfaceQIcircuit.MeasurementWire | demo/bin/interface_QIcircuit.py:64-65 | the node added for a measurement prints as `Observer(q, True, 1)` on the wire |
| QusimServer.ShiftAll | demo/bin/qusim_server.py:37-78 | `tuple([s + distance for s in ...])`: same length, every element moved by the distance |
| QusimServer.Shift | demo/bin/qusim_server.py:31-78 | a distance that is not an int raises TypeError for every kind of node; a gate with an int key moves it by `d` and keeps its op, one with a tuple key moves every element by `d`, one with no key raises TypeError; an observer moves an int key by `d` keeping `auto_reset` and `keep`, and raises TypeError for any other key; a classical observer moves every site by `d` keeping its op name and name |
| QusimServer.ShiftRoundTrip | demo/bin/qusim_server.py:31-78 | a node shifted by `d` and then by `-d` is the original node |
| QusimServer.ShiftAllRoundTrip | demo/bin/qusim_server.py:37-78 | shifting a tuple of sites by `d` and back by `-d` restores it |
| QusimServer.ShiftKeepsShape | demo/bin/qusim_server.py:31-78 | a successful shift keeps the kind of node, the number of sites and every field other than the key |
| QusimServer.NodeUnary | demo/bin/qusim_server.py:20-29 | `.T`, `.H`, `.conj()` of a node succeed exactly on a gate whose op is a gate expression, and apply the operation to the op under the same key |
| QusimServer.MapUnary | demo/bin/qusim_server.py:255-266 | the comprehension over the nodes yields one node per input node |
| QusimServer.Reverse | demo/bin/qusim_server.py:255-261 | `self[::-1]`: element `i` of the result is element `n-1-i` of the input |
| QusimServer.MapUnaryAt | demo/bin/qusim_server.py:255-266 | node `i` of a successful comprehension is the transformed input node `i` |
| QusimServer.MapUnaryAllOk | demo/bin/qusim_server.py:255-266 | the comprehension succeeds when every node supports the operation |
| QusimServer.TransformedOrder | demo/bin/qusim_server.py:252-267 | `.T` and `.H` of a network reverse the node order and `.conj()` keeps it: node `i` is the transformed node `n-1-i` (resp. `i`) |
| QusimServer.TransposeTwiceRestoresOrder | demo/bin/qusim_server.py:252-256 | `.T.T` of a network keeps the keys in their original order and gives every op `.T.T` |
| QusimServer.AdjointNodesIsTransposeConj | demo/bin/qusim_server.py:252-267 | whenever `.H` of a network's nodes succeeds, `.T` succeeds too and `.conj()` of its result equals `.H`, node by node and in the same order |
| QusimServer.SerializeNodes | demo/bin/qusim_server.py:244-245 | `[str(s) for s in self]`: one string per node, in order |
| QusimServer.QState.constructor | demo/bin/qusim_server.py:175-176 | `QState(L)` holds `L` zeros |
| QusimServer.QState.SetItem | demo/bin/qusim_server.py:178-181 | a value that is not an int, tuple or list raises ValueError; an index outside `-L..L-1` raises IndexError; otherwise exactly the addressed slot (negative indices from the end) is replaced |
| QusimServer.Network.Plain | demo/bin/qusim_server.py:203-204 | a new plain network has no nodes |
| QusimServer.Network.Circuit | demo/bin/qusim_server.py:277-283 | a new circuit keeps `L`, `auth` and `interactive`, has no nodes and `L` zero states |
| QusimServer.Network.GetItem | demo/bin/qusim_server.py:209-211 | an int index succeeds exactly in `-n..n-1` and returns that node, negative indices counted from the end |
| QusimServer.Network.Slice | demo/bin/qusim_server.py:212-215 | a slice of a plain network is a fresh plain network holding the clipped slice of the nodes; on a circuit `type(self)()` raises TypeError |
| QusimServer.Network.Add | demo/bin/qusim_server.py:226-231 | `add(None, None)` raises and changes nothing; otherwise exactly one gate is appended |
| QusimServer.Network.AddObserver | demo/bin/qusim_server.py:233-235 | a plain network refuses with SystemError; a circuit refuses a missing key, and otherwise appends exactly one observer |
| QusimServer.Network.AddClassicalObserver | demo/bin/qusim_server.py:320-322 | appends exactly one classical observer |
| QusimServer.Network.AddNodes | demo/bin/qusim_server.py:237-242 | `add_network(list)` appends the nodes in order |
| QusimServer.Network.AddNetwork | demo/bin/qusim_server.py:237-242 | `add_network(net)` appends the other network's nodes as they were before the call, also when it is the same network |
| QusimServer.Network.Serialize | demo/bin/qusim_server.py:244-245 | one string per node, in order |
| QusimServer.Network.Transform | demo/bin/qusim_server.py:252-267 | on a plain network: a fresh plain network with the transformed nodes, or the node's error; on a circuit `type(self)()` raises TypeError |
| QusimServer.Network.ShiftAsWritten | demo/bin/qusim_server.py:308-311 | `shift` as written never succeeds |
| QusimServer.Network.Shift | demo/bin/qusim_server.py:308-311 | the intended `shift`: a fresh circuit with the same parameters holding the shifted nodes (each moved as `Shift` states, so two shifts compose by `ShiftedNodesCompose`), failing exactly when some node's shift fails, with that node's error |
| QusimServer.Network.Clear | demo/bin/qusim_server.py:332-333 | `clear()` empties the node list |
| QusimServer.ShiftedNodes | demo/bin/qusim_server.py:310 | a successful shift of all nodes keeps their number and each result node is that node's shift; a failure names a node whose shift fails |
| QusimServer.ShiftedNodesRoundTrip | demo/bin/qusim_server.py:308-311 | shifting all nodes by `d` and back by `-d` restores the node list |
| QusimServer.ShiftAllCompose | demo/bin/qusim_server.py:37 | moving a tuple of sites by `d1` and then by `d2` is moving it once by `d1 + d2` |
| QusimServer.ShiftCompose | demo/bin/qusim_server.py:31-78 | once a node shifts by `d1`, shifting the result by `d2` gives exactly the outcome of one shift by `d1 + d2` |
| QusimServer.ShiftedNodesCompose | demo/bin/qusim_server.py:308-311 | once a circuit's nodes shift by `d1`, shifting the result by `d2` gives exactly the outcome of one shift by `d1 + d2`: `C.shift(d1).shift(d2) == C.shift(d1 + d2)` |
| QusimServer.RunOutcome | demo/bin/qusim_server.py:367-381 | `run` succeeds exactly on status 200, with the body's message; 401 raises the authentication error, any other status the server's message |
| QusimServer.RunUrlScheme | demo/bin/qusim_server.py:347-366 | the posted URL always ends with the result path and is https exactly when the port is 80 |
| UtilModules.OperationMux | src/0_core/util_modules.cpp:5-43 | with `in_valid` low or select `0b00` the output is the zero-type operation; select `0b01`/`0b11` gives the left input and `0b10` the right one |
| UtilModules.OperationMuxRange | src/0_core/util_modules.cpp:5-43 | the multiplexer outputs one of its inputs or the zero operation, and a non-NOP only when enabled with a non-zero select |
| UtilModules.OrAllUpperBound | src/0_core/util_modules.cpp:45-57 | every lane's micro-operation lies bitwise below the OR of all lanes |
| UtilModules.OrAllLeast | src/0_core/util_modules.cpp:45-57 | the OR of all lanes lies below every common upper bound, so it does not depend on the lane order |
| UtilModules.MicroOperationOr | src/0_core/util_modules.cpp:45-57 | the loop over the `VLIW_WIDTH` lanes, starting from the zero micro-operation, computes the OR of all lanes |
| CounterRegistry.CycleCounter.constructor | src/0_core/counter_registry.cpp:47-51 | a new counter is named as requested, bound to the given clock and start signal, and starts at cycle 0 |
| CounterRegistry.RegisterLookup | src/0_core/counter_registry.cpp:53-58 | after registering, the name is present and maps to the new counter exactly when it was absent; the key set grows by that name only |
| CounterRegistry.RegisterKeepsOthers | src/0_core/counter_registry.cpp:53-58 | registering never touches another name's counter |
| CounterRegistry.RegisterTwice | src/0_core/counter_registry.cpp:53-58 | registering a name a second time changes nothing, whatever the new counter |
| CounterRegistry.Registry.constructor | src/0_core/counter_registry.cpp:7-11 | a new registry holds no counters |
| CounterRegistry.Registry.IfNotExists | src/0_core/counter_registry.cpp:13-23 | true exactly when no counter has the name |
| CounterRegistry.Registry.Get | src/0_core/counter_registry.cpp:25-39 | succeeds exactly for a registered name, returning its counter; an unknown name aborts |
| CounterRegistry.Registry.RegisterCounter | src/0_core/counter_registry.cpp:41-59 | builds a fresh counter on the clock and start signal and inserts it only if the name is free; afterwards `get` returns the old counter for a taken name and the new one otherwise |
| DataMemory.LeBytes | src/0_core/data_memory.cpp:49-52 | a word splits into exactly four bytes |
| DataMemory.LeBytesRoundTrip | src/0_core/data_memory.cpp:49-52 | splitting a word into its little-endian bytes and joining them is the identity, in both directions |
| DataMemory.DumpBytesLayout | src/0_core/data_memory.cpp:48-57 | the dump has four bytes per visited word and group `k` is the little-endian form of the `k`-th word of the window |
| DataMemory.Memory.constructor | src/0_core/data_memory.cpp:5-9 | `Data_memory(size)` holds `size >> 2` zero words |
| DataMemory.Memory.InitDataMem | src/0_core/data_memory.cpp:11-16 | every word becomes 0 |
| DataMemory.Memory.WriteMem | src/0_core/data_memory.cpp:18-20 | exactly the addressed word changes, and `read_mem` of it returns the written value |
| DataMemory.Memory.SetDump | src/0_core/data_memory.cpp:22-35 | aborts exactly when the start or the 32-bit wrapped end lies past the memory size, leaving the window as it was; otherwise records start and size; the memory is untouched |
| DataMemory.Memory.Dump | src/0_core/data_memory.cpp:37-60 | the bytes written are the little-endian words of the window, the loop bound taken modulo 2^32 |
| DelayRegister.Shifted | src/1_digital/quantum/tech_ind/delay_register.h:27-31 | one clock keeps the buffer length |
| DelayRegister.RunRemembers | src/1_digital/quantum/tech_ind/delay_register.h:23-35 | after a run of clocks the buffer holds the most recent inputs, newest first, followed by what it held before; its length never changes |
| DelayRegister.OutputsAreDelayedInputs | src/1_digital/quantum/tech_ind/delay_register.h:21-35 | the output written at clock `k` is the input of clock `k - delay_cycles`; the first `delay_cycles` clocks drain the initial contents, last slot first |
| DelayRegister.DelayRegister.constructor | src/1_digital/quantum/tech_ind/delay_register.h:37-41 | the buffer holds `delay_cycles` default signals |
| DelayRegister.DelayRegister.Delay | src/1_digital/quantum/tech_ind/delay_register.h:23-35 | one clock shifts the input into slot 0 and writes the old last slot to the output, every read seeing the buffer before the clock |
| JsonWrapper.CheckIntRange | src/0_core/json_wrapper.cpp:14-27 | true exactly when the value lies between both bounds, inclusive |
| JsonWrapper.CompactJsonDump | src/0_core/json_wrapper.cpp:50-56 | the result is a prefix of the dump of at most 500 characters: the whole dump when it is that short, exactly 500 characters otherwise |
| JsonWrapper.CompactJsonDumpIdempotent | src/0_core/json_wrapper.cpp:50-56 | compacting a compacted dump changes nothing |
| JsonWrapper.Member | src/0_core/json_wrapper.cpp:62-81 | `parent[name]` fails exactly on a parent that is neither null nor an object, and yields the member of an object that has the key |
| JsonWrapper.CheckKeyExist | src/0_core/json_wrapper.cpp:58-73 | succeeds, returning true, exactly when the parent is an object whose member under the key exists and is not null; otherwise it throws |
| JsonWrapper.ReadJsonObject | src/0_core/json_wrapper.cpp:75-84 | the child is the member itself, and the call fails exactly when `check_key_exist` throws, with its error |
| JsonWrapper.GetString | src/0_core/json_wrapper.cpp:100 | the conversion to a string succeeds exactly on a string value, giving its text |
| JsonWrapper.GetUint | src/0_core/json_wrapper.cpp:133 | the conversion to `unsigned int` succeeds exactly on numbers and booleans, and keeps an in-range number |
| JsonWrapper.ReadJsonString | src/0_core/json_wrapper.cpp:86-103 | succeeds exactly when the key holds a non-null string, giving that string; a non-string value is logged and then makes the assignment throw |
| JsonWrapper.IntTarget | src/0_core/json_wrapper.cpp:105-123 | the `int` read succeeds exactly when the key holds a non-null value, and the target stays a 32-bit int |
| JsonWrapper.IntTargetValue | src/0_core/json_wrapper.cpp:111-120 | a number is cast to a 32-bit `int`; any other value leaves the target as it was |
| JsonWrapper.IntTargetReadsBack | src/0_core/json_wrapper.cpp:105-123 | an in-range number stored under the key is read back exactly |
| JsonWrapper.ReadJsonInt | src/0_core/json_wrapper.cpp:105-123 | the call's result is the target value `IntTarget` describes |
| JsonWrapper.UintTarget | src/0_core/json_wrapper.cpp:125-143 | the `unsigned int` read succeeds exactly when the key holds a non-null value; a number is taken modulo 2^32, any other value leaves the target as it was |
| JsonWrapper.ReadJsonUint | src/0_core/json_wrapper.cpp:125-143 | the call's result is the target value `UintTarget` describes |
| JsonWrapper.ReadJsonDouble | src/0_core/json_wrapper.cpp:145-163 | succeeds exactly when the key holds a non-null value; a number is converted, any other value leaves the target as it was |
| MsmtResultGen.GenMsmtResult | src/2_analog_digital_if/msmt_result_gen.cpp:32-85 | the two loops of one cycle compute the record `MsmtResult` specifies |
| MsmtResultGen.WriteFromMeaning | src/2_analog_digital_if/msmt_result_gen.cpp:69-76 | writing the results succeeds iff every named qubit is in range; a named qubit is then valid with its last outcome `> 0`, every other qubit keeps its entries |
| MsmtResultGen.MsmtResultMeaning | src/2_analog_digital_if/msmt_result_gen.cpp:50-80 | the record has one data and one valid entry per qubit; a qubit is valid iff the cycle is not a reset and a result names it, and its data is its last outcome being positive; more results than qubits abort, also under reset |
| MsmtResultGen.NamedQubitHasLast | src/2_analog_digital_if/msmt_result_gen.cpp:69-76 | a qubit some result names has a last result, so its later writes win |
| FastConditionalExecution.DoOutput | src/1_digital/quantum/tech_dep/fast_conditional_execution.cpp:43-88 | on reset: `num_qubits` false cancels and the emptied interface; otherwise one false cancel per operation, the interface's timing when it has operations, and the interface forwarded unchanged; no other measurement field is set |
| FastConditionalExecution.CancelMatchesIssue | src/1_digital/quantum/tech_dep/fast_conditional_execution.cpp:66-86 | the cancel vector has one entry per entry of the enable vector the measurement-issue generator builds from the same interface, with the same timing, and cancels none of the issued measurements |
| MeasRegFileSlice.MeasSlice.constructor | src/1_digital/classical/meas_reg_file_slice.cpp:13-33 | the slice starts with `num_qubits` low valid and data signals, not ready and no delayed issue |
| MeasRegFileSlice.MeasSlice.Clock | src/1_digital/classical/meas_reg_file_slice.cpp:71-99 | one clock registers the data, the valid bits as `SliceValid` gives them, ready (forced high on reset) and the delayed issue (cleared on reset) |
| MeasRegFileSlice.SliceValid | src/1_digital/classical/meas_reg_file_slice.cpp:75-94 | a valid bit is high on reset, low while a measure is issued now or was issued one cycle earlier, and the register file's bit otherwise |
| MeasRegFileSlice.IssueHidesResults | src/1_digital/classical/meas_reg_file_slice.cpp:75-81 | a measure issue hides every result in the register file in its own cycle and in the slice for one more cycle; with no issue the slice passes the register file's bit |
| ClassicalWb.Zeros | src/1_digital/classical/classical_wb.cpp:62-66 | the cleared register file holds `n` zeros |
| ClassicalWb.WbStage.constructor | src/1_digital/classical/classical_wb.cpp:16-35 | the stage has `REG_FILE_NUM` registers and nothing pending |
| ClassicalWb.WbStage.Mem2WbFf | src/1_digital/classical/classical_wb.cpp:39-54 | one clock registers run, enable and destination, and the value to write: the execute result when `ex2reg` is set, the loaded value otherwise |
| ClassicalWb.WbStage.WriteRegFile | src/1_digital/classical/classical_wb.cpp:56-85 | `init` clears every register, then a running instruction that writes its destination stores the registered value there |
| ClassicalWb.CommitMatchesForward | src/1_digital/classical/classical_wb.cpp:56-85 | after the write lands each register reads what the execute stage forwarded one cycle earlier from the write-back stage |
| ClassicalWb.CommitTouchesOnlyDestination | src/1_digital/classical/classical_wb.cpp:69-72 | a write changes only its destination register; after `init` every other register is zero |
| ExeFlagGen.LogStep | src/1_digital/cclight/exe_flag_gen.cpp:16-43 | one clock keeps the history three entries long |
| ExeFlagGen.ExeFlags | src/1_digital/cclight/exe_flag_gen.cpp:45-60 | the intended flags: bit 0 is always set, bit 1 is the last result and bit 2 its complement (exactly one of the two is set), bit 3 is set exactly when the last two results differ |
| ExeFlagGen.ExeFlagsAsWritten | src/1_digital/cclight/exe_flag_gen.cpp:45-60 | the flags as written: bits 0, 1 and 3 as intended, but bit 2 is set whatever the history holds |
| ExeFlagGen.Bit2AsWritten | src/1_digital/cclight/exe_flag_gen.cpp:55 | `~` of a one-bit value widened to 64 bits is never zero, so bit 2 as written is set after a result of 1 where the intended bit is clear; every other bit agrees |
| ExeFlagGen.LogRun | src/1_digital/cclight/exe_flag_gen.cpp:16-43 | a run of clocks keeps the history three entries long |
| ExeFlagGen.LogRunRemembers | src/1_digital/cclight/exe_flag_gen.cpp:30-41 | without reset and with every result enabled, the history is a shift register: the last results, newest first, then what it held before |
| ExeFlagGen.FlagsAfterTwoResults | src/1_digital/cclight/exe_flag_gen.cpp:16-60 | after two enabled results `a` then `b` the flags as written are: always 1, `b`, always 1, `a` differs from `b`; the intended flags would have `not b` as bit 2 |
| ExeFlagGen.FceLogic.constructor | src/1_digital/cclight/exe_flag_gen.cpp:7-14 | the history and the flags start at zero |
| ExeFlagGen.FceLogic.Clock | src/1_digital/cclight/exe_flag_gen.cpp:16-60 | one clock of both threads: the flags as written are computed from the history before the clock (bit 2 always set), and the history is updated |
| ExeFlagGen.ExeFlagGen.constructor | src/1_digital/cclight/exe_flag_gen.cpp:66-85 | one fresh per-qubit unit per qubit, each with a zero history |
| ExeFlagGen.ExeFlagGen.Clock | src/1_digital/cclight/exe_flag_gen.cpp:77-84 | one clock steps every qubit's unit on that qubit's result and enable only, each latching the flags as written |
| MeasIssueGen.OpcodeTestAsWritten | src/1_digital/quantum/tech_ind/meas_issue_gen.cpp:70 | `opcode == 6` as written holds only for a value 0 of width 6, so never for an opcode assigned into a 64-bit `Sim_uint`, while the intended test holds exactly for the value 6 |
| MeasIssueGen.MeasFlagFinding | src/1_digital/quantum/tech_ind/meas_issue_gen.cpp:69-74 | the binary measurement opcode 6 is flagged by the intended test and missed as written; both flags agree on every non-opcode operation |
| MeasIssueGen.MeasFlagAsWrittenMeaning | src/1_digital/quantum/tech_ind/meas_issue_gen.cpp:65-95 | the flag as written accepts the same operations as the intended one, and is raised exactly for a named operation containing `Meas` or `meas` or an opcode of value 0 and width 6 |
| MeasIssueGen.MeasFlagMeaning | src/1_digital/quantum/tech_ind/meas_issue_gen.cpp:65-95 | an operation is accepted exactly when its representation is opcode, name or undefined; it is flagged exactly when its opcode value is 6 or its name contains `Meas` or `meas` |
| MeasIssueGen.EnablesFromMeaning | src/1_digital/quantum/tech_ind/meas_issue_gen.cpp:65-95 | building from operation `k` succeeds iff every later operation is supported, and appends the flag as written of every later operation, in order |
| MeasIssueGen.EnablesMeaning | src/1_digital/quantum/tech_ind/meas_issue_gen.cpp:65-95 | one enable per operation, equal to its flag as written; an unsupported representation anywhere aborts |
| MeasIssueGen.DoOutput | src/1_digital/quantum/tech_ind/meas_issue_gen.cpp:35-100 | the loop of one cycle, with the opcode test as written, computes the record `MeasIssue` specifies |
| MeasIssueGen.MeasIssueShape | src/1_digital/quantum/tech_ind/meas_issue_gen.cpp:46-98 | reset reports `num_qubits` lowered enables; otherwise the cycle succeeds iff every operation is supported, with one enable per operation equal to its flag as written and no other measurement field set |
| ValidMsmtMaskGen.Zeros | src/1_digital/cclight/valid_msmt_mask_gen.h:76-125 | an all-zero vector of the given width |
| ValidMsmtMaskGen.Masked | src/1_digital/cclight/valid_msmt_mask_gen.h:127-130 | the low DIO bits ANDed bit by bit with the mask |
| ValidMsmtMaskGen.ResultsFollowTheMask | src/1_digital/cclight/valid_msmt_mask_gen.h:119-155 | a result is reported only on a rising edge of the DIO strobe and only for qubits in the mask, with data the masked DIO bit; the strobe cannot rise on two clocks in a row, so each pulse reports once |
| ValidMsmtMaskGen.MaskValidTwoClocksAfterRead | src/1_digital/cclight/valid_msmt_mask_gen.h:71-116 | from idle with a non-empty FIFO and a low strobe, the first clock reads a mask, no second read follows, and the mask becomes valid on the third clock |
| ValidMsmtMaskGen.ValidMsmtMaskGen.constructor | src/1_digital/cclight/valid_msmt_mask_gen.h:57-67 | every register starts low |
| ValidMsmtMaskGen.ValidMsmtMaskGen.BufferedMaskValid | src/1_digital/cclight/valid_msmt_mask_gen.h:70-88 | the buffered mask is cleared on reset and copied otherwise; the valid bit is cleared by a rising edge, else set by a read two clocks old, else cleared by reset, else kept |
| ValidMsmtMaskGen.ValidMsmtMaskGen.ReadEnableGen | src/1_digital/cclight/valid_msmt_mask_gen.h:90-116 | a read is issued exactly as `ReadNow` decides, and the two-bit delay line shifts, restarting at 1 on a read |
| ValidMsmtMaskGen.ValidMsmtMaskGen.MsmtResultGen | src/1_digital/cclight/valid_msmt_mask_gen.h:118-134 | on a rising edge the data are the masked DIO bits and the valid bits the mask; otherwise both are zero |
| ValidMsmtMaskGen.ValidMsmtMaskGen.Clock | src/1_digital/cclight/valid_msmt_mask_gen.h:70-164 | one clock of all threads, each reading the registers before the clock, moves the registers as `Step` says |
| IcacheSlice.Held | src/1_digital/classical/icache_slice.cpp:31-115 | the slice holds at most two beats |
| IcacheSlice.StepIsFifo | src/1_digital/classical/icache_slice.cpp:31-115 | without reset one edge keeps the held beats in order, less the one the pipeline took, followed by the one the cache delivered: nothing is lost, duplicated or reordered |
| IcacheSlice.PipelineSeesOldest | src/1_digital/classical/icache_slice.cpp:131-141 | the pipeline sees a valid beat exactly when the slice holds one, and it is the oldest |
| IcacheSlice.StepKeepsWellformed | src/1_digital/classical/icache_slice.cpp:31-48 | reset empties the slice and every edge keeps its invariant |
| IcacheSlice.CacheReadyIffRoom | src/1_digital/classical/icache_slice.cpp:83-92 | the cache sees the slice ready exactly when it holds fewer than two beats |
| IcacheSlice.EmptySliceLatencyOne | src/1_digital/classical/icache_slice.cpp:50-68 | a beat offered to an empty slice reaches the pipeline on the next edge |
| IcacheSlice.Slice.constructor | src/1_digital/classical/icache_slice.cpp:31-48 | both buffer flags start false |
| IcacheSlice.Slice.Clock | src/1_digital/classical/icache_slice.cpp:31-141 | one clock edge of both buffers moves the state as `Step` says |
| ClassicalFetch.SignalUpdate | src/1_digital/classical/classical_fetch.cpp:40-54 | the initial PC, reset, branch report, instruction and quantum-ready flag are forwarded, the cache's valid bit feeding both the branch-done valid and the instruction valid |
| ClassicalFetch.NormalPcAdvances | src/1_digital/classical/classical_fetch.cpp:56-68 | the sequential PC moves exactly when a valid instruction runs, then to the next address, wrapping from the last address to 0 |
| ClassicalFetch.ResetDlyLastsUntilClock | src/1_digital/classical/classical_fetch.cpp:70-76 | once reset is released the delayed reset survives exactly as long as the decode clock stays disabled |
| ClassicalFetch.ResetDlyStaysClear | src/1_digital/classical/classical_fetch.cpp:70-76 | without reset a cleared delayed reset never rises again |
| ClassicalFetch.BrOffset | src/1_digital/classical/classical_fetch.cpp:80-85 | the offset read as a 21-bit two's-complement number: in range, congruent to the input, and unchanged when already in range |
| ClassicalFetch.TargetOfBinaryField | src/1_digital/classical/classical_fetch.cpp:78-95 | a 21-bit field below 2^20 branches forward by its value, from 2^20 up backwards; the target is PC plus field modulo the address space |
| ClassicalFetch.BranchReachesLabel | src/1_digital/classical/classical_fetch.cpp:78-95 | the offset an assembled branch stores (label minus PC, wrapped to 32 bits) makes the target adder reach the label, forwards or backwards |
| ClassicalFetch.StartUpLoadsInitPc | src/1_digital/classical/classical_fetch.cpp:70-95 | in the first enabled cycle after reset, with no running branch in decode, the PC is loaded with the initial PC |
| ClassicalFetch.IfRunBranchLatency | src/1_digital/classical/classical_fetch.cpp:97-112 | without a valid instruction `run` passes through; a branch start drops it unless the cache reports the branch done in the same cycle, which raises it |
| GenericIf.SimUintOfWidth | src/0_core/generic_if.h:76-79 | a `Sim_uint` built from a width holds value 0 with exactly that width |
| GenericIf.AssignUint | src/0_core/generic_if.h:58-62 | assigning an `unsigned int` replaces the value (taken modulo 2^32) and keeps the width unchecked |
| GenericIf.SimUintEq | src/0_core/generic_if.h:65-67 | two `Sim_uint`s compare equal exactly when value and width both agree |
| GenericIf.ResetBareQop | src/0_core/generic_if.h:191-198 | reset leaves type `REPR_UNDEF`, an empty name, pulse and matrix, and zero opcode and codeword that keep their widths |
| GenericIf.BareQopEqMeaning | src/0_core/generic_if.h:232-253 | operation equality holds exactly when the types agree and so does the one payload the type selects; two undefined operations are always equal |
| GenericIf.BareQopEqEquivalence | src/0_core/generic_if.h:232-253 | operation equality is reflexive, symmetric and transitive |
| GenericIf.AssignBareQopEq | src/0_core/generic_if.h:201-228 | after assignment the destination compares equal to the source, although the payloads the type does not select stay those of the old destination |
| GenericIf.AssignBareQopSelf | src/0_core/generic_if.h:201-228 | assigning an operation to itself changes nothing |
| GenericIf.ResetTgtAddr | src/0_core/generic_if.h:432-437 | a target-address reset zeroes the register number and both masks (keeping widths), restores the (UNDEF, SINGLE) type and empties both lists |
| GenericIf.MaskReg.constructor | src/0_core/generic_if.h:458-472 | a new mask-register file has element 0 of each bank at width 0, the other 31 at the default width 64, and 32 empty content lists per bank |
| GenericIf.MaskReg.SetRegMask | src/0_core/generic_if.h:486-493 | writing a mask changes only the register the type and number select, and reading it back returns the mask |
| GenericIf.MaskReg.SetSRegContent | src/0_core/generic_if.h:505-507 | writing single-qubit contents replaces one register's list, reads back the same and changes nothing else |
| GenericIf.MaskReg.SetMRegContent | src/0_core/generic_if.h:510-513 | writing multi-qubit contents replaces one register's tuple list, reads back the same and changes nothing else |
| GenericIf.MaskReg.ResetAsWritten | src/0_core/generic_if.h:476-483 | the reset as written zeroes all 64 masks and clears the single-qubit contents, but leaves the multi-qubit contents as they were |
| GenericIf.MaskReg.Reset | src/0_core/generic_if.h:476-483 | the corrected reset zeroes all masks and clears both banks of contents |
| GenericIf.TimingEqMeaning | src/0_core/generic_if.h:572-587 | timing equality is an equivalence that compares exactly the fields the timing type uses |
| GenericIf.ResetQop | src/0_core/generic_if.h:602-606 | a reset operation is invalid, with default timing and the reset operation and address |
| GenericIf.FledgedQopEqValid | src/0_core/generic_if.h:609-625 | equal operations agree on validity, and equality is reflexive |
| GenericIf.ResetInterface | src/0_core/generic_if.h:697-703 | a reset interface carries no content, no addresses and no operations, with default timing and type, and keeps its VLIW width |
| GenericIf.ResetInterfaceWithOps | src/0_core/generic_if.h:697-703 | the reset interface pipeline stages output on reset carries the requested number of invalid operations |
| QDataType.MultiQInsnEq | src/0_core/q_data_type.cpp:8-10 | the instruction comparison holds exactly when the two instructions are identical |
| QDataType.TimingPointEq | src/0_core/q_data_type.cpp:31-33 | the timing-point comparison holds exactly when the two points are identical |
| QDataType.OperationEq | src/0_core/q_data_type.cpp:56-58 | the operation comparison holds exactly when the two operations are identical |
| QDataType.CsLineEq | src/0_core/q_data_type.cpp:93-96 | the control-store line comparison holds exactly when the two lines are identical |
| QDataType.MicroOperationEq | src/0_core/q_data_type.cpp:248-251 | the micro-operation comparison holds exactly when the two micro-operations are identical |
| QDataType.MicroOperationForQubitEq | src/0_core/q_data_type.cpp:327-329 | the per-qubit micro-operation comparison holds exactly when the two are identical |
| QDataType.OperationOrComm | src/0_core/q_data_type.cpp:62-64 | the OR of two operations does not depend on their order |
| QDataType.OperationOrAssoc | src/0_core/q_data_type.cpp:62-64 | the OR of operations is associative |
| QDataType.OperationOrUnit | src/0_core/q_data_type.cpp:62-71 | the OR of operations is idempotent and the reset (zero) operation is its unit |
| QDataType.OperationOrLaws | src/0_core/q_data_type.cpp:62-71 | the OR of operations is commutative, associative and idempotent with the zero operation as unit |
| QDataType.OperationOrNop | src/0_core/q_data_type.cpp:62-66 | an OR of operations is a no-op exactly when both operands are |
| QDataType.MicroOperationOrLaws | src/0_core/q_data_type.cpp:261-265 | the micro-operation OR is commutative and associative |
| QDataType.MicroOperationOrUnit | src/0_core/q_data_type.cpp:261-282 | the micro-operation OR is idempotent, has the reset micro-operation as unit, and is a no-op exactly when both operands are |
| QDataType.OperationVar.constructor | src/0_core/q_data_type.cpp:51-54 | a new operation holds the given type and codeword |
| QDataType.OperationVar.Reset | src/0_core/q_data_type.cpp:68-71 | after reset the operation is the zero operation and a no-op |
| QDataType.MicroOperationVar.constructor | src/0_core/q_data_type.cpp:231-238 | a new micro-operation holds the given fields |
| QDataType.MicroOperationVar.OrAssign | src/0_core/q_data_type.cpp:267-273 | the in-place OR leaves the micro-operation equal to the OR of its old value and the operand, and returns that value |
| QDataType.MicroOperationVar.Reset | src/0_core/q_data_type.cpp:277-282 | after reset the micro-operation is the zero micro-operation and a no-op |
| QDataType.MicroOperationForQubitVar.constructor | src/0_core/q_data_type.cpp:315-320 | a new per-qubit micro-operation holds the given fields |
| QDataType.MicroOperationForQubitVar.OrAssign | src/0_core/q_data_type.cpp:331-336 | the in-place OR combines the operations and the condition bits and returns the new value |
| QDataType.OpSelName | src/0_core/q_data_type.cpp:134-154 | a selector prints as `[mux: ` followed by its word and a closing bracket |
| QDataType.OpSelNameInjective | src/0_core/q_data_type.cpp:119-154 | different selector values print differently; 0 prints `nop` and 3 prints `single` |
| AddrMaskDecoder.CopyKeepsValidity | src/1_digital/quantum/tech_ind/addr_mask_decoder.cpp:77-80 | a hardwired copy of the bundle's operation is valid exactly when that operation is |
| AddrMaskDecoder.Cleared | src/1_digital/quantum/tech_ind/addr_mask_decoder.cpp:50-52 | clearing the lanes keeps their number and leaves every lane a reset, invalid operation |
| AddrMaskDecoder.ResetLanes | src/1_digital/quantum/tech_ind/addr_mask_decoder.cpp:50-52 | the loop that resets every lane computes the cleared lanes |
| AddrMaskDecoder.MaskSingleMeaning | src/1_digital/quantum/tech_ind/addr_mask_decoder.cpp:70-88 | a single-qubit mask decodes exactly when every set bit names a qubit; then exactly the lanes of the set bits hold a hardwired copy carrying their own index, and the rest are untouched |
| AddrMaskDecoder.DecodeSingleMask | src/1_digital/quantum/tech_ind/addr_mask_decoder.cpp:74-84 | the loop over the mask bits computes the mask's single-qubit decoding |
| AddrMaskDecoder.FirstContaining | src/1_digital/quantum/tech_ind/addr_mask_decoder.cpp:96-115 | the search returns the first qubit whose edge list holds the edge, or reports that no list holds it |
| AddrMaskDecoder.FindEdgeEnd | src/1_digital/quantum/tech_ind/addr_mask_decoder.cpp:96-105 | the `std::find` loop over the qubits' edge lists returns the first qubit holding the edge |
| AddrMaskDecoder.FirstContainingSpread | src/1_digital/quantum/tech_ind/addr_mask_decoder.cpp:7-14 | over the configured topology an edge is found at its source among the out-lists and at its target among the in-lists; an unconfigured edge index is found nowhere |
| AddrMaskDecoder.PairWrite | src/1_digital/quantum/tech_ind/addr_mask_decoder.cpp:118-131 | writing one pair keeps the number of lanes |
| AddrMaskDecoder.PairWriteMeaning | src/1_digital/quantum/tech_ind/addr_mask_decoder.cpp:118-131 | for two distinct ends each holds the hardwired copy with the pair appended once, and no other lane changes |
| AddrMaskDecoder.PairWriteEnds | src/1_digital/quantum/tech_ind/addr_mask_decoder.cpp:118-131 | both ends of a written pair hold the hardwired copy with the pair appended, once for distinct ends and twice when the two ends are one lane |
| AddrMaskDecoder.MaskMultiMeaning | src/1_digital/quantum/tech_ind/addr_mask_decoder.cpp:89-141 | a two-qubit mask decodes exactly when every set bit selects an edge between two qubits; then lanes that end no selected edge are untouched and every other lane holds a hardwired copy whose last tuple is a pair containing it (which pair: `AddrMaskDecoder.MaskMultiLastWins`) |
| AddrMaskDecoder.MaskMultiLastWins | src/1_digital/quantum/tech_ind/addr_mask_decoder.cpp:89-141 | later mask bits overwrite earlier ones: a lane that ends the edge of a set bit, and of no later set bit, holds the hardwired copy whose tuple list is the operation's own plus the pair (source end, target end) of that edge; for a self-loop edge the pair is appended twice |
| AddrMaskDecoder.DecodeMultiMask | src/1_digital/quantum/tech_ind/addr_mask_decoder.cpp:93-136 | the loop over the mask bits with its two edge-list searches computes the two-qubit mask decoding |
| AddrMaskDecoder.ContentSingleMeaning | src/1_digital/quantum/tech_ind/addr_mask_decoder.cpp:156-167 | a register's qubit list decodes exactly when every listed qubit has a lane; then exactly the listed lanes hold the copy with their own index |
| AddrMaskDecoder.MockExpanded | src/1_digital/quantum/tech_ind/addr_mask_decoder.cpp:148-154 | a `mock_meas` operation is rewritten to address every qubit; any other operation is left as it is |
| AddrMaskDecoder.DecodeSingleContent | src/1_digital/quantum/tech_ind/addr_mask_decoder.cpp:156-167 | the loop over the register's qubit list computes its decoding |
| AddrMaskDecoder.ContentMultiMeaning | src/1_digital/quantum/tech_ind/addr_mask_decoder.cpp:172-199 | a register's pair list decodes exactly when every tuple names two lanes; then a lane named by no tuple is untouched, and a named lane holds the copy with the pair of the last tuple that names it |
| AddrMaskDecoder.ContentMultiLastWins | src/1_digital/quantum/tech_ind/addr_mask_decoder.cpp:172-199 | later tuples overwrite earlier ones: after a successful decode a lane named by no tuple keeps its value and a named lane holds the copy with the pair of the last tuple naming it |
| AddrMaskDecoder.DecodeMultiContent | src/1_digital/quantum/tech_ind/addr_mask_decoder.cpp:175-199 | the loop over the register's pair list computes its decoding |
| AddrMaskDecoder.LanesAreCopies | src/1_digital/quantum/tech_ind/addr_mask_decoder.cpp:65-212 | there is one decoded lane per qubit, and each is either still cleared, and so invalid, or a hardwired copy of the bundle's operation under the interface's timing |
| AddrMaskDecoder.MockMeasReachesEveryQubit | src/1_digital/quantum/tech_ind/addr_mask_decoder.cpp:148-167 | a `mock_meas` addressed through a register reaches every qubit, each lane holding the copy with its own index |
| AddrMaskDecoder.DefaultMask8100 | src/1_digital/quantum/tech_ind/addr_mask_decoder.cpp:89-141 | on the default seven-qubit topology the two-qubit mask 0x8100 selects edges 8 and 15, so exactly lanes 0, 2, 4 and 6 hold the operation, each with its pair |
| AddrMaskDecoder.AddressDecoder.constructor | src/1_digital/quantum/tech_ind/addr_mask_decoder.cpp:7-41 | the decoder takes the qubit count and edge lists from the configuration and starts with one default operation per qubit |
| AddrMaskDecoder.AddressDecoder.MaskDecode | src/1_digital/quantum/tech_ind/addr_mask_decoder.cpp:30-216 | on reset the emptied interface carries the cleared lanes; otherwise the input interface carries the decoded lanes, or the simulation aborts on an out-of-range qubit |
| MaskRegFile.Cleared | src/1_digital/quantum/tech_ind/mask_reg_file.cpp:41-43 | the register file after the reset as written is still well formed (32 registers per bank), and keeps the multi-qubit pair lists |
| MaskRegFile.ClearedReadsEmpty | src/1_digital/quantum/tech_ind/mask_reg_file.cpp:41-43 | after the reset as written every mask register reads as 0 and every single-qubit list as empty, while a multi-qubit pair list still reads what it held before |
| MaskRegFile.ReadInterface | src/1_digital/quantum/tech_ind/mask_reg_file.cpp:106-153 | outside reset the output never carries a register update; with an operation it carries exactly that operation with its register read out, and fails exactly when that read fails; without one it passes the operations through |
| MaskRegFile.ReadAfterWrite | src/1_digital/quantum/tech_ind/mask_reg_file.cpp:48-85 | a register written by an SMIS/SMIT address is read back by a later operation of the same addressing type on the same register: its mask, or its qubit or pair list |
| MaskRegFile.WriteKeepsOtherRegisters | src/1_digital/quantum/tech_ind/mask_reg_file.cpp:48-85 | a write leaves every other register alone: an operation of another addressing type or another register reads the same before and after |
| MaskRegFile.MaskRegisterFile.constructor | src/1_digital/quantum/tech_ind/mask_reg_file.cpp:12-24 | the register file starts as a fresh mask-register object |
| MaskRegFile.MaskRegisterFile.DoWrite | src/1_digital/quantum/tech_ind/mask_reg_file.cpp:26-87 | on reset the file is cleared as written, keeping the pair lists; otherwise an interface carrying register updates writes its addresses in order, and the cycle fails exactly when one of those writes names a register beyond 31 |
| MaskRegFile.MaskRegisterFile.DoRead | src/1_digital/quantum/tech_ind/mask_reg_file.cpp:89-155 | on reset the emptied interface is output; otherwise the interface's operation has its register read out of the current file |
| OperationCombiner.Blank | src/1_digital/quantum/tech_ind/operation_combiner.cpp:59-60 | the cleared working interface has no content and one invalid operation per qubit |
| OperationCombiner.MergeOpsMeaning | src/1_digital/quantum/tech_ind/operation_combiner.cpp:80-97 | merging a lane's operations succeeds exactly when each has a qubit slot and no qubit is claimed twice; then each slot holds the incoming valid operation, or keeps its own |
| OperationCombiner.MergeOpsSymmetric | src/1_digital/quantum/tech_ind/operation_combiner.cpp:80-97 | whether a merge succeeds, and which valid operations it yields, does not depend on which list is merged into which |
| OperationCombiner.MergeOps | src/1_digital/quantum/tech_ind/operation_combiner.cpp:80-97 | the loop over one lane's operations computes the merge, including its abort on a clash |
| OperationCombiner.MergeLanesSucceeds | src/1_digital/quantum/tech_ind/operation_combiner.cpp:72-98 | merging all VLIW lanes succeeds exactly when no two lanes claim the same qubit |
| OperationCombiner.MergeLanesOps | src/1_digital/quantum/tech_ind/operation_combiner.cpp:72-98 | after a successful merge a qubit some lane claims holds that lane's operation, and every other qubit keeps its own |
| OperationCombiner.MergeLanesTakesLast | src/1_digital/quantum/tech_ind/operation_combiner.cpp:76-78 | after merging some lanes the content flags, timing and VLIW width are those of the last lane |
| OperationCombiner.CombineLanes | src/1_digital/quantum/tech_ind/operation_combiner.cpp:72-98 | the loop over the VLIW lanes computes the lane merge |
| OperationCombiner.HasValidOp | src/1_digital/quantum/tech_ind/operation_combiner.cpp:101-107 | the search loop reports a valid operation exactly when one exists |
| OperationCombiner.MergedCarriesLaneOps | src/1_digital/quantum/tech_ind/operation_combiner.cpp:72-114 | a merged interface that claims an operation carries a valid one, and every valid operation it carries comes from some lane |
| OperationCombiner.AbsorbMeaning | src/1_digital/quantum/tech_ind/operation_combiner.cpp:127-159 | folding a bundle into the cache succeeds exactly when the labels agree and no qubit is claimed by both; the result keeps the cache's timing, holds both bundles' valid operations, and announces an operation or a wait when either did |
| OperationCombiner.AbsorbBundle | src/1_digital/quantum/tech_ind/operation_combiner.cpp:127-159 | the statements of the matching branch compute the fold and keep the number of qubit slots |
| OperationCombiner.OperationCombiner.constructor | src/1_digital/quantum/tech_ind/operation_combiner.cpp:15-43 | the combiner starts with a cached blank interface of one operation per qubit, timestamp 0 and no match |
| OperationCombiner.OperationCombiner.DetectTimestampMatch | src/1_digital/quantum/tech_ind/operation_combiner.cpp:164-181 | every lane overwrites the flag, so it ends as reset or the last lane's label equalling the timestamp; with no lanes it is not written |
| OperationCombiner.OperationCombiner.DoOutput | src/1_digital/quantum/tech_ind/operation_combiner.cpp:47-162 | reset clears the timestamp and sends and caches a blank interface; otherwise a new label sends the cached bundle and caches the merged one, and the awaited label sends a blank interface and folds the merged bundle into the cache, aborting on any clash |
| QDecoderAsm.ResetOps | src/1_digital/quantum/tech_ind/q_decoder_asm.cpp:246-250 | the padding holds the requested number of reset, invalid operations |
| QDecoderAsm.AsmSetAddr | src/1_digital/quantum/tech_ind/q_decoder_asm.cpp:106-157 | SMIS and SMIT write an indirect register-content address naming the instruction's register and carrying its qubit list or pair list, with the number of qubits as width |
| QDecoderAsm.AsmOp | src/1_digital/quantum/tech_ind/q_decoder_asm.cpp:220-233 | each named operation of a bundle becomes a valid operation |
| QDecoderAsm.BundleOps | src/1_digital/quantum/tech_ind/q_decoder_asm.cpp:220-238 | a bundle's operations are padded to exactly the VLIW width |
| QDecoderAsm.DecodeShape | src/1_digital/quantum/tech_ind/q_decoder_asm.cpp:82-239 | decoding aborts exactly on a bundle wider than the VLIW width; every decoded interface carries exactly the VLIW width of operations and at most one of an operation bundle and a mask write |
| QDecoderAsm.DecodeWait | src/1_digital/quantum/tech_ind/q_decoder_asm.cpp:159-207 | a QWAIT, QWAITR or bundle wait is flagged exactly when it is longer than 0 cycles, with its length in the timing; QWAITR takes its length from the register; mask writes and non-quantum instructions carry no wait |
| QDecoderAsm.DecodeBundleOps | src/1_digital/quantum/tech_ind/q_decoder_asm.cpp:191-238 | lane `i` of a decoded bundle is valid exactly when the bundle names an operation for it, and then carries the `i`-th name, target type and register with the interface's timing |
| QDecoderAsm.DecodeSetAddr | src/1_digital/quantum/tech_ind/q_decoder_asm.cpp:106-157 | a decoded mask write names its register and carries the listed qubits or pairs |
| QDecoderAsm.WaitAgreesWithBinary | src/1_digital/quantum/tech_ind/q_decoder_asm.cpp:159-189 | the assembly and binary decoders produce the same interface for QWAIT (below 2^20) and QWAITR |
| QDecoderAsm.QDecoderAsm.constructor | src/1_digital/quantum/tech_ind/q_decoder_asm.cpp:10-35 | the decoder takes its VLIW width and qubit count from the configuration |
| QDecoderAsm.QDecoderAsm.Output | src/1_digital/quantum/tech_ind/q_decoder_asm.cpp:39-80 | reset and an invalid bundle give the no-operation interface; a valid bundle gives its decoding, and a decoding error aborts the simulation |
| QDecoderAsm.PadWithResetOps | src/1_digital/quantum/tech_ind/q_decoder_asm.cpp:234-238 | the padding loop appends reset operations up to the VLIW width |
| QDecoderAsm.SetWait | src/1_digital/quantum/tech_ind/q_decoder_asm.cpp:159-189 | `set_wait` on a reset interface builds the wait interface |
| QDecoderAsm.SetMask | src/1_digital/quantum/tech_ind/q_decoder_asm.cpp:106-157 | `set_smis` and `set_smit` on a reset interface build the mask-write interface |
| QDecoderAsm.SetQop | src/1_digital/quantum/tech_ind/q_decoder_asm.cpp:191-239 | `set_qop` on a reset interface builds the operation-bundle interface, aborting when the bundle is wider than the VLIW width |
| QDecoderAsm.NamedOps | src/1_digital/quantum/tech_ind/q_decoder_asm.cpp:220-233 | the loop over the operation names builds one operation per name, in order |
| QDecoderBin.EmptyInterface | src/1_digital/quantum/tech_ind/q_decoder_bin.cpp:44-64 | the cleared interface carries no content, no operations and no addresses, and keeps the configured VLIW width |
| QDecoderBin.LaneOp | src/1_digital/quantum/tech_ind/q_decoder_bin.cpp:178-207 | a lane holds a valid operation exactly when the bundle is a VLIW bundle, the lane is 0 or 1, and its opcode field is not zero |
| QDecoderBin.SetAddr | src/1_digital/quantum/tech_ind/q_decoder_bin.cpp:116-170 | SMIS and SMIT write an indirect register-number address with register field [24:20] and the 7-bit single-qubit or 16-bit two-qubit mask, with mask widths 7 and 16 |
| QDecoderBin.QDecoderBin.constructor | src/1_digital/quantum/tech_ind/q_decoder_bin.cpp:5-30 | the decoder takes its VLIW width from the configuration and starts with a default address to set |
| QDecoderBin.QDecoderBin.DoOutput | src/1_digital/quantum/tech_ind/q_decoder_bin.cpp:34-212 | reset and an invalid bundle give the idle interface; a valid bundle gives its decoding; the remembered address changes only on SMIS and SMIT |
| QDecoderBin.VliwOps | src/1_digital/quantum/tech_ind/q_decoder_bin.cpp:178-207 | the lane loop builds one operation per VLIW lane |
| QDecoderBin.OpsShape | src/1_digital/quantum/tech_ind/q_decoder_bin.cpp:71-74 | every output carries exactly the VLIW width of operations, and only lanes 0 and 1 of a VLIW bundle can hold a valid one |
| QDecoderBin.ContentKinds | src/1_digital/quantum/tech_ind/q_decoder_bin.cpp:82-170 | a decoded word carries at most one kind of content besides its wait; the wait is flagged exactly when more than 0 cycles are requested; only SMIS and SMIT carry an address |
| QDecoderBin.SmisExample | src/1_digital/quantum/tech_ind/q_decoder_bin.cpp:98-170 | the word 0x40800028 (`SMIS s8, {3, 5}`) writes single-qubit mask 0x28 to register 8 |
| QDecoderBin.SmitExample | src/1_digital/quantum/tech_ind/q_decoder_bin.cpp:98-170 | the word 0x50208100 (`SMIT t2, {(0, 2), (4, 6)}`) writes two-qubit mask 0x8100 to register 2 |
| QDecoderBin.WaitExamples | src/1_digital/quantum/tech_ind/q_decoder_bin.cpp:107-139 | `QWAIT 10` (0x6000000a) waits 10 cycles; `QWAITR` (0x70000000) waits the register's time, and only when it is non-zero |
| QDecoderBin.VliwExample | src/1_digital/quantum/tech_ind/q_decoder_bin.cpp:92-97 | the word 0x80000241 holds no operation in lane 0, opcode 1 on register 8 in lane 1, and waits 1 cycle |
| QDecoderBin.TwoQubitExample | src/1_digital/quantum/tech_ind/q_decoder_bin.cpp:92-97 | the word 0x80010010 holds two-qubit opcode 0x80 on register 2 in lane 1, addressed as multi-qubit, and carries no wait |
| QTechInd.DecodersFillEveryLane | src/1_digital/quantum/tech_ind/q_tech_ind.cpp:25-29 | whichever decoder the instruction type selects, an accepted bundle fills exactly the VLIW lanes, and only the assembly decoder can refuse one |
| QTechInd.LabelsCountWaits | src/1_digital/quantum/tech_ind/q_tech_ind.cpp:118-135 | a run of interfaces aborts exactly when a wait is not a WAIT_TIME; otherwise the timing stays a timing point and its label has advanced by the number of waits, modulo 2^32 |
| QTechInd.LaneInterface | src/1_digital/quantum/tech_ind/q_tech_ind.cpp:140-149 | lane `i` receives the decoded interface with the stage's timing and operation `i` as its only operation |
| QTechInd.Distribute | src/1_digital/quantum/tech_ind/q_tech_ind.cpp:143-150 | lanes that have an operation in the interface are written, and the others keep what they held |
| QTechInd.Fill | src/1_digital/quantum/tech_ind/q_tech_ind.cpp:157-159 | on reset every lane receives the same interface |
| QTechInd.LaneCarriesItsOperation | src/1_digital/quantum/tech_ind/q_tech_ind.cpp:140-149 | a written lane holds exactly its own operation of the bundle under the stage's timing and content flags |
| QTechInd.QTechInd.constructor | src/1_digital/quantum/tech_ind/q_tech_ind.cpp:13-36 | the stage starts with the default timing and one default interface per VLIW lane |
| QTechInd.QTechInd.DoOutput | src/1_digital/quantum/tech_ind/q_tech_ind.cpp:102-162 | reset restores the timing point with label 0 and sends the emptied interface to every lane; otherwise a wait opens the next timing point (aborting on a wait that is not a WAIT_TIME) and the bundle is distributed over the lanes |
| EventQueueManager.StoppedOrFailedNeverStarts | src/1_digital/quantum/tech_dep/event_queue_manager.cpp:147-189 | an event is started only while running and not in error, and only on a clock that also requests a read |
| EventQueueManager.Countdown | src/1_digital/quantum/tech_dep/event_queue_manager.cpp:192-242 | for an event waiting `w >= 2` clocks, `j` clocks after its start the counter holds `j + 1` and still runs, and the event is released exactly `w - 1` clocks after its start |
| EventQueueManager.CountdownEnds | src/1_digital/quantum/tech_dep/event_queue_manager.cpp:192-242 | an event waiting 1 clock is released on its start clock; after its release an event not followed by a new start stops the counter and resets it to 0 |
| EventQueueManager.EventQueueManager.constructor | src/1_digital/quantum/tech_dep/event_queue_manager.cpp:14-50 | all signals start at their defaults and the 32-entry queue is empty |
| EventQueueManager.EventQueueManager.WriteFifo | src/1_digital/quantum/tech_dep/event_queue_manager.cpp:53-68 | only interfaces that carry a wait are appended to the queue |
| EventQueueManager.EventQueueManager.ReadFifo | src/1_digital/quantum/tech_dep/event_queue_manager.cpp:71-98 | the almost-full flag reports 16 or more queued events; a read request takes the front event and reports whether the queue has run empty, and without one nothing changes |
| EventQueueManager.EventQueueManager.CounterControl | src/1_digital/quantum/tech_dep/event_queue_manager.cpp:115-134 | running on an empty queue sets the error state, which is never cleared; the run input is synchronised and its edge delayed by one clock |
| EventQueueManager.EventQueueManager.Settle | src/1_digital/quantum/tech_dep/event_queue_manager.cpp:101-112 | the combinational threads compute the rising edge of run, the read request and the counter start from the registered signals |
| EventQueueManager.EventQueueManager.CountFinish | src/1_digital/quantum/tech_dep/event_queue_manager.cpp:192-242 | one clock of the countdown registers takes the step the countdown lemmas are stated over |
| EventQueueManager.EventQueueManager.DoOutput | src/1_digital/quantum/tech_dep/event_queue_manager.cpp:245-267 | a released event is output as it was queued; otherwise an emptied interface with one default operation per qubit |
| AnalogDigitalConvert.AtomsFromMembers | src/2_analog_digital_if/analog_digital_convert.cpp:67-136 | an atomic operation is in the list exactly when some qubit contributes it |
| AnalogDigitalConvert.ConvertFromAtoms | src/2_analog_digital_if/analog_digital_convert.cpp:67-136 | the loop over the qubits succeeds exactly when every operation is accepted, and then appends the atomic operations the qubits contribute |
| AnalogDigitalConvert.ConvertFromStamp | src/2_analog_digital_if/analog_digital_convert.cpp:69-72 | a successful pass leaves the moment triggered and stamped with the cycle exactly when some operation is valid |
| AnalogDigitalConvert.ConvertMeaning | src/2_analog_digital_if/analog_digital_convert.cpp:45-140 | reset clears the moment; otherwise the cycle aborts exactly when an operation is not accepted, and the moment lists the atomic operations in qubit order, triggered and stamped exactly when some operation is valid |
| AnalogDigitalConvert.GatesTargetTheirQubits | src/2_analog_digital_if/analog_digital_convert.cpp:107-133 | a single-qubit gate at qubit `k` targets `k` alone; a two-qubit gate whose copies sit at both qubits of its pair is emitted once, from the left qubit, with both targets |
| AnalogDigitalConvert.AdiConvert.constructor | src/2_analog_digital_if/analog_digital_convert.cpp:7-18 | the converter holds the configured opcode-to-name table |
| AnalogDigitalConvert.AdiConvert.AtomOf | src/2_analog_digital_if/analog_digital_convert.cpp:74-133 | the loop body for a valid operation computes its gate name and targets, or the abort |
| AnalogDigitalConvert.AdiConvert.SignalConvert | src/2_analog_digital_if/analog_digital_convert.cpp:45-140 | one cycle of `signal_convert` computes the moment the specification function describes |
| IfQuantumSim.IdleSinceStart | src/3_qubit_sim/quantumsim/if_quantumsim.cpp:428-432 | with no earlier gate on the qubit the idle time is the distance from the start of the circuit to the middle of the current gate, modulo 2^32 |
| IfQuantumSim.IdleIsMidpointGap | src/3_qubit_sim/quantumsim/if_quantumsim.cpp:415-443 | after an earlier gate the idle time is the distance between the middles of the two gates, modulo 2^32; in the circuit's first moment it is half the current gate |
| IfQuantumSim.IdleGapOrWrap | src/3_qubit_sim/quantumsim/if_quantumsim.cpp:434-440 | when the current gate's middle follows the previous one's by less than 2^32 ns the idle time is exactly that gap, and an idling gate is inserted exactly when it is positive; when it precedes it, the difference wraps to a huge duration |
| IfQuantumSim.NamePrefixMeaning | src/3_qubit_sim/quantumsim/if_quantumsim.cpp:316-325 | the key looked up for a gate's time is always a prefix of its name, shorter only in assembly mode for names starting with `r`, `x`, `y` or `z`, where it keeps one or two characters |
| IfQuantumSim.NamePrefixExamples | src/3_qubit_sim/quantumsim/if_quantumsim.cpp:316-325 | `rx90` is timed as `rx`, `x90` as `x`, `ym90` as `ym`, a two-letter `ry` as `r`, `cz` whole, and binary mode uses whole names |
| IfQuantumSim.Record | src/3_qubit_sim/quantumsim/if_quantumsim.cpp:388-401 | recording a gate updates exactly its one or two targets |
| IfQuantumSim.Moment | src/3_qubit_sim/quantumsim/if_quantumsim.cpp:259-412 | a moment without operations changes nothing; a triggered one that succeeds ends the circuit's first operation and records its cycle as the start when it was the first |
| IfQuantumSim.MomentAborts | src/3_qubit_sim/quantumsim/if_quantumsim.cpp:306-337 | a moment aborts exactly when it carries an operation with more than two targets or one whose name has no gate time |
| IfQuantumSim.IdlesArePositive | src/3_qubit_sim/quantumsim/if_quantumsim.cpp:359-361 | an idling gate is only ever requested with a positive duration |
| IfQuantumSim.Bookkeeping | src/3_qubit_sim/quantumsim/if_quantumsim.cpp:388-401 | after a moment a targeted qubit has its gate start at the moment's cycle and its duration from the last operation on it; every other qubit keeps both |
| IfQuantumSim.QuantumSimThread.constructor | src/3_qubit_sim/quantumsim/if_quantumsim.cpp:32-46 | before the first moment the first operation is pending, no call has been made and no qubit has had a gate |
| IfQuantumSim.QuantumSimThread.Idles | src/3_qubit_sim/quantumsim/if_quantumsim.cpp:340-362 | the idle loop requests one idling gate per target with a positive idle time, in target order |
| IfQuantumSim.QuantumSimThread.ApplyGate | src/3_qubit_sim/quantumsim/if_quantumsim.cpp:365-402 | applying an operation adds exactly its simulator calls and changes no bookkeeping |
| IfQuantumSim.QuantumSimThread.ApplyOp | src/3_qubit_sim/quantumsim/if_quantumsim.cpp:300-403 | one operation succeeds exactly when the specification step does, and then leaves its state |
| IfQuantumSim.QuantumSimThread.ApplyOps | src/3_qubit_sim/quantumsim/if_quantumsim.cpp:300-403 | the loop over a moment's operations succeeds exactly when the specification does, and then leaves its state |
| IfQuantumSim.QuantumSimThread.ApplyMoment | src/3_qubit_sim/quantumsim/if_quantumsim.cpp:259-412 | one iteration of `apply_quantum_operation` succeeds exactly when the moment does, and then leaves its state |
| ClassicalDecode.DecodeRegs.constructor | src/1_digital/classical/classical_decode.cpp:19-86 | the decode registers start cleared: PC 0, not running, no reset |
| ClassicalDecode.DecodeRegs.If2DeFf | src/1_digital/classical/classical_decode.cpp:90-113 | one clock copies the reset signals and initial PC, holds `run` while stalled, and loads the branch target or the next PC only when the clock is enabled |
| ClassicalDecode.ClkEn | src/1_digital/classical/classical_decode.cpp:170-204 | the decode clock is enabled exactly when the measurement registers and the quantum pipeline are ready, there is no load-use hazard, STOP has not been seen, and no valid FMR waits for unlocked results |
| ClassicalDecode.HazardStalls | src/1_digital/classical/classical_decode.cpp:186-225 | a load-use hazard is raised exactly for a running LB, LBU or LW whose destination is a used source of the running instruction in decode, and it always disables the decode clock |
| ClassicalDecode.StallFreezesPc | src/1_digital/classical/classical_decode.cpp:106-111 | a cycle stalled by a hazard, STOP or a busy quantum pipeline leaves the decode PC unchanged |
| ClassicalDecode.FmrReadyNext | src/1_digital/classical/classical_decode.cpp:286-296 | readiness is never given while the execute stage measures; while stalled on an FMR it follows the selected qubit's valid bit, otherwise the AND of all valid bits |
| ClassicalDecode.MrfIn | src/1_digital/classical/classical_decode.cpp:115-135 | after `init` every qubit reads result 0 and valid; otherwise the measurement register file's outputs are copied; the ready flag is always set |
| ClassicalDecode.AllValid | src/1_digital/classical/classical_decode.cpp:245-249 | the loop computes the AND of all qubits' valid bits |
| ClassicalDecode.SelectQubit | src/1_digital/classical/classical_decode.cpp:251-282 | the selection loop yields the entry of the qubit the selector names, or 1 when it names none |
| ClassicalDecode.AllValidSelects | src/1_digital/classical/classical_decode.cpp:245-256 | when every qubit's result is valid the selected one is valid too |
| ClassicalDecode.BrStart | src/1_digital/classical/classical_decode.cpp:137-160 | a running BR branches exactly when the delayed flag of its condition is set; otherwise a branch is forced exactly on the first cycle after reset |
| ClassicalDecode.BrAlwaysNever | src/1_digital/classical/classical_decode.cpp:137-160 | with the flags the execute stage fixes, condition 0 always branches and condition 1 never does |
| ClassicalDecode.Imm20Of | src/1_digital/classical/classical_decode.cpp:315-352 | an immediate that fits in 20 signed bits reaches the execute stage unchanged |
| ClassicalDecode.Imm20OfField | src/1_digital/classical/classical_decode.cpp:315-352 | the unsigned 20-bit immediate field arrives sign-extended: fields from 0x80000 up become negative |
| ClassicalDecode.DecodeStage | src/1_digital/classical/classical_decode.cpp:312-358 | the instruction and its opcode are taken when valid and held otherwise; FMR is flagged by opcode 21; the classical and quantum valid bits need a valid instruction and a running stage |
| ClassicalDecode.DecodeValidBits | src/1_digital/classical/classical_decode.cpp:340-342 | without a valid instruction or a running stage neither pipeline receives one, and both are valid only for an instruction that claims both kinds |
| ClassicalExecute.WrapSigned | src/1_digital/classical/classical_execute.cpp:105-107 | a register read as a signed 32-bit value and written back is unchanged, and the signed reading of any wrapped result is its 32-bit two's-complement wrap |
| ClassicalExecute.TruncDivRem | src/1_digital/classical/classical_execute.cpp:176-184 | the C++ remainder is smaller than the divisor in magnitude and carries the dividend's sign |
| ClassicalExecute.BitwiseBit | src/1_digital/classical/classical_execute.cpp:188-206 | each bit of a bitwise result is the bit operation applied to the operands' bits in that position |
| ClassicalExecute.XorSelf | src/1_digital/classical/classical_execute.cpp:199-202 | a value XORed with itself is zero |
| ClassicalExecute.NotNot | src/1_digital/classical/classical_execute.cpp:203-206 | complementing twice gives back every value that fits in the width |
| ClassicalExecute.LogicBits | src/1_digital/classical/classical_execute.cpp:188-206 | OR, AND, XOR and NOT act on each of the 32 register bits independently |
| ClassicalExecute.LogicIdioms | src/1_digital/classical/classical_execute.cpp:199-206 | `xor rd, rs, rs` clears a register and NOT undoes itself |
| ClassicalExecute.Ldui | src/1_digital/classical/classical_execute.cpp:215-221 | LDUI writes the 15-bit immediate into bits 31..17 and keeps bits 16..0 of Rs |
| ClassicalExecute.AddSubInverse | src/1_digital/classical/classical_execute.cpp:158-169 | subtracting what was added gives the register back, overflow or not |
| ClassicalExecute.DivRemExact | src/1_digital/classical/classical_execute.cpp:170-186 | away from `INT_MIN / -1`, DIV and REM give the C++ truncating quotient and remainder, which rebuild the dividend |
| ClassicalExecute.DivOverflow | src/1_digital/classical/classical_execute.cpp:176-184 | `INT_MIN / -1` wraps back to `INT_MIN` with remainder 0 |
| ClassicalExecute.LdiLduiLoadsConstant | src/1_digital/classical/classical_execute.cpp:207-221 | LDI of the low 17 bits followed by LDUI of the high 15 bits loads any 32-bit constant |
| ClassicalExecute.CmpFlagsConditions | src/1_digital/classical/classical_execute.cpp:222-237 | after CMP each "not" code is the negation of its partner, "less or equal" is "less" or "equal" in both the signed and unsigned readings, the readings agree on non-negative operands, and codes 0, 1 and 4..7 are untouched |
| ClassicalExecute.FixFlags | src/1_digital/classical/classical_execute.cpp:57-58 | every cycle flag 0 ("always") is forced to 1 and flag 1 ("never") to 0, and the other flags are kept |
| ClassicalExecute.TestGezAsWritten | src/1_digital/classical/classical_execute.cpp:238-259 | as written the "gez" flag is a copy of "ltz", so a zero register reads as not greater-or-equal to zero |
| ClassicalExecute.TestFlagsConditions | src/1_digital/classical/classical_execute.cpp:238-259 | with the corrected "gez", each test code is the negation of its partner (ltz/gez, notcarry/carry, eqz/nez) and "always" and "never" hold their fixed values |
| ClassicalExecute.ForwardSeesPendingWrites | src/1_digital/classical/classical_execute.cpp:135-153 | a forwarded operand is the register as it will be after the write-back stage's and then the memory stage's pending writes, so the memory stage's value wins |
| ClassicalExecute.MemControl | src/1_digital/classical/classical_execute.cpp:287-331 | LB, LBU, LW, SB and SW all strobe the memory; only loads read and write Rd back; only LB sign-extends; bytes for LB, LBU and SB and words for LW and SW |
| ClassicalExecute.SubcAsWrittenDisagrees | src/1_digital/classical/classical_execute.cpp:260-275 | as written SUBC of two equal registers sets "equal" yet writes a non-zero result: 1 SUBC 1 gives 2 |
| ClassicalExecute.SubcAgreesWithFlags | src/1_digital/classical/classical_execute.cpp:260-275 | with the corrected SUBC the difference written is zero exactly when the flags say "equal" |
| ClassicalExecute.De2Ex | src/1_digital/classical/classical_execute.cpp:52-90 | every decode signal reaches the execute stage one cycle later, except that a stalled decode stage hands over an instruction that neither runs nor issues to the quantum pipeline nor measures |
| ClassicalExecute.ComputeAddress | src/1_digital/classical/classical_execute.cpp:287-331 | a memory instruction drives the address Rs + imm, and an instruction that writes nothing back drives 0 unless it is a store |
| ClassicalExecute.Execute | src/1_digital/classical/classical_execute.cpp:104-358 | nothing happens unless the stage runs; a running activation aborts exactly on a division or remainder by zero or an unknown classical opcode; the fixed flags 0 and 1 are preserved |
| ClassicalExecute.ExecuteOutputs | src/1_digital/classical/classical_execute.cpp:276-355 | a running activation stores Rt for a store, lets the write-back take memory data exactly for memory instructions, enables write-back exactly for opcodes with a result, resolves BR on the flag its condition selects, and raises `done` on STOP; as written, SUBC drives Rs + Rt under the flags of CMP, and TEST and ADDC set "gez" to a copy of "ltz" |
| ClassicalExecute.StallIsBubble | src/1_digital/classical/classical_execute.cpp:62-123 | a stalled decode stage hands the execute stage a bubble: nothing changes and no instruction goes to the quantum pipeline |
| ClassicalExecute.WriteToQpUnforwarded | src/1_digital/classical/classical_execute.cpp:92-102 | the Rs value sent to the quantum pipeline is read straight from the register file, so it differs from the forwarded operand exactly when a later stage is about to write Rs |
| ClassicalMem.ReadLanesWindow | src/1_digital/classical/classical_mem.cpp:128-186 | every case of the byte, half-word and word switch reads the addressed bytes of the little-endian window formed by the word at `addr >> 2` and the word after it, zero-extended |
| ClassicalMem.StoreLanesWindow | src/1_digital/classical/classical_mem.cpp:308-387 | every case of the store switch writes the data's low bytes into the addressed lanes of that window, spilling into the next word, and keeps every other lane |
| ClassicalMem.ExtractDeposit | src/1_digital/classical/classical_mem.cpp:128-186 | reading back the lanes just deposited gives the deposited low bytes |
| ClassicalMem.DepositExtract | src/1_digital/classical/classical_mem.cpp:128-186 | depositing the bytes just extracted leaves the window unchanged |
| ClassicalMem.DepositFrame | src/1_digital/classical/classical_mem.cpp:308-387 | a deposit changes no bit outside the addressed lanes |
| ClassicalMem.ReadData | src/1_digital/classical/classical_mem.cpp:92-186 | an in-range read returns the addressed lanes of the two-word window, the next word being read only when the access spills into it |
| ClassicalMem.Load | src/1_digital/classical/classical_mem.cpp:81-228 | a load aborts exactly when the access runs past the end of memory (`addr >= size`, or `addr > size - 4` for words, `addr > size - 2` for half words), and otherwise returns the addressed bytes |
| ClassicalMem.StoreWords | src/1_digital/classical/classical_mem.cpp:272-306 | a store rewrites only the word at `addr >> 2` and, when it spills over, the word after it, keeping the memory's size |
| ClassicalMem.StoreWordsWindow | src/1_digital/classical/classical_mem.cpp:272-438 | the two affected words after a store are the old window with the data deposited at lane `addr % 4` |
| ClassicalMem.Store | src/1_digital/classical/classical_mem.cpp:260-438 | a store aborts exactly when the access runs past the end of memory, and otherwise yields the rewritten memory of the same size |
| ClassicalMem.LoadAfterStore | src/1_digital/classical/classical_mem.cpp:81-228 | a load of the width and address just stored returns the stored low bytes |
| ClassicalMem.StoreWhatWasLoaded | src/1_digital/classical/classical_mem.cpp:81-228 | storing the value just loaded at the same width and address leaves the memory unchanged |
| ClassicalMem.SignExtendByte | src/1_digital/classical/classical_mem.cpp:466-474 | a loaded byte written back with `sext` reads as its two's-complement value, and without it as its unsigned value |
| ClassicalMem.SignExtendHalf | src/1_digital/classical/classical_mem.cpp:475-482 | the same for a loaded half word |
| ClassicalMem.MemStage.constructor | src/1_digital/classical/classical_mem.cpp:7-45 | the stage starts on the configured data memory with its registers and outputs at their defaults |
| ClassicalMem.MemStage.Ex2MemFf | src/1_digital/classical/classical_mem.cpp:49-67 | every execute signal and the compare flags reach the memory stage one cycle later, and the outputs are untouched |
| ClassicalMem.MemStage.ReadMemCycle | src/1_digital/classical/classical_mem.cpp:69-243 | only a running load reads memory; it aborts exactly when the load is out of range, and otherwise drives the loaded bytes |
| ClassicalMem.MemStage.WriteMemCycle | src/1_digital/classical/classical_mem.cpp:245-453 | only a running store changes memory; it aborts exactly when the store is out of range, leaving memory unchanged, and otherwise memory becomes the stored memory |
| ClassicalMem.MemStage.WriteWords | src/1_digital/classical/classical_mem.cpp:272-306 | the read-modify-write of an in-range store leaves exactly the stored memory in the data-memory array |
| ClassicalMem.MemStage.SignExtendCycle | src/1_digital/classical/classical_mem.cpp:455-495 | the value written back is the memory output sign- or zero-extended according to the access width and `sext` |
| MeasRegFileRtl.CounterAfterIsSum | src/1_digital/classical/meas_reg_file_rtl.cpp:251-288 | a 6-bit counter stepped through a run of increments and decrements holds its start plus their total, modulo 64 |
| MeasRegFileRtl.LockCountsOutstanding | src/1_digital/classical/meas_reg_file_rtl.cpp:205-248 | after reset the interlock counter is the number of measures the classical pipeline issued less those the quantum pipeline issued, modulo 64, and the lock is ready exactly when they agree modulo 64 and no measure is being issued |
| MeasRegFileRtl.LockNextSteps | src/1_digital/classical/meas_reg_file_rtl.cpp:205-248 | simultaneous issues cancel, a lone issue moves the counter by one with 6-bit wrap-around in both directions, reset clears it, and the lock is ready exactly at zero with no measure being issued |
| MeasRegFileRtl.PendingNextSteps | src/1_digital/classical/meas_reg_file_rtl.cpp:272-288 | a qubit's pending counter rises by its issue and falls by its cancel and its result, modulo 64, and reset clears it |
| MeasRegFileRtl.MeasRegFile.constructor | src/1_digital/classical/meas_reg_file_rtl.cpp:8-64 | one pending counter, data bit, output data bit, valid bit and registered qubit-valid bit per configured qubit, all zero, and the registered lock-ready signal low |
| MeasRegFileRtl.MeasRegFile.GenerateSignals | src/1_digital/classical/meas_reg_file_rtl.cpp:297-314 | a qubit's result is valid exactly when it has no pending measurement |
| MeasRegFileRtl.MeasRegFile.Clock | src/1_digital/classical/meas_reg_file_rtl.cpp:205-341 | one clock edge: the lock counter, each pending counter and the data register step as specified from the values before the edge; the output data is the previous data register and ready is raised; each valid output is computed from the registered lock-ready and qubit-valid signals of before the edge; lock-ready is recomputed only when the counter changed, qubit-valid only when a pending counter changed; and a valid output is never raised unless reset is high or the lock counter and that qubit's pending counter were both zero with no measure being issued |
| MeasRegFileRtl.MeasRegFile.WriteCounters | src/1_digital/classical/meas_reg_file_rtl.cpp:235-314 | writing the counters wakes the sensitive threads: lock-ready becomes "counter zero and no classical issue" only when the lock counter changed, and every qubit-valid bit becomes "pending zero" only when some pending counter changed; lock-ready still implies a zero counter and a valid qubit a zero pending counter |
| MeasRegFileRtl.RegisteredValidIsSafe | src/1_digital/classical/meas_reg_file_rtl.cpp:316-341 | a valid output computed from registered signals that agree with the counters is also valid under the combinational definition `OutValidAll` |
| MeasRegFileRtl.OutputValids | src/1_digital/classical/meas_reg_file_rtl.cpp:324-341 | a valid output is high on reset, and otherwise high exactly when the lock is free, no measure is being issued and the qubit is valid |
| MeasRegFileRtl.QubitValidCounter | src/1_digital/classical/meas_reg_file_rtl.cpp:265-293 | the loop over qubits steps every pending counter and replaces exactly the data bits whose result is valid |
| MeasRegFileRtl.PendingAll | src/1_digital/classical/meas_reg_file_rtl.cpp:272-289 | each qubit's counter steps on its own issue, cancel and result only |
| MeasRegFileRtl.DataAll | src/1_digital/classical/meas_reg_file_rtl.cpp:281-293 | a qubit with a valid result takes it and every other qubit keeps its last result |
| MeasRegFileRtl.OutValidAll | src/1_digital/classical/meas_reg_file_rtl.cpp:324-341 | each qubit's valid output is that qubit's `OutValid` |
| MeasRegFileRtl.CountOne | src/1_digital/classical/meas_reg_file_rtl.cpp:273-288 | the step of one qubit's counter is `PendingNext` |
| MeasRegFileRtl.OutValidMeansSettled | src/1_digital/classical/meas_reg_file_rtl.cpp:235-248 | a result is reported valid, outside reset, exactly when no measure is outstanding between the pipelines, none is being issued, and the qubit has nothing pending |
| MeasRegFileRtl.QuantumIssue | src/1_digital/classical/meas_reg_file_rtl.cpp:125-130 | the quantum pipeline issues a measure exactly when some qubit's enable is set, that is when the enables count more than zero |
| MeasRegFileRtl.CountPositive | src/1_digital/classical/meas_reg_file_rtl.cpp:125-130 | a run of flags has a set one exactly when it counts more than zero |
| IcacheRtl.LastIndexOf | src/1_digital/classical/icache_rtl.cpp:116-120 | the result is the position of the last occurrence of the character, or the length when it does not occur |
| IcacheRtl.Expand | src/1_digital/classical/icache_rtl.cpp:112-140 | a macro line expands to three entries, a compare, a `nop` and a branch, each carrying the line's number and trimmed text |
| IcacheRtl.ConvertLineAsWrittenMisreadsLabel | src/1_digital/classical/icache_rtl.cpp:96-110 | as written, the unconditional `br always, subnet` is taken for the `bne` macro and becomes a compare, a `nop` and `br ne, subnet` |
| IcacheRtl.ConvertLineKeepsLabelBranch | src/1_digital/classical/icache_rtl.cpp:96-110 | recognising the macro by its mnemonic keeps `br always, subnet` a single entry |
| IcacheRtl.ConvertLineAsWrittenMeaning | src/1_digital/classical/icache_rtl.cpp:87-141 | as written, a line becomes one entry holding its trimmed text unless `bne` or `beq` occurs anywhere in it in any case, exactly when it becomes compare, `nop`, branch on `ne` (when `bne` occurs) or `eq`; every entry carries the line's number and trimmed text |
| IcacheRtl.ConvertLineMeaning | src/1_digital/classical/icache_rtl.cpp:87-141 | with the macro recognised by its mnemonic, a line becomes one entry holding its trimmed text unless its mnemonic is `bne` or `beq`, exactly when it becomes compare, `nop`, branch; every entry carries the line's number and trimmed text |
| IcacheRtl.ExpandKeepsOperands | src/1_digital/classical/icache_rtl.cpp:112-140 | the compare's operands followed by the branch's comma and label give back everything after the mnemonic, and the branch condition is `ne` for `bne` and `eq` for `beq` |
| IcacheRtl.ConvertLineExample | src/1_digital/classical/icache_rtl.cpp:112-140 | `bne r1, r2, loop` becomes `cmp  r1, r2`, `nop` and `br ne, loop` |
| IcacheRtl.ParseLines | src/1_digital/classical/icache_rtl.cpp:162-168 | line `i` of the file is parsed as line number `i + 1` |
| IcacheRtl.LoadAsmStep | src/1_digital/classical/icache_rtl.cpp:165-194 | loading one more line is one more step of the line loop |
| IcacheRtl.AddLabelFacts | src/1_digital/classical/icache_rtl.cpp:176-177 | a label line keeps every known label at its address and adds at most its own label, at the current count |
| IcacheRtl.LabelsWithinProgram | src/1_digital/classical/icache_rtl.cpp:143-206 | every label the program defines names an entry of the loaded cache or the appended `stop`, and labels already known keep their addresses |
| IcacheRtl.LabelDefinedAt | src/1_digital/classical/icache_rtl.cpp:165-194 | a label the program adds is defined by some line that no earlier line defines, and maps to the number of entries the lines before it emitted |
| IcacheRtl.NoPartDefines | src/1_digital/classical/icache_rtl.cpp:172-177 | a label missing from the map is defined by no line |
| IcacheRtl.LabelOfEarlierLine | src/1_digital/classical/icache_rtl.cpp:172-177 | every line's label is in the map once the program is loaded |
| IcacheRtl.WordOfWordBytes | src/1_digital/classical/icache_rtl.cpp:65-69 | assembling the four little-endian bytes of a word gives the word back |
| IcacheRtl.WordBytesOfWord | src/1_digital/classical/icache_rtl.cpp:65-69 | splitting an assembled word gives its four bytes back |
| IcacheRtl.BinSizeCheckMissesPartialWord | src/1_digital/classical/icache_rtl.cpp:37-69 | as written, a file of `4 * CACHE_SIZE + 1` bytes passes the size check, yet the copy loop writes word `CACHE_SIZE`, one past the end of the cache |
| IcacheRtl.BinSizeAcceptedFits | src/1_digital/classical/icache_rtl.cpp:37-69 | with the corrected check every word the copy loop writes lies in the cache, and the corrected check agrees with the original on whole-word files |
| IcacheRtl.BinImage | src/1_digital/classical/icache_rtl.cpp:20-69 | a binary image always holds exactly `CACHE_SIZE` words |
| IcacheRtl.FetchAddressLoop | src/1_digital/classical/icache_rtl.cpp:208-253 | with one PC register, a ready cycle fetches the target on a branch and the sequential address otherwise, and the next sequential address is one past the fetched one with the branch flag cleared; a stalled cycle fetches and keeps the same address and flag |
| IcacheRtl.AsmEntryAt | src/1_digital/classical/icache_rtl.cpp:337-342 | an assembly fetch reads the entry at the address, or the last entry when the address is past the end |
| IcacheRtl.Icache.constructor | src/1_digital/classical/icache_rtl.cpp:13-21 | the cache starts empty with no labels, the fetch address 0 and all flags and output registers cleared |
| IcacheRtl.Icache.InitMemAsm | src/1_digital/classical/icache_rtl.cpp:143-206 | the assembly cache becomes the loaded entries plus a final `stop`, the label map gains the program's labels, and nothing else changes |
| IcacheRtl.Icache.AsmLine | src/1_digital/classical/icache_rtl.cpp:165-194 | one iteration of the line loop is one `LineStep` of the cache and the label map |
| IcacheRtl.Icache.LabelOfLine | src/1_digital/classical/icache_rtl.cpp:172-177 | a `label:` line inserts its trimmed label at the current count unless the label is already known |
| IcacheRtl.Icache.EntriesOfLine | src/1_digital/classical/icache_rtl.cpp:169-193 | the entries a line appends are `LineEntries`: the instruction after a label when it is the only other part, or the whole line when it has no colon, if it has an alphanumeric character, converted as written |
| IcacheRtl.Icache.LoadWords | src/1_digital/classical/icache_rtl.cpp:20-69 | the copy loop leaves a cache of `CACHE_SIZE` words holding the file's words, then zeros |
| IcacheRtl.Icache.InitMemBin | src/1_digital/classical/icache_rtl.cpp:13-85 | a file whose whole words exceed the cache aborts as the check is written; a file whose partial last word would land at `CACHE_SIZE` passes that check and then aborts on the write past the cache; loading succeeds exactly when every started word fits, and then the cache holds the file's words and the program length is its whole words |
| IcacheRtl.Icache.Clock | src/1_digital/classical/icache_rtl.cpp:208-367 | one clock: the next sequential address and flags follow `CombinationalGen`, a ready cycle fetches the instruction at the fetch address into the first output register and moves the first into the second, and reset clears the branch flags |
| IcacheRtl.Icache.Fetch | src/1_digital/classical/icache_rtl.cpp:331-343 | a binary fetch reads the word at the address and an assembly fetch the entry at the address, or the last entry past the end |
| IcacheRtl.FetchPastEndIsStop | src/1_digital/classical/icache_rtl.cpp:196-200 | after loading, every address at or past the end of the program reads the appended `stop` |
| ConfigReader.InstructionTypeOf | src/0_core/config_reader.cpp:846-861 | instruction type 0 is binary and 1 is assembly; every other value aborts |
| ConfigReader.QubitSimulatorOf | src/0_core/config_reader.cpp:863-880 | only simulator 0 (QuantumSim) is accepted; QICircuit (1) and every other value abort |
| ConfigReader.DataMemorySize | src/0_core/config_reader.cpp:339-380 | a size is accepted exactly when its trimmed text ends in `K`/`k` or `M`/`m` after a non-empty number, and is then that number times 2^10 or 2^20 in 32-bit unsigned arithmetic; `G`/`g` and every other unit abort |
| ConfigReader.StrToUintRoundTrip | src/0_core/num_util.cpp:86-101 | `str_to_uint` reads back every unsigned value printed in decimal |
| ConfigReader.DataMemorySizeOfText | src/0_core/config_reader.cpp:339-380 | a decimal number with a `K`/`k`/`M`/`m` suffix allocates that many kibibytes or mebibytes, modulo 2^32 |
| ConfigReader.DataMemorySizeRejectsGiga | src/0_core/config_reader.cpp:350-358 | a gibibyte size aborts |
| ConfigReader.DefaultEdgesReversed | src/0_core/config_reader.cpp:90-106 | in the default topology edge `i + 8` runs opposite to edge `i` |
| ConfigReader.Spread | src/0_core/config_reader.cpp:108-115 | spreading the edges yields one list per slot |
| ConfigReader.SpreadMembers | src/0_core/config_reader.cpp:108-115 | edge `i` is in qubit `q`'s out-list (in-list) exactly when `q` is its source (target); every list is increasing and holds only spread edges |
| ConfigReader.DefaultEndpointsBelow | src/0_core/config_reader.cpp:90-106 | every default endpoint indexes one of the 16 lists |
| ConfigReader.EdgeIdOffByOne | src/0_core/config_reader.cpp:635-640 | as written the range check accepts an edge id equal to the number of edges, one past the last slot of `directed_edges` |
| ConfigReader.EdgeIdAccepted | src/0_core/config_reader.cpp:635-640 | the corrected check accepts exactly the ids of the `num_directed_edges` slots |
| ConfigReader.EdgeStep | src/0_core/config_reader.cpp:630-657 | an edge passes the id check as written (ids up to the edge count) and the endpoint checks; an accepted edge has an id indexing a slot, and exactly that slot is overwritten with its endpoints |
| ConfigReader.ScanEdges | src/0_core/config_reader.cpp:621-657 | every scan state keeps one slot per configured edge |
| ConfigReader.EdgeStepStores | src/0_core/config_reader.cpp:630-657 | an edge with an in-range id and endpoints in `[0, num_qubits]` is stored at its id |
| ConfigReader.EdgeStepIdPastEnd | src/0_core/config_reader.cpp:630-657 | an edge whose id equals the edge count and whose endpoints are in range passes every check as written and reaches the write past the edge vector; an id below 0 or above the count is refused |
| ConfigReader.ScanEdgesInRange | src/0_core/config_reader.cpp:642-656 | after a successful scan every slot is unfilled or has both endpoints in `[0, num_qubits]` |
| ConfigReader.ScanFailsOnward | src/0_core/config_reader.cpp:630-657 | a failed read or check ends the loop: the whole scan fails |
| ConfigReader.ReadEdge | src/0_core/config_reader.cpp:631-656 | one iteration of the edge loop is one `EdgeStep` |
| ConfigReader.DefaultTablesWellFormed | src/0_core/config_reader.cpp:12-48 | every default table row has the columns its mode reads, with non-empty numbers |
| ConfigReader.MapAfterLastWins | src/0_core/config_reader.cpp:138-163 | the last entry written under a key decides its value |
| ConfigReader.MapAfterUntouched | src/0_core/config_reader.cpp:138-163 | keys nothing writes keep their old value |
| ConfigReader.Stoi | src/0_core/config_reader.cpp:993-1018 | `std::stoi` returns an `int` or throws |
| ConfigReader.StoiOfText | src/0_core/config_reader.cpp:993-1018 | every key that is a decimal number fitting an `int` reads back as that number |
| ConfigReader.NormaliseIdempotent | src/0_core/config_reader.cpp:1005-1009 | normalising a stored gate name again leaves it as it is |
| ConfigReader.BinGateEntryMeaning | src/0_core/config_reader.cpp:993-1013 | a binary-mode entry is read only when the key is a number, stored as an \`unsigned int\` opcode, and names an array of at least two elements whose first, a string, becomes the normalised name |
| ConfigReader.BinGateEntries | src/0_core/config_reader.cpp:991-1014 | a complete read yields one entry per key |
| ConfigReader.BinGateEntriesEach | src/0_core/config_reader.cpp:991-1014 | a complete read yields, for each key in order, exactly the entry that key reads as |
| ConfigReader.AsmGateTimes | src/0_core/config_reader.cpp:1042-1054 | a complete read yields one duration per key |
| ConfigReader.AsmGateEntries | src/0_core/config_reader.cpp:1042-1068 | assembly-mode entries are named by their normalised keys and carry the durations read for them |
| ConfigReader.GateNamesNormal | src/0_core/config_reader.cpp:1005-1065 | every gate name the configuration stores is trimmed and lower-case |
| ConfigReader.Config.constructor | src/0_core/config_reader.cpp:50-116 | 7 qubits, assembly instructions, QuantumSim, empty gate tables, no data memory, and the default topology spread into 16 lists |
| ConfigReader.Config.SpreadEdges | src/0_core/config_reader.cpp:82-115 | each list `q` becomes exactly the indices of the edges leaving (entering) `q`, and nothing else changes |
| ConfigReader.Config.SetTopologyDefault | src/0_core/config_reader.cpp:75-116 | the default edges are spread into 16 lists, and nothing else changes |
| ConfigReader.Config.ReadEdges | src/0_core/config_reader.cpp:616-657 | the edge loop succeeds exactly when the scan of every edge succeeds, and returns the scanned edge vector |
| ConfigReader.Config.SetTypes | src/0_core/config_reader.cpp:846-880 | the switches succeed exactly when both values are accepted, and then set the instruction type and QuantumSim |
| ConfigReader.Config.InitDataMemory | src/0_core/config_reader.cpp:339-380 | a valid size allocates a fresh zeroed data memory of that many bytes; an invalid size aborts |
| ConfigReader.Config.StoreGateEntries | src/0_core/config_reader.cpp:138-163 | the opcode table (binary mode only) and the single- or two-qubit duration map receive the entries, the last write under a key winning; nothing else changes |
| ConfigReader.Config.SetQubitGateDefault | src/0_core/config_reader.cpp:118-165 | binary mode fills the opcode table and both duration maps from the opcode defaults; assembly mode fills only the duration maps from the assembly defaults |
| ConfigReader.Config.ReadQubitGateConfig | src/0_core/config_reader.cpp:949-1072 | the three tables are cleared, then binary mode stores each key's opcode, name and duration and assembly mode each key's duration under its normalised name |
| QasmInstruction.OpcodeOf | src/0_core/qasm_instruction.cpp:1277-1324 | every opcode name maps to a classical opcode below 32, never to one of the unassigned codes |
| QasmInstruction.BrCondOf | src/0_core/qasm_instruction.cpp:1326-1351 | every condition name maps to a 4-bit condition code, never to the unused codes 4..7 |
| QasmInstruction.InsnEq | src/0_core/qasm_instruction.cpp:1266-1269 | two instructions are equal exactly when their kind, address, binary word and assembly text agree |
| QasmInstruction.InsnEqEquivalence | src/0_core/qasm_instruction.cpp:1266-1269 | `operator==` is reflexive, symmetric and transitive, and ignores every decoded field and the line information |
| QasmInstruction.MeasBinaryAsWrittenNever | src/0_core/qasm_instruction.cpp:1130-1132 | as written, a masked field compared with 1 can never equal it, so a binary word is never flagged as a measurement |
| QasmInstruction.MeasBinary | src/0_core/qasm_instruction.cpp:1130-1132 | the corrected test flags exactly the bundle words (bit 31 set) whose lane-0 or lane-1 opcode field equals 1 |
| QasmInstruction.MeasBinaryExample | src/0_core/qasm_instruction.cpp:1130-1132 | the word 0x83000000 is a measurement bundle under the corrected test but not under the test as written |
| QasmInstruction.DecodeBinary | src/0_core/qasm_instruction.cpp:1118-1227 | decoding aborts exactly on a classical word whose opcode has no binary format; otherwise the header records the word and address, the opcode is bits 30..25, the word is classical exactly when bits 31..30 are clear, and the quantum fields stay reset |
| QasmInstruction.DecodeBinaryInRange | src/0_core/qasm_instruction.cpp:1133-1226 | binary fields are extracted unsigned: an immediate lies in 0..2^20-1 and a branch offset in 0..2^21-1, never negative; a decoded word whose immediate and offset fit their signed ranges passes the corrected `verify_parser_result` |
| QasmInstruction.DecodeBinaryExamples | src/0_core/qasm_instruction.cpp:1118-1227 | a quantum word decodes, an ADD word decodes its three registers, and an ADDI word (no binary format) aborts |
| QasmInstruction.ClassifyOpcode | src/0_core/qasm_instruction.cpp:74-123 | an instruction is classical or quantum, never both; a text mentioning `meas` is a quantum measurement; otherwise, when the text has a blank, it is classical exactly when its trimmed lower-cased first word is in the opcode table, and then carries that opcode |
| QasmInstruction.ClassifyUnknownWord | src/0_core/qasm_instruction.cpp:81-99 | a first word that names no opcode makes the line a quantum instruction with opcode NOP |
| QasmInstruction.QInsnTypeOf | src/0_core/qasm_instruction.cpp:621-658 | a text is a quantum operation exactly when it mentions none of smis, smit, qwaitr, qwait, stop and is not a bare `nop` |
| QasmInstruction.WrapInt | src/0_core/qasm_instruction.cpp:171-176 | the branch offset is the unsigned difference read back as a 32-bit two's-complement `int` |
| QasmInstruction.ParseBrSpec | src/0_core/qasm_instruction.cpp:126-182 | an accepted branch has a 4-bit condition, namely the code the trimmed lower-cased first operand names; a branch text without a blank, whose operands are not exactly two comma-separated parts, or whose condition is unknown aborts |
| QasmInstruction.ParseBrTargetsLabel | src/0_core/qasm_instruction.cpp:126-182 | a branch is accepted only when its trimmed target is a known label, and its offset is then the label's address minus the branch's own, wrapped to 32 bits |
| QasmInstruction.BranchOffsetExact | src/0_core/qasm_instruction.cpp:171-176 | within the 31-bit address range the offset is the plain difference, negative for a backward branch |
| QasmInstruction.PairsOfFlatten | src/0_core/qasm_instruction.cpp:748-760 | flattening the pairs gives back every number, in order |
| QasmInstruction.VerifyRotateAngleMeaning | src/0_core/qasm_instruction.cpp:765-816 | an accepted rotation name matches the rotation pattern, its angle is at most 180, and its prefix is its first one or two characters starting with `r`, `x`, `y` or `z` |
| QasmInstruction.VerifyRotateAngleX90 | src/0_core/qasm_instruction.cpp:765-816 | `x90` is accepted with prefix `x` |
| QasmInstruction.VerifyRotateAngleRejects | src/0_core/qasm_instruction.cpp:765-816 | `x270`, `rxm90` and `h` abort |
| QasmInstruction.NameAndRegisterMeaning | src/0_core/qasm_instruction.cpp:840-900 | only `mock_meas` is the mock measurement; any other accepted operation has exactly one number after its name, and a name containing `meas` becomes `measure` |
| QasmInstruction.GateClass | src/0_core/qasm_instruction.cpp:900-925 | an operation is accepted exactly when its prefix (the rotation prefix for rotation names) is a configured single- or two-qubit gate; it then keeps its name, register and mock flag and is addressed as multi-qubit exactly when the prefix is a two-qubit gate |
| QasmInstruction.ParseOneOpMeaning | src/0_core/qasm_instruction.cpp:840-925 | an operation is the mock measurement exactly when its trimmed lower-case text is `mock_meas`, which then has register 0; every register number fits 32 bits |
| QasmInstruction.ParseOps | src/0_core/qasm_instruction.cpp:835-927 | a bundle parsed completely yields one operation per operation text |
| QasmInstruction.SplitTime | src/0_core/qasm_instruction.cpp:822-834 | a bundle with an explicit `N,` prefix waits N and parses the text after the first comma; otherwise it waits 1 and parses the whole text |
| QasmInstruction.ParseQopSpec | src/0_core/qasm_instruction.cpp:818-935 | an accepted bundle records at least one operation, `mock_meas` only alone, and the wait time of its prefix |
| QasmInstruction.WithOps | src/0_core/qasm_instruction.cpp:832-925 | the wait time is set and the operations' names, registers and gate classes are appended; the indices, tuples and type are kept |
| QasmInstruction.QopResult | src/0_core/qasm_instruction.cpp:818-935 | `parse_qop` succeeds exactly when its bundle is accepted, and then some operation is recorded with the bundle's wait time |
| QasmInstruction.ParserResultOffByOne | src/0_core/qasm_instruction.cpp:976-988 | on a 7-qubit chip the qubit index 7 passes the check as written but names no qubit |
| QasmInstruction.ParserResultOkStronger | src/0_core/qasm_instruction.cpp:937-997 | the corrected check implies the check as written, and the two agree when no index or tuple member equals the qubit count |
| QasmInstruction.Instruction.constructor | src/0_core/qasm_instruction.cpp:999-1030 | a new instruction is in the reset state |
| QasmInstruction.Instruction.Reset | src/0_core/qasm_instruction.cpp:999-1030 | `reset` restores registers 0x1F, condition 0xF, zero immediates, cleared flags and empty vectors |
| QasmInstruction.Instruction.SetBinary | src/0_core/qasm_instruction.cpp:1118-1227 | decoding a binary word succeeds exactly when `DecodeBinary` does, and the instruction then holds its result |
| QasmInstruction.Instruction.ParseOpcode | src/0_core/qasm_instruction.cpp:74-123 | the opcode fields become `ClassifyOpcode` of the text, and nothing else changes |
| QasmInstruction.Instruction.ParseBr | src/0_core/qasm_instruction.cpp:126-182 | the condition and the relative branch address are set exactly when `ParseBrSpec` accepts; otherwise the operands are kept |
| QasmInstruction.Instruction.ParseSmis | src/0_core/qasm_instruction.cpp:695-724 | `smis` succeeds exactly when there is no `t` register and at least two numbers, and then appends the register number and every qubit index; a failure changes nothing |
| QasmInstruction.Instruction.ParseSmit | src/0_core/qasm_instruction.cpp:726-763 | `smit` succeeds exactly when there is no `s` register and an odd count of at least three numbers, and then appends the register number and the pairs; a failure changes nothing |
| QasmInstruction.Instruction.ParseQop | src/0_core/qasm_instruction.cpp:818-935 | `parse_qop` succeeds exactly when `QopResult` does, and the quantum fields then become its value |
| QasmInstruction.Instruction.QopOf | src/0_core/qasm_instruction.cpp:818-935 | the parsing half of `parse_qop` computes `QopResult` |
| QasmInstruction.Instruction.VerifyParserResultAsWritten | src/0_core/qasm_instruction.cpp:937-997 | the check as written compares qubit indices with `>` |
| QasmInstruction.Instruction.VerifyParserResult | src/0_core/qasm_instruction.cpp:937-997 | the corrected check requires every qubit index and tuple member to name a qubit, besides the operand ranges |
| QasmInstruction.Instruction.CheckQuantum | src/0_core/qasm_instruction.cpp:976-993 | the loops accept exactly when every tuple member and index is below the bound and every register number below 32 |
| QasmInstruction.ParseEach | src/0_core/qasm_instruction.cpp:835-927 | the loop over a bundle's operations is `ParseOps`, and flags a mock measurement exactly when one was parsed |
| QasmInstruction.ParseOpsFailure | src/0_core/qasm_instruction.cpp:835-927 | a bundle aborts exactly when one of its operations does |
| QasmInstruction.ParseOpsExtends | src/0_core/qasm_instruction.cpp:835-927 | the first operation to abort decides the bundle's error |
| QasmInstruction.AppendIndices | src/0_core/qasm_instruction.cpp:717-722 | the `smis` loop appends every number after the register as a qubit index |
| QasmInstruction.AppendPairs | src/0_core/qasm_instruction.cpp:748-760 | the `smit` loop appends the numbers after the register two at a time |
| NumUtil.FirstNonBlank | src/0_core/num_util.cpp:45 | `find_first_not_of(" \\t")`: every character before the index is a space or tab and the one at it is not, the length standing for npos |
| NumUtil.EndNonBlank | src/0_core/num_util.cpp:46 | one past `find_last_not_of(" \\t")`: everything from it on is blank and the character before it is not |
| NumUtil.Trim | src/0_core/num_util.cpp:40-52 | the result is no longer than the input, is the input with its leading and trailing spaces and tabs removed, and neither starts nor ends with a blank |
| NumUtil.TrimIdempotent | src/0_core/num_util.cpp:40-52 | trimming twice is trimming once |
| NumUtil.TrimKeepsTrimmed | src/0_core/num_util.cpp:40-52 | a string that neither starts nor ends with a blank, the empty string included, is its own trim |
| NumUtil.TrimComments | src/0_core/num_util.cpp:54-67 | the result holds no `#`, is a prefix of the input, and either is the whole input or stops at its first `#`; a string without `#` is unchanged |
| NumUtil.DigitRun | src/0_core/num_util.cpp:69-101 | the length of the run of decimal digits a string starts with |
| NumUtil.StrToInt | src/0_core/num_util.cpp:69-84 | `str_to_int` aborts exactly on the empty string and otherwise yields a value within the 32-bit int range |
| NumUtil.StrToUint | src/0_core/num_util.cpp:86-101 | `str_to_uint` aborts exactly on the empty string and otherwise yields a value below 2^32 |
| NumUtil.StrToSizet | src/0_core/num_util.cpp:185-200 | `str_to_sizet` aborts exactly on the empty string and otherwise yields a value below 2^64 |
| NumUtil.ExtractedOfIntString | src/0_core/num_util.cpp:69-84 | the decimal text of an integer reads back as its sign and magnitude |
| NumUtil.StrToIntRoundTrip | src/0_core/num_util.cpp:69-84 | `str_to_int` reads back every 32-bit int that `std::to_string` prints |
| NumUtil.HexDigitsSum | src/0_core/num_util.cpp:165-180 | the loop adding each digit shifted by four times its distance from the end computes the positional value of the digits |
| NumUtil.HexstrToUint | src/0_core/num_util.cpp:147-183 | the empty string and a string without `0x` or `0X` abort; otherwise the result is the value of the digits after the prefix modulo 2^32 |
| NumUtil.HexstrToInt | src/0_core/num_util.cpp:103-145 | the empty string and a string without `0x` or `0X` abort; otherwise the result is the value of the digits after the prefix, negated when the string holds a `-` anywhere, as a 32-bit int |
| NumUtil.HexRoundTrip | src/0_core/num_util.cpp:165-180 | the digit sum reads back every number printed in hexadecimal |
| NumUtil.HexstrToUintOfHex | src/0_core/num_util.cpp:147-183 | `hexstr_to_uint("0x" + hex)` is the number itself for every value below 2^32 |
| NumUtil.Pieces | src/0_core/num_util.cpp:202-223 | there is always at least one piece between delimiters |
| NumUtil.Split | src/0_core/num_util.cpp:202-223 | the `getline` loop yields the pieces between delimiters, none for the empty input and no final empty token after a trailing delimiter |
| NumUtil.PiecesJoin | src/0_core/num_util.cpp:202-223 | the pieces joined with the delimiter give the input back |
| NumUtil.SplitJoin | src/0_core/num_util.cpp:202-223 | no token contains the delimiter, and joining the tokens with it gives back the input, up to one dropped trailing delimiter |
| NumUtil.SplitExamples | src/0_core/num_util.cpp:202-223 | `""` splits into nothing, `"a,"` into `["a"]`, `"a,,b"` into `["a", "", "b"]` |
| NumUtil.DigitRuns | src/0_core/num_util.cpp:399-427 | the maximal runs of decimal digits, in order, none of them empty |
| NumUtil.ExtractIntegerWords | src/0_core/num_util.cpp:399-427 | the scanning loop returns the digit runs of its input joined by `_`, the empty string when there are none |
| NumUtil.DigitRunAt | src/0_core/num_util.cpp:408-412 | the inner loop measures the whole run of digits starting at a digit |
| NumUtil.RunsFromStart | src/0_core/num_util.cpp:403-424 | the runs the scanning loop collects are exactly the maximal digit runs |
| NumUtil.SepTelfFnShape | src/0_core/num_util.cpp:377-395 | the file name is the directory (with `/` added when missing), the compact name, and `.csv` at the end; without digits in the module name it is exactly that |
| NumUtil.SepTelfFnExamples | src/0_core/num_util.cpp:377-395 | a directory ending in `/` is used as it is, and a module name without digits adds no suffix |
| NumUtil.SepTelfFnAddsSlash | src/0_core/num_util.cpp:377-395 | a directory without a trailing `/` gets one |
| Text.ToLower | src/0_core/qasm_instruction.cpp:84-85 | `transform(..., ::tolower)` keeps the length and lowers every character |
| Text.NatToStringValue | src/0_core/num_util.cpp:69-84 | the decimal text of a natural number reads back as that number |
| Text.ContainsAt | src/1_digital/classical/icache_rtl.cpp:172 | `find(sub) != npos` holds exactly when `sub` occurs at some position |

## Left out

- The HTTP transport, the remote simulation service and its numeric simulation are not modelled. Measurement outcomes, Pauli transfer matrices and the Python bridge of the quantumsim interface are parameters of the model.
- `QuantumCircuit.eval`, `__enter__` and `__exit__` are not modelled, since they only drive the transport. The `Ops_2_qsim` definitions and `trim_qnops` are not part of this model.
- JSON parsing, the filesystem, logging and telf output, the command-line parser and `find_config_file` are outside the model. Parsed configuration values, program lines and binary bytes are parameters.
- SystemC wiring, `sc_signal` delays and thread scheduling are not modelled. Each clocked thread is one method call per clock. Blocking `sc_fifo` reads and writes become preconditions that the FIFO is non-empty or has room.
- Regular expressions are not modelled as a general engine. Each regex the core uses is modelled by what it extracts: digit runs, a first blank, or a case-insensitive substring.
- Floating-point values are not modelled: a rotation angle is taken as a whole number of degrees, and a JSON double as a real.
- Error messages are shortened and do not reproduce the source's text.
- `seq` fields stand for the C++ vectors; aliasing between vectors that the source never shares is not modelled.
- `create_dir_if_not_exist`, `full_path_of_exe`, `abs_dir_path_of_exe`, `dir_name` and `int_2_hex_str` in num_util are filesystem or formatting helpers and are not part of this model.
- NumUtil.Trim: `trim` and `trim_comments` erase in place through a reference; the model returns the new string, so it does not capture that the caller's string is updated.
- The assembly `set_instruction`, the dispatch of `parse_q_insn`, and the classical parsers are not part of this model. The classical parsers not modelled are `parse_cmp`, `fbr`, `fmr`, `ldi`, `ldui`, `load_mem`, `store_mem`, the logic and `not` parsers, the arithmetic and arithmetic-immediate parsers, and `qwait`/`qwaitr`. Their operand tokens go through the same `str_to_*` helpers, which are modelled.
- Unsigned-int truncation of tuple members read as `size_t` and stored as `unsigned int` is not modelled.
- EventQueueManager.CountdownEnds: states the release of events with a wait time of 1 or more; an event with wait time 0 is not described.
- The event queue manager lists `reset` in its sensitivity lists but never reads it, so the model has no reset input.
- The two identical analog-digital converter classes are modelled once.
- IfQuantumSim: a target qubit out of range is undefined behaviour in C++, so targets are required to be in range. The two-qubit gate is passed without its name.
- IfQuantumSim: a gate duration of 0 is indistinguishable from "no previous gate", as in the source. A negative gap between midpoints wraps to a huge idle time, as the `unsigned` arithmetic does.
- MsmtResultGen: an out-of-range qubit write is undefined behaviour in C++ and is modelled as an abort.
- The command path with `G_CMD_SLICE` equal to 0 is a plain wire and is not modelled separately.
- DataMemory.Memory.Dump: requires the memory size to be a multiple of 4. The dump window, left uninitialised by the C++ constructor, starts at 0.
- ClassicalMem: the memory size is required to be a multiple of 4. Configured sizes are multiples of 1024.
- AddrMaskDecoder.AddressDecoder.MaskDecode: `left_qubit` and `right_qubit` are declared once before the mask-bit loop (addr_mask_decoder.cpp:92). A set bit whose edge is in no out-list (in-list) therefore reuses the end found for the previous set bit, so both lanes receive the copy and that stale pair again; only for the first set bit is the variable uninitialised. The model (`AddrMaskDecoder.Lanes`) aborts in both cases, so it does not capture the stale-pair reuse.
- OperationCombiner: the default VLIW width is uninitialised in C++; the model takes it as 0.
- ClassicalExecute: `DIV` by zero is checked by the source, which exits (classical_execute.cpp:171-175); the model aborts there too. `REM` by zero is not checked and is undefined behaviour in C++; the model aborts.
- IcacheRtl: a binary fetch past the end of the cache is undefined behaviour in C++ and reads 0 in the model.
- IcacheRtl: the fetch threads are collapsed into one clock for the configuration with `G_PC_REGISTER` and `G_MEM_OUT_REG` both 1.
- IcacheRtl: reading the program file is not modelled; the lines and bytes are parameters.
- ConfigReader: spreading configured edges is modelled only when every endpoint indexes the adjacency lists. An unfilled `(-1, -1)` slot or a too-large endpoint would index out of range in C++.
- ConfigReader: the source/destination check admits `num_qubits` itself, as written.
- QusimServer.Network.Slice: only slices with non-negative `start` and `stop` and step 1 are modelled. Python's negative or omitted bounds and other steps are not.
- MeasRegFileRtl.MeasRegFile.Clock: the classical issue that `interlocking_ready` sees when it wakes is the parameter `clpIssueNext`, because its value depends on the SystemC delta-cycle order.
- AddrMaskDecoder.MaskSingleFrom: a mask bit at or above the qubit count indexes past the operation vector, which is undefined in C++; the model aborts with "bad mask bit".
- AddrMaskDecoder.ContentSingleFrom: a listed qubit at or above the qubit count is undefined in C++; the model aborts.
- AddrMaskDecoder.ContentMultiFrom: a tuple shorter than 2 or a qubit out of range is undefined in C++; the model aborts.
- OperationCombiner.MergeOpsFrom: an operation vector longer than the qubit count is undefined in C++; the model aborts with "bad qubit".
- MaskRegFile.WriteAddr: a register number of 32 or more indexes past the register bank, which is undefined in C++; the model aborts.
- MaskRegFile.ReadOp: a register number of 32 or more is undefined in C++; the model aborts.
- AnalogDigitalConvert.AtomAt: a two-qubit operation without a qubit pair (analog_digital_convert.cpp:117) is undefined in C++; the model aborts.
- IcacheRtl.WordAt: the missing bytes of a partial last word come from an uninitialised buffer in C++; the model reads them as 0.
- IcacheRtl.Icache.InitMemBin: a file of 4*CACHE_SIZE+1 to 4*CACHE_SIZE+3 bytes passes the size check as written and then writes past the cache, which is undefined in C++; the model aborts there.
- ConfigReader.EdgeStep: an edge id equal to the edge count passes the check as written and writes past `directed_edges`, which is undefined in C++; the model aborts there.
- NumUtil.HexstrToUint: more than 8 hex digits shift an `int` by 32 or more, which is undefined in C++; the model keeps the digit value modulo 2^32.
- NumUtil.HexstrToInt: more than 8 hex digits, or a high digit shifted into the sign bit, is undefined in C++; the model reads the digit value modulo 2^32 as two's complement.
- ConfigReader.DataMemorySize: requires the trimmed text to be non-blank, because the source reads its character at `size() - 1`.
- NumUtil.SepTelfFn: an empty directory makes the source call `back()` on an empty string, which is undefined; the model adds "/".
- QDecoderAsm.QDecoderAsm.Output: the interface's `vliw_width` is never assigned by the assembly decoder (only q_decoder_bin.cpp:44 sets it), so it is uninitialised in C++; the model uses the configured width.
- AddrMaskDecoder.Lanes: an empty operation vector under `valid_qop` makes the source read `ops[0]` (addr_mask_decoder.cpp:66), which is undefined in C++; the model aborts with "no operation".
- JsonWrapper.Member: on a non-const `json`, `parent[name]` for a missing key inserts a null member into the parent (and turns a null parent into an object). The model returns the null value without updating the parent, so the inserted member is not captured.
- QusimServer.NodeStr: the sites of a classical observer are modelled as a tuple. In Python, `sites` holds whatever the caller passed, so an int or a list prints as such until the first `shift` turns it into a tuple; only the tuple form is modelled.

## Findings

| source | as written | input that shows it | evidently intended | confidence | as-written member | corrected member |
|---|---|---|---|---|---|---|
| src/0_core/qasm_instruction.cpp:976-987 | qubit indices and tuple members are rejected only when `> num_qubits` | qubit index 7 on a 7-qubit chip passes | reject indices `>= num_qubits` | not executed | QasmInstruction.ParserResultOffByOne | QasmInstruction.Instruction.VerifyParserResult |
| src/0_core/generic_if.h:476-483 | `reset` clears the single-qubit content bank twice and never the multi-qubit bank | a mask register holding a two-qubit pair keeps it after reset | clear both banks | not executed | GenericIf.MaskReg.ResetAsWritten | GenericIf.MaskReg.Reset |
| src/1_digital/quantum/tech_ind/meas_issue_gen.cpp:70 | `opcode == 6` compares with `Sim_uint(6)`, which has value 0 and width 6 | an operation carrying opcode 6 in a 64-bit field is not flagged as a measurement | compare the opcode's value with 6 | not executed | MeasIssueGen.MeasFlagFinding | MeasIssueGen.MeasFlagMeaning |
| src/1_digital/classical/classical_execute.cpp:261 | `SUBC` writes `Rs + Rt` | `1 SUBC 1` sets the "equal" flag yet writes 2 | write `Rs - Rt`, which is zero exactly when the flags say equal | not executed | ClassicalExecute.SubcAsWrittenDisagrees | ClassicalExecute.SubcAgreesWithFlags |
| src/0_core/qasm_instruction.cpp:1130-1132 | the masked, unshifted opcode field is compared with 1 | the word 0x83000000 is not flagged as a measurement | shift the field down before comparing | not executed | QasmInstruction.MeasBinaryAsWrittenNever | QasmInstruction.MeasBinary |
| src/0_core/config_reader.cpp:635-640 | an edge id equal to `num_directed_edges` is accepted | an edge id equal to the edge count passes and then indexes past the edge table | accept ids below `num_directed_edges` | not executed | ConfigReader.EdgeIdOffByOne | ConfigReader.EdgeIdAccepted |
| demo/bin/qusim_server.py:308-311 | `QuantumCircuit.shift` calls `type(self)()`, but `QuantumCircuit` needs `L`, `auth` and `interactive` | every `shift` on a circuit raises TypeError | a circuit with the same parameters and shifted nodes | not executed | QusimServer.Network.ShiftAsWritten | QusimServer.Network.Shift |
| src/1_digital/classical/classical_execute.cpp:242-254 | `TEST` and `ADDC` set `gez` to `!(Rs >= 0)`, a copy of `ltz` | Rs = 0 reads as not greater-or-equal to zero | `gez` is `Rs >= 0` | not executed | ClassicalExecute.TestGezAsWritten | ClassicalExecute.TestFlagsConditions |
| src/1_digital/classical/icache_rtl.cpp:97-110 | the `bne`/`beq` macro is recognised anywhere in the line | `br always, subnet` is rewritten as a `bne` macro | recognise the mnemonic only | not executed | IcacheRtl.ConvertLineAsWrittenMisreadsLabel | IcacheRtl.ConvertLineKeepsLabelBranch |
| src/1_digital/classical/icache_rtl.cpp:37-69 | the binary size check is `length / 4 > CACHE_SIZE` | 4·CACHE_SIZE+1 bytes pass the check | reject any byte beyond the cache | not executed | IcacheRtl.BinSizeCheckMissesPartialWord | IcacheRtl.BinSizeAcceptedFits |
| src/1_digital/cclight/exe_flag_gen.cpp:55 | bit 2 is `~` of a one-bit value widened to 64 bits | bit 2 is set whatever the last result was | bit 2 is the negated last result | not executed | ExeFlagGen.Bit2AsWritten | ExeFlagGen.ExeFlags |
