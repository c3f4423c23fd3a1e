# R1CS circuit builder

A Dafny model of the rank-1 constraint system builder `Circuit<T>` of
zksnark-rs (`src/groth16/circuit/builder/mod.rs`), with proofs about it.

A circuit is a graph of wires and sub-circuits. Each sub-circuit is one
rank-1 gate, `output = (Σ wᵢ·leftᵢ) · (Σ wⱼ·rightⱼ)`. The builder keeps two id
counters and three tables:

- the connections of each wire (`Left`, `Right` or `Output` of a gate);
- the gates;
- an optional cached value per wire.

Wires 0 and 1 are bound to zero and one when the circuit is created.

On top of the single gate the library builds:

- the boolean gates NOT, AND, OR, XOR and the bit checker `x·(x − 1)`;
- combinators that fold a gate over wires (`fan_in`) or apply it pairwise
  (`bitwise_op`);
- the same over 64-wire words;
- helpers that bind a `u64` to a word, spell a literal in constant wires and
  rotate a wire sequence.

`evaluate` computes a wire's value on demand and caches it.

The model has seven modules, one per file:

- `Field` (`field.dfy`): the field. The builder is generic over any field; the
  model fixes the integers modulo 251, the field of the builder's documentation
  examples. It proves that 251 is prime, so x·(x − 1) has no roots besides 0
  and 1.
- `Graph` (`graph.dfy`): the state as a value (`CircuitState`) and the pure
  transitions for allocating a wire and adding a gate. It also holds
  `WellFormed`, the invariant every builder operation keeps. Under it, every
  gate reads only wires below its output (so evaluation terminates), every gate
  is the first connection of its output wire, and only that connection is an
  Output.
- `Semantics` (`semantics.dfy`): the reference meaning of a wire (`Eval`): its
  cached value, or the product of the two weighted sums of the gate whose output
  it is. It proves that caching evaluated values, allocating wires and adding
  gates never change the value of an existing wire. It also defines the
  post-`reset` value table.
- `Gates` (`gates.dfy`): the five gate constructors and what each evaluates to.
- `Combinators` (`combinators.dfy`): the fold and map combinators over wires and
  words, and what they compute on bit-valued inputs.
- `Bits` (`bits.dfy`): the least-significant-bit-first encodings used by
  `set_word64` and `wires_from_literal`, and `rotate_wires`.
- `Builder` (`builder.dfy`): the class `Circuit`, with the source's five fields.
  Each method changes the fields in place, as the Rust code does. `Valid()` is
  `WellFormed` of the fields.
  - The methods that allocate wires, add gates, bind values or reset are proved
    to leave exactly the state the matching pure transition gives. Those that
    take `Valid()` also keep it.
  - `InsertConnection` and `ConnectTerms` are the steps inside `new_sub_circuit`.
    They are tied to the transition on the connection table only, and neither
    needs nor keeps `Valid()`: mid-way through a gate the table is not yet well
    formed.
  - `Evaluate`, `EvaluateSubCircuit` and `WeightedSum` are not tied to a
    transition function. They return `Eval` of the old state, change only the
    value table, and keep `Valid()`. The new table extends the old one with
    values evaluation gives (`CacheExtends`).

A Rust panic (`expect`, `panic!`, `assert!`) becomes an explicit error result:
`Result` for `value`, `assignments` and `evaluate`, `Option` for `fan_in`,
`bitwise_op` and `u64_fan_in`. `value`, `assignments`, `fan_in`, `bitwise_op`
and `u64_fan_in` check before changing anything, so an error leaves the state
unchanged. A failing `evaluate` may already have cached the values of the
wires it evaluated before the failure, as the Rust code does before it panics.
Those values are what evaluation gives, so no wire's value changes
(`Semantics.EvalCoherent`).

Wires 0 and 1 are meant to evaluate to zero and one after any sequence of
operations, but the code does not guard them: `set_value(WireId(0), v)`
overwrites the zero binding (mod.rs:179-181). The model follows the code.
`ConstantsBound` is a separate predicate, not part of `Valid()`. Every gate
constructor and combinator keeps it on any input wires, bit-valued or not, as
part of `Gates.Grows`. This is stated by `Combinators.ApplyGateGrows`,
`ApplyUnaryGrows`, `FoldGateGrows`, `MapGateGrows`, `MapUnaryGrows` and
`FoldWordsGrows`. `evaluate` keeps it too, since it never replaces a cached
value (`Semantics.CacheExtends`), and so does `reset` (`Semantics.ResetSpec`). `SetValue` keeps it only on wires other
than 0 and 1.

## Model

| member | source | states |
|---|---|---|
| Builder.Circuit.constructor | src/groth16/circuit/builder/mod.rs:63-75 | A new circuit has wires 0 and 1 allocated and bound to zero and one, and no gate; it is well formed. |
| Graph.InitWellFormed | src/groth16/circuit/builder/mod.rs:63-75 | The initial state satisfies the invariant, binds the constants, and has counters 2 and 0. |
| Builder.Circuit.ZeroWireId | src/groth16/circuit/builder/mod.rs:80-82 | Returns wire 0, which is allocated and, while the constants are bound, evaluates to zero. |
| Builder.Circuit.UnityWireId | src/groth16/circuit/builder/mod.rs:157-159 | Returns wire 1, which is allocated and, while the constants are bound, evaluates to one. |
| Builder.Circuit.NewWire | src/groth16/circuit/builder/mod.rs:161-166 | Returns the old counter and bumps it by one; the new wire is registered with no value. The circuit stays well formed, the new wire is dangling, and every other wire keeps its value. |
| Graph.NewWireWellFormed | src/groth16/circuit/builder/mod.rs:161-166 | Allocating a wire keeps the invariant and the constants, adds a fresh id that no connection or gate mentions, and changes only that wire's table entry. |
| Semantics.NewWireEval | src/groth16/circuit/builder/mod.rs:161-166 | After allocation the new wire fails to evaluate (dangling), and every other wire evaluates as before. |
| Builder.Circuit.NumWires | src/groth16/circuit/builder/mod.rs:168-170 | Returns the wire counter, which is at least 2, and every id below it has a value-table entry. |
| Builder.Circuit.Value | src/groth16/circuit/builder/mod.rs:172-177 | Fails with UnknownWire exactly on a wire without a table entry (which then also fails to evaluate). Otherwise returns the cached option, and a cached value is what the wire evaluates to. |
| Builder.Circuit.SetValue | src/groth16/circuit/builder/mod.rs:179-181 | Overwrites or creates the wire's binding and changes nothing else. The wire then evaluates to the value, the invariant holds, and the constants stay bound unless wire 0 or 1 was the target. |
| Builder.Circuit.WireAssignments | src/groth16/circuit/builder/mod.rs:183-185 | Returns the connection table; every wire in it is allocated, and its connections name stored gates. |
| Builder.Circuit.Assignments | src/groth16/circuit/builder/mod.rs:187-191 | Fails with UnknownWire exactly when the wire has no connection list. Otherwise every connection names an existing gate, at most one is an Output, and the first Output names the gate whose output is this wire. |
| Builder.Circuit.InsertConnection | src/groth16/circuit/builder/mod.rs:193-201 | Appends the connection to that wire's list (creating it when absent) and leaves every other list unchanged. |
| Graph.InsertConnectionAt | src/groth16/circuit/builder/mod.rs:193-201 | The same append-only effect on the table as a value, and the key set gains exactly the wire. |
| Builder.Circuit.SubCircuits | src/groth16/circuit/builder/mod.rs:203-205 | Returns ids 0 up to (not including) the gate counter, in order; they are exactly the stored gates. |
| Builder.Circuit.NewSubCircuit | src/groth16/circuit/builder/mod.rs:207-245 | Leaves exactly the state `Graph.NewSubCircuit` describes and returns the old wire counter as output; the circuit stays well formed. |
| Builder.Circuit.ConnectTerms | src/groth16/circuit/builder/mod.rs:218-228 | Each loop over the terms adds, in order, one Left (or Right) connection with that term's weight to each term's wire. |
| Graph.AddConnectionsAt | src/groth16/circuit/builder/mod.rs:218-228 | After the loop, each wire's list is its old list followed by the connections of exactly the terms on that wire, in term order. |
| Graph.AddConnectionsKeys | src/groth16/circuit/builder/mod.rs:218-228 | The loop creates table entries only for the wires the terms read. |
| Graph.NewSubCircuitShape | src/groth16/circuit/builder/mod.rs:207-245 | Adding a gate: the gate gets the next id; its output is the next wire, whose only connection is Output; every other wire gains its Left then Right connections; the stored record is (left, right, output); the output is registered with no value. |
| Graph.NewSubCircuitWellFormed | src/groth16/circuit/builder/mod.rs:207-245 | Adding a gate whose terms read allocated wires keeps the invariant (acyclicity included) and the constants. |
| Graph.GateAddedWellFormed | src/groth16/circuit/builder/mod.rs:207-245 | Any state related to its predecessor as a gate addition is well formed. |
| Graph.GateAddedConnectionsKnown | src/groth16/circuit/builder/mod.rs:218-232 | After a gate is added, every wire with connections is allocated, its connections name stored gates, and only a first connection can be an Output. |
| Graph.GateAddedAcyclic | src/groth16/circuit/builder/mod.rs:218-242 | After a gate is added, each gate still reads only wires below its output, and each Output connection names the gate of its wire. |
| Graph.GateAddedOutputsRecorded | src/groth16/circuit/builder/mod.rs:230-242 | After a gate is added, every gate is still the first connection of its output wire. |
| Semantics.NewSubCircuitGrows | src/groth16/circuit/builder/mod.rs:207-245 | Adding a gate keeps the old gates and every other wire's entry and first Output, and the new output's first Output is the new gate. |
| Semantics.NewSubCircuitEval | src/groth16/circuit/builder/mod.rs:207-269 | After a gate is added, every existing wire evaluates as before, and the output evaluates to the product of the two weighted sums taken in the old circuit. |
| Semantics.EvalGrows | src/groth16/circuit/builder/mod.rs:207-245 | Growing the graph above a frontier never changes the value of another wire. |
| Semantics.FirstOutputIsGate | src/groth16/circuit/builder/mod.rs:278-285 | The sub-circuit that `evaluate`'s lookup finds exists, and its output is the wire being evaluated. |
| Semantics.FirstOutputAppend | src/groth16/circuit/builder/mod.rs:278-285 | Appending connections with no Output does not change which sub-circuit that lookup finds. |
| Builder.Circuit.Evaluate | src/groth16/circuit/builder/mod.rs:271-292 | Returns what the wire evaluates to in the circuit before the call. That is UnknownWire for a wire without an entry, DanglingWire for an unbound wire with no Output, and otherwise the cached value or the gate product. On success the value is cached. Only the value table changes, and only with values evaluation gives. A wire that was already cached or is unknown leaves the table unchanged. |
| Builder.Circuit.EvaluateSubCircuit | src/groth16/circuit/builder/mod.rs:247-269 | Returns the product of the left and right weighted sums of the gate, as the old circuit evaluates them, and caches only evaluated values. |
| Builder.Circuit.WeightedSum | src/groth16/circuit/builder/mod.rs:258-267 | The fold `acc + weight * evaluate(wire)` from zero returns the weighted sum over the old circuit and stops at the first failing input. |
| Semantics.EvalCoherent | src/groth16/circuit/builder/mod.rs:271-292 | Caching values that evaluation gives never changes the value of any wire, so the memoised evaluation equals the unmemoised one. |
| Semantics.EvalSubCircuitCoherent | src/groth16/circuit/builder/mod.rs:247-269 | The same for a gate's product. |
| Semantics.EvalSumCoherent | src/groth16/circuit/builder/mod.rs:258-267 | The same for a weighted sum. |
| Semantics.CacheExtendsTrans | src/groth16/circuit/builder/mod.rs:258-288 | Two successive rounds of caching evaluated values compose into one. |
| Semantics.CacheOne | src/groth16/circuit/builder/mod.rs:288 | Caching the value a wire evaluates to is a coherent extension of the table. |
| Builder.Circuit.Reset | src/groth16/circuit/builder/mod.rs:297-311 | Leaves the value table `ResetValues` of the old one, whatever order the keys are visited in; nothing else changes, and the circuit stays well formed. |
| Semantics.ResetSpec | src/groth16/circuit/builder/mod.rs:297-311 | Reset keeps the set of known wires and the constant bindings (wires 0 and 1 still evaluate to zero and one), clears every other entry, and a second reset changes nothing. |
| Semantics.ResetForgetsEvaluation | src/groth16/circuit/builder/mod.rs:294-311 | Evaluating and then resetting gives the same table as resetting alone, so rebinding the same inputs reproduces the same values. Wires 0 and 1 need only hold some value, not necessarily zero and one. |
| Builder.Circuit.NewBitChecker | src/groth16/circuit/builder/mod.rs:313-318 | Adds the gate x * (x - 1 * unity) and returns its fresh output wire. |
| Gates.BitCheckerValue | src/groth16/circuit/builder/mod.rs:313-318 | Adds one gate; the output evaluates to x·(x − 1), fails exactly when x fails, and is zero exactly when x is 0 or 1. |
| Field.BitRoots | src/groth16/circuit/builder/mod.rs:313-318 | In the field, x·(x − 1) = 0 exactly when x is 0 or 1. |
| Builder.Circuit.NewNot | src/groth16/circuit/builder/mod.rs:320-326 | Adds the gate unity * (unity - x) and returns its fresh output wire. |
| Gates.NotValue | src/groth16/circuit/builder/mod.rs:320-326 | Adds one gate; the output evaluates to 1 − x and fails exactly when x fails. |
| Builder.Circuit.NewAnd | src/groth16/circuit/builder/mod.rs:328-334 | Adds the gate x * y and returns its fresh output wire. |
| Gates.AndValue | src/groth16/circuit/builder/mod.rs:328-334 | Adds one gate; the output evaluates to x·y and fails exactly when an input fails. |
| Builder.Circuit.NewOr | src/groth16/circuit/builder/mod.rs:336-344 | Adds an AND gate, then the gate (x + y − xy) * unity, and returns the second output. |
| Gates.OrValue | src/groth16/circuit/builder/mod.rs:336-344 | Adds two gates; the output evaluates to x + y − x·y and fails exactly when an input fails. |
| Builder.Circuit.NewXor | src/groth16/circuit/builder/mod.rs:346-353 | Adds the gate (x − y) * (x − y) and returns its fresh output wire. |
| Gates.XorValue | src/groth16/circuit/builder/mod.rs:346-353 | Adds one gate; the output evaluates to (x − y)² and fails exactly when an input fails. |
| Gates.BitArithmetic | src/groth16/circuit/builder/mod.rs:320-353 | On 0 and 1, the NOT, AND, OR and XOR formulas are the boolean truth tables, and the bit checker gives zero. |
| Gates.GrowsTrans | src/groth16/circuit/builder/mod.rs:336-344 | Building on a grown circuit grows the original, which is how OR's two gates compose. |
| Combinators.SubCircuitGrew | src/groth16/circuit/builder/mod.rs:207-245 | Adding one gate on allocated wires keeps the circuit well formed, grows it by one gate, and returns a freshly allocated output. |
| Combinators.OrGateGrows | src/groth16/circuit/builder/mod.rs:336-344 | On any allocated inputs, OR keeps the circuit well formed, grows it by exactly two gates, and returns a fresh output. |
| Combinators.ApplyGateGrows | src/groth16/circuit/builder/mod.rs:328-353 | On any allocated inputs, the chosen gate keeps the circuit well formed and the constants bound, leaves every old wire's value, adds one gate for AND and XOR and two for OR, and returns a fresh output. |
| Combinators.ApplyUnaryGrows | src/groth16/circuit/builder/mod.rs:313-326 | On any allocated input, NOT and the bit checker each add one gate, grow the circuit, and return a fresh output. |
| Combinators.ApplyGateBool | src/groth16/circuit/builder/mod.rs:356-366 | The gate a combinator is given, applied to two bit-valued wires, gives a bit-valued wire holding the gate's truth table. It adds one gate for AND and XOR and two for OR. |
| Combinators.ApplyUnaryBool | src/groth16/circuit/builder/mod.rs:413-418 | The same for the unary gate `u64_unary_op` is given: NOT negates, and the bit checker gives zero. |
| Builder.Circuit.Gate | src/groth16/circuit/builder/mod.rs:356-366 | Applying the chosen gate constructor leaves `ApplyGate` of the old state and returns a fresh wire. |
| Builder.Circuit.Unary | src/groth16/circuit/builder/mod.rs:413-418 | Applying the chosen unary constructor leaves `ApplyUnary` of the old state and returns a fresh wire. |
| Builder.Circuit.FanIn | src/groth16/circuit/builder/mod.rs:355-367 | Fails with fewer than two inputs, changing nothing. Otherwise folds the gate left from inputs[0] over the rest, leaving exactly the state `Combinators.FanIn` gives, and returns an allocated wire. |
| Combinators.FoldGateSnoc | src/groth16/circuit/builder/mod.rs:363-366 | Folding over one more input applies the gate once more to the result so far. |
| Combinators.FoldGateGrows | src/groth16/circuit/builder/mod.rs:363-366 | On any allocated inputs, the fold keeps the circuit well formed and growing, adds (number of inputs) × (gates per application) gates, and returns an allocated wire. |
| Combinators.FoldGateValue | src/groth16/circuit/builder/mod.rs:363-366 | On bit-valued inputs, the fold's result holds the left fold of the truth table. It adds (number of inputs) × (gates per application) gates, and the circuit stays well formed and grows. |
| Combinators.FanInValue | src/groth16/circuit/builder/mod.rs:355-367 | `fan_in` fails exactly with fewer than two inputs, changing nothing. Otherwise the result holds the left fold of the truth table over the inputs' bits, built with n − 1 gate applications. |
| Combinators.FoldBoolMeaning | src/groth16/circuit/builder/mod.rs:355-367 | The AND fold is "all bits set", the OR fold "some bit set", and the XOR fold the parity of the set bits. |
| Builder.Circuit.BitwiseOp | src/groth16/circuit/builder/mod.rs:369-380 | Fails on unequal lengths, changing nothing. Otherwise applies the gate pairwise in index order, leaving exactly the state `Combinators.BitwiseOp` gives. |
| Builder.Circuit.ZipGates | src/groth16/circuit/builder/mod.rs:376-379 | The pairwise loop leaves `MapGate` of the old state, and its outputs are all freshly allocated. |
| Combinators.MapGate | src/groth16/circuit/builder/mod.rs:376-379 | The pairwise map returns one output per input pair. |
| Combinators.MapGateSnoc | src/groth16/circuit/builder/mod.rs:376-379 | Mapping over one more pair appends the gate on that pair. |
| Combinators.MapGateGrows | src/groth16/circuit/builder/mod.rs:376-379 | On any allocated inputs, the pairwise map keeps the circuit well formed and growing, adds n × (gates per application) gates, and every output is freshly allocated. |
| Combinators.MapGateValue | src/groth16/circuit/builder/mod.rs:376-379 | On bit-valued inputs, output i holds the truth table of bit pair i; the circuit stays well formed, grows, and gains n × (gates per application) gates. |
| Combinators.BitwiseOpValue | src/groth16/circuit/builder/mod.rs:369-380 | `bitwise_op` fails exactly on unequal lengths, changing nothing. Otherwise it returns one wire per position, holding the truth table of the two input bits there. |
| Builder.Circuit.U64BitwiseOp | src/groth16/circuit/builder/mod.rs:403-411 | Applies the gate at each of the 64 bit positions, leaving `Combinators.U64BitwiseOp` of the old state; every output wire is allocated. |
| Builder.Circuit.U64UnaryOp | src/groth16/circuit/builder/mod.rs:413-418 | Applies the unary gate to each of the 64 wires in order, leaving `Combinators.U64UnaryOp` of the old state; every output wire is allocated. |
| Combinators.MapUnarySnoc | src/groth16/circuit/builder/mod.rs:417 | Mapping over one more wire appends the unary gate on that wire. |
| Combinators.MapUnaryGrows | src/groth16/circuit/builder/mod.rs:413-418 | On any allocated wires, the unary map keeps the circuit well formed and growing, adds one gate per wire, and every output is freshly allocated. |
| Combinators.MapUnaryValue | src/groth16/circuit/builder/mod.rs:413-418 | On bit-valued inputs, output i holds the unary truth table of bit i, with one gate per wire. |
| Builder.Circuit.U64FanIn | src/groth16/circuit/builder/mod.rs:382-401 | Fails with no word, changing nothing. Otherwise folds the word-wise gate from inputs[0], leaving exactly the state `Combinators.U64FanIn` gives; a single word is returned as it is. The result word is allocated. |
| Combinators.FoldWordsSnoc | src/groth16/circuit/builder/mod.rs:394-399 | Folding over one more word applies the word-wise gate once more. |
| Combinators.FoldWordsGrows | src/groth16/circuit/builder/mod.rs:394-399 | On any allocated words, the word fold keeps the circuit well formed and growing, adds 64 × (gates per application) gates per folded word, and the result word is allocated. |
| Combinators.FoldWordsValue | src/groth16/circuit/builder/mod.rs:394-399 | On bit-valued words, bit i of the fold's result is the left fold of the truth table over bit i of each word. |
| Combinators.U64FanInValue | src/groth16/circuit/builder/mod.rs:382-401 | `u64_fan_in` fails exactly with no word, changing nothing. Otherwise, on bit-valued words, bit i of the result is the left fold of the truth table over bit i of every input. |
| Builder.Circuit.NewWord64 | src/groth16/circuit/builder/mod.rs:117-119 | Allocates 64 wires in turn, leaving `Combinators.NewWord64` of the old state. |
| Combinators.NewWires | src/groth16/circuit/builder/mod.rs:117-119 | Allocating n wires returns n ids. |
| Combinators.NewWiresFresh | src/groth16/circuit/builder/mod.rs:117-119 | The n ids are the next n in order, each registered with no value. No gate or connection is added, and every existing wire keeps its value. |
| Builder.Circuit.SetWord64 | src/groth16/circuit/builder/mod.rs:132-142 | Binds wire i to bit i of the input, halving the number after each wire; leaves the table `SetWordValues` of the old one; the circuit stays well formed. |
| Bits.SetWordValuesKeys | src/groth16/circuit/builder/mod.rs:132-142 | Binding a word adds exactly the word's wires to the value table. |
| Bits.SetWordValuesSpec | src/groth16/circuit/builder/mod.rs:132-142 | On distinct wires, wire i is bound to bit i of the number, the word's wires are added, and every other entry is unchanged. |
| Bits.SetWord64Holds | src/groth16/circuit/builder/mod.rs:132-142 | After binding a u64 to 64 distinct allocated wires, wire i evaluates to bit i, and the bits read back least significant first give the number again. |
| Bits.RecomposeBitsOf | src/groth16/circuit/builder/mod.rs:133-141 | The k bits produced by `n % 2` and `n >> 1` recompose to n mod 2^k. |
| Bits.RecomposeU64 | src/groth16/circuit/builder/mod.rs:133-141 | For a 64-bit n, the 64 bits recompose to n itself. |
| Bits.SetWordExample | src/groth16/circuit/builder/mod.rs:100-113 | Bits 0..7 of 1998456 are 0, 0, 0, 1, 1, 1, 1, 0. |
| Builder.Circuit.WiresFromLiteral | src/groth16/circuit/builder/mod.rs:542-557 | Returns the constant wires spelling the literal lowest bit first, leaving the circuit untouched. There are at most 128, and read as bits they give the literal back. |
| Bits.LiteralWiresSpec | src/groth16/circuit/builder/mod.rs:542-557 | Only wires 0 and 1 are used, and they recompose to the literal. Zero gives no wire; otherwise the last wire is 1 and there is one wire per bit up to the highest set bit. The bits are those `set_word64` would bind. |
| Bits.LiteralWiresLength | src/groth16/circuit/builder/mod.rs:543 | A 128-bit literal needs at most 128 wires. |
| Bits.RotateWires | src/groth16/circuit/builder/mod.rs:536-540 | The rotated sequence has the input's length and holds the same wires with the same multiplicities. |
| Bits.RotateWiresSpec | src/groth16/circuit/builder/mod.rs:536-540 | Rotation keeps the length and the multiset of wires, moves wire i + n (taken cyclically) to position i, and rotating by the remaining length undoes it. |

## Left out

- Keccak (`theta`, `pi_step3`, `last_step`, `rotation_offsets`, `round`,
  `keccak_f`, `new_keccakrow`, `new_keccakmatrix`, `set_keccakrow`,
  `set_keccakmatrix`; mod.rs:121-155 and 420-525). These use the `word64`
  module (row and matrix types, `rotate_left`, wrapping `isize` indexing), and
  `word64` is not part of this model. The steps also do not follow FIPS 202
  sections 3.2-3.4: `pi_step3` XORs each lane with its offset instead of
  rotating and moving it, and `keccak_f` runs 25 rounds, not 24. So no Keccak
  property is stated.
- `keccak` (mod.rs:531-533): an `unimplemented!()` stub with no behaviour to model.
- The `Field` trait and its implementations, which are not part of this model.
  The model fixes the field of integers modulo 251 instead of an arbitrary
  field. The gate lemmas use only ring identities, except `Field.BitRoots`,
  which also uses that 251 is prime.
- `fmt::Debug` for `WireId` (mod.rs:31-35): formatting only.
- `HashMap` representation and iteration order: the tables are Dafny maps.
  `Builder.Circuit.Reset` visits the keys in an arbitrary order, and its result
  does not depend on the order.
- The crate's test module, which is not part of this model.
- Closures: the `gate` argument of `fan_in`, `bitwise_op`, `u64_fan_in`,
  `u64_bitwise_op` and `u64_unary_op` is a value naming one of the library's
  own constructors. Binary gates are And, Or and Xor; unary gates are Not and
  the bit checker. An arbitrary user closure is not modelled.
- Panics are modelled as error results, and the two panics of a dangling wire
  (no connection list, no Output connection) are one error, DanglingWire.
- Wire ids from another circuit: the builder methods that add gates require
  their input wires to be allocated in this circuit (`Valid()` and
  `x < nextWireId`). Otherwise acyclicity, and so termination of `evaluate`,
  could not be stated. The Rust code accepts any `WireId`.
- Builder.Circuit.EvaluateSubCircuit: requires the gate to exist. The Rust
  `expect` at mod.rs:255 cannot fire when called from `evaluate` on a
  well-formed circuit.
- Bits.RotateWires: the `split_off` panic for n greater than the length is a
  precondition, not an error result.
- usize and u64 overflow of the id counters is not modelled; the counters are
  unbounded naturals.
- Builder gate methods (NewBitChecker, NewNot, NewAnd, NewOr, NewXor, Gate,
  Unary) state that the constants stay bound and old wires keep their values
  through the `Gates` and `Combinators` lemmas about the transitions they are
  tied to, not in their own contracts.
- Combinators.FoldWordsValue and Combinators.U64FanInValue: do not state how
  many gates the word fold adds. `Combinators.FoldWordsGrows` states it
  (64 × gates per application per folded word) for any allocated words.
