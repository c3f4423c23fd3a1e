/**
 * The circuit builder itself: a `Circuit` object owning the two id counters and
 * the three tables, whose methods grow the graph, bind input values, evaluate
 * wires with memoisation and clear the cache. The methods that grow the graph,
 * bind values or reset are proved to leave the state the matching pure
 * transition of `Graph`, `Semantics`, `Gates`, `Combinators` or `Bits`
 * describes and to keep the well-formedness invariant. The two connection
 * steps inside `NewSubCircuit` are tied to the table transition only, and the
 * evaluation methods return `Eval` of the old state while only extending the
 * value cache with evaluated values.
 */
module Builder {
  import opened Wrappers
  import opened Field
  import opened Graph
  import opened Semantics
  import opened Gates
  import opened Combinators
  import opened Bits

  class Circuit {
    var nextWireId: WireId
    var nextSubCircuitId: SubCircuitId
    var wireAssignments: map<WireId, seq<Connection>>
    var subCircuitWires: map<SubCircuitId, SubCircuit>
    var wireValues: map<WireId, Option<Fe>>

    /** The fields of the object as one value. */
    function State(): CircuitState
      reads this
    {
      CircuitState(nextWireId, nextSubCircuitId, wireAssignments, subCircuitWires, wireValues)
    }

    ghost predicate Valid()
      reads this
    {
      WellFormed(State())
    }

    /** Every wire of `ws` has been handed out by this circuit. */
    predicate Owns(ws: seq<WireId>)
      reads this
    {
      forall i | 0 <= i < |ws| :: ws[i] < nextWireId
    }

    /** `new`: wires 0 and 1 bound to zero and one, no gate yet. */
    constructor()
      ensures State() == Init() && Valid() && ConstantsBound(State())
    {
      nextWireId := 2;
      nextSubCircuitId := 0;
      wireAssignments := map[];
      subCircuitWires := map[];
      wireValues := map[ZeroWire := Some(Zero), UnityWire := Some(One)];
      InitWellFormed();
    }

    /** `zero_wire`: the wire bound to zero. */
    method ZeroWireId() returns (w: WireId)
      requires Valid()
      ensures w == ZeroWire && w < nextWireId
      ensures ConstantsBound(State()) ==> Eval(State(), w) == Ok(Zero)
    {
      w := ZeroWire;
    }

    /** `unity_wire`: the wire bound to one. */
    method UnityWireId() returns (w: WireId)
      requires Valid()
      ensures w == UnityWire && w < nextWireId
      ensures ConstantsBound(State()) ==> Eval(State(), w) == Ok(One)
    {
      w := UnityWire;
    }

    /**
     * `new_wire`: hands out the next id, registered with no value. On a well
     * formed circuit the new wire evaluates to nothing yet and every other wire
     * keeps its value.
     */
    method NewWire() returns (w: WireId)
      modifies this
      ensures (State(), w) == Graph.NewWire(old(State()))
      ensures old(Valid()) ==> Valid() && Eval(State(), w) == Err(DanglingWire(w))
      ensures old(Valid()) ==> forall v | v != w :: Eval(State(), v) == Eval(old(State()), v)
    {
      ghost var st0 := State();
      w := nextWireId;
      nextWireId := nextWireId + 1;
      wireValues := wireValues[w := None];
      if WellFormed(st0) {
        NewWireEval(st0);
      }
    }

    /** `num_wires`: the number of ids handed out, each of which has a table entry. */
    method NumWires() returns (n: nat)
      requires Valid()
      ensures n == nextWireId && 2 <= n
      ensures forall w: WireId | w < n :: w in wireValues
    {
      n := nextWireId;
    }

    /**
     * `value`: the cached value of a wire; an unknown wire is an error. A cached
     * value is what the wire evaluates to.
     */
    method Value(w: WireId) returns (r: Result<Option<Fe>, EvalError>)
      requires Valid()
      ensures r.Err? <==> w !in wireValues
      ensures r.Err? ==> r.error == UnknownWire(w) && Eval(State(), w) == Err(UnknownWire(w))
      ensures r.Ok? ==> r.value == wireValues[w]
      ensures r.Ok? && r.value.Some? ==> Eval(State(), w) == Ok(r.value.value)
    {
      if w in wireValues {
        r := Ok(wireValues[w]);
      } else {
        r := Err(UnknownWire(w));
      }
    }

    /**
     * `set_value`: binds a value to a wire (adding the wire to the table if it
     * had no entry); the wire then evaluates to it and nothing else changes.
     */
    method SetValue(w: WireId, v: Fe)
      requires Valid()
      modifies this
      ensures State() == old(State()).(wireValues := old(wireValues)[w := Some(v)])
      ensures Valid() && Eval(State(), w) == Ok(v)
      ensures w != ZeroWire && w != UnityWire && old(ConstantsBound(State())) ==> ConstantsBound(State())
    {
      wireValues := wireValues[w := Some(v)];
    }

    /** `wire_assignments`: the connection table; every wire in it is allocated. */
    method WireAssignments() returns (r: map<WireId, seq<Connection>>)
      requires Valid()
      ensures r == wireAssignments
      ensures forall w | w in r :: w < nextWireId && ConnectionsKnown(State(), w)
    {
      r := wireAssignments;
    }

    /**
     * `assignments`: the connections of one wire, an error for a wire with
     * none. Each names a stored gate, and the first Output names the gate the
     * wire is the output of.
     */
    method Assignments(w: WireId) returns (r: Result<seq<Connection>, EvalError>)
      requires Valid()
      ensures r.Ok? <==> w in wireAssignments
      ensures r.Err? ==> r.error == UnknownWire(w)
      ensures r.Ok? ==> r.value == Conns(wireAssignments, w)
      ensures r.Ok? ==> forall i | 0 <= i < |r.value| :: r.value[i].sc < nextSubCircuitId
      ensures r.Ok? ==> forall s | FirstOutput(r.value) == Some(s) :: s in subCircuitWires && subCircuitWires[s].output == w
      ensures r.Ok? ==> forall i, j | 0 <= i < j < |r.value| :: !(r.value[i].Output? && r.value[j].Output?)
    {
      if w in wireAssignments {
        r := Ok(wireAssignments[w]);
        assert ConnectionsKnown(State(), w);
        forall s | FirstOutput(r.value) == Some(s) ensures s in subCircuitWires && subCircuitWires[s].output == w {
          FirstOutputIsGate(State(), w, s);
        }
      } else {
        r := Err(UnknownWire(w));
      }
    }

    /** `insert_connection`: appends a connection to one wire's list, creating it if needed. */
    method InsertConnection(w: WireId, c: Connection)
      modifies this
      ensures State() == old(State()).(wireAssignments := Graph.InsertConnection(old(wireAssignments), w, c))
      ensures forall v :: Conns(wireAssignments, v) == if v == w then Conns(old(wireAssignments), v) + [c] else Conns(old(wireAssignments), v)
    {
      ghost var a0 := wireAssignments;
      if w !in wireAssignments {
        wireAssignments := wireAssignments[w := [c]];
      } else {
        wireAssignments := wireAssignments[w := wireAssignments[w] + [c]];
      }
      forall v ensures Conns(wireAssignments, v) == if v == w then Conns(a0, v) + [c] else Conns(a0, v) {
        InsertConnectionAt(a0, w, c, v);
      }
    }

    /** `sub_circuits`: the ids 0, 1, ... of the gates, exactly the stored ones. */
    method SubCircuits() returns (r: seq<SubCircuitId>)
      requires Valid()
      ensures |r| == nextSubCircuitId && forall i | 0 <= i < |r| :: r[i] == i
      ensures forall s :: s in r <==> s in subCircuitWires
    {
      r := seq(nextSubCircuitId, i => i);
      assert forall s: SubCircuitId :: s in r <==> s < nextSubCircuitId by {
        forall s: SubCircuitId | s < nextSubCircuitId ensures s in r {
          assert r[s] == s;
        }
      }
    }

    /**
     * `new_sub_circuit`: adds the gate (left terms) * (right terms) on wires of
     * this circuit, with a fresh output wire.
     */
    method NewSubCircuit(left: seq<Term>, right: seq<Term>) returns (out: WireId)
      requires Valid() && InputsBelow(left, nextWireId) && InputsBelow(right, nextWireId)
      modifies this
      ensures (State(), out) == Graph.NewSubCircuit(old(State()), left, right)
      ensures Valid() && out == old(nextWireId) && nextWireId == out + 1
    {
      ghost var st0 := State();
      var s := nextSubCircuitId;
      nextSubCircuitId := nextSubCircuitId + 1;
      out := NewWire();
      ConnectTerms(left, LeftSide, s);
      ConnectTerms(right, RightSide, s);
      InsertConnection(out, Output(s));
      subCircuitWires := subCircuitWires[s := SubCircuit(left, right, out)];
      assert State() == Graph.NewSubCircuit(st0, left, right).0;
      NewSubCircuitWellFormed(st0, left, right);
    }

    /** One loop of `new_sub_circuit`: a connection on `side` of gate `s` for each term, in order. */
    method ConnectTerms(terms: seq<Term>, side: Side, s: SubCircuitId)
      modifies this
      ensures State() == old(State()).(wireAssignments := AddConnections(old(wireAssignments), terms, side, s))
    {
      ghost var st0 := State();
      for i := 0 to |terms|
        invariant State() == st0.(wireAssignments := AddConnections(st0.wireAssignments, terms[..i], side, s))
      {
        InsertConnection(terms[i].wire, Connect(side, terms[i].weight, s));
        assert terms[..i + 1][..i] == terms[..i];
      }
      assert terms[..|terms|] == terms;
    }

    /**
     * `evaluate`: the value of a wire, computed from its gate when not cached,
     * and cached on success. The result is what the wire evaluates to in the
     * circuit before the call, only values that evaluation gives are cached,
     * and nothing but the value table changes. A cached or unknown wire
     * changes nothing; a failure may keep the values cached before it.
     */
    method Evaluate(w: WireId) returns (r: Value)
      requires Valid()
      modifies this
      ensures r == Eval(old(State()), w)
      ensures State() == old(State()).(wireValues := wireValues) && Valid()
      ensures CacheExtends(old(State()), wireValues)
      ensures r.Ok? ==> w in wireValues && wireValues[w] == Some(r.value)
      ensures old(w !in wireValues || wireValues[w].Some?) ==> wireValues == old(wireValues)
      decreases w, 2, 0
    {
      if w !in wireValues {
        return Err(UnknownWire(w));
      }
      if wireValues[w].Some? {
        return Ok(wireValues[w].value);
      }
      ghost var st0 := State();
      match FirstOutput(Conns(wireAssignments, w))
      case None =>
        r := Err(DanglingWire(w));
      case Some(s) =>
        FirstOutputIsGate(st0, w, s);
        r := EvaluateSubCircuit(s);
        if r.Ok? {
          ghost var mid := wireValues;
          EvalCoherent(st0, mid, w);
          CacheOne(st0.(wireValues := mid), w, r.value);
          wireValues := wireValues[w := Some(r.value)];
          CacheExtendsTrans(st0, mid, wireValues);
        }
    }

    /**
     * `evaluate_sub_circuit`: the weighted sum of the left inputs times that of
     * the right inputs, evaluating inputs as needed.
     */
    method EvaluateSubCircuit(s: SubCircuitId) returns (r: Value)
      requires Valid() && s in subCircuitWires
      modifies this
      ensures r == EvalSubCircuit(old(State()), s)
      ensures State() == old(State()).(wireValues := wireValues) && Valid()
      ensures CacheExtends(old(State()), wireValues)
      decreases subCircuitWires[s].output, 1, 0
    {
      ghost var st0 := State();
      var sc := subCircuitWires[s];
      var lhs := WeightedSum(sc.leftInputs, sc.output);
      if lhs.Err? {
        return lhs;
      }
      ghost var mid := wireValues;
      var rhs := WeightedSum(sc.rightInputs, sc.output);
      EvalSumCoherent(st0, mid, Zero, sc.rightInputs, sc.output);
      CacheExtendsTrans(st0, mid, wireValues);
      r := Product(lhs, rhs);
    }

    /** The fold `acc + weight * evaluate(wire)` from zero over a gate's terms. */
    method WeightedSum(terms: seq<Term>, bound: WireId) returns (r: Value)
      requires Valid() && InputsBelow(terms, bound)
      modifies this
      ensures r == EvalSum(old(State()), Zero, terms, bound)
      ensures State() == old(State()).(wireValues := wireValues) && Valid()
      ensures CacheExtends(old(State()), wireValues)
      decreases bound, 0, |terms|
    {
      ghost var st0 := State();
      var acc := Zero;
      for i := 0 to |terms|
        invariant State() == st0.(wireValues := wireValues) && Valid()
        invariant CacheExtends(st0, wireValues)
        invariant InputsBelow(terms[i..], bound)
        invariant EvalSum(st0, acc, terms[i..], bound) == EvalSum(st0, Zero, terms, bound)
      {
        ghost var mid := wireValues;
        var v := Evaluate(terms[i].wire);
        EvalCoherent(st0, mid, terms[i].wire);
        CacheExtendsTrans(st0, mid, wireValues);
        assert terms[i..][1..] == terms[i + 1..];
        if v.Err? {
          return v;
        }
        acc := Add(acc, Mul(terms[i].weight, v.value));
      }
      r := Ok(acc);
    }

    /**
     * `reset`: clears every cached value except those of wires 0 and 1, in
     * whatever order the table is visited.
     */
    method Reset()
      requires Valid()
      modifies this
      ensures State() == old(State()).(wireValues := ResetValues(old(wireValues)))
      ensures Valid()
    {
      var zero := ZeroWireId();
      var one := UnityWireId();
      ghost var v0 := wireValues;
      var keys := wireValues.Keys;
      while keys != {}
        invariant State() == old(State()).(wireValues := wireValues)
        invariant keys <= v0.Keys && wireValues.Keys == v0.Keys
        invariant forall w | w in v0 :: wireValues[w] == if w in keys then v0[w] else ResetValues(v0)[w]
        decreases keys
      {
        var k :| k in keys;
        if k != zero && k != one {
          wireValues := wireValues[k := None];
        }
        keys := keys - {k};
      }
      assert wireValues == ResetValues(v0);
    }

    /** `new_bit_checker`: the gate x * (x - 1). */
    method NewBitChecker(x: WireId) returns (out: WireId)
      requires Valid() && x < nextWireId
      modifies this
      ensures (State(), out) == BitCheckerGate(old(State()), x)
      ensures Valid() && old(nextWireId) <= out < nextWireId
    {
      out := NewSubCircuit([Term(One, x)], [Term(One, x), Term(Neg(One), UnityWire)]);
    }

    /** `new_not`: the gate 1 * (1 - x). */
    method NewNot(x: WireId) returns (out: WireId)
      requires Valid() && x < nextWireId
      modifies this
      ensures (State(), out) == NotGate(old(State()), x)
      ensures Valid() && old(nextWireId) <= out < nextWireId
    {
      out := NewSubCircuit([Term(One, UnityWire)], [Term(One, UnityWire), Term(Neg(One), x)]);
    }

    /** `new_and`: the gate x * y. */
    method NewAnd(x: WireId, y: WireId) returns (out: WireId)
      requires Valid() && x < nextWireId && y < nextWireId
      modifies this
      ensures (State(), out) == AndGate(old(State()), x, y)
      ensures Valid() && old(nextWireId) <= out < nextWireId
    {
      out := NewSubCircuit([Term(One, x)], [Term(One, y)]);
    }

    /** `new_or`: an AND gate, then the gate (x + y - x*y) * 1. */
    method NewOr(x: WireId, y: WireId) returns (out: WireId)
      requires Valid() && x < nextWireId && y < nextWireId
      modifies this
      ensures (State(), out) == OrGate(old(State()), x, y)
      ensures Valid() && old(nextWireId) <= out < nextWireId
    {
      var xy := NewAnd(x, y);
      out := NewSubCircuit([Term(Neg(One), xy), Term(One, x), Term(One, y)], [Term(One, UnityWire)]);
    }

    /** `new_xor`: the gate (x - y) * (x - y). */
    method NewXor(x: WireId, y: WireId) returns (out: WireId)
      requires Valid() && x < nextWireId && y < nextWireId
      modifies this
      ensures (State(), out) == XorGate(old(State()), x, y)
      ensures Valid() && old(nextWireId) <= out < nextWireId
    {
      out := NewSubCircuit([Term(One, x), Term(Neg(One), y)], [Term(One, x), Term(Neg(One), y)]);
    }

    /** The gate constructor a combinator was given, applied to two wires. */
    method Gate(op: BinaryOp, x: WireId, y: WireId) returns (out: WireId)
      requires Valid() && x < nextWireId && y < nextWireId
      modifies this
      ensures (State(), out) == ApplyGate(old(State()), op, x, y)
      ensures Valid() && old(nextWireId) <= out < nextWireId
    {
      match op
      case And => out := NewAnd(x, y);
      case Or => out := NewOr(x, y);
      case Xor => out := NewXor(x, y);
    }

    /** The unary gate constructor a word operation was given, applied to one wire. */
    method Unary(op: UnaryOp, x: WireId) returns (out: WireId)
      requires Valid() && x < nextWireId
      modifies this
      ensures (State(), out) == ApplyUnary(old(State()), op, x)
      ensures Valid() && old(nextWireId) <= out < nextWireId
    {
      match op
      case Not => out := NewNot(x);
      case BitCheck => out := NewBitChecker(x);
    }

    /** `fan_in`: fewer than two inputs is an error; otherwise the gate folded from inputs[0]. */
    method FanIn(inputs: seq<WireId>, op: BinaryOp) returns (r: Option<WireId>)
      requires Valid() && Owns(inputs)
      modifies this
      ensures (State(), r) == Combinators.FanIn(old(State()), inputs, op)
      ensures Valid()
      ensures r.Some? ==> r.value < nextWireId
    {
      if |inputs| < 2 {
        return None;
      }
      ghost var st0 := State();
      var rest := inputs[1..];
      var acc := inputs[0];
      for i := 0 to |rest|
        invariant Valid() && Owns(rest) && acc < nextWireId
        invariant (State(), acc) == FoldGate(st0, op, inputs[0], rest[..i])
      {
        ghost var before := State();
        var w := Gate(op, acc, rest[i]);
        FoldGateSnoc(st0, op, inputs[0], rest, i, before, acc);
        acc := w;
      }
      assert rest[..|rest|] == rest;
      r := Some(acc);
    }

    /** The gate on each pair (left[i], right[i]) in index order, outputs collected. */
    method ZipGates(left: seq<WireId>, right: seq<WireId>, op: BinaryOp) returns (outs: seq<WireId>)
      requires Valid() && |left| == |right| && Owns(left) && Owns(right)
      modifies this
      ensures (State(), outs) == MapGate(old(State()), op, left, right)
      ensures Valid() && old(nextWireId) <= nextWireId
      ensures InRange(outs, old(nextWireId), nextWireId)
    {
      ghost var st0 := State();
      outs := [];
      for i := 0 to |left|
        invariant Valid() && Owns(left) && Owns(right)
        invariant (State(), outs) == MapGate(st0, op, left[..i], right[..i])
      {
        ghost var before := State();
        var w := Gate(op, left[i], right[i]);
        MapGateSnoc(st0, op, left, right, i, before, outs);
        outs := outs + [w];
      }
      assert left[..|left|] == left && right[..|right|] == right;
      MapGateFresh(st0, op, left, right);
    }

    /** `bitwise_op`: sequences of unequal length are an error; otherwise the gate pairwise. */
    method BitwiseOp(left: seq<WireId>, right: seq<WireId>, op: BinaryOp) returns (r: Option<seq<WireId>>)
      requires Valid() && Owns(left) && Owns(right)
      modifies this
      ensures (State(), r) == Combinators.BitwiseOp(old(State()), left, right, op)
      ensures Valid()
    {
      if |left| != |right| {
        return None;
      }
      var outs := ZipGates(left, right, op);
      r := Some(outs);
    }

    /** `u64_bitwise_op`: the gate on each bit position of two words. */
    method U64BitwiseOp(left: Word64, right: Word64, op: BinaryOp) returns (r: Word64)
      requires Valid() && Owns(left) && Owns(right)
      modifies this
      ensures (State(), r) == Combinators.U64BitwiseOp(old(State()), left, right, op)
      ensures Valid() && old(nextWireId) <= nextWireId && Owns(r)
    {
      ghost var n0 := nextWireId;
      r := ZipGates(left, right, op);
      InRangeAll(r, n0, nextWireId);
    }

    /** `u64_unary_op`: the unary gate on each bit of a word. */
    method U64UnaryOp(input: Word64, op: UnaryOp) returns (r: Word64)
      requires Valid() && Owns(input)
      modifies this
      ensures (State(), r) == Combinators.U64UnaryOp(old(State()), input, op)
      ensures Valid() && old(nextWireId) <= nextWireId && Owns(r)
    {
      ghost var st0 := State();
      var outs: seq<WireId> := [];
      for i := 0 to |input|
        invariant Valid() && st0.nextWireId <= nextWireId
        invariant (State(), outs) == MapUnary(st0, op, input[..i])
      {
        ghost var before := State();
        var w := Unary(op, input[i]);
        MapUnarySnoc(st0, op, input, i, before, outs);
        outs := outs + [w];
      }
      assert input[..|input|] == input;
      r := outs;
      AllInRange(input, 0, st0.nextWireId);
      MapUnaryGrows(st0, op, input);
      InRangeAll(r, st0.nextWireId, nextWireId);
    }

    /** `u64_fan_in`: no word is an error; otherwise the word-wise gate folded from inputs[0]. */
    method U64FanIn(inputs: seq<Word64>, op: BinaryOp) returns (r: Option<Word64>)
      requires Valid() && forall k, i | 0 <= k < |inputs| && 0 <= i < 64 :: inputs[k][i] < nextWireId
      modifies this
      ensures (State(), r) == Combinators.U64FanIn(old(State()), inputs, op)
      ensures Valid()
      ensures r.Some? ==> Owns(r.value)
    {
      if |inputs| < 1 {
        return None;
      }
      ghost var st0 := State();
      var rest := inputs[1..];
      var acc := inputs[0];
      for k := 0 to |rest|
        invariant Valid() && st0.nextWireId <= nextWireId && Owns(acc)
        invariant (State(), acc) == FoldWords(st0, op, inputs[0], rest[..k])
      {
        ghost var before := State();
        var w := U64BitwiseOp(acc, rest[k], op);
        FoldWordsSnoc(st0, op, inputs[0], rest, k, before, acc);
        acc := w;
      }
      assert rest[..|rest|] == rest;
      r := Some(acc);
    }

    /** `new_word64`: 64 fresh wires, bit 0 first. */
    method NewWord64() returns (r: Word64)
      requires Valid()
      modifies this
      ensures (State(), r) == Combinators.NewWord64(old(State()))
      ensures Valid()
    {
      ghost var st0 := State();
      var ws: seq<WireId> := [];
      for i := 0 to 64
        invariant (State(), ws) == NewWires(st0, i)
        invariant Valid()
      {
        var w := NewWire();
        ws := ws + [w];
      }
      r := ws;
    }

    /**
     * `set_word64`: binds wire i of the word to bit i of `input`, halving the
     * number after each wire.
     */
    method SetWord64(word: Word64, input: U64)
      requires Valid()
      modifies this
      ensures State() == old(State()).(wireValues := SetWordValues(old(wireValues), word, input))
      ensures Valid()
    {
      ghost var v0 := wireValues;
      var n: nat := input;
      for i := 0 to |word|
        invariant State() == old(State()).(wireValues := wireValues) && Valid()
        invariant SetWordValues(wireValues, word[i..], n) == SetWordValues(v0, word, input)
      {
        assert word[i..][1..] == word[i + 1..];
        if n % 2 == 0 {
          SetValue(word[i], Zero);
        } else {
          SetValue(word[i], One);
        }
        n := n / 2;
      }
    }

    /**
     * `wires_from_literal`: the constant wires spelling a 128-bit literal,
     * lowest bit first, one per bit up to the highest set bit; read as bits
     * they give the literal back.
     */
    method WiresFromLiteral(literal: U128) returns (bits: seq<WireId>)
      requires Valid()
      ensures bits == LiteralWires(literal)
      ensures |bits| <= 128 && Recompose(WireBits(bits)) == literal
    {
      var lit: nat := literal;
      bits := [];
      while lit != 0
        invariant bits + LiteralWires(lit) == LiteralWires(literal)
        decreases lit
      {
        var wire;
        if lit % 2 == 0 {
          wire := ZeroWireId();
        } else {
          wire := UnityWireId();
        }
        assert bits + LiteralWires(lit) == (bits + [wire]) + LiteralWires(lit / 2);
        bits := bits + [wire];
        lit := lit / 2;
      }
      assert bits + [] == bits;
      LiteralWiresSpec(literal);
      LiteralWiresLength(literal);
    }
  }
}
