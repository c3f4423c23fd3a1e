/**
 * What a wire evaluates to: its cached value if it has one, otherwise the
 * product of the weighted sums of the gate whose output it is. The memoising
 * evaluator of the builder is proved against these functions; the lemmas here
 * say that filling the cache with evaluated values, or growing the graph, does
 * not change what any existing wire evaluates to.
 */
module Semantics {
  import opened Wrappers
  import opened Field
  import opened Graph

  datatype EvalError =
    | UnknownWire(wire: WireId)   // the wire has no entry in the value table
    | DanglingWire(wire: WireId)  // no cached value and not the output of any gate

  type Value = Result<Fe, EvalError>

  /** The first Output connection of a list, as the builder's lookup finds it. */
  function FirstOutput(cs: seq<Connection>): Option<SubCircuitId> {
    if cs == [] then None
    else if cs[0].Output? then Some(cs[0].sc)
    else FirstOutput(cs[1..])
  }

  /** The gate a wire's first Output connection names has that wire as its output. */
  lemma {:induction false} FirstOutputIsGate(st: CircuitState, w: WireId, s: SubCircuitId)
    requires Acyclic(st) && FirstOutput(Conns(st.wireAssignments, w)) == Some(s)
    ensures s in st.subCircuitWires && st.subCircuitWires[s].output == w
  {
    var cs := Conns(st.wireAssignments, w);
    var i := FirstOutputIndex(cs);
    assert st.wireAssignments[w][i] == Output(s);
  }

  lemma {:induction false} FirstOutputIndex(cs: seq<Connection>) returns (i: nat)
    requires FirstOutput(cs).Some?
    ensures i < |cs| && cs[i] == Output(FirstOutput(cs).value)
  {
    if cs[0].Output? {
      i := 0;
    } else {
      var j := FirstOutputIndex(cs[1..]);
      i := j + 1;
    }
  }

  /** Appending connections that hold no Output leaves the first Output as it was. */
  lemma {:induction false} FirstOutputAppend(cs: seq<Connection>, ds: seq<Connection>)
    requires forall i | 0 <= i < |ds| :: !ds[i].Output?
    ensures FirstOutput(cs + ds) == FirstOutput(cs)
    decreases |cs|
  {
    if cs == [] {
      assert cs + ds == ds;
      FirstOutputNone(ds);
    } else {
      assert (cs + ds)[1..] == cs[1..] + ds;
      FirstOutputAppend(cs[1..], ds);
    }
  }

  lemma {:induction false} FirstOutputNone(ds: seq<Connection>)
    requires forall i | 0 <= i < |ds| :: !ds[i].Output?
    ensures FirstOutput(ds) == None
    decreases |ds|
  {
    if ds != [] {
      FirstOutputNone(ds[1..]);
    }
  }

  /** The value of `w`: cached, or computed from its gate. */
  function Eval(st: CircuitState, w: WireId): Value
    requires Acyclic(st)
    decreases w, 2, 0
  {
    if w !in st.wireValues then Err(UnknownWire(w))
    else if st.wireValues[w].Some? then Ok(st.wireValues[w].value)
    else
      match FirstOutput(Conns(st.wireAssignments, w))
      case None => Err(DanglingWire(w))
      case Some(s) =>
        FirstOutputIsGate(st, w, s);
        EvalSubCircuit(st, s)
  }

  /** Multiplies two sums, failing with the first failure. */
  function Product(lhs: Value, rhs: Value): Value {
    match lhs
    case Err(e) => Err(e)
    case Ok(l) =>
      match rhs
      case Err(e) => Err(e)
      case Ok(r) => Ok(Mul(l, r))
  }

  /** The output of gate `s`: (weighted sum of left terms) * (weighted sum of right terms). */
  function EvalSubCircuit(st: CircuitState, s: SubCircuitId): Value
    requires Acyclic(st) && s in st.subCircuitWires
    decreases st.subCircuitWires[s].output, 1, 0
  {
    var sc := st.subCircuitWires[s];
    Product(EvalSum(st, Zero, sc.leftInputs, sc.output), EvalSum(st, Zero, sc.rightInputs, sc.output))
  }

  /** Folds `acc + weight * value(wire)` over the terms, left to right. */
  function EvalSum(st: CircuitState, acc: Fe, terms: seq<Term>, bound: WireId): Value
    requires Acyclic(st) && InputsBelow(terms, bound)
    decreases bound, 0, |terms|
  {
    if terms == [] then Ok(acc)
    else
      match Eval(st, terms[0].wire)
      case Err(e) => Err(e)
      case Ok(v) => EvalSum(st, Add(acc, Mul(terms[0].weight, v)), terms[1..], bound)
  }

  /**
   * `values` is the value table after some evaluation: same wires, every cached
   * value kept, and every newly cached value the one the wire evaluates to.
   */
  ghost predicate CacheExtends(st: CircuitState, values: map<WireId, Option<Fe>>)
    requires Acyclic(st)
  {
    values.Keys == st.wireValues.Keys
    && (forall w | w in st.wireValues && st.wireValues[w].Some? :: values[w] == st.wireValues[w])
    && (forall w | w in st.wireValues && st.wireValues[w].None? && values[w].Some? ::
          Eval(st, w) == Ok(values[w].value))
  }

  /** Caching evaluated values never changes what any wire evaluates to. */
  lemma {:induction false} EvalCoherent(st: CircuitState, values: map<WireId, Option<Fe>>, w: WireId)
    requires Acyclic(st) && CacheExtends(st, values)
    ensures Acyclic(st.(wireValues := values))
    ensures Eval(st.(wireValues := values), w) == Eval(st, w)
    decreases w, 2, 0
  {
    var st' := st.(wireValues := values);
    assert Acyclic(st');
    if w in st.wireValues && st.wireValues[w].None? && values[w].None? {
      match FirstOutput(Conns(st.wireAssignments, w))
      case None =>
      case Some(s) =>
        FirstOutputIsGate(st, w, s);
        EvalSubCircuitCoherent(st, values, s);
    }
  }

  lemma {:induction false} EvalSubCircuitCoherent(st: CircuitState, values: map<WireId, Option<Fe>>, s: SubCircuitId)
    requires Acyclic(st) && CacheExtends(st, values) && s in st.subCircuitWires
    ensures Acyclic(st.(wireValues := values))
    ensures EvalSubCircuit(st.(wireValues := values), s) == EvalSubCircuit(st, s)
    decreases st.subCircuitWires[s].output, 1, 0
  {
    var sc := st.subCircuitWires[s];
    EvalSumCoherent(st, values, Zero, sc.leftInputs, sc.output);
    EvalSumCoherent(st, values, Zero, sc.rightInputs, sc.output);
  }

  lemma {:induction false} EvalSumCoherent(st: CircuitState, values: map<WireId, Option<Fe>>, acc: Fe, terms: seq<Term>, bound: WireId)
    requires Acyclic(st) && CacheExtends(st, values) && InputsBelow(terms, bound)
    ensures Acyclic(st.(wireValues := values))
    ensures EvalSum(st.(wireValues := values), acc, terms, bound) == EvalSum(st, acc, terms, bound)
    decreases bound, 0, |terms|
  {
    var st' := st.(wireValues := values);
    assert Acyclic(st');
    if terms != [] {
      EvalCoherent(st, values, terms[0].wire);
      match Eval(st, terms[0].wire)
      case Err(_) =>
      case Ok(v) =>
        EvalSumCoherent(st, values, Add(acc, Mul(terms[0].weight, v)), terms[1..], bound);
    }
  }

  /** Two rounds of caching compose into one. */
  lemma CacheExtendsTrans(st: CircuitState, mid: map<WireId, Option<Fe>>, values: map<WireId, Option<Fe>>)
    requires Acyclic(st) && CacheExtends(st, mid)
    requires Acyclic(st.(wireValues := mid)) && CacheExtends(st.(wireValues := mid), values)
    ensures CacheExtends(st, values)
  {
    forall w | w in st.wireValues && st.wireValues[w].None? && values[w].Some?
      ensures Eval(st, w) == Ok(values[w].value)
    {
      EvalCoherent(st, mid, w);
    }
  }

  /** Caching the value a wire evaluates to is a coherent extension of the table. */
  lemma CacheOne(st: CircuitState, w: WireId, v: Fe)
    requires Acyclic(st) && w in st.wireValues && Eval(st, w) == Ok(v)
    ensures CacheExtends(st, st.wireValues[w := Some(v)])
  {
  }

  /**
   * `st'` grows `st` by gates and wires at or above `frontier`: the stored gates
   * are kept (all with outputs below `frontier`), and every wire other than
   * `frontier` keeps its table entry and its first Output connection.
   */
  ghost predicate GrowsAt(st: CircuitState, st': CircuitState, frontier: WireId) {
    (forall s | s in st.subCircuitWires ::
       st.subCircuitWires[s].output < frontier && s in st'.subCircuitWires && st'.subCircuitWires[s] == st.subCircuitWires[s])
    && (forall w | w != frontier :: w in st'.wireValues <==> w in st.wireValues)
    && (forall w | w != frontier && w in st.wireValues :: st'.wireValues[w] == st.wireValues[w])
    && (forall w | w != frontier ::
          FirstOutput(Conns(st'.wireAssignments, w)) == FirstOutput(Conns(st.wireAssignments, w)))
  }

  /** Growing the graph leaves the value of every other wire unchanged. */
  lemma {:induction false} EvalGrows(st: CircuitState, st': CircuitState, frontier: WireId, w: WireId)
    requires Acyclic(st) && Acyclic(st') && GrowsAt(st, st', frontier) && w != frontier
    ensures Eval(st', w) == Eval(st, w)
    decreases w, 2, 0
  {
    if w in st.wireValues && st.wireValues[w].None? {
      match FirstOutput(Conns(st.wireAssignments, w))
      case None =>
      case Some(s) =>
        FirstOutputIsGate(st, w, s);
        EvalSubCircuitGrows(st, st', frontier, s);
    }
  }

  lemma {:induction false} EvalSubCircuitGrows(st: CircuitState, st': CircuitState, frontier: WireId, s: SubCircuitId)
    requires Acyclic(st) && Acyclic(st') && GrowsAt(st, st', frontier) && s in st.subCircuitWires
    ensures s in st'.subCircuitWires && EvalSubCircuit(st', s) == EvalSubCircuit(st, s)
    decreases st.subCircuitWires[s].output, 1, 0
  {
    var sc := st.subCircuitWires[s];
    EvalSumGrows(st, st', frontier, Zero, sc.leftInputs, sc.output);
    EvalSumGrows(st, st', frontier, Zero, sc.rightInputs, sc.output);
  }

  lemma {:induction false} EvalSumGrows(st: CircuitState, st': CircuitState, frontier: WireId, acc: Fe, terms: seq<Term>, bound: WireId)
    requires Acyclic(st) && Acyclic(st') && GrowsAt(st, st', frontier) && InputsBelow(terms, bound) && bound <= frontier
    ensures EvalSum(st', acc, terms, bound) == EvalSum(st, acc, terms, bound)
    decreases bound, 0, |terms|
  {
    if terms != [] {
      EvalGrows(st, st', frontier, terms[0].wire);
      match Eval(st, terms[0].wire)
      case Err(_) =>
      case Ok(v) =>
        EvalSumGrows(st, st', frontier, Add(acc, Mul(terms[0].weight, v)), terms[1..], bound);
    }
  }

  /** A freshly allocated wire has no value yet; every other wire keeps its value. */
  lemma NewWireEval(st: CircuitState)
    requires WellFormed(st)
    ensures var (st', w) := NewWire(st);
      && WellFormed(st')
      && Eval(st', w) == Err(DanglingWire(w))
      && (forall v | v != w :: Eval(st', v) == Eval(st, v))
  {
    var (st', w) := NewWire(st);
    NewWireWellFormed(st);
    forall s | s in st.subCircuitWires ensures st.subCircuitWires[s].output < w {
      assert OutputRecorded(st, s);
    }
    assert GrowsAt(st, st', w);
    forall v | v != w ensures Eval(st', v) == Eval(st, v) {
      EvalGrows(st, st', w, v);
    }
  }

  /** A state with a gate added has grown at the gate's output wire. */
  lemma GateAddedGrows(st: CircuitState, st': CircuitState, left: seq<Term>, right: seq<Term>)
    requires WellFormed(st) && GateAdded(st, st', left, right)
    ensures GrowsAt(st, st', st.nextWireId)
    ensures FirstOutput(Conns(st'.wireAssignments, st.nextWireId)) == Some(st.nextSubCircuitId)
  {
    var s := st.nextSubCircuitId;
    var out := st.nextWireId;
    forall t | t in st.subCircuitWires ensures st.subCircuitWires[t].output < out {
      assert OutputRecorded(st, t);
    }
    forall w | w != out
      ensures FirstOutput(Conns(st'.wireAssignments, w)) == FirstOutput(Conns(st.wireAssignments, w))
    {
      var l := ConnsFor(left, w, LeftSide, s);
      var r := ConnsFor(right, w, RightSide, s);
      ConnsForNoOutput(left, w, LeftSide, s);
      ConnsForNoOutput(right, w, RightSide, s);
      assert Conns(st.wireAssignments, w) + l + r == Conns(st.wireAssignments, w) + (l + r);
      FirstOutputAppend(Conns(st.wireAssignments, w), l + r);
    }
  }

  /** Adding a gate grows the circuit at its output wire. */
  lemma NewSubCircuitGrows(st: CircuitState, left: seq<Term>, right: seq<Term>)
    requires WellFormed(st) && InputsBelow(left, st.nextWireId) && InputsBelow(right, st.nextWireId)
    ensures var (st', out) := NewSubCircuit(st, left, right);
      && WellFormed(st')
      && GrowsAt(st, st', out)
      && FirstOutput(Conns(st'.wireAssignments, out)) == Some(st.nextSubCircuitId)
  {
    NewSubCircuitShape(st, left, right);
    NewSubCircuitWellFormed(st, left, right);
    GateAddedGrows(st, NewSubCircuit(st, left, right).0, left, right);
  }

  /**
   * Adding a gate leaves the value of every existing wire unchanged, and its
   * output evaluates to the product of its two weighted sums taken in the old
   * circuit.
   */
  lemma NewSubCircuitEval(st: CircuitState, left: seq<Term>, right: seq<Term>)
    requires WellFormed(st) && InputsBelow(left, st.nextWireId) && InputsBelow(right, st.nextWireId)
    ensures var (st', out) := NewSubCircuit(st, left, right);
      && WellFormed(st')
      && (forall w | w != out :: Eval(st', w) == Eval(st, w))
      && Eval(st', out) == Product(EvalSum(st, Zero, left, out), EvalSum(st, Zero, right, out))
  {
    var (st', out) := NewSubCircuit(st, left, right);
    NewSubCircuitGrows(st, left, right);
    NewSubCircuitShape(st, left, right);
    forall w | w != out ensures Eval(st', w) == Eval(st, w) {
      EvalGrows(st, st', out, w);
    }
    EvalSumGrows(st, st', out, Zero, left, out);
    EvalSumGrows(st, st', out, Zero, right, out);
  }

  /** The value table after `reset`: every entry cleared except those of wires 0 and 1. */
  function ResetValues(values: map<WireId, Option<Fe>>): map<WireId, Option<Fe>> {
    map w | w in values :: if w == ZeroWire || w == UnityWire then values[w] else None
  }

  /**
   * Reset keeps the set of known wires and the constant bindings, clears every
   * other value, and a second reset changes nothing.
   */
  lemma ResetSpec(st: CircuitState)
    requires WellFormed(st)
    ensures var st' := st.(wireValues := ResetValues(st.wireValues));
      && WellFormed(st')
      && st'.wireValues.Keys == st.wireValues.Keys
      && (forall w | w in st.wireValues && w != ZeroWire && w != UnityWire :: st'.wireValues[w] == None)
      && (ConstantsBound(st) ==> ConstantsBound(st') && Eval(st', ZeroWire) == Ok(Zero) && Eval(st', UnityWire) == Ok(One))
      && ResetValues(st'.wireValues) == st'.wireValues
  {
  }

  /**
   * Evaluating and then resetting leaves the same table as resetting alone, so
   * rebinding the same inputs afterwards gives the same values again. Wires 0
   * and 1 need only hold some value, which `set_value` may have replaced.
   */
  lemma ResetForgetsEvaluation(st: CircuitState, values: map<WireId, Option<Fe>>)
    requires Acyclic(st) && CacheExtends(st, values)
    requires ZeroWire in st.wireValues ==> st.wireValues[ZeroWire].Some?
    requires UnityWire in st.wireValues ==> st.wireValues[UnityWire].Some?
    ensures ResetValues(values) == ResetValues(st.wireValues)
  {
  }
}

