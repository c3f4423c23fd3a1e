/**
 * The boolean gate library: each gate is one rank-1 sub-circuit with fixed term
 * lists (two for OR). The lemmas give the value each gate's output evaluates
 * to, for any field values of its inputs, and the truth tables on 0/1 inputs.
 * The gates assume, and do not check, that their inputs hold 0 or 1.
 */
module Gates {
  import opened Wrappers
  import opened Field
  import opened Graph
  import opened Semantics

  /** x * (x - 1): zero exactly when x is a bit. */
  function BitCheckerGate(st: CircuitState, x: WireId): (CircuitState, WireId) {
    NewSubCircuit(st, [Term(One, x)], [Term(One, x), Term(Neg(One), UnityWire)])
  }

  /** 1 * (1 - x). */
  function NotGate(st: CircuitState, x: WireId): (CircuitState, WireId) {
    NewSubCircuit(st, [Term(One, UnityWire)], [Term(One, UnityWire), Term(Neg(One), x)])
  }

  /** x * y. */
  function AndGate(st: CircuitState, x: WireId, y: WireId): (CircuitState, WireId) {
    NewSubCircuit(st, [Term(One, x)], [Term(One, y)])
  }

  /** (x + y - x*y) * 1, built on an AND gate. */
  function OrGate(st: CircuitState, x: WireId, y: WireId): (CircuitState, WireId) {
    var (st1, xy) := AndGate(st, x, y);
    NewSubCircuit(st1, [Term(Neg(One), xy), Term(One, x), Term(One, y)], [Term(One, UnityWire)])
  }

  /** (x - y) * (x - y). */
  function XorGate(st: CircuitState, x: WireId, y: WireId): (CircuitState, WireId) {
    NewSubCircuit(st, [Term(One, x), Term(Neg(One), y)], [Term(One, x), Term(Neg(One), y)])
  }

  /**
   * `st'` extends `st`: no counter went back, every wire of `st` evaluates as
   * before, and bound constants stay bound.
   */
  ghost predicate Grows(st: CircuitState, st': CircuitState)
    requires WellFormed(st) && WellFormed(st')
  {
    st.nextWireId <= st'.nextWireId
    && st.nextSubCircuitId <= st'.nextSubCircuitId
    && (forall w: WireId | w < st.nextWireId :: Eval(st', w) == Eval(st, w))
    && (ConstantsBound(st) ==> ConstantsBound(st'))
  }

  /** Building on a grown state grows the original one. */
  lemma GrowsTrans(s1: CircuitState, s2: CircuitState, s3: CircuitState)
    requires WellFormed(s1) && WellFormed(s2) && WellFormed(s3)
    requires Grows(s1, s2) && Grows(s2, s3)
    ensures Grows(s1, s3)
  {
  }

  /** The facts every single-gate constructor shares. */
  lemma AddGate(st: CircuitState, left: seq<Term>, right: seq<Term>)
    requires WellFormed(st) && InputsBelow(left, st.nextWireId) && InputsBelow(right, st.nextWireId)
    ensures var (st', out) := NewSubCircuit(st, left, right);
      && WellFormed(st') && Grows(st, st')
      && out == st.nextWireId && st'.nextWireId == out + 1
      && st'.nextSubCircuitId == st.nextSubCircuitId + 1
      && Eval(st', out) == Product(EvalSum(st, Zero, left, out), EvalSum(st, Zero, right, out))
  {
    NewSubCircuitEval(st, left, right);
    NewSubCircuitWellFormed(st, left, right);
    NewSubCircuitShape(st, left, right);
  }

  /** The one-term sum `w * value(x)`. */
  lemma SumOne(st: CircuitState, w: Fe, x: WireId, bound: WireId)
    requires Acyclic(st) && x < bound
    ensures EvalSum(st, Zero, [Term(w, x)], bound)
         == match Eval(st, x) case Err(e) => Err(e) case Ok(v) => Ok(Mul(w, v))
  {
    assert [Term(w, x)][1..] == [];
  }

  /** The two-term sum `w1 * value(x) + w2 * value(y)`. */
  lemma SumTwo(st: CircuitState, w1: Fe, x: WireId, w2: Fe, y: WireId, bound: WireId)
    requires Acyclic(st) && x < bound && y < bound
    ensures EvalSum(st, Zero, [Term(w1, x), Term(w2, y)], bound)
         == match Eval(st, x)
            case Err(e) => Err(e)
            case Ok(a) =>
              match Eval(st, y)
              case Err(e) => Err(e)
              case Ok(b) => Ok(Add(Mul(w1, a), Mul(w2, b)))
  {
    var terms := [Term(w1, x), Term(w2, y)];
    assert terms[1..] == [Term(w2, y)];
    assert [Term(w2, y)][1..] == [];
    match Eval(st, x)
    case Err(_) =>
    case Ok(a) =>
      assert Add(Zero, Mul(w1, a)) == Mul(w1, a);
      assert EvalSum(st, Zero, terms, bound) == EvalSum(st, Mul(w1, a), [Term(w2, y)], bound);
  }

  function BoolFe(b: bool): Fe { if b then One else Zero }

  /** The arithmetic half of `BitCheckerValue`, on the gate's defining equation. */
  lemma BitCheckerArith(st: CircuitState, st': CircuitState, x: WireId, out: WireId)
    requires WellFormed(st) && ConstantsBound(st) && x < out && UnityWire < out && Acyclic(st')
    requires Eval(st', out) == Product(EvalSum(st, Zero, [Term(One, x)], out),
                                       EvalSum(st, Zero, [Term(One, x), Term(Neg(One), UnityWire)], out))
    ensures Eval(st', out).Ok? <==> Eval(st, x).Ok?
    ensures Eval(st, x).Ok? ==> Eval(st', out) == Ok(Mul(Eval(st, x).value, Sub(Eval(st, x).value, One)))
    ensures Eval(st', out) == Ok(Zero) <==> Eval(st, x) == Ok(Zero) || Eval(st, x) == Ok(One)
  {
    assert Eval(st, UnityWire) == Ok(One);
    SumOne(st, One, x, out);
    SumTwo(st, One, x, Neg(One), UnityWire, out);
    if Eval(st, x).Ok? {
      MulMinusOne(One);
      Identities(Eval(st, x).value);
      BitRoots(Eval(st, x).value);
    }
  }

  /**
   * The bit checker evaluates to x * (x - 1), which is zero exactly when x is
   * 0 or 1; it fails exactly when x fails.
   */
  lemma BitCheckerValue(st: CircuitState, x: WireId)
    requires WellFormed(st) && ConstantsBound(st) && x < st.nextWireId
    ensures var (st', out) := BitCheckerGate(st, x);
      && WellFormed(st') && Grows(st, st')
      && out == st.nextWireId && st'.nextSubCircuitId == st.nextSubCircuitId + 1
      && (Eval(st', out).Ok? <==> Eval(st, x).Ok?)
      && (Eval(st, x).Ok? ==> Eval(st', out) == Ok(Mul(Eval(st, x).value, Sub(Eval(st, x).value, One))))
      && (Eval(st', out) == Ok(Zero) <==> Eval(st, x) == Ok(Zero) || Eval(st, x) == Ok(One))
  {
    var r := BitCheckerGate(st, x);
    AddGate(st, [Term(One, x)], [Term(One, x), Term(Neg(One), UnityWire)]);
    BitCheckerArith(st, r.0, x, r.1);
  }

  /** The arithmetic half of `NotValue`. */
  lemma NotArith(st: CircuitState, st': CircuitState, x: WireId, out: WireId)
    requires WellFormed(st) && ConstantsBound(st) && x < out && UnityWire < out && Acyclic(st')
    requires Eval(st', out) == Product(EvalSum(st, Zero, [Term(One, UnityWire)], out),
                                       EvalSum(st, Zero, [Term(One, UnityWire), Term(Neg(One), x)], out))
    ensures Eval(st', out).Ok? <==> Eval(st, x).Ok?
    ensures Eval(st, x).Ok? ==> Eval(st', out) == Ok(Sub(One, Eval(st, x).value))
  {
    assert Eval(st, UnityWire) == Ok(One);
    SumOne(st, One, UnityWire, out);
    SumTwo(st, One, UnityWire, Neg(One), x, out);
    Identities(One);
    if Eval(st, x).Ok? {
      MulMinusOne(Eval(st, x).value);
      Identities(Sub(One, Eval(st, x).value));
    }
  }

  /** NOT evaluates to 1 - x and fails exactly when x fails. */
  lemma NotValue(st: CircuitState, x: WireId)
    requires WellFormed(st) && ConstantsBound(st) && x < st.nextWireId
    ensures var (st', out) := NotGate(st, x);
      && WellFormed(st') && Grows(st, st')
      && out == st.nextWireId && st'.nextSubCircuitId == st.nextSubCircuitId + 1
      && (Eval(st', out).Ok? <==> Eval(st, x).Ok?)
      && (Eval(st, x).Ok? ==> Eval(st', out) == Ok(Sub(One, Eval(st, x).value)))
  {
    var r := NotGate(st, x);
    AddGate(st, [Term(One, UnityWire)], [Term(One, UnityWire), Term(Neg(One), x)]);
    NotArith(st, r.0, x, r.1);
  }

  /** The arithmetic half of `AndValue`. */
  lemma AndArith(st: CircuitState, st': CircuitState, x: WireId, y: WireId, out: WireId)
    requires WellFormed(st) && x < out && y < out && Acyclic(st')
    requires Eval(st', out) == Product(EvalSum(st, Zero, [Term(One, x)], out), EvalSum(st, Zero, [Term(One, y)], out))
    ensures Eval(st', out).Ok? <==> Eval(st, x).Ok? && Eval(st, y).Ok?
    ensures Eval(st, x).Ok? && Eval(st, y).Ok? ==> Eval(st', out) == Ok(Mul(Eval(st, x).value, Eval(st, y).value))
  {
    SumOne(st, One, x, out);
    SumOne(st, One, y, out);
    if Eval(st, x).Ok? && Eval(st, y).Ok? {
      Identities(Eval(st, x).value);
      Identities(Eval(st, y).value);
    }
  }

  /** AND evaluates to x * y and fails exactly when an input fails. */
  lemma AndValue(st: CircuitState, x: WireId, y: WireId)
    requires WellFormed(st) && x < st.nextWireId && y < st.nextWireId
    ensures var (st', out) := AndGate(st, x, y);
      && WellFormed(st') && Grows(st, st')
      && out == st.nextWireId && st'.nextSubCircuitId == st.nextSubCircuitId + 1
      && (Eval(st', out).Ok? <==> Eval(st, x).Ok? && Eval(st, y).Ok?)
      && (Eval(st, x).Ok? && Eval(st, y).Ok? ==> Eval(st', out) == Ok(Mul(Eval(st, x).value, Eval(st, y).value)))
  {
    var r := AndGate(st, x, y);
    AddGate(st, [Term(One, x)], [Term(One, y)]);
    AndArith(st, r.0, x, y, r.1);
  }

  /** The arithmetic half of `XorValue`. */
  lemma XorArith(st: CircuitState, st': CircuitState, x: WireId, y: WireId, out: WireId)
    requires WellFormed(st) && x < out && y < out && Acyclic(st')
    requires Eval(st', out) == Product(EvalSum(st, Zero, [Term(One, x), Term(Neg(One), y)], out),
                                       EvalSum(st, Zero, [Term(One, x), Term(Neg(One), y)], out))
    ensures Eval(st', out).Ok? <==> Eval(st, x).Ok? && Eval(st, y).Ok?
    ensures Eval(st, x).Ok? && Eval(st, y).Ok? ==>
      var d := Sub(Eval(st, x).value, Eval(st, y).value);
      Eval(st', out) == Ok(Mul(d, d))
  {
    SumTwo(st, One, x, Neg(One), y, out);
    if Eval(st, x).Ok? && Eval(st, y).Ok? {
      Identities(Eval(st, x).value);
      MulMinusOne(Eval(st, y).value);
    }
  }

  /** XOR evaluates to (x - y)^2 and fails exactly when an input fails. */
  lemma XorValue(st: CircuitState, x: WireId, y: WireId)
    requires WellFormed(st) && x < st.nextWireId && y < st.nextWireId
    ensures var (st', out) := XorGate(st, x, y);
      && WellFormed(st') && Grows(st, st')
      && out == st.nextWireId && st'.nextSubCircuitId == st.nextSubCircuitId + 1
      && (Eval(st', out).Ok? <==> Eval(st, x).Ok? && Eval(st, y).Ok?)
      && (Eval(st, x).Ok? && Eval(st, y).Ok? ==>
            var d := Sub(Eval(st, x).value, Eval(st, y).value);
            Eval(st', out) == Ok(Mul(d, d)))
  {
    var r := XorGate(st, x, y);
    AddGate(st, [Term(One, x), Term(Neg(One), y)], [Term(One, x), Term(Neg(One), y)]);
    XorArith(st, r.0, x, y, r.1);
  }

  /**
   * The proof of `OrValue` on plain states: `st1` is `st` with the AND gate
   * `xy` added, `st'` is `st1` with the second gate `out` added.
   */
  lemma OrSteps(st: CircuitState, st1: CircuitState, st': CircuitState, x: WireId, y: WireId, xy: WireId, out: WireId)
    requires WellFormed(st) && WellFormed(st1) && WellFormed(st') && ConstantsBound(st)
    requires Grows(st, st1) && Grows(st1, st')
    requires x < st.nextWireId && y < st.nextWireId && xy == st.nextWireId && out == xy + 1
    requires Eval(st1, xy).Ok? <==> Eval(st, x).Ok? && Eval(st, y).Ok?
    requires Eval(st, x).Ok? && Eval(st, y).Ok? ==> Eval(st1, xy) == Ok(Mul(Eval(st, x).value, Eval(st, y).value))
    requires Eval(st', out) == Product(EvalSum(st1, Zero, [Term(Neg(One), xy), Term(One, x), Term(One, y)], out),
                                       EvalSum(st1, Zero, [Term(One, UnityWire)], out))
    ensures Grows(st, st')
    ensures Eval(st', out).Ok? <==> Eval(st, x).Ok? && Eval(st, y).Ok?
    ensures Eval(st, x).Ok? && Eval(st, y).Ok? ==>
      var a := Eval(st, x).value;
      var b := Eval(st, y).value;
      Eval(st', out) == Ok(Sub(Add(a, b), Mul(a, b)))
  {
    GrowsTrans(st, st1, st');
    assert Eval(st1, UnityWire) == Ok(One);
    SumOne(st1, One, UnityWire, out);
    SumThree(st1, Neg(One), xy, One, x, One, y, out);
    Identities(One);
    if Eval(st, x).Ok? && Eval(st, y).Ok? {
      var a := Eval(st, x).value;
      var b := Eval(st, y).value;
      var m := Mul(a, b);
      MulMinusOne(m);
      Identities(a);
      Identities(b);
      AddAC(Neg(m), a, b);
      AddAC(Neg(m), Add(a, b), Zero);
      Identities(Add(Add(Neg(m), a), b));
    }
  }

  /**
   * OR adds two gates and evaluates to x + y - x*y; it fails exactly when an
   * input fails.
   */
  lemma OrValue(st: CircuitState, x: WireId, y: WireId)
    requires WellFormed(st) && ConstantsBound(st) && x < st.nextWireId && y < st.nextWireId
    ensures var (st', out) := OrGate(st, x, y);
      && WellFormed(st') && Grows(st, st')
      && out == st.nextWireId + 1 && st'.nextSubCircuitId == st.nextSubCircuitId + 2
      && (Eval(st', out).Ok? <==> Eval(st, x).Ok? && Eval(st, y).Ok?)
      && (Eval(st, x).Ok? && Eval(st, y).Ok? ==>
            var a := Eval(st, x).value;
            var b := Eval(st, y).value;
            Eval(st', out) == Ok(Sub(Add(a, b), Mul(a, b))))
  {
    var r1 := AndGate(st, x, y);
    AndValue(st, x, y);
    var left := [Term(Neg(One), r1.1), Term(One, x), Term(One, y)];
    var right := [Term(One, UnityWire)];
    var r := NewSubCircuit(r1.0, left, right);
    assert OrGate(st, x, y) == r;
    AddGate(r1.0, left, right);
    OrSteps(st, r1.0, r.0, x, y, r1.1, r.1);
  }

  /** The three-term sum `w1 * value(x) + w2 * value(y) + w3 * value(z)`. */
  lemma SumThree(st: CircuitState, w1: Fe, x: WireId, w2: Fe, y: WireId, w3: Fe, z: WireId, bound: WireId)
    requires Acyclic(st) && x < bound && y < bound && z < bound
    ensures EvalSum(st, Zero, [Term(w1, x), Term(w2, y), Term(w3, z)], bound)
         == match Eval(st, x)
            case Err(e) => Err(e)
            case Ok(a) =>
              match Eval(st, y)
              case Err(e) => Err(e)
              case Ok(b) =>
                match Eval(st, z)
                case Err(e) => Err(e)
                case Ok(c) => Ok(Add(Add(Mul(w1, a), Mul(w2, b)), Mul(w3, c)))
  {
    var terms := [Term(w1, x), Term(w2, y), Term(w3, z)];
    assert terms[1..] == [Term(w2, y), Term(w3, z)];
    assert terms[1..][1..] == [Term(w3, z)];
    assert [Term(w3, z)][1..] == [];
    match Eval(st, x)
    case Err(_) =>
    case Ok(a) =>
      Identities(Mul(w1, a));
      assert EvalSum(st, Zero, terms, bound) == EvalSum(st, Mul(w1, a), terms[1..], bound);
      match Eval(st, y)
      case Err(_) =>
      case Ok(b) =>
        assert EvalSum(st, Mul(w1, a), terms[1..], bound)
            == EvalSum(st, Add(Mul(w1, a), Mul(w2, b)), [Term(w3, z)], bound);
  }

  /** On bits, the field formulas are the boolean truth tables. */
  lemma BitArithmetic(a: bool, b: bool)
    ensures Sub(One, BoolFe(a)) == BoolFe(!a)
    ensures Mul(BoolFe(a), BoolFe(b)) == BoolFe(a && b)
    ensures Sub(Add(BoolFe(a), BoolFe(b)), Mul(BoolFe(a), BoolFe(b))) == BoolFe(a || b)
    ensures Mul(Sub(BoolFe(a), BoolFe(b)), Sub(BoolFe(a), BoolFe(b))) == BoolFe(a != b)
    ensures Mul(BoolFe(a), Sub(BoolFe(a), One)) == Zero
  {
  }
}
