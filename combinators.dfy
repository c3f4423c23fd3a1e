/**
 * Combinators that build many gates at once: a left fold of a binary gate over
 * wires (`fan_in`), a gate applied pairwise to two wire sequences
 * (`bitwise_op`), and the same over 64-wire words. The gate a combinator is
 * given is one of the library's constructors, named by an operator value.
 */
module Combinators {
  import opened Wrappers
  import opened Field
  import opened Graph
  import opened Semantics
  import opened Gates

  /** The binary gate constructors a combinator can be given. */
  datatype BinaryOp = And | Or | Xor

  /** The unary gate constructors a word operation can be given. */
  datatype UnaryOp = Not | BitCheck

  /** A 64-bit word as 64 wires, bit 0 (least significant) first. */
  type Word64 = s: seq<WireId> | |s| == 64 witness seq(64, _ => ZeroWire)

  function ApplyGate(st: CircuitState, op: BinaryOp, x: WireId, y: WireId): (CircuitState, WireId) {
    match op
    case And => AndGate(st, x, y)
    case Or => OrGate(st, x, y)
    case Xor => XorGate(st, x, y)
  }

  function ApplyUnary(st: CircuitState, op: UnaryOp, x: WireId): (CircuitState, WireId) {
    match op
    case Not => NotGate(st, x)
    case BitCheck => BitCheckerGate(st, x)
  }

  /** The boolean function a gate computes on 0/1 inputs. */
  function BoolOp(op: BinaryOp, a: bool, b: bool): bool {
    match op
    case And => a && b
    case Or => a || b
    case Xor => a != b
  }

  function UnaryBool(op: UnaryOp, a: bool): bool {
    match op
    case Not => !a
    case BitCheck => false
  }

  /** How many sub-circuits one application of the gate adds. */
  function GateCost(op: BinaryOp): nat {
    if op == Or then 2 else 1
  }

  /** `st'` is well formed, grew from `st`, and has `gates` more sub-circuits. */
  ghost predicate Grew(st: CircuitState, st': CircuitState, gates: nat)
    requires WellFormed(st)
  {
    WellFormed(st') && Grows(st, st') && st'.nextSubCircuitId == st.nextSubCircuitId + gates
  }

  /** The facts shared by every gate lemma, for a gate returning (st', out): `out` is fresh. */
  ghost predicate GateGrew(st: CircuitState, st': CircuitState, out: WireId, cost: nat)
    requires WellFormed(st)
  {
    Grew(st, st', cost) && st.nextWireId <= out < st'.nextWireId
  }

  /** The facts shared by every gate lemma on bits, for a gate returning (st', out). */
  ghost predicate GateOnBits(st: CircuitState, st': CircuitState, out: WireId, cost: nat, v: bool)
    requires WellFormed(st)
  {
    GateGrew(st, st', out, cost) && Eval(st', out) == Ok(BoolFe(v))
  }

  lemma AndBool(st: CircuitState, x: WireId, y: WireId, a: bool, b: bool)
    requires WellFormed(st) && x < st.nextWireId && y < st.nextWireId
    requires Eval(st, x) == Ok(BoolFe(a)) && Eval(st, y) == Ok(BoolFe(b))
    ensures GateOnBits(st, AndGate(st, x, y).0, AndGate(st, x, y).1, 1, a && b)
  {
    BitArithmetic(a, b);
    AndValue(st, x, y);
  }

  lemma OrBool(st: CircuitState, x: WireId, y: WireId, a: bool, b: bool)
    requires WellFormed(st) && ConstantsBound(st) && x < st.nextWireId && y < st.nextWireId
    requires Eval(st, x) == Ok(BoolFe(a)) && Eval(st, y) == Ok(BoolFe(b))
    ensures GateOnBits(st, OrGate(st, x, y).0, OrGate(st, x, y).1, 2, a || b)
  {
    BitArithmetic(a, b);
    OrValue(st, x, y);
  }

  lemma XorBool(st: CircuitState, x: WireId, y: WireId, a: bool, b: bool)
    requires WellFormed(st) && x < st.nextWireId && y < st.nextWireId
    requires Eval(st, x) == Ok(BoolFe(a)) && Eval(st, y) == Ok(BoolFe(b))
    ensures GateOnBits(st, XorGate(st, x, y).0, XorGate(st, x, y).1, 1, a != b)
  {
    BitArithmetic(a, b);
    XorValue(st, x, y);
  }

  lemma NotBool(st: CircuitState, x: WireId, a: bool)
    requires WellFormed(st) && ConstantsBound(st) && x < st.nextWireId && Eval(st, x) == Ok(BoolFe(a))
    ensures GateOnBits(st, NotGate(st, x).0, NotGate(st, x).1, 1, !a)
  {
    BitArithmetic(a, a);
    NotValue(st, x);
  }

  lemma BitCheckBool(st: CircuitState, x: WireId, a: bool)
    requires WellFormed(st) && ConstantsBound(st) && x < st.nextWireId && Eval(st, x) == Ok(BoolFe(a))
    ensures GateOnBits(st, BitCheckerGate(st, x).0, BitCheckerGate(st, x).1, 1, false)
  {
    BitCheckerValue(st, x);
  }

  /** A binary gate on two bit-valued wires evaluates to its truth table. */
  lemma ApplyGateBool(st: CircuitState, op: BinaryOp, x: WireId, y: WireId, a: bool, b: bool)
    requires WellFormed(st) && ConstantsBound(st) && x < st.nextWireId && y < st.nextWireId
    requires Eval(st, x) == Ok(BoolFe(a)) && Eval(st, y) == Ok(BoolFe(b))
    ensures GateOnBits(st, ApplyGate(st, op, x, y).0, ApplyGate(st, op, x, y).1, GateCost(op), BoolOp(op, a, b))
  {
    match op
    case And => AndBool(st, x, y, a, b);
    case Or => OrBool(st, x, y, a, b);
    case Xor => XorBool(st, x, y, a, b);
  }

  /** A unary gate on a bit-valued wire evaluates to its truth table. */
  lemma ApplyUnaryBool(st: CircuitState, op: UnaryOp, x: WireId, a: bool)
    requires WellFormed(st) && ConstantsBound(st) && x < st.nextWireId && Eval(st, x) == Ok(BoolFe(a))
    ensures GateOnBits(st, ApplyUnary(st, op, x).0, ApplyUnary(st, op, x).1, 1, UnaryBool(op, a))
  {
    match op
    case Not => NotBool(st, x, a);
    case BitCheck => BitCheckBool(st, x, a);
  }

  /**
   * Whatever its inputs hold, a binary gate keeps the invariant, grows the
   * circuit, returns a fresh wire and adds `GateCost(op)` gates.
   */
  lemma ApplyGateGrows(st: CircuitState, op: BinaryOp, x: WireId, y: WireId)
    requires WellFormed(st) && x < st.nextWireId && y < st.nextWireId
    ensures GateGrew(st, ApplyGate(st, op, x, y).0, ApplyGate(st, op, x, y).1, GateCost(op))
  {
    match op
    case And => SubCircuitGrew(st, [Term(One, x)], [Term(One, y)]);
    case Xor => SubCircuitGrew(st, [Term(One, x), Term(Neg(One), y)], [Term(One, x), Term(Neg(One), y)]);
    case Or => OrGateGrows(st, x, y);
  }

  /** The OR gate's two sub-circuits, whatever its inputs hold. */
  lemma OrGateGrows(st: CircuitState, x: WireId, y: WireId)
    requires WellFormed(st) && x < st.nextWireId && y < st.nextWireId
    ensures GateGrew(st, OrGate(st, x, y).0, OrGate(st, x, y).1, 2)
  {
    var r1 := AndGate(st, x, y);
    SubCircuitGrew(st, [Term(One, x)], [Term(One, y)]);
    var left := [Term(Neg(One), r1.1), Term(One, x), Term(One, y)];
    var r := NewSubCircuit(r1.0, left, [Term(One, UnityWire)]);
    assert OrGate(st, x, y) == r;
    SubCircuitGrew(r1.0, left, [Term(One, UnityWire)]);
    GrewTwice(st, r1.0, r.0, r1.1, r.1, 1, 1);
  }

  /** One sub-circuit over allocated wires, whatever they hold. */
  lemma SubCircuitGrew(st: CircuitState, left: seq<Term>, right: seq<Term>)
    requires WellFormed(st) && InputsBelow(left, st.nextWireId) && InputsBelow(right, st.nextWireId)
    ensures GateGrew(st, NewSubCircuit(st, left, right).0, NewSubCircuit(st, left, right).1, 1)
  {
    AddGate(st, left, right);
  }

  /** Two gate steps in a row compose into one. */
  lemma GrewTwice(st: CircuitState, st1: CircuitState, st2: CircuitState, o1: WireId, o2: WireId, c1: nat, c2: nat)
    requires WellFormed(st) && GateGrew(st, st1, o1, c1) && GateGrew(st1, st2, o2, c2)
    ensures GateGrew(st, st2, o2, c1 + c2)
  {
    GrowsTrans(st, st1, st2);
  }

  /** One more gate step after any growth. */
  lemma GrewStep(st: CircuitState, st1: CircuitState, st2: CircuitState, out: WireId, c1: nat, c2: nat)
    requires WellFormed(st) && Grew(st, st1, c1) && GateGrew(st1, st2, out, c2)
    ensures Grew(st, st2, c1 + c2) && st1.nextWireId <= out < st2.nextWireId
  {
    GrowsTrans(st, st1, st2);
  }

  /** Whatever its input holds, a unary gate keeps the invariant, grows the circuit and returns a fresh wire. */
  lemma ApplyUnaryGrows(st: CircuitState, op: UnaryOp, x: WireId)
    requires WellFormed(st) && x < st.nextWireId
    ensures GateGrew(st, ApplyUnary(st, op, x).0, ApplyUnary(st, op, x).1, 1)
  {
    match op
    case Not => SubCircuitGrew(st, [Term(One, UnityWire)], [Term(One, UnityWire), Term(Neg(One), x)]);
    case BitCheck => SubCircuitGrew(st, [Term(One, x)], [Term(One, x), Term(Neg(One), UnityWire)]);
  }

  // ---------------------------------------------------------------- fan_in

  /** gate(...gate(gate(acc, rest[0]), rest[1])..., rest[n-1]), each gate added in turn. */
  function FoldGate(st: CircuitState, op: BinaryOp, acc: WireId, rest: seq<WireId>): (CircuitState, WireId)
    decreases |rest|
  {
    if rest == [] then (st, acc)
    else
      var n := |rest| - 1;
      var (st1, w) := FoldGate(st, op, acc, rest[..n]);
      ApplyGate(st1, op, w, rest[n])
  }

  /** Folding over one more input applies the gate once more to the result so far. */
  lemma FoldGateSnoc(st: CircuitState, op: BinaryOp, acc: WireId, rest: seq<WireId>, i: nat, st1: CircuitState, w: WireId)
    requires i < |rest| && FoldGate(st, op, acc, rest[..i]) == (st1, w)
    ensures FoldGate(st, op, acc, rest[..i + 1]) == ApplyGate(st1, op, w, rest[i])
  {
    assert rest[..i + 1][..i] == rest[..i];
  }

  /** `fan_in`: fails with fewer than two inputs, otherwise folds the gate from inputs[0]. */
  function FanIn(st: CircuitState, inputs: seq<WireId>, op: BinaryOp): (CircuitState, Option<WireId>) {
    if |inputs| < 2 then (st, None)
    else
      var (st', w) := FoldGate(st, op, inputs[0], inputs[1..]);
      (st', Some(w))
  }

  function FoldBool(op: BinaryOp, acc: bool, bs: seq<bool>): bool
    decreases |bs|
  {
    if bs == [] then acc
    else BoolOp(op, FoldBool(op, acc, bs[..|bs| - 1]), bs[|bs| - 1])
  }

  /** Every wire is allocated and evaluates to the matching bit. */
  ghost predicate HoldBits(st: CircuitState, ws: seq<WireId>, bs: seq<bool>)
    requires Acyclic(st)
  {
    |ws| == |bs| && forall i | 0 <= i < |ws| :: ws[i] < st.nextWireId && Eval(st, ws[i]) == Ok(BoolFe(bs[i]))
  }

  /** Values of existing wires survive a growth step. */
  lemma HoldBitsGrow(st: CircuitState, st': CircuitState, ws: seq<WireId>, bs: seq<bool>)
    requires WellFormed(st) && WellFormed(st') && Grows(st, st') && HoldBits(st, ws, bs)
    ensures HoldBits(st', ws, bs)
  {
    forall i | 0 <= i < |ws| ensures ws[i] < st'.nextWireId && Eval(st', ws[i]) == Ok(BoolFe(bs[i])) {
    }
  }

  lemma HoldBitsSnoc(st: CircuitState, st': CircuitState, ws: seq<WireId>, bs: seq<bool>, w: WireId, b: bool)
    requires WellFormed(st) && WellFormed(st') && Grows(st, st') && HoldBits(st, ws, bs)
    requires w < st'.nextWireId && Eval(st', w) == Ok(BoolFe(b))
    ensures HoldBits(st', ws + [w], bs + [b])
  {
    HoldBitsGrow(st, st', ws, bs);
  }

  lemma HoldBitsPrefix(st: CircuitState, ws: seq<WireId>, bs: seq<bool>, n: nat)
    requires Acyclic(st) && HoldBits(st, ws, bs) && n <= |ws|
    ensures HoldBits(st, ws[..n], bs[..n])
  {
  }

  /** One step of `FoldGate`, on plain states: the gate applied to the result so far and a bit input. */
  lemma FoldGateStep(st: CircuitState, st1: CircuitState, op: BinaryOp, w1: WireId, y: WireId, v: bool, b: bool, n: nat)
    requires WellFormed(st) && ConstantsBound(st) && WellFormed(st1) && Grows(st, st1)
    requires st1.nextSubCircuitId == st.nextSubCircuitId + n * GateCost(op)
    requires w1 < st1.nextWireId && Eval(st1, w1) == Ok(BoolFe(v))
    requires y < st.nextWireId && Eval(st, y) == Ok(BoolFe(b))
    ensures var r := ApplyGate(st1, op, w1, y);
      && WellFormed(r.0) && Grows(st, r.0) && r.1 < r.0.nextWireId
      && r.0.nextSubCircuitId == st.nextSubCircuitId + (n + 1) * GateCost(op)
      && Eval(r.0, r.1) == Ok(BoolFe(BoolOp(op, v, b)))
  {
    var r := ApplyGate(st1, op, w1, y);
    assert Eval(st1, y) == Eval(st, y);
    ApplyGateBool(st1, op, w1, y, v, b);
    GrowsTrans(st, st1, r.0);
    MulSucc(n, GateCost(op));
  }

  /** What `FoldGateValue` promises for a fold over `rest` starting from bit `a`. */
  ghost predicate FoldGateHolds(st: CircuitState, op: BinaryOp, acc: WireId, a: bool, rest: seq<WireId>, bs: seq<bool>)
    requires WellFormed(st)
  {
    var st' := FoldGate(st, op, acc, rest).0;
    var w := FoldGate(st, op, acc, rest).1;
    && WellFormed(st') && Grows(st, st') && w < st'.nextWireId
    && st'.nextSubCircuitId == st.nextSubCircuitId + |rest| * GateCost(op)
    && Eval(st', w) == Ok(BoolFe(FoldBool(op, a, bs)))
  }

  /** The fold over all of `rest` from the fold over all but its last input. */
  lemma FoldGateExtend(st: CircuitState, op: BinaryOp, acc: WireId, a: bool, rest: seq<WireId>, bs: seq<bool>)
    requires WellFormed(st) && ConstantsBound(st) && HoldBits(st, rest, bs) && rest != []
    requires FoldGateHolds(st, op, acc, a, rest[..|rest| - 1], bs[..|rest| - 1])
    ensures FoldGateHolds(st, op, acc, a, rest, bs)
  {
    var n := |rest| - 1;
    var p := FoldGate(st, op, acc, rest[..n]);
    var v := FoldBool(op, a, bs[..n]);
    assert FoldGate(st, op, acc, rest) == ApplyGate(p.0, op, p.1, rest[n]);
    assert FoldBool(op, a, bs) == BoolOp(op, v, bs[n]);
    FoldGateStep(st, p.0, op, p.1, rest[n], v, bs[n], n);
  }

  lemma {:induction false} FoldGateValue(st: CircuitState, op: BinaryOp, acc: WireId, a: bool, rest: seq<WireId>, bs: seq<bool>)
    requires WellFormed(st) && ConstantsBound(st)
    requires acc < st.nextWireId && Eval(st, acc) == Ok(BoolFe(a)) && HoldBits(st, rest, bs)
    ensures FoldGateHolds(st, op, acc, a, rest, bs)
    decreases |rest|
  {
    if rest != [] {
      var n := |rest| - 1;
      HoldBitsPrefix(st, rest, bs, n);
      FoldGateValue(st, op, acc, a, rest[..n], bs[..n]);
      FoldGateExtend(st, op, acc, a, rest, bs);
    }
  }

  /**
   * Whatever the inputs hold, the fold keeps the invariant, grows the circuit,
   * returns an allocated wire and adds |rest| gate applications.
   */
  lemma {:induction false} FoldGateGrows(st: CircuitState, op: BinaryOp, acc: WireId, rest: seq<WireId>)
    requires WellFormed(st) && acc < st.nextWireId && InRange(rest, 0, st.nextWireId)
    ensures Grew(st, FoldGate(st, op, acc, rest).0, |rest| * GateCost(op))
    ensures FoldGate(st, op, acc, rest).1 < FoldGate(st, op, acc, rest).0.nextWireId
    decreases |rest|
  {
    if rest != [] {
      var n := |rest| - 1;
      var p := FoldGate(st, op, acc, rest[..n]);
      FoldGateGrows(st, op, acc, rest[..n]);
      var q := ApplyGate(p.0, op, p.1, rest[n]);
      assert FoldGate(st, op, acc, rest) == q;
      ApplyGateGrows(p.0, op, p.1, rest[n]);
      GrewStep(st, p.0, q.0, q.1, n * GateCost(op), GateCost(op));
      MulSucc(n, GateCost(op));
    }
  }


  /**
   * `fan_in` fails exactly when given fewer than two inputs, changing nothing;
   * otherwise on bit-valued inputs its result is the left fold of the gate's
   * truth table, built from (n - 1) gate applications.
   */
  lemma FanInValue(st: CircuitState, inputs: seq<WireId>, op: BinaryOp, bs: seq<bool>)
    requires WellFormed(st) && ConstantsBound(st) && HoldBits(st, inputs, bs)
    ensures var (st', r) := FanIn(st, inputs, op);
      && (r.None? <==> |inputs| < 2)
      && (r.None? ==> st' == st)
      && (r.Some? ==>
            && WellFormed(st') && Grows(st, st') && r.value < st'.nextWireId
            && st'.nextSubCircuitId == st.nextSubCircuitId + (|inputs| - 1) * GateCost(op)
            && Eval(st', r.value) == Ok(BoolFe(FoldBool(op, bs[0], bs[1..]))))
  {
    if |inputs| >= 2 {
      FoldGateValue(st, op, inputs[0], bs[0], inputs[1..], bs[1..]);
    }
  }

  function CountTrue(bs: seq<bool>): nat {
    if bs == [] then 0 else (if bs[0] then 1 else 0) + CountTrue(bs[1..])
  }

  lemma {:induction false} CountTrueSnoc(bs: seq<bool>, b: bool)
    ensures CountTrue(bs + [b]) == CountTrue(bs) + (if b then 1 else 0)
    decreases |bs|
  {
    if bs == [] {
      assert ([b])[1..] == [];
    } else {
      assert (bs + [b])[1..] == bs[1..] + [b];
      CountTrueSnoc(bs[1..], b);
    }
  }

  /**
   * What the left fold of each truth table means: AND-fan-in is "all inputs
   * set", OR-fan-in "some input set", XOR-fan-in the parity of the number of
   * inputs set.
   */
  lemma {:induction false} FoldBoolMeaning(acc: bool, bs: seq<bool>)
    ensures FoldBool(And, acc, bs) == (acc && forall i | 0 <= i < |bs| :: bs[i])
    ensures FoldBool(Or, acc, bs) == (acc || exists i | 0 <= i < |bs| :: bs[i])
    ensures FoldBool(Xor, acc, bs) == (acc != (CountTrue(bs) % 2 == 1))
    decreases |bs|
  {
    if bs != [] {
      var n := |bs| - 1;
      FoldBoolMeaning(acc, bs[..n]);
      assert bs == bs[..n] + [bs[n]];
      CountTrueSnoc(bs[..n], bs[n]);
      if !bs[n] && exists i | 0 <= i < |bs| :: bs[i] {
        var i :| 0 <= i < |bs| && bs[i];
        assert bs[..n][i];
      }
    }
  }

  // ---------------------------------------------------------------- bitwise_op

  /** The gate applied to each pair (left[i], right[i]), in index order. */
  function MapGate(st: CircuitState, op: BinaryOp, left: seq<WireId>, right: seq<WireId>): (r: (CircuitState, seq<WireId>))
    requires |left| == |right|
    ensures |r.1| == |left|
    decreases |left|
  {
    if left == [] then (st, [])
    else
      var n := |left| - 1;
      var (st1, ws) := MapGate(st, op, left[..n], right[..n]);
      var (st2, w) := ApplyGate(st1, op, left[n], right[n]);
      (st2, ws + [w])
  }

  /** Mapping over one more pair appends the gate on that pair. */
  lemma MapGateSnoc(st: CircuitState, op: BinaryOp, left: seq<WireId>, right: seq<WireId>, i: nat, st1: CircuitState, ws: seq<WireId>)
    requires |left| == |right| && i < |left| && MapGate(st, op, left[..i], right[..i]) == (st1, ws)
    ensures var (st2, w) := ApplyGate(st1, op, left[i], right[i]);
      MapGate(st, op, left[..i + 1], right[..i + 1]) == (st2, ws + [w])
  {
    assert left[..i + 1][..i] == left[..i];
    assert right[..i + 1][..i] == right[..i];
  }

  /** Every wire of `ws` lies in [lo, hi). */
  predicate InRange(ws: seq<WireId>, lo: nat, hi: nat)
    decreases |ws|
  {
    ws == [] || (InRange(ws[..|ws| - 1], lo, hi) && lo <= ws[|ws| - 1] < hi)
  }

  lemma {:induction false} InRangeAll(ws: seq<WireId>, lo: nat, hi: nat)
    requires InRange(ws, lo, hi)
    ensures forall j | 0 <= j < |ws| :: lo <= ws[j] < hi
    decreases |ws|
  {
    if ws != [] {
      InRangeAll(ws[..|ws| - 1], lo, hi);
    }
  }

  lemma {:induction false} InRangeSnoc(ws: seq<WireId>, w: WireId, lo: nat, mid: nat, hi: nat)
    requires InRange(ws, lo, mid) && lo <= mid <= w < hi
    ensures InRange(ws + [w], lo, hi)
  {
    InRangeWiden(ws, lo, mid, hi);
    assert (ws + [w])[..|ws|] == ws;
  }

  lemma {:induction false} InRangeWiden(ws: seq<WireId>, lo: nat, mid: nat, hi: nat)
    requires InRange(ws, lo, mid) && mid <= hi
    ensures InRange(ws, lo, hi)
    decreases |ws|
  {
    if ws != [] {
      InRangeWiden(ws[..|ws| - 1], lo, mid, hi);
    }
  }

  lemma {:induction false} InRangeFrom(ws: seq<WireId>, lo: nat, hi: nat)
    requires InRange(ws, lo, hi)
    ensures InRange(ws, 0, hi)
    decreases |ws|
  {
    if ws != [] {
      InRangeFrom(ws[..|ws| - 1], lo, hi);
    }
  }

  /** The converse of `InRangeAll`. */
  lemma {:induction false} AllInRange(ws: seq<WireId>, lo: nat, hi: nat)
    requires forall j | 0 <= j < |ws| :: lo <= ws[j] < hi
    ensures InRange(ws, lo, hi)
    decreases |ws|
  {
    if ws != [] {
      AllInRange(ws[..|ws| - 1], lo, hi);
    }
  }

  /** `bitwise_op`: fails on sequences of unequal length, otherwise applies the gate pairwise. */
  function BitwiseOp(st: CircuitState, left: seq<WireId>, right: seq<WireId>, op: BinaryOp): (CircuitState, Option<seq<WireId>>) {
    if |left| != |right| then (st, None)
    else
      var (st', ws) := MapGate(st, op, left, right);
      (st', Some(ws))
  }

  function ZipBool(op: BinaryOp, xs: seq<bool>, bs: seq<bool>): (r: seq<bool>)
    requires |xs| == |bs|
  {
    seq(|xs|, i requires 0 <= i < |xs| => BoolOp(op, xs[i], bs[i]))
  }

  lemma ZipBoolSnoc(op: BinaryOp, xs: seq<bool>, bs: seq<bool>)
    requires |xs| == |bs| > 0
    ensures var n := |xs| - 1; ZipBool(op, xs, bs) == ZipBool(op, xs[..n], bs[..n]) + [BoolOp(op, xs[n], bs[n])]
  {
    var n := |xs| - 1;
    assert forall i | 0 <= i < n :: ZipBool(op, xs[..n], bs[..n])[i] == ZipBool(op, xs, bs)[i];
  }

  /** One step of `MapGate`: the facts for a prefix and for the next gate give those for the whole. */
  lemma MapGateStep(st: CircuitState, st1: CircuitState, st2: CircuitState, op: BinaryOp, ws: seq<WireId>, w: WireId,
                    xs: seq<bool>, bs: seq<bool>, n: nat)
    requires WellFormed(st) && WellFormed(st1) && Grows(st, st1) && |xs| == |bs| == n + 1
    requires st1.nextSubCircuitId == st.nextSubCircuitId + n * GateCost(op)
    requires HoldBits(st1, ws, ZipBool(op, xs[..n], bs[..n]))
    requires GateOnBits(st1, st2, w, GateCost(op), BoolOp(op, xs[n], bs[n]))
    ensures WellFormed(st2) && Grows(st, st2)
    ensures st2.nextSubCircuitId == st.nextSubCircuitId + (n + 1) * GateCost(op)
    ensures HoldBits(st2, ws + [w], ZipBool(op, xs, bs))
  {
    GrowsTrans(st, st1, st2);
    HoldBitsSnoc(st1, st2, ws, ZipBool(op, xs[..n], bs[..n]), w, BoolOp(op, xs[n], bs[n]));
    ZipBoolSnoc(op, xs, bs);
  }

  lemma {:induction false} MapGateValue(st: CircuitState, op: BinaryOp, left: seq<WireId>, right: seq<WireId>, xs: seq<bool>, bs: seq<bool>)
    requires WellFormed(st) && ConstantsBound(st) && |left| == |right|
    requires HoldBits(st, left, xs) && HoldBits(st, right, bs)
    ensures var st' := MapGate(st, op, left, right).0;
      var ws := MapGate(st, op, left, right).1;
      && WellFormed(st') && Grows(st, st')
      && st'.nextSubCircuitId == st.nextSubCircuitId + |left| * GateCost(op)
      && HoldBits(st', ws, ZipBool(op, xs, bs))
    decreases |left|
  {
    if left != [] {
      var n := |left| - 1;
      var st1 := MapGate(st, op, left[..n], right[..n]).0;
      var ws := MapGate(st, op, left[..n], right[..n]).1;
      HoldBitsPrefix(st, left, xs, n);
      HoldBitsPrefix(st, right, bs, n);
      MapGateValue(st, op, left[..n], right[..n], xs[..n], bs[..n]);
      var st2 := ApplyGate(st1, op, left[n], right[n]).0;
      var w := ApplyGate(st1, op, left[n], right[n]).1;
      assert Eval(st1, left[n]) == Eval(st, left[n]);
      assert Eval(st1, right[n]) == Eval(st, right[n]);
      ApplyGateBool(st1, op, left[n], right[n], xs[n], bs[n]);
      MapGateStep(st, st1, st2, op, ws, w, xs, bs, n);
      assert MapGate(st, op, left, right) == (st2, ws + [w]);
    }
  }

  /**
   * Whatever the inputs hold, the pairwise map keeps the invariant, grows the
   * circuit, adds |left| gate applications and returns only fresh wires.
   */
  lemma {:induction false} MapGateGrows(st: CircuitState, op: BinaryOp, left: seq<WireId>, right: seq<WireId>)
    requires WellFormed(st) && |left| == |right| && InRange(left, 0, st.nextWireId) && InRange(right, 0, st.nextWireId)
    ensures Grew(st, MapGate(st, op, left, right).0, |left| * GateCost(op))
    ensures InRange(MapGate(st, op, left, right).1, st.nextWireId, MapGate(st, op, left, right).0.nextWireId)
    decreases |left|
  {
    if left != [] {
      var n := |left| - 1;
      var p := MapGate(st, op, left[..n], right[..n]);
      MapGateGrows(st, op, left[..n], right[..n]);
      var q := ApplyGate(p.0, op, left[n], right[n]);
      assert MapGate(st, op, left, right) == (q.0, p.1 + [q.1]);
      ApplyGateGrows(p.0, op, left[n], right[n]);
      GrewStep(st, p.0, q.0, q.1, n * GateCost(op), GateCost(op));
      MulSucc(n, GateCost(op));
      InRangeSnoc(p.1, q.1, st.nextWireId, p.0.nextWireId, q.0.nextWireId);
    }
  }
  /** The pairwise map returns only fresh wires. */
  lemma MapGateFresh(st: CircuitState, op: BinaryOp, left: seq<WireId>, right: seq<WireId>)
    requires WellFormed(st) && |left| == |right|
    requires forall i | 0 <= i < |left| :: left[i] < st.nextWireId && right[i] < st.nextWireId
    ensures InRange(MapGate(st, op, left, right).1, st.nextWireId, MapGate(st, op, left, right).0.nextWireId)
  {
    AllInRange(left, 0, st.nextWireId);
    AllInRange(right, 0, st.nextWireId);
    MapGateGrows(st, op, left, right);
  }



  /**
   * `bitwise_op` fails exactly on unequal lengths, changing nothing; otherwise
   * it returns one new wire per position holding the gate's truth table of the
   * two input bits there.
   */
  lemma BitwiseOpValue(st: CircuitState, left: seq<WireId>, right: seq<WireId>, op: BinaryOp, xs: seq<bool>, bs: seq<bool>)
    requires WellFormed(st) && ConstantsBound(st) && HoldBits(st, left, xs) && HoldBits(st, right, bs)
    ensures var (st', r) := BitwiseOp(st, left, right, op);
      && (r.None? <==> |left| != |right|)
      && (r.None? ==> st' == st)
      && (r.Some? ==>
            && WellFormed(st') && Grows(st, st') && |r.value| == |left|
            && HoldBits(st', r.value, ZipBool(op, xs, bs)))
  {
    if |left| == |right| {
      MapGateValue(st, op, left, right, xs, bs);
    }
  }

  // ---------------------------------------------------------------- words

  /** The unary gate applied to each wire, in index order. */
  function MapUnary(st: CircuitState, op: UnaryOp, ws: seq<WireId>): (r: (CircuitState, seq<WireId>))
    ensures |r.1| == |ws|
    decreases |ws|
  {
    if ws == [] then (st, [])
    else
      var n := |ws| - 1;
      var (st1, outs) := MapUnary(st, op, ws[..n]);
      var (st2, w) := ApplyUnary(st1, op, ws[n]);
      (st2, outs + [w])
  }

  /** One step of `MapUnary`, on plain states. */
  lemma MapUnaryStep(st: CircuitState, st1: CircuitState, st2: CircuitState, op: UnaryOp,
                     outs: seq<WireId>, w: WireId, bs: seq<bool>, n: nat)
    requires WellFormed(st) && WellFormed(st1) && Grows(st, st1) && |bs| == n + 1
    requires st1.nextSubCircuitId == st.nextSubCircuitId + n
    requires HoldBits(st1, outs, MapBool(op, bs[..n]))
    requires GateOnBits(st1, st2, w, 1, UnaryBool(op, bs[n]))
    ensures WellFormed(st2) && Grows(st, st2)
    ensures st2.nextSubCircuitId == st.nextSubCircuitId + n + 1
    ensures HoldBits(st2, outs + [w], MapBool(op, bs))
  {
    GrowsTrans(st, st1, st2);
    HoldBitsSnoc(st1, st2, outs, MapBool(op, bs[..n]), w, UnaryBool(op, bs[n]));
    assert MapBool(op, bs[..n]) + [UnaryBool(op, bs[n])] == MapBool(op, bs);
  }

  lemma {:induction false} MapUnaryValue(st: CircuitState, op: UnaryOp, ws: seq<WireId>, bs: seq<bool>)
    requires WellFormed(st) && ConstantsBound(st) && HoldBits(st, ws, bs)
    ensures var st' := MapUnary(st, op, ws).0;
      var outs := MapUnary(st, op, ws).1;
      && WellFormed(st') && Grows(st, st')
      && st'.nextSubCircuitId == st.nextSubCircuitId + |ws|
      && HoldBits(st', outs, MapBool(op, bs))
    decreases |ws|
  {
    if ws != [] {
      var n := |ws| - 1;
      var st1 := MapUnary(st, op, ws[..n]).0;
      var outs := MapUnary(st, op, ws[..n]).1;
      HoldBitsPrefix(st, ws, bs, n);
      MapUnaryValue(st, op, ws[..n], bs[..n]);
      assert Eval(st1, ws[n]) == Eval(st, ws[n]);
      ApplyUnaryBool(st1, op, ws[n], bs[n]);
      var r := ApplyUnary(st1, op, ws[n]);
      MapUnaryStep(st, st1, r.0, op, outs, r.1, bs, n);
      assert MapUnary(st, op, ws) == (r.0, outs + [r.1]);
    }
  }

  /**
   * Whatever the inputs hold, mapping a unary gate keeps the invariant, grows
   * the circuit, adds one gate per wire and returns only fresh wires.
   */
  lemma {:induction false} MapUnaryGrows(st: CircuitState, op: UnaryOp, ws: seq<WireId>)
    requires WellFormed(st) && InRange(ws, 0, st.nextWireId)
    ensures Grew(st, MapUnary(st, op, ws).0, |ws|)
    ensures InRange(MapUnary(st, op, ws).1, st.nextWireId, MapUnary(st, op, ws).0.nextWireId)
    decreases |ws|
  {
    if ws != [] {
      var n := |ws| - 1;
      var p := MapUnary(st, op, ws[..n]);
      MapUnaryGrows(st, op, ws[..n]);
      var q := ApplyUnary(p.0, op, ws[n]);
      assert MapUnary(st, op, ws) == (q.0, p.1 + [q.1]);
      ApplyUnaryGrows(p.0, op, ws[n]);
      GrewStep(st, p.0, q.0, q.1, n, 1);
      InRangeSnoc(p.1, q.1, st.nextWireId, p.0.nextWireId, q.0.nextWireId);
    }
  }


  /** Mapping over one more wire appends the gate on that wire. */
  lemma MapUnarySnoc(st: CircuitState, op: UnaryOp, ws: seq<WireId>, i: nat, st1: CircuitState, outs: seq<WireId>)
    requires i < |ws| && MapUnary(st, op, ws[..i]) == (st1, outs)
    ensures var (st2, w) := ApplyUnary(st1, op, ws[i]);
      MapUnary(st, op, ws[..i + 1]) == (st2, outs + [w])
  {
    assert ws[..i + 1][..i] == ws[..i];
  }

  function MapBool(op: UnaryOp, bs: seq<bool>): (r: seq<bool>) {
    seq(|bs|, i requires 0 <= i < |bs| => UnaryBool(op, bs[i]))
  }

  /** `u64_bitwise_op`: the gate on each bit position of two words. */
  function U64BitwiseOp(st: CircuitState, left: Word64, right: Word64, op: BinaryOp): (CircuitState, Word64) {
    MapGate(st, op, left, right)
  }

  /** `u64_unary_op`: the gate on each bit of a word. */
  function U64UnaryOp(st: CircuitState, input: Word64, op: UnaryOp): (CircuitState, Word64) {
    MapUnary(st, op, input)
  }

  /** Folds the word-wise gate over the words after `acc`. */
  function FoldWords(st: CircuitState, op: BinaryOp, acc: Word64, rest: seq<Word64>): (CircuitState, Word64)
    decreases |rest|
  {
    if rest == [] then (st, acc)
    else
      var n := |rest| - 1;
      var (st1, w) := FoldWords(st, op, acc, rest[..n]);
      U64BitwiseOp(st1, w, rest[n], op)
  }

  /** Folding over one more word applies the word-wise gate once more. */
  lemma FoldWordsSnoc(st: CircuitState, op: BinaryOp, acc: Word64, rest: seq<Word64>, i: nat, st1: CircuitState, w: Word64)
    requires i < |rest| && FoldWords(st, op, acc, rest[..i]) == (st1, w)
    ensures FoldWords(st, op, acc, rest[..i + 1]) == U64BitwiseOp(st1, w, rest[i], op)
  {
    assert rest[..i + 1][..i] == rest[..i];
  }

  /** `u64_fan_in`: fails with no input word; one word is returned as it is. */
  function U64FanIn(st: CircuitState, inputs: seq<Word64>, op: BinaryOp): (CircuitState, Option<Word64>) {
    if |inputs| < 1 then (st, None)
    else
      var (st', w) := FoldWords(st, op, inputs[0], inputs[1..]);
      (st', Some(w))
  }

  /** The word-wise left fold of the truth table. */
  function FoldBoolWords(op: BinaryOp, acc: seq<bool>, rest: seq<seq<bool>>): (r: seq<bool>)
    requires forall k | 0 <= k < |rest| :: |rest[k]| == |acc|
    ensures |r| == |acc|
    decreases |rest|
  {
    if rest == [] then acc
    else
      var n := |rest| - 1;
      ZipBool(op, FoldBoolWords(op, acc, rest[..n]), rest[n])
  }

  lemma MulSucc(n: nat, c: nat)
    ensures n * c + c == (n + 1) * c
  {
  }

  /** What `FoldWordsValue` promises for a fold over the words `rest` starting from the bits `a`. */
  ghost predicate FoldWordsHolds(st: CircuitState, op: BinaryOp, acc: Word64, a: seq<bool>, rest: seq<Word64>, bss: seq<seq<bool>>)
    requires WellFormed(st)
  {
    && (forall k | 0 <= k < |bss| :: |bss[k]| == |a|)
    && var st' := FoldWords(st, op, acc, rest).0;
       var w := FoldWords(st, op, acc, rest).1;
       && WellFormed(st') && Grows(st, st')
       && HoldBits(st', w, FoldBoolWords(op, a, bss))
  }

  /** The fold over all of `rest` from the fold over all but its last word. */
  lemma FoldWordsExtend(st: CircuitState, op: BinaryOp, acc: Word64, a: seq<bool>, rest: seq<Word64>, bss: seq<seq<bool>>)
    requires WellFormed(st) && ConstantsBound(st) && HoldBits(st, acc, a) && |bss| == |rest| && rest != []
    requires forall k | 0 <= k < |rest| :: HoldBits(st, rest[k], bss[k])
    requires FoldWordsHolds(st, op, acc, a, rest[..|rest| - 1], bss[..|rest| - 1])
    ensures FoldWordsHolds(st, op, acc, a, rest, bss)
  {
    var n := |rest| - 1;
    forall k | 0 <= k < |bss| ensures |bss[k]| == |a| {
      assert HoldBits(st, rest[k], bss[k]);
    }
    var p := FoldWords(st, op, acc, rest[..n]);
    var v := FoldBoolWords(op, a, bss[..n]);
    assert HoldBits(st, rest[n], bss[n]);
    HoldBitsGrow(st, p.0, rest[n], bss[n]);
    assert FoldWords(st, op, acc, rest) == MapGate(p.0, op, p.1, rest[n]);
    assert FoldBoolWords(op, a, bss) == ZipBool(op, v, bss[n]);
    MapGateValue(p.0, op, p.1, rest[n], v, bss[n]);
    GrowsTrans(st, p.0, MapGate(p.0, op, p.1, rest[n]).0);
  }

  lemma {:induction false} FoldWordsValue(st: CircuitState, op: BinaryOp, acc: Word64, a: seq<bool>, rest: seq<Word64>, bss: seq<seq<bool>>)
    requires WellFormed(st) && ConstantsBound(st)
    requires HoldBits(st, acc, a) && |bss| == |rest|
    requires forall k | 0 <= k < |rest| :: HoldBits(st, rest[k], bss[k])
    ensures FoldWordsHolds(st, op, acc, a, rest, bss)
    decreases |rest|
  {
    if rest != [] {
      var n := |rest| - 1;
      assert forall k | 0 <= k < n :: rest[..n][k] == rest[k] && bss[..n][k] == bss[k];
      FoldWordsValue(st, op, acc, a, rest[..n], bss[..n]);
      FoldWordsExtend(st, op, acc, a, rest, bss);
    }
  }

  /** Every wire of every word in `words` is below `hi`. */
  predicate WordsBelow(words: seq<Word64>, hi: nat) decreases |words|
  {
    words == [] || (WordsBelow(words[..|words| - 1], hi) && InRange(words[|words| - 1], 0, hi))
  }

  /**
   * Whatever the words hold, the word fold keeps the invariant, grows the
   * circuit, adds 64 gate applications per word after the first and returns
   * an allocated word.
   */
  lemma {:induction false} FoldWordsGrows(st: CircuitState, op: BinaryOp, acc: Word64, rest: seq<Word64>)
    requires WellFormed(st) && InRange(acc, 0, st.nextWireId) && WordsBelow(rest, st.nextWireId)
    ensures Grew(st, FoldWords(st, op, acc, rest).0, |rest| * (64 * GateCost(op)))
    ensures InRange(FoldWords(st, op, acc, rest).1, 0, FoldWords(st, op, acc, rest).0.nextWireId)
    decreases |rest|
  {
    if rest != [] {
      var n := |rest| - 1;
      var p := FoldWords(st, op, acc, rest[..n]);
      FoldWordsGrows(st, op, acc, rest[..n]);
      InRangeWiden(rest[n], 0, st.nextWireId, p.0.nextWireId);
      var q := MapGate(p.0, op, p.1, rest[n]);
      assert FoldWords(st, op, acc, rest) == q;
      MapGateGrows(p.0, op, p.1, rest[n]);
      GrowsTrans(st, p.0, q.0);
      MulSucc(n, 64 * GateCost(op));
      InRangeFrom(q.1, p.0.nextWireId, q.0.nextWireId);
    }
  }


  /**
   * `u64_fan_in` fails exactly when given no word, changing nothing; otherwise,
   * on bit-valued words, bit i of the result is the left fold of the gate's
   * truth table over bit i of every input word.
   */
  lemma U64FanInValue(st: CircuitState, inputs: seq<Word64>, op: BinaryOp, bss: seq<seq<bool>>)
    requires WellFormed(st) && ConstantsBound(st) && |bss| == |inputs|
    requires forall k | 0 <= k < |inputs| :: HoldBits(st, inputs[k], bss[k])
    ensures var (st', r) := U64FanIn(st, inputs, op);
      && (r.None? <==> |inputs| == 0)
      && (r.None? ==> st' == st)
      && (r.Some? ==>
            && (forall k | 0 <= k < |bss| :: |bss[k]| == 64)
            && WellFormed(st') && Grows(st, st')
            && HoldBits(st', r.value, FoldBoolWords(op, bss[0], bss[1..])))
  {
    if |inputs| >= 1 {
      assert HoldBits(st, inputs[0], bss[0]);
      FoldWordsValue(st, op, inputs[0], bss[0], inputs[1..], bss[1..]);
    }
  }

  // ---------------------------------------------------------------- new_word64

  /** Allocates `n` wires in turn. */
  function NewWires(st: CircuitState, n: nat): (r: (CircuitState, seq<WireId>))
    ensures |r.1| == n
  {
    if n == 0 then (st, [])
    else
      var (st1, ws) := NewWires(st, n - 1);
      var (st2, w) := NewWire(st1);
      (st2, ws + [w])
  }

  /** `new_word64`: 64 fresh wires. */
  function NewWord64(st: CircuitState): (CircuitState, Word64) {
    NewWires(st, 64)
  }

  /**
   * `st'` is `st` with the `n` wires from `st.nextWireId` on registered with
   * no value, and nothing else changed.
   */
  ghost predicate WiresAdded(st: CircuitState, st': CircuitState, n: nat) {
    && st'.nextWireId == st.nextWireId + n
    && st'.nextSubCircuitId == st.nextSubCircuitId
    && st'.wireAssignments == st.wireAssignments
    && st'.subCircuitWires == st.subCircuitWires
    && (forall w | st.nextWireId <= w < st.nextWireId + n :: w in st'.wireValues && st'.wireValues[w] == None)
    && (forall w | w in st.wireValues && !(st.nextWireId <= w < st.nextWireId + n) ::
          w in st'.wireValues && st'.wireValues[w] == st.wireValues[w])
  }

  /** One step of `NewWires`: one more wire on top of the `n` allocated so far. */
  lemma NewWiresStep(st: CircuitState, st1: CircuitState, ws: seq<WireId>, n: nat)
    requires WellFormed(st) && WellFormed(st1) && Grows(st, st1) && WiresAdded(st, st1, n)
    requires ws == seq(n, i => st.nextWireId + i)
    ensures var r := NewWire(st1);
      && WellFormed(r.0) && Grows(st, r.0) && WiresAdded(st, r.0, n + 1)
      && ws + [r.1] == seq(n + 1, i => st.nextWireId + i)
  {
    NewWireEval(st1);
    var r := NewWire(st1);
    assert Grows(st1, r.0);
    GrowsTrans(st, st1, r.0);
  }

  /**
   * Allocating n wires returns the next n ids in order, registers each with no
   * value, adds no gate and no connection, and leaves every existing wire's
   * value unchanged.
   */
  lemma {:induction false} NewWiresFresh(st: CircuitState, n: nat)
    requires WellFormed(st)
    ensures var st' := NewWires(st, n).0;
      && WellFormed(st') && Grows(st, st') && WiresAdded(st, st', n)
      && NewWires(st, n).1 == seq(n, i => st.nextWireId + i)
  {
    if n > 0 {
      var st1 := NewWires(st, n - 1).0;
      var ws := NewWires(st, n - 1).1;
      NewWiresFresh(st, n - 1);
      NewWiresStep(st, st1, ws, n - 1);
      assert NewWires(st, n) == (NewWire(st1).0, ws + [NewWire(st1).1]);
    }
  }
}
