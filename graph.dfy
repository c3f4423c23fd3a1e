/**
 * The constraint graph store of a circuit, as a value: the two id counters, the
 * wire -> connections table, the sub-circuit table and the wire -> cached value
 * table, with the two operations that grow them (allocating a wire, adding a
 * rank-1 gate) written as pure transitions.
 */
module Graph {
  import opened Wrappers
  import opened Field

  type WireId = nat
  type SubCircuitId = nat

  /** Wire 0 is bound to the field's zero, wire 1 to its one. */
  const ZeroWire: WireId := 0
  const UnityWire: WireId := 1

  /** One summand `weight * value(wire)` of a linear combination. */
  datatype Term = Term(weight: Fe, wire: WireId)

  datatype Side = LeftSide | RightSide

  /** A role a wire plays in a sub-circuit. */
  datatype Connection =
    | Left(weight: Fe, sc: SubCircuitId)
    | Right(weight: Fe, sc: SubCircuitId)
    | Output(sc: SubCircuitId)

  /** One rank-1 gate: output = (sum of left terms) * (sum of right terms). */
  datatype SubCircuit = SubCircuit(leftInputs: seq<Term>, rightInputs: seq<Term>, output: WireId)

  datatype CircuitState = CircuitState(
    nextWireId: WireId,
    nextSubCircuitId: SubCircuitId,
    wireAssignments: map<WireId, seq<Connection>>,
    subCircuitWires: map<SubCircuitId, SubCircuit>,
    wireValues: map<WireId, Option<Fe>>)

  /** The state of a fresh circuit: only the two constant wires, bound to zero and one. */
  function Init(): CircuitState {
    CircuitState(2, 0, map[], map[], map[ZeroWire := Some(Zero), UnityWire := Some(One)])
  }

  /** The connection list of a wire; a wire without an entry has none. */
  function Conns(assign: map<WireId, seq<Connection>>, w: WireId): seq<Connection> {
    if w in assign then assign[w] else []
  }

  /** Allocates the next wire id and registers it with no cached value. */
  function NewWire(st: CircuitState): (CircuitState, WireId) {
    (st.(nextWireId := st.nextWireId + 1, wireValues := st.wireValues[st.nextWireId := None]),
     st.nextWireId)
  }

  /** Creates the wire's connection list, or appends to the existing one. */
  function InsertConnection(assign: map<WireId, seq<Connection>>, w: WireId, c: Connection): map<WireId, seq<Connection>> {
    if w !in assign then assign[w := [c]] else assign[w := assign[w] + [c]]
  }

  function Connect(side: Side, weight: Fe, s: SubCircuitId): Connection {
    match side
    case LeftSide => Left(weight, s)
    case RightSide => Right(weight, s)
  }

  /** Inserts one connection per term, in the order of the terms. */
  function AddConnections(assign: map<WireId, seq<Connection>>, terms: seq<Term>, side: Side, s: SubCircuitId): map<WireId, seq<Connection>>
    decreases |terms|
  {
    if terms == [] then assign
    else
      var n := |terms| - 1;
      InsertConnection(AddConnections(assign, terms[..n], side, s), terms[n].wire, Connect(side, terms[n].weight, s))
  }

  /**
   * Adds the gate (left terms) * (right terms): takes the next sub-circuit id,
   * allocates its output wire, records a Left / Right connection on every input
   * wire, the Output connection on the output wire, and the gate itself.
   */
  function NewSubCircuit(st: CircuitState, left: seq<Term>, right: seq<Term>): (CircuitState, WireId) {
    var s := st.nextSubCircuitId;
    var (st1, out) := NewWire(st.(nextSubCircuitId := s + 1));
    var assign := AddConnections(AddConnections(st1.wireAssignments, left, LeftSide, s), right, RightSide, s);
    (st1.(wireAssignments := InsertConnection(assign, out, Output(s)),
          subCircuitWires := st1.subCircuitWires[s := SubCircuit(left, right, out)]),
     out)
  }

  /** The connections, in order, that adding `terms` on `side` of gate `s` gives wire `w`. */
  function ConnsFor(terms: seq<Term>, w: WireId, side: Side, s: SubCircuitId): seq<Connection>
    decreases |terms|
  {
    if terms == [] then []
    else
      var n := |terms| - 1;
      ConnsFor(terms[..n], w, side, s) + (if terms[n].wire == w then [Connect(side, terms[n].weight, s)] else [])
  }

  /** The wires a term list reads. */
  function WiresOf(terms: seq<Term>): set<WireId> {
    set i | 0 <= i < |terms| :: terms[i].wire
  }

  predicate InputsBelow(terms: seq<Term>, bound: WireId) {
    forall i | 0 <= i < |terms| :: terms[i].wire < bound
  }

  /**
   * What evaluation relies on: every gate reads only wires smaller than its
   * output, and an Output connection on a wire names a gate whose output is
   * that wire.
   */
  ghost predicate GraphAcyclic(assign: map<WireId, seq<Connection>>, subs: map<SubCircuitId, SubCircuit>) {
    (forall s | s in subs :: InputsBelow(subs[s].leftInputs, subs[s].output) && InputsBelow(subs[s].rightInputs, subs[s].output))
    && (forall w, i | w in assign && 0 <= i < |assign[w]| && assign[w][i].Output? ::
          assign[w][i].sc in subs && subs[assign[w][i].sc].output == w)
  }

  ghost predicate Acyclic(st: CircuitState) {
    GraphAcyclic(st.wireAssignments, st.subCircuitWires)
  }

  /** Gate `s` is recorded as the first connection of its output wire. */
  ghost predicate OutputRecorded(st: CircuitState, s: SubCircuitId)
    requires s in st.subCircuitWires
  {
    var out := st.subCircuitWires[s].output;
    out < st.nextWireId && out in st.wireAssignments
    && |st.wireAssignments[out]| > 0 && st.wireAssignments[out][0] == Output(s)
  }

  /** Every connection of `w` names a stored gate, and only the first may be an Output. */
  ghost predicate ConnectionsKnown(st: CircuitState, w: WireId)
    requires w in st.wireAssignments
  {
    forall i | 0 <= i < |st.wireAssignments[w]| ::
      st.wireAssignments[w][i].sc in st.subCircuitWires
      && (st.wireAssignments[w][i].Output? ==> i == 0)
  }

  /** The invariant every circuit built through the builder's operations keeps. */
  ghost predicate WellFormed(st: CircuitState) {
    Acyclic(st)
    && 2 <= st.nextWireId
    && (forall w: WireId | w < st.nextWireId :: w in st.wireValues)
    && (forall s: SubCircuitId :: s in st.subCircuitWires <==> s < st.nextSubCircuitId)
    && (forall s | s in st.subCircuitWires :: OutputRecorded(st, s))
    && (forall w | w in st.wireAssignments :: w < st.nextWireId && ConnectionsKnown(st, w))
  }

  /** Wires 0 and 1 hold zero and one. */
  ghost predicate ConstantsBound(st: CircuitState) {
    ZeroWire in st.wireValues && st.wireValues[ZeroWire] == Some(Zero)
    && UnityWire in st.wireValues && st.wireValues[UnityWire] == Some(One)
  }

  /** A fresh circuit is well formed and has its constants bound. */
  lemma InitWellFormed()
    ensures WellFormed(Init()) && ConstantsBound(Init())
    ensures Init().nextWireId == 2 && Init().nextSubCircuitId == 0
  {
  }

  /** Inserting a connection appends it to that wire's list and to no other. */
  lemma InsertConnectionAt(assign: map<WireId, seq<Connection>>, w: WireId, c: Connection, v: WireId)
    ensures Conns(InsertConnection(assign, w, c), v) == if v == w then Conns(assign, v) + [c] else Conns(assign, v)
    ensures InsertConnection(assign, w, c).Keys == assign.Keys + {w}
  {
  }

  /**
   * Adding the connections of a term list appends to each wire exactly the
   * connections of the terms on that wire, in term order.
   */
  lemma {:induction false} AddConnectionsAt(assign: map<WireId, seq<Connection>>, terms: seq<Term>, side: Side, s: SubCircuitId, v: WireId)
    ensures Conns(AddConnections(assign, terms, side, s), v) == Conns(assign, v) + ConnsFor(terms, v, side, s)
    decreases |terms|
  {
    if terms != [] {
      var n := |terms| - 1;
      AddConnectionsAt(assign, terms[..n], side, s, v);
      InsertConnectionAt(AddConnections(assign, terms[..n], side, s), terms[n].wire, Connect(side, terms[n].weight, s), v);
    }
  }

  /** ... and creates entries only for the terms' wires. */
  lemma {:induction false} AddConnectionsKeys(assign: map<WireId, seq<Connection>>, terms: seq<Term>, side: Side, s: SubCircuitId)
    ensures AddConnections(assign, terms, side, s).Keys == assign.Keys + WiresOf(terms)
    decreases |terms|
  {
    if terms != [] {
      var n := |terms| - 1;
      AddConnectionsKeys(assign, terms[..n], side, s);
      InsertConnectionAt(AddConnections(assign, terms[..n], side, s), terms[n].wire, Connect(side, terms[n].weight, s), 0);
      assert WiresOf(terms) == WiresOf(terms[..n]) + {terms[n].wire} by {
        forall x | x in WiresOf(terms) ensures x in WiresOf(terms[..n]) + {terms[n].wire} {
          var i :| 0 <= i < |terms| && terms[i].wire == x;
          if i < n {
            assert terms[..n][i].wire == x;
          }
        }
        forall x | x in WiresOf(terms[..n]) ensures x in WiresOf(terms) {
          var i :| 0 <= i < n && terms[..n][i].wire == x;
          assert terms[i].wire == x;
        }
      }
    }
  }

  /** Only Left and Right connections come from term lists. */
  lemma {:induction false} ConnsForNoOutput(terms: seq<Term>, w: WireId, side: Side, s: SubCircuitId)
    ensures forall i | 0 <= i < |ConnsFor(terms, w, side, s)| ::
      !ConnsFor(terms, w, side, s)[i].Output? && ConnsFor(terms, w, side, s)[i].sc == s
    decreases |terms|
  {
    if terms != [] {
      ConnsForNoOutput(terms[..|terms| - 1], w, side, s);
    }
  }

  /**
   * How adding gate (left, right) changes a state: the gate gets the next id,
   * its output wire is the next wire and has exactly the Output connection,
   * every other wire gains the Left then Right connections of its terms, only
   * the terms' wires and the output gain entries, and the output is registered
   * with no value.
   */
  ghost predicate GateAdded(st: CircuitState, st': CircuitState, left: seq<Term>, right: seq<Term>) {
    var s := st.nextSubCircuitId;
    var out := st.nextWireId;
    && st'.nextWireId == out + 1
    && st'.nextSubCircuitId == s + 1
    && st'.subCircuitWires == st.subCircuitWires[s := SubCircuit(left, right, out)]
    && Conns(st'.wireAssignments, out) == [Output(s)]
    && (forall v | v != out :: Conns(st'.wireAssignments, v)
          == Conns(st.wireAssignments, v) + ConnsFor(left, v, LeftSide, s) + ConnsFor(right, v, RightSide, s))
    && st'.wireAssignments.Keys == st.wireAssignments.Keys + WiresOf(left) + WiresOf(right) + {out}
    && st'.wireValues == st.wireValues[out := None]
  }

  /** `new_sub_circuit` returns the next wire id and changes the state as `GateAdded` says. */
  lemma NewSubCircuitShape(st: CircuitState, left: seq<Term>, right: seq<Term>)
    requires WellFormed(st) && InputsBelow(left, st.nextWireId) && InputsBelow(right, st.nextWireId)
    ensures NewSubCircuit(st, left, right).1 == st.nextWireId
    ensures GateAdded(st, NewSubCircuit(st, left, right).0, left, right)
  {
    var s := st.nextSubCircuitId;
    var out := st.nextWireId;
    var a1 := AddConnections(st.wireAssignments, left, LeftSide, s);
    var a2 := AddConnections(a1, right, RightSide, s);
    forall v
      ensures Conns(a2, v) == Conns(st.wireAssignments, v) + ConnsFor(left, v, LeftSide, s) + ConnsFor(right, v, RightSide, s)
    {
      AddConnectionsAt(st.wireAssignments, left, LeftSide, s, v);
      AddConnectionsAt(a1, right, RightSide, s, v);
    }
    AddConnectionsKeys(st.wireAssignments, left, LeftSide, s);
    AddConnectionsKeys(a1, right, RightSide, s);
    assert out !in st.wireAssignments;
    assert out !in WiresOf(left) && out !in WiresOf(right);
    ConnsForAbsent(left, out, LeftSide, s);
    ConnsForAbsent(right, out, RightSide, s);
    forall v ensures Conns(InsertConnection(a2, out, Output(s)), v) == if v == out then Conns(a2, v) + [Output(s)] else Conns(a2, v) {
      InsertConnectionAt(a2, out, Output(s), v);
    }
    InsertConnectionAt(a2, out, Output(s), out);
  }

  /** A wire that no term reads gains no connection. */
  lemma {:induction false} ConnsForAbsent(terms: seq<Term>, w: WireId, side: Side, s: SubCircuitId)
    requires w !in WiresOf(terms)
    ensures ConnsFor(terms, w, side, s) == []
    decreases |terms|
  {
    if terms != [] {
      var n := |terms| - 1;
      assert terms[n].wire in WiresOf(terms);
      assert WiresOf(terms[..n]) <= WiresOf(terms) by {
        forall x | x in WiresOf(terms[..n]) ensures x in WiresOf(terms) {
          var i :| 0 <= i < n && terms[..n][i].wire == x;
          assert terms[i].wire == x;
        }
      }
      ConnsForAbsent(terms[..n], w, side, s);
    }
  }

  /** Allocating a wire keeps the invariant and binds nothing but the new wire. */
  lemma NewWireWellFormed(st: CircuitState)
    requires WellFormed(st)
    ensures var (st', w) := NewWire(st);
      && WellFormed(st')
      && w == st.nextWireId && st'.nextWireId == w + 1
      && w !in st.wireAssignments && w != ZeroWire && w != UnityWire
      && (forall s | s in st.subCircuitWires :: st.subCircuitWires[s].output != w)
      && st'.wireValues == st.wireValues[w := None]
      && (ConstantsBound(st) ==> ConstantsBound(st'))
  {
    var (st', w) := NewWire(st);
    forall s | s in st.subCircuitWires ensures st.subCircuitWires[s].output != w {
      assert OutputRecorded(st, s);
    }
    assert Acyclic(st');
    forall s | s in st'.subCircuitWires ensures OutputRecorded(st', s) {
      assert OutputRecorded(st, s);
    }
    forall v | v in st'.wireAssignments ensures v < st'.nextWireId && ConnectionsKnown(st', v) {
      assert ConnectionsKnown(st, v);
    }
  }

  /** Connections appended by a gate are Left or Right connections naming it. */
  lemma GateConnections(c: seq<Connection>, left: seq<Term>, right: seq<Term>, v: WireId, s: SubCircuitId)
    ensures var d := ConnsFor(left, v, LeftSide, s) + ConnsFor(right, v, RightSide, s);
      && c + ConnsFor(left, v, LeftSide, s) + ConnsFor(right, v, RightSide, s) == c + d
      && (forall i | 0 <= i < |c| :: (c + d)[i] == c[i])
      && (forall i | |c| <= i < |c + d| :: !(c + d)[i].Output? && (c + d)[i].sc == s)
  {
    var l := ConnsFor(left, v, LeftSide, s);
    var r := ConnsFor(right, v, RightSide, s);
    ConnsForNoOutput(left, v, LeftSide, s);
    ConnsForNoOutput(right, v, RightSide, s);
    assert c + l + r == c + (l + r);
    forall i | |c| <= i < |c + (l + r)| ensures !(c + (l + r))[i].Output? && (c + (l + r))[i].sc == s {
      var j := i - |c|;
      assert (c + (l + r))[i] == (l + r)[j];
      if j >= |l| {
        assert (l + r)[j] == r[j - |l|];
      }
    }
  }

  /** After adding a gate every wire with connections is allocated and names only stored gates. */
  lemma GateAddedConnectionsKnown(st: CircuitState, st': CircuitState, left: seq<Term>, right: seq<Term>)
    requires WellFormed(st) && InputsBelow(left, st.nextWireId) && InputsBelow(right, st.nextWireId)
    requires GateAdded(st, st', left, right)
    ensures forall v | v in st'.wireAssignments :: v < st'.nextWireId && ConnectionsKnown(st', v)
  {
    var s := st.nextSubCircuitId;
    var out := st.nextWireId;
    forall v | v in st'.wireAssignments
      ensures v < st'.nextWireId && ConnectionsKnown(st', v)
    {
      assert v in st.wireAssignments || v in WiresOf(left) || v in WiresOf(right) || v == out;
      if v != out {
        var c := Conns(st.wireAssignments, v);
        GateConnections(c, left, right, v, s);
        assert c != [] ==> v in st.wireAssignments && ConnectionsKnown(st, v);
      } else {
        assert st'.wireAssignments[v] == [Output(s)];
      }
    }
  }

  /** After adding a gate every Output connection still names the gate of that wire. */
  lemma GateAddedAcyclic(st: CircuitState, st': CircuitState, left: seq<Term>, right: seq<Term>)
    requires WellFormed(st) && InputsBelow(left, st.nextWireId) && InputsBelow(right, st.nextWireId)
    requires GateAdded(st, st', left, right)
    ensures Acyclic(st')
  {
    var s := st.nextSubCircuitId;
    var out := st.nextWireId;
    forall v, i | v in st'.wireAssignments && 0 <= i < |st'.wireAssignments[v]| && st'.wireAssignments[v][i].Output?
      ensures st'.wireAssignments[v][i].sc in st'.subCircuitWires && st'.subCircuitWires[st'.wireAssignments[v][i].sc].output == v
    {
      if v != out {
        var c := Conns(st.wireAssignments, v);
        GateConnections(c, left, right, v, s);
        assert i < |c|;
        assert st'.wireAssignments[v][i] == st.wireAssignments[v][i];
        assert st.subCircuitWires[st.wireAssignments[v][i].sc].output == v;
      } else {
        assert st'.wireAssignments[v] == [Output(s)];
      }
    }
    forall t | t in st'.subCircuitWires
      ensures InputsBelow(st'.subCircuitWires[t].leftInputs, st'.subCircuitWires[t].output)
      ensures InputsBelow(st'.subCircuitWires[t].rightInputs, st'.subCircuitWires[t].output)
    {
    }
  }

  /** After adding a gate every gate is still the first connection of its output wire. */
  lemma GateAddedOutputsRecorded(st: CircuitState, st': CircuitState, left: seq<Term>, right: seq<Term>)
    requires WellFormed(st) && GateAdded(st, st', left, right)
    ensures forall t | t in st'.subCircuitWires :: OutputRecorded(st', t)
  {
    var s := st.nextSubCircuitId;
    var out := st.nextWireId;
    forall t | t in st'.subCircuitWires
      ensures OutputRecorded(st', t)
    {
      if t != s {
        assert OutputRecorded(st, t);
        var o := st.subCircuitWires[t].output;
        assert o in st'.wireAssignments;
        assert Conns(st'.wireAssignments, o)[0] == Conns(st.wireAssignments, o)[0];
      } else {
        assert st'.wireAssignments[out] == [Output(s)];
      }
    }
  }

  /** Adding a gate whose inputs are allocated wires keeps the invariant and the constants. */
  lemma GateAddedWellFormed(st: CircuitState, st': CircuitState, left: seq<Term>, right: seq<Term>)
    requires WellFormed(st) && InputsBelow(left, st.nextWireId) && InputsBelow(right, st.nextWireId)
    requires GateAdded(st, st', left, right)
    ensures WellFormed(st')
    ensures ConstantsBound(st) ==> ConstantsBound(st')
  {
    GateAddedConnectionsKnown(st, st', left, right);
    GateAddedAcyclic(st, st', left, right);
    GateAddedOutputsRecorded(st, st', left, right);
  }

  lemma NewSubCircuitWellFormed(st: CircuitState, left: seq<Term>, right: seq<Term>)
    requires WellFormed(st) && InputsBelow(left, st.nextWireId) && InputsBelow(right, st.nextWireId)
    ensures WellFormed(NewSubCircuit(st, left, right).0)
    ensures ConstantsBound(st) ==> ConstantsBound(NewSubCircuit(st, left, right).0)
  {
    NewSubCircuitShape(st, left, right);
    GateAddedWellFormed(st, NewSubCircuit(st, left, right).0, left, right);
  }
}
