/**
 * Binary encodings used by the word helpers: the least-significant-bit-first
 * expansion of a number, the value table `set_word64` leaves, the constant
 * wires `wires_from_literal` spells a literal with, and `rotate_wires`.
 */
module Bits {
  import opened Wrappers
  import opened Field
  import opened Graph
  import opened Semantics
  import opened Gates
  import opened Combinators

  type U64 = x: nat | x < 0x1_0000_0000_0000_0000
  type U128 = x: nat | x < 0x1_0000_0000_0000_0000_0000_0000_0000_0000

  function Pow2(k: nat): (r: nat)
    ensures r > 0
  {
    if k == 0 then 1 else 2 * Pow2(k - 1)
  }

  /** The value of a bit string, least significant bit first. */
  function Recompose(bits: seq<bool>): nat {
    if bits == [] then 0 else (if bits[0] then 1 else 0) + 2 * Recompose(bits[1..])
  }

  /** The low `k` bits of `n`, least significant first, as `n % 2` then `n >> 1` produce them. */
  function BitsOf(n: nat, k: nat): (r: seq<bool>)
    ensures |r| == k
  {
    if k == 0 then [] else [n % 2 == 1] + BitsOf(n / 2, k - 1)
  }

  lemma ModUnique(n: nat, d: nat, a: nat, m: nat)
    requires 0 <= m < d && n == d * a + m
    ensures n % d == m && n / d == a
  {
    var q := n / d;
    var r := n % d;
    assert n == d * q + r;
    if q < a {
      assert d * a == d * q + d * (a - q);
      MulAtLeast(d, a - q);
    } else if a < q {
      assert d * q == d * a + d * (q - a);
      MulAtLeast(d, q - a);
    }
  }

  lemma MulAtLeast(d: nat, k: nat)
    requires k > 0
    ensures d * k >= d
  {
    assert d * k == d + d * (k - 1);
  }

  lemma ModDouble(n: nat, p: nat)
    requires p > 0
    ensures n % (2 * p) == n % 2 + 2 * ((n / 2) % p)
  {
    var q := n / 2;
    var a := q / p;
    var b := q % p;
    assert n == 2 * q + n % 2;
    assert q == p * a + b;
    assert n == (2 * p) * a + (n % 2 + 2 * b);
    ModUnique(n, 2 * p, a, n % 2 + 2 * b);
  }

  /** Reading back the low k bits gives n modulo 2^k. */
  lemma {:induction false} RecomposeBitsOf(n: nat, k: nat)
    ensures Recompose(BitsOf(n, k)) == n % Pow2(k)
  {
    if k > 0 {
      RecomposeBitsOf(n / 2, k - 1);
      assert BitsOf(n, k)[1..] == BitsOf(n / 2, k - 1);
      ModDouble(n, Pow2(k - 1));
    }
  }

  /** A 64-bit value is its own low 64 bits. */
  lemma RecomposeU64(n: U64)
    ensures Recompose(BitsOf(n, 64)) == n
  {
    RecomposeBitsOf(n, 64);
    assert Pow2(64) == 0x1_0000_0000_0000_0000 by {
      Pow2Value();
    }
  }

  lemma Pow2Value()
    ensures Pow2(8) == 0x100
    ensures Pow2(64) == 0x1_0000_0000_0000_0000
    ensures Pow2(128) == 0x1_0000_0000_0000_0000_0000_0000_0000_0000
  {
    assert Pow2(8) == 0x100;
    Pow2Add(8, 8);
    var p16 := Pow2(16);
    assert p16 == 0x1_0000;
    Pow2Add(16, 16);
    var p32 := Pow2(32);
    assert p32 == p16 * p16;
    Pow2Add(32, 32);
    var p64 := Pow2(64);
    assert p64 == p32 * p32;
    Pow2Add(64, 64);
  }

  lemma {:induction false} Pow2Add(a: nat, b: nat)
    ensures Pow2(a + b) == Pow2(a) * Pow2(b)
    decreases a
  {
    if a > 0 {
      Pow2Add(a - 1, b);
    }
  }

  // ---------------------------------------------------------------- set_word64

  /** The value table after binding each wire of `word` to the next bit of `n`, bit 0 first. */
  function SetWordValues(values: map<WireId, Option<Fe>>, word: seq<WireId>, n: nat): map<WireId, Option<Fe>>
    decreases |word|
  {
    if word == [] then values
    else SetWordValues(values[word[0] := Some(if n % 2 == 0 then Zero else One)], word[1..], n / 2)
  }

  predicate Distinct(ws: seq<WireId>) {
    forall i, j | 0 <= i < j < |ws| :: ws[i] != ws[j]
  }

  /** Binding a word adds exactly the word's wires to the table. */
  lemma {:induction false} SetWordValuesKeys(values: map<WireId, Option<Fe>>, word: seq<WireId>, n: nat)
    ensures SetWordValues(values, word, n).Keys == values.Keys + (set w | w in word)
    decreases |word|
  {
    if word != [] {
      var v := values[word[0] := Some(if n % 2 == 0 then Zero else One)];
      SetWordValuesKeys(v, word[1..], n / 2);
      assert (set w | w in word) == {word[0]} + (set w | w in word[1..]) by {
        assert word == [word[0]] + word[1..];
      }
    }
  }

  /**
   * On distinct wires, binding the bits of `n` adds exactly the word's wires
   * to the table, sets wire i to bit i of `n` and leaves every other entry as
   * it was.
   */
  lemma {:induction false} SetWordValuesSpec(values: map<WireId, Option<Fe>>, word: seq<WireId>, n: nat)
    requires Distinct(word)
    ensures var r := SetWordValues(values, word, n);
      && r.Keys == values.Keys + (set w | w in word)
      && (forall i | 0 <= i < |word| :: r[word[i]] == Some(BoolFe(BitsOf(n, |word|)[i])))
      && (forall w | w in values && w !in word :: r[w] == values[w])
    decreases |word|
  {
    SetWordValuesKeys(values, word, n);
    if word != [] {
      var v := values[word[0] := Some(if n % 2 == 0 then Zero else One)];
      var r := SetWordValues(values, word, n);
      var tail := word[1..];
      var bs := BitsOf(n, |word|);
      assert r == SetWordValues(v, tail, n / 2);
      assert bs[1..] == BitsOf(n / 2, |tail|);
      assert word[0] !in tail;
      SetWordValuesSpec(v, tail, n / 2);
      forall i | 0 < i < |word| ensures r[word[i]] == Some(BoolFe(bs[i])) {
        assert tail[i - 1] == word[i];
      }
      forall w | w in values && w !in word ensures r[w] == values[w] {
        assert w !in tail;
      }
    }
  }

  /**
   * After binding the bits of a 64-bit number to 64 distinct allocated wires,
   * the circuit stays well formed, wire i evaluates to bit i, and those bits
   * read back least significant first give the number again.
   */
  lemma SetWord64Holds(st: CircuitState, word: Word64, n: U64)
    requires WellFormed(st) && Distinct(word) && forall i | 0 <= i < |word| :: word[i] < st.nextWireId
    ensures var st' := st.(wireValues := SetWordValues(st.wireValues, word, n));
      && WellFormed(st')
      && HoldBits(st', word, BitsOf(n, 64))
      && Recompose(BitsOf(n, 64)) == n
  {
    var st' := st.(wireValues := SetWordValues(st.wireValues, word, n));
    SetWordValuesSpec(st.wireValues, word, n);
    assert Acyclic(st');
    forall i | 0 <= i < |word| ensures Eval(st', word[i]) == Ok(BoolFe(BitsOf(n, 64)[i])) {
      assert st'.wireValues[word[i]] == Some(BoolFe(BitsOf(n, 64)[i]));
    }
    RecomposeU64(n);
  }

  /** The first bits of 1998456 (binary ...0111 1000) are 0, 0, 0, 1, 1, 1, 1, 0. */
  lemma SetWordExample()
    ensures BitsOf(1998456, 8) == [false, false, false, true, true, true, true, false]
  {
  }

  // ---------------------------------------------------------------- wires_from_literal

  /** The constant wires spelling `literal` in binary, bit 0 first, up to its highest set bit. */
  function LiteralWires(literal: nat): seq<WireId>
    decreases literal
  {
    if literal == 0 then [] else [if literal % 2 == 0 then ZeroWire else UnityWire] + LiteralWires(literal / 2)
  }

  /** The bit a constant wire stands for. */
  function WireBits(ws: seq<WireId>): (r: seq<bool>)
    ensures |r| == |ws|
  {
    seq(|ws|, i requires 0 <= i < |ws| => ws[i] == UnityWire)
  }

  /**
   * `wires_from_literal` uses only the two constant wires; read as bits they
   * recompose to the literal; there is one wire per bit up to the highest set
   * bit, so the last wire is the unity wire and zero gives no wire; and the
   * wires spell the same bits `set_word64` would bind.
   */
  lemma {:induction false} LiteralWiresSpec(literal: nat)
    ensures var r := LiteralWires(literal);
      && (forall i | 0 <= i < |r| :: r[i] == ZeroWire || r[i] == UnityWire)
      && Recompose(WireBits(r)) == literal
      && (r == [] <==> literal == 0)
      && (r != [] ==> r[|r| - 1] == UnityWire && Pow2(|r| - 1) <= literal)
      && literal < Pow2(|r|)
      && WireBits(r) == BitsOf(literal, |r|)
    decreases literal
  {
    if literal != 0 {
      var r := LiteralWires(literal);
      var t := LiteralWires(literal / 2);
      LiteralWiresSpec(literal / 2);
      assert r == [if literal % 2 == 0 then ZeroWire else UnityWire] + t;
      assert WireBits(r)[1..] == WireBits(t);
      assert WireBits(r) == [literal % 2 == 1] + WireBits(t);
      if t == [] {
        assert literal == 1;
      }
    }
  }

  /** A 128-bit literal needs at most 128 wires. */
  lemma LiteralWiresLength(literal: U128)
    ensures |LiteralWires(literal)| <= 128
  {
    LiteralWiresSpec(literal);
    var r := LiteralWires(literal);
    if |r| > 128 {
      Pow2Value();
      Pow2Mono(128, |r| - 1);
    }
  }

  lemma {:induction false} Pow2Mono(a: nat, b: nat)
    requires a <= b
    ensures Pow2(a) <= Pow2(b)
    decreases b
  {
    if a < b {
      Pow2Mono(a, b - 1);
    }
  }

  // ---------------------------------------------------------------- rotate_wires

  /**
   * `rotate_wires`: the wires from index n on, then the first n. No wire is
   * lost or duplicated.
   */
  function RotateWires(wires: seq<WireId>, n: nat): (r: seq<WireId>)
    requires n <= |wires|
    ensures |r| == |wires| && multiset(r) == multiset(wires)
  {
    assert wires == wires[..n] + wires[n..];
    wires[n..] + wires[..n]
  }

  /**
   * Rotation keeps the length and the wires, moves wire i + n to position i
   * (indices taken cyclically), and rotating back by the rest undoes it.
   */
  lemma RotateWiresSpec(wires: seq<WireId>, n: nat)
    requires n <= |wires|
    ensures var r := RotateWires(wires, n);
      && |r| == |wires|
      && multiset(r) == multiset(wires)
      && (forall i | 0 <= i < |r| :: r[i] == wires[(i + n) % |wires|])
      && RotateWires(r, |wires| - n) == wires
  {
    var r := RotateWires(wires, n);
    assert wires == wires[..n] + wires[n..];
    forall i | 0 <= i < |r| ensures r[i] == wires[(i + n) % |wires|] {
      if i < |wires| - n {
        ModUnique(i + n, |wires|, 0, i + n);
      } else {
        ModUnique(i + n, |wires|, 1, i + n - |wires|);
      }
    }
    assert r[|wires| - n..] == wires[..n];
    assert r[..|wires| - n] == wires[n..];
  }
}
