/** The binary gate section, byte by byte. */
module AigerBytes {
  import opened AigGraph
  import opened AigerBinary
  import opened Flatten

  /** 128 to the power of `i`. */
  function Pow128(i: nat): (p: nat)
    ensures p > 0
  {
    if i == 0 then 1 else 128 * Pow128(i - 1)
  }

  lemma DigitShift(x: nat, p: nat)
    requires p > 0
    ensures (x / 128) / p == x / (128 * p)
  {
    var q, r := x / 128, x % 128;
    var a, b := q / p, q % p;
    assert q == p * a + b;
    assert x == 128 * (p * a + b) + r;
    assert 128 * (p * a + b) == (128 * p) * a + 128 * b;
    QuotientIs(x, 128 * p, a, 128 * b + r);
  }

  lemma LessTimes(d: nat, j: nat, k: nat)
    ensures j < k ==> d * j + d <= d * k
  {
    if j < k {
      assert d * (j + 1) <= d * k;
    }
  }

  lemma QuotientIs(x: nat, d: nat, q: nat, r: nat)
    requires d > 0 && x == d * q + r && r < d
    ensures x / d == q
  {
    LessTimes(d, x / d, q);
    LessTimes(d, q, x / d);
    assert x == d * (x / d) + x % d;
  }

  /** Byte `i` holds digit `i` to the base 128, and its top bit says whether another one follows. */
  lemma {:induction false} VarintDigit(x: nat, i: nat)
    requires i < |Varint(x)|
    ensures Varint(x)[i] == (x / Pow128(i)) % 128 + (if i + 1 < |Varint(x)| then 128 else 0)
  {
    if i > 0 {
      VarintDigit(x / 128, i - 1);
      DigitShift(x, Pow128(i - 1));
    }
  }

  /** No byte is wasted. */
  lemma {:induction false} VarintShortest(x: nat)
    ensures x < Pow128(|Varint(x)|) && (|Varint(x)| > 1 ==> Pow128(|Varint(x)| - 1) <= x)
  {
    if x >= 128 {
      VarintShortest(x / 128);
    }
  }

  lemma {:induction false} FlatFront<T>(x: seq<T>, xs: seq<seq<T>>)
    ensures Flat([x] + xs) == x + Flat(xs)
  {
    if xs == [] {
      assert ([x] + xs)[..0] == [];
    } else {
      var n := |xs| - 1;
      FlatFront(x, xs[..n]);
      assert ([x] + xs)[..n + 1] == [x] + xs[..n];
    }
  }

  /** Gate `i` of the file is written as two numbers, the difference of its literal and the larger input
      and that of its inputs; the literal of a variable is twice its number, plus one when inverted. */
  ghost predicate WritesGate(base: nat, gate: Gate, i: nat, piece: seq<nat>) {
    var lhs := 2 * (base + i + 1);
    var rhs0 := 2 * gate.rhs0.variable + (if gate.rhs0.inverted then 1 else 0);
    var rhs1 := 2 * gate.rhs1.variable + (if gate.rhs1.inverted then 1 else 0);
    rhs1 <= rhs0 <= lhs && piece == Varint(lhs - rhs0) + Varint(rhs0 - rhs1)
  }

  /** The pieces are those of the gates from `g` on. */
  ghost predicate WriteGatesFrom(base: nat, gates: seq<Gate>, g: nat, pieces: seq<seq<nat>>) {
    && |pieces| + g == |gates|
    && forall i: nat :: g <= i < |gates| ==> WritesGate(base, gates[i], i, pieces[i - g])
  }

  lemma GateWritten(base: nat, gates: seq<Gate>, g: nat)
    requires Ordered(base, gates) && g < |gates|
    ensures WritesGate(base, gates[g], g, OneGate(Lhs(base, g), gates[g]))
  {
  }

  lemma PieceInFront(base: nat, gates: seq<Gate>, g: nat, piece: seq<nat>, pieces: seq<seq<nat>>)
    requires g < |gates| && WritesGate(base, gates[g], g, piece) && WriteGatesFrom(base, gates, g + 1, pieces)
    ensures WriteGatesFrom(base, gates, g, [piece] + pieces)
  {
    forall i: nat | g <= i < |gates|
      ensures WritesGate(base, gates[i], i, ([piece] + pieces)[i - g])
    {
      if i > g {
        assert ([piece] + pieces)[i - g] == pieces[i - (g + 1)];
      }
    }
  }

  /** The section holds the gates one after the other. */
  lemma {:induction false} GateBytesExact(base: nat, gates: seq<Gate>, g: nat) returns (pieces: seq<seq<nat>>)
    requires Ordered(base, gates) && g <= |gates|
    ensures WriteGatesFrom(base, gates, g, pieces) && GateBytes(base, gates, g) == Flat(pieces)
    decreases |gates| - g
  {
    if g == |gates| {
      pieces := [];
    } else {
      var rest := GateBytesExact(base, gates, g + 1);
      var piece := OneGate(Lhs(base, g), gates[g]);
      GateWritten(base, gates, g);
      PieceInFront(base, gates, g, piece, rest);
      FlatFront(piece, rest);
      pieces := [piece] + rest;
    }
  }
}
