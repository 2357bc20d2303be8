/** And-inverter graphs: variable 0 is false, then come the inputs, the latches and the gates. */
module AigGraph {

  /** The literal `2 * variable`, plus one when inverted. */
  datatype Literal = Literal(variable: nat, inverted: bool)

  function Code(x: Literal): nat {
    2 * x.variable + (if x.inverted then 1 else 0)
  }

  function Neg(x: Literal): Literal {
    Literal(x.variable, !x.inverted)
  }

  const FALSE := Literal(0, false)
  const TRUE := Literal(0, true)

  datatype Gate = Gate(rhs0: Literal, rhs1: Literal)

  /** `a0` and `a1` in the order the binary format asks for. */
  function GateOf(a0: Literal, a1: Literal): Gate {
    if Code(a0) > Code(a1) then Gate(a0, a1) else Gate(a1, a0)
  }

  /** Gate `g` defines variable `base + g + 1` from earlier variables, the larger literal first. */
  predicate Ordered(base: nat, gates: seq<Gate>) {
    forall g :: 0 <= g < |gates| ==> Code(gates[g].rhs1) <= Code(gates[g].rhs0) && gates[g].rhs0.variable <= base + g
  }

  /** The value of a literal. Variables nothing defines count as false. */
  predicate LitValue(values: seq<bool>, x: Literal) {
    (x.variable < |values| && values[x.variable]) != x.inverted
  }

  /** One pass over the gates. */
  function Values(first: seq<bool>, gates: seq<Gate>): (r: seq<bool>)
    requires |first| > 0 && Ordered(|first| - 1, gates)
    ensures |r| == |first| + |gates|
  {
    if gates == [] then first else
      var n := |gates| - 1;
      assert Ordered(|first| - 1, gates[..n]);
      assert Code(gates[n].rhs1) <= Code(gates[n].rhs0) && gates[n].rhs0.variable < |first| + n;
      var before := Values(first, gates[..n]);
      before + [LitValue(before, gates[n].rhs0) && LitValue(before, gates[n].rhs1)]
  }

  lemma {:induction false} ValuesPrefix(first: seq<bool>, gates: seq<Gate>, n: nat)
    requires |first| > 0 && Ordered(|first| - 1, gates) && n <= |gates|
    ensures Ordered(|first| - 1, gates[..n])
    ensures Values(first, gates)[..|first| + n] == Values(first, gates[..n])
    decreases |gates|
  {
    if n < |gates| {
      var less := gates[..|gates| - 1];
      assert Ordered(|first| - 1, less);
      ValuesPrefix(first, less, n);
      assert less[..n] == gates[..n];
      assert Values(first, gates)[..|first| + n] == Values(first, less)[..|first| + n];
    } else {
      assert gates[..n] == gates;
    }
  }

  /** The pass gives every gate the conjunction of its inputs and leaves the rest alone. */
  lemma GateValue(first: seq<bool>, gates: seq<Gate>, g: nat)
    requires |first| > 0 && Ordered(|first| - 1, gates) && g < |gates|
    ensures gates[g].rhs0.variable < |first| + |gates| && gates[g].rhs1.variable < |first| + |gates|
    ensures var v := Values(first, gates);
            v[|first| + g] == (LitValue(v, gates[g].rhs0) && LitValue(v, gates[g].rhs1))
  {
    var v := Values(first, gates);
    ValuesPrefix(first, gates, g);
    ValuesPrefix(first, gates, g + 1);
    assert gates[..g + 1][..g] == gates[..g];
    var before := Values(first, gates[..g]);
    assert v[..|first| + g] == before;
    assert v[..|first| + (g + 1)] == Values(first, gates[..g + 1]);
    assert v[|first| + g] == Values(first, gates[..g + 1])[|first| + g];
  }

  lemma FirstValues(first: seq<bool>, gates: seq<Gate>)
    requires |first| > 0 && Ordered(|first| - 1, gates)
    ensures forall k :: 0 <= k < |first| ==> Values(first, gates)[k] == first[k]
  {
    ValuesPrefix(first, gates, 0);
    assert Values(first, gates)[..|first|] == first;
  }

  /** The literal is the output of a gate over `x` and `y`. */
  predicate IsGate(base: nat, gates: seq<Gate>, output: Literal, x: Literal, y: Literal) {
    && !output.inverted
    && base < output.variable <= base + |gates|
    && gates[output.variable - base - 1] == GateOf(x, y)
  }

  lemma IsGateValue(first: seq<bool>, gates: seq<Gate>, output: Literal, x: Literal, y: Literal)
    requires |first| > 0 && Ordered(|first| - 1, gates) && IsGate(|first| - 1, gates, output, x, y)
    ensures x.variable < |first| + |gates| && y.variable < |first| + |gates|
    ensures var v := Values(first, gates); LitValue(v, output) == (LitValue(v, x) && LitValue(v, y))
  {
    GateValue(first, gates, output.variable - |first|);
  }
}
