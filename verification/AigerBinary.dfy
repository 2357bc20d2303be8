/** The binary gate section: differences of literals in seven-bit groups. */
module AigerBinary {
  import opened AigGraph
  import opened Options

  /** `x` in groups of seven bits, low group first, all but the last with the top bit set. */
  function Varint(x: nat): (bytes: seq<nat>)
    ensures |bytes| > 0 && forall i :: 0 <= i < |bytes| ==> bytes[i] < 256
  {
    if x < 0x80 then [x] else [x % 0x80 + 0x80] + Varint(x / 0x80)
  }

  /** Reads one number and says what is left. */
  function ReadVarint(bytes: seq<nat>): Option<(nat, seq<nat>)> {
    if bytes == [] then None
    else if bytes[0] < 0x80 then Some((bytes[0], bytes[1..]))
    else match ReadVarint(bytes[1..])
      case None => None
      case Some((high, rest)) => Some((high * 0x80 + bytes[0] - 0x80, rest))
  }

  lemma {:induction false} VarintRoundTrip(x: nat, rest: seq<nat>)
    ensures ReadVarint(Varint(x) + rest) == Some((x, rest))
  {
    if x < 0x80 {
      assert (Varint(x) + rest)[1..] == rest;
    } else {
      VarintRoundTrip(x / 0x80, rest);
      assert (Varint(x) + rest)[1..] == Varint(x / 0x80) + rest;
    }
  }

  /** What is still to be written, one group at a time. */
  method AigerEncode(out: seq<nat>, x: nat) returns (bytes: seq<nat>)
    ensures bytes == out + Varint(x)
  {
    bytes := out;
    var y := x;
    while y >= 0x80
      invariant bytes + Varint(y) == out + Varint(x)
    {
      bytes := bytes + [y % 0x80 + 0x80];
      y := y / 0x80;
    }
    bytes := bytes + [y];
  }

  function LiteralOf(code: nat): Literal {
    Literal(code / 2, code % 2 == 1)
  }

  lemma LiteralOfCode(x: Literal)
    ensures LiteralOf(Code(x)) == x
  {
  }

  function Lhs(base: nat, g: nat): nat {
    2 * (base + g) + 2
  }

  /** A gate as the difference to its output and the difference between its inputs. */
  function OneGate(lhs: nat, gate: Gate): seq<nat>
    requires Code(gate.rhs1) <= Code(gate.rhs0) <= lhs
  {
    Varint(lhs - Code(gate.rhs0)) + Varint(Code(gate.rhs0) - Code(gate.rhs1))
  }

  /** The bytes of the gates from `g` on. */
  function GateBytes(base: nat, gates: seq<Gate>, g: nat): (bytes: seq<nat>)
    requires Ordered(base, gates) && g <= |gates|
    decreases |gates| - g
  {
    if g == |gates| then [] else OneGate(Lhs(base, g), gates[g]) + GateBytes(base, gates, g + 1)
  }

  /** Writes the section. In ordered gates no difference is negative. */
  method WriteGates(base: nat, gates: seq<Gate>) returns (bytes: seq<nat>)
    requires Ordered(base, gates)
    ensures bytes == GateBytes(base, gates, 0)
  {
    bytes := [];
    for g := 0 to |gates|
      invariant bytes + GateBytes(base, gates, g) == GateBytes(base, gates, 0)
    {
      bytes := WriteGate(bytes, 2 * (base + g) + 2, gates[g], GateBytes(base, gates, g + 1));
    }
  }

  method WriteGate(out: seq<nat>, lhs: nat, gate: Gate, ghost rest: seq<nat>) returns (bytes: seq<nat>)
    requires Code(gate.rhs1) <= Code(gate.rhs0) <= lhs
    ensures bytes == out + OneGate(lhs, gate) && bytes + rest == out + (OneGate(lhs, gate) + rest)
  {
    bytes := AigerEncode(out, lhs - Code(gate.rhs0));
    bytes := AigerEncode(bytes, Code(gate.rhs0) - Code(gate.rhs1));
  }

  /** Reads a gate with output `lhs`; none if a difference is not allowed or bytes are missing. */
  function ReadGate(lhs: nat, bytes: seq<nat>): Option<(Gate, seq<nat>)> {
    match ReadVarint(bytes)
    case None => None
    case Some((delta0, middle)) =>
      match ReadVarint(middle)
      case None => None
      case Some((delta1, rest)) =>
        if delta0 == 0 || delta0 + delta1 > lhs then None
        else Some((Gate(LiteralOf(lhs - delta0), LiteralOf(lhs - delta0 - delta1)), rest))
  }

  /** Reads `n` gates starting with gate `g`. */
  function ReadGates(base: nat, g: nat, n: nat, bytes: seq<nat>): Option<(seq<Gate>, seq<nat>)>
    decreases n
  {
    if n == 0 then Some(([], bytes))
    else match ReadGate(Lhs(base, g), bytes)
      case None => None
      case Some((gate, rest)) =>
        match ReadGates(base, g + 1, n - 1, rest)
        case None => None
        case Some((gates, left)) => Some(([gate] + gates, left))
  }

  lemma GateRoundTrip(lhs: nat, gate: Gate, rest: seq<nat>)
    requires Code(gate.rhs1) <= Code(gate.rhs0) < lhs
    ensures ReadGate(lhs, OneGate(lhs, gate) + rest) == Some((gate, rest))
  {
    var delta0, delta1 := lhs - Code(gate.rhs0), Code(gate.rhs0) - Code(gate.rhs1);
    VarintRoundTrip(delta0, Varint(delta1) + rest);
    VarintRoundTrip(delta1, rest);
    assert OneGate(lhs, gate) + rest == Varint(delta0) + (Varint(delta1) + rest);
    LiteralOfCode(gate.rhs0);
    LiteralOfCode(gate.rhs1);
  }

  /** Reading the section back yields the gates. */
  lemma {:induction false} GatesRoundTrip(base: nat, gates: seq<Gate>, g: nat, rest: seq<nat>)
    requires Ordered(base, gates) && g <= |gates|
    ensures ReadGates(base, g, |gates| - g, GateBytes(base, gates, g) + rest) == Some((gates[g..], rest))
    decreases |gates| - g
  {
    if g < |gates| {
      GatesRoundTrip(base, gates, g + 1, rest);
      FirstGateRoundTrip(base, gates, g, rest);
      ReadGatesStep(base, g, |gates| - g, GateBytes(base, gates, g) + rest, gates[g],
                    GateBytes(base, gates, g + 1) + rest, gates[g + 1..], rest);
      assert gates[g..] == [gates[g]] + gates[g + 1..];
    } else {
      assert GateBytes(base, gates, g) + rest == rest && gates[g..] == [];
    }
  }

  lemma ReadGatesStep(base: nat, g: nat, n: nat, bytes: seq<nat>, gate: Gate, rest: seq<nat>, gates: seq<Gate>, left: seq<nat>)
    requires n > 0 && ReadGate(Lhs(base, g), bytes) == Some((gate, rest))
    requires ReadGates(base, g + 1, n - 1, rest) == Some((gates, left))
    ensures ReadGates(base, g, n, bytes) == Some(([gate] + gates, left))
  {
  }

  lemma FirstGateRoundTrip(base: nat, gates: seq<Gate>, g: nat, rest: seq<nat>)
    requires Ordered(base, gates) && g < |gates|
    ensures ReadGate(Lhs(base, g), GateBytes(base, gates, g) + rest)
         == Some((gates[g], GateBytes(base, gates, g + 1) + rest))
  {
    var tail := GateBytes(base, gates, g + 1) + rest;
    GateRoundTrip(Lhs(base, g), gates[g], tail);
    assert GateBytes(base, gates, g) + rest == OneGate(Lhs(base, g), gates[g]) + tail;
  }

  lemma ReadGateOrdered(lhs: nat, bytes: seq<nat>)
    requires ReadGate(lhs, bytes).Some?
    ensures var gate := ReadGate(lhs, bytes).value.0; Code(gate.rhs1) <= Code(gate.rhs0) < lhs
  {
  }

  /** Whatever bytes are read successfully, the gates are ordered: the format can only express ordered
      graphs. */
  lemma {:induction false} ReadGatesOrdered(base: nat, g: nat, n: nat, bytes: seq<nat>)
    requires ReadGates(base, g, n, bytes).Some?
    ensures Ordered(base + g, ReadGates(base, g, n, bytes).value.0)
    decreases n
  {
    if n > 0 {
      var gate, rest := ReadGate(Lhs(base, g), bytes).value.0, ReadGate(Lhs(base, g), bytes).value.1;
      ReadGateOrdered(Lhs(base, g), bytes);
      ReadGatesOrdered(base, g + 1, n - 1, rest);
      var after := ReadGates(base, g + 1, n - 1, rest).value.0;
      assert ReadGates(base, g, n, bytes).value.0 == [gate] + after;
    }
  }
}
