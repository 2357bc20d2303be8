/** What the writer's memo promises: literals derived from drivers, over ordered gates. */
module AigerBits {
  import opened AigDesign
  import opened AigGraph

  /** Why the writer gives up. */
  datatype Error = Loop(bit: Bit) | Undriven(bit: Bit)

  datatype Result<T> = Success(value: T) | Failure(error: Error) {
    predicate IsFailure() {
      Failure?
    }

    function PropagateFailure<U>(): Result<U>
      requires Failure?
    {
      Failure(error)
    }

    function Extract(): T
      requires Success?
    {
      value
    }
  }

  /** The literal of `b` is what its driver makes of the literals of its arguments, compiled before. */
  ghost predicate Derived(d: Design, base: nat, gates: seq<Gate>, lits: map<Bit, Literal>, depth: map<Bit, nat>,
                          initstate: Literal, b: Bit)
    requires b in lits && lits.Keys == depth.Keys
  {
    match DriverOf(d, b)
    case Constant(_) => true
    case Free => true
    case Inverter(a) => a in lits && depth[a] < depth[b] && lits[b] == Neg(lits[a])
    case Conjunction(a0, a1) =>
      a0 in lits && a1 in lits && depth[a0] < depth[b] && depth[a1] < depth[b]
      && IsGate(base, gates, lits[b], lits[a0], lits[a1])
    case Alias(a) => a in lits && depth[a] < depth[b] && lits[b] == lits[a]
    case InitState => lits[b] == initstate
    case Nothing => false
  }

  /** The graph so far: ordered gates, and every literal either given or derived. */
  ghost predicate Sound(d: Design, base: nat, gates: seq<Gate>, lits: map<Bit, Literal>, depth: map<Bit, nat>, initstate: Literal) {
    && Ordered(base, gates)
    && lits.Keys == depth.Keys
    && initstate.variable <= base
    && (forall b :: b in lits ==> lits[b].variable <= base + |gates|)
    && (forall b {:trigger Derived(d, base, gates, lits, depth, initstate, b)} ::
         b in lits ==> Derived(d, base, gates, lits, depth, initstate, b))
    && d.free <= lits.Keys && d.tied.Keys <= lits.Keys && Zero in lits && One in lits
  }

  ghost predicate Extends(gates: seq<Gate>, lits: map<Bit, Literal>, depth: map<Bit, nat>,
                          gates': seq<Gate>, lits': map<Bit, Literal>, depth': map<Bit, nat>)
  {
    && gates <= gates'
    && (forall b :: b in lits ==> b in lits' && lits'[b] == lits[b])
    && (forall b :: b in depth ==> b in depth' && depth'[b] == depth[b])
  }

  lemma ExtendsTrans(g0: seq<Gate>, l0: map<Bit, Literal>, h0: map<Bit, nat>, g1: seq<Gate>, l1: map<Bit, Literal>,
                     h1: map<Bit, nat>, g2: seq<Gate>, l2: map<Bit, Literal>, h2: map<Bit, nat>)
    requires Extends(g0, l0, h0, g1, l1, h1) && Extends(g1, l1, h1, g2, l2, h2)
    ensures Extends(g0, l0, h0, g2, l2, h2)
  {
  }

  /** A new gate disturbs nothing. */
  lemma SoundGate(d: Design, base: nat, gates: seq<Gate>, lits: map<Bit, Literal>, depth: map<Bit, nat>,
                  initstate: Literal, x: Literal, y: Literal)
    requires Sound(d, base, gates, lits, depth, initstate)
    requires x.variable <= base + |gates| && y.variable <= base + |gates|
    ensures Sound(d, base, gates + [GateOf(x, y)], lits, depth, initstate)
    ensures IsGate(base, gates + [GateOf(x, y)], Literal(base + |gates| + 1, false), x, y)
  {
    var more := gates + [GateOf(x, y)];
    forall b | b in lits
      ensures Derived(d, base, more, lits, depth, initstate, b)
    {
      assert Derived(d, base, gates, lits, depth, initstate, b);
    }
  }

  /** Recording a derived literal for a new bit keeps the graph sound. */
  lemma SoundBit(d: Design, base: nat, gates: seq<Gate>, lits: map<Bit, Literal>, depth: map<Bit, nat>,
                 initstate: Literal, b: Bit, literal: Literal, n: nat)
    requires Sound(d, base, gates, lits, depth, initstate) && b !in lits && literal.variable <= base + |gates|
    requires Derived(d, base, gates, lits[b := literal], depth[b := n], initstate, b)
    ensures Sound(d, base, gates, lits[b := literal], depth[b := n], initstate)
  {
    forall c | c in lits
      ensures Derived(d, base, gates, lits[b := literal], depth[b := n], initstate, c)
    {
      assert Derived(d, base, gates, lits, depth, initstate, c);
    }
  }

  lemma DerivedNot(d: Design, base: nat, gates: seq<Gate>, lits: map<Bit, Literal>, depth: map<Bit, nat>,
                   initstate: Literal, b: Bit, a: Bit)
    requires Sound(d, base, gates, lits, depth, initstate) && b !in lits && a in lits && DriverOf(d, b) == Inverter(a)
    ensures Derived(d, base, gates, lits[b := Neg(lits[a])], depth[b := depth[a] + 1], initstate, b)
  {
  }

  lemma DerivedAlias(d: Design, base: nat, gates: seq<Gate>, lits: map<Bit, Literal>, depth: map<Bit, nat>,
                     initstate: Literal, b: Bit, a: Bit)
    requires Sound(d, base, gates, lits, depth, initstate) && b !in lits && a in lits && DriverOf(d, b) == Alias(a)
    ensures Derived(d, base, gates, lits[b := lits[a]], depth[b := depth[a] + 1], initstate, b)
  {
  }

  lemma DerivedAnd(d: Design, base: nat, gates: seq<Gate>, lits: map<Bit, Literal>, depth: map<Bit, nat>,
                   initstate: Literal, b: Bit, a0: Bit, a1: Bit, literal: Literal)
    requires Sound(d, base, gates, lits, depth, initstate) && b !in lits && a0 in lits && a1 in lits
    requires DriverOf(d, b) == Conjunction(a0, a1) && IsGate(base, gates, literal, lits[a0], lits[a1])
    ensures literal.variable <= base + |gates|
    ensures Derived(d, base, gates, lits[b := literal], depth[b := depth[a0] + depth[a1] + 1], initstate, b)
  {
  }

  /** Every bit with a literal has a finite, fully driven cone. */
  lemma {:induction false} SoundGrounded(d: Design, base: nat, gates: seq<Gate>, lits: map<Bit, Literal>,
                                         depth: map<Bit, nat>, initstate: Literal, b: Bit)
    requires Sound(d, base, gates, lits, depth, initstate) && b in lits
    ensures Grounded(d, b, depth[b])
    decreases depth[b]
  {
    assert Derived(d, base, gates, lits, depth, initstate, b);
    match DriverOf(d, b)
    case Inverter(a) =>
      SoundGrounded(d, base, gates, lits, depth, initstate, a);
      GroundedMore(d, a, depth[a], depth[b] - 1);
    case Conjunction(a0, a1) =>
      SoundGrounded(d, base, gates, lits, depth, initstate, a0);
      SoundGrounded(d, base, gates, lits, depth, initstate, a1);
      GroundedMore(d, a0, depth[a0], depth[b] - 1);
      GroundedMore(d, a1, depth[a1], depth[b] - 1);
    case Alias(a) =>
      SoundGrounded(d, base, gates, lits, depth, initstate, a);
      GroundedMore(d, a, depth[a], depth[b] - 1);
    case _ =>
  }

  /** With literals for the seeds only there is nothing to derive yet. */
  lemma SeedsSound(d: Design, base: nat, gates: seq<Gate>, lits: map<Bit, Literal>, depth: map<Bit, nat>, initstate: Literal)
    requires Ordered(base, gates) && lits.Keys == depth.Keys && initstate.variable <= base
    requires lits.Keys <= d.tied.Keys + {Zero, One} + d.free
    requires d.free <= lits.Keys && d.tied.Keys <= lits.Keys && Zero in lits && One in lits
    requires forall b :: b in lits ==> lits[b].variable <= base + |gates|
    ensures Sound(d, base, gates, lits, depth, initstate)
  {
    forall b | b in lits
      ensures Derived(d, base, gates, lits, depth, initstate, b)
    {
      assert DriverOf(d, b).Constant? || DriverOf(d, b).Free?;
    }
  }
}
