/** The writer: numbering, translation of bits, and the sections of the file, in the order of the source. */
module AigerWriting {
  import opened AigDesign
  import opened AigGraph
  import opened AigerBits
  import opened AigerLayout

  /** The translation of bits, with its memo, its gates and its stack. */
  class AigerWriter {
    const d: Design
    const zinit: bool
    ghost const most: nat
    var aigM: nat
    var aigI: nat
    var aigL: nat
    var aigA: nat
    var gates: seq<Gate>
    var lits: map<Bit, Literal>
    ghost var depth: map<Bit, nat>
    var initstateFf: Literal
    var initInputs: map<Bit, Literal>
    var latchin: seq<Literal>
    var latchinit: seq<nat>
    var outputs: seq<Literal>
    var stack: seq<Bit>
    var nextLoopCheck: nat

    constructor (d: Design, zinit: bool)
      requires Wf(d)
      ensures this.d == d && this.zinit == zinit && Fresh()
    {
      this.d, this.zinit := d, zinit;
      aigM, aigI, aigL, aigA, gates, lits, depth, initstateFf := 0, 0, 0, 0, [], map[], map[], FALSE;
      initInputs, latchin, latchinit, outputs := map[], [], [], [];
      stack, nextLoopCheck := [], 1024;
      ghost var bound := BoundByWaiting(d);
      most := bound;
    }

    /** No stack gets longer: a check beyond `most` finds the loop. */
    ghost function Limit(): nat {
      2 * most + 1024
    }

    /** The number of inputs and latches, the variables without a gate. */
    ghost function Defined(): nat
      reads this
    {
      aigI + aigL
    }

    ghost predicate Counted()
      reads this
    {
      aigM == aigI + aigL + aigA && aigA == |gates|
    }

    ghost predicate Valid()
      reads this
    {
      Counted() && 0 < nextLoopCheck <= Limit() && LoopBound(d, most) && Sound(d, Defined(), gates, lits, depth, initstateFf)
    }

    method MkGate(a0: Literal, a1: Literal) returns (literal: Literal)
      requires Counted() && Ordered(Defined(), gates) && a0.variable <= aigM && a1.variable <= aigM
      modifies `aigM, `aigA, `gates
      ensures Counted() && Ordered(Defined(), gates)
      ensures gates == old(gates) + [GateOf(a0, a1)] && aigM == old(aigM) + 1
      ensures literal == Literal(aigM, false)
    {
      aigM, aigA := aigM + 1, aigA + 1;
      gates := gates + [if Code(a0) > Code(a1) then Gate(a0, a1) else Gate(a1, a0)];
      return Literal(aigM, false);
    }

    /** The search for a loop on the stack, made when the stack reaches its next check. */
    method CheckStack(bit: Bit) returns (r: Result<()>)
      requires 0 < nextLoopCheck <= Limit() && LoopBound(d, most) && |stack| <= nextLoopCheck && Trail(d, lits.Keys, stack + [bit])
      modifies `nextLoopCheck
      ensures r.Failure? ==> bit in stack
      ensures r.Success? ==> |stack| < nextLoopCheck <= Limit()
    {
      if |stack| == nextLoopCheck {
        for k := 0 to nextLoopCheck
          invariant forall j :: 0 <= j < k ==> stack[j] != bit
        {
          if stack[k] == bit {
            return Failure(Loop(bit));
          }
        }
        nextLoopCheck := 2 * nextLoopCheck;
      }
      return Success(());
    }

    /** The stack is a trail of bits without a literal, within the next check. */
    ghost predicate Stacked()
      reads this
    {
      Valid() && |stack| <= nextLoopCheck && forall b :: b in stack ==> b !in lits
    }

    /** What a successful translation leaves of the state before it. */
    ghost predicate Kept(gates0: seq<Gate>, lits0: map<Bit, Literal>, depth0: map<Bit, nat>, stack0: seq<Bit>)
      reads this
    {
      && Stacked() && stack == stack0
      && Extends(gates0, lits0, depth0, gates, lits, depth)
    }

    /** Translates one bit. It fails exactly when the bit has no finite, fully driven cone. */
    method BitToAig(bit: Bit) returns (r: Result<Literal>)
      requires Stacked() && (bit in lits || Trail(d, lits.Keys, stack + [bit]))
      modifies `aigM, `aigA, `gates, `lits, `depth, `stack, `nextLoopCheck
      ensures r.Success? ==> Kept(old(gates), old(lits), old(depth), old(stack))
      ensures r.Success? ==> bit in lits && lits[bit] == r.value
      ensures bit in old(stack) ==> r.Failure?
      ensures r.Failure? ==> !HasCone(d, bit)
      decreases Limit() - |stack|, 1
    {
      if bit in lits {
        return Success(lits[bit]);
      }
      r := CompileOpen(bit);
    }

    /** A bit that has no literal yet goes on the stack and its driver is compiled. */
    method CompileOpen(bit: Bit) returns (r: Result<Literal>)
      requires Stacked() && bit !in lits && Trail(d, lits.Keys, stack + [bit])
      modifies `aigM, `aigA, `gates, `lits, `depth, `stack, `nextLoopCheck
      ensures r.Success? ==> Kept(old(gates), old(lits), old(depth), old(stack))
      ensures r.Success? ==> bit in lits && lits[bit] == r.value
      ensures bit in old(stack) ==> r.Failure?
      ensures r.Failure? ==> !HasCone(d, bit)
      decreases Limit() - |stack|, 0
    {
      var checked := CheckStack(bit);
      if checked.Failure? {
        RepeatedUngrounded(d, lits.Keys, stack, bit);
        return Failure(checked.error);
      }
      if bit in stack {
        RepeatedNext(d, lits.Keys, stack, bit);
      }
      stack := stack + [bit];
      var literal, rank := CompileDriver(bit);
      if literal.Success? {
        Record(bit, literal.value, rank);
      }
      return literal;
    }

    /** The end of the translation: the bit leaves the stack and gets its literal. */
    method Record(bit: Bit, literal: Literal, ghost rank: nat)
      requires Stacked() && |stack| > 0 && stack[|stack| - 1] == bit && bit !in stack[..|stack| - 1]
      requires Fits(bit, literal, rank)
      modifies `lits, `depth, `stack
      ensures Kept(gates, old(lits), old(depth), old(stack[..|stack| - 1]))
      ensures bit in lits && lits[bit] == literal
    {
      SoundBit(d, Defined(), gates, lits, depth, initstateFf, bit, literal, rank);
      stack := stack[..|stack| - 1];
      lits := lits[bit := literal];
      depth := depth[bit := rank];
    }

    /** `literal` is a derived literal for the new bit. */
    ghost predicate Fits(bit: Bit, literal: Literal, rank: nat)
      reads this
    {
      lits.Keys == depth.Keys && literal.variable <= aigM
      && Derived(d, Defined(), gates, lits[bit := literal], depth[bit := rank], initstateFf, bit)
    }

    /** The translation by kind of driver, the bit itself on top of the stack. */
    method CompileDriver(bit: Bit) returns (r: Result<Literal>, ghost rank: nat)
      requires Stacked() && |stack| > 0 && stack[|stack| - 1] == bit && Trail(d, lits.Keys, stack)
      modifies `aigM, `aigA, `gates, `lits, `depth, `stack, `nextLoopCheck
      ensures r.Success? ==> Kept(old(gates), old(lits), old(depth), old(stack))
      ensures r.Success? ==> Fits(bit, r.value, rank)
      ensures HasNext(d, bit) && Next(d, old(lits).Keys, bit) in old(stack) ==> r.Failure?
      ensures r.Failure? ==> !HasCone(d, bit)
      decreases Limit() - |stack|, 4
    {
      rank := 0;
      if bit in d.nots {
        r, rank := CompileNot(bit);
      } else if bit in d.ands {
        r, rank := CompileAnd(bit);
      } else if bit in d.aliases {
        r, rank := CompileAlias(bit);
      } else if bit in d.initstate {
        r := Success(initstateFf);
      } else {
        r := Failure(Undriven(bit));
      }
    }

    method CompileNot(bit: Bit) returns (r: Result<Literal>, ghost rank: nat)
      requires Stacked() && |stack| > 0 && stack[|stack| - 1] == bit && Trail(d, lits.Keys, stack)
      requires DriverOf(d, bit).Inverter?
      modifies `aigM, `aigA, `gates, `lits, `depth, `stack, `nextLoopCheck
      ensures r.Success? ==> Kept(old(gates), old(lits), old(depth), old(stack))
      ensures r.Success? ==> Fits(bit, r.value, rank)
      ensures Next(d, old(lits).Keys, bit) in old(stack) ==> r.Failure?
      ensures r.Failure? ==> !HasCone(d, bit)
      decreases Limit() - |stack|, 2
    {
      rank := 0;
      TrailPush(d, lits.Keys, stack, bit);
      var arg := BitToAig(d.nots[bit]);
      if arg.Failure? {
        if HasCone(d, bit) {
          ConeOfArguments(d, bit);
        }
        return Failure(arg.error), 0;
      }
      DerivedNot(d, Defined(), gates, lits, depth, initstateFf, bit, d.nots[bit]);
      return Success(Neg(arg.value)), depth[d.nots[bit]] + 1;
    }

    method CompileAlias(bit: Bit) returns (r: Result<Literal>, ghost rank: nat)
      requires Stacked() && |stack| > 0 && stack[|stack| - 1] == bit && Trail(d, lits.Keys, stack)
      requires DriverOf(d, bit).Alias?
      modifies `aigM, `aigA, `gates, `lits, `depth, `stack, `nextLoopCheck
      ensures r.Success? ==> Kept(old(gates), old(lits), old(depth), old(stack))
      ensures r.Success? ==> Fits(bit, r.value, rank)
      ensures Next(d, old(lits).Keys, bit) in old(stack) ==> r.Failure?
      ensures r.Failure? ==> !HasCone(d, bit)
      decreases Limit() - |stack|, 2
    {
      rank := 0;
      TrailPush(d, lits.Keys, stack, bit);
      var arg := BitToAig(d.aliases[bit]);
      if arg.Failure? {
        if HasCone(d, bit) {
          ConeOfArguments(d, bit);
        }
        return Failure(arg.error), 0;
      }
      DerivedAlias(d, Defined(), gates, lits, depth, initstateFf, bit, d.aliases[bit]);
      return Success(arg.value), depth[d.aliases[bit]] + 1;
    }

    method CompileAnd(bit: Bit) returns (r: Result<Literal>, ghost rank: nat)
      requires Stacked() && |stack| > 0 && stack[|stack| - 1] == bit && Trail(d, lits.Keys, stack)
      requires DriverOf(d, bit).Conjunction?
      modifies `aigM, `aigA, `gates, `lits, `depth, `stack, `nextLoopCheck
      ensures r.Success? ==> Kept(old(gates), old(lits), old(depth), old(stack))
      ensures r.Success? ==> Fits(bit, r.value, rank)
      ensures Next(d, old(lits).Keys, bit) in old(stack) ==> r.Failure?
      ensures r.Failure? ==> !HasCone(d, bit)
      decreases Limit() - |stack|, 3
    {
      rank := 0;
      var done := BothArguments(bit);
      if done.Failure? {
        if HasCone(d, bit) {
          ConeOfArguments(d, bit);
        }
        return Failure(done.error), 0;
      }
      var literal;
      literal, rank := AndGate(bit, d.ands[bit].0, d.ands[bit].1);
      return Success(literal), rank;
    }

    /** The two arguments of an AND, one after the other. */
    method BothArguments(bit: Bit) returns (r: Result<()>)
      requires Stacked() && |stack| > 0 && stack[|stack| - 1] == bit && Trail(d, lits.Keys, stack)
      requires DriverOf(d, bit).Conjunction?
      modifies `aigM, `aigA, `gates, `lits, `depth, `stack, `nextLoopCheck
      ensures r.Success? ==> Kept(old(gates), old(lits), old(depth), old(stack))
      ensures r.Success? ==> d.ands[bit].0 in lits && d.ands[bit].1 in lits && bit !in lits
      ensures Next(d, old(lits).Keys, bit) in old(stack) ==> r.Failure?
      ensures r.Failure? ==> !HasCone(d, d.ands[bit].0) || !HasCone(d, d.ands[bit].1)
      decreases Limit() - |stack|, 2
    {
      TrailPush(d, lits.Keys, stack, bit);
      ghost var gates0, lits0, depth0 := gates, lits, depth;
      var arg0 := BitToAig(d.ands[bit].0);
      if arg0.Failure? {
        return Failure(arg0.error);
      }
      TrailGrows(d, lits0.Keys, lits.Keys, stack);
      TrailPush(d, lits.Keys, stack, bit);
      ghost var gates1, lits1, depth1 := gates, lits, depth;
      var arg1 := BitToAig(d.ands[bit].1);
      if arg1.Failure? {
        return Failure(arg1.error);
      }
      ExtendsTrans(gates0, lits0, depth0, gates1, lits1, depth1, gates, lits, depth);
      return Success(());
    }

    /** Both arguments have their literals: the gate. */
    method AndGate(bit: Bit, a0: Bit, a1: Bit) returns (literal: Literal, ghost rank: nat)
      requires Stacked() && bit !in lits && a0 in lits && a1 in lits && DriverOf(d, bit) == Conjunction(a0, a1)
      modifies `aigM, `aigA, `gates
      ensures Stacked() && Fits(bit, literal, rank) && old(gates) <= gates
    {
      SoundGate(d, Defined(), gates, lits, depth, initstateFf, lits[a0], lits[a1]);
      literal := MkGate(lits[a0], lits[a1]);
      DerivedAnd(d, Defined(), gates, lits, depth, initstateFf, bit, a0, a1, literal);
      rank := depth[a0] + depth[a1] + 1;
    }

    // -------------------------------------------------------------------------------------------
    // The sections

    /** Inputs, latches and multiplexers are in place and no translation is under way. */
    ghost predicate Ready()
      reads this
    {
      && Stacked() && stack == []
      && aigI == InputCount(d, zinit) && aigL == LatchCount(d, zinit) && initstateFf == InitLiteral(d, zinit)
      && (initInputs != map[] <==> ExtraInputs(d, zinit) > 0)
      && InputsNumbered(d, lits) && FlipFlopsNumbered(d, zinit, gates, lits)
    }

    /** Translation from an empty stack. */
    method Translate(bit: Bit) returns (r: Result<Literal>)
      requires Ready()
      modifies `aigM, `aigA, `gates, `lits, `depth, `stack, `nextLoopCheck
      ensures r.Success? ==> Ready() && Extends(old(gates), old(lits), old(depth), gates, lits, depth)
      ensures r.Success? ==> bit in lits && lits[bit] == r.value
      ensures r.Success? <==> HasCone(d, bit)
    {
      r := BitToAig(bit);
      if r.Success? {
        SoundGrounded(d, Defined(), gates, lits, depth, initstateFf, bit);
        Carried(d, zinit, old(gates), old(lits), gates, lits);
      }
    }

    method AddGate(a0: Literal, a1: Literal) returns (literal: Literal)
      requires Ready() && a0.variable <= aigM && a1.variable <= aigM
      modifies `aigM, `aigA, `gates
      ensures Ready() && old(gates) <= gates && aigM == old(aigM) + 1 && literal == Literal(aigM, false)
      ensures IsGate(Base(d, zinit), gates, literal, a0, a1)
    {
      SoundGate(d, Defined(), gates, lits, depth, initstateFf, a0, a1);
      literal := MkGate(a0, a1);
      Carried(d, zinit, old(gates), lits, gates, lits);
    }

    method CompileLatches() returns (r: Result<()>)
      requires Ready() && latchin == []
      modifies `aigM, `aigA, `gates, `lits, `depth, `stack, `nextLoopCheck, `latchin
      ensures r.Success? ==> Ready() && LatchesWired(d, zinit, lits, latchin, |d.ffs|) && |latchin| == |d.ffs|
      ensures r.Success? <==> forall f :: f in d.ffs ==> HasCone(d, f.d)
    {
      for k := 0 to |d.ffs|
        invariant Ready() && LatchesWired(d, zinit, lits, latchin, k) && |latchin| == k
        invariant forall j :: 0 <= j < k ==> HasCone(d, d.ffs[j].d)
      {
        var done := CompileLatch(k);
        if done.Failure? {
          assert d.ffs[k] in d.ffs;
          return done;
        }
      }
      return Success(());
    }

    method CompileLatch(k: nat) returns (r: Result<()>)
      requires Ready() && k < |d.ffs| && LatchesWired(d, zinit, lits, latchin, k) && |latchin| == k
      modifies `aigM, `aigA, `gates, `lits, `depth, `stack, `nextLoopCheck, `latchin
      ensures r.Success? ==> Ready() && LatchesWired(d, zinit, lits, latchin, k + 1) && |latchin| == k + 1
      ensures r.Success? <==> HasCone(d, d.ffs[k].d)
    {
      ghost var lits0, next0 := lits, latchin;
      var literal := Translate(d.ffs[k].d);
      if literal.Failure? {
        return Failure(literal.error);
      }
      if zinit && d.ffs[k].q in d.init && d.init[d.ffs[k].q] {
        latchin := latchin + [Neg(literal.value)];
      } else {
        latchin := latchin + [literal.value];
      }
      LatchesCarried(d, zinit, lits0, next0, lits, latchin, k);
      assert LatchWired(d, zinit, lits, latchin, k);
      return Success(());
    }

    /** The latches and the first entries of the sections of the file are in place. */
    ghost predicate Done(no: nat, nb: nat, nc: nat, nj: nat, nf: nat)
      reads this
    {
      && Ready() && Progress(d, zinit, gates, lits, latchin, outputs, no, nb, nc, nj, nf)
      && |outputs| == no + nb + nc + nj + nf
      && |latchin| == MonitorStart(d, zinit) + 2 * nj + nf
    }

    /** The literals of a property cell. */
    method TranslateCheck(check: Check, ghost no: nat, ghost nb: nat, ghost nc: nat, ghost nj: nat, ghost nf: nat)
      returns (r: Result<(Literal, Literal)>)
      requires Done(no, nb, nc, nj, nf)
      modifies `aigM, `aigA, `gates, `lits, `depth, `stack, `nextLoopCheck
      ensures r.Success? ==> Done(no, nb, nc, nj, nf) && check.a in lits && check.en in lits
      ensures r.Success? ==> r.value == (lits[check.a], lits[check.en])
      ensures r.Success? <==> HasCone(d, check.a) && HasCone(d, check.en)
    {
      ghost var gates0, lits0 := gates, lits;
      var a := Translate(check.a);
      if a.Failure? {
        return Failure(a.error);
      }
      var en := Translate(check.en);
      if en.Failure? {
        return Failure(en.error);
      }
      ProgressCarried(d, zinit, gates0, lits0, latchin, outputs, gates, lits, latchin, outputs, no, nb, nc, nj, nf);
      return Success((a.value, en.value));
    }

    method AddGateKept(a0: Literal, a1: Literal, ghost no: nat, ghost nb: nat, ghost nc: nat, ghost nj: nat, ghost nf: nat)
      returns (literal: Literal)
      requires Done(no, nb, nc, nj, nf) && a0.variable <= aigM && a1.variable <= aigM
      modifies `aigM, `aigA, `gates
      ensures Done(no, nb, nc, nj, nf) && old(gates) <= gates && aigM == old(aigM) + 1 && literal == Literal(aigM, false)
      ensures IsGate(Base(d, zinit), gates, literal, a0, a1)
    {
      ghost var gates0 := gates;
      literal := AddGate(a0, a1);
      ProgressCarried(d, zinit, gates0, lits, latchin, outputs, gates, lits, latchin, outputs, no, nb, nc, nj, nf);
    }

    method WriteOutput(k: nat) returns (r: Result<()>)
      requires k < |d.outputs| && Done(k, 0, 0, 0, 0)
      modifies `aigM, `aigA, `gates, `lits, `depth, `stack, `nextLoopCheck, `outputs
      ensures r.Success? ==> Done(k + 1, 0, 0, 0, 0)
      ensures r.Success? <==> HasCone(d, d.outputs[k])
    {
      ghost var gates0, lits0 := gates, lits;
      var literal := Translate(d.outputs[k]);
      if literal.Failure? {
        return Failure(literal.error);
      }
      ProgressCarried(d, zinit, gates0, lits0, latchin, outputs, gates, lits, latchin, outputs, k, 0, 0, 0, 0);
      OutputAdded(d, zinit, gates, lits, latchin, outputs, k);
      outputs := outputs + [literal.value];
      return Success(());
    }

    method WriteBad(k: nat) returns (r: Result<()>)
      requires k < |d.asserts| && Done(|d.outputs|, k, 0, 0, 0)
      modifies `aigM, `aigA, `gates, `lits, `depth, `stack, `nextLoopCheck, `outputs
      ensures r.Success? ==> Done(|d.outputs|, k + 1, 0, 0, 0)
      ensures r.Success? <==> HasCone(d, d.asserts[k].a) && HasCone(d, d.asserts[k].en)
    {
      var pair := TranslateCheck(d.asserts[k], |d.outputs|, k, 0, 0, 0);
      if pair.Failure? {
        return Failure(pair.error);
      }
      var bad := AddGateKept(Neg(pair.value.0), pair.value.1, |d.outputs|, k, 0, 0, 0);
      BadAdded(d, zinit, gates, lits, latchin, outputs, k, bad);
      outputs := outputs + [bad];
      return Success(());
    }

    method WriteConstraint(k: nat) returns (r: Result<()>)
      requires k < |d.assumes| && Done(|d.outputs|, |d.asserts|, k, 0, 0)
      modifies `aigM, `aigA, `gates, `lits, `depth, `stack, `nextLoopCheck, `outputs
      ensures r.Success? ==> Done(|d.outputs|, |d.asserts|, k + 1, 0, 0)
      ensures r.Success? <==> HasCone(d, d.assumes[k].a) && HasCone(d, d.assumes[k].en)
    {
      var pair := TranslateCheck(d.assumes[k], |d.outputs|, |d.asserts|, k, 0, 0);
      if pair.Failure? {
        return Failure(pair.error);
      }
      var violated := AddGateKept(Neg(pair.value.0), pair.value.1, |d.outputs|, |d.asserts|, k, 0, 0);
      ConstraintAdded(d, zinit, gates, lits, latchin, outputs, k, Neg(violated));
      outputs := outputs + [Neg(violated)];
      return Success(());
    }

    /** Two gates: `(x and y) or q`. */
    method AndOr(x: Literal, y: Literal, q: Literal, ghost nj: nat) returns (r: Literal)
      requires Done(|d.outputs|, |d.asserts|, |d.assumes|, nj, 0)
      requires x.variable <= aigM && y.variable <= aigM && q.variable <= aigM
      modifies `aigM, `aigA, `gates
      ensures Done(|d.outputs|, |d.asserts|, |d.assumes|, nj, 0) && old(gates) <= gates && old(aigM) <= aigM
      ensures 0 < r.variable <= aigM && AndOrWired(Base(d, zinit), gates, x, y, q, r)
    {
      var both := AddGateKept(x, y, |d.outputs|, |d.asserts|, |d.assumes|, nj, 0);
      r := AddGateKept(Neg(both), Neg(q), |d.outputs|, |d.asserts|, |d.assumes|, nj, 0);
      r := Neg(r);
    }

    /** The gates of a liveness circuit. */
    method LiveGates(check: Check, a: Literal, en: Literal, s: Literal, q1: Literal, q2: Literal, ghost nj: nat)
      returns (d1: Literal, d2: Literal, out: Literal)
      requires Done(|d.outputs|, |d.asserts|, |d.assumes|, nj, 0)
      requires check.a in lits && check.en in lits && a == lits[check.a] && en == lits[check.en]
      requires s.variable <= aigM && q1.variable <= aigM && q2.variable <= aigM
      requires a.variable <= aigM && en.variable <= aigM
      modifies `aigM, `aigA, `gates
      ensures Done(|d.outputs|, |d.asserts|, |d.assumes|, nj, 0)
      ensures LiveWired(Base(d, zinit), gates, lits, check, s, q1, q2, d1, d2, out)
    {
      d1 := AndOr(s, en, q1, nj);
      ghost var gates1 := gates;
      d2 := AndOr(d1, a, q2, nj);
      ghost var gates2 := gates;
      out := AddGateKept(q1, Neg(q2), |d.outputs|, |d.asserts|, |d.assumes|, nj, 0);
      LiveAssembled(Base(d, zinit), gates1, gates2, gates, lits, check, s, q1, q2, d1, d2, out);
    }

    method WriteLive(k: nat) returns (r: Result<()>)
      requires k < |d.lives| && Done(|d.outputs|, |d.asserts|, |d.assumes|, k, 0)
      modifies `aigM, `aigA, `gates, `lits, `depth, `stack, `nextLoopCheck, `outputs, `latchin
      ensures r.Success? ==> Done(|d.outputs|, |d.asserts|, |d.assumes|, k + 1, 0)
      ensures r.Success? <==> HasCone(d, d.lives[k].a) && HasCone(d, d.lives[k].en)
    {
      var pair := TranslateCheck(d.lives[k], |d.outputs|, |d.asserts|, |d.assumes|, k, 0);
      if pair.Failure? {
        return Failure(pair.error);
      }
      var s := LiveInput(d, zinit, k);
      var q1 := Monitor(d, zinit, 2 * k);
      var q2 := Monitor(d, zinit, 2 * k + 1);
      var d1, d2, out := LiveGates(d.lives[k], pair.value.0, pair.value.1, s, q1, q2, k);
      AppendLive(k, d1, d2, out);
      return Success(());
    }

    method AppendLive(k: nat, d1: Literal, d2: Literal, out: Literal)
      requires k < |d.lives| && Done(|d.outputs|, |d.asserts|, |d.assumes|, k, 0)
      requires LiveWired(Base(d, zinit), gates, lits, d.lives[k], LiveInput(d, zinit, k), Monitor(d, zinit, 2 * k),
                         Monitor(d, zinit, 2 * k + 1), d1, d2, out)
      modifies `latchin, `outputs
      ensures Done(|d.outputs|, |d.asserts|, |d.assumes|, k + 1, 0)
    {
      LiveAdded(d, zinit, gates, lits, latchin, outputs, k, d1, d2, out);
      latchin := latchin + [d1, d2];
      outputs := outputs + [out];
    }

    /** The gates of a fairness circuit. */
    method FairGates(check: Check, a: Literal, en: Literal, q: Literal, ghost nf: nat) returns (pending: Literal)
      requires Done(|d.outputs|, |d.asserts|, |d.assumes|, |d.lives|, nf)
      requires check.a in lits && check.en in lits && a == lits[check.a] && en == lits[check.en]
      requires q.variable <= aigM
      modifies `aigM, `aigA, `gates
      ensures Done(|d.outputs|, |d.asserts|, |d.assumes|, |d.lives|, nf)
      ensures FairWired(Base(d, zinit), gates, lits, check, q, pending, Neg(q))
    {
      var idle := AddGateKept(Neg(q), Neg(en), |d.outputs|, |d.asserts|, |d.assumes|, |d.lives|, nf);
      pending := AddGateKept(Neg(idle), Neg(a), |d.outputs|, |d.asserts|, |d.assumes|, |d.lives|, nf);
    }

    method WriteFair(k: nat) returns (r: Result<()>)
      requires k < |d.fairs| && Done(|d.outputs|, |d.asserts|, |d.assumes|, |d.lives|, k)
      modifies `aigM, `aigA, `gates, `lits, `depth, `stack, `nextLoopCheck, `outputs, `latchin
      ensures r.Success? ==> Done(|d.outputs|, |d.asserts|, |d.assumes|, |d.lives|, k + 1)
      ensures r.Success? <==> HasCone(d, d.fairs[k].a) && HasCone(d, d.fairs[k].en)
    {
      var pair := TranslateCheck(d.fairs[k], |d.outputs|, |d.asserts|, |d.assumes|, |d.lives|, k);
      if pair.Failure? {
        return Failure(pair.error);
      }
      var q := Monitor(d, zinit, 2 * |d.lives| + k);
      var pending := FairGates(d.fairs[k], pair.value.0, pair.value.1, q, k);
      AppendFair(k, pending, Neg(q));
      return Success(());
    }

    method AppendFair(k: nat, pending: Literal, out: Literal)
      requires k < |d.fairs| && Done(|d.outputs|, |d.asserts|, |d.assumes|, |d.lives|, k)
      requires FairWired(Base(d, zinit), gates, lits, d.fairs[k], Monitor(d, zinit, 2 * |d.lives| + k), pending, out)
      modifies `latchin, `outputs
      ensures Done(|d.outputs|, |d.asserts|, |d.assumes|, |d.lives|, k + 1)
    {
      FairAdded(d, zinit, gates, lits, latchin, outputs, k, pending, out);
      latchin := latchin + [pending];
      outputs := outputs + [out];
    }

    // -------------------------------------------------------------------------------------------
    // Numbering and zero initialisation

    /** Constants and inputs. */
    method NumberInputs()
      requires Wf(d) && Counted() && aigM == 0 && lits == map[]
      modifies `aigM, `aigI, `lits
      ensures aigM == aigI == |d.inputs| && InputsUpTo(d, lits, |d.inputs|)
    {
      lits := map b | b in d.tied :: if d.tied[b] then TRUE else FALSE;
      lits := lits[Zero := FALSE][One := TRUE];
      for k := 0 to |d.inputs|
        invariant aigM == aigI == k && InputsUpTo(d, lits, k)
      {
        InputAdded(d, lits, k);
        aigM, aigI := aigM + 1, aigI + 1;
        lits := lits[d.inputs[k] := Literal(aigM, false)];
      }
    }

    /** One more input for every uninitialised flip-flop. */
    method NumberInitInputs()
      requires zinit && aigM == aigI == |d.inputs| && initInputs == map[] && Wf(d)
      modifies `aigM, `aigI, `initInputs
      ensures aigM == aigI == |d.inputs| + Uninit(d, |d.ffs|)
      ensures InitInputsUpTo(d, initInputs, |d.ffs|)
    {
      for k := 0 to |d.ffs|
        invariant aigM == aigI == |d.inputs| + Uninit(d, k)
        invariant InitInputsUpTo(d, initInputs, k)
      {
        InitInputAdded(d, initInputs, k);
        if d.ffs[k].q in d.init {
          continue;
        }
        aigM, aigI := aigM + 1, aigI + 1;
        initInputs := initInputs[d.ffs[k].q := Literal(aigM, false)];
      }
    }

    /** The latches of the flip-flops. */
    method NumberLatches()
      requires Wf(d) && aigM == aigI == InputCount(d, zinit) && aigL == 0 && latchinit == []
      requires InputsUpTo(d, lits, |d.inputs|)
      modifies `aigM, `aigL, `lits, `latchinit
      ensures aigL == |d.ffs| == |latchinit| && aigM == aigI + aigL
      ensures LatchesUpTo(d, zinit, lits, |d.ffs|) && Resets(d, latchinit)
    {
      for k := 0 to |d.ffs|
        invariant aigL == k == |latchinit| && aigM == aigI + aigL
        invariant LatchesUpTo(d, zinit, lits, k) && Resets(d, latchinit)
      {
        NumberLatch(k);
      }
    }

    method NumberLatch(k: nat)
      requires Wf(d) && k < |d.ffs| && aigI == InputCount(d, zinit) && aigL == k == |latchinit| && aigM == aigI + aigL
      requires LatchesUpTo(d, zinit, lits, k) && Resets(d, latchinit)
      modifies `aigM, `aigL, `lits, `latchinit
      ensures aigL == k + 1 == |latchinit| && aigM == aigI + aigL
      ensures LatchesUpTo(d, zinit, lits, k + 1) && Resets(d, latchinit)
    {
      LatchAdded(d, zinit, lits, k);
      aigM, aigL := aigM + 1, aigL + 1;
      lits := lits[d.ffs[k].q := Literal(aigM, false)];
      var reset := if d.ffs[k].q !in d.init then 2 else if d.init[d.ffs[k].q] then 1 else 0;
      ResetAdded(d, latchinit, reset);
      latchinit := latchinit + [reset];
    }

    /** The latch of the first cycle and those of the monitors. */
    method NumberExtraLatches()
      requires aigL == |d.ffs| == |latchinit| && aigM == aigI + aigL && aigI == InputCount(d, zinit)
      requires initInputs != map[] <==> ExtraInputs(d, zinit) > 0
      requires initstateFf == FALSE && Resets(d, latchinit)
      modifies `aigM, `aigL, `latchinit, `initstateFf
      ensures aigL == LatchCount(d, zinit) == |latchinit| && aigM == aigI + aigL
      ensures initstateFf == InitLiteral(d, zinit) && Resets(d, latchinit)
    {
      if d.initstate != {} || initInputs != map[] {
        aigM, aigL := aigM + 1, aigL + 1;
        initstateFf := Literal(aigM, true);
        ResetAdded(d, latchinit, 0);
        latchinit := latchinit + [0];
      }
      var monitors := |d.fairs| + 2 * |d.lives|;
      aigM, aigL := aigM + monitors, aigL + monitors;
      for k := 0 to monitors
        modifies `latchinit
        invariant |latchinit| == MonitorStart(d, zinit) + k && Resets(d, latchinit)
      {
        ResetAdded(d, latchinit, 0);
        latchinit := latchinit + [0];
      }
    }

    /** Zero initialisation: latches that start at one are stored inverted, uninitialised ones get a
        multiplexer. */
    method ZeroInit()
      requires zinit && Wf(d) && Counted() && gates == [] && LatchesUpTo(d, zinit, lits, |d.ffs|)
      requires aigI == InputCount(d, zinit) && aigL == LatchCount(d, zinit) && initstateFf == InitLiteral(d, zinit)
      requires |latchinit| == aigL && Resets(d, latchinit)
      requires InitInputsUpTo(d, initInputs, |d.ffs|)
      modifies `aigM, `aigA, `gates, `lits
      ensures Counted() && Ordered(Base(d, zinit), gates) && MuxedUpTo(d, zinit, gates, lits, |d.ffs|)
    {
      for k := 0 to |d.ffs|
        invariant PartMuxed(k)
      {
        ZeroInitOne(k);
      }
    }

    /** The first `k` flip-flops have their zero-initialised form, and nothing else has gates. */
    ghost predicate PartMuxed(k: nat)
      reads this
    {
      && k <= |d.ffs| && Counted() && Ordered(Base(d, zinit), gates) && |gates| == 3 * Uninit(d, k)
      && MuxedUpTo(d, zinit, gates, lits, k)
    }

    method ZeroInitOne(k: nat)
      requires zinit && k < |d.ffs| && Wf(d) && PartMuxed(k)
      requires aigI == InputCount(d, zinit) && aigL == LatchCount(d, zinit) && initstateFf == InitLiteral(d, zinit)
      requires k < |latchinit| && latchinit[k] == ResetOf(d, k) && InitInputsUpTo(d, initInputs, |d.ffs|)
      modifies `aigM, `aigA, `gates, `lits
      ensures PartMuxed(k + 1)
    {
      ghost var gates0, lits0 := gates, lits;
      var q := d.ffs[k].q;
      assert AtLatch(d, zinit, lits, k) && HasInitInput(d, initInputs, k);
      if latchinit[k] == 1 {
        lits := lits[q := Neg(lits[q])];
      } else if latchinit[k] == 2 {
        var selected := InitMux(k, lits[q], initInputs[q]);
        lits := lits[q := selected];
      }
      assert lits == lits0[q := FlipFlopLiteral(d, zinit, k)];
      MuxAdded(d, zinit, gates0, lits0, gates, k);
    }

    /** The multiplexer of one flip-flop. */
    method InitMux(k: nat, stored: Literal, given: Literal) returns (selected: Literal)
      requires k < |d.ffs| && Muxed(d, zinit, k) && Counted() && Ordered(Base(d, zinit), gates)
      requires aigI == InputCount(d, zinit) && aigL == LatchCount(d, zinit) && initstateFf == InitLiteral(d, zinit)
      requires |gates| == 3 * Uninit(d, k) && stored == Latch(d, zinit, k) && given == InitInput(d, k)
      modifies `aigM, `aigA, `gates
      ensures Counted() && Ordered(Base(d, zinit), gates) && old(gates) <= gates && |gates| == old(|gates|) + 3
      ensures MuxGates(d, zinit, gates, k) && selected == FlipFlopLiteral(d, zinit, k)
    {
      UninitMono(d, k, |d.ffs|);
      var gatedOut := MkGate(stored, Neg(initstateFf));
      var gatedIn := MkGate(given, initstateFf);
      selected := MkGate(Neg(gatedOut), Neg(gatedIn));
      MuxAppended(d, zinit, old(gates), gates, k);
      selected := Neg(selected);
    }

    /** Everything before the first translation. */
    method Prepare()
      requires Fresh()
      modifies `aigM, `aigI, `aigL, `aigA, `gates, `lits, `depth, `initInputs, `latchinit, `initstateFf
      ensures Ready() && |latchinit| == LatchCount(d, zinit) && Resets(d, latchinit)
    {
      Number();
      if zinit {
        ZeroInit();
      } else {
        NothingMuxed(d, lits);
      }
      Seeded();
    }

    /** The state after construction. */
    ghost predicate Fresh()
      reads this
    {
      && Wf(d) && aigM == 0 && aigI == 0 && aigL == 0 && aigA == 0 && gates == [] && lits == map[] && depth == map[]
      && initInputs == map[] && latchin == [] && latchinit == [] && outputs == [] && initstateFf == FALSE
      && stack == [] && nextLoopCheck == 1024 && LoopBound(d, most)
    }

    /** The variables of inputs and latches. */
    method Number()
      requires Fresh()
      modifies `aigM, `aigI, `aigL, `lits, `initInputs, `latchinit, `initstateFf
      ensures Counted() && aigI == InputCount(d, zinit) && aigL == LatchCount(d, zinit) == |latchinit|
      ensures initstateFf == InitLiteral(d, zinit) && Resets(d, latchinit)
      ensures LatchesUpTo(d, zinit, lits, |d.ffs|) && (zinit ==> InitInputsUpTo(d, initInputs, |d.ffs|))
      ensures initInputs != map[] <==> ExtraInputs(d, zinit) > 0
    {
      NumberAllInputs();
      NumberLatches();
      NumberExtraLatches();
    }

    /** The inputs of the design, those for initial values and the free inputs of the liveness properties. */
    method NumberAllInputs()
      requires Fresh()
      modifies `aigM, `aigI, `lits, `initInputs
      ensures aigM == aigI == InputCount(d, zinit) && InputsUpTo(d, lits, |d.inputs|)
      ensures zinit ==> InitInputsUpTo(d, initInputs, |d.ffs|)
      ensures initInputs != map[] <==> ExtraInputs(d, zinit) > 0
    {
      NumberInputs();
      if zinit {
        NumberInitInputs();
      }
      aigM, aigI := aigM + |d.lives|, aigI + |d.lives|;
    }

    /** The seeds form a sound graph. */
    ghost method Seeded()
      requires Wf(d) && Counted() && Ordered(Base(d, zinit), gates) && MuxedUpTo(d, zinit, gates, lits, |d.ffs|)
      requires aigI == InputCount(d, zinit) && aigL == LatchCount(d, zinit) && initstateFf == InitLiteral(d, zinit)
      requires stack == [] && nextLoopCheck == 1024 && LoopBound(d, most)
      requires initInputs != map[] <==> ExtraInputs(d, zinit) > 0
      modifies `depth
      ensures Ready()
    {
      depth := map b | b in lits :: 0;
      SeedsComplete(d, zinit, gates, lits);
      forall b | b in lits
        ensures lits[b].variable <= Defined() + |gates|
      {
        SeedsBounded(d, zinit, gates, lits, b);
      }
      SeedsSound(d, Defined(), gates, lits, depth, initstateFf);
      AllMuxed(d, zinit, gates, lits);
    }

    // -------------------------------------------------------------------------------------------
    // The whole run

    /** The finished graph. */
    function Graph(): Aig
      reads this
    {
      Aig(aigI, aigL, gates, latchin, latchinit, outputs)
    }

    /** The latches: flip-flops, then the one that marks the first cycle. */
    method WriteLatches() returns (r: Result<()>)
      requires Ready() && latchin == [] && outputs == []
      modifies `aigM, `aigA, `gates, `lits, `depth, `stack, `nextLoopCheck, `latchin
      ensures r.Success? ==> Done(0, 0, 0, 0, 0)
      ensures r.Success? <==> forall f :: f in d.ffs ==> HasCone(d, f.d)
    {
      r := CompileLatches();
      if r.Success? && (d.initstate != {} || initInputs != map[]) {
        ghost var next0 := latchin;
        latchin := latchin + [TRUE];
        LatchesCarried(d, zinit, lits, next0, lits, latchin, |d.ffs|);
      }
    }

    /** The sections in the order of the file. */
    method WriteSections() returns (r: Result<()>)
      requires Done(0, 0, 0, 0, 0)
      modifies `aigM, `aigA, `gates, `lits, `depth, `stack, `nextLoopCheck, `latchin, `outputs
      ensures r.Success? ==> Done(|d.outputs|, |d.asserts|, |d.assumes|, |d.lives|, |d.fairs|)
      ensures r.Success? <==>
        && (forall b :: b in d.outputs ==> HasCone(d, b))
        && ChecksHaveCones(d, d.asserts) && ChecksHaveCones(d, d.assumes)
        && ChecksHaveCones(d, d.lives) && ChecksHaveCones(d, d.fairs)
    {
      var _ :- WriteOutputs();
      var _ :- WriteBads();
      var _ :- WriteConstraints();
      var _ :- WriteLives();
      r := WriteFairs();
    }

    method WriteOutputs() returns (r: Result<()>)
      requires Done(0, 0, 0, 0, 0)
      modifies `aigM, `aigA, `gates, `lits, `depth, `stack, `nextLoopCheck, `outputs
      ensures r.Success? ==> Done(|d.outputs|, 0, 0, 0, 0)
      ensures r.Success? <==> forall b :: b in d.outputs ==> HasCone(d, b)
    {
      for k := 0 to |d.outputs|
        invariant Done(k, 0, 0, 0, 0)
        invariant forall j :: 0 <= j < k ==> HasCone(d, d.outputs[j])
      {
        var done := WriteOutput(k);
        if done.Failure? {
          assert d.outputs[k] in d.outputs;
          return done;
        }
      }
      return Success(());
    }

    method WriteBads() returns (r: Result<()>)
      requires Done(|d.outputs|, 0, 0, 0, 0)
      modifies `aigM, `aigA, `gates, `lits, `depth, `stack, `nextLoopCheck, `outputs
      ensures r.Success? ==> Done(|d.outputs|, |d.asserts|, 0, 0, 0)
      ensures r.Success? <==> ChecksHaveCones(d, d.asserts)
    {
      for k := 0 to |d.asserts|
        invariant Done(|d.outputs|, k, 0, 0, 0)
        invariant forall j :: 0 <= j < k ==> HasCone(d, d.asserts[j].a) && HasCone(d, d.asserts[j].en)
      {
        var done := WriteBad(k);
        if done.Failure? {
          assert d.asserts[k] in d.asserts;
          return done;
        }
      }
      return Success(());
    }

    method WriteConstraints() returns (r: Result<()>)
      requires Done(|d.outputs|, |d.asserts|, 0, 0, 0)
      modifies `aigM, `aigA, `gates, `lits, `depth, `stack, `nextLoopCheck, `outputs
      ensures r.Success? ==> Done(|d.outputs|, |d.asserts|, |d.assumes|, 0, 0)
      ensures r.Success? <==> ChecksHaveCones(d, d.assumes)
    {
      for k := 0 to |d.assumes|
        invariant Done(|d.outputs|, |d.asserts|, k, 0, 0)
        invariant forall j :: 0 <= j < k ==> HasCone(d, d.assumes[j].a) && HasCone(d, d.assumes[j].en)
      {
        var done := WriteConstraint(k);
        if done.Failure? {
          assert d.assumes[k] in d.assumes;
          return done;
        }
      }
      return Success(());
    }

    method WriteLives() returns (r: Result<()>)
      requires Done(|d.outputs|, |d.asserts|, |d.assumes|, 0, 0)
      modifies `aigM, `aigA, `gates, `lits, `depth, `stack, `nextLoopCheck, `outputs, `latchin
      ensures r.Success? ==> Done(|d.outputs|, |d.asserts|, |d.assumes|, |d.lives|, 0)
      ensures r.Success? <==> ChecksHaveCones(d, d.lives)
    {
      for k := 0 to |d.lives|
        invariant Done(|d.outputs|, |d.asserts|, |d.assumes|, k, 0)
        invariant forall j :: 0 <= j < k ==> HasCone(d, d.lives[j].a) && HasCone(d, d.lives[j].en)
      {
        var done := WriteLive(k);
        if done.Failure? {
          assert d.lives[k] in d.lives;
          return done;
        }
      }
      return Success(());
    }

    method WriteFairs() returns (r: Result<()>)
      requires Done(|d.outputs|, |d.asserts|, |d.assumes|, |d.lives|, 0)
      modifies `aigM, `aigA, `gates, `lits, `depth, `stack, `nextLoopCheck, `outputs, `latchin
      ensures r.Success? ==> Done(|d.outputs|, |d.asserts|, |d.assumes|, |d.lives|, |d.fairs|)
      ensures r.Success? <==> ChecksHaveCones(d, d.fairs)
    {
      for k := 0 to |d.fairs|
        invariant Done(|d.outputs|, |d.asserts|, |d.assumes|, |d.lives|, k)
        invariant forall j :: 0 <= j < k ==> HasCone(d, d.fairs[j].a) && HasCone(d, d.fairs[j].en)
      {
        var done := WriteFair(k);
        if done.Failure? {
          assert d.fairs[k] in d.fairs;
          return done;
        }
      }
      return Success(());
    }

    /** The whole translation: it succeeds exactly when everything the file must contain has a finite,
        fully driven cone, and then the graph is the translation of the design. */
    method Compile() returns (r: Result<()>)
      requires Fresh()
      modifies this
      ensures r.Success? <==> Compilable(d)
      ensures r.Success? ==> Written(d, zinit, Graph(), lits) && Sound(d, Base(d, zinit), gates, lits, depth, InitLiteral(d, zinit))
    {
      Prepare();
      var _ :- WriteLatches();
      r := WriteSections();
      if r.Success? {
        Finished();
      }
    }

    lemma Finished()
      requires Done(|d.outputs|, |d.asserts|, |d.assumes|, |d.lives|, |d.fairs|)
      requires |latchinit| == LatchCount(d, zinit) && Resets(d, latchinit)
      ensures Written(d, zinit, Graph(), lits) && Sound(d, Base(d, zinit), gates, lits, depth, InitLiteral(d, zinit))
    {
    }
  }
}
