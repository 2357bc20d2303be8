/** Where things stand in the written file, by position: inputs, latches, resets and the sections of the
    outputs. */
module AigerSections {
  import opened AigDesign
  import opened AigGraph
  import opened AigerLayout
  import opened AigerMonitors
  import opened AigerMeaning
  import opened AigerRuns

  /** The flip-flops without an initial value, among the first `n`. */
  function Uninitialised(d: Design, n: nat): set<nat>
    requires n <= |d.ffs|
  {
    set k: nat | k < n && d.ffs[k].q !in d.init
  }

  lemma {:induction false} UninitCount(d: Design, n: nat)
    requires n <= |d.ffs|
    ensures Uninit(d, n) == |Uninitialised(d, n)|
  {
    if n == 0 {
      assert Uninitialised(d, n) == {};
    } else {
      UninitCount(d, n - 1);
      var before := Uninitialised(d, n - 1);
      assert Uninitialised(d, n) == if d.ffs[n - 1].q in d.init then before else before + {n - 1};
    }
  }

  /** One input for each of the design, with zero initialisation one for each flip-flop without an initial
      value, and one for each liveness property; one latch for each flip-flop, one to mark the first cycle
      where that is asked for, two for each liveness and one for each fairness property. */
  lemma SizesExact(d: Design, zinit: bool, g: Aig, lits: map<Bit, Literal>)
    requires Written(d, zinit, g, lits)
    ensures var open := if zinit then |Uninitialised(d, |d.ffs|)| else 0;
            && g.inputs == |d.inputs| + open + |d.lives|
            && g.latches == |d.ffs| + (if d.initstate != {} || open > 0 then 1 else 0) + 2 * |d.lives| + |d.fairs|
    ensures |g.outs| == |d.outputs| + |d.asserts| + |d.assumes| + |d.lives| + |d.fairs|
  {
    UninitCount(d, |d.ffs|);
  }

  /** The reset of a latch: its initial value, 2 for none; the latches of the writer start at zero. */
  lemma ResetExact(d: Design, zinit: bool, g: Aig, lits: map<Bit, Literal>, k: nat)
    requires Written(d, zinit, g, lits) && k < g.latches
    ensures k >= |d.ffs| ==> g.reset[k] == 0
    ensures k < |d.ffs| ==> g.reset[k] == if d.ffs[k].q !in d.init then 2 else if d.init[d.ffs[k].q] then 1 else 0
  {
    assert g.reset[k] == ResetOf(d, k);
  }

  /** Input `k` of the file is input `k` of the design. */
  lemma InputExact(d: Design, zinit: bool, g: Aig, lits: map<Bit, Literal>, ins: Words, latches: Words, t: nat, k: nat)
    requires Written(d, zinit, g, lits) && Shaped(g, ins, latches) && k < |d.inputs|
    ensures k < |ins(t)| && RunOf(g, lits, ins, latches)(t)(d.inputs[k]) == ins(t)[k]
  {
    InputValue(g, ins(t), latches(t), k);
  }

  /** The file holds the outputs of the design first. */
  lemma OutputExact(d: Design, zinit: bool, g: Aig, lits: map<Bit, Literal>, ins: Words, latches: Words, t: nat, k: nat)
    requires Written(d, zinit, g, lits) && Shaped(g, ins, latches) && k < |d.outputs|
    ensures k < |g.outs| && Output(g, ins, latches, k)(t) == RunOf(g, lits, ins, latches)(t)(d.outputs[k])
  {
    assert OutputOk(d, lits, g.outs, k);
  }

  /** Then one bad bit for each assertion: it is enabled and does not hold. */
  lemma BadExact(d: Design, zinit: bool, g: Aig, lits: map<Bit, Literal>, depth: map<Bit, nat>, ins: Words, latches: Words,
                 t: nat, k: nat)
    requires Compiled(d, zinit, g, lits, depth) && Shaped(g, ins, latches) && k < |d.asserts|
    ensures var run, at := RunOf(g, lits, ins, latches), |d.outputs| + k;
            && at < |g.outs|
            && Output(g, ins, latches, at)(t) == (run(t)(d.asserts[k].en) && !run(t)(d.asserts[k].a))
  {
    BadValue(d, zinit, g, lits, depth, ins(t), latches(t), k);
  }

  /** Then one constraint for each assumption: it holds where it is enabled. */
  lemma ConstraintExact(d: Design, zinit: bool, g: Aig, lits: map<Bit, Literal>, depth: map<Bit, nat>, ins: Words,
                        latches: Words, t: nat, k: nat)
    requires Compiled(d, zinit, g, lits, depth) && Shaped(g, ins, latches) && k < |d.assumes|
    ensures var run, at := RunOf(g, lits, ins, latches), |d.outputs| + |d.asserts| + k;
            && at < |g.outs|
            && Output(g, ins, latches, at)(t) == (run(t)(d.assumes[k].en) ==> run(t)(d.assumes[k].a))
  {
    ConstraintValue(d, zinit, g, lits, depth, ins(t), latches(t), k);
  }

  /** Bit `i` of the file holds in cycle `t`. */
  ghost predicate HoldsBit(g: Aig, ins: Words, latches: Words, t: nat, i: nat)
    requires Shaped(g, ins, latches)
  {
    i < |g.outs| && LitValue(Cycle(g, ins(t), latches(t)), g.outs[i])
  }

  /** A check is violated. */
  ghost predicate Fails(run: nat -> Bit -> bool, t: nat, check: Check) {
    run(t)(check.en) && !run(t)(check.a)
  }

  /** The constraint of assumption `k`. */
  ghost predicate HoldsConstraint(d: Design, g: Aig, ins: Words, latches: Words, t: nat, k: nat)
    requires Shaped(g, ins, latches)
  {
    HoldsBit(g, ins, latches, t, |d.outputs| + |d.asserts| + k)
  }

  ghost predicate KeepsConstraints(d: Design, g: Aig, ins: Words, latches: Words, t: nat)
    requires Shaped(g, ins, latches)
  {
    forall u: nat, k: nat :: u <= t && k < |d.assumes| ==> HoldsConstraint(d, g, ins, latches, u, k)
  }

  ghost predicate KeepsAssumes(d: Design, run: nat -> Bit -> bool, t: nat) {
    forall u: nat, k: nat :: u <= t && k < |d.assumes| ==> !Fails(run, u, d.assumes[k])
  }

  /** By position: the file has a counterexample to bad bit `k`, all constraints kept up to then, exactly in
      the runs in which the design violates assertion `k` with all assumptions kept. */
  lemma CounterexampleExact(d: Design, zinit: bool, g: Aig, lits: map<Bit, Literal>, depth: map<Bit, nat>, ins: Words,
                            latches: Words, t: nat, k: nat)
    requires Compiled(d, zinit, g, lits, depth) && IsAigRun(g, zinit, ins, latches) && k < |d.asserts|
    ensures var run := RunOf(g, lits, ins, latches);
            && IsRun(d, lits.Keys, run)
            && (KeepsConstraints(d, g, ins, latches, t) && HoldsBit(g, ins, latches, t, |d.outputs| + k)
                <==> KeepsAssumes(d, run, t) && Fails(run, t, d.asserts[k]))
  {
    var run := RunOf(g, lits, ins, latches);
    GraphRunsAreDesignRuns(d, zinit, g, lits, depth, ins, latches);
    BadExact(d, zinit, g, lits, depth, ins, latches, t, k);
    forall u: nat, j: nat | u <= t && j < |d.assumes|
      ensures HoldsConstraint(d, g, ins, latches, u, j) <==> !Fails(run, u, d.assumes[j])
    {
      ConstraintExact(d, zinit, g, lits, depth, ins, latches, u, j);
    }
    if KeepsConstraints(d, g, ins, latches, t) {
      forall u: nat, j: nat | u <= t && j < |d.assumes|
        ensures !Fails(run, u, d.assumes[j])
      {
        assert HoldsConstraint(d, g, ins, latches, u, j);
      }
    }
    if KeepsAssumes(d, run, t) {
      forall u: nat, j: nat | u <= t && j < |d.assumes|
        ensures HoldsConstraint(d, g, ins, latches, u, j)
      {
        assert !Fails(run, u, d.assumes[j]);
      }
    }
  }

  /** Some cycle in which the check is enabled is not followed, then or later, by one in which it holds. */
  ghost predicate Waits(run: nat -> Bit -> bool, check: Check) {
    exists p: nat :: run(p)(check.en) && forall u: nat :: u >= p ==> !run(u)(check.a)
  }

  lemma StarvedMeans(run: nat -> Bit -> bool, check: Check)
    ensures Starved(Along(run, check.en), Along(run, check.a)) <==> Waits(run, check)
  {
    if Starved(Along(run, check.en), Along(run, check.a)) {
      var p: nat :| Along(run, check.en)(p) && NeverFrom(Along(run, check.a), p);
      forall u: nat | u >= p
        ensures !run(u)(check.a)
      {
        assert !Along(run, check.a)(u);
      }
    }
    if p: nat :| run(p)(check.en) && forall u: nat :: u >= p ==> !run(u)(check.a) {
      assert Along(run, check.en)(p) && NeverFrom(Along(run, check.a), p);
    }
  }

  /** Bit `i` of the file holds infinitely often. */
  ghost predicate RecursBit(g: Aig, ins: Words, latches: Words, i: nat)
    requires Shaped(g, ins, latches)
  {
    i < |g.outs| && InfinitelyOften(Output(g, ins, latches, i))
  }

  /** Then one justice bit for each liveness property: it recurs only in runs that keep it waiting. */
  lemma JusticeExact(d: Design, zinit: bool, g: Aig, lits: map<Bit, Literal>, depth: map<Bit, nat>, ins: Words,
                     latches: Words, k: nat)
    requires Compiled(d, zinit, g, lits, depth) && IsAigRun(g, zinit, ins, latches) && k < |d.lives|
    requires RecursBit(g, ins, latches, |d.outputs| + |d.asserts| + |d.assumes| + k)
    ensures Waits(RunOf(g, lits, ins, latches), d.lives[k])
  {
    JusticeStarved(d, zinit, g, lits, depth, ins, latches, k);
    StarvedMeans(RunOf(g, lits, ins, latches), d.lives[k]);
  }

  /** Last, one bit for each fairness property: it recurs exactly in the runs that do not keep it waiting. */
  lemma FairnessExact(d: Design, zinit: bool, g: Aig, lits: map<Bit, Literal>, depth: map<Bit, nat>, ins: Words,
                      latches: Words, k: nat)
    requires Compiled(d, zinit, g, lits, depth) && IsAigRun(g, zinit, ins, latches) && k < |d.fairs|
    ensures RecursBit(g, ins, latches, |d.outputs| + |d.asserts| + |d.assumes| + |d.lives| + k)
       <==> !Waits(RunOf(g, lits, ins, latches), d.fairs[k])
  {
    RecursIffFair(d, zinit, g, lits, depth, ins, latches, k);
    StarvedMeans(RunOf(g, lits, ins, latches), d.fairs[k]);
  }
}
