/** Trace equivalence and the meaning of the properties in the file. */
module AigerRuns {
  import opened AigDesign
  import opened AigGraph
  import opened AigerBits
  import opened AigerLayout
  import opened AigerMonitors
  import opened AigerMeaning

  // ---------------------------------------------------------------------------------------------
  // Every run of the design is a run of the graph

  lemma StartsFollow(d: Design, zinit: bool, g: Aig, lits: map<Bit, Literal>, depth: map<Bit, nat>,
                     run: nat -> Bit -> bool, picks: nat -> Stream, k: nat)
    requires Compiled(d, zinit, g, lits, depth) && IsRun(d, lits.Keys, run) && k < g.latches
    ensures Starts(g, zinit, Latches(d, zinit, run, picks)(0), k)
  {
    LatchesAt(d, zinit, run, picks, 0, k);
    assert k < |d.ffs| ==> Initialised(d, run(0), k);
    assert g.reset[k] == ResetOf(d, k);
  }

  lemma FlipFlopSteps(d: Design, zinit: bool, g: Aig, lits: map<Bit, Literal>, depth: map<Bit, nat>,
                      run: nat -> Bit -> bool, picks: nat -> Stream, t: nat, k: nat)
    requires Compiled(d, zinit, g, lits, depth) && IsRun(d, lits.Keys, run) && k < |d.ffs|
    ensures Latches(d, zinit, run, picks)(t + 1)[k]
         == LitValue(Cycle(g, Inputs(d, zinit, run, picks)(t), Latches(d, zinit, run, picks)(t)), g.next[k])
  {
    LatchesAt(d, zinit, run, picks, t + 1, k);
    assert Advances(d, run, t, k);
    assert LatchWired(d, zinit, lits, g.next, k);
    Follows(d, zinit, g, lits, depth, run, picks, t, d.ffs[k].d);
    NegValue(Cycle(g, Inputs(d, zinit, run, picks)(t), Latches(d, zinit, run, picks)(t)), lits[d.ffs[k].d]);
  }

  lemma ReadFollows(d: Design, zinit: bool, g: Aig, lits: map<Bit, Literal>, depth: map<Bit, nat>,
                    run: nat -> Bit -> bool, picks: nat -> Stream, t: nat, check: Check)
    requires Compiled(d, zinit, g, lits, depth) && IsRun(d, lits.Keys, run) && check.a in lits && check.en in lits
    ensures var v := Cycle(g, Inputs(d, zinit, run, picks)(t), Latches(d, zinit, run, picks)(t));
            Read(lits, v)(check.a) == run(t)(check.a) && Read(lits, v)(check.en) == run(t)(check.en)
  {
    Follows(d, zinit, g, lits, depth, run, picks, t, check.a);
    Follows(d, zinit, g, lits, depth, run, picks, t, check.en);
  }

  lemma LiveTranslated(d: Design, zinit: bool, g: Aig, lits: map<Bit, Literal>, j: nat)
    requires Written(d, zinit, g, lits) && j < |d.lives|
    ensures d.lives[j].a in lits && d.lives[j].en in lits
  {
    assert LiveOk(d, zinit, g.gates, lits, g.next, g.outs, j);
  }

  lemma PickAt(d: Design, zinit: bool, run: nat -> Bit -> bool, picks: nat -> Stream, t: nat, j: nat)
    requires j < |d.lives|
    ensures |Inputs(d, zinit, run, picks)(t)| == InputCount(d, zinit)
    ensures Inputs(d, zinit, run, picks)(t)[|d.inputs| + ExtraInputs(d, zinit) + j] == picks(j)(t)
  {
    InputsAt(d, zinit, run, picks, t, |d.inputs| + ExtraInputs(d, zinit) + j);
  }

  lemma LiveNextValues(d: Design, zinit: bool, g: Aig, lits: map<Bit, Literal>, depth: map<Bit, nat>,
                       run: nat -> Bit -> bool, picks: nat -> Stream, t: nat, j: nat)
    requires Compiled(d, zinit, g, lits, depth) && IsRun(d, lits.Keys, run) && j < |d.lives|
    ensures var w := MonitorStart(d, zinit) + 2 * j;
            var latches := Latches(d, zinit, run, picks)(t);
            var v := Cycle(g, Inputs(d, zinit, run, picks)(t), latches);
            && LitValue(v, g.next[w]) == ((picks(j)(t) && run(t)(d.lives[j].en)) || latches[w])
            && LitValue(v, g.next[w + 1]) == ((LitValue(v, g.next[w]) && run(t)(d.lives[j].a)) || latches[w + 1])
  {
    LiveTranslated(d, zinit, g, lits, j);
    ReadFollows(d, zinit, g, lits, depth, run, picks, t, d.lives[j]);
    PickAt(d, zinit, run, picks, t, j);
    LiveValue(d, zinit, g, lits, depth, Inputs(d, zinit, run, picks)(t), Latches(d, zinit, run, picks)(t), j);
  }

  lemma LiveLatchesStep(d: Design, zinit: bool, run: nat -> Bit -> bool, picks: nat -> Stream, t: nat, j: nat)
    requires j < |d.lives|
    ensures |Latches(d, zinit, run, picks)(t)| == LatchCount(d, zinit) == |Latches(d, zinit, run, picks)(t + 1)|
    ensures var w := MonitorStart(d, zinit) + 2 * j;
            var now, after := Latches(d, zinit, run, picks)(t), Latches(d, zinit, run, picks)(t + 1);
            && after[w] == ((picks(j)(t) && run(t)(d.lives[j].en)) || now[w])
            && after[w + 1] == ((after[w] && run(t)(d.lives[j].a)) || now[w + 1])
  {
    LiveLatches(d, zinit, run, picks, t, j);
    LiveLatches(d, zinit, run, picks, t + 1, j);
  }

  /** The step of latch `k` in the constructed run. */
  ghost predicate StepFollows(d: Design, zinit: bool, g: Aig, run: nat -> Bit -> bool, picks: nat -> Stream, t: nat, k: nat)
    requires Ordered(g.inputs + g.latches, g.gates)
    requires g.inputs == InputCount(d, zinit) && g.latches == LatchCount(d, zinit) == |g.next| && k < g.latches
  {
    Latches(d, zinit, run, picks)(t + 1)[k]
      == LitValue(Cycle(g, Inputs(d, zinit, run, picks)(t), Latches(d, zinit, run, picks)(t)), g.next[k])
  }

  lemma LiveSteps(d: Design, zinit: bool, g: Aig, lits: map<Bit, Literal>, depth: map<Bit, nat>,
                  run: nat -> Bit -> bool, picks: nat -> Stream, t: nat, j: nat)
    requires Compiled(d, zinit, g, lits, depth) && IsRun(d, lits.Keys, run) && j < |d.lives|
    ensures var w := MonitorStart(d, zinit) + 2 * j;
            StepFollows(d, zinit, g, run, picks, t, w) && StepFollows(d, zinit, g, run, picks, t, w + 1)
  {
    LiveNextValues(d, zinit, g, lits, depth, run, picks, t, j);
    LiveLatchesStep(d, zinit, run, picks, t, j);
  }

  lemma MonitorAt(d: Design, zinit: bool, run: nat -> Bit -> bool, picks: nat -> Stream, t: nat, w: nat)
    requires w < 2 * |d.lives| + |d.fairs|
    ensures |Latches(d, zinit, run, picks)(t)| == LatchCount(d, zinit)
    ensures Latches(d, zinit, run, picks)(t)[MonitorStart(d, zinit) + w] == MonitorOf(d, run, picks, t, w)
  {
    LatchesAt(d, zinit, run, picks, t, MonitorStart(d, zinit) + w);
  }

  lemma LiveLatches(d: Design, zinit: bool, run: nat -> Bit -> bool, picks: nat -> Stream, t: nat, j: nat)
    requires j < |d.lives|
    ensures |Latches(d, zinit, run, picks)(t)| == LatchCount(d, zinit)
    ensures var w, en, a := MonitorStart(d, zinit) + 2 * j, Along(run, d.lives[j].en), Along(run, d.lives[j].a);
            && Latches(d, zinit, run, picks)(t)[w] == LiveQ1(en, picks(j), t)
            && Latches(d, zinit, run, picks)(t)[w + 1] == LiveQ2(en, a, picks(j), t)
  {
    MonitorAt(d, zinit, run, picks, t, 2 * j);
    MonitorAt(d, zinit, run, picks, t, 2 * j + 1);
    assert (2 * j) / 2 == j && (2 * j + 1) / 2 == j;
  }

  lemma FairLatches(d: Design, zinit: bool, run: nat -> Bit -> bool, picks: nat -> Stream, t: nat, k: nat)
    requires k < |d.fairs|
    ensures |Latches(d, zinit, run, picks)(t)| == LatchCount(d, zinit)
    ensures Latches(d, zinit, run, picks)(t)[MonitorStart(d, zinit) + 2 * |d.lives| + k]
         == FairQ(Along(run, d.fairs[k].en), Along(run, d.fairs[k].a), t)
  {
    MonitorAt(d, zinit, run, picks, t, 2 * |d.lives| + k);
  }

  lemma FairSteps(d: Design, zinit: bool, g: Aig, lits: map<Bit, Literal>, depth: map<Bit, nat>,
                  run: nat -> Bit -> bool, picks: nat -> Stream, t: nat, k: nat)
    requires Compiled(d, zinit, g, lits, depth) && IsRun(d, lits.Keys, run) && k < |d.fairs|
    ensures var w := MonitorStart(d, zinit) + 2 * |d.lives| + k;
            Latches(d, zinit, run, picks)(t + 1)[w]
              == LitValue(Cycle(g, Inputs(d, zinit, run, picks)(t), Latches(d, zinit, run, picks)(t)), g.next[w])
  {
    assert FairOk(d, zinit, g.gates, lits, g.next, g.outs, k);
    ReadFollows(d, zinit, g, lits, depth, run, picks, t, d.fairs[k]);
    FairValue(d, zinit, g, lits, depth, Inputs(d, zinit, run, picks)(t), Latches(d, zinit, run, picks)(t), k);
    FairLatches(d, zinit, run, picks, t, k);
    FairLatches(d, zinit, run, picks, t + 1, k);
  }

  lemma MarkerSteps(d: Design, zinit: bool, g: Aig, lits: map<Bit, Literal>, depth: map<Bit, nat>,
                    run: nat -> Bit -> bool, picks: nat -> Stream, t: nat, k: nat)
    requires Compiled(d, zinit, g, lits, depth) && |d.ffs| <= k < MonitorStart(d, zinit)
    ensures Latches(d, zinit, run, picks)(t + 1)[k]
         == LitValue(Cycle(g, Inputs(d, zinit, run, picks)(t), Latches(d, zinit, run, picks)(t)), g.next[k])
  {
    LatchesAt(d, zinit, run, picks, t + 1, k);
    ConstantValue(g, Inputs(d, zinit, run, picks)(t), Latches(d, zinit, run, picks)(t));
  }

  lemma HalfOf(w: nat) returns (j: nat, odd: nat)
    ensures w == 2 * j + odd && odd < 2
  {
    j, odd := w / 2, w % 2;
  }

  lemma MonitorSteps(d: Design, zinit: bool, g: Aig, lits: map<Bit, Literal>, depth: map<Bit, nat>,
                     run: nat -> Bit -> bool, picks: nat -> Stream, t: nat, w: nat)
    requires Compiled(d, zinit, g, lits, depth) && IsRun(d, lits.Keys, run) && w < 2 * |d.lives| + |d.fairs|
    ensures StepFollows(d, zinit, g, run, picks, t, MonitorStart(d, zinit) + w)
  {
    if w >= 2 * |d.lives| {
      FairFollows(d, zinit, g, lits, depth, run, picks, t, w - 2 * |d.lives|);
    } else {
      var j, odd := HalfOf(w);
      LiveFollows(d, zinit, g, lits, depth, run, picks, t, j, MonitorStart(d, zinit) + w);
    }
  }

  lemma FairFollows(d: Design, zinit: bool, g: Aig, lits: map<Bit, Literal>, depth: map<Bit, nat>,
                    run: nat -> Bit -> bool, picks: nat -> Stream, t: nat, k: nat)
    requires Compiled(d, zinit, g, lits, depth) && IsRun(d, lits.Keys, run) && k < |d.fairs|
    ensures StepFollows(d, zinit, g, run, picks, t, MonitorStart(d, zinit) + (2 * |d.lives| + k))
  {
    FairSteps(d, zinit, g, lits, depth, run, picks, t, k);
  }

  lemma CompiledSizes(d: Design, zinit: bool, g: Aig, lits: map<Bit, Literal>, depth: map<Bit, nat>)
    requires Compiled(d, zinit, g, lits, depth)
    ensures Ordered(g.inputs + g.latches, g.gates) && g.inputs == InputCount(d, zinit)
    ensures g.latches == LatchCount(d, zinit) == |g.next|
  {
  }

  lemma LiveFollows(d: Design, zinit: bool, g: Aig, lits: map<Bit, Literal>, depth: map<Bit, nat>,
                    run: nat -> Bit -> bool, picks: nat -> Stream, t: nat, j: nat, k: nat)
    requires Compiled(d, zinit, g, lits, depth) && IsRun(d, lits.Keys, run) && j < |d.lives|
    requires k == MonitorStart(d, zinit) + 2 * j || k == MonitorStart(d, zinit) + 2 * j + 1
    ensures StepFollows(d, zinit, g, run, picks, t, k)
  {
    CompiledSizes(d, zinit, g, lits, depth);
    var w := MonitorStart(d, zinit) + 2 * j;
    LiveSteps(d, zinit, g, lits, depth, run, picks, t, j);
    if k == w {
      assert StepFollows(d, zinit, g, run, picks, t, w);
    } else {
      EitherFollows(d, zinit, g, run, picks, t, w, k);
    }
  }

  lemma EitherFollows(d: Design, zinit: bool, g: Aig, run: nat -> Bit -> bool, picks: nat -> Stream, t: nat, w: nat, k: nat)
    requires Ordered(g.inputs + g.latches, g.gates) && g.inputs == InputCount(d, zinit)
    requires g.latches == LatchCount(d, zinit) == |g.next| && w + 1 < g.latches && (k == w || k == w + 1)
    requires StepFollows(d, zinit, g, run, picks, t, w) && StepFollows(d, zinit, g, run, picks, t, w + 1)
    ensures StepFollows(d, zinit, g, run, picks, t, k)
  {
  }

  lemma AllSteps(d: Design, zinit: bool, g: Aig, lits: map<Bit, Literal>, depth: map<Bit, nat>,
                 run: nat -> Bit -> bool, picks: nat -> Stream, t: nat, k: nat)
    requires Compiled(d, zinit, g, lits, depth) && IsRun(d, lits.Keys, run) && k < LatchCount(d, zinit)
    ensures StepFollows(d, zinit, g, run, picks, t, k)
  {
    if k < |d.ffs| {
      FlipFlopSteps(d, zinit, g, lits, depth, run, picks, t, k);
    } else if k < MonitorStart(d, zinit) {
      MarkerSteps(d, zinit, g, lits, depth, run, picks, t, k);
    } else {
      MonitorSteps(d, zinit, g, lits, depth, run, picks, t, k - MonitorStart(d, zinit));
    }
  }

  /** The constructed words are a run of the graph. */
  lemma ConstructedRun(d: Design, zinit: bool, g: Aig, lits: map<Bit, Literal>, depth: map<Bit, nat>,
                       run: nat -> Bit -> bool, picks: nat -> Stream)
    requires Compiled(d, zinit, g, lits, depth) && IsRun(d, lits.Keys, run)
    ensures IsAigRun(g, zinit, Inputs(d, zinit, run, picks), Latches(d, zinit, run, picks))
  {
    var ins, latches := Inputs(d, zinit, run, picks), Latches(d, zinit, run, picks);
    forall k: nat | k < g.latches
      ensures Starts(g, zinit, latches(0), k)
    {
      StartsFollow(d, zinit, g, lits, depth, run, picks, k);
    }
    assert Shaped(g, ins, latches);
    forall t: nat, k: nat | k < g.latches
      ensures Steps(g, ins, latches, t, k)
    {
      AllSteps(d, zinit, g, lits, depth, run, picks, t, k);
      assert StepFollows(d, zinit, g, run, picks, t, k);
    }
  }

  /** Read through the literals, the graph's run has the values of `run` on every translated bit. */
  ghost predicate Tracks(g: Aig, lits: map<Bit, Literal>, ins: Words, latches: Words, run: nat -> Bit -> bool)
    requires Shaped(g, ins, latches)
  {
    forall t: nat, b :: b in lits ==> RunOf(g, lits, ins, latches)(t)(b) == run(t)(b)
  }

  predicate ChosenAt(d: Design, zinit: bool, ins: Words, picks: nat -> Stream, t: nat, j: nat) {
    var i := |d.inputs| + ExtraInputs(d, zinit) + j;
    i < |ins(t)| && ins(t)[i] == picks(j)(t)
  }

  /** The free inputs of the liveness properties take the values of `picks`. */
  ghost predicate Chosen(d: Design, zinit: bool, ins: Words, picks: nat -> Stream) {
    forall t: nat, j: nat :: j < |d.lives| ==> ChosenAt(d, zinit, ins, picks, t, j)
  }

  lemma ConstructedInputs(d: Design, zinit: bool, run: nat -> Bit -> bool, picks: nat -> Stream)
    ensures Chosen(d, zinit, Inputs(d, zinit, run, picks), picks)
  {
    forall t: nat, j: nat | j < |d.lives|
      ensures ChosenAt(d, zinit, Inputs(d, zinit, run, picks), picks, t, j)
    {
      PickAt(d, zinit, run, picks, t, j);
    }
  }

  lemma ConstructedValues(d: Design, zinit: bool, g: Aig, lits: map<Bit, Literal>, depth: map<Bit, nat>,
                          run: nat -> Bit -> bool, picks: nat -> Stream)
    requires Compiled(d, zinit, g, lits, depth) && IsRun(d, lits.Keys, run)
    requires Shaped(g, Inputs(d, zinit, run, picks), Latches(d, zinit, run, picks))
    ensures Tracks(g, lits, Inputs(d, zinit, run, picks), Latches(d, zinit, run, picks), run)
  {
    forall t: nat, b | b in lits
      ensures RunOf(g, lits, Inputs(d, zinit, run, picks), Latches(d, zinit, run, picks))(t)(b) == run(t)(b)
    {
      Follows(d, zinit, g, lits, depth, run, picks, t, b);
    }
  }

  /** For every run of the design and every choice of the liveness inputs the graph has a run in which
      every translated literal has the value of its bit in every cycle. */
  lemma DesignRunsAreGraphRuns(d: Design, zinit: bool, g: Aig, lits: map<Bit, Literal>, depth: map<Bit, nat>,
                               run: nat -> Bit -> bool, picks: nat -> Stream)
    returns (ins: Words, latches: Words)
    requires Compiled(d, zinit, g, lits, depth) && IsRun(d, lits.Keys, run)
    ensures IsAigRun(g, zinit, ins, latches) && Tracks(g, lits, ins, latches, run) && Chosen(d, zinit, ins, picks)
  {
    ins, latches := Inputs(d, zinit, run, picks), Latches(d, zinit, run, picks);
    ConstructedRun(d, zinit, g, lits, depth, run, picks);
    ConstructedValues(d, zinit, g, lits, depth, run, picks);
    ConstructedInputs(d, zinit, run, picks);
  }

  // ---------------------------------------------------------------------------------------------
  // Safety

  /** The output of the file at position `i`, over time. */
  ghost function Output(g: Aig, ins: Words, latches: Words, i: nat): Stream
    requires Shaped(g, ins, latches) && i < |g.outs|
  {
    (t: nat) => LitValue(Cycle(g, ins(t), latches(t)), g.outs[i])
  }

  ghost predicate Violated(check: Check, values: Bit -> bool) {
    values(check.en) && !values(check.a)
  }

  /** All assumptions hold in every cycle up to `t`. */
  ghost predicate AssumesHold(d: Design, run: nat -> Bit -> bool, t: nat) {
    forall u: nat, k: nat :: u <= t && k < |d.assumes| ==> !Violated(d.assumes[k], run(u))
  }

  /** The constraint output of assumption `k` in cycle `t`. */
  ghost predicate ConstraintAt(d: Design, g: Aig, ins: Words, latches: Words, t: nat, k: nat)
    requires Shaped(g, ins, latches) && |g.outs| == FairStart(d) + |d.fairs| && k < |d.assumes|
  {
    Output(g, ins, latches, ConstraintStart(d) + k)(t)
  }

  ghost predicate ConstraintsHold(d: Design, g: Aig, ins: Words, latches: Words, t: nat)
    requires Shaped(g, ins, latches) && |g.outs| == FairStart(d) + |d.fairs|
  {
    forall u: nat, k: nat :: u <= t && k < |d.assumes| ==> ConstraintAt(d, g, ins, latches, u, k)
  }

  lemma BadMeaning(d: Design, zinit: bool, g: Aig, lits: map<Bit, Literal>, depth: map<Bit, nat>, ins: Words,
                   latches: Words, t: nat, k: nat)
    requires Compiled(d, zinit, g, lits, depth) && IsAigRun(g, zinit, ins, latches) && k < |d.asserts|
    ensures Output(g, ins, latches, BadStart(d) + k)(t) == Violated(d.asserts[k], RunOf(g, lits, ins, latches)(t))
  {
    BadValue(d, zinit, g, lits, depth, ins(t), latches(t), k);
  }

  lemma ConstraintMeaning(d: Design, zinit: bool, g: Aig, lits: map<Bit, Literal>, depth: map<Bit, nat>, ins: Words,
                          latches: Words, t: nat, k: nat)
    requires Compiled(d, zinit, g, lits, depth) && IsAigRun(g, zinit, ins, latches) && k < |d.assumes|
    ensures ConstraintAt(d, g, ins, latches, t, k) == !Violated(d.assumes[k], RunOf(g, lits, ins, latches)(t))
  {
    ConstraintValue(d, zinit, g, lits, depth, ins(t), latches(t), k);
  }

  lemma ConstraintsMeaning(d: Design, zinit: bool, g: Aig, lits: map<Bit, Literal>, depth: map<Bit, nat>, ins: Words,
                           latches: Words, t: nat)
    requires Compiled(d, zinit, g, lits, depth) && IsAigRun(g, zinit, ins, latches)
    ensures ConstraintsHold(d, g, ins, latches, t) <==> AssumesHold(d, RunOf(g, lits, ins, latches), t)
  {
    var run := RunOf(g, lits, ins, latches);
    forall u: nat, k: nat | u <= t && k < |d.assumes|
      ensures ConstraintAt(d, g, ins, latches, u, k) == !Violated(d.assumes[k], run(u))
    {
      ConstraintMeaning(d, zinit, g, lits, depth, ins, latches, u, k);
    }
    if ConstraintsHold(d, g, ins, latches, t) {
      forall u: nat, k: nat | u <= t && k < |d.assumes|
        ensures !Violated(d.assumes[k], run(u))
      {
        assert ConstraintAt(d, g, ins, latches, u, k);
      }
    }
  }

  /** A counterexample of the file is one of the design: the assertion fails in a run that keeps the
      assumptions up to then. */
  lemma BadIsViolation(d: Design, zinit: bool, g: Aig, lits: map<Bit, Literal>, depth: map<Bit, nat>, ins: Words,
                       latches: Words, t: nat, k: nat)
    requires Compiled(d, zinit, g, lits, depth) && IsAigRun(g, zinit, ins, latches) && k < |d.asserts|
    ensures var run := RunOf(g, lits, ins, latches);
            && IsRun(d, lits.Keys, run)
            && (ConstraintsHold(d, g, ins, latches, t) && Output(g, ins, latches, BadStart(d) + k)(t)
                <==> AssumesHold(d, run, t) && Violated(d.asserts[k], run(t)))
  {
    GraphRunsAreDesignRuns(d, zinit, g, lits, depth, ins, latches);
    BadMeaning(d, zinit, g, lits, depth, ins, latches, t, k);
    ConstraintsMeaning(d, zinit, g, lits, depth, ins, latches, t);
  }

  lemma CheckTranslated(d: Design, zinit: bool, g: Aig, lits: map<Bit, Literal>, check: Check)
    requires Written(d, zinit, g, lits)
    requires check in d.asserts || check in d.assumes || check in d.lives || check in d.fairs
    ensures check.a in lits && check.en in lits
  {
    if check in d.asserts {
      var k: nat :| k < |d.asserts| && d.asserts[k] == check;
      assert BadOk(d, Base(d, zinit), g.gates, lits, g.outs, k);
    } else if check in d.assumes {
      var k: nat :| k < |d.assumes| && d.assumes[k] == check;
      assert ConstraintOk(d, Base(d, zinit), g.gates, lits, g.outs, k);
    } else if check in d.lives {
      var k: nat :| k < |d.lives| && d.lives[k] == check;
      LiveTranslated(d, zinit, g, lits, k);
    } else {
      var k: nat :| k < |d.fairs| && d.fairs[k] == check;
      assert FairOk(d, zinit, g.gates, lits, g.next, g.outs, k);
    }
  }

  /** Runs that agree on every translated bit keep the same assumptions. */
  lemma SameAssumes(d: Design, zinit: bool, g: Aig, lits: map<Bit, Literal>, run: nat -> Bit -> bool,
                    same: nat -> Bit -> bool, t: nat)
    requires Written(d, zinit, g, lits) && AssumesHold(d, run, t)
    requires forall u: nat, b :: b in lits ==> same(u)(b) == run(u)(b)
    ensures AssumesHold(d, same, t)
  {
    forall u: nat, k: nat | u <= t && k < |d.assumes|
      ensures !Violated(d.assumes[k], same(u))
    {
      CheckTranslated(d, zinit, g, lits, d.assumes[k]);
      assert !Violated(d.assumes[k], run(u));
    }
  }

  /** Every violation of the design is found in the file. */
  lemma ViolationIsBad(d: Design, zinit: bool, g: Aig, lits: map<Bit, Literal>, depth: map<Bit, nat>,
                       run: nat -> Bit -> bool, t: nat, k: nat)
    returns (ins: Words, latches: Words)
    requires Compiled(d, zinit, g, lits, depth) && IsRun(d, lits.Keys, run) && k < |d.asserts|
    requires AssumesHold(d, run, t) && Violated(d.asserts[k], run(t))
    ensures IsAigRun(g, zinit, ins, latches) && Tracks(g, lits, ins, latches, run)
    ensures ConstraintsHold(d, g, ins, latches, t) && Output(g, ins, latches, BadStart(d) + k)(t)
  {
    ins, latches := DesignRunsAreGraphRuns(d, zinit, g, lits, depth, run, PickAll(0));
    BadMeaning(d, zinit, g, lits, depth, ins, latches, t, k);
    CheckTranslated(d, zinit, g, lits, d.asserts[k]);
    SameAssumes(d, zinit, g, lits, run, RunOf(g, lits, ins, latches), t);
    ConstraintsMeaning(d, zinit, g, lits, depth, ins, latches, t);
  }

  // ---------------------------------------------------------------------------------------------
  // Liveness and fairness

  ghost function LatchStream(latches: Words, k: nat): Stream {
    (t: nat) => k < |latches(t)| && latches(t)[k]
  }

  ghost function InputStream(ins: Words, i: nat): Stream {
    (t: nat) => i < |ins(t)| && ins(t)[i]
  }

  /** The monitor latches of property `j` are the liveness circuit over the streams of the design, and
      the justice output is its literal. */
  ghost predicate LiveMonitored(d: Design, zinit: bool, g: Aig, lits: map<Bit, Literal>, ins: Words, latches: Words, j: nat)
    requires Shaped(g, ins, latches) && j < |d.lives| && JusticeStart(d) + j < |g.outs|
  {
    var run, w := RunOf(g, lits, ins, latches), MonitorStart(d, zinit) + 2 * j;
    var q1, q2 := LatchStream(latches, w), LatchStream(latches, w + 1);
    && LiveCircuit(Along(run, d.lives[j].en), Along(run, d.lives[j].a),
                   InputStream(ins, |d.inputs| + ExtraInputs(d, zinit) + j), q1, q2)
    && forall t: nat :: Output(g, ins, latches, JusticeStart(d) + j)(t) == Justice(q1, q2)(t)
  }

  /** In any run of the file the monitor latches of property `j` are the liveness circuit over the
      streams of the design, and the justice output is its literal. */
  lemma LiveMeaning(d: Design, zinit: bool, g: Aig, lits: map<Bit, Literal>, depth: map<Bit, nat>, ins: Words,
                    latches: Words, j: nat)
    requires Compiled(d, zinit, g, lits, depth) && IsAigRun(g, zinit, ins, latches) && j < |d.lives|
    ensures LiveMonitored(d, zinit, g, lits, ins, latches, j)
  {
    var w := MonitorStart(d, zinit) + 2 * j;
    MonitorStarts(d, zinit, g, lits, depth, ins, latches, w);
    MonitorStarts(d, zinit, g, lits, depth, ins, latches, w + 1);
    forall t: nat
      ensures LiveStepAt(d, zinit, g, lits, ins, latches, j, t)
    {
      LiveStepHolds(d, zinit, g, lits, depth, ins, latches, j, t);
    }
    LiveFromSteps(d, zinit, g, lits, ins, latches, j);
  }

  lemma MonitorStarts(d: Design, zinit: bool, g: Aig, lits: map<Bit, Literal>, depth: map<Bit, nat>, ins: Words,
                      latches: Words, k: nat)
    requires Compiled(d, zinit, g, lits, depth) && IsAigRun(g, zinit, ins, latches) && |d.ffs| <= k < g.latches
    ensures !latches(0)[k]
  {
    assert Starts(g, zinit, latches(0), k);
    assert g.reset[k] == ResetOf(d, k);
  }

  /** One step of the circuit of property `j`. */
  ghost predicate LiveStepAt(d: Design, zinit: bool, g: Aig, lits: map<Bit, Literal>, ins: Words, latches: Words, j: nat, t: nat)
    requires Shaped(g, ins, latches) && j < |d.lives| && JusticeStart(d) + j < |g.outs|
  {
    var run, w := RunOf(g, lits, ins, latches), MonitorStart(d, zinit) + 2 * j;
    var q1, q2 := LatchStream(latches, w), LatchStream(latches, w + 1);
    && LiveStep(Along(run, d.lives[j].en), Along(run, d.lives[j].a),
                InputStream(ins, |d.inputs| + ExtraInputs(d, zinit) + j), q1, q2, t)
    && Output(g, ins, latches, JusticeStart(d) + j)(t) == (q1(t) && !q2(t))
  }

  lemma LiveStepHolds(d: Design, zinit: bool, g: Aig, lits: map<Bit, Literal>, depth: map<Bit, nat>, ins: Words,
                      latches: Words, j: nat, t: nat)
    requires Compiled(d, zinit, g, lits, depth) && IsAigRun(g, zinit, ins, latches) && j < |d.lives|
    ensures LiveStepAt(d, zinit, g, lits, ins, latches, j, t)
  {
    LiveWordsStep(d, zinit, g, lits, depth, ins, latches, j, t);
    WordsAreStreams(d, zinit, g, lits, ins, latches, j, t);
  }

  /** The step in terms of words is the step of the streams read from them. */
  lemma WordsAreStreams(d: Design, zinit: bool, g: Aig, lits: map<Bit, Literal>, ins: Words, latches: Words, j: nat, t: nat)
    requires Shaped(g, ins, latches) && j < |d.lives| && JusticeStart(d) + j < |g.outs|
    requires g.inputs == InputCount(d, zinit) && g.latches == LatchCount(d, zinit)
    requires var run, w := RunOf(g, lits, ins, latches), MonitorStart(d, zinit) + 2 * j;
             var now, after := latches(t), latches(t + 1);
             && after[w] == ((ins(t)[|d.inputs| + ExtraInputs(d, zinit) + j] && run(t)(d.lives[j].en)) || now[w])
             && after[w + 1] == ((after[w] && run(t)(d.lives[j].a)) || now[w + 1])
             && Output(g, ins, latches, JusticeStart(d) + j)(t) == (now[w] && !now[w + 1])
    ensures LiveStepAt(d, zinit, g, lits, ins, latches, j, t)
  {
  }

  lemma LiveWordsStep(d: Design, zinit: bool, g: Aig, lits: map<Bit, Literal>, depth: map<Bit, nat>, ins: Words,
                      latches: Words, j: nat, t: nat)
    requires Compiled(d, zinit, g, lits, depth) && IsAigRun(g, zinit, ins, latches) && j < |d.lives|
    ensures var run, w := RunOf(g, lits, ins, latches), MonitorStart(d, zinit) + 2 * j;
            var now, after := latches(t), latches(t + 1);
            && after[w] == ((ins(t)[|d.inputs| + ExtraInputs(d, zinit) + j] && run(t)(d.lives[j].en)) || now[w])
            && after[w + 1] == ((after[w] && run(t)(d.lives[j].a)) || now[w + 1])
            && JusticeStart(d) + j < |g.outs|
            && Output(g, ins, latches, JusticeStart(d) + j)(t) == (now[w] && !now[w + 1])
  {
    LiveValue(d, zinit, g, lits, depth, ins(t), latches(t), j);
    assert Steps(g, ins, latches, t, MonitorStart(d, zinit) + 2 * j);
    assert Steps(g, ins, latches, t, MonitorStart(d, zinit) + 2 * j + 1);
  }

  lemma LiveFromSteps(d: Design, zinit: bool, g: Aig, lits: map<Bit, Literal>, ins: Words, latches: Words, j: nat)
    requires Shaped(g, ins, latches) && j < |d.lives| && JusticeStart(d) + j < |g.outs|
    requires forall t: nat :: LiveStepAt(d, zinit, g, lits, ins, latches, j, t)
    requires var w := MonitorStart(d, zinit) + 2 * j; w + 1 < g.latches && !latches(0)[w] && !latches(0)[w + 1]
    ensures LiveMonitored(d, zinit, g, lits, ins, latches, j)
  {
    var run, w := RunOf(g, lits, ins, latches), MonitorStart(d, zinit) + 2 * j;
    var q1, q2 := LatchStream(latches, w), LatchStream(latches, w + 1);
    var s := InputStream(ins, |d.inputs| + ExtraInputs(d, zinit) + j);
    forall t: nat
      ensures LiveStep(Along(run, d.lives[j].en), Along(run, d.lives[j].a), s, q1, q2, t)
      ensures Output(g, ins, latches, JusticeStart(d) + j)(t) == Justice(q1, q2)(t)
    {
      assert LiveStepAt(d, zinit, g, lits, ins, latches, j, t);
    }
  }

  lemma FairMeaning(d: Design, zinit: bool, g: Aig, lits: map<Bit, Literal>, depth: map<Bit, nat>, ins: Words,
                    latches: Words, k: nat)
    requires Compiled(d, zinit, g, lits, depth) && IsAigRun(g, zinit, ins, latches) && k < |d.fairs|
    ensures var run, q := RunOf(g, lits, ins, latches), LatchStream(latches, MonitorStart(d, zinit) + 2 * |d.lives| + k);
            && FairCircuit(Along(run, d.fairs[k].en), Along(run, d.fairs[k].a), q)
            && forall t: nat :: Output(g, ins, latches, FairStart(d) + k)(t) == Idle(q)(t)
  {
    var w := MonitorStart(d, zinit) + 2 * |d.lives| + k;
    var run, q := RunOf(g, lits, ins, latches), LatchStream(latches, w);
    MonitorStarts(d, zinit, g, lits, depth, ins, latches, w);
    forall t: nat
      ensures FairStep(Along(run, d.fairs[k].en), Along(run, d.fairs[k].a), q, t)
      ensures Output(g, ins, latches, FairStart(d) + k)(t) == Idle(q)(t)
    {
      FairStepHolds(d, zinit, g, lits, depth, ins, latches, k, t);
    }
  }

  lemma FairStepHolds(d: Design, zinit: bool, g: Aig, lits: map<Bit, Literal>, depth: map<Bit, nat>, ins: Words,
                      latches: Words, k: nat, t: nat)
    requires Compiled(d, zinit, g, lits, depth) && IsAigRun(g, zinit, ins, latches) && k < |d.fairs|
    ensures var run, w := RunOf(g, lits, ins, latches), MonitorStart(d, zinit) + 2 * |d.lives| + k;
            && latches(t + 1)[w] == ((latches(t)[w] || run(t)(d.fairs[k].en)) && !run(t)(d.fairs[k].a))
            && Output(g, ins, latches, FairStart(d) + k)(t) == !latches(t)[w]
  {
    FairValue(d, zinit, g, lits, depth, ins(t), latches(t), k);
    assert Steps(g, ins, latches, t, MonitorStart(d, zinit) + 2 * |d.lives| + k);
  }

  /** What the design promises about fairness property `k`. */
  ghost predicate Fair(d: Design, run: nat -> Bit -> bool, k: nat)
    requires k < |d.fairs|
  {
    !Starved(Along(run, d.fairs[k].en), Along(run, d.fairs[k].a))
  }

  /** The run keeps all assumptions and fairness properties, and an enabled cycle of liveness property
      `j` is never followed by a satisfied one. */
  ghost predicate Starves(d: Design, run: nat -> Bit -> bool, j: nat)
    requires j < |d.lives|
  {
    && (forall t: nat :: AssumesHold(d, run, t))
    && (forall k: nat :: k < |d.fairs| ==> Fair(d, run, k))
    && Starved(Along(run, d.lives[j].en), Along(run, d.lives[j].a))
  }

  /** The fairness output `k` holds infinitely often. */
  ghost predicate Recurs(d: Design, g: Aig, ins: Words, latches: Words, k: nat)
    requires Shaped(g, ins, latches) && |g.outs| == FairStart(d) + |d.fairs| && k < |d.fairs|
  {
    InfinitelyOften(Output(g, ins, latches, FairStart(d) + k))
  }

  /** A counterexample of the file to justice property `j`. */
  ghost predicate JusticeWitness(d: Design, g: Aig, ins: Words, latches: Words, j: nat)
    requires Shaped(g, ins, latches) && |g.outs| == FairStart(d) + |d.fairs| && j < |d.lives|
  {
    && (forall t: nat :: ConstraintsHold(d, g, ins, latches, t))
    && (forall k: nat :: k < |d.fairs| ==> Recurs(d, g, ins, latches, k))
    && InfinitelyOften(Output(g, ins, latches, JusticeStart(d) + j))
  }

  lemma SameStream(x: Stream, y: Stream)
    requires forall t: nat :: x(t) == y(t)
    ensures InfinitelyOften(x) <==> InfinitelyOften(y)
  {
    forall t: nat
      ensures Eventually(x, t) <==> Eventually(y, t)
    {
      if Eventually(x, t) {
        var u: nat :| u >= t && x(u);
        assert y(u);
      }
      if Eventually(y, t) {
        var u: nat :| u >= t && y(u);
        assert x(u);
      }
    }
    assert InfinitelyOften(x) ==> forall t: nat :: Eventually(x, t);
    assert InfinitelyOften(y) ==> forall t: nat :: Eventually(y, t);
  }

  lemma RecursIffFair(d: Design, zinit: bool, g: Aig, lits: map<Bit, Literal>, depth: map<Bit, nat>, ins: Words,
                      latches: Words, k: nat)
    requires Compiled(d, zinit, g, lits, depth) && IsAigRun(g, zinit, ins, latches) && k < |d.fairs|
    ensures Recurs(d, g, ins, latches, k) <==> Fair(d, RunOf(g, lits, ins, latches), k)
  {
    var run, q := RunOf(g, lits, ins, latches), LatchStream(latches, MonitorStart(d, zinit) + 2 * |d.lives| + k);
    FairMeaning(d, zinit, g, lits, depth, ins, latches, k);
    SameStream(Output(g, ins, latches, FairStart(d) + k), Idle(q));
    FairExact(Along(run, d.fairs[k].en), Along(run, d.fairs[k].a), q);
  }

  /** Every counterexample of the file to a justice property is a starving run of the design. */
  lemma JusticeIsStarvation(d: Design, zinit: bool, g: Aig, lits: map<Bit, Literal>, depth: map<Bit, nat>, ins: Words,
                            latches: Words, j: nat)
    requires Compiled(d, zinit, g, lits, depth) && IsAigRun(g, zinit, ins, latches) && j < |d.lives|
    requires JusticeWitness(d, g, ins, latches, j)
    ensures var run := RunOf(g, lits, ins, latches); IsRun(d, lits.Keys, run) && Starves(d, run, j)
  {
    var run, w := RunOf(g, lits, ins, latches), MonitorStart(d, zinit) + 2 * j;
    GraphRunsAreDesignRuns(d, zinit, g, lits, depth, ins, latches);
    forall t: nat
      ensures AssumesHold(d, run, t)
    {
      ConstraintsMeaning(d, zinit, g, lits, depth, ins, latches, t);
    }
    forall k: nat | k < |d.fairs|
      ensures Fair(d, run, k)
    {
      assert Recurs(d, g, ins, latches, k);
      RecursIffFair(d, zinit, g, lits, depth, ins, latches, k);
    }
    JusticeStarved(d, zinit, g, lits, depth, ins, latches, j);
  }

  lemma JusticeStarved(d: Design, zinit: bool, g: Aig, lits: map<Bit, Literal>, depth: map<Bit, nat>, ins: Words,
                       latches: Words, j: nat)
    requires Compiled(d, zinit, g, lits, depth) && IsAigRun(g, zinit, ins, latches) && j < |d.lives|
    requires InfinitelyOften(Output(g, ins, latches, JusticeStart(d) + j))
    ensures var run := RunOf(g, lits, ins, latches); Starved(Along(run, d.lives[j].en), Along(run, d.lives[j].a))
  {
    LiveMeaning(d, zinit, g, lits, depth, ins, latches, j);
    MonitoredStarves(d, zinit, g, lits, ins, latches, j);
  }

  lemma MonitoredStarves(d: Design, zinit: bool, g: Aig, lits: map<Bit, Literal>, ins: Words, latches: Words, j: nat)
    requires Shaped(g, ins, latches) && j < |d.lives| && JusticeStart(d) + j < |g.outs|
    requires LiveMonitored(d, zinit, g, lits, ins, latches, j)
    requires InfinitelyOften(Output(g, ins, latches, JusticeStart(d) + j))
    ensures var run := RunOf(g, lits, ins, latches); Starved(Along(run, d.lives[j].en), Along(run, d.lives[j].a))
  {
    var run, w := RunOf(g, lits, ins, latches), MonitorStart(d, zinit) + 2 * j;
    var q1, q2 := LatchStream(latches, w), LatchStream(latches, w + 1);
    SameStream(Output(g, ins, latches, JusticeStart(d) + j), Justice(q1, q2));
    JusticeStarves(Along(run, d.lives[j].en), Along(run, d.lives[j].a),
                   InputStream(ins, |d.inputs| + ExtraInputs(d, zinit) + j), q1, q2);
  }

  /** The monitors of the file find every starving run: some choice of the free inputs makes the justice
      output hold infinitely often, with all constraints kept and all fairness outputs recurring. */
  lemma StarvationIsJustice(d: Design, zinit: bool, g: Aig, lits: map<Bit, Literal>, depth: map<Bit, nat>,
                            run: nat -> Bit -> bool, j: nat)
    returns (ins: Words, latches: Words)
    requires Compiled(d, zinit, g, lits, depth) && IsRun(d, lits.Keys, run) && j < |d.lives| && Starves(d, run, j)
    ensures IsAigRun(g, zinit, ins, latches) && Tracks(g, lits, ins, latches, run)
    ensures JusticeWitness(d, g, ins, latches, j)
  {
    var p: nat :| run(p)(d.lives[j].en) && NeverFrom(Along(run, d.lives[j].a), p);
    ins, latches := DesignRunsAreGraphRuns(d, zinit, g, lits, depth, run, PickAll(p));
    var same := RunOf(g, lits, ins, latches);
    forall t: nat
      ensures ConstraintsHold(d, g, ins, latches, t)
    {
      SameAssumes(d, zinit, g, lits, run, same, t);
      ConstraintsMeaning(d, zinit, g, lits, depth, ins, latches, t);
    }
    forall k: nat | k < |d.fairs|
      ensures Recurs(d, g, ins, latches, k)
    {
      assert Fair(d, run, k);
      SameFair(d, zinit, g, lits, run, same, k);
      RecursIffFair(d, zinit, g, lits, depth, ins, latches, k);
    }
    PickedJustice(d, zinit, g, lits, depth, ins, latches, run, p, j);
  }

  lemma SameFair(d: Design, zinit: bool, g: Aig, lits: map<Bit, Literal>, run: nat -> Bit -> bool,
                 same: nat -> Bit -> bool, k: nat)
    requires Written(d, zinit, g, lits) && k < |d.fairs| && Fair(d, run, k)
    requires forall u: nat, b :: b in lits ==> same(u)(b) == run(u)(b)
    ensures Fair(d, same, k)
  {
    CheckTranslated(d, zinit, g, lits, d.fairs[k]);
    SameStarved(Along(same, d.fairs[k].en), Along(same, d.fairs[k].a), Along(run, d.fairs[k].en), Along(run, d.fairs[k].a));
  }

  lemma SameStarved(en: Stream, a: Stream, en': Stream, a': Stream)
    requires forall t: nat :: en(t) == en'(t)
    requires forall t: nat :: a(t) == a'(t)
    ensures Starved(en, a) ==> Starved(en', a')
  {
    if Starved(en, a) {
      var p: nat :| en(p) && NeverFrom(a, p);
      assert en'(p) && NeverFrom(a', p);
    }
  }

  ghost function PickAll(p: nat): nat -> Stream {
    (j: nat) => Pick(p)
  }

  lemma PickedStream(d: Design, zinit: bool, ins: Words, p: nat, j: nat)
    requires Chosen(d, zinit, ins, PickAll(p)) && j < |d.lives|
    ensures forall t: nat :: InputStream(ins, |d.inputs| + ExtraInputs(d, zinit) + j)(t) == Pick(p)(t)
  {
    forall t: nat
      ensures InputStream(ins, |d.inputs| + ExtraInputs(d, zinit) + j)(t) == Pick(p)(t)
    {
      assert ChosenAt(d, zinit, ins, PickAll(p), t, j);
    }
  }

  lemma StillStarved(g: Aig, lits: map<Bit, Literal>, ins: Words, latches: Words, run: nat -> Bit -> bool, p: nat, check: Check)
    requires Shaped(g, ins, latches) && Tracks(g, lits, ins, latches, run) && check.a in lits && check.en in lits
    requires run(p)(check.en) && NeverFrom(Along(run, check.a), p)
    ensures var same := RunOf(g, lits, ins, latches); Along(same, check.en)(p) && NeverFrom(Along(same, check.a), p)
  {
    SameNever(run, RunOf(g, lits, ins, latches), check.a, p);
  }

  lemma PickedJustice(d: Design, zinit: bool, g: Aig, lits: map<Bit, Literal>, depth: map<Bit, nat>, ins: Words,
                      latches: Words, run: nat -> Bit -> bool, p: nat, j: nat)
    requires Compiled(d, zinit, g, lits, depth) && IsAigRun(g, zinit, ins, latches) && j < |d.lives|
    requires Tracks(g, lits, ins, latches, run) && Chosen(d, zinit, ins, PickAll(p))
    requires run(p)(d.lives[j].en) && NeverFrom(Along(run, d.lives[j].a), p)
    ensures InfinitelyOften(Output(g, ins, latches, JusticeStart(d) + j))
  {
    LiveTranslated(d, zinit, g, lits, j);
    LiveMeaning(d, zinit, g, lits, depth, ins, latches, j);
    MonitoredPick(d, zinit, g, lits, ins, latches, run, p, j);
  }

  lemma MonitoredPick(d: Design, zinit: bool, g: Aig, lits: map<Bit, Literal>, ins: Words, latches: Words,
                      run: nat -> Bit -> bool, p: nat, j: nat)
    requires Shaped(g, ins, latches) && j < |d.lives| && JusticeStart(d) + j < |g.outs|
    requires LiveMonitored(d, zinit, g, lits, ins, latches, j)
    requires Tracks(g, lits, ins, latches, run) && Chosen(d, zinit, ins, PickAll(p))
    requires d.lives[j].a in lits && d.lives[j].en in lits
    requires run(p)(d.lives[j].en) && NeverFrom(Along(run, d.lives[j].a), p)
    ensures InfinitelyOften(Output(g, ins, latches, JusticeStart(d) + j))
  {
    StillStarved(g, lits, ins, latches, run, p, d.lives[j]);
    PickedStream(d, zinit, ins, p, j);
    var w, same := MonitorStart(d, zinit) + 2 * j, RunOf(g, lits, ins, latches);
    PickRecurs(Along(same, d.lives[j].en), Along(same, d.lives[j].a), InputStream(ins, |d.inputs| + ExtraInputs(d, zinit) + j),
               LatchStream(latches, w), LatchStream(latches, w + 1), Output(g, ins, latches, JusticeStart(d) + j), p);
  }

  lemma SameNever(run: nat -> Bit -> bool, same: nat -> Bit -> bool, b: Bit, p: nat)
    requires NeverFrom(Along(run, b), p) && forall t: nat :: same(t)(b) == run(t)(b)
    ensures NeverFrom(Along(same, b), p)
  {
    forall u: nat | u >= p
      ensures !Along(same, b)(u)
    {
      assert !Along(run, b)(u);
    }
  }

  lemma PickRecurs(en: Stream, a: Stream, s: Stream, q1: Stream, q2: Stream, out: Stream, p: nat)
    requires LiveCircuit(en, a, s, q1, q2)
    requires forall t: nat :: s(t) == Pick(p)(t)
    requires forall t: nat :: out(t) == Justice(q1, q2)(t)
    requires en(p) && NeverFrom(a, p)
    ensures InfinitelyOften(out)
  {
    SamePick(en, a, s, q1, q2, p);
    StarvedJustice(en, a, q1, q2, p);
    SameStream(out, Justice(q1, q2));
  }

  lemma SamePick(en: Stream, a: Stream, s: Stream, q1: Stream, q2: Stream, p: nat)
    requires LiveCircuit(en, a, s, q1, q2) && forall t: nat :: s(t) == Pick(p)(t)
    ensures LiveCircuit(en, a, Pick(p), q1, q2)
  {
    forall t: nat
      ensures LiveStep(en, a, Pick(p), q1, q2, t)
    {
      assert LiveStep(en, a, s, q1, q2, t) && s(t) == Pick(p)(t);
    }
  }
}
