/** The written graph and the design have the same runs. */
module AigerMeaning {
  import opened AigDesign
  import opened AigGraph
  import opened AigerBits
  import opened AigerLayout
  import opened AigerMonitors

  /** The values of all variables in one cycle. */
  function Cycle(g: Aig, ins: seq<bool>, latches: seq<bool>): (r: seq<bool>)
    requires |ins| == g.inputs && |latches| == g.latches && Ordered(g.inputs + g.latches, g.gates)
    ensures |r| == g.inputs + g.latches + |g.gates| + 1
  {
    Values([false] + ins + latches, g.gates)
  }

  type Words = nat -> seq<bool>

  ghost predicate Shaped(g: Aig, ins: Words, latches: Words) {
    && Ordered(g.inputs + g.latches, g.gates) && |g.next| == |g.reset| == g.latches
    && forall t: nat :: |ins(t)| == g.inputs && |latches(t)| == g.latches
  }

  /** Latch `k` starts as reset. With zero initialisation no reset is written, which means zero. */
  predicate Starts(g: Aig, zinit: bool, latches: seq<bool>, k: nat)
    requires k < |latches| && k < |g.reset|
  {
    if zinit || g.reset[k] == 0 then !latches[k] else g.reset[k] == 1 ==> latches[k]
  }

  /** Latch `k` follows its next literal. */
  ghost predicate Steps(g: Aig, ins: Words, latches: Words, t: nat, k: nat)
    requires Shaped(g, ins, latches) && k < g.latches
  {
    latches(t + 1)[k] == LitValue(Cycle(g, ins(t), latches(t)), g.next[k])
  }

  /** A run of the file, over all time. */
  ghost predicate IsAigRun(g: Aig, zinit: bool, ins: Words, latches: Words) {
    && Shaped(g, ins, latches)
    && (forall k: nat :: k < g.latches ==> Starts(g, zinit, latches(0), k))
    && (forall t: nat, k: nat :: k < g.latches ==> Steps(g, ins, latches, t, k))
  }

  /** The values the graph gives the bits of the design. */
  ghost function Read(lits: map<Bit, Literal>, values: seq<bool>): Bit -> bool {
    (b: Bit) => b in lits && LitValue(values, lits[b])
  }

  /** A graph written for `d` that is also sound: what `Compile` delivers. */
  ghost predicate Compiled(d: Design, zinit: bool, g: Aig, lits: map<Bit, Literal>, depth: map<Bit, nat>) {
    && Wf(d) && Written(d, zinit, g, lits)
    && Sound(d, Base(d, zinit), g.gates, lits, depth, InitLiteral(d, zinit))
  }

  // ---------------------------------------------------------------------------------------------
  // One cycle

  lemma InputValue(g: Aig, ins: seq<bool>, latches: seq<bool>, k: nat)
    requires |ins| == g.inputs && |latches| == g.latches && Ordered(g.inputs + g.latches, g.gates) && k < g.inputs
    ensures LitValue(Cycle(g, ins, latches), Literal(k + 1, false)) == ins[k]
  {
    FirstValues([false] + ins + latches, g.gates);
    assert ([false] + ins + latches)[k + 1] == ins[k];
  }

  lemma LatchValue(g: Aig, ins: seq<bool>, latches: seq<bool>, k: nat)
    requires |ins| == g.inputs && |latches| == g.latches && Ordered(g.inputs + g.latches, g.gates) && k < g.latches
    ensures LitValue(Cycle(g, ins, latches), Literal(g.inputs + k + 1, false)) == latches[k]
  {
    FirstValues([false] + ins + latches, g.gates);
    assert ([false] + ins + latches)[g.inputs + k + 1] == latches[k];
  }

  lemma ConstantValue(g: Aig, ins: seq<bool>, latches: seq<bool>)
    requires |ins| == g.inputs && |latches| == g.latches && Ordered(g.inputs + g.latches, g.gates)
    ensures !LitValue(Cycle(g, ins, latches), FALSE) && LitValue(Cycle(g, ins, latches), TRUE)
  {
    FirstValues([false] + ins + latches, g.gates);
  }

  lemma GateMeaning(g: Aig, ins: seq<bool>, latches: seq<bool>, out: Literal, x: Literal, y: Literal)
    requires |ins| == g.inputs && |latches| == g.latches && Ordered(g.inputs + g.latches, g.gates)
    requires IsGate(g.inputs + g.latches, g.gates, out, x, y)
    ensures var v := Cycle(g, ins, latches); LitValue(v, out) == (LitValue(v, x) && LitValue(v, y))
  {
    IsGateValue([false] + ins + latches, g.gates, out, x, y);
  }

  lemma NegValue(values: seq<bool>, x: Literal)
    ensures LitValue(values, Neg(x)) == !LitValue(values, x)
  {
  }

  /** The cycle `first` according to the latch that marks it. */
  predicate MarksFirst(d: Design, zinit: bool, latches: seq<bool>, first: bool) {
    HasInitLatch(d, zinit) ==> |latches| > |d.ffs| && latches[|d.ffs|] == !first
  }

  lemma InitValue(d: Design, zinit: bool, g: Aig, ins: seq<bool>, latches: seq<bool>, first: bool)
    requires |ins| == g.inputs == InputCount(d, zinit) && |latches| == g.latches == LatchCount(d, zinit)
    requires Ordered(g.inputs + g.latches, g.gates) && HasInitLatch(d, zinit) && MarksFirst(d, zinit, latches, first)
    ensures LitValue(Cycle(g, ins, latches), InitLiteral(d, zinit)) == first
  {
    LatchValue(g, ins, latches, |d.ffs|);
    NegValue(Cycle(g, ins, latches), Latch(d, zinit, |d.ffs|));
  }

  /** The value of flip-flop `k`: its latch, or its init input in the first cycle. */
  predicate FlipFlopValue(d: Design, zinit: bool, ins: seq<bool>, latches: seq<bool>, first: bool, k: nat)
    requires k < |d.ffs| && k < |latches| && |ins| == InputCount(d, zinit)
  {
    if Muxed(d, zinit, k) && first then
      InitInput(d, k).variable <= |ins| && ins[InitInput(d, k).variable - 1]
    else latches[k] != Inverted(d, zinit, k)
  }

  /** The multiplexer of flip-flop `k` as three gates of the graph. */
  lemma MuxIsGates(d: Design, zinit: bool, gates: seq<Gate>, k: nat)
    requires k < |d.ffs| && Muxed(d, zinit, k) && MuxGates(d, zinit, gates, k)
    ensures var base, n := Base(d, zinit), 3 * Uninit(d, k);
            var gatedOut, gatedIn := Literal(base + n + 1, false), Literal(base + n + 2, false);
            && IsGate(base, gates, gatedOut, Latch(d, zinit, k), Neg(InitLiteral(d, zinit)))
            && IsGate(base, gates, gatedIn, InitInput(d, k), InitLiteral(d, zinit))
            && IsGate(base, gates, Neg(FlipFlopLiteral(d, zinit, k)), Neg(gatedOut), Neg(gatedIn))
  {
  }

  /** The number of the init input of a flip-flop that has one. */
  lemma InitInputInside(d: Design, zinit: bool, k: nat)
    requires k < |d.ffs| && Muxed(d, zinit, k)
    ensures InitInput(d, k) == Literal(InitInput(d, k).variable, false)
    ensures 0 < InitInput(d, k).variable <= InputCount(d, zinit) && HasInitLatch(d, zinit)
  {
    UninitMono(d, k + 1, |d.ffs|);
    assert Uninit(d, k + 1) == Uninit(d, k) + 1;
  }

  lemma MuxSelects(d: Design, zinit: bool, g: Aig, ins: seq<bool>, latches: seq<bool>, k: nat)
    requires |ins| == g.inputs == InputCount(d, zinit) && |latches| == g.latches == LatchCount(d, zinit)
    requires Ordered(g.inputs + g.latches, g.gates)
    requires k < |d.ffs| && Muxed(d, zinit, k) && MuxGates(d, zinit, g.gates, k)
    ensures var v := Cycle(g, ins, latches);
            LitValue(v, FlipFlopLiteral(d, zinit, k))
              == if LitValue(v, InitLiteral(d, zinit)) then LitValue(v, InitInput(d, k)) else LitValue(v, Latch(d, zinit, k))
  {
    var base, n := Base(d, zinit), 3 * Uninit(d, k);
    MuxIsGates(d, zinit, g.gates, k);
    SelectValue(g, ins, latches, Literal(base + n + 1, false), Literal(base + n + 2, false), FlipFlopLiteral(d, zinit, k),
                Latch(d, zinit, k), InitInput(d, k), InitLiteral(d, zinit));
  }

  lemma MuxValue(d: Design, zinit: bool, g: Aig, ins: seq<bool>, latches: seq<bool>, first: bool, k: nat)
    requires |ins| == g.inputs == InputCount(d, zinit) && |latches| == g.latches == LatchCount(d, zinit)
    requires Ordered(g.inputs + g.latches, g.gates) && MarksFirst(d, zinit, latches, first)
    requires k < |d.ffs| && Muxed(d, zinit, k) && MuxGates(d, zinit, g.gates, k)
    ensures LitValue(Cycle(g, ins, latches), FlipFlopLiteral(d, zinit, k)) == FlipFlopValue(d, zinit, ins, latches, first, k)
  {
    InitInputInside(d, zinit, k);
    MuxSelects(d, zinit, g, ins, latches, k);
    InitValue(d, zinit, g, ins, latches, first);
    LatchValue(g, ins, latches, k);
    InputValue(g, ins, latches, InitInput(d, k).variable - 1);
  }

  /** The three gates select `given` when `init` holds and `stored` otherwise. */
  lemma SelectValue(g: Aig, ins: seq<bool>, latches: seq<bool>, gatedOut: Literal, gatedIn: Literal, selected: Literal,
                    stored: Literal, given: Literal, init: Literal)
    requires |ins| == g.inputs && |latches| == g.latches && Ordered(g.inputs + g.latches, g.gates)
    requires IsGate(g.inputs + g.latches, g.gates, gatedOut, stored, Neg(init))
    requires IsGate(g.inputs + g.latches, g.gates, gatedIn, given, init)
    requires IsGate(g.inputs + g.latches, g.gates, Neg(selected), Neg(gatedOut), Neg(gatedIn))
    ensures var v := Cycle(g, ins, latches);
            LitValue(v, selected) == (if LitValue(v, init) then LitValue(v, given) else LitValue(v, stored))
  {
    NegValue(Cycle(g, ins, latches), init);
    GateMeaning(g, ins, latches, gatedOut, stored, Neg(init));
    GateMeaning(g, ins, latches, gatedIn, given, init);
    OrGate(g, ins, latches, selected, gatedOut, gatedIn);
  }

  lemma SeedValue(d: Design, zinit: bool, g: Aig, lits: map<Bit, Literal>, depth: map<Bit, nat>, ins: seq<bool>,
                  latches: seq<bool>, first: bool, k: nat)
    requires Compiled(d, zinit, g, lits, depth)
    requires |ins| == g.inputs && |latches| == g.latches && MarksFirst(d, zinit, latches, first) && k < |d.ffs|
    ensures d.ffs[k].q in lits
    ensures LitValue(Cycle(g, ins, latches), lits[d.ffs[k].q]) == FlipFlopValue(d, zinit, ins, latches, first, k)
  {
    assert AtFlipFlop(d, zinit, g.gates, lits, k);
    if Muxed(d, zinit, k) {
      MuxValue(d, zinit, g, ins, latches, first, k);
    } else {
      LatchValue(g, ins, latches, k);
    }
  }

  /** Whatever the inputs and latches, the graph satisfies the equation of every translated bit. */
  lemma LocalEquation(d: Design, zinit: bool, g: Aig, lits: map<Bit, Literal>, depth: map<Bit, nat>, ins: seq<bool>,
                      latches: seq<bool>, first: bool, b: Bit)
    requires Compiled(d, zinit, g, lits, depth)
    requires |ins| == g.inputs && |latches| == g.latches && MarksFirst(d, zinit, latches, first) && b in lits
    ensures Holds(d, Read(lits, Cycle(g, ins, latches)), first, b)
  {
    var v := Cycle(g, ins, latches);
    assert Derived(d, Base(d, zinit), g.gates, lits, depth, InitLiteral(d, zinit), b);
    match DriverOf(d, b)
    case Constant(c) => ConstantValue(g, ins, latches);
    case Inverter(a) => NegValue(v, lits[a]);
    case Conjunction(a0, a1) => GateMeaning(g, ins, latches, lits[b], lits[a0], lits[a1]);
    case Alias(a) =>
    case InitState =>
      assert b in d.initstate;
      InitValue(d, zinit, g, ins, latches, first);
    case Free =>
    case Nothing =>
  }

  // ---------------------------------------------------------------------------------------------
  // From runs of the graph to runs of the design

  ghost function RunOf(g: Aig, lits: map<Bit, Literal>, ins: Words, latches: Words): nat -> Bit -> bool
    requires Shaped(g, ins, latches)
  {
    (t: nat) => Read(lits, Cycle(g, ins(t), latches(t)))
  }

  /** The marking latch tells the first cycle. */
  lemma FirstMarked(d: Design, zinit: bool, g: Aig, lits: map<Bit, Literal>, ins: Words,
                    latches: Words, t: nat)
    requires Written(d, zinit, g, lits) && IsAigRun(g, zinit, ins, latches)
    ensures MarksFirst(d, zinit, latches(t), t == 0)
  {
    if HasInitLatch(d, zinit) {
      if t == 0 {
        assert Starts(g, zinit, latches(0), |d.ffs|);
        assert g.reset[|d.ffs|] == ResetOf(d, |d.ffs|) == 0;
      } else {
        assert Steps(g, ins, latches, t - 1, |d.ffs|);
        ConstantValue(g, ins(t - 1), latches(t - 1));
      }
    }
  }

  lemma StartOf(d: Design, zinit: bool, g: Aig, lits: map<Bit, Literal>, depth: map<Bit, nat>, ins: Words,
                latches: Words, k: nat)
    requires Compiled(d, zinit, g, lits, depth) && IsAigRun(g, zinit, ins, latches)
    requires k < |d.ffs| && d.ffs[k].q in d.init
    ensures RunOf(g, lits, ins, latches)(0)(d.ffs[k].q) == d.init[d.ffs[k].q]
  {
    FirstMarked(d, zinit, g, lits, ins, latches, 0);
    SeedValue(d, zinit, g, lits, depth, ins(0), latches(0), true, k);
    assert Starts(g, zinit, latches(0), k);
    assert g.reset[k] == ResetOf(d, k);
  }

  lemma StepOf(d: Design, zinit: bool, g: Aig, lits: map<Bit, Literal>, depth: map<Bit, nat>, ins: Words,
               latches: Words, t: nat, k: nat)
    requires Compiled(d, zinit, g, lits, depth) && IsAigRun(g, zinit, ins, latches) && k < |d.ffs|
    ensures RunOf(g, lits, ins, latches)(t + 1)(d.ffs[k].q) == RunOf(g, lits, ins, latches)(t)(d.ffs[k].d)
  {
    FirstMarked(d, zinit, g, lits, ins, latches, t + 1);
    SeedValue(d, zinit, g, lits, depth, ins(t + 1), latches(t + 1), false, k);
    assert Steps(g, ins, latches, t, k);
    assert LatchWired(d, zinit, lits, g.next, k);
    NegValue(Cycle(g, ins(t), latches(t)), lits[d.ffs[k].d]);
  }

  /** Every run of the graph, read through the literals, is a run of the design. */
  lemma GraphRunsAreDesignRuns(d: Design, zinit: bool, g: Aig, lits: map<Bit, Literal>, depth: map<Bit, nat>,
                               ins: Words, latches: Words)
    requires Compiled(d, zinit, g, lits, depth) && IsAigRun(g, zinit, ins, latches)
    ensures IsRun(d, lits.Keys, RunOf(g, lits, ins, latches))
  {
    var run := RunOf(g, lits, ins, latches);
    forall t: nat, b | b in lits.Keys
      ensures HoldsAt(d, run, t, b)
    {
      FirstMarked(d, zinit, g, lits, ins, latches, t);
      LocalEquation(d, zinit, g, lits, depth, ins(t), latches(t), t == 0, b);
    }
    forall k: nat | k < |d.ffs|
      ensures Initialised(d, run(0), k)
    {
      if d.ffs[k].q in d.init {
        StartOf(d, zinit, g, lits, depth, ins, latches, k);
      }
    }
    forall t: nat, k: nat | k < |d.ffs|
      ensures Advances(d, run, t, k)
    {
      StepOf(d, zinit, g, lits, depth, ins, latches, t, k);
    }
  }

  // ---------------------------------------------------------------------------------------------
  // From runs of the design to runs of the graph

  /** The stream of a bit over a run. */
  ghost function Along(run: nat -> Bit -> bool, b: Bit): Stream {
    (t: nat) => run(t)(b)
  }

  ghost function LiveQ1(en: Stream, s: Stream, t: nat): bool {
    t > 0 && ((s(t - 1) && en(t - 1)) || LiveQ1(en, s, t - 1))
  }

  ghost function LiveQ2(en: Stream, a: Stream, s: Stream, t: nat): bool {
    t > 0 && ((LiveQ1(en, s, t) && a(t - 1)) || LiveQ2(en, a, s, t - 1))
  }

  ghost function FairQ(en: Stream, a: Stream, t: nat): bool {
    t > 0 && (FairQ(en, a, t - 1) || en(t - 1)) && !a(t - 1)
  }

  /** The value flip-flop with init input number `u` has in the run. */
  ghost predicate GivenBy(d: Design, values: Bit -> bool, u: nat) {
    exists k: nat :: k < |d.ffs| && InitInputOf(d, k, u) && values(d.ffs[k].q)
  }

  predicate InitInputOf(d: Design, k: nat, u: nat)
    requires k < |d.ffs|
  {
    d.ffs[k].q !in d.init && Uninit(d, k) == u
  }

  lemma GivenByOne(d: Design, values: Bit -> bool, k: nat)
    requires k < |d.ffs| && d.ffs[k].q !in d.init
    ensures GivenBy(d, values, Uninit(d, k)) == values(d.ffs[k].q)
  {
    assert InitInputOf(d, k, Uninit(d, k));
    if GivenBy(d, values, Uninit(d, k)) {
      var j: nat :| j < |d.ffs| && InitInputOf(d, j, Uninit(d, k)) && values(d.ffs[j].q);
      if j < k {
        UninitMono(d, j + 1, k);
      } else if k < j {
        UninitMono(d, k + 1, j);
      }
    }
  }

  /** The inputs of the graph that follow `run`, with `picks` for the liveness properties. */
  ghost function Inputs(d: Design, zinit: bool, run: nat -> Bit -> bool, picks: nat -> Stream): Words {
    (t: nat) => seq(InputCount(d, zinit), (i: nat) => InputOf(d, zinit, run, picks, t, i))
  }

  ghost predicate InputOf(d: Design, zinit: bool, run: nat -> Bit -> bool, picks: nat -> Stream, t: nat, i: nat) {
    if i < |d.inputs| then run(t)(d.inputs[i])
    else if i < |d.inputs| + ExtraInputs(d, zinit) then GivenBy(d, run(t), i - |d.inputs|)
    else picks(i - |d.inputs| - ExtraInputs(d, zinit))(t)
  }

  /** The latches of the graph that follow `run`. */
  ghost function Latches(d: Design, zinit: bool, run: nat -> Bit -> bool, picks: nat -> Stream): Words {
    (t: nat) => seq(LatchCount(d, zinit), (k: nat) => LatchOf(d, zinit, run, picks, t, k))
  }

  ghost predicate LatchOf(d: Design, zinit: bool, run: nat -> Bit -> bool, picks: nat -> Stream, t: nat, k: nat) {
    if k < |d.ffs| then
      !(Muxed(d, zinit, k) && t == 0) && run(t)(d.ffs[k].q) != Inverted(d, zinit, k)
    else if k < MonitorStart(d, zinit) then t > 0
    else MonitorOf(d, run, picks, t, k - MonitorStart(d, zinit))
  }

  /** Two latches for each liveness property, then one for each fairness property. */
  ghost predicate MonitorOf(d: Design, run: nat -> Bit -> bool, picks: nat -> Stream, t: nat, w: nat) {
    if w < 2 * |d.lives| then
      var j := w / 2;
      var en, a := Along(run, d.lives[j].en), Along(run, d.lives[j].a);
      if w % 2 == 0 then LiveQ1(en, picks(j), t) else LiveQ2(en, a, picks(j), t)
    else if w < 2 * |d.lives| + |d.fairs| then
      var c := d.fairs[w - 2 * |d.lives|];
      FairQ(Along(run, c.en), Along(run, c.a), t)
    else false
  }

  lemma InputsAt(d: Design, zinit: bool, run: nat -> Bit -> bool, picks: nat -> Stream, t: nat, i: nat)
    requires i < InputCount(d, zinit)
    ensures |Inputs(d, zinit, run, picks)(t)| == InputCount(d, zinit)
    ensures Inputs(d, zinit, run, picks)(t)[i] == InputOf(d, zinit, run, picks, t, i)
  {
  }

  lemma LatchesAt(d: Design, zinit: bool, run: nat -> Bit -> bool, picks: nat -> Stream, t: nat, k: nat)
    requires k < LatchCount(d, zinit)
    ensures |Latches(d, zinit, run, picks)(t)| == LatchCount(d, zinit)
    ensures Latches(d, zinit, run, picks)(t)[k] == LatchOf(d, zinit, run, picks, t, k)
  {
  }

  /** The constructed latches and inputs give flip-flop `k` its value in the run. */
  lemma FollowsFlipFlop(d: Design, zinit: bool, run: nat -> Bit -> bool, picks: nat -> Stream, t: nat, k: nat)
    requires k < |d.ffs|
    ensures FlipFlopValue(d, zinit, Inputs(d, zinit, run, picks)(t), Latches(d, zinit, run, picks)(t), t == 0, k)
         == run(t)(d.ffs[k].q)
  {
    LatchesAt(d, zinit, run, picks, t, k);
    if Muxed(d, zinit, k) && t == 0 {
      UninitMono(d, k + 1, |d.ffs|);
      assert Uninit(d, k + 1) == Uninit(d, k) + 1;
      InputsAt(d, zinit, run, picks, t, |d.inputs| + Uninit(d, k));
      GivenByOne(d, run(t), k);
    }
  }

  lemma FollowsFirst(d: Design, zinit: bool, run: nat -> Bit -> bool, picks: nat -> Stream, t: nat)
    ensures MarksFirst(d, zinit, Latches(d, zinit, run, picks)(t), t == 0)
  {
    if HasInitLatch(d, zinit) {
      LatchesAt(d, zinit, run, picks, t, |d.ffs|);
    }
  }

  /** By induction over the cone of the bit, the graph computes its value in the run. */
  lemma {:induction false} Follows(d: Design, zinit: bool, g: Aig, lits: map<Bit, Literal>, depth: map<Bit, nat>,
                                   run: nat -> Bit -> bool, picks: nat -> Stream, t: nat, b: Bit)
    requires Compiled(d, zinit, g, lits, depth) && IsRun(d, lits.Keys, run) && b in lits
    ensures LitValue(Cycle(g, Inputs(d, zinit, run, picks)(t), Latches(d, zinit, run, picks)(t)), lits[b]) == run(t)(b)
    decreases depth[b]
  {
    var ins, latches := Inputs(d, zinit, run, picks)(t), Latches(d, zinit, run, picks)(t);
    FollowsFirst(d, zinit, run, picks, t);
    LocalEquation(d, zinit, g, lits, depth, ins, latches, t == 0, b);
    EarlierArguments(d, Base(d, zinit), g.gates, lits, depth, InitLiteral(d, zinit), b);
    assert HoldsAt(d, run, t, b);
    match DriverOf(d, b)
    case Inverter(a) => Follows(d, zinit, g, lits, depth, run, picks, t, a);
    case Conjunction(a0, a1) =>
      Follows(d, zinit, g, lits, depth, run, picks, t, a0);
      Follows(d, zinit, g, lits, depth, run, picks, t, a1);
    case Alias(a) => Follows(d, zinit, g, lits, depth, run, picks, t, a);
    case Free => FollowsFree(d, zinit, g, lits, depth, run, picks, t, b);
    case _ =>
  }

  lemma EarlierArguments(d: Design, base: nat, gates: seq<Gate>, lits: map<Bit, Literal>, depth: map<Bit, nat>,
                         initstate: Literal, b: Bit)
    requires Sound(d, base, gates, lits, depth, initstate) && b in lits
    ensures match DriverOf(d, b)
            case Inverter(a) => a in lits && depth[a] < depth[b]
            case Conjunction(a0, a1) => a0 in lits && a1 in lits && depth[a0] < depth[b] && depth[a1] < depth[b]
            case Alias(a) => a in lits && depth[a] < depth[b]
            case Nothing => false
            case _ => true
  {
    assert Derived(d, base, gates, lits, depth, initstate, b);
  }

  lemma FollowsFree(d: Design, zinit: bool, g: Aig, lits: map<Bit, Literal>, depth: map<Bit, nat>,
                    run: nat -> Bit -> bool, picks: nat -> Stream, t: nat, b: Bit)
    requires Compiled(d, zinit, g, lits, depth) && b in d.free && b in lits
    ensures LitValue(Cycle(g, Inputs(d, zinit, run, picks)(t), Latches(d, zinit, run, picks)(t)), lits[b]) == run(t)(b)
  {
    var ins, latches := Inputs(d, zinit, run, picks)(t), Latches(d, zinit, run, picks)(t);
    if b in d.inputs {
      var i: nat :| i < |d.inputs| && d.inputs[i] == b;
      InputsAt(d, zinit, run, picks, t, i);
      InputValue(g, ins, latches, i);
    } else {
      var f :| f in d.ffs && f.q == b;
      var k: nat :| k < |d.ffs| && d.ffs[k] == f;
      FollowsFirst(d, zinit, run, picks, t);
      SeedValue(d, zinit, g, lits, depth, ins, latches, t == 0, k);
      FollowsFlipFlop(d, zinit, run, picks, t, k);
    }
  }

  // ---------------------------------------------------------------------------------------------
  // Properties and monitors in one cycle

  lemma BadValue(d: Design, zinit: bool, g: Aig, lits: map<Bit, Literal>, depth: map<Bit, nat>, ins: seq<bool>,
                 latches: seq<bool>, k: nat)
    requires Compiled(d, zinit, g, lits, depth) && |ins| == g.inputs && |latches| == g.latches && k < |d.asserts|
    ensures var v := Cycle(g, ins, latches);
            BadStart(d) + k < |g.outs| && LitValue(v, g.outs[BadStart(d) + k])
              == (Read(lits, v)(d.asserts[k].en) && !Read(lits, v)(d.asserts[k].a))
  {
    assert BadOk(d, Base(d, zinit), g.gates, lits, g.outs, k);
    NegValue(Cycle(g, ins, latches), lits[d.asserts[k].a]);
    GateMeaning(g, ins, latches, g.outs[BadStart(d) + k], Neg(lits[d.asserts[k].a]), lits[d.asserts[k].en]);
  }

  lemma ConstraintValue(d: Design, zinit: bool, g: Aig, lits: map<Bit, Literal>, depth: map<Bit, nat>, ins: seq<bool>,
                        latches: seq<bool>, k: nat)
    requires Compiled(d, zinit, g, lits, depth) && |ins| == g.inputs && |latches| == g.latches && k < |d.assumes|
    ensures var v := Cycle(g, ins, latches);
            ConstraintStart(d) + k < |g.outs| && LitValue(v, g.outs[ConstraintStart(d) + k])
              == (Read(lits, v)(d.assumes[k].en) ==> Read(lits, v)(d.assumes[k].a))
  {
    assert ConstraintOk(d, Base(d, zinit), g.gates, lits, g.outs, k);
    var v, out := Cycle(g, ins, latches), g.outs[ConstraintStart(d) + k];
    NegValue(v, lits[d.assumes[k].a]);
    NegValue(v, out);
    GateMeaning(g, ins, latches, Neg(out), Neg(lits[d.assumes[k].a]), lits[d.assumes[k].en]);
  }

  /** Not of a conjunction of negations: the circuits build disjunctions this way. */
  lemma OrGate(g: Aig, ins: seq<bool>, latches: seq<bool>, out: Literal, x: Literal, y: Literal)
    requires |ins| == g.inputs && |latches| == g.latches && Ordered(g.inputs + g.latches, g.gates)
    requires IsGate(g.inputs + g.latches, g.gates, Neg(out), Neg(x), Neg(y))
    ensures var v := Cycle(g, ins, latches); LitValue(v, out) == (LitValue(v, x) || LitValue(v, y))
  {
    var v := Cycle(g, ins, latches);
    GateMeaning(g, ins, latches, Neg(out), Neg(x), Neg(y));
    NegValue(v, out);
    NegValue(v, x);
    NegValue(v, y);
  }

  lemma AndOrValue(g: Aig, ins: seq<bool>, latches: seq<bool>, x: Literal, y: Literal, q: Literal, r: Literal)
    requires |ins| == g.inputs && |latches| == g.latches && Ordered(g.inputs + g.latches, g.gates)
    requires AndOrWired(g.inputs + g.latches, g.gates, x, y, q, r)
    ensures var v := Cycle(g, ins, latches); LitValue(v, r) == ((LitValue(v, x) && LitValue(v, y)) || LitValue(v, q))
  {
    var both := Literal(r.variable - 1, false);
    GateMeaning(g, ins, latches, both, x, y);
    OrGate(g, ins, latches, r, both, q);
  }

  lemma LiveNext(g: Aig, ins: seq<bool>, latches: seq<bool>, lits: map<Bit, Literal>, check: Check,
                 s: Literal, q1: Literal, q2: Literal, d1: Literal, d2: Literal, out: Literal)
    requires |ins| == g.inputs && |latches| == g.latches && Ordered(g.inputs + g.latches, g.gates)
    requires LiveWired(g.inputs + g.latches, g.gates, lits, check, s, q1, q2, d1, d2, out)
    ensures var v := Cycle(g, ins, latches);
            && LitValue(v, d1) == ((LitValue(v, s) && LitValue(v, lits[check.en])) || LitValue(v, q1))
            && LitValue(v, d2) == ((LitValue(v, d1) && LitValue(v, lits[check.a])) || LitValue(v, q2))
            && LitValue(v, out) == (LitValue(v, q1) && !LitValue(v, q2))
  {
    AndOrValue(g, ins, latches, s, lits[check.en], q1, d1);
    AndOrValue(g, ins, latches, d1, lits[check.a], q2, d2);
    GateMeaning(g, ins, latches, out, q1, Neg(q2));
    NegValue(Cycle(g, ins, latches), q2);
  }

  /** The circuit of property `j` in the finished graph. */
  lemma LivePlaced(d: Design, zinit: bool, g: Aig, lits: map<Bit, Literal>, depth: map<Bit, nat>, j: nat)
    requires Compiled(d, zinit, g, lits, depth) && j < |d.lives|
    ensures var w, i, k := MonitorStart(d, zinit) + 2 * j, |d.inputs| + ExtraInputs(d, zinit) + j, JusticeStart(d) + j;
            && i < g.inputs && w + 1 < g.latches == |g.next| && k < |g.outs|
            && Ordered(g.inputs + g.latches, g.gates)
            && LiveWired(g.inputs + g.latches, g.gates, lits, d.lives[j], Literal(i + 1, false),
                         Literal(g.inputs + w + 1, false), Literal(g.inputs + (w + 1) + 1, false),
                         g.next[w], g.next[w + 1], g.outs[k])
  {
    assert LiveOk(d, zinit, g.gates, lits, g.next, g.outs, j);
  }

  lemma LiveValue(d: Design, zinit: bool, g: Aig, lits: map<Bit, Literal>, depth: map<Bit, nat>, ins: seq<bool>,
                  latches: seq<bool>, j: nat)
    requires Compiled(d, zinit, g, lits, depth) && |ins| == g.inputs && |latches| == g.latches && j < |d.lives|
    ensures var v, w, i := Cycle(g, ins, latches), MonitorStart(d, zinit) + 2 * j, |d.inputs| + ExtraInputs(d, zinit) + j;
            var en, a := Read(lits, v)(d.lives[j].en), Read(lits, v)(d.lives[j].a);
            && LitValue(v, g.next[w]) == ((ins[i] && en) || latches[w])
            && LitValue(v, g.next[w + 1]) == ((LitValue(v, g.next[w]) && a) || latches[w + 1])
            && JusticeStart(d) + j < |g.outs|
            && LitValue(v, g.outs[JusticeStart(d) + j]) == (latches[w] && !latches[w + 1])
  {
    var w, i := MonitorStart(d, zinit) + 2 * j, |d.inputs| + ExtraInputs(d, zinit) + j;
    LivePlaced(d, zinit, g, lits, depth, j);
    LiveValues(g, lits, d.lives[j], ins, latches, i, w, g.next[w], g.next[w + 1], g.outs[JusticeStart(d) + j]);
  }

  lemma LiveValues(g: Aig, lits: map<Bit, Literal>, check: Check, ins: seq<bool>, latches: seq<bool>, i: nat, w: nat,
                   d1: Literal, d2: Literal, out: Literal)
    requires |ins| == g.inputs && |latches| == g.latches && Ordered(g.inputs + g.latches, g.gates)
    requires i < g.inputs && w + 1 < g.latches
    requires LiveWired(g.inputs + g.latches, g.gates, lits, check, Literal(i + 1, false), Literal(g.inputs + w + 1, false),
                       Literal(g.inputs + (w + 1) + 1, false), d1, d2, out)
    ensures var v := Cycle(g, ins, latches);
            && LitValue(v, d1) == ((ins[i] && Read(lits, v)(check.en)) || latches[w])
            && LitValue(v, d2) == ((LitValue(v, d1) && Read(lits, v)(check.a)) || latches[w + 1])
            && LitValue(v, out) == (latches[w] && !latches[w + 1])
  {
    LatchValue(g, ins, latches, w);
    LatchValue(g, ins, latches, w + 1);
    InputValue(g, ins, latches, i);
    LiveNext(g, ins, latches, lits, check, Literal(i + 1, false), Literal(g.inputs + w + 1, false),
             Literal(g.inputs + (w + 1) + 1, false), d1, d2, out);
  }

  lemma FairNext(g: Aig, ins: seq<bool>, latches: seq<bool>, lits: map<Bit, Literal>, check: Check,
                 q: Literal, next: Literal, out: Literal)
    requires |ins| == g.inputs && |latches| == g.latches && Ordered(g.inputs + g.latches, g.gates)
    requires FairWired(g.inputs + g.latches, g.gates, lits, check, q, next, out)
    ensures var v := Cycle(g, ins, latches);
            && LitValue(v, next) == ((LitValue(v, q) || LitValue(v, lits[check.en])) && !LitValue(v, lits[check.a]))
            && LitValue(v, out) == !LitValue(v, q)
  {
    var idle, v := Literal(next.variable - 1, false), Cycle(g, ins, latches);
    NegValue(v, idle);
    OrGate(g, ins, latches, Neg(idle), q, lits[check.en]);
    GateMeaning(g, ins, latches, next, Neg(idle), Neg(lits[check.a]));
    NegValue(v, lits[check.a]);
    NegValue(v, q);
  }

  lemma FairValue(d: Design, zinit: bool, g: Aig, lits: map<Bit, Literal>, depth: map<Bit, nat>, ins: seq<bool>,
                  latches: seq<bool>, k: nat)
    requires Compiled(d, zinit, g, lits, depth) && |ins| == g.inputs && |latches| == g.latches && k < |d.fairs|
    ensures var v, w := Cycle(g, ins, latches), MonitorStart(d, zinit) + 2 * |d.lives| + k;
            var en, a := Read(lits, v)(d.fairs[k].en), Read(lits, v)(d.fairs[k].a);
            && LitValue(v, g.next[w]) == ((latches[w] || en) && !a)
            && FairStart(d) + k < |g.outs| && LitValue(v, g.outs[FairStart(d) + k]) == !latches[w]
  {
    var w := MonitorStart(d, zinit) + 2 * |d.lives| + k;
    assert FairOk(d, zinit, g.gates, lits, g.next, g.outs, k);
    LatchValue(g, ins, latches, w);
    FairNext(g, ins, latches, lits, d.fairs[k], Monitor(d, zinit, 2 * |d.lives| + k), g.next[w], g.outs[FairStart(d) + k]);
  }
}
