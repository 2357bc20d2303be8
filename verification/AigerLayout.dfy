/** The numbering of inputs and latches, and what the written graph must contain. */
module AigerLayout {
  import opened AigDesign
  import opened AigGraph

  /** Flip-flops without an initial value among the first `n`. */
  function Uninit(d: Design, n: nat): (r: nat)
    requires n <= |d.ffs|
    ensures r <= n
  {
    if n == 0 then 0 else Uninit(d, n - 1) + (if d.ffs[n - 1].q in d.init then 0 else 1)
  }

  lemma {:induction false} UninitMono(d: Design, n: nat, k: nat)
    requires n <= k <= |d.ffs|
    ensures Uninit(d, n) <= Uninit(d, k)
    decreases k
  {
    if n < k {
      UninitMono(d, n, k - 1);
    }
  }

  function ExtraInputs(d: Design, zinit: bool): nat {
    if zinit then Uninit(d, |d.ffs|) else 0
  }

  function InputCount(d: Design, zinit: bool): nat {
    |d.inputs| + ExtraInputs(d, zinit) + |d.lives|
  }

  /** There is a latch that tells the first cycle from the others. */
  predicate HasInitLatch(d: Design, zinit: bool) {
    d.initstate != {} || ExtraInputs(d, zinit) > 0
  }

  function MonitorStart(d: Design, zinit: bool): nat {
    |d.ffs| + (if HasInitLatch(d, zinit) then 1 else 0)
  }

  function LatchCount(d: Design, zinit: bool): nat {
    MonitorStart(d, zinit) + 2 * |d.lives| + |d.fairs|
  }

  function Base(d: Design, zinit: bool): nat {
    InputCount(d, zinit) + LatchCount(d, zinit)
  }

  function Latch(d: Design, zinit: bool, k: nat): Literal {
    Literal(InputCount(d, zinit) + k + 1, false)
  }

  /** True in the first cycle only. */
  function InitLiteral(d: Design, zinit: bool): Literal {
    if HasInitLatch(d, zinit) then Neg(Latch(d, zinit, |d.ffs|)) else FALSE
  }

  /** The input that stands for the initial value of uninitialised flip-flop `k`. */
  function InitInput(d: Design, k: nat): Literal
    requires k < |d.ffs|
  {
    Literal(|d.inputs| + Uninit(d, k) + 1, false)
  }

  /** The free input of liveness property `j`. */
  function LiveInput(d: Design, zinit: bool, j: nat): Literal {
    Literal(|d.inputs| + ExtraInputs(d, zinit) + j + 1, false)
  }

  /** The latch starts, or is stored, inverted. */
  predicate Inverted(d: Design, zinit: bool, k: nat)
    requires k < |d.ffs|
  {
    zinit && d.ffs[k].q in d.init && d.init[d.ffs[k].q]
  }

  /** The flip-flop gets a multiplexer in front of it that selects its init input in the first cycle. */
  predicate Muxed(d: Design, zinit: bool, k: nat)
    requires k < |d.ffs|
  {
    zinit && d.ffs[k].q !in d.init
  }

  function FlipFlopLiteral(d: Design, zinit: bool, k: nat): Literal
    requires k < |d.ffs|
  {
    if Muxed(d, zinit, k) then Literal(Base(d, zinit) + 3 * Uninit(d, k) + 3, true)
    else Literal(Latch(d, zinit, k).variable, Inverted(d, zinit, k))
  }

  /** The three gates of the multiplexer of flip-flop `k`. */
  predicate MuxGates(d: Design, zinit: bool, gates: seq<Gate>, k: nat)
    requires k < |d.ffs|
  {
    var base, g := Base(d, zinit), 3 * Uninit(d, k);
    var stored, given := Literal(base + g + 1, false), Literal(base + g + 2, false);
    && g + 3 <= |gates|
    && gates[g] == GateOf(Latch(d, zinit, k), Neg(InitLiteral(d, zinit)))
    && gates[g + 1] == GateOf(InitInput(d, k), InitLiteral(d, zinit))
    && gates[g + 2] == GateOf(Neg(stored), Neg(given))
  }

  /** Constants and inputs have their literals. */
  predicate InputsNumbered(d: Design, lits: map<Bit, Literal>) {
    && (forall b :: b in d.tied ==> b in lits && lits[b] == (if d.tied[b] then TRUE else FALSE))
    && Zero in lits && lits[Zero] == FALSE && One in lits && lits[One] == TRUE
    && (forall k :: 0 <= k < |d.inputs| ==> d.inputs[k] in lits && lits[d.inputs[k]] == Literal(k + 1, false))
  }

  /** The flip-flop has its literal, and its multiplexer where it needs one. */
  predicate AtFlipFlop(d: Design, zinit: bool, gates: seq<Gate>, lits: map<Bit, Literal>, k: nat)
    requires k < |d.ffs|
  {
    && d.ffs[k].q in lits && lits[d.ffs[k].q] == FlipFlopLiteral(d, zinit, k)
    && (Muxed(d, zinit, k) ==> MuxGates(d, zinit, gates, k))
  }

  ghost predicate FlipFlopsNumbered(d: Design, zinit: bool, gates: seq<Gate>, lits: map<Bit, Literal>) {
    forall k: nat :: k < |d.ffs| ==> AtFlipFlop(d, zinit, gates, lits, k)
  }

  // ---------------------------------------------------------------------------------------------
  // Latch inputs and properties

  predicate LatchWired(d: Design, zinit: bool, lits: map<Bit, Literal>, next: seq<Literal>, k: nat)
    requires k < |d.ffs|
  {
    k < |next| && d.ffs[k].d in lits
    && next[k] == if Inverted(d, zinit, k) then Neg(lits[d.ffs[k].d]) else lits[d.ffs[k].d]
  }

  function ResetOf(d: Design, k: nat): nat {
    if k >= |d.ffs| then 0
    else if d.ffs[k].q !in d.init then 2
    else if d.init[d.ffs[k].q] then 1
    else 0
  }

  /** Bad state: enabled and not satisfied. */
  predicate BadWired(base: nat, gates: seq<Gate>, lits: map<Bit, Literal>, check: Check, out: Literal) {
    check.a in lits && check.en in lits && IsGate(base, gates, out, Neg(lits[check.a]), lits[check.en])
  }

  /** Constraint: satisfied where enabled. */
  predicate ConstraintWired(base: nat, gates: seq<Gate>, lits: map<Bit, Literal>, check: Check, out: Literal) {
    check.a in lits && check.en in lits && IsGate(base, gates, Neg(out), Neg(lits[check.a]), lits[check.en])
  }

  /** Two gates, one after the other: `r` is `(x and y) or q`. */
  predicate AndOrWired(base: nat, gates: seq<Gate>, x: Literal, y: Literal, q: Literal, r: Literal) {
    && r.variable > 0
    && IsGate(base, gates, Literal(r.variable - 1, false), x, y)
    && IsGate(base, gates, Neg(r), Neg(Literal(r.variable - 1, false)), Neg(q))
  }

  /** The circuit of a liveness property: `q1` remembers that the free input has picked a cycle with the
      enable, `q2` that the property has been satisfied since. */
  predicate LiveWired(base: nat, gates: seq<Gate>, lits: map<Bit, Literal>, check: Check,
                      s: Literal, q1: Literal, q2: Literal, d1: Literal, d2: Literal, out: Literal)
  {
    && check.a in lits && check.en in lits
    && AndOrWired(base, gates, s, lits[check.en], q1, d1)
    && AndOrWired(base, gates, d1, lits[check.a], q2, d2)
    && IsGate(base, gates, out, q1, Neg(q2))
  }

  lemma LiveAssembled(base: nat, gates1: seq<Gate>, gates2: seq<Gate>, gates: seq<Gate>, lits: map<Bit, Literal>,
                      check: Check, s: Literal, q1: Literal, q2: Literal, d1: Literal, d2: Literal, out: Literal)
    requires gates1 <= gates2 <= gates && check.a in lits && check.en in lits
    requires AndOrWired(base, gates1, s, lits[check.en], q1, d1) && AndOrWired(base, gates2, d1, lits[check.a], q2, d2)
    requires IsGate(base, gates, out, q1, Neg(q2))
    ensures LiveWired(base, gates, lits, check, s, q1, q2, d1, d2, out)
  {
  }

  /** The circuit of a fairness property: `q` remembers an enable not satisfied since. */
  predicate FairWired(base: nat, gates: seq<Gate>, lits: map<Bit, Literal>, check: Check,
                      q: Literal, next: Literal, out: Literal)
  {
    && check.a in lits && check.en in lits && next.variable > 0
    && IsGate(base, gates, Literal(next.variable - 1, false), Neg(q), Neg(lits[check.en]))
    && IsGate(base, gates, next, Neg(Literal(next.variable - 1, false)), Neg(lits[check.a]))
    && out == Neg(q)
  }

  // ---------------------------------------------------------------------------------------------
  // The finished graph

  /** The file: variables `1 ..` are the inputs, then the latches, then the gates. The outputs hold the
      five sections one after the other. Reset 2 leaves the latch uninitialised. */
  datatype Aig = Aig(inputs: nat, latches: nat, gates: seq<Gate>, next: seq<Literal>, reset: seq<nat>, outs: seq<Literal>)

  function BadStart(d: Design): nat {
    |d.outputs|
  }

  function ConstraintStart(d: Design): nat {
    |d.outputs| + |d.asserts|
  }

  function JusticeStart(d: Design): nat {
    |d.outputs| + |d.asserts| + |d.assumes|
  }

  function FairStart(d: Design): nat {
    |d.outputs| + |d.asserts| + |d.assumes| + |d.lives|
  }

  function Monitor(d: Design, zinit: bool, w: nat): Literal {
    Latch(d, zinit, MonitorStart(d, zinit) + w)
  }

  predicate OutputOk(d: Design, lits: map<Bit, Literal>, outs: seq<Literal>, k: nat)
    requires k < |d.outputs|
  {
    k < |outs| && d.outputs[k] in lits && outs[k] == lits[d.outputs[k]]
  }

  predicate BadOk(d: Design, base: nat, gates: seq<Gate>, lits: map<Bit, Literal>, outs: seq<Literal>, k: nat)
    requires k < |d.asserts|
  {
    BadStart(d) + k < |outs| && BadWired(base, gates, lits, d.asserts[k], outs[BadStart(d) + k])
  }

  predicate ConstraintOk(d: Design, base: nat, gates: seq<Gate>, lits: map<Bit, Literal>, outs: seq<Literal>, k: nat)
    requires k < |d.assumes|
  {
    ConstraintStart(d) + k < |outs| && ConstraintWired(base, gates, lits, d.assumes[k], outs[ConstraintStart(d) + k])
  }

  predicate LiveOk(d: Design, zinit: bool, gates: seq<Gate>, lits: map<Bit, Literal>, next: seq<Literal>,
                   outs: seq<Literal>, k: nat)
    requires k < |d.lives|
  {
    var w := MonitorStart(d, zinit) + 2 * k;
    && JusticeStart(d) + k < |outs| && w + 1 < |next|
    && LiveWired(Base(d, zinit), gates, lits, d.lives[k], LiveInput(d, zinit, k), Monitor(d, zinit, 2 * k),
                 Monitor(d, zinit, 2 * k + 1), next[w], next[w + 1], outs[JusticeStart(d) + k])
  }

  predicate FairOk(d: Design, zinit: bool, gates: seq<Gate>, lits: map<Bit, Literal>, next: seq<Literal>,
                   outs: seq<Literal>, k: nat)
    requires k < |d.fairs|
  {
    var w := MonitorStart(d, zinit) + 2 * |d.lives| + k;
    && FairStart(d) + k < |outs| && w < |next|
    && FairWired(Base(d, zinit), gates, lits, d.fairs[k], Monitor(d, zinit, 2 * |d.lives| + k), next[w],
                 outs[FairStart(d) + k])
  }

  ghost predicate LatchesWired(d: Design, zinit: bool, lits: map<Bit, Literal>, next: seq<Literal>, n: nat)
    requires n <= |d.ffs|
  {
    forall k: nat :: k < n ==> LatchWired(d, zinit, lits, next, k)
  }

  ghost predicate OutputsOk(d: Design, lits: map<Bit, Literal>, outs: seq<Literal>, n: nat)
    requires n <= |d.outputs|
  {
    forall k: nat :: k < n ==> OutputOk(d, lits, outs, k)
  }

  ghost predicate BadsOk(d: Design, base: nat, gates: seq<Gate>, lits: map<Bit, Literal>, outs: seq<Literal>, n: nat)
    requires n <= |d.asserts|
  {
    forall k: nat :: k < n ==> BadOk(d, base, gates, lits, outs, k)
  }

  ghost predicate ConstraintsOk(d: Design, base: nat, gates: seq<Gate>, lits: map<Bit, Literal>, outs: seq<Literal>, n: nat)
    requires n <= |d.assumes|
  {
    forall k: nat :: k < n ==> ConstraintOk(d, base, gates, lits, outs, k)
  }

  ghost predicate LivesOk(d: Design, zinit: bool, gates: seq<Gate>, lits: map<Bit, Literal>, next: seq<Literal>,
                          outs: seq<Literal>, n: nat)
    requires n <= |d.lives|
  {
    forall k: nat :: k < n ==> LiveOk(d, zinit, gates, lits, next, outs, k)
  }

  ghost predicate FairsOk(d: Design, zinit: bool, gates: seq<Gate>, lits: map<Bit, Literal>, next: seq<Literal>,
                          outs: seq<Literal>, n: nat)
    requires n <= |d.fairs|
  {
    forall k: nat :: k < n ==> FairOk(d, zinit, gates, lits, next, outs, k)
  }

  /** The graph is the translation of the design. */
  ghost predicate Written(d: Design, zinit: bool, g: Aig, lits: map<Bit, Literal>) {
    && g.inputs == InputCount(d, zinit) && g.latches == LatchCount(d, zinit) == |g.next| == |g.reset|
    && |g.outs| == FairStart(d) + |d.fairs|
    && InputsNumbered(d, lits)
    && FlipFlopsNumbered(d, zinit, g.gates, lits)
    && LatchesWired(d, zinit, lits, g.next, |d.ffs|)
    && (HasInitLatch(d, zinit) ==> g.next[|d.ffs|] == TRUE)
    && Resets(d, g.reset)
    && OutputsOk(d, lits, g.outs, |d.outputs|)
    && BadsOk(d, Base(d, zinit), g.gates, lits, g.outs, |d.asserts|)
    && ConstraintsOk(d, Base(d, zinit), g.gates, lits, g.outs, |d.assumes|)
    && LivesOk(d, zinit, g.gates, lits, g.next, g.outs, |d.lives|)
    && FairsOk(d, zinit, g.gates, lits, g.next, g.outs, |d.fairs|)
  }

  // ---------------------------------------------------------------------------------------------
  // What is in place stays in place

  ghost predicate Longer(gates: seq<Gate>, lits: map<Bit, Literal>, gates': seq<Gate>, lits': map<Bit, Literal>) {
    gates <= gates' && forall b :: b in lits ==> b in lits' && lits'[b] == lits[b]
  }

  lemma Carried(d: Design, zinit: bool, gates: seq<Gate>, lits: map<Bit, Literal>, gates': seq<Gate>,
                lits': map<Bit, Literal>)
    requires Longer(gates, lits, gates', lits')
    requires InputsNumbered(d, lits) && FlipFlopsNumbered(d, zinit, gates, lits)
    ensures InputsNumbered(d, lits') && FlipFlopsNumbered(d, zinit, gates', lits')
  {
    forall k: nat | k < |d.ffs|
      ensures AtFlipFlop(d, zinit, gates', lits', k)
    {
      assert AtFlipFlop(d, zinit, gates, lits, k);
    }
  }

  lemma LatchesCarried(d: Design, zinit: bool, lits: map<Bit, Literal>, next: seq<Literal>,
                       lits': map<Bit, Literal>, next': seq<Literal>, n: nat)
    requires n <= |d.ffs| && LatchesWired(d, zinit, lits, next, n) && next <= next'
    requires forall b :: b in lits ==> b in lits' && lits'[b] == lits[b]
    ensures LatchesWired(d, zinit, lits', next', n)
  {
    forall k: nat | k < n
      ensures LatchWired(d, zinit, lits', next', k)
    {
      assert LatchWired(d, zinit, lits, next, k);
    }
  }

  lemma OutputsCarried(d: Design, lits: map<Bit, Literal>, outs: seq<Literal>, lits': map<Bit, Literal>, outs': seq<Literal>, n: nat)
    requires n <= |d.outputs| && Longer([], lits, [], lits')
    requires OutputsOk(d, lits, outs, n) && outs <= outs'
    ensures OutputsOk(d, lits', outs', n)
  {
    forall k: nat | k < n
      ensures OutputOk(d, lits', outs', k)
    {
      assert OutputOk(d, lits, outs, k);
    }
  }

  lemma BadsCarried(d: Design, base: nat, gates: seq<Gate>, lits: map<Bit, Literal>, outs: seq<Literal>, gates': seq<Gate>, lits': map<Bit, Literal>, outs': seq<Literal>, n: nat)
    requires n <= |d.asserts| && Longer(gates, lits, gates', lits')
    requires BadsOk(d, base, gates, lits, outs, n) && outs <= outs'
    ensures BadsOk(d, base, gates', lits', outs', n)
  {
    forall k: nat | k < n
      ensures BadOk(d, base, gates', lits', outs', k)
    {
      assert BadOk(d, base, gates, lits, outs, k);
    }
  }

  lemma ConstraintsCarried(d: Design, base: nat, gates: seq<Gate>, lits: map<Bit, Literal>, outs: seq<Literal>, gates': seq<Gate>, lits': map<Bit, Literal>, outs': seq<Literal>, n: nat)
    requires n <= |d.assumes| && Longer(gates, lits, gates', lits')
    requires ConstraintsOk(d, base, gates, lits, outs, n) && outs <= outs'
    ensures ConstraintsOk(d, base, gates', lits', outs', n)
  {
    forall k: nat | k < n
      ensures ConstraintOk(d, base, gates', lits', outs', k)
    {
      assert ConstraintOk(d, base, gates, lits, outs, k);
    }
  }

  lemma LivesCarried(d: Design, zinit: bool, gates: seq<Gate>, lits: map<Bit, Literal>, next: seq<Literal>, outs: seq<Literal>, gates': seq<Gate>, lits': map<Bit, Literal>, next': seq<Literal>, outs': seq<Literal>, n: nat)
    requires n <= |d.lives| && Longer(gates, lits, gates', lits')
    requires LivesOk(d, zinit, gates, lits, next, outs, n) && next <= next' && outs <= outs'
    ensures LivesOk(d, zinit, gates', lits', next', outs', n)
  {
    forall k: nat | k < n
      ensures LiveOk(d, zinit, gates', lits', next', outs', k)
    {
      assert LiveOk(d, zinit, gates, lits, next, outs, k);
    }
  }

  lemma FairsCarried(d: Design, zinit: bool, gates: seq<Gate>, lits: map<Bit, Literal>, next: seq<Literal>, outs: seq<Literal>, gates': seq<Gate>, lits': map<Bit, Literal>, next': seq<Literal>, outs': seq<Literal>, n: nat)
    requires n <= |d.fairs| && Longer(gates, lits, gates', lits')
    requires FairsOk(d, zinit, gates, lits, next, outs, n) && next <= next' && outs <= outs'
    ensures FairsOk(d, zinit, gates', lits', next', outs', n)
  {
    forall k: nat | k < n
      ensures FairOk(d, zinit, gates', lits', next', outs', k)
    {
      assert FairOk(d, zinit, gates, lits, next, outs, k);
    }
  }

  /** The first `nl` flip-flops and the first entries of each section are in place. */
  ghost predicate Progress(d: Design, zinit: bool, gates: seq<Gate>, lits: map<Bit, Literal>, next: seq<Literal>,
                           outs: seq<Literal>, no: nat, nb: nat, nc: nat, nj: nat, nf: nat)
  {
    && no <= |d.outputs| && nb <= |d.asserts| && nc <= |d.assumes| && nj <= |d.lives| && nf <= |d.fairs|
    && LatchesWired(d, zinit, lits, next, |d.ffs|)
    && (HasInitLatch(d, zinit) ==> |next| > |d.ffs| && next[|d.ffs|] == TRUE)
    && OutputsOk(d, lits, outs, no)
    && BadsOk(d, Base(d, zinit), gates, lits, outs, nb)
    && ConstraintsOk(d, Base(d, zinit), gates, lits, outs, nc)
    && LivesOk(d, zinit, gates, lits, next, outs, nj)
    && FairsOk(d, zinit, gates, lits, next, outs, nf)
  }

  lemma ProgressCarried(d: Design, zinit: bool, gates: seq<Gate>, lits: map<Bit, Literal>, next: seq<Literal>,
                        outs: seq<Literal>, gates': seq<Gate>, lits': map<Bit, Literal>, next': seq<Literal>,
                        outs': seq<Literal>, no: nat, nb: nat, nc: nat, nj: nat, nf: nat)
    requires Progress(d, zinit, gates, lits, next, outs, no, nb, nc, nj, nf)
    requires Longer(gates, lits, gates', lits') && next <= next' && outs <= outs'
    ensures Progress(d, zinit, gates', lits', next', outs', no, nb, nc, nj, nf)
  {
    LatchesCarried(d, zinit, lits, next, lits', next', |d.ffs|);
    OutputsCarried(d, lits, outs, lits', outs', no);
    BadsCarried(d, Base(d, zinit), gates, lits, outs, gates', lits', outs', nb);
    ConstraintsCarried(d, Base(d, zinit), gates, lits, outs, gates', lits', outs', nc);
    LivesCarried(d, zinit, gates, lits, next, outs, gates', lits', next', outs', nj);
    FairsCarried(d, zinit, gates, lits, next, outs, gates', lits', next', outs', nf);
  }

  lemma OutputAdded(d: Design, zinit: bool, gates: seq<Gate>, lits: map<Bit, Literal>, next: seq<Literal>,
                    outs: seq<Literal>, k: nat)
    requires Progress(d, zinit, gates, lits, next, outs, k, 0, 0, 0, 0) && |outs| == k < |d.outputs|
    requires d.outputs[k] in lits
    ensures Progress(d, zinit, gates, lits, next, outs + [lits[d.outputs[k]]], k + 1, 0, 0, 0, 0)
  {
    var outs' := outs + [lits[d.outputs[k]]];
    ProgressCarried(d, zinit, gates, lits, next, outs, gates, lits, next, outs', k, 0, 0, 0, 0);
    assert OutputOk(d, lits, outs', k);
  }

  lemma BadAdded(d: Design, zinit: bool, gates: seq<Gate>, lits: map<Bit, Literal>, next: seq<Literal>,
                 outs: seq<Literal>, k: nat, out: Literal)
    requires Progress(d, zinit, gates, lits, next, outs, |d.outputs|, k, 0, 0, 0) && k < |d.asserts|
    requires |outs| == BadStart(d) + k && BadWired(Base(d, zinit), gates, lits, d.asserts[k], out)
    ensures Progress(d, zinit, gates, lits, next, outs + [out], |d.outputs|, k + 1, 0, 0, 0)
  {
    ProgressCarried(d, zinit, gates, lits, next, outs, gates, lits, next, outs + [out], |d.outputs|, k, 0, 0, 0);
    assert BadOk(d, Base(d, zinit), gates, lits, outs + [out], k);
  }

  lemma ConstraintAdded(d: Design, zinit: bool, gates: seq<Gate>, lits: map<Bit, Literal>, next: seq<Literal>,
                        outs: seq<Literal>, k: nat, out: Literal)
    requires Progress(d, zinit, gates, lits, next, outs, |d.outputs|, |d.asserts|, k, 0, 0) && k < |d.assumes|
    requires |outs| == ConstraintStart(d) + k && ConstraintWired(Base(d, zinit), gates, lits, d.assumes[k], out)
    ensures Progress(d, zinit, gates, lits, next, outs + [out], |d.outputs|, |d.asserts|, k + 1, 0, 0)
  {
    ProgressCarried(d, zinit, gates, lits, next, outs, gates, lits, next, outs + [out], |d.outputs|, |d.asserts|, k, 0, 0);
    assert ConstraintOk(d, Base(d, zinit), gates, lits, outs + [out], k);
  }

  lemma LiveAdded(d: Design, zinit: bool, gates: seq<Gate>, lits: map<Bit, Literal>, next: seq<Literal>,
                  outs: seq<Literal>, k: nat, d1: Literal, d2: Literal, out: Literal)
    requires Progress(d, zinit, gates, lits, next, outs, |d.outputs|, |d.asserts|, |d.assumes|, k, 0) && k < |d.lives|
    requires |outs| == JusticeStart(d) + k && |next| == MonitorStart(d, zinit) + 2 * k
    requires LiveWired(Base(d, zinit), gates, lits, d.lives[k], LiveInput(d, zinit, k), Monitor(d, zinit, 2 * k),
                       Monitor(d, zinit, 2 * k + 1), d1, d2, out)
    ensures Progress(d, zinit, gates, lits, next + [d1, d2], outs + [out], |d.outputs|, |d.asserts|, |d.assumes|, k + 1, 0)
  {
    ProgressCarried(d, zinit, gates, lits, next, outs, gates, lits, next + [d1, d2], outs + [out],
                    |d.outputs|, |d.asserts|, |d.assumes|, k, 0);
    assert LiveOk(d, zinit, gates, lits, next + [d1, d2], outs + [out], k);
  }

  lemma FairAdded(d: Design, zinit: bool, gates: seq<Gate>, lits: map<Bit, Literal>, next: seq<Literal>,
                  outs: seq<Literal>, k: nat, pending: Literal, out: Literal)
    requires Progress(d, zinit, gates, lits, next, outs, |d.outputs|, |d.asserts|, |d.assumes|, |d.lives|, k)
    requires k < |d.fairs|
    requires |outs| == FairStart(d) + k && |next| == MonitorStart(d, zinit) + 2 * |d.lives| + k
    requires FairWired(Base(d, zinit), gates, lits, d.fairs[k], Monitor(d, zinit, 2 * |d.lives| + k), pending, out)
    ensures Progress(d, zinit, gates, lits, next + [pending], outs + [out],
                     |d.outputs|, |d.asserts|, |d.assumes|, |d.lives|, k + 1)
  {
    ProgressCarried(d, zinit, gates, lits, next, outs, gates, lits, next + [pending], outs + [out],
                    |d.outputs|, |d.asserts|, |d.assumes|, |d.lives|, k);
    assert FairOk(d, zinit, gates, lits, next + [pending], outs + [out], k);
  }

  // ---------------------------------------------------------------------------------------------
  // Numbering

  /** Only seeds have literals. */
  ghost predicate OnlySeeds(d: Design, lits: map<Bit, Literal>) {
    lits.Keys <= d.tied.Keys + {Zero, One} + d.free
  }

  ghost predicate InputsUpTo(d: Design, lits: map<Bit, Literal>, n: nat)
    requires n <= |d.inputs|
  {
    && OnlySeeds(d, lits)
    && (forall b :: b in d.tied ==> b in lits && lits[b] == (if d.tied[b] then TRUE else FALSE))
    && Zero in lits && lits[Zero] == FALSE && One in lits && lits[One] == TRUE
    && (forall k :: 0 <= k < n ==> d.inputs[k] in lits && lits[d.inputs[k]] == Literal(k + 1, false))
  }

  lemma InputAdded(d: Design, lits: map<Bit, Literal>, n: nat)
    requires Wf(d) && n < |d.inputs| && InputsUpTo(d, lits, n)
    ensures InputsUpTo(d, lits[d.inputs[n] := Literal(n + 1, false)], n + 1)
  {
    assert d.inputs[n] in d.free by {
      assert d.inputs[n] in d.inputs;
    }
    forall k | 0 <= k < n
      ensures d.inputs[k] != d.inputs[n]
    {
      InputsDiffer(d, |d.inputs|, k, n);
    }
  }

  predicate AtLatch(d: Design, zinit: bool, lits: map<Bit, Literal>, k: nat)
    requires k < |d.ffs|
  {
    d.ffs[k].q in lits && lits[d.ffs[k].q] == Latch(d, zinit, k)
  }

  ghost predicate LatchesUpTo(d: Design, zinit: bool, lits: map<Bit, Literal>, n: nat)
    requires n <= |d.ffs|
  {
    InputsUpTo(d, lits, |d.inputs|) && forall k: nat :: k < n ==> AtLatch(d, zinit, lits, k)
  }

  lemma QIsFree(d: Design, n: nat)
    requires Wf(d) && n < |d.ffs|
    ensures d.ffs[n].q in d.free && d.ffs[n].q !in d.tied && d.ffs[n].q.Wire? && d.ffs[n].q !in d.inputs
  {
    assert d.ffs[n] in d.ffs;
  }

  lemma SeedKept(d: Design, lits: map<Bit, Literal>, n: nat, literal: Literal)
    requires Wf(d) && n < |d.ffs| && InputsUpTo(d, lits, |d.inputs|)
    ensures InputsUpTo(d, lits[d.ffs[n].q := literal], |d.inputs|)
  {
    QIsFree(d, n);
  }

  lemma OthersDiffer(d: Design, n: nat, k: nat)
    requires Wf(d) && n < |d.ffs| && k < |d.ffs| && k != n
    ensures d.ffs[k].q != d.ffs[n].q
  {
    if k < n {
      QsDiffer(d, |d.ffs|, k, n);
    } else {
      QsDiffer(d, |d.ffs|, n, k);
    }
  }

  lemma LatchAdded(d: Design, zinit: bool, lits: map<Bit, Literal>, n: nat)
    requires Wf(d) && n < |d.ffs| && LatchesUpTo(d, zinit, lits, n)
    ensures LatchesUpTo(d, zinit, lits[d.ffs[n].q := Latch(d, zinit, n)], n + 1)
  {
    var lits' := lits[d.ffs[n].q := Latch(d, zinit, n)];
    SeedKept(d, lits, n, Latch(d, zinit, n));
    forall k: nat | k < n + 1
      ensures AtLatch(d, zinit, lits', k)
    {
      if k < n {
        OthersDiffer(d, n, k);
        assert AtLatch(d, zinit, lits, k);
      }
    }
  }

  /** The multiplexers of the first `n` flip-flops are in place, the others still have their latch. */
  ghost predicate MuxedUpTo(d: Design, zinit: bool, gates: seq<Gate>, lits: map<Bit, Literal>, n: nat)
    requires n <= |d.ffs|
  {
    && InputsUpTo(d, lits, |d.inputs|)
    && (forall k: nat :: n <= k < |d.ffs| ==> AtLatch(d, zinit, lits, k))
    && (forall k: nat :: k < n ==> AtFlipFlop(d, zinit, gates, lits, k))
  }

  /** The three gates of the multiplexer, appended to those of the flip-flops before. */
  lemma MuxAppended(d: Design, zinit: bool, before: seq<Gate>, gates: seq<Gate>, k: nat)
    requires k < |d.ffs| && |before| == 3 * Uninit(d, k)
    requires var base := Base(d, zinit) + 3 * Uninit(d, k);
             gates == before + [GateOf(Latch(d, zinit, k), Neg(InitLiteral(d, zinit)))]
                      + [GateOf(InitInput(d, k), InitLiteral(d, zinit))]
                      + [GateOf(Neg(Literal(base + 1, false)), Neg(Literal(base + 2, false)))]
    ensures MuxGates(d, zinit, gates, k)
  {
  }

  lemma MuxAdded(d: Design, zinit: bool, gates: seq<Gate>, lits: map<Bit, Literal>, gates': seq<Gate>, n: nat)
    requires Wf(d) && n < |d.ffs| && MuxedUpTo(d, zinit, gates, lits, n) && gates <= gates'
    requires Muxed(d, zinit, n) ==> MuxGates(d, zinit, gates', n)
    ensures MuxedUpTo(d, zinit, gates', lits[d.ffs[n].q := FlipFlopLiteral(d, zinit, n)], n + 1)
  {
    var lits' := lits[d.ffs[n].q := FlipFlopLiteral(d, zinit, n)];
    SeedKept(d, lits, n, FlipFlopLiteral(d, zinit, n));
    forall k: nat | n + 1 <= k < |d.ffs|
      ensures AtLatch(d, zinit, lits', k)
    {
      OthersDiffer(d, n, k);
      assert AtLatch(d, zinit, lits, k);
    }
    forall k: nat | k < n + 1
      ensures AtFlipFlop(d, zinit, gates', lits', k)
    {
      if k < n {
        OthersDiffer(d, n, k);
        assert AtFlipFlop(d, zinit, gates, lits, k);
      }
    }
  }

  predicate HasInitInput(d: Design, given: map<Bit, Literal>, k: nat)
    requires k < |d.ffs|
  {
    d.ffs[k].q !in d.init ==> d.ffs[k].q in given && given[d.ffs[k].q] == InitInput(d, k)
  }

  /** The uninitialised ones among the first `n` flip-flops have their init input. */
  ghost predicate InitInputsUpTo(d: Design, given: map<Bit, Literal>, n: nat)
    requires n <= |d.ffs|
  {
    (given != map[] <==> Uninit(d, n) > 0) && forall k: nat :: k < n ==> HasInitInput(d, given, k)
  }

  lemma InitInputAdded(d: Design, given: map<Bit, Literal>, n: nat)
    requires Wf(d) && n < |d.ffs| && InitInputsUpTo(d, given, n)
    ensures d.ffs[n].q in d.init ==> InitInputsUpTo(d, given, n + 1)
    ensures d.ffs[n].q !in d.init ==> InitInputsUpTo(d, given[d.ffs[n].q := InitInput(d, n)], n + 1)
  {
    var given' := given[d.ffs[n].q := InitInput(d, n)];
    assert d.ffs[n].q in given';
    forall k: nat | k < n
      ensures HasInitInput(d, given', k)
    {
      OthersDiffer(d, n, k);
      assert HasInitInput(d, given, k);
    }
  }

  lemma AllMuxed(d: Design, zinit: bool, gates: seq<Gate>, lits: map<Bit, Literal>)
    requires MuxedUpTo(d, zinit, gates, lits, |d.ffs|)
    ensures InputsNumbered(d, lits) && FlipFlopsNumbered(d, zinit, gates, lits)
  {
  }

  lemma NothingMuxed(d: Design, lits: map<Bit, Literal>)
    requires LatchesUpTo(d, false, lits, |d.ffs|)
    ensures MuxedUpTo(d, false, [], lits, |d.ffs|)
  {
    forall k: nat | k < |d.ffs|
      ensures AtFlipFlop(d, false, [], lits, k)
    {
      assert AtLatch(d, false, lits, k);
    }
  }

  ghost predicate AllSeeded(d: Design, lits: map<Bit, Literal>) {
    OnlySeeds(d, lits) && d.free <= lits.Keys && d.tied.Keys <= lits.Keys && Zero in lits && One in lits
  }

  lemma SeedsComplete(d: Design, zinit: bool, gates: seq<Gate>, lits: map<Bit, Literal>)
    requires Wf(d) && MuxedUpTo(d, zinit, gates, lits, |d.ffs|)
    ensures AllSeeded(d, lits)
  {
    forall b | b in d.free
      ensures b in lits
    {
      if b in d.inputs {
        var k :| 0 <= k < |d.inputs| && d.inputs[k] == b;
        assert d.inputs[k] in lits;
      } else {
        var f :| f in d.ffs && f.q == b;
        var k :| 0 <= k < |d.ffs| && d.ffs[k] == f;
        assert AtFlipFlop(d, zinit, gates, lits, k);
      }
    }
  }

  /** Every literal is within the variables defined so far. */
  lemma SeedsBounded(d: Design, zinit: bool, gates: seq<Gate>, lits: map<Bit, Literal>, b: Bit)
    requires Wf(d) && MuxedUpTo(d, zinit, gates, lits, |d.ffs|) && b in lits
    ensures lits[b].variable <= Base(d, zinit) + |gates|
  {
    if b in d.inputs {
      var k :| 0 <= k < |d.inputs| && d.inputs[k] == b;
    } else if b in d.free {
      var f :| f in d.ffs && f.q == b;
      var k :| 0 <= k < |d.ffs| && d.ffs[k] == f;
      assert AtFlipFlop(d, zinit, gates, lits, k);
    } else {
      assert b in d.tied || b == Zero || b == One;
    }
  }

  ghost predicate Resets(d: Design, reset: seq<nat>) {
    forall k: nat {:trigger reset[k]} :: k < |reset| ==> reset[k] == ResetOf(d, k)
  }

  lemma ResetAdded(d: Design, reset: seq<nat>, r: nat)
    requires Resets(d, reset) && r == ResetOf(d, |reset|)
    ensures Resets(d, reset + [r])
  {
  }
}
