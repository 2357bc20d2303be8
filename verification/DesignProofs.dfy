/** From verdicts on the written graph to the design: the proof steps of the conductor, run on the graph
    that the writer delivers, prove the assertions of the design itself. */
module DesignProofs {
  import opened AigDesign
  import opened AigGraph
  import opened AigerLayout
  import opened AigerMonitors
  import opened AigerMeaning
  import opened AigerRuns
  import S = AigSelect

  /** The bad section of the file. */
  function Bads(d: Design, g: Aig): (r: seq<Literal>)
    requires |g.outs| == FairStart(d) + |d.fairs|
    ensures |r| == |d.asserts| && forall k :: 0 <= k < |r| ==> r[k] == g.outs[BadStart(d) + k]
  {
    g.outs[BadStart(d)..ConstraintStart(d)]
  }

  /** The constraint section of the file. */
  function Constraints(d: Design, g: Aig): (r: seq<Literal>)
    requires |g.outs| == FairStart(d) + |d.fairs|
    ensures |r| == |d.assumes| && forall k :: 0 <= k < |r| ==> r[k] == g.outs[ConstraintStart(d) + k]
  {
    g.outs[ConstraintStart(d)..JusticeStart(d)]
  }

  /** The values of all variables of the graph along one of its runs. */
  ghost function TraceOf(g: Aig, ins: Words, latches: Words): S.Trace
    requires Shaped(g, ins, latches)
  {
    (t: nat) => Cycle(g, ins(t), latches(t))
  }

  /** The model checker finds no counterexample of the selected model: none of its runs is one. */
  ghost predicate SafeVerdict(d: Design, zinit: bool, g: Aig, names: seq<S.Property>, p: S.Proof)
    requires |g.outs| == FairStart(d) + |d.fairs| && |names| == |d.asserts|
  {
    forall ins: Words, latches: Words :: IsAigRun(g, zinit, ins, latches) ==>
      S.Proved(TraceOf(g, ins, latches), names, Bads(d, g), Constraints(d, g), p)
  }

  /** Assertion `k` is not violated up to `t`. */
  ghost predicate HoldsUpTo(d: Design, run: nat -> Bit -> bool, k: nat, t: nat)
    requires k < |d.asserts|
  {
    forall u: nat :: u <= t ==> !Violated(d.asserts[k], run(u))
  }

  /** Along a run of the graph that tracks one of the design, a bad literal is the violation. */
  lemma BadTracks(d: Design, zinit: bool, g: Aig, lits: map<Bit, Literal>, depth: map<Bit, nat>, ins: Words,
                  latches: Words, run: nat -> Bit -> bool, k: nat, u: nat)
    requires Compiled(d, zinit, g, lits, depth) && IsAigRun(g, zinit, ins, latches) && Tracks(g, lits, ins, latches, run)
    requires k < |d.asserts|
    ensures S.At(TraceOf(g, ins, latches), u, Bads(d, g)[k]) == Violated(d.asserts[k], run(u))
  {
    BadMeaning(d, zinit, g, lits, depth, ins, latches, u, k);
    CheckTranslated(d, zinit, g, lits, d.asserts[k]);
  }

  lemma HeldTracks(d: Design, zinit: bool, g: Aig, lits: map<Bit, Literal>, depth: map<Bit, nat>, ins: Words,
                   latches: Words, run: nat -> Bit -> bool, k: nat, t: nat)
    requires Compiled(d, zinit, g, lits, depth) && IsAigRun(g, zinit, ins, latches) && Tracks(g, lits, ins, latches, run)
    requires k < |d.asserts|
    ensures S.HasHeld(TraceOf(g, ins, latches), Bads(d, g), k, t) <==> HoldsUpTo(d, run, k, t)
  {
    forall u: nat
      ensures S.At(TraceOf(g, ins, latches), u, Bads(d, g)[k]) == Violated(d.asserts[k], run(u))
    {
      BadTracks(d, zinit, g, lits, depth, ins, latches, run, k, u);
    }
  }

  lemma ConstraintTracks(d: Design, g: Aig, ins: Words, latches: Words, t: nat)
    requires Shaped(g, ins, latches) && |g.outs| == FairStart(d) + |d.fairs| && ConstraintsHold(d, g, ins, latches, t)
    ensures S.HoldUpTo(TraceOf(g, ins, latches), Constraints(d, g), t)
  {
    var v, constraints := TraceOf(g, ins, latches), Constraints(d, g);
    forall u: nat, c | u <= t && c in constraints
      ensures S.At(v, u, c)
    {
      var k: nat :| k < |constraints| && constraints[k] == c;
      assert ConstraintAt(d, g, ins, latches, u, k);
    }
  }

  lemma AssumesTrack(d: Design, zinit: bool, g: Aig, lits: map<Bit, Literal>, depth: map<Bit, nat>, ins: Words,
                     latches: Words, run: nat -> Bit -> bool, t: nat)
    requires Compiled(d, zinit, g, lits, depth) && IsAigRun(g, zinit, ins, latches) && Tracks(g, lits, ins, latches, run)
    requires AssumesHold(d, run, t)
    ensures S.HoldUpTo(TraceOf(g, ins, latches), Constraints(d, g), t)
  {
    SameAssumes(d, zinit, g, lits, run, RunOf(g, lits, ins, latches), t);
    ConstraintsMeaning(d, zinit, g, lits, depth, ins, latches, t);
    ConstraintTracks(d, g, ins, latches, t);
  }

  /** With a safe verdict for a proof of every assertion outside `skipped`, no run of the design that keeps
      the assumptions up to `t` violates one of them by then, as long as it violates no skipped assertion
      of an earlier step. */
  lemma DesignProved(d: Design, zinit: bool, g: Aig, lits: map<Bit, Literal>, depth: map<Bit, nat>,
                     names: seq<S.Property>, proofs: seq<S.Proof>, skipped: set<nat>,
                     run: nat -> Bit -> bool, t: nat, i: nat)
    requires Compiled(d, zinit, g, lits, depth) && |names| == |d.asserts| && S.Unskipped(names, skipped, i)
    requires S.Complete(names, proofs, skipped)
    requires forall k: nat :: k < |proofs| ==> SafeVerdict(d, zinit, g, names, proofs[k])
    requires IsRun(d, lits.Keys, run) && AssumesHold(d, run, t)
    requires forall j: nat :: S.Skipped(names, skipped, j) && names[j].step < names[i].step ==> HoldsUpTo(d, run, j, t)
    ensures HoldsUpTo(d, run, i, t)
  {
    var ins, latches := DesignRunsAreGraphRuns(d, zinit, g, lits, depth, run, PickAll(0));
    var v := TraceOf(g, ins, latches);
    AssumesTrack(d, zinit, g, lits, depth, ins, latches, run, t);
    forall j: nat | S.Skipped(names, skipped, j) && names[j].step < names[i].step
      ensures S.HasHeld(v, Bads(d, g), j, t)
    {
      HeldTracks(d, zinit, g, lits, depth, ins, latches, run, j, t);
    }
    assert S.AllProved(v, names, Bads(d, g), Constraints(d, g), proofs);
    S.StepHolds(v, names, Bads(d, g), Constraints(d, g), proofs, skipped, t, i);
    HeldTracks(d, zinit, g, lits, depth, ins, latches, run, i, t);
  }

  /** The whole flow: the design compiles to `g`, prove mode exits well with all steps taken, completeness
      checked and verdicts looked at, names are not shared between steps, and no skipped assertion is in a
      step below one that is not. Then no run of the design that keeps its assumptions violates an
      assertion that is not skipped. `code` is the exit code of a proof; 20 means safe. */
  lemma FlowProves(d: Design, zinit: bool, g: Aig, lits: map<Bit, Literal>, depth: map<Bit, nat>,
                   names: seq<S.Property>, strategies: seq<seq<S.Proof>>, skipped: set<nat>, code: S.Proof -> int,
                   run: nat -> Bit -> bool, t: nat, i: nat)
    requires Compiled(d, zinit, g, lits, depth) && |names| == |d.asserts| && S.Unskipped(names, skipped, i)
    requires var all := S.Flatten(strategies, 0, |strategies|);
             && S.NamesCovered(names, all, skipped) && S.OwnNames(names, all) && S.StepsNamedApart(names)
             && forall p :: p in all ==> code(p) == 20
    requires S.SkipsLast(names, skipped)
    requires forall p :: code(p) == 20 ==> SafeVerdict(d, zinit, g, names, p)
    requires IsRun(d, lits.Keys, run) && AssumesHold(d, run, t)
    ensures !Violated(d.asserts[i], run(t))
  {
    var all := S.Flatten(strategies, 0, |strategies|);
    S.NamesSuffice(names, all, skipped);
    forall k: nat | k < |all|
      ensures SafeVerdict(d, zinit, g, names, all[k])
    {
      assert all[k] in all;
    }
    DesignProved(d, zinit, g, lits, depth, names, all, skipped, run, t, i);
  }
}
