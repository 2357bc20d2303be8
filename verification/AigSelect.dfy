/** Selecting the properties of one proof step, and why proving every step proves every property. */
module AigSelect {
  import opened AigGraph

  /** A property as its name encodes it. */
  datatype Property = Property(step: nat, cover: bool, name: string)

  predicate Keep(p: Property, step: nat, props: seq<string>) {
    p.step == step && (props == [] || p.name in props)
  }

  /** The property becomes an assumption. */
  predicate Assume(p: Property, step: nat, noAssumes: bool) {
    p.step < step && !p.cover && !noAssumes
  }

  /** The bad literals kept from the first `n`, in order, covers negated. */
  function Kept(names: seq<Property>, bads: seq<Literal>, step: nat, props: seq<string>, n: nat): (r: seq<Literal>)
    requires n <= |names| == |bads|
    ensures |r| <= n
  {
    if n == 0 then []
    else
      var before := Kept(names, bads, step, props, n - 1);
      if !Keep(names[n - 1], step, props) then before
      else if names[n - 1].cover then before + [Neg(bads[n - 1])]
      else before + [bads[n - 1]]
  }

  /** The assumptions made from the first `n`, in order. */
  function Assumed(names: seq<Property>, bads: seq<Literal>, step: nat, props: seq<string>, noAssumes: bool, n: nat):
    (r: seq<Literal>)
    requires n <= |names| == |bads|
  {
    if n == 0 then []
    else
      var before := Assumed(names, bads, step, props, noAssumes, n - 1);
      if !Keep(names[n - 1], step, props) && Assume(names[n - 1], step, noAssumes) then before + [Neg(bads[n - 1])]
      else before
  }

  lemma KeptStep(names: seq<Property>, bads: seq<Literal>, step: nat, props: seq<string>, n: nat)
    requires n < |names| == |bads|
    ensures var kept := if names[n].cover then Neg(bads[n]) else bads[n];
            Kept(names, bads, step, props, n + 1)
              == Kept(names, bads, step, props, n) + (if Keep(names[n], step, props) then [kept] else [])
  {
  }

  lemma AssumedStep(names: seq<Property>, bads: seq<Literal>, step: nat, props: seq<string>, noAssumes: bool, n: nat)
    requires n < |names| == |bads|
    ensures Assumed(names, bads, step, props, noAssumes, n + 1)
         == Assumed(names, bads, step, props, noAssumes, n)
            + (if !Keep(names[n], step, props) && Assume(names[n], step, noAssumes) then [Neg(bads[n])] else [])
  {
  }

  // ---------------------------------------------------------------------------------------------
  // Which bad literals are kept and which are assumed

  /** The indices of `wanted`, in order. */
  ghost predicate Lists(at: seq<nat>, wanted: set<nat>) {
    && (forall j, k :: 0 <= j < k < |at| ==> at[j] < at[k])
    && forall i :: i in at <==> i in wanted
  }

  function ToKeep(names: seq<Property>, step: nat, props: seq<string>, n: nat): set<nat>
    requires n <= |names|
  {
    set i: nat | i < n && names[i].step == step && (props == [] || names[i].name in props)
  }

  function ToAssume(names: seq<Property>, step: nat, noAssumes: bool, n: nat): set<nat>
    requires n <= |names|
  {
    set i: nat | i < n && names[i].step < step && !names[i].cover && !noAssumes
  }

  /** `r` holds the bad literals at the indices of `wanted`, those that are `negated` inverted. */
  ghost predicate Takes(bads: seq<Literal>, wanted: set<nat>, negated: nat -> bool, r: seq<Literal>) {
    exists at: seq<nat> :: Lists(at, wanted) && TakesAt(bads, at, negated, r)
  }

  ghost predicate TakesAt(bads: seq<Literal>, at: seq<nat>, negated: nat -> bool, r: seq<Literal>) {
    |r| == |at| && forall k :: 0 <= k < |r| ==>
      at[k] < |bads| && r[k].variable == bads[at[k]].variable
      && r[k].inverted == if negated(at[k]) then !bads[at[k]].inverted else bads[at[k]].inverted
  }

  function Covers(names: seq<Property>): nat -> bool {
    (i: nat) => i < |names| && names[i].cover
  }

  function All(): nat -> bool {
    (i: nat) => true
  }

  lemma TakesNone(bads: seq<Literal>, wanted: set<nat>, negated: nat -> bool)
    requires wanted == {}
    ensures Takes(bads, wanted, negated, [])
  {
    var at: seq<nat> := [];
    assert Lists(at, wanted) && TakesAt(bads, at, negated, []);
  }

  lemma TakesMore(bads: seq<Literal>, wanted: set<nat>, negated: nat -> bool, r: seq<Literal>, n: nat, x: Literal)
    requires Takes(bads, wanted, negated, r) && n < |bads| && (forall i :: i in wanted ==> i < n)
    requires x == if negated(n) then Neg(bads[n]) else bads[n]
    ensures Takes(bads, wanted + {n}, negated, r + [x])
  {
    var at: seq<nat> :| Lists(at, wanted) && TakesAt(bads, at, negated, r);
    var more := at + [n];
    forall j | 0 <= j < |at|
      ensures at[j] < n
    {
      assert at[j] in at;
    }
    forall i
      ensures i in more <==> i in wanted + {n}
    {
      assert i in more <==> i in at || i == n;
    }
    assert Lists(more, wanted + {n}) && TakesAt(bads, more, negated, r + [x]);
  }

  /** The properties of the step that are asked for are kept, covers negated, in their order. */
  lemma {:induction false} KeptExact(names: seq<Property>, bads: seq<Literal>, step: nat, props: seq<string>, n: nat)
    requires n <= |names| == |bads|
    ensures Takes(bads, ToKeep(names, step, props, n), Covers(names), Kept(names, bads, step, props, n))
  {
    if n == 0 {
      TakesNone(bads, ToKeep(names, step, props, 0), Covers(names));
    } else {
      KeptExact(names, bads, step, props, n - 1);
      var before := ToKeep(names, step, props, n - 1);
      if Keep(names[n - 1], step, props) {
        TakesMore(bads, before, Covers(names), Kept(names, bads, step, props, n - 1), n - 1,
                  if names[n - 1].cover then Neg(bads[n - 1]) else bads[n - 1]);
        assert ToKeep(names, step, props, n) == before + {n - 1};
      } else {
        assert ToKeep(names, step, props, n) == before;
      }
    }
  }

  /** The assertions of earlier steps are assumed, negated, in their order; none with `noAssumes`. */
  lemma {:induction false} AssumedExact(names: seq<Property>, bads: seq<Literal>, step: nat, props: seq<string>,
                                        noAssumes: bool, n: nat)
    requires n <= |names| == |bads|
    ensures Takes(bads, ToAssume(names, step, noAssumes, n), All(),
                  Assumed(names, bads, step, props, noAssumes, n))
    ensures noAssumes ==> Assumed(names, bads, step, props, noAssumes, n) == []
  {
    if n == 0 {
      TakesNone(bads, ToAssume(names, step, noAssumes, 0), All());
    } else {
      AssumedExact(names, bads, step, props, noAssumes, n - 1);
      var before := ToAssume(names, step, noAssumes, n - 1);
      if Assume(names[n - 1], step, noAssumes) {
        TakesMore(bads, before, All(), Assumed(names, bads, step, props, noAssumes, n - 1), n - 1,
                  Neg(bads[n - 1]));
        assert ToAssume(names, step, noAssumes, n) == before + {n - 1};
      } else {
        assert ToAssume(names, step, noAssumes, n) == before;
      }
    }
  }

  lemma SelectExact(names: seq<Property>, bads: seq<Literal>, step: nat, props: seq<string>, noAssumes: bool,
                    before: seq<Literal>, after: seq<Literal>)
    requires |names| == |bads| && after == before + Assumed(names, bads, step, props, noAssumes, |names|)
    ensures Takes(bads, ToKeep(names, step, props, |names|), Covers(names), Kept(names, bads, step, props, |names|))
    ensures Takes(bads, ToAssume(names, step, noAssumes, |names|), All(), after[|before|..])
    ensures noAssumes ==> after == before
  {
    KeptExact(names, bads, step, props, |names|);
    AssumedExact(names, bads, step, props, noAssumes, |names|);
    assert after[|before|..] == Assumed(names, bads, step, props, noAssumes, |names|);
  }

  /** One more name: what is kept and what is assumed. */
  lemma SelectNext(names: seq<Property>, bads: seq<Literal>, step: nat, props: seq<string>, noAssumes: bool, n: nat,
                   before: seq<Literal>)
    requires n < |names| == |bads|
    ensures bads[n..][0] == bads[n]
    ensures var kept := if names[n].cover then Neg(bads[n]) else bads[n];
            var head := Kept(names, bads, step, props, n);
            var more := if Keep(names[n], step, props) then head + [kept] else head;
            Kept(names, bads, step, props, n + 1) == more && more + bads[n..][1..] == more + bads[n + 1..]
    ensures before + Assumed(names, bads, step, props, noAssumes, n + 1)
         == before + Assumed(names, bads, step, props, noAssumes, n)
            + (if !Keep(names[n], step, props) && Assume(names[n], step, noAssumes) then [Neg(bads[n])] else [])
  {
    assert bads[n..][1..] == bads[n + 1..];
    KeptStep(names, bads, step, props, n);
    AssumedStep(names, bads, step, props, noAssumes, n);
  }

  /** The part of the file the selection changes. */
  class AigFile {
    var bads: seq<Literal>
    var constraints: seq<Literal>

    constructor (bads: seq<Literal>, constraints: seq<Literal>)
      ensures this.bads == bads && this.constraints == constraints
    {
      this.bads, this.constraints := bads, constraints;
    }

    /** The loop walks along the names while it removes from the bads in place. */
    method Select(names: seq<Property>, step: nat, props: seq<string>, noAssumes: bool)
      requires |names| == |bads|
      modifies this
      ensures bads == Kept(names, old(bads), step, props, |names|)
      ensures constraints == old(constraints) + Assumed(names, old(bads), step, props, noAssumes, |names|)
      ensures Takes(old(bads), ToKeep(names, step, props, |names|), Covers(names), bads)
      ensures Takes(old(bads), ToAssume(names, step, noAssumes, |names|), All(),
                    constraints[|old(constraints)|..])
      ensures noAssumes ==> constraints == old(constraints)
    {
      ghost var bads0 := bads;
      var bn, b := 0, 0;
      while b < |bads|
        invariant bn <= |names| && b == |Kept(names, bads0, step, props, bn)|
        invariant bads == Kept(names, bads0, step, props, bn) + bads0[bn..]
        invariant constraints == old(constraints) + Assumed(names, bads0, step, props, noAssumes, bn)
        decreases |names| - bn
      {
        ghost var head := Kept(names, bads0, step, props, bn);
        SelectNext(names, bads0, step, props, noAssumes, bn, old(constraints));
        b := SelectOne(names[bn], step, props, noAssumes, b, head, bads0[bn..]);
        bn := bn + 1;
      }
      SelectExact(names, bads0, step, props, noAssumes, old(constraints), constraints);
    }

    /** One round: the bad at `b`, the first of `rest`, is kept, deleted or turned into an assumption. */
    method SelectOne(p: Property, step: nat, props: seq<string>, noAssumes: bool, b: nat, ghost head: seq<Literal>,
                     ghost rest: seq<Literal>) returns (b': nat)
      requires b == |head| && bads == head + rest && |rest| > 0
      modifies this
      ensures var kept := if p.cover then Neg(rest[0]) else rest[0];
              bads == (if Keep(p, step, props) then head + [kept] else head) + rest[1..]
      ensures b' == if Keep(p, step, props) then b + 1 else b
      ensures constraints == old(constraints)
                + (if !Keep(p, step, props) && Assume(p, step, noAssumes) then [Neg(rest[0])] else [])
    {
      assert bads[b] == rest[0] && bads[..b] == head && bads[b + 1..] == rest[1..];
      b' := b;
      if p.step == step && (props == [] || p.name in props) {
        if p.cover {
          bads := bads[b := Neg(bads[b])];
        }
        assert bads == head + [bads[b]] + rest[1..];
        b' := b + 1;
      } else if noAssumes || p.cover || p.step >= step {
        bads := bads[..b] + bads[b + 1..];
      } else {
        constraints := constraints + [Neg(bads[b])];
        bads := bads[..b] + bads[b + 1..];
      }
    }
  }

  // ---------------------------------------------------------------------------------------------
  // What the selection contains

  lemma {:induction false} KeptMember(names: seq<Property>, bads: seq<Literal>, step: nat, props: seq<string>, n: nat, i: nat)
    requires i < n <= |names| == |bads| && Keep(names[i], step, props)
    ensures (if names[i].cover then Neg(bads[i]) else bads[i]) in Kept(names, bads, step, props, n)
    decreases n
  {
    if i < n - 1 {
      KeptMember(names, bads, step, props, n - 1, i);
    }
  }

  /** Every assumption is the negation of an earlier step's bad literal. */
  lemma {:induction false} AssumedSource(names: seq<Property>, bads: seq<Literal>, step: nat, props: seq<string>,
                                         noAssumes: bool, n: nat, c: Literal) returns (i: nat)
    requires n <= |names| == |bads| && c in Assumed(names, bads, step, props, noAssumes, n)
    ensures i < n && names[i].step < step && !names[i].cover && c == Neg(bads[i])
    decreases n
  {
    if c in Assumed(names, bads, step, props, noAssumes, n - 1) {
      i := AssumedSource(names, bads, step, props, noAssumes, n - 1, c);
    } else {
      i := n - 1;
    }
  }

  // ---------------------------------------------------------------------------------------------
  // Soundness of the stepwise scheme

  /** The values of all variables, over time. */
  type Trace = nat -> seq<bool>

  predicate At(v: Trace, t: nat, x: Literal) {
    LitValue(v(t), x)
  }

  ghost predicate AllHold(v: Trace, constraints: seq<Literal>, t: nat) {
    forall c :: c in constraints ==> At(v, t, c)
  }

  ghost predicate HoldUpTo(v: Trace, constraints: seq<Literal>, t: nat) {
    forall u: nat :: u <= t ==> AllHold(v, constraints, u)
  }

  /** What a safe verdict says about this trace: no bad state while the constraints have held. */
  ghost predicate Safe(v: Trace, bads: seq<Literal>, constraints: seq<Literal>) {
    forall t: nat, b :: HoldUpTo(v, constraints, t) && b in bads ==> !At(v, t, b)
  }

  /** One proof: a step and the properties given to `select`. */
  datatype Proof = Proof(step: nat, props: seq<string>)

  ghost predicate Proved(v: Trace, names: seq<Property>, bads: seq<Literal>, constraints: seq<Literal>, p: Proof)
    requires |names| == |bads|
  {
    Safe(v, Kept(names, bads, p.step, p.props, |names|),
         constraints + Assumed(names, bads, p.step, p.props, false, |names|))
  }

  ghost predicate CoveredBy(p: Property, proof: Proof) {
    Keep(p, proof.step, proof.props)
  }

  ghost predicate Covered(names: seq<Property>, proofs: seq<Proof>, i: nat)
    requires i < |names|
  {
    exists k: nat :: k < |proofs| && CoveredBy(names[i], proofs[k])
  }

  /** Property `i` has not failed up to `t`. */
  ghost predicate HasHeld(v: Trace, bads: seq<Literal>, i: nat, t: nat)
    requires i < |bads|
  {
    forall u: nat :: u <= t ==> !At(v, u, bads[i])
  }

  /** Every property outside `skipped` is an assertion some proof covers. */
  ghost predicate Complete(names: seq<Property>, proofs: seq<Proof>, skipped: set<nat>) {
    forall i: nat :: i < |names| && !names[i].cover && i !in skipped ==> Covered(names, proofs, i)
  }

  lemma NegAt(v: Trace, t: nat, x: Literal)
    ensures At(v, t, Neg(x)) == !At(v, t, x)
  {
  }

  lemma AssumptionHolds(v: Trace, names: seq<Property>, bads: seq<Literal>, p: Proof, u: nat, c: Literal)
    requires |names| == |bads| && c in Assumed(names, bads, p.step, p.props, false, |names|)
    requires forall i: nat :: i < |names| && names[i].step < p.step && !names[i].cover ==> HasHeld(v, bads, i, u)
    ensures At(v, u, c)
  {
    var i := AssumedSource(names, bads, p.step, p.props, false, |names|, c);
    assert HasHeld(v, bads, i, u);
    NegAt(v, u, bads[i]);
  }

  /** If the properties of all earlier steps have held, the constraints of the selected model have. */
  lemma AssumptionsHold(v: Trace, names: seq<Property>, bads: seq<Literal>, constraints: seq<Literal>, p: Proof, t: nat)
    requires |names| == |bads| && HoldUpTo(v, constraints, t)
    requires forall i: nat :: i < |names| && names[i].step < p.step && !names[i].cover ==> HasHeld(v, bads, i, t)
    ensures HoldUpTo(v, constraints + Assumed(names, bads, p.step, p.props, false, |names|), t)
  {
    var assumed := Assumed(names, bads, p.step, p.props, false, |names|);
    forall u: nat | u <= t
      ensures AllHold(v, constraints + assumed, u)
    {
      assert AllHold(v, constraints, u);
      forall i: nat | i < |names| && names[i].step < p.step && !names[i].cover
        ensures HasHeld(v, bads, i, u)
      {
        Earlier(v, bads, i, u, t);
      }
      forall c | c in assumed
        ensures At(v, u, c)
      {
        AssumptionHolds(v, names, bads, p, u, c);
      }
    }
  }

  ghost predicate AllProved(v: Trace, names: seq<Property>, bads: seq<Literal>, constraints: seq<Literal>, proofs: seq<Proof>)
    requires |names| == |bads|
  {
    forall k: nat :: k < |proofs| ==> Proved(v, names, bads, constraints, proofs[k])
  }

  /** Property `i` is an assertion outside `skipped`. */
  ghost predicate Unskipped(names: seq<Property>, skipped: set<nat>, i: nat) {
    i < |names| && !names[i].cover && i !in skipped
  }

  ghost predicate Skipped(names: seq<Property>, skipped: set<nat>, j: nat) {
    j < |names| && !names[j].cover && j in skipped
  }

  /** By induction over the steps: once every assertion outside `skipped` is proved in its step, each holds
      up to any time up to which the constraints and the skipped assertions of earlier steps hold. */
  lemma {:induction false} StepHolds(v: Trace, names: seq<Property>, bads: seq<Literal>, constraints: seq<Literal>,
                                     proofs: seq<Proof>, skipped: set<nat>, t: nat, i: nat)
    requires |names| == |bads| && Unskipped(names, skipped, i)
    requires Complete(names, proofs, skipped) && HoldUpTo(v, constraints, t)
    requires AllProved(v, names, bads, constraints, proofs)
    requires forall j: nat :: Skipped(names, skipped, j) && names[j].step < names[i].step ==> HasHeld(v, bads, j, t)
    ensures HasHeld(v, bads, i, t)
    decreases names[i].step
  {
    assert Covered(names, proofs, i);
    var k: nat :| k < |proofs| && CoveredBy(names[i], proofs[k]);
    forall u: nat | u <= t
      ensures !At(v, u, bads[i])
    {
      forall j: nat | j < |names| && names[j].step < proofs[k].step && !names[j].cover
        ensures HasHeld(v, bads, j, u)
      {
        if j !in skipped {
          StepHolds(v, names, bads, constraints, proofs, skipped, t, j);
        }
        Earlier(v, bads, j, u, t);
      }
      AssumptionsHold(v, names, bads, constraints, proofs[k], u);
      KeptMember(names, bads, proofs[k].step, proofs[k].props, |names|, i);
      assert Proved(v, names, bads, constraints, proofs[k]);
    }
  }

  lemma Earlier(v: Trace, bads: seq<Literal>, j: nat, u: nat, t: nat)
    requires j < |bads| && u <= t && HasHeld(v, bads, j, t)
    ensures HasHeld(v, bads, j, u)
  {
  }

  /** The stepwise scheme is sound: with nothing skipped, a safe verdict for every proof means that every
      assertion of every step holds for as long as the constraints do. */
  lemma StepwiseSound(v: Trace, names: seq<Property>, bads: seq<Literal>, constraints: seq<Literal>,
                      proofs: seq<Proof>, t: nat, i: nat)
    requires |names| == |bads| && i < |names| && !names[i].cover
    requires Complete(names, proofs, {}) && HoldUpTo(v, constraints, t)
    requires AllProved(v, names, bads, constraints, proofs)
    ensures HasHeld(v, bads, i, t)
  {
    StepHolds(v, names, bads, constraints, proofs, {}, t, i);
  }

  // ---------------------------------------------------------------------------------------------
  // The conductor's prove mode

  /** What the completeness check compares: the names alone, whatever their step. */
  ghost predicate NamesCovered(names: seq<Property>, proofs: seq<Proof>, skipped: set<nat>) {
    forall i: nat :: i < |names| && !names[i].cover && i !in skipped ==> NameListed(names[i].name, proofs)
  }

  ghost predicate NameListed(name: string, proofs: seq<Proof>) {
    exists k: nat :: k < |proofs| && name in proofs[k].props
  }

  /** Strategies are stored per step and built from that step's own assertions. */
  ghost predicate OwnNames(names: seq<Property>, proofs: seq<Proof>) {
    forall k: nat, name :: k < |proofs| && name in proofs[k].props ==> InStep(names, proofs[k].step, name)
  }

  ghost predicate InStep(names: seq<Property>, step: nat, name: string) {
    exists i: nat :: i < |names| && names[i].step == step && names[i].name == name && !names[i].cover
  }

  /** No assertion name is used in two steps. */
  ghost predicate StepsNamedApart(names: seq<Property>) {
    forall i: nat, j: nat :: i < |names| && j < |names| ==>
      !names[i].cover && !names[j].cover && names[i].name == names[j].name ==> names[i].step == names[j].step
  }

  /** With names used in one step only, comparing names is enough. */
  lemma NamesSuffice(names: seq<Property>, proofs: seq<Proof>, skipped: set<nat>)
    requires NamesCovered(names, proofs, skipped) && OwnNames(names, proofs) && StepsNamedApart(names)
    ensures Complete(names, proofs, skipped)
  {
    forall i: nat | i < |names| && !names[i].cover && i !in skipped
      ensures Covered(names, proofs, i)
    {
      assert NameListed(names[i].name, proofs);
      var k: nat :| k < |proofs| && names[i].name in proofs[k].props;
      assert InStep(names, proofs[k].step, names[i].name);
      var j: nat :| j < |names| && names[j].step == proofs[k].step && names[j].name == names[i].name && !names[j].cover;
      assert CoveredBy(names[i], proofs[k]);
    }
  }

  /** With a name used in two steps the comparison can pass although one of them has no proof: list the
      other one only. */
  lemma NamesMayNotSuffice(names: seq<Property>, i: nat, j: nat) returns (proofs: seq<Proof>)
    requires i < |names| && j < |names| && !names[i].cover && !names[j].cover
    requires names[i].name == names[j].name && names[i].step != names[j].step
    ensures NamesCovered(names, proofs, {}) && OwnNames(names, proofs) && !Covered(names, proofs, i)
  {
    proofs := OneProofEach(names, names[i].step, names[i].name, names[j].step, |names|);
    forall k: nat | k < |names| && !names[k].cover
      ensures NameListed(names[k].name, proofs)
    {
      if names[k].step == names[i].step && names[k].name == names[i].name {
        var m: nat :| m < |proofs| && names[j].name in proofs[m].props;
      } else {
        var m: nat :| m < |proofs| && names[k].name in proofs[m].props;
      }
    }
    forall k: nat | k < |proofs|
      ensures !CoveredBy(names[i], proofs[k])
    {
    }
  }

  /** A proof for every assertion except those called `name` in `step`. */
  lemma {:induction false} OneProofEach(names: seq<Property>, step: nat, name: string, other: nat, n: nat)
    returns (proofs: seq<Proof>)
    requires n <= |names| && other != step
    ensures forall k: nat, x :: k < |proofs| && x in proofs[k].props ==> InStep(names, proofs[k].step, x)
    ensures forall k: nat :: k < |proofs| ==> |proofs[k].props| == 1 && !(proofs[k].step == step && proofs[k].props[0] == name)
    ensures forall i: nat :: i < n && !names[i].cover && !(names[i].step == step && names[i].name == name) ==>
              NameListed(names[i].name, proofs)
    decreases n
  {
    if n == 0 {
      proofs := [];
    } else {
      proofs := OneProofEach(names, step, name, other, n - 1);
      var p := names[n - 1];
      if !p.cover && !(p.step == step && p.name == name) {
        var before := proofs;
        proofs := proofs + [Proof(p.step, [p.name])];
        assert InStep(names, p.step, p.name);
        assert p.name in proofs[|before|].props;
        forall i: nat | i < n - 1 && !names[i].cover && !(names[i].step == step && names[i].name == name)
          ensures NameListed(names[i].name, proofs)
        {
          var k: nat :| k < |before| && names[i].name in before[k].props;
          assert names[i].name in proofs[k].props;
        }
      }
    }
  }

  lemma {:induction false} AssumedMember(names: seq<Property>, bads: seq<Literal>, step: nat, props: seq<string>, n: nat, i: nat)
    requires i < n <= |names| == |bads| && names[i].step < step && !names[i].cover
    ensures Neg(bads[i]) in Assumed(names, bads, step, props, false, n)
    decreases n
  {
    if i < n - 1 {
      AssumedMember(names, bads, step, props, n - 1, i);
    }
  }

  /** When an assertion fails at the start, every selected model of a later step is safe on the trace,
      whatever else fails there. */
  lemma FailureHides(v: Trace, names: seq<Property>, bads: seq<Literal>, constraints: seq<Literal>, p: Proof, i: nat)
    requires |names| == |bads| && i < |names| && !names[i].cover && names[i].step < p.step && At(v, 0, bads[i])
    ensures Proved(v, names, bads, constraints, p)
  {
    var all := constraints + Assumed(names, bads, p.step, p.props, false, |names|);
    AssumedMember(names, bads, p.step, p.props, |names|, i);
    NegAt(v, 0, bads[i]);
    assert Neg(bads[i]) in all && !AllHold(v, all, 0);
    forall t: nat
      ensures !HoldUpTo(v, all, t)
    {
    }
  }

  // When leaving assertions unproved is harmless

  /** Skipping goes by name. */
  ghost predicate SkipsNames(names: seq<Property>, skipped: set<nat>) {
    forall i: nat, j: nat :: Skipped(names, skipped, j) && Unskipped(names, skipped, i) ==> names[i].name != names[j].name
  }

  /** No skipped assertion is in a step below one that is not skipped. */
  ghost predicate SkipsLast(names: seq<Property>, skipped: set<nat>) {
    forall i: nat, j: nat :: Skipped(names, skipped, j) && Unskipped(names, skipped, i) ==> names[i].step <= names[j].step
  }

  /** Variable 0 is the constant of a graph. */
  ghost predicate ConstantFalse(v: Trace) {
    forall t: nat :: |v(t)| > 0 && !v(t)[0]
  }

  /** Every assertion outside `skipped` has its proof, all verdicts are safe on `v`, and the constraints
      hold up to `t`. */
  ghost predicate GoodRun(names: seq<Property>, skipped: set<nat>, v: Trace, bads: seq<Literal>,
                          constraints: seq<Literal>, proofs: seq<Proof>, t: nat) {
    && |names| == |bads| && ConstantFalse(v) && Complete(names, proofs, skipped)
    && AllProved(v, names, bads, constraints, proofs) && HoldUpTo(v, constraints, t)
  }

  /** Whatever the design, good runs leave no assertion outside `skipped` violated. */
  ghost predicate SkipSound(names: seq<Property>, skipped: set<nat>) {
    forall v: Trace, bads, constraints, proofs, t: nat, i: nat ::
      GoodRun(names, skipped, v, bads, constraints, proofs, t) && Unskipped(names, skipped, i) ==> HasHeld(v, bads, i, t)
  }

  lemma {:induction false} KeptSource(names: seq<Property>, bads: seq<Literal>, step: nat, props: seq<string>, n: nat, b: Literal)
    returns (i: nat)
    requires n <= |names| == |bads| && b in Kept(names, bads, step, props, n)
    ensures i < n && Keep(names[i], step, props) && b == if names[i].cover then Neg(bads[i]) else bads[i]
    decreases n
  {
    if b in Kept(names, bads, step, props, n - 1) {
      i := KeptSource(names, bads, step, props, n - 1, b);
    } else {
      i := n - 1;
    }
  }

  /** Bad literals of a design in which `i`, `j` and the covers are reached in every cycle, and nothing
      else in any. */
  function ConstantBads(names: seq<Property>, i: nat, j: nat): (bads: seq<Literal>)
    ensures |bads| == |names|
    ensures forall n :: 0 <= n < |names| ==> bads[n] == if n == i || n == j || names[n].cover then TRUE else FALSE
  {
    seq(|names|, n requires 0 <= n < |names| => if n == i || n == j || names[n].cover then TRUE else FALSE)
  }

  /** The assertion proved by proof `n`: its own, or `i` again. */
  ghost function Target(names: seq<Property>, skipped: set<nat>, i: nat, n: nat): (k: nat)
    requires Unskipped(names, skipped, i)
    ensures Unskipped(names, skipped, k) && (Unskipped(names, skipped, n) ==> k == n)
  {
    if Unskipped(names, skipped, n) then n else i
  }

  ghost function TargetProof(names: seq<Property>, skipped: set<nat>, i: nat, n: nat): Proof
    requires Unskipped(names, skipped, i)
  {
    var k := Target(names, skipped, i, n);
    Proof(names[k].step, [names[k].name])
  }

  lemma ConstantAt(v: Trace, t: nat)
    requires ConstantFalse(v)
    ensures At(v, t, TRUE) && !At(v, t, FALSE) && !At(v, t, Neg(TRUE))
  {
    assert |v(t)| > 0 && !v(t)[0];
  }

  /** What is kept of another property is not reached. */
  lemma OthersUnreached(v: Trace, names: seq<Property>, i: nat, j: nat, m: nat, t: nat)
    requires ConstantFalse(v) && m < |names| && m != i && m != j
    ensures var b := ConstantBads(names, i, j)[m]; !At(v, t, if names[m].cover then Neg(b) else b)
  {
    ConstantAt(v, t);
  }

  lemma TargetOthers(names: seq<Property>, skipped: set<nat>, i: nat, j: nat, n: nat, m: nat)
    requires SkipsNames(names, skipped) && Unskipped(names, skipped, i) && Skipped(names, skipped, j) && m < |names|
    requires names[j].step < names[i].step && TargetProof(names, skipped, i, n).step <= names[j].step
    requires var p := TargetProof(names, skipped, i, n); Keep(names[m], p.step, p.props)
    ensures m != i && m != j
  {
    assert Unskipped(names, skipped, Target(names, skipped, i, n));
  }

  /** Every proof is safe on any trace: those of steps above `j` assume it, the others keep nothing reached. */
  lemma TargetProved(v: Trace, names: seq<Property>, skipped: set<nat>, i: nat, j: nat, n: nat)
    requires ConstantFalse(v)
    requires SkipsNames(names, skipped) && Unskipped(names, skipped, i) && Skipped(names, skipped, j)
    requires names[j].step < names[i].step
    ensures Proved(v, names, ConstantBads(names, i, j), [], TargetProof(names, skipped, i, n))
  {
    var bads, p := ConstantBads(names, i, j), TargetProof(names, skipped, i, n);
    if names[j].step < p.step {
      ConstantAt(v, 0);
      FailureHides(v, names, bads, [], p, j);
    } else {
      forall t: nat, b | b in Kept(names, bads, p.step, p.props, |names|)
        ensures !At(v, t, b)
      {
        var m := KeptSource(names, bads, p.step, p.props, |names|, b);
        TargetOthers(names, skipped, i, j, n, m);
        OthersUnreached(v, names, i, j, m, t);
      }
    }
  }

  lemma TargetsCover(names: seq<Property>, skipped: set<nat>, i: nat, proofs: seq<Proof>)
    requires Unskipped(names, skipped, i)
    requires |proofs| == |names| && forall n: nat :: n < |names| ==> proofs[n] == TargetProof(names, skipped, i, n)
    ensures Complete(names, proofs, skipped)
  {
    forall n: nat | Unskipped(names, skipped, n)
      ensures Covered(names, proofs, n)
    {
      assert CoveredBy(names[n], proofs[n]);
    }
  }

  /** A design on which skipping `j` hides the failure of `i`: on every run all proofs are safe and `i`
      fails at once. */
  lemma SkippingHides(names: seq<Property>, skipped: set<nat>, i: nat, j: nat)
    returns (bads: seq<Literal>, proofs: seq<Proof>)
    requires SkipsNames(names, skipped) && Unskipped(names, skipped, i) && Skipped(names, skipped, j)
    requires names[j].step < names[i].step
    ensures |bads| == |names|
    ensures forall v :: ConstantFalse(v) ==> GoodRun(names, skipped, v, bads, [], proofs, 0) && At(v, 0, bads[i])
  {
    bads := ConstantBads(names, i, j);
    proofs := seq(|names|, n requires 0 <= n < |names| => TargetProof(names, skipped, i, n));
    TargetsCover(names, skipped, i, proofs);
    forall v | ConstantFalse(v)
      ensures GoodRun(names, skipped, v, bads, [], proofs, 0) && At(v, 0, bads[i])
    {
      forall k: nat | k < |proofs|
        ensures Proved(v, names, bads, [], proofs[k])
      {
        TargetProved(v, names, skipped, i, j, k);
      }
      ConstantAt(v, 0);
    }
  }

  /** Skipping assertions is harmless for every design exactly when none of them is in a step below an
      assertion that is not skipped. */
  lemma SkipExact(names: seq<Property>, skipped: set<nat>)
    requires SkipsNames(names, skipped)
    ensures SkipsLast(names, skipped) <==> SkipSound(names, skipped)
  {
    if SkipsLast(names, skipped) {
      forall v: Trace, bads, constraints, proofs, t: nat, i: nat |
        GoodRun(names, skipped, v, bads, constraints, proofs, t) && Unskipped(names, skipped, i)
        ensures HasHeld(v, bads, i, t)
      {
        StepHolds(v, names, bads, constraints, proofs, skipped, t, i);
      }
    } else {
      var i: nat, j: nat :| Skipped(names, skipped, j) && Unskipped(names, skipped, i) && names[j].step < names[i].step;
      var bads, proofs := SkippingHides(names, skipped, i, j);
      var v: Trace := (t: nat) => [false];
      assert ConstantFalse(v);
      assert !HasHeld(v, bads, i, 0);
    }
  }

  function Flatten(strategies: seq<seq<Proof>>, start: nat, n: nat): seq<Proof>
    requires n <= |strategies|
  {
    if n <= start then [] else Flatten(strategies, start, n - 1) + strategies[n - 1]
  }

  /** From `start` on, each stored proof is run, the strategies in the order of their steps. */
  lemma {:induction false} FlattenExact(strategies: seq<seq<Proof>>, start: nat, n: nat, p: Proof)
    requires n <= |strategies|
    ensures p in Flatten(strategies, start, n) <==> exists step :: start <= step < n && p in strategies[step]
  {
    if n > start {
      FlattenExact(strategies, start, n - 1, p);
    }
  }

  lemma {:induction false} FlattenOrder(strategies: seq<seq<Proof>>, start: nat, n: nat, step: nat)
    requires start <= step < n <= |strategies|
    ensures Flatten(strategies, start, step) + strategies[step] <= Flatten(strategies, start, n)
  {
    if step < n - 1 {
      FlattenOrder(strategies, start, n - 1, step);
    }
  }

  /** Every stored proof of a step from `start` on has the good exit code. */
  ghost predicate AllGood(strategies: seq<seq<Proof>>, start: nat, code: Proof -> int) {
    forall step, k :: start <= step < |strategies| && 0 <= k < |strategies[step]| ==> code(strategies[step][k]) == 20
  }

  lemma AllGoodExact(strategies: seq<seq<Proof>>, start: nat, code: Proof -> int)
    ensures AllGood(strategies, start, code) <==> forall p :: p in Flatten(strategies, start, |strategies|) ==> code(p) == 20
  {
    forall p: Proof
      ensures p in Flatten(strategies, start, |strategies|)
         <==> exists step :: start <= step < |strategies| && p in strategies[step]
    {
      FlattenExact(strategies, start, |strategies|, p);
    }
    if forall p :: p in Flatten(strategies, start, |strategies|) ==> code(p) == 20 {
      forall step: nat, k: nat | start <= step < |strategies| && k < |strategies[step]|
        ensures code(strategies[step][k]) == 20
      {
        assert strategies[step][k] in strategies[step];
      }
    }
  }

  /** Prove mode with one strategy for each step, empty where none is stored. `code` is the exit code the
      model checker gives a proof; 20 means safe. Without `byStep` all verdicts are checked; with it the
      proofs are run but their verdicts are not looked at. */
  method ProveMode(names: seq<Property>, strategies: seq<seq<Proof>>, start: nat, skipped: set<nat>, byStep: bool,
                   checkComplete: bool, code: Proof -> int) returns (ok: bool)
    ensures ok <==>
      && (checkComplete ==> NamesCovered(names, Flatten(strategies, start, |strategies|), skipped))
      && (byStep || forall p :: p in Flatten(strategies, start, |strategies|) ==> code(p) == 20)
    ensures !checkComplete ==> (ok <==> byStep || AllGood(strategies, start, code))
  {
    AllGoodExact(strategies, start, code);
    var all: seq<Proof> := [];
    for step := 0 to |strategies|
      invariant all == Flatten(strategies, start, step)
    {
      if step < start {
        continue;
      }
      all := all + strategies[step];
    }
    if checkComplete {
      var covered := CoveredNames(all);
      for i := 0 to |names|
        invariant forall j: nat :: j < i && !names[j].cover && j !in skipped ==> NameListed(names[j].name, all)
      {
        if !names[i].cover && i !in skipped && names[i].name !in covered {
          return false;
        }
      }
    }
    if !byStep {
      for k := 0 to |all|
        invariant forall j :: 0 <= j < k ==> code(all[j]) == 20
      {
        if code(all[k]) != 20 {
          assert all[k] in all;
          return false;
        }
      }
    }
    return true;
  }

  method CoveredNames(all: seq<Proof>) returns (covered: set<string>)
    ensures forall name :: name in covered <==> NameListed(name, all)
  {
    covered := {};
    for k := 0 to |all|
      invariant forall name :: name in covered <==> exists j: nat :: j < k && name in all[j].props
    {
      covered := covered + set name | name in all[k].props;
    }
  }

  /** A complete run of prove mode proves the design: when it exits well, all steps taken, completeness
      checked and verdicts looked at, every assertion that is not skipped holds for as long as the
      constraints and the skipped assertions of earlier steps do. Names must not be shared between steps. */
  lemma ProveModeSound(v: Trace, names: seq<Property>, bads: seq<Literal>, constraints: seq<Literal>,
                       strategies: seq<seq<Proof>>, skipped: set<nat>, code: Proof -> int, t: nat, i: nat)
    requires |names| == |bads| && Unskipped(names, skipped, i)
    requires var all := Flatten(strategies, 0, |strategies|);
             && NamesCovered(names, all, skipped) && OwnNames(names, all) && StepsNamedApart(names)
             && forall p :: p in all ==> code(p) == 20
    requires forall p :: code(p) == 20 ==> Proved(v, names, bads, constraints, p)
    requires HoldUpTo(v, constraints, t)
    requires forall j: nat :: Skipped(names, skipped, j) && names[j].step < names[i].step ==> HasHeld(v, bads, j, t)
    ensures HasHeld(v, bads, i, t)
  {
    var all := Flatten(strategies, 0, |strategies|);
    NamesSuffice(names, all, skipped);
    forall k: nat | k < |all|
      ensures Proved(v, names, bads, constraints, all[k])
    {
      assert all[k] in all;
    }
    StepHolds(v, names, bads, constraints, all, skipped, t, i);
  }
}
