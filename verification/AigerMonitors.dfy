/** The monitors for liveness and fairness over infinite runs. */
module AigerMonitors {

  type Stream = nat -> bool

  ghost predicate Eventually(x: Stream, t: nat) {
    exists u: nat :: u >= t && x(u)
  }

  ghost predicate InfinitelyOften(x: Stream) {
    forall t: nat :: Eventually(x, t)
  }

  /** From `t` on, `a` never holds. */
  ghost predicate NeverFrom(a: Stream, t: nat) {
    forall u: nat :: u >= t ==> !a(u)
  }

  /** Some enabled cycle is never followed, in the same cycle or later, by a satisfied one. */
  ghost predicate Starved(en: Stream, a: Stream) {
    exists t: nat :: en(t) && NeverFrom(a, t)
  }

  predicate LiveStep(en: Stream, a: Stream, s: Stream, q1: Stream, q2: Stream, t: nat) {
    && q1(t + 1) == ((s(t) && en(t)) || q1(t))
    && q2(t + 1) == ((q1(t + 1) && a(t)) || q2(t))
  }

  /** `q1` remembers an enabled cycle picked by `s`; `q2` that `a` held since. */
  ghost predicate LiveCircuit(en: Stream, a: Stream, s: Stream, q1: Stream, q2: Stream) {
    !q1(0) && !q2(0) && forall t: nat :: LiveStep(en, a, s, q1, q2, t)
  }

  predicate FairStep(en: Stream, a: Stream, q: Stream, t: nat) {
    q(t + 1) == ((q(t) || en(t)) && !a(t))
  }

  /** `q` remembers an enabled cycle with no `a` since. */
  ghost predicate FairCircuit(en: Stream, a: Stream, q: Stream) {
    !q(0) && forall t: nat :: FairStep(en, a, q, t)
  }

  ghost function Justice(q1: Stream, q2: Stream): Stream {
    (t: nat) => q1(t) && !q2(t)
  }

  ghost function Idle(q: Stream): Stream {
    (t: nat) => !q(t)
  }

  lemma {:induction false} StaysPicked(en: Stream, a: Stream, s: Stream, q1: Stream, q2: Stream, t: nat, u: nat)
    requires LiveCircuit(en, a, s, q1, q2) && t <= u
    ensures (q1(t) ==> q1(u)) && (q2(t) ==> q2(u))
    decreases u
  {
    if t < u {
      StaysPicked(en, a, s, q1, q2, t, u - 1);
      assert LiveStep(en, a, s, q1, q2, u - 1);
    }
  }

  /** The first cycle picked, if any was before `t`. */
  lemma {:induction false} FirstPick(en: Stream, a: Stream, s: Stream, q1: Stream, q2: Stream, t: nat) returns (p: nat)
    requires LiveCircuit(en, a, s, q1, q2) && q1(t)
    ensures p < t && s(p) && en(p) && q1(p + 1)
    decreases t
  {
    assert t > 0;
    assert LiveStep(en, a, s, q1, q2, t - 1);
    if q1(t - 1) {
      p := FirstPick(en, a, s, q1, q2, t - 1);
    } else {
      p := t - 1;
    }
  }

  /** If the justice literal holds infinitely often, the picked cycle is never satisfied. */
  lemma JusticeStarves(en: Stream, a: Stream, s: Stream, q1: Stream, q2: Stream)
    requires LiveCircuit(en, a, s, q1, q2) && InfinitelyOften(Justice(q1, q2))
    ensures Starved(en, a)
  {
    assert Eventually(Justice(q1, q2), 0);
    var t: nat :| t >= 0 && Justice(q1, q2)(t);
    var p := FirstPick(en, a, s, q1, q2, t);
    forall u: nat | u >= p
      ensures !a(u)
    {
      assert Eventually(Justice(q1, q2), u + 1);
      var v: nat :| v >= u + 1 && Justice(q1, q2)(v);
      StaysPicked(en, a, s, q1, q2, p + 1, u + 1);
      assert LiveStep(en, a, s, q1, q2, u);
      StaysPicked(en, a, s, q1, q2, u + 1, v);
    }
    assert NeverFrom(a, p);
  }

  /** Picks the cycle `p` only. */
  ghost function Pick(p: nat): Stream {
    (t: nat) => t == p
  }

  lemma {:induction false} PickedAlone(en: Stream, a: Stream, q1: Stream, q2: Stream, p: nat, t: nat)
    requires LiveCircuit(en, a, Pick(p), q1, q2) && en(p) && NeverFrom(a, p)
    ensures q1(t) == (t > p) && !q2(t)
    decreases t
  {
    if t > 0 {
      PickedAlone(en, a, q1, q2, p, t - 1);
      assert LiveStep(en, a, Pick(p), q1, q2, t - 1);
    }
  }

  /** A starved cycle, picked, makes the justice literal hold forever after. */
  lemma StarvedJustice(en: Stream, a: Stream, q1: Stream, q2: Stream, p: nat)
    requires LiveCircuit(en, a, Pick(p), q1, q2) && en(p) && NeverFrom(a, p)
    ensures InfinitelyOften(Justice(q1, q2))
  {
    forall t: nat
      ensures Eventually(Justice(q1, q2), t)
    {
      PickedAlone(en, a, q1, q2, p, t + p + 1);
      assert Justice(q1, q2)(t + p + 1);
    }
  }

  lemma {:induction false} StaysPending(en: Stream, a: Stream, q: Stream, p: nat, t: nat)
    requires FairCircuit(en, a, q) && en(p) && NeverFrom(a, p) && t > p
    ensures q(t)
    decreases t
  {
    assert FairStep(en, a, q, t - 1);
    if t - 1 > p {
      StaysPending(en, a, q, p, t - 1);
    }
  }

  /** While pending, an enabled cycle lies behind with no satisfied one since. */
  lemma {:induction false} PendingSince(en: Stream, a: Stream, q: Stream, t: nat) returns (p: nat)
    requires FairCircuit(en, a, q) && q(t)
    ensures p < t && en(p) && forall u: nat :: p <= u < t ==> !a(u)
    decreases t
  {
    assert t > 0;
    assert FairStep(en, a, q, t - 1);
    if q(t - 1) {
      p := PendingSince(en, a, q, t - 1);
    } else {
      p := t - 1;
    }
  }

  /** The fairness literal holds infinitely often exactly when every enabled cycle is followed, in the
      same cycle or later, by a satisfied one. */
  lemma FairExact(en: Stream, a: Stream, q: Stream)
    requires FairCircuit(en, a, q)
    ensures InfinitelyOften(Idle(q)) <==> !Starved(en, a)
  {
    if Starved(en, a) {
      var p: nat :| en(p) && NeverFrom(a, p);
      forall u: nat | u >= p + 1
        ensures !Idle(q)(u)
      {
        StaysPending(en, a, q, p, u);
      }
      assert !Eventually(Idle(q), p + 1);
    } else {
      forall t: nat
        ensures Eventually(Idle(q), t)
      {
        if q(t) {
          var p := PendingSince(en, a, q, t);
          assert !NeverFrom(a, p);
          var u: nat :| u >= p && a(u);
          assert u >= t;
          assert FairStep(en, a, q, u);
          assert Idle(q)(u + 1);
        } else {
          assert Idle(q)(t);
        }
      }
    }
  }
}
