/** Netlists of multiplexers and what they compute.

    A netlist keeps the `$mux`/`$pmux` cells of a module, the connections that `module->connect`
    adds, and the bits that anything else reads (`taps`: other cells, output ports, kept wires).
    Wires are numbered by `SigMap` representatives, so a wire number stands for one canonical bit. */
module MuxNetlist {

  datatype Bit = Wire(id: nat) | Zero | One | Undef

  /** `ctrl` is port S; `data` is port B cut into slices of the output width, followed by port A.
      Slice `p` is selected by control `p`, the last slice when no control is active. */
  datatype Mux = Mux(data: seq<seq<Bit>>, ctrl: seq<Bit>, out: seq<nat>)

  datatype Netlist = Netlist(muxes: seq<Mux>, conns: seq<(nat, Bit)>, taps: seq<Bit>)

  /** The values of the bits no multiplexer drives, and the value an `x` constant happens to have. */
  datatype Env = Env(free: nat -> bool, undef: bool)

  type Valuation = nat -> bool

  predicate WfMux(x: Mux) {
    && |x.ctrl| >= 1
    && |x.data| == |x.ctrl| + 1
    && forall p :: 0 <= p < |x.data| ==> |x.data[p]| == |x.out|
  }

  ghost predicate UniqueDrivers(muxes: seq<Mux>) {
    forall m, i, n, j ::
      (0 <= m < |muxes| && 0 <= i < |muxes[m].out| && 0 <= n < |muxes| && 0 <= j < |muxes[n].out|
       && muxes[m].out[i] == muxes[n].out[j]) ==> m == n && i == j
  }

  ghost predicate WellFormed(net: Netlist) {
    && (forall m :: 0 <= m < |net.muxes| ==> WfMux(net.muxes[m]))
    && UniqueDrivers(net.muxes)
    && net.conns == []
  }

  ghost predicate Below(rank: nat -> nat, b: Bit, r: nat) {
    b.Wire? ==> rank(b.id) < r
  }

  /** Every output bit of a multiplexer ranks above the data bits it may copy and above all the
      controls. Bits of one cell may depend on other bits of the same cell. */
  ghost predicate AcyclicMux(rank: nat -> nat, x: Mux)
    requires forall p :: 0 <= p < |x.data| ==> |x.data[p]| == |x.out|
  {
    forall i :: 0 <= i < |x.out| ==>
      && (forall p :: 0 <= p < |x.data| ==> Below(rank, x.data[p][i], rank(x.out[i])))
      && (forall s :: 0 <= s < |x.ctrl| ==> Below(rank, x.ctrl[s], rank(x.out[i])))
  }

  ghost predicate Acyclic(rank: nat -> nat, net: Netlist)
    requires WellFormed(net)
  {
    forall m :: 0 <= m < |net.muxes| ==> AcyclicMux(rank, net.muxes[m])
  }

  ghost predicate MuxDriven(muxes: seq<Mux>, w: nat) {
    exists m, i :: 0 <= m < |muxes| && 0 <= i < |muxes[m].out| && muxes[m].out[i] == w
  }

  ghost predicate Driven(net: Netlist, w: nat) {
    || MuxDriven(net.muxes, w)
    || exists k :: 0 <= k < |net.conns| && net.conns[k].0 == w
  }

  ghost function Value(env: Env, v: Valuation, b: Bit): bool {
    match b
    case Wire(w) => v(w)
    case Zero => false
    case One => true
    case Undef => env.undef
  }

  /** A control activates its slice when it is one; an `x` constant does not. */
  ghost predicate Active(v: Valuation, b: Bit) {
    match b
    case Wire(w) => v(w)
    case One => true
    case Zero => false
    case Undef => false
  }

  ghost function FirstActive(v: Valuation, ctrl: seq<Bit>): (p: nat)
    ensures p <= |ctrl|
    ensures p < |ctrl| ==> Active(v, ctrl[p])
    ensures forall s :: 0 <= s < p ==> !Active(v, ctrl[s])
  {
    if ctrl == [] || Active(v, ctrl[0]) then 0 else 1 + FirstActive(v, ctrl[1..])
  }

  ghost predicate AtMostOneActive(v: Valuation, x: Mux) {
    forall s, t :: 0 <= s < t < |x.ctrl| && Active(v, x.ctrl[s]) ==> !Active(v, x.ctrl[t])
  }

  ghost predicate OneHot(v: Valuation, muxes: seq<Mux>) {
    forall m :: 0 <= m < |muxes| ==> AtMostOneActive(v, muxes[m])
  }

  ghost predicate MuxHolds(env: Env, v: Valuation, x: Mux)
    requires WfMux(x)
  {
    var p := FirstActive(v, x.ctrl);
    forall i :: 0 <= i < |x.out| ==> v(x.out[i]) == Value(env, v, x.data[p][i])
  }

  /** `v` gives every wire the value the netlist gives it under `env`. */
  ghost predicate Consistent(net: Netlist, env: Env, v: Valuation)
    requires forall m :: 0 <= m < |net.muxes| ==> WfMux(net.muxes[m])
  {
    && (forall m :: 0 <= m < |net.muxes| ==> MuxHolds(env, v, net.muxes[m]))
    && (forall k :: 0 <= k < |net.conns| ==> v(net.conns[k].0) == Value(env, v, net.conns[k].1))
    && (forall w :: !Driven(net, w) ==> v(w) == env.free(w))
  }

  // ---------------------------------------------------------------------------------------------
  // Acyclic netlists have exactly one consistent valuation.

  ghost function Step(net: Netlist, env: Env, v: Valuation, w: nat): bool
    requires WellFormed(net)
  {
    if MuxDriven(net.muxes, w) then
      var m, i :| 0 <= m < |net.muxes| && 0 <= i < |net.muxes[m].out| && net.muxes[m].out[i] == w;
      Value(env, v, net.muxes[m].data[FirstActive(v, net.muxes[m].ctrl)][i])
    else
      env.free(w)
  }

  ghost function Rounds(net: Netlist, env: Env, k: nat): Valuation
    requires WellFormed(net)
  {
    if k == 0 then env.free else
      var v := Rounds(net, env, k - 1);
      (w: nat) => Step(net, env, v, w)
  }

  /** Two valuations that agree below the rank of a wire give it the same value. */
  lemma StepLocal(net: Netlist, rank: nat -> nat, env: Env, u: Valuation, v: Valuation, w: nat)
    requires WellFormed(net) && Acyclic(rank, net)
    requires forall x :: rank(x) < rank(w) ==> u(x) == v(x)
    ensures Step(net, env, u, w) == Step(net, env, v, w)
  {
    if MuxDriven(net.muxes, w) {
      var m, i :| 0 <= m < |net.muxes| && 0 <= i < |net.muxes[m].out| && net.muxes[m].out[i] == w;
      var x := net.muxes[m];
      assert AcyclicMux(rank, x);
      forall s | 0 <= s < |x.ctrl|
        ensures Active(u, x.ctrl[s]) == Active(v, x.ctrl[s])
      {
        assert Below(rank, x.ctrl[s], rank(x.out[i]));
      }
      SameFirst(u, v, x.ctrl, x.ctrl);
      var p := FirstActive(u, x.ctrl);
      assert Below(rank, x.data[p][i], rank(x.out[i]));
    }
  }

  lemma SameFirst(u: Valuation, v: Valuation, a: seq<Bit>, b: seq<Bit>)
    requires |a| == |b| && forall s :: 0 <= s < |a| ==> Active(u, a[s]) == Active(v, b[s])
    ensures FirstActive(u, a) == FirstActive(v, b)
  {
    var p, q := FirstActive(u, a), FirstActive(v, b);
    assert p < |a| ==> Active(v, b[p]);
    assert q < |a| ==> Active(u, a[q]);
  }

  lemma RoundsAt(net: Netlist, env: Env, k: nat, w: nat)
    requires WellFormed(net) && k > 0
    ensures Rounds(net, env, k)(w) == Step(net, env, Rounds(net, env, k - 1), w)
  {
  }

  ghost predicate AgreeBelow(rank: nat -> nat, u: Valuation, v: Valuation, r: nat) {
    forall x :: rank(x) < r ==> u(x) == v(x)
  }

  lemma NextRoundAgrees(net: Netlist, rank: nat -> nat, env: Env, j: nat, k: nat, w: nat)
    requires WellFormed(net) && Acyclic(rank, net) && j > 0 && k > 0
    requires AgreeBelow(rank, Rounds(net, env, j - 1), Rounds(net, env, k - 1), rank(w))
    ensures Rounds(net, env, j)(w) == Rounds(net, env, k)(w)
  {
    StepLocal(net, rank, env, Rounds(net, env, j - 1), Rounds(net, env, k - 1), w);
    RoundsAt(net, env, j, w);
    RoundsAt(net, env, k, w);
  }

  lemma {:induction false} RoundsAgree(net: Netlist, rank: nat -> nat, env: Env, j: nat, k: nat, r: nat)
    requires WellFormed(net) && Acyclic(rank, net) && r <= j && r <= k
    ensures AgreeBelow(rank, Rounds(net, env, j), Rounds(net, env, k), r)
    decreases r
  {
    if r > 0 {
      RoundsAgree(net, rank, env, j - 1, k - 1, r - 1);
      forall x | rank(x) < r
        ensures Rounds(net, env, j)(x) == Rounds(net, env, k)(x)
      {
        NextRoundAgrees(net, rank, env, j, k, x);
      }
    }
  }

  /** The value of a wire does not change after as many rounds as its rank. */
  lemma RoundsSettle(net: Netlist, rank: nat -> nat, env: Env, j: nat, k: nat, w: nat)
    requires WellFormed(net) && Acyclic(rank, net)
    requires rank(w) < j <= k
    ensures Rounds(net, env, j)(w) == Rounds(net, env, k)(w)
  {
    RoundsAgree(net, rank, env, j, k, rank(w) + 1);
  }

  /** `v` gives each wire its value once the rounds have settled it. */
  ghost predicate Settled(net: Netlist, rank: nat -> nat, env: Env, v: Valuation)
    requires WellFormed(net)
  {
    forall w :: v(w) == Rounds(net, env, rank(w) + 1)(w)
  }

  lemma SettledIsFixpoint(net: Netlist, rank: nat -> nat, env: Env, v: Valuation, w: nat)
    requires WellFormed(net) && Acyclic(rank, net)
    requires Settled(net, rank, env, v)
    ensures v(w) == Step(net, env, v, w)
  {
    var u := Rounds(net, env, rank(w));
    forall x: nat | rank(x) < rank(w)
      ensures u(x) == v(x)
    {
      RoundsSettle(net, rank, env, rank(x) + 1, rank(w), x);
    }
    StepLocal(net, rank, env, u, v, w);
  }

  /** Every acyclic netlist has a consistent valuation, so the preservation theorem is not vacuous. */
  lemma ConsistentExists(net: Netlist, rank: nat -> nat, env: Env)
    requires WellFormed(net) && Acyclic(rank, net)
    ensures exists v :: Consistent(net, env, v)
  {
    SettledExists(net, rank, env);
    var v :| Settled(net, rank, env, v);
    SettledConsistent(net, rank, env, v);
  }

  ghost function Diagonal(f: nat -> Valuation, rank: nat -> nat): Valuation {
    (w: nat) => f(rank(w) + 1)(w)
  }

  lemma SettledExists(net: Netlist, rank: nat -> nat, env: Env)
    requires WellFormed(net)
    ensures exists v :: Settled(net, rank, env, v)
  {
    var f: nat -> Valuation := (k: nat) => Rounds(net, env, k);
    var v := Diagonal(f, rank);
    forall w
      ensures v(w) == Rounds(net, env, rank(w) + 1)(w)
    {
      assert v(w) == f(rank(w) + 1)(w);
    }
    assert Settled(net, rank, env, v);
  }

  lemma SettledConsistent(net: Netlist, rank: nat -> nat, env: Env, v: Valuation)
    requires WellFormed(net) && Acyclic(rank, net)
    requires Settled(net, rank, env, v)
    ensures Consistent(net, env, v)
  {
    forall w
      ensures v(w) == Step(net, env, v, w)
    {
      SettledIsFixpoint(net, rank, env, v, w);
    }
    FixpointConsistent(net, env, v);
  }

  lemma FixpointConsistent(net: Netlist, env: Env, v: Valuation)
    requires WellFormed(net)
    requires forall w :: v(w) == Step(net, env, v, w)
    ensures Consistent(net, env, v)
  {
    forall m, i | 0 <= m < |net.muxes| && 0 <= i < |net.muxes[m].out|
      ensures v(net.muxes[m].out[i])
           == Value(env, v, net.muxes[m].data[FirstActive(v, net.muxes[m].ctrl)][i])
    {
      assert MuxDriven(net.muxes, net.muxes[m].out[i]);
    }
  }

  /** The values an acyclic netlist computes from `env`. */
  ghost function Meaning(net: Netlist, rank: nat -> nat, env: Env): (v: Valuation)
    requires WellFormed(net) && Acyclic(rank, net)
    ensures Consistent(net, env, v)
  {
    ConsistentExists(net, rank, env);
    var v :| Consistent(net, env, v);
    v
  }

  /** ... and nothing else is consistent. */
  lemma {:induction false} ConsistentUnique(net: Netlist, rank: nat -> nat, env: Env, u: Valuation, v: Valuation, w: nat)
    requires WellFormed(net) && Acyclic(rank, net)
    requires Consistent(net, env, u) && Consistent(net, env, v)
    ensures u(w) == v(w)
    decreases rank(w)
  {
    forall x | rank(x) < rank(w)
      ensures u(x) == v(x)
    {
      ConsistentUnique(net, rank, env, u, v, x);
    }
    StepLocal(net, rank, env, u, v, w);
    if MuxDriven(net.muxes, w) {
      var m, i :| 0 <= m < |net.muxes| && 0 <= i < |net.muxes[m].out| && net.muxes[m].out[i] == w;
      assert MuxHolds(env, u, net.muxes[m]) && MuxHolds(env, v, net.muxes[m]);
      assert Step(net, env, u, w) == u(w);
      assert Step(net, env, v, w) == v(w);
    }
  }
}
