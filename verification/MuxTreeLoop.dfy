/** Resolving the connections a run adds, and repeating runs until no port is removed.

    `module->connect` joins an output to the port it is wired to; the `SigMap` of the next run reads
    every joined bit through its representative. Here the driven side is replaced by the driver. */
module MuxTreeLoop {
  import opened Flatten
  import opened MuxNetlist
  import opened MuxTree
  import opened MuxTreeProofs
  import opened MuxTreePass

  ghost predicate WfDrivers(net: Netlist) {
    && WfMuxes(net)
    && UniqueDrivers(net.muxes)
    && (forall k :: 0 <= k < |net.conns| ==> !MuxDriven(net.muxes, net.conns[k].0))
    && (forall j, k :: 0 <= j < k < |net.conns| ==> net.conns[j].0 != net.conns[k].0)
  }

  ghost predicate AcyclicAll(rank: nat -> nat, net: Netlist)
    requires WfMuxes(net)
  {
    && (forall m :: 0 <= m < |net.muxes| ==> AcyclicMux(rank, net.muxes[m]))
    && (forall k :: 0 <= k < |net.conns| ==> Below(rank, net.conns[k].1, rank(net.conns[k].0)))
  }

  // ---------------------------------------------------------------------------------------------
  // A run keeps the module well formed and acyclic

  lemma TrimmedWf(net: Netlist, rank: nat -> nat, st: State)
    requires WellFormed(net) && Acyclic(rank, net) && Shaped(net.muxes, st) && DataRefines(net.muxes, st)
    ensures WfDrivers(Trimmed(net, st)) && AcyclicAll(rank, Trimmed(net, st))
  {
    TrimmedIsWf(net, st);
    TrimmedUnique(net, st);
    TrimmedAcyclic(net, rank, st);
  }

  lemma TrimmedUnique(net: Netlist, st: State)
    requires WellFormed(net) && Shaped(net.muxes, st) && WfMuxes(Trimmed(net, st))
    ensures WfDrivers(Trimmed(net, st))
  {
    var r := Trimmed(net, st);
    var cells := CellOrigins(net, st);
    var conns := ConnOrigins(net, st);
    forall k | 0 <= k < |r.muxes|
      ensures r.muxes[k].out == net.muxes[cells[k]].out && |Live(net.muxes, st, cells[k])| >= 2
    {
      assert Cells(net.muxes, st, cells[k]) == [r.muxes[k]];
    }
    forall k | 0 <= k < |r.conns|
      ensures conns[k].1 < |net.muxes[conns[k].0].out| && r.conns[k].0 == net.muxes[conns[k].0].out[conns[k].1]
      ensures |Live(net.muxes, st, conns[k].0)| == 1
    {
      assert Conns(net.muxes, st, conns[k].0)[conns[k].1] == r.conns[k];
    }
    forall m, i, n, j | 0 <= m < |r.muxes| && 0 <= i < |r.muxes[m].out| && 0 <= n < |r.muxes| && 0 <= j < |r.muxes[n].out|
        && r.muxes[m].out[i] == r.muxes[n].out[j]
      ensures m == n && i == j
    {
      assert net.muxes[cells[m]].out[i] == net.muxes[cells[n]].out[j];
    }
    forall k, m, i | 0 <= k < |r.conns| && 0 <= m < |r.muxes| && 0 <= i < |r.muxes[m].out|
      ensures r.muxes[m].out[i] != r.conns[k].0
    {
      assert net.muxes[cells[m]].out[i] == r.muxes[m].out[i];
    }
  }

  lemma TrimmedAcyclic(net: Netlist, rank: nat -> nat, st: State)
    requires WellFormed(net) && Acyclic(rank, net) && Shaped(net.muxes, st) && DataRefines(net.muxes, st)
    requires WfMuxes(Trimmed(net, st))
    ensures AcyclicAll(rank, Trimmed(net, st))
  {
    var r := Trimmed(net, st);
    var cells := CellOrigins(net, st);
    var conns := ConnOrigins(net, st);
    forall k | 0 <= k < |r.muxes|
      ensures AcyclicMux(rank, r.muxes[k])
    {
      assert Cells(net.muxes, st, cells[k]) == [r.muxes[k]];
      RefinedBelow(net, rank, st, cells[k]);
      LivePortsAscend(st.enabled, cells[k], |net.muxes[cells[k]].data|);
      TrimMuxAcyclic(rank, net.muxes[cells[k]], st.data[cells[k]], Live(net.muxes, st, cells[k]));
    }
    forall k | 0 <= k < |r.conns|
      ensures Below(rank, r.conns[k].1, rank(r.conns[k].0))
    {
      var m, i := conns[k].0, conns[k].1;
      assert Conns(net.muxes, st, m)[i] == r.conns[k];
      RefinedBelow(net, rank, st, m);
      assert Below(rank, st.data[m][Live(net.muxes, st, m)[0]][i], rank(net.muxes[m].out[i]));
    }
  }

  lemma TrimMuxAcyclic(rank: nat -> nat, x: Mux, data: seq<seq<Bit>>, live: seq<nat>)
    requires WfMux(x) && SameShape(data, x.data) && AcyclicMux(rank, x)
    requires |live| >= 2 && AllBelow(live, |x.data|) && AllBelow(live[..|live| - 1], live[|live| - 1])
    requires Ascending(live)
    requires forall p, i :: 0 <= p < |x.data| && 0 <= i < |x.out| ==> Below(rank, data[p][i], rank(x.out[i]))
    ensures AcyclicMux(rank, TrimMux(x, data, live))
  {
    var last := |live| - 1;
    assert forall j :: 0 <= j < last ==> live[j] < live[last];
  }

  lemma RefinedBelow(net: Netlist, rank: nat -> nat, st: State, m: nat)
    requires WellFormed(net) && Acyclic(rank, net) && Shaped(net.muxes, st) && DataRefines(net.muxes, st) && m < |net.muxes|
    ensures AcyclicMux(rank, net.muxes[m])
    ensures forall p, i :: 0 <= p < |net.muxes[m].data| && 0 <= i < |net.muxes[m].out|
                           ==> Below(rank, st.data[m][p][i], rank(net.muxes[m].out[i]))
  {
    forall p, i | 0 <= p < |net.muxes[m].data| && 0 <= i < |net.muxes[m].out|
      ensures Below(rank, st.data[m][p][i], rank(net.muxes[m].out[i]))
    {
      var b := st.data[m][p][i];
      assert b == net.muxes[m].data[p][i] || b == Zero || b == One;
      assert AcyclicMux(rank, net.muxes[m]);
    }
  }

  lemma ReplacedWf(net: Netlist, rank: nat -> nat, st: State)
    requires WellFormed(net) && Acyclic(rank, net) && Shaped(net.muxes, st) && DataRefines(net.muxes, st)
    ensures WfDrivers(Replaced(net, st)) && AcyclicAll(rank, Replaced(net, st))
  {
    var r := Replaced(net, st);
    assert forall m :: 0 <= m < |r.muxes| ==> r.muxes[m].out == net.muxes[m].out;
    forall m | 0 <= m < |r.muxes|
      ensures AcyclicMux(rank, r.muxes[m])
    {
      RefinedBelow(net, rank, st, m);
    }
  }

  /** A run refines data bits on any module, eligible or not. */
  lemma FinalRefines(net: Netlist, budget: nat)
    requires WfMuxes(net)
    ensures DataRefines(net.muxes, FinalState(Build(net), budget))
  {
  }

  // ---------------------------------------------------------------------------------------------
  // Resolving connections one at a time

  function SubstBit(w: nat, b: Bit, x: Bit): Bit {
    if x == Wire(w) then b else x
  }

  function SubstBits(w: nat, b: Bit, xs: seq<Bit>): seq<Bit> {
    seq(|xs|, i requires 0 <= i < |xs| => SubstBit(w, b, xs[i]))
  }

  function SubstMux(w: nat, b: Bit, x: Mux): Mux {
    Mux(seq(|x.data|, p requires 0 <= p < |x.data| => SubstBits(w, b, x.data[p])), SubstBits(w, b, x.ctrl), x.out)
  }

  /** Reads wire `w` as bit `b` everywhere. */
  function Subst(w: nat, b: Bit, net: Netlist): Netlist {
    Netlist(seq(|net.muxes|, m requires 0 <= m < |net.muxes| => SubstMux(w, b, net.muxes[m])),
            seq(|net.conns|, k requires 0 <= k < |net.conns| => (net.conns[k].0, SubstBit(w, b, net.conns[k].1))),
            SubstBits(w, b, net.taps))
  }

  function Canonical(net: Netlist): Netlist
    decreases |net.conns|
  {
    if net.conns == [] then net
    else Canonical(Subst(net.conns[0].0, net.conns[0].1, net.(conns := net.conns[1..])))
  }

  /** `u` with wire `w` given the value of `b`. */
  ghost function Extend(env: Env, u: Valuation, w: nat, b: Bit): Valuation {
    (x: nat) => if x == w then Value(env, u, b) else u(x)
  }

  lemma SubstWf(rank: nat -> nat, net: Netlist, w: nat, b: Bit)
    requires WfDrivers(net) && AcyclicAll(rank, net)
    requires !Driven(net, w) && Below(rank, b, rank(w))
    ensures WfDrivers(Subst(w, b, net)) && AcyclicAll(rank, Subst(w, b, net))
  {
    var s := Subst(w, b, net);
    assert forall m :: 0 <= m < |s.muxes| ==> s.muxes[m].out == net.muxes[m].out;
    forall m | 0 <= m < |s.muxes|
      ensures AcyclicMux(rank, s.muxes[m])
    {
      assert AcyclicMux(rank, net.muxes[m]);
      SubstAcyclic(rank, net.muxes[m], w, b);
    }
    forall k | 0 <= k < |s.conns|
      ensures !MuxDriven(s.muxes, s.conns[k].0)
    {
      assert s.conns[k].0 == net.conns[k].0;
    }
  }

  lemma SubstAcyclic(rank: nat -> nat, x: Mux, w: nat, b: Bit)
    requires WfMux(x) && AcyclicMux(rank, x) && Below(rank, b, rank(w))
    ensures AcyclicMux(rank, SubstMux(w, b, x))
  {
    var y := SubstMux(w, b, x);
    forall i | 0 <= i < |x.out|
      ensures forall p :: 0 <= p < |y.data| ==> Below(rank, y.data[p][i], rank(y.out[i]))
      ensures forall s :: 0 <= s < |y.ctrl| ==> Below(rank, y.ctrl[s], rank(y.out[i]))
    {
      forall p | 0 <= p < |y.data|
        ensures Below(rank, y.data[p][i], rank(y.out[i]))
      {
        assert Below(rank, x.data[p][i], rank(x.out[i]));
      }
      forall s | 0 <= s < |y.ctrl|
        ensures Below(rank, y.ctrl[s], rank(y.out[i]))
      {
        assert Below(rank, x.ctrl[s], rank(x.out[i]));
      }
    }
  }

  lemma SubstValue(env: Env, u: Valuation, w: nat, b: Bit, x: Bit)
    requires b != Wire(w) && !env.undef
    ensures Value(env, Extend(env, u, w, b), x) == Value(env, u, SubstBit(w, b, x))
    ensures Active(Extend(env, u, w, b), x) == Active(u, SubstBit(w, b, x))
  {
  }

  lemma SubstMuxes(env: Env, u: Valuation, net: Netlist, w: nat, b: Bit)
    requires WfMuxes(net) && b != Wire(w) && !env.undef && !MuxDriven(net.muxes, w)
    requires WfMuxes(Subst(w, b, net)) && Consistent(Subst(w, b, net), env, u)
    ensures forall m :: 0 <= m < |net.muxes| ==> MuxHolds(env, Extend(env, u, w, b), net.muxes[m])
  {
    var s := Subst(w, b, net);
    forall m | 0 <= m < |net.muxes|
      ensures MuxHolds(env, Extend(env, u, w, b), net.muxes[m])
    {
      assert MuxHolds(env, u, s.muxes[m]);
      SubstHolds(env, u, net.muxes[m], w, b) by {
        forall i | 0 <= i < |net.muxes[m].out|
          ensures net.muxes[m].out[i] != w
        {
          assert net.muxes[m].out[i] == w ==> MuxDriven(net.muxes, w);
        }
      }
    }
  }

  lemma SubstConns(env: Env, u: Valuation, net: Netlist, w: nat, b: Bit, k: nat)
    requires b != Wire(w) && !env.undef && k < |net.conns| && net.conns[k].0 != w
    requires WfMuxes(Subst(w, b, net)) && Consistent(Subst(w, b, net), env, u)
    ensures var v := Extend(env, u, w, b); v(net.conns[k].0) == Value(env, v, net.conns[k].1)
  {
    SubstValue(env, u, w, b, net.conns[k].1);
    assert Subst(w, b, net).conns[k] == (net.conns[k].0, SubstBit(w, b, net.conns[k].1));
  }

  /** The substituted module drives what the other connections and the cells drive. */
  lemma SubstDrives(net: Netlist, w: nat, b: Bit, x: nat)
    requires Driven(Subst(w, b, net), x)
    ensures Driven(net, x)
  {
    var s := Subst(w, b, net);
    if MuxDriven(s.muxes, x) {
      var m, i :| 0 <= m < |s.muxes| && 0 <= i < |s.muxes[m].out| && s.muxes[m].out[i] == x;
      assert net.muxes[m].out[i] == x;
    } else {
      var k :| 0 <= k < |s.conns| && s.conns[k].0 == x;
      assert net.conns[k].0 == x;
    }
  }

  lemma MoreDriven(net: Netlist, c: (nat, Bit), x: nat)
    ensures Driven(net.(conns := [c] + net.conns), x) <==> x == c.0 || Driven(net, x)
  {
    var n0 := net.(conns := [c] + net.conns);
    assert n0.conns[0] == c;
    assert forall k :: 0 <= k < |net.conns| ==> n0.conns[k + 1] == net.conns[k];
  }

  /** A valuation of the substituted module gives one of the original, with the same taps. */
  lemma SubstConsistent(env: Env, u: Valuation, net: Netlist, w: nat, b: Bit)
    requires WfDrivers(net) && b != Wire(w) && !env.undef
    requires !MuxDriven(net.muxes, w) && forall k :: 0 <= k < |net.conns| ==> net.conns[k].0 != w
    requires WfMuxes(Subst(w, b, net)) && Consistent(Subst(w, b, net), env, u)
    ensures Consistent(net.(conns := [(w, b)] + net.conns), env, Extend(env, u, w, b))
  {
    var v, n0 := Extend(env, u, w, b), net.(conns := [(w, b)] + net.conns);
    SubstMuxes(env, u, net, w, b);
    forall k | 0 <= k < |n0.conns|
      ensures v(n0.conns[k].0) == Value(env, v, n0.conns[k].1)
    {
      if k > 0 {
        SubstConns(env, u, net, w, b, k - 1);
      } else {
        SubstValue(env, u, w, b, b);
      }
    }
    forall x | !Driven(n0, x)
      ensures v(x) == env.free(x)
    {
      MoreDriven(net, (w, b), x);
      if Driven(Subst(w, b, net), x) {
        SubstDrives(net, w, b, x);
      }
    }
  }

  lemma SubstHolds(env: Env, u: Valuation, x: Mux, w: nat, b: Bit)
    requires WfMux(x) && b != Wire(w) && !env.undef && MuxHolds(env, u, SubstMux(w, b, x))
    requires forall i :: 0 <= i < |x.out| ==> x.out[i] != w
    ensures MuxHolds(env, Extend(env, u, w, b), x)
  {
    var y, v := SubstMux(w, b, x), Extend(env, u, w, b);
    forall s | 0 <= s < |x.ctrl|
      ensures Active(v, x.ctrl[s]) == Active(u, y.ctrl[s])
    {
      SubstValue(env, u, w, b, x.ctrl[s]);
    }
    SameFirst(v, u, x.ctrl, y.ctrl);
    var p := FirstActive(v, x.ctrl);
    forall i | 0 <= i < |x.out|
      ensures v(x.out[i]) == Value(env, v, x.data[p][i])
    {
      SubstValue(env, u, w, b, x.data[p][i]);
      assert y.data[p][i] == SubstBit(w, b, x.data[p][i]);
    }
  }

  ghost predicate SameTaps(env: Env, u: Valuation, v: Valuation, a: seq<Bit>, b: seq<Bit>) {
    |a| == |b| && forall i :: 0 <= i < |a| ==> Value(env, u, a[i]) == Value(env, v, b[i])
  }

  /** Cell by cell, the controls of `a` under `u` are those of `b` under `v`. */
  ghost predicate SameControls(u: Valuation, v: Valuation, a: seq<Mux>, b: seq<Mux>) {
    && |a| == |b|
    && (forall m :: 0 <= m < |a| ==> |a[m].ctrl| == |b[m].ctrl|)
    && forall m, s :: 0 <= m < |a| && 0 <= s < |a[m].ctrl| ==> Active(u, a[m].ctrl[s]) == Active(v, b[m].ctrl[s])
  }

  /** Resolving connections changes neither what the taps read nor what the controls are. */
  lemma {:induction false} CanonicalSound(rank: nat -> nat, net: Netlist, env: Env, u: Valuation) returns (v: Valuation)
    requires WfDrivers(net) && AcyclicAll(rank, net) && !env.undef
    requires WfMuxes(Canonical(net)) ==> Consistent(Canonical(net), env, u)
    ensures WellFormed(Canonical(net)) && Acyclic(rank, Canonical(net))
    ensures Consistent(net, env, v)
    ensures SameTaps(env, u, v, Canonical(net).taps, net.taps)
    ensures SameControls(u, v, Canonical(net).muxes, net.muxes)
    decreases |net.conns|
  {
    if net.conns == [] {
      v := u;
    } else {
      var (w, b) := net.conns[0];
      var rest := net.(conns := net.conns[1..]);
      assert net.conns == [(w, b)] + rest.conns;
      assert net == rest.(conns := [(w, b)] + rest.conns);
      assert !Driven(rest, w) by {
        assert !MuxDriven(net.muxes, net.conns[0].0);
      }
      SubstWf(rank, rest, w, b);
      var n1 := Subst(w, b, rest);
      var v1 := CanonicalSound(rank, n1, env, u);
      SubstConsistent(env, v1, rest, w, b);
      v := Extend(env, v1, w, b);
      SubstSame(env, v1, rest, w, b);
    }
  }

  lemma SubstSame(env: Env, u: Valuation, net: Netlist, w: nat, b: Bit)
    requires b != Wire(w) && !env.undef
    ensures var s, v := Subst(w, b, net), Extend(env, u, w, b);
            SameTaps(env, u, v, s.taps, net.taps) && SameControls(u, v, s.muxes, net.muxes)
  {
    forall x
      ensures Value(env, Extend(env, u, w, b), x) == Value(env, u, SubstBit(w, b, x))
      ensures Active(Extend(env, u, w, b), x) == Active(u, SubstBit(w, b, x))
    {
      SubstValue(env, u, w, b, x);
    }
  }

  // ---------------------------------------------------------------------------------------------
  // One round: run, then resolve

  lemma {:induction false} CanonicalWfMuxes(net: Netlist)
    requires WfMuxes(net)
    ensures WfMuxes(Canonical(net))
    decreases |net.conns|
  {
    if net.conns != [] {
      var s := Subst(net.conns[0].0, net.conns[0].1, net.(conns := net.conns[1..]));
      forall m | 0 <= m < |s.muxes|
        ensures WfMux(s.muxes[m])
      {
        assert WfMux(net.muxes[m]);
      }
      CanonicalWfMuxes(s);
    }
  }

  ghost function Round(net: Netlist, budget: nat): (r: Netlist)
    requires WfMuxes(net)
    ensures WfMuxes(r)
  {
    CanonicalWfMuxes(RunResult(net, budget));
    Canonical(RunResult(net, budget))
  }

  ghost function Removed(net: Netlist, budget: nat): nat
    requires WfMuxes(net)
  {
    var st := FinalState(Build(net), budget);
    if st.budget == 0 then 0 else Deleted(net.muxes, st, |net.muxes|)
  }

  lemma RunWf(net: Netlist, rank: nat -> nat, budget: nat)
    requires WellFormed(net) && Acyclic(rank, net)
    ensures WfDrivers(RunResult(net, budget)) && AcyclicAll(rank, RunResult(net, budget))
  {
    var st := FinalState(Build(net), budget);
    FinalRefines(net, budget);
    if st.budget == 0 {
      ReplacedWf(net, rank, st);
    } else {
      TrimmedWf(net, rank, st);
    }
  }

  lemma {:induction false} CanonicalWf(rank: nat -> nat, net: Netlist)
    requires WfDrivers(net) && AcyclicAll(rank, net)
    ensures WellFormed(Canonical(net)) && Acyclic(rank, Canonical(net))
    decreases |net.conns|
  {
    if net.conns != [] {
      var (w, b) := net.conns[0];
      var rest := net.(conns := net.conns[1..]);
      assert net.conns == [(w, b)] + rest.conns;
      assert !Driven(rest, w) by {
        assert !MuxDriven(net.muxes, net.conns[0].0);
      }
      SubstWf(rank, rest, w, b);
      CanonicalWf(rank, Subst(w, b, rest));
    }
  }

  /** A round keeps a module well formed and acyclic under the same ranking. */
  lemma RoundWf(net: Netlist, rank: nat -> nat, budget: nat)
    requires WellFormed(net) && Acyclic(rank, net)
    ensures WellFormed(Round(net, budget)) && Acyclic(rank, Round(net, budget))
  {
    RunWf(net, rank, budget);
    CanonicalWf(rank, RunResult(net, budget));
  }

  lemma TrimMuxOneHot(v: Valuation, u: Valuation, x: Mux, data: seq<seq<Bit>>, live: seq<nat>)
    requires WfMux(x) && SameShape(data, x.data) && AtMostOneActive(v, x) && ControlsAgree(v, u, x)
    requires |live| >= 2 && AllBelow(live, |x.data|) && AllBelow(live[..|live| - 1], live[|live| - 1])
    requires Ascending(live)
    ensures AtMostOneActive(u, TrimMux(x, data, live))
  {
    var y := TrimMux(x, data, live);
    var last := |live| - 1;
    assert forall j :: 0 <= j < last ==> live[j] < live[last];
    forall s, t | 0 <= s < t < |y.ctrl| && Active(u, y.ctrl[s])
      ensures !Active(u, y.ctrl[t])
    {
      assert live[s] < live[t];
      assert Active(v, x.ctrl[live[s]]);
    }
  }

  lemma TrimmedOneHot(net: Netlist, st: State, v: Valuation, u: Valuation)
    requires WfMuxes(net) && Shaped(net.muxes, st) && OneHot(v, net.muxes)
    requires forall m :: 0 <= m < |net.muxes| ==> ControlsAgree(v, u, net.muxes[m])
    ensures OneHot(u, Trimmed(net, st).muxes)
  {
    var r := Trimmed(net, st);
    var cells := CellOrigins(net, st);
    forall k | 0 <= k < |r.muxes|
      ensures AtMostOneActive(u, r.muxes[k])
    {
      var m := cells[k];
      assert Cells(net.muxes, st, m) == [r.muxes[k]];
      assert ControlsAgree(v, u, net.muxes[m]) && AtMostOneActive(v, net.muxes[m]);
      LivePortsAscend(st.enabled, m, |net.muxes[m].data|);
      TrimMuxOneHot(v, u, net.muxes[m], st.data[m], Live(net.muxes, st, m));
    }
  }

  lemma RunOneHot(net: Netlist, rank: nat -> nat, budget: nat, env: Env, v: Valuation, u: Valuation)
    requires WellFormed(net) && Acyclic(rank, net) && Eligible(net)
    requires Consistent(net, env, v) && OneHot(v, net.muxes)
    requires Consistent(RunResult(net, budget), env, u)
    ensures OneHot(u, RunResult(net, budget).muxes)
  {
    var st := FinalState(Build(net), budget);
    forall m, s | 0 <= m < |net.muxes| && 0 <= s < |net.muxes[m].ctrl|
      ensures Active(v, net.muxes[m].ctrl[s]) == Active(u, net.muxes[m].ctrl[s])
    {
      var b := net.muxes[m].ctrl[s];
      if b.Wire? {
        assert b in net.muxes[m].ctrl;
        RunPreserves(net, rank, budget, env, v, u, b.id);
      }
    }
    forall m | 0 <= m < |net.muxes|
      ensures ControlsAgree(v, u, net.muxes[m])
    {
    }
    if st.budget == 0 {
      var r := RunResult(net, budget);
      forall m | 0 <= m < |r.muxes|
        ensures AtMostOneActive(u, r.muxes[m])
      {
        assert AtMostOneActive(v, net.muxes[m]) && ControlsAgree(v, u, net.muxes[m]);
      }
    } else {
      TrimmedOneHot(net, st, v, u);
    }
  }

  lemma RoundPreserves(net: Netlist, rank: nat -> nat, budget: nat, env: Env, v: Valuation, u: Valuation)
    requires WellFormed(net) && Acyclic(rank, net) && Eligible(net) && !env.undef
    requires Consistent(net, env, v) && OneHot(v, net.muxes)
    requires Consistent(Round(net, budget), env, u)
    ensures SameTaps(env, u, v, Round(net, budget).taps, net.taps)
    ensures OneHot(u, Round(net, budget).muxes)
  {
    var r := RunResult(net, budget);
    RunWf(net, rank, budget);
    var t := CanonicalSound(rank, r, env, u);
    forall i | 0 <= i < |net.taps|
      ensures Value(env, t, net.taps[i]) == Value(env, v, net.taps[i])
    {
      if net.taps[i].Wire? {
        RunPreserves(net, rank, budget, env, v, t, net.taps[i].id);
      }
    }
    RunOneHot(net, rank, budget, env, v, t);
    SameOneHot(u, t, Round(net, budget), r);
  }

  lemma SameOneHot(u: Valuation, v: Valuation, a: Netlist, b: Netlist)
    requires SameControls(u, v, a.muxes, b.muxes) && OneHot(v, b.muxes)
    ensures OneHot(u, a.muxes)
  {
    forall m, s, t | 0 <= m < |a.muxes| && 0 <= s < t < |a.muxes[m].ctrl| && Active(u, a.muxes[m].ctrl[s])
      ensures !Active(u, a.muxes[m].ctrl[t])
    {
      assert AtMostOneActive(v, b.muxes[m]);
      assert Active(v, b.muxes[m].ctrl[s]);
    }
  }

  // ---------------------------------------------------------------------------------------------
  // Many rounds

  ghost function Iterate(f: Netlist -> Netlist, net: Netlist, k: nat): Netlist {
    if k == 0 then net else f(Iterate(f, net, k - 1))
  }

  ghost function RoundOf(budget: nat): Netlist -> Netlist {
    (net: Netlist) => if WfMuxes(net) then Round(net, budget) else net
  }

  /** The module after `k` rounds. */
  ghost function After(net: Netlist, budget: nat, k: nat): Netlist {
    Iterate(RoundOf(budget), net, k)
  }

  ghost predicate Preserved(net: Netlist, other: Netlist, rank: nat -> nat, env: Env)
    requires WellFormed(net) && Acyclic(rank, net) && WellFormed(other) && Acyclic(rank, other)
  {
    && SameTaps(env, Meaning(other, rank, env), Meaning(net, rank, env), other.taps, net.taps)
    && OneHot(Meaning(other, rank, env), other.muxes)
  }

  lemma PreservedSelf(net: Netlist, rank: nat -> nat, env: Env)
    requires WellFormed(net) && Acyclic(rank, net)
    requires OneHot(Meaning(net, rank, env), net.muxes)
    ensures Preserved(net, net, rank, env)
  {
  }

  lemma PreservedRound(net: Netlist, before: Netlist, rank: nat -> nat, budget: nat, env: Env)
    requires WellFormed(net) && Acyclic(rank, net) && WellFormed(before) && Acyclic(rank, before)
    requires Eligible(before) && !env.undef && Preserved(net, before, rank, env)
    ensures WellFormed(Round(before, budget)) && Acyclic(rank, Round(before, budget))
    ensures Preserved(net, Round(before, budget), rank, env)
  {
    RoundWf(before, rank, budget);
    OneMoreRound(before, rank, budget, env, Meaning(before, rank, env), Meaning(Round(before, budget), rank, env),
                 Meaning(net, rank, env), net.taps);
  }

  lemma OneMoreRound(before: Netlist, rank: nat -> nat, budget: nat, env: Env, t: Valuation, u: Valuation,
                     v: Valuation, taps: seq<Bit>)
    requires WellFormed(before) && Acyclic(rank, before) && Eligible(before) && !env.undef
    requires Consistent(before, env, t) && OneHot(t, before.muxes) && SameTaps(env, t, v, before.taps, taps)
    requires Consistent(Round(before, budget), env, u)
    ensures SameTaps(env, u, v, Round(before, budget).taps, taps) && OneHot(u, Round(before, budget).muxes)
  {
    RoundPreserves(before, rank, budget, env, t, u);
    SameTapsTrans(env, u, t, v, Round(before, budget).taps, before.taps, taps);
  }

  lemma SameTapsTrans(env: Env, u: Valuation, t: Valuation, v: Valuation, a: seq<Bit>, b: seq<Bit>, c: seq<Bit>)
    requires SameTaps(env, u, t, a, b) && SameTaps(env, t, v, b, c)
    ensures SameTaps(env, u, v, a, c)
  {
  }

  // ---------------------------------------------------------------------------------------------
  // The total number of ports goes down

  function Ports(muxes: seq<Mux>): nat {
    if muxes == [] then 0 else Ports(muxes[..|muxes| - 1]) + |muxes[|muxes| - 1].data|
  }

  lemma PortsNext(muxes: seq<Mux>, n: nat)
    requires n < |muxes|
    ensures Ports(muxes[..n + 1]) == Ports(muxes[..n]) + |muxes[n].data|
  {
    assert muxes[..n + 1][..n] == muxes[..n];
  }

  lemma PortsAppend(muxes: seq<Mux>, x: Mux)
    ensures Ports(muxes + [x]) == Ports(muxes) + |x.data|
  {
    assert (muxes + [x])[..|muxes|] == muxes;
  }

  /** What is left of a cell has as many ports as it has live ones. */
  ghost predicate Fits(cell: seq<Mux>, x: Mux, live: nat) {
    |cell| <= 1 && live <= |x.data| && (|cell| == 1 ==> |cell[0].data| == live)
  }

  lemma CellPorts(before: seq<Mux>, cell: seq<Mux>, x: Mux, live: nat)
    requires Fits(cell, x, live)
    ensures Ports(before + cell) + (|x.data| - live) <= Ports(before) + |x.data|
  {
    if cell == [] {
      assert before + cell == before;
    } else {
      assert cell == [cell[0]];
      PortsAppend(before, cell[0]);
    }
  }

  ghost predicate PortsBelow(xs: seq<seq<Mux>>, muxes: seq<Mux>, st: State, n: nat)
    requires n <= |xs| && n <= |muxes|
  {
    Ports(Flat(xs[..n])) + Deleted(muxes, st, n) <= Ports(muxes[..n])
  }

  lemma PortsStep(xs: seq<seq<Mux>>, muxes: seq<Mux>, st: State, n: nat, live: nat)
    requires n < |xs| && n < |muxes| && live == |Live(muxes, st, n)| && Fits(xs[n], muxes[n], live)
    requires PortsBelow(xs, muxes, st, n)
    ensures PortsBelow(xs, muxes, st, n + 1)
  {
    FlatNext(xs, n);
    PortsNext(muxes, n);
    CellPorts(Flat(xs[..n]), xs[n], muxes[n], live);
  }

  lemma {:induction false} FlatPorts(xs: seq<seq<Mux>>, muxes: seq<Mux>, st: State, n: nat)
    requires n <= |xs| <= |muxes| && forall m :: 0 <= m < |xs| ==> Fits(xs[m], muxes[m], |Live(muxes, st, m)|)
    ensures PortsBelow(xs, muxes, st, n)
  {
    if n > 0 {
      FlatPorts(xs, muxes, st, n - 1);
      PortsStep(xs, muxes, st, n - 1, |Live(muxes, st, n - 1)|);
    } else {
      assert xs[..0] == [] && muxes[..0] == [];
    }
  }

  lemma {:induction false} SamePorts(a: seq<Mux>, b: seq<Mux>)
    requires |a| == |b| && forall m :: 0 <= m < |a| ==> |a[m].data| == |b[m].data|
    ensures Ports(a) == Ports(b)
  {
    if a != [] {
      SamePorts(a[..|a| - 1], b[..|b| - 1]);
    }
  }

  lemma {:induction false} CanonicalPorts(net: Netlist)
    ensures Ports(Canonical(net).muxes) == Ports(net.muxes)
    decreases |net.conns|
  {
    if net.conns != [] {
      var s := Subst(net.conns[0].0, net.conns[0].1, net.(conns := net.conns[1..]));
      SamePorts(s.muxes, net.muxes);
      CanonicalPorts(s);
    }
  }

  lemma RunShrinks(net: Netlist, budget: nat)
    requires WfMuxes(net)
    ensures Ports(RunResult(net, budget).muxes) + Removed(net, budget) <= Ports(net.muxes)
  {
    var st := FinalState(Build(net), budget);
    if st.budget == 0 {
      SamePorts(Replaced(net, st).muxes, net.muxes);
    } else {
      TrimmedPorts(net, st);
    }
  }

  lemma TrimmedPorts(net: Netlist, st: State)
    requires WfMuxes(net) && Shaped(net.muxes, st)
    ensures Ports(Trimmed(net, st).muxes) + Deleted(net.muxes, st, |net.muxes|) <= Ports(net.muxes)
  {
    FlatPorts(AllCells(net.muxes, st), net.muxes, st, |net.muxes|);
    FlatWhole(AllCells(net.muxes, st));
    assert net.muxes[..|net.muxes|] == net.muxes;
  }

  /** Every port counted as removed is gone after the round, so the repetition ends. */
  lemma RoundShrinks(net: Netlist, budget: nat)
    requires WfMuxes(net)
    ensures Ports(Round(net, budget).muxes) + Removed(net, budget) <= Ports(net.muxes)
  {
    RunShrinks(net, budget);
    CanonicalPorts(RunResult(net, budget));
  }
}
