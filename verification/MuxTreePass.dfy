/** One run of the optimiser on a module, and the pass that repeats it until nothing is removed. */
module MuxTreePass {
  import opened Flatten
  import opened MuxNetlist
  import opened MuxTree
  import opened MuxTreeProofs

  // ---------------------------------------------------------------------------------------------
  // One run keeps the value of everything that is read outside the multiplexers

  ghost predicate ControlsAgree(v: Valuation, u: Valuation, x: Mux) {
    forall s :: 0 <= s < |x.ctrl| ==> Active(v, x.ctrl[s]) == Active(u, x.ctrl[s])
  }

  /** What a valuation `u` of the transformed module is known to satisfy, given that a cell reads the
      same controls as under `v`. */
  ghost predicate Transformed(tab: Tables, st: State, env: Env, v: Valuation, u: Valuation)
    requires WfTables(tab) && Valid(tab, st)
  {
    && (forall m, i ::
          (0 <= m < |tab.muxes| && Reached(tab, v, st.pure, m) && 0 <= i < |tab.muxes[m].out|
           && ControlsAgree(v, u, tab.muxes[m]))
          ==> u(tab.muxes[m].out[i]) == Value(env, u, st.data[m][Selected(tab, v, m)][i]))
    && (forall w :: !MuxDriven(tab.muxes, w) ==> u(w) == env.free(w))
  }

  ghost predicate ReachedData(tab: Tables, st: State, env: Env, v: Valuation)
    requires WfTables(tab) && Valid(tab, st)
  {
    forall m, i :: 0 <= m < |tab.muxes| && Reached(tab, v, st.pure, m) && 0 <= i < |tab.muxes[m].out|
      ==> var p := Selected(tab, v, m);
          Value(env, v, st.data[m][p][i]) == Value(env, v, tab.muxes[m].data[p][i])
  }

  /** The driver of the bit, if any, is reached. */
  ghost predicate Relevant(tab: Tables, v: Valuation, pure: set<nat>, b: Bit)
    requires WfTables(tab)
  {
    forall m, i :: 0 <= m < |tab.muxes| && 0 <= i < |tab.muxes[m].out| && Wire(tab.muxes[m].out[i]) == b
      ==> Reached(tab, v, pure, m)
  }

  lemma SeenRelevant(net: Netlist, v: Valuation, pure: set<nat>, w: nat)
    requires WfMuxes(net) && Build(net).seen <= pure && SeenByNonMux(net, w)
    ensures Relevant(Build(net), v, pure, Wire(w))
  {
    var tab := Build(net);
    forall m, i | 0 <= m < |tab.muxes| && 0 <= i < |tab.muxes[m].out| && tab.muxes[m].out[i] == w
      ensures Reached(tab, v, pure, m)
    {
      assert SeenByNonMux(net, net.muxes[m].out[i]);
      assert m in tab.seen;
      assert IsPath(tab, v, [m]);
    }
  }

  /** The data bits of the selected port of a reached multiplexer are relevant. */
  lemma DataRelevant(net: Netlist, v: Valuation, pure: set<nat>, m: nat, i: nat)
    requires WfMuxes(net) && m < |net.muxes| && i < |net.muxes[m].out| && Reached(Build(net), v, pure, m)
    ensures Relevant(Build(net), v, pure, net.muxes[m].data[Selected(Build(net), v, m)][i])
  {
    var tab := Build(net);
    var p := Selected(tab, v, m);
    var b := net.muxes[m].data[p][i];
    forall k, j | 0 <= k < |tab.muxes| && 0 <= j < |tab.muxes[k].out| && Wire(tab.muxes[k].out[j]) == b
      ensures Reached(tab, v, pure, k)
    {
      assert b in net.muxes[m].data[p];
      assert FeedsPort(net, k, m, p);
      assert k in tab.inputs[m][p];
      ReachedStep(tab, v, pure, m, k);
    }
  }

  ghost function RankOf(rank: nat -> nat, b: Bit): nat {
    if b.Wire? then rank(b.id) + 1 else 0
  }

  /** Everything known about the result `u` of transforming the module whose tables are `Build(net)`. */
  ghost predicate Situation(net: Netlist, rank: nat -> nat, st: State, env: Env, v: Valuation, u: Valuation) {
    && WellFormed(net) && Acyclic(rank, net) && Valid(Build(net), st)
    && Consistent(net, env, v) && Transformed(Build(net), st, env, v, u)
    && DataRefines(net.muxes, st) && ReachedData(Build(net), st, env, v) && Build(net).seen <= st.pure
  }

  /** Relevant bits keep their values. By induction on the rank: the controls of a reached cell agree,
      so it selects the same port, whose data bit was kept or replaced by its value. */
  lemma {:induction false} RelevantKept(net: Netlist, rank: nat -> nat, st: State, env: Env, v: Valuation, u: Valuation, b: Bit)
    requires Situation(net, rank, st, env, v, u)
    requires Relevant(Build(net), v, st.pure, b)
    ensures Value(env, u, b) == Value(env, v, b)
    decreases RankOf(rank, b)
  {
    if b.Wire? && MuxDriven(net.muxes, b.id) {
      var m, i :| 0 <= m < |net.muxes| && 0 <= i < |net.muxes[m].out| && net.muxes[m].out[i] == b.id;
      var x := net.muxes[m];
      assert AcyclicMux(rank, x);
      assert Reached(Build(net), v, st.pure, m);
      forall s | 0 <= s < |x.ctrl|
        ensures Active(v, x.ctrl[s]) == Active(u, x.ctrl[s])
      {
        assert Below(rank, x.ctrl[s], rank(x.out[i]));
        if x.ctrl[s].Wire? {
          assert x.ctrl[s] in net.muxes[m].ctrl;
          SeenRelevant(net, v, st.pure, x.ctrl[s].id);
          RelevantKept(net, rank, st, env, v, u, x.ctrl[s]);
        }
      }
      assert ControlsAgree(v, u, x);
      SelectedKept(net, rank, st, env, v, u, m, i);
      var p := Selected(Build(net), v, m);
      var d := x.data[p][i];
      if st.data[m][p][i] == d {
        assert Below(rank, d, rank(x.out[i]));
        DataRelevant(net, v, st.pure, m, i);
        RelevantKept(net, rank, st, env, v, u, d);
      }
    } else if b.Wire? {
      assert !Driven(net, b.id);
    }
  }

  /** Under `v` and under `u` the output copies the selected data bit, kept or replaced by its value. */
  lemma SelectedKept(net: Netlist, rank: nat -> nat, st: State, env: Env, v: Valuation, u: Valuation, m: nat, i: nat)
    requires Situation(net, rank, st, env, v, u)
    requires m < |net.muxes| && i < |net.muxes[m].out| && Reached(Build(net), v, st.pure, m)
    requires ControlsAgree(v, u, net.muxes[m])
    ensures var p := Selected(Build(net), v, m);
            var b, d, y := st.data[m][p][i], net.muxes[m].data[p][i], net.muxes[m].out[i];
            && (b == d || b == Zero || b == One)
            && u(y) == Value(env, u, b) && v(y) == Value(env, v, d) == Value(env, v, b)
  {
    var tab := Build(net);
    assert MuxHolds(env, v, net.muxes[m]);
    assert Reached(tab, v, st.pure, m) && tab.muxes[m] == net.muxes[m];
  }

  /** The multiplexers that can matter under `v` form a back-closed set. */
  lemma ReachedBackClosed(tab: Tables, v: Valuation, st: State) returns (act: set<nat>)
    requires WfTables(tab) && Valid(tab, st) && SingleUse(tab)
    ensures forall m: nat :: m in act <==> m < |tab.muxes| && Reached(tab, v, st.pure, m)
    ensures BackClosed(tab, v, act)
  {
    act := set m | m in UpTo(|tab.muxes|) && Reached(tab, v, st.pure, m);
    forall k: nat, m: nat, p: nat | k in act && k < |tab.muxes| && k !in tab.roots
        && m < |tab.muxes| && p < |tab.muxes[m].data| && k in tab.inputs[m][p]
      ensures m in act && p == Selected(tab, v, m)
    {
      var n := ReachedPredecessor(tab, v, st.pure, k);
      assert UsesAt(tab, k, n, Selected(tab, v, n)) && UsesAt(tab, k, m, p);
    }
  }

  /** The conditions under which substituting known bits is right (see MuxTreeLimits). */
  ghost predicate Eligible(net: Netlist)
    requires WfMuxes(net)
  {
    SingleUse(Build(net)) && AllAligned(Build(net))
  }

  lemma FinalReachedData(tab: Tables, env: Env, v: Valuation, budget: nat)
    requires WfTables(tab) && SingleUse(tab) && AllAligned(tab) && OneHot(v, tab.muxes)
    ensures var st := FinalState(tab, budget); DataRefines(tab.muxes, st) && ReachedData(tab, st, env, v)
  {
    var st := FinalState(tab, budget);
    var act := ReachedBackClosed(tab, v, st);
    FinalHolds(tab, env, v, act, budget);
  }

  // ---------------------------------------------------------------------------------------------
  // Both results of a run are transformations in this sense

  lemma TrimSelects(v: Valuation, u: Valuation, x: Mux, data: seq<seq<Bit>>, live: seq<nat>, j: nat)
    requires WfMux(x) && SameShape(data, x.data) && AtMostOneActive(v, x) && ControlsAgree(v, u, x)
    requires |live| >= 2 && AllBelow(live, |x.data|) && AllBelow(live[..|live| - 1], live[|live| - 1])
    requires Ascending(live)
    requires j < |live| && live[j] == FirstActive(v, x.ctrl)
    ensures FirstActive(u, TrimMux(x, data, live).ctrl) == j
  {
    var y := TrimMux(x, data, live);
    var last := |live| - 1;
    forall k | 0 <= k < last
      ensures Active(u, y.ctrl[k]) <==> k == j
    {
      assert live[k] < live[last];
      OnlySelectedActive(v, x, live[k]);
    }
    var f := FirstActive(u, y.ctrl);
    assert f < last ==> Active(u, y.ctrl[f]);
    assert j < last ==> Active(u, y.ctrl[j]);
  }

  /** Every cell of the trimmed module comes from a different cell of the original. */
  lemma CellOrigins(net: Netlist, st: State) returns (from: seq<nat>)
    requires WfMuxes(net) && Shaped(net.muxes, st)
    ensures |from| == |Trimmed(net, st).muxes|
    ensures forall k :: 0 <= k < |from| ==>
              from[k] < |net.muxes| && Cells(net.muxes, st, from[k]) == [Trimmed(net, st).muxes[k]]
    ensures forall k, l :: 0 <= k < l < |from| ==> from[k] != from[l]
  {
    var xs := AllCells(net.muxes, st);
    var at := FlatOrigins(xs);
    from := seq(|at|, k requires 0 <= k < |at| => at[k].0);
    forall k | 0 <= k < |from|
      ensures from[k] < |net.muxes| && Cells(net.muxes, st, from[k]) == [Trimmed(net, st).muxes[k]] && at[k].1 == 0
    {
      assert xs[at[k].0][at[k].1] == Flat(xs)[k];
      assert |Cells(net.muxes, st, from[k])| <= 1;
    }
    forall k, l | 0 <= k < l < |from|
      ensures from[k] != from[l]
    {
      assert at[k] != at[l] && at[k] == (from[k], 0) && at[l] == (from[l], 0);
    }
  }

  /** Every connection of the trimmed module comes from a different output bit of the original. */
  lemma ConnOrigins(net: Netlist, st: State) returns (from: seq<(nat, nat)>)
    requires WfMuxes(net) && net.conns == [] && Shaped(net.muxes, st)
    ensures |from| == |Trimmed(net, st).conns|
    ensures forall k :: 0 <= k < |from| ==>
              from[k].0 < |net.muxes| && from[k].1 < |Conns(net.muxes, st, from[k].0)|
              && Conns(net.muxes, st, from[k].0)[from[k].1] == Trimmed(net, st).conns[k]
    ensures forall k, l :: 0 <= k < l < |from| ==> from[k] != from[l]
  {
    var xs := AllConns(net.muxes, st);
    from := FlatOrigins(xs);
    assert Trimmed(net, st).conns == Flat(xs);
    forall k | 0 <= k < |from|
      ensures from[k].0 < |net.muxes| && from[k].1 < |Conns(net.muxes, st, from[k].0)|
              && Conns(net.muxes, st, from[k].0)[from[k].1] == Flat(xs)[k]
    {
      assert xs[from[k].0] == Conns(net.muxes, st, from[k].0);
    }
  }

  lemma CellKept(net: Netlist, st: State, m: nat)
    requires WfMuxes(net) && Shaped(net.muxes, st) && m < |net.muxes| && |Live(net.muxes, st, m)| >= 2
    ensures TrimMux(net.muxes[m], st.data[m], Live(net.muxes, st, m)) in Trimmed(net, st).muxes
  {
    var xs := AllCells(net.muxes, st);
    assert xs[m] == Cells(net.muxes, st, m);
    FlatHas(xs, m, 0);
  }

  lemma ConnKept(net: Netlist, st: State, m: nat, i: nat)
    requires WfMuxes(net) && Shaped(net.muxes, st) && m < |net.muxes| && |Live(net.muxes, st, m)| == 1
    requires i < |net.muxes[m].out|
    ensures (net.muxes[m].out[i], st.data[m][Live(net.muxes, st, m)[0]][i]) in Trimmed(net, st).conns
  {
    var xs := AllConns(net.muxes, st);
    assert xs[m] == Conns(net.muxes, st, m);
    FlatHas(xs, m, i);
  }

  /** Trimming drives no new wires. */
  lemma TrimmedDrives(net: Netlist, st: State, w: nat)
    requires WfMuxes(net) && net.conns == [] && Shaped(net.muxes, st)
    requires Driven(Trimmed(net, st), w)
    ensures MuxDriven(net.muxes, w)
  {
    var r := Trimmed(net, st);
    if MuxDriven(r.muxes, w) {
      var k, i :| 0 <= k < |r.muxes| && 0 <= i < |r.muxes[k].out| && r.muxes[k].out[i] == w;
      var from := CellOrigins(net, st);
      assert Cells(net.muxes, st, from[k]) == [r.muxes[k]];
      assert net.muxes[from[k]].out[i] == w;
    } else {
      var k :| 0 <= k < |r.conns| && r.conns[k].0 == w;
      var from := ConnOrigins(net, st);
      assert Conns(net.muxes, st, from[k].0)[from[k].1] == r.conns[k];
      assert net.muxes[from[k].0].out[from[k].1] == w;
    }
  }

  lemma CellHolds(r: Netlist, env: Env, u: Valuation, y: Mux, i: nat)
    requires WfMuxes(r) && Consistent(r, env, u) && y in r.muxes && i < |y.out|
    ensures WfMux(y) && u(y.out[i]) == Value(env, u, y.data[FirstActive(u, y.ctrl)][i])
  {
    assert WfMux(y) && MuxHolds(env, u, y);
  }

  lemma ConnHolds(r: Netlist, env: Env, u: Valuation, c: (nat, Bit))
    requires WfMuxes(r) && Consistent(r, env, u) && c in r.conns
    ensures u(c.0) == Value(env, u, c.1)
  {
  }

  lemma TrimmedCellOutput(net: Netlist, env: Env, v: Valuation, u: Valuation, st: State, m: nat, i: nat, j: nat)
    requires WfMuxes(net) && Shaped(net.muxes, st) && WfMuxes(Trimmed(net, st))
    requires m < |net.muxes| && AtMostOneActive(v, net.muxes[m]) && i < |net.muxes[m].out| && ControlsAgree(v, u, net.muxes[m])
    requires var live := Live(net.muxes, st, m);
             |live| >= 2 && Ascending(live) && j < |live| && live[j] == FirstActive(v, net.muxes[m].ctrl)
    requires Consistent(Trimmed(net, st), env, u)
    ensures u(net.muxes[m].out[i]) == Value(env, u, st.data[m][FirstActive(v, net.muxes[m].ctrl)][i])
  {
    var live := Live(net.muxes, st, m);
    CellKept(net, st, m);
    TrimSelects(v, u, net.muxes[m], st.data[m], live, j);
    CellHolds(Trimmed(net, st), env, u, TrimMux(net.muxes[m], st.data[m], live), i);
  }

  lemma TrimmedOutput(net: Netlist, env: Env, v: Valuation, u: Valuation, st: State, m: nat, i: nat)
    requires WfMuxes(net) && Shaped(net.muxes, st) && WfMuxes(Trimmed(net, st))
    requires m < |net.muxes| && AtMostOneActive(v, net.muxes[m]) && i < |net.muxes[m].out| && ControlsAgree(v, u, net.muxes[m])
    requires (m, FirstActive(v, net.muxes[m].ctrl)) in st.enabled
    requires Consistent(Trimmed(net, st), env, u)
    ensures u(net.muxes[m].out[i]) == Value(env, u, st.data[m][FirstActive(v, net.muxes[m].ctrl)][i])
  {
    var x := net.muxes[m];
    var p := FirstActive(v, x.ctrl);
    var live := Live(net.muxes, st, m);
    LivePortsHave(st.enabled, m, |x.data|, p);
    LivePortsAscend(st.enabled, m, |x.data|);
    var j :| 0 <= j < |live| && live[j] == p;
    if |live| == 1 {
      ConnKept(net, st, m, i);
      ConnHolds(Trimmed(net, st), env, u, (x.out[i], st.data[m][p][i]));
    } else {
      TrimmedCellOutput(net, env, v, u, st, m, i, j);
    }
  }

  lemma TrimmedIsWf(net: Netlist, st: State)
    requires WfMuxes(net) && Shaped(net.muxes, st)
    ensures WfMuxes(Trimmed(net, st))
  {
    var r := Trimmed(net, st);
    var from := CellOrigins(net, st);
    forall k | 0 <= k < |r.muxes|
      ensures WfMux(r.muxes[k])
    {
      assert Cells(net.muxes, st, from[k]) == [r.muxes[k]];
    }
  }

  lemma TrimmedTransformed(net: Netlist, env: Env, v: Valuation, u: Valuation, st: State)
    requires WellFormed(net) && Valid(Build(net), st) && OneHot(v, net.muxes)
    requires forall m :: 0 <= m < |net.muxes| && Reached(Build(net), v, st.pure, m) ==> SelectionEnabled(Build(net), v, st, m)
    requires WfMuxes(Trimmed(net, st)) && Consistent(Trimmed(net, st), env, u)
    ensures Transformed(Build(net), st, env, v, u)
  {
    var tab := Build(net);
    forall m, i | 0 <= m < |tab.muxes| && Reached(tab, v, st.pure, m) && 0 <= i < |tab.muxes[m].out|
        && ControlsAgree(v, u, tab.muxes[m])
      ensures u(tab.muxes[m].out[i]) == Value(env, u, st.data[m][Selected(tab, v, m)][i])
    {
      assert SelectionEnabled(tab, v, st, m);
      TrimmedOutput(net, env, v, u, st, m, i);
    }
    forall w | !MuxDriven(tab.muxes, w)
      ensures u(w) == env.free(w)
    {
      if Driven(Trimmed(net, st), w) {
        TrimmedDrives(net, st, w);
      }
    }
  }

  lemma ReplacedTransformed(net: Netlist, env: Env, v: Valuation, u: Valuation, st: State)
    requires WellFormed(net) && Valid(Build(net), st) && OneHot(v, net.muxes)
    requires Consistent(Replaced(net, st), env, u)
    ensures Transformed(Build(net), st, env, v, u)
  {
    var tab, r := Build(net), Replaced(net, st);
    forall m, i | 0 <= m < |tab.muxes| && 0 <= i < |tab.muxes[m].out| && ControlsAgree(v, u, tab.muxes[m])
      ensures u(tab.muxes[m].out[i]) == Value(env, u, st.data[m][Selected(tab, v, m)][i])
    {
      SameFirst(v, u, net.muxes[m].ctrl, net.muxes[m].ctrl);
      assert MuxHolds(env, u, r.muxes[m]);
    }
    forall w | !MuxDriven(tab.muxes, w)
      ensures u(w) == env.free(w)
    {
      assert forall m :: 0 <= m < |r.muxes| ==> r.muxes[m].out == net.muxes[m].out;
      assert !Driven(r, w);
    }
  }

  /** The module after one run, before its connections are resolved. */
  ghost function RunResult(net: Netlist, budget: nat): (r: Netlist)
    requires WfMuxes(net)
    ensures WfMuxes(r) && r.taps == net.taps
  {
    var st := FinalState(Build(net), budget);
    TrimmedIsWf(net, st);
    if st.budget == 0 then Replaced(net, st) else Trimmed(net, st)
  }

  lemma RunTransformed(net: Netlist, budget: nat, env: Env, v: Valuation, u: Valuation)
    requires WellFormed(net) && OneHot(v, net.muxes)
    requires Consistent(RunResult(net, budget), env, u)
    ensures Transformed(Build(net), FinalState(Build(net), budget), env, v, u)
  {
    var tab := Build(net);
    var st := FinalState(tab, budget);
    if st.budget == 0 {
      ReplacedTransformed(net, env, v, u, st);
    } else {
      FinalCovered(tab, v, budget);
      forall m | 0 <= m < |tab.muxes| && Reached(tab, v, st.pure, m)
        ensures SelectionEnabled(tab, v, st, m)
      {
        ReachedEnabled(tab, v, st, m);
      }
      TrimmedTransformed(net, env, v, u, st);
    }
  }

  /** One run preserves meaning: for every assignment of the bits no multiplexer drives under which
      each `$pmux` has at most one active control, every bit read outside the data ports of
      multiplexers has the same value before and after. */
  lemma RunPreserves(net: Netlist, rank: nat -> nat, budget: nat, env: Env, v: Valuation, u: Valuation, w: nat)
    requires WellFormed(net) && Acyclic(rank, net) && Eligible(net)
    requires Consistent(net, env, v) && OneHot(v, net.muxes)
    requires Consistent(RunResult(net, budget), env, u)
    requires SeenByNonMux(net, w)
    ensures u(w) == v(w)
  {
    var st := FinalState(Build(net), budget);
    FinalReachedData(Build(net), env, v, budget);
    RunTransformed(net, budget, env, v, u);
    SeenRelevant(net, v, st.pure, w);
    RelevantKept(net, rank, st, env, v, u, Wire(w));
  }
}
