/** Modules two multiplexers deep: how the evaluation of one runs, when it completes, and for which shapes
    the run is right whatever the data are. */
module MuxTreeShapes {
  import opened MuxNetlist
  import opened MuxTree
  import opened MuxTreeProofs
  import opened MuxTreePass
  import opened MuxTreeLoop
  import opened MuxTreeTame
  import opened MuxTreeShared

  // ---------------------------------------------------------------------------------------------
  // Cells that no multiplexer feeds

  ghost predicate Leaf(tab: Tables, k: nat)
    requires WfTables(tab)
  {
    k < |tab.muxes| && forall p :: 0 <= p < |tab.inputs[k]| ==> tab.inputs[k][p] == []
  }

  /** Nothing that feeds the cell is left to visit. */
  ghost predicate Blocked(tab: Tables, k: nat, visited: set<nat>)
    requires WfTables(tab)
  {
    k < |tab.muxes| && forall p :: 0 <= p < |tab.inputs[k]| ==> NotVisited(tab.inputs[k][p], visited) == []
  }

  ghost function PortSet(m: nat, ports: seq<nat>): set<(nat, nat)> {
    set p | p in ports :: (m, p)
  }

  lemma {:induction false} BlockedPorts(tab: Tables, st: State, inactive: multiset<nat>, active: multiset<nat>,
                                        visited: set<nat>, m: nat, ports: seq<nat>, replace: bool, enable: bool, abort: nat)
    requires WfTables(tab) && Valid(tab, st) && Blocked(tab, m, visited) && AllBelow(ports, |tab.muxes[m].data|) && st.budget > 0
    ensures EvalPorts(tab, st, inactive, active, visited, m, ports, replace, enable, abort)
         == if enable then st.(enabled := st.enabled + PortSet(m, ports)) else st
    decreases |ports|
  {
    if ports == [] {
      assert st.enabled + PortSet(m, ports) == st.enabled;
    } else {
      var st1 := if enable then st.(enabled := st.enabled + {(m, ports[0])}) else st;
      assert NotVisited(tab.inputs[m][ports[0]], visited) == [];
      assert EvalPort(tab, st, inactive, active, visited, m, ports[0], replace, enable, abort) == st1;
      BlockedPorts(tab, st1, inactive, active, visited, m, ports[1..], replace, enable, abort);
      assert ports == [ports[0]] + ports[1..];
      assert st.enabled + {(m, ports[0])} + PortSet(m, ports[1..]) == st.enabled + PortSet(m, ports);
    }
  }

  /** What evaluating the cell itself does. */
  ghost function OwnResult(tab: Tables, st: State, inactive: multiset<nat>, active: multiset<nat>, m: nat,
                           replace: bool, enable: bool): State
    requires WfTables(tab) && Valid(tab, st) && m < |tab.muxes| && st.budget > 0
  {
    var st1 := st.(budget := st.budget - 1);
    var st2 := if replace then ReplaceKnown(tab, st1, inactive, active, m) else st1;
    if enable then st2.(enabled := st2.enabled + PortSet(m, PortsToEval(tab.muxes[m], inactive, active))) else st2
  }

  lemma BlockedMux(tab: Tables, st: State, inactive: multiset<nat>, active: multiset<nat>, visited: set<nat>,
                m: nat, replace: bool, enable: bool, abort: nat)
    requires WfTables(tab) && Valid(tab, st) && Blocked(tab, m, visited) && st.budget > 1
    ensures EvalMux(tab, st, inactive, active, visited, m, replace, enable, abort)
         == OwnResult(tab, st, inactive, active, m, replace, enable)
  {
    var st1 := st.(budget := st.budget - 1);
    var st2 := if replace then ReplaceKnown(tab, st1, inactive, active, m) else st1;
    BlockedPorts(tab, st2, inactive, active, visited, m, PortsToEval(tab.muxes[m], inactive, active), replace, enable, abort);
  }

  // ---------------------------------------------------------------------------------------------
  // What evaluating a module costs when every cell that feeds another is a leaf or read outside

  ghost predicate Shallow(tab: Tables)
    requires WfTables(tab)
  {
    forall m, p, k :: 0 <= m < |tab.muxes| && 0 <= p < |tab.inputs[m]| && k in tab.inputs[m][p]
      ==> k in tab.seen || Leaf(tab, k)
  }

  /** `r` spent at most `n` evaluations more than `st` and made no root wait. */
  ghost predicate Spends(st: State, r: State, n: nat) {
    r.budget + n >= st.budget && r.pure == st.pure && r.rerun == st.rerun
  }

  lemma LeafSpends(tab: Tables, st: State, inactive: multiset<nat>, active: multiset<nat>, visited: set<nat>,
                   k: nat, replace: bool, enable: bool, abort: nat)
    requires WfTables(tab) && Valid(tab, st) && (k in st.pure || Leaf(tab, k)) && k < |tab.muxes| && st.budget > 1 && abort > 0
    ensures Spends(st, EvalParent(tab, st, inactive, active, visited, k, replace, enable, abort), 1)
  {
    if k !in st.pure {
      if k in tab.roots {
        BlockedMux(tab, st, inactive, active, visited, k, false, enable, abort - 1);
      } else {
        BlockedMux(tab, st, inactive, active, visited, k, replace, enable, abort);
      }
    }
  }

  lemma {:induction false} ParentsSpend(tab: Tables, st: State, inactive: multiset<nat>, active: multiset<nat>, visited: set<nat>,
                                        ks: seq<nat>, replace: bool, enable: bool, abort: nat)
    requires WfTables(tab) && Valid(tab, st) && AllBelow(ks, |tab.muxes|) && st.budget > |ks| && abort > 0
    requires forall i :: 0 <= i < |ks| ==> ks[i] in st.pure || Leaf(tab, ks[i])
    ensures Spends(st, EvalParents(tab, st, inactive, active, visited, ks, replace, enable, abort), |ks|)
    decreases |ks|
  {
    if ks != [] {
      var st1 := EvalParent(tab, st, inactive, active, visited, ks[0], replace, enable, abort);
      LeafSpends(tab, st, inactive, active, visited, ks[0], replace, enable, abort);
      ParentsSpend(tab, st1, inactive, active, visited, ks[1..], replace, enable, abort);
    }
  }

  lemma {:induction false} NotVisitedShorter(ks: seq<nat>, visited: set<nat>)
    ensures |NotVisited(ks, visited)| <= |ks|
    decreases |ks|
  {
    if ks != [] {
      NotVisitedShorter(ks[1..], if ks[0] in visited then visited else visited + {ks[0]});
    }
  }

  lemma PortSpends(tab: Tables, st: State, visited: set<nat>, m: nat, p: nat, replace: bool, enable: bool, abort: nat)
    requires WfTables(tab) && Valid(tab, st) && Shallow(tab) && tab.seen <= st.pure
    requires m < |tab.muxes| && p < |tab.muxes[m].data| && st.budget > |tab.inputs[m][p]| && abort > 0
    ensures Spends(st, EvalPort(tab, st, multiset{}, multiset{}, visited, m, p, replace, enable, abort), |tab.inputs[m][p]|)
  {
    var x := tab.muxes[m];
    var ks := NotVisited(tab.inputs[m][p], visited);
    var st1 := if enable then st.(enabled := st.enabled + {(m, p)}) else st;
    NotVisitedShorter(tab.inputs[m][p], visited);
    if ks != [] {
      forall i | 0 <= i < |ks|
        ensures ks[i] in st.pure || Leaf(tab, ks[i])
      {
        assert ks[i] in tab.inputs[m][p];
      }
      UnvisitedShrinks(tab, visited, tab.inputs[m][p]);
      ParentsSpend(tab, st1, multiset{} + OtherControls(x, p, |x.data|), multiset{} + OwnControl(x, p),
                   visited + Members(ks), ks, replace, enable, abort);
    }
  }

  ghost function PortCosts(tab: Tables, m: nat, ports: seq<nat>): nat
    requires WfTables(tab) && m < |tab.muxes| && AllBelow(ports, |tab.muxes[m].data|)
  {
    if ports == [] then 0 else |tab.inputs[m][ports[0]]| + PortCosts(tab, m, ports[1..])
  }

  lemma {:induction false} PortsSpend(tab: Tables, st: State, visited: set<nat>, m: nat, ports: seq<nat>,
                                      replace: bool, enable: bool, abort: nat)
    requires WfTables(tab) && Valid(tab, st) && Shallow(tab) && tab.seen <= st.pure
    requires m < |tab.muxes| && AllBelow(ports, |tab.muxes[m].data|) && st.budget > PortCosts(tab, m, ports) && abort > 0
    ensures Spends(st, EvalPorts(tab, st, multiset{}, multiset{}, visited, m, ports, replace, enable, abort),
                   PortCosts(tab, m, ports))
    decreases |ports|
  {
    if ports != [] {
      var st1 := EvalPort(tab, st, multiset{}, multiset{}, visited, m, ports[0], replace, enable, abort);
      PortSpends(tab, st, visited, m, ports[0], replace, enable, abort);
      PortsSpend(tab, st1, visited, m, ports[1..], replace, enable, abort);
    }
  }

  ghost function RootCost(tab: Tables, m: nat): nat
    requires WfTables(tab) && m < |tab.muxes|
  {
    1 + PortCosts(tab, m, PortsToEval(tab.muxes[m], multiset{}, multiset{}))
  }

  lemma RootSpends(tab: Tables, st: State, m: nat)
    requires WfTables(tab) && Valid(tab, st) && Shallow(tab) && tab.seen <= st.pure && st.rerun == {}
    requires m < |tab.muxes| && st.budget > RootCost(tab, m)
    ensures Spends(st, EvalRoot(tab, st, m), RootCost(tab, m))
  {
    assert st.(rerun := st.rerun - {m}) == st;
    var st1 := st.(budget := st.budget - 1);
    var st2 := ReplaceKnown(tab, st1, multiset{}, multiset{}, m);
    PortsSpend(tab, st2, {m}, m, PortsToEval(tab.muxes[m], multiset{}, multiset{}), true, m in st.pure, ABORT_DEPTH);
  }

  ghost function RootCosts(tab: Tables, m: nat): nat
    requires WfTables(tab) && m <= |tab.muxes|
    decreases |tab.muxes| - m
  {
    if m == |tab.muxes| then 0 else RootCost(tab, m) + RootCosts(tab, m + 1)
  }

  lemma {:induction false} RootsSpend(tab: Tables, st: State, m: nat)
    requires WfTables(tab) && Valid(tab, st) && Shallow(tab) && tab.seen <= st.pure && st.rerun == {}
    requires m <= |tab.muxes| && st.budget > RootCosts(tab, m)
    ensures Spends(st, EvalRootsFrom(tab, st, m), RootCosts(tab, m))
    decreases |tab.muxes| - m
  {
    if m < |tab.muxes| {
      if m !in tab.roots {
        RootsSpend(tab, st, m + 1);
      } else {
        RootSpends(tab, st, m);
        RootsSpend(tab, EvalRoot(tab, st, m), m + 1);
      }
    }
  }

  ghost function Cost(net: Netlist): nat
    requires WfMuxes(net)
  {
    RootCosts(Build(net), 0)
  }

  /** A shallow module is evaluated completely with a budget above its cost. */
  lemma ShallowCompletes(net: Netlist, budget: nat)
    requires WfMuxes(net) && Shallow(Build(net)) && budget > Cost(net)
    ensures Completes(net, budget)
  {
    var tab := Build(net);
    var st0 := InitialState(tab, budget);
    RootsSpend(tab, st0, 0);
    var st1 := EvalRootsFrom(tab, st0, 0);
    assert Rerun(tab, st1) == st1;
  }

  // ---------------------------------------------------------------------------------------------
  // Shapes: modules that differ in data bits no multiplexer drives

  ghost predicate Undriven(net: Netlist, b: Bit) {
    b.Wire? ==> !MuxDriven(net.muxes, b.id)
  }

  ghost predicate SameOrUndriven(net: Netlist, a: seq<Bit>, b: seq<Bit>) {
    |a| == |b| && forall i :: 0 <= i < |a| ==> a[i] == b[i] || (Undriven(net, a[i]) && Undriven(net, b[i]))
  }

  ghost predicate VariantCell(net: Netlist, x: Mux, y: Mux) {
    && x.ctrl == y.ctrl && x.out == y.out && |x.data| == |y.data|
    && forall p :: 0 <= p < |x.data| ==> SameOrUndriven(net, x.data[p], y.data[p])
  }

  /** The two modules have the same shape: the same cells, controls, outputs and taps, and the same data
      bits where a multiplexer drives one. */
  ghost predicate Variant(net: Netlist, other: Netlist) {
    && |net.muxes| == |other.muxes| && net.taps == other.taps && net.conns == other.conns
    && forall m :: 0 <= m < |net.muxes| ==> VariantCell(net, net.muxes[m], other.muxes[m])
  }

  ghost predicate AllTapped(net: Netlist, m: nat)
    requires m < |net.muxes|
  {
    forall i :: 0 <= i < |net.muxes[m].out| ==> Wire(net.muxes[m].out[i]) in net.taps
  }

  ghost predicate ReadsDriven(net: Netlist, m: nat)
    requires m < |net.muxes|
  {
    exists p, i :: 0 <= p < |net.muxes[m].data| && 0 <= i < |net.muxes[m].data[p]|
                   && !Undriven(net, net.muxes[m].data[p][i])
  }

  /** Every cell that reads a multiplexer is read outside. */
  ghost predicate TwoLevel(net: Netlist) {
    forall m :: 0 <= m < |net.muxes| && ReadsDriven(net, m) ==> AllTapped(net, m)
  }

  /** Controls are different wires that no multiplexer drives. */
  ghost predicate Independent(net: Netlist) {
    && (forall m, s :: 0 <= m < |net.muxes| && 0 <= s < |net.muxes[m].ctrl| ==> FreeWire(net, net.muxes[m].ctrl[s]))
    && forall m, s, n, t :: (0 <= m < |net.muxes| && 0 <= s < |net.muxes[m].ctrl| && 0 <= n < |net.muxes| && 0 <= t < |net.muxes[n].ctrl|
                             && net.muxes[m].ctrl[s] == net.muxes[n].ctrl[t]) ==> m == n && s == t
  }

  ghost predicate FreeWire(net: Netlist, b: Bit) {
    b.Wire? && !MuxDriven(net.muxes, b.id)
  }

  lemma FeederDrives(net: Netlist, k: nat, m: nat, p: nat)
    requires k < |net.muxes| && m < |net.muxes| && p < |net.muxes[m].data| && FeedsPort(net, k, m, p)
    ensures ReadsDriven(net, m) && net.muxes[k].out != []
  {
    var j :| 0 <= j < |net.muxes[k].out| && Wire(net.muxes[k].out[j]) in net.muxes[m].data[p];
    var i :| 0 <= i < |net.muxes[m].data[p]| && net.muxes[m].data[p][i] == Wire(net.muxes[k].out[j]);
    assert !Undriven(net, net.muxes[m].data[p][i]);
  }

  lemma TwoLevelShallow(net: Netlist)
    requires WfMuxes(net) && TwoLevel(net)
    ensures Shallow(Build(net))
  {
    var tab := Build(net);
    forall m, p, k | 0 <= m < |tab.muxes| && 0 <= p < |tab.inputs[m]| && k in tab.inputs[m][p] && !Leaf(tab, k)
      ensures k in tab.seen
    {
      assert FeedsPort(net, k, m, p);
      FeederDrives(net, k, m, p);
      var q :| 0 <= q < |tab.inputs[k]| && tab.inputs[k][q] != [];
      var l := tab.inputs[k][q][0];
      assert l in InputMuxes(net, k, q);
      FeederDrives(net, l, k, q);
      assert SeenByNonMux(net, net.muxes[k].out[0]);
      assert SeenMux(net, k);
    }
  }

  // ---------------------------------------------------------------------------------------------
  // Variants have the same tables

  lemma VariantDrives(net: Netlist, other: Netlist, w: nat)
    requires Variant(net, other)
    ensures MuxDriven(other.muxes, w) == MuxDriven(net.muxes, w)
  {
    if m, i :| 0 <= m < |net.muxes| && 0 <= i < |net.muxes[m].out| && net.muxes[m].out[i] == w {
      assert VariantCell(net, net.muxes[m], other.muxes[m]);
      assert other.muxes[m].out[i] == w;
    }
    if m, i :| 0 <= m < |other.muxes| && 0 <= i < |other.muxes[m].out| && other.muxes[m].out[i] == w {
      assert VariantCell(net, net.muxes[m], other.muxes[m]);
      assert net.muxes[m].out[i] == w;
    }
  }

  lemma SameDriven(net: Netlist, a: seq<Bit>, b: seq<Bit>, w: nat)
    requires SameOrUndriven(net, a, b) && MuxDriven(net.muxes, w)
    ensures Wire(w) in a <==> Wire(w) in b
  {
  }

  lemma VariantFeeds(net: Netlist, other: Netlist, k: nat, m: nat, p: nat)
    requires Variant(net, other) && k < |net.muxes| && m < |net.muxes| && p < |net.muxes[m].data|
    ensures p < |other.muxes[m].data| && FeedsPort(other, k, m, p) == FeedsPort(net, k, m, p)
  {
    assert VariantCell(net, net.muxes[m], other.muxes[m]) && VariantCell(net, net.muxes[k], other.muxes[k]);
    forall j | 0 <= j < |net.muxes[k].out|
      ensures Wire(net.muxes[k].out[j]) in net.muxes[m].data[p] <==> Wire(net.muxes[k].out[j]) in other.muxes[m].data[p]
    {
      assert MuxDriven(net.muxes, net.muxes[k].out[j]);
      SameDriven(net, net.muxes[m].data[p], other.muxes[m].data[p], net.muxes[k].out[j]);
    }
  }

  lemma VariantSeen(net: Netlist, other: Netlist, m: nat)
    requires Variant(net, other) && m < |net.muxes|
    ensures SeenMux(other, m) == SeenMux(net, m)
  {
    forall w
      ensures SeenByNonMux(other, w) == SeenByNonMux(net, w)
    {
      assert forall n :: 0 <= n < |net.muxes| ==> VariantCell(net, net.muxes[n], other.muxes[n]);
    }
    assert VariantCell(net, net.muxes[m], other.muxes[m]);
  }

  lemma VariantRoot(net: Netlist, other: Netlist, k: nat)
    requires Variant(net, other) && k < |net.muxes|
    ensures IsRoot(other, k) == IsRoot(net, k)
  {
    VariantSeen(net, other, k);
    forall m | 0 <= m < |net.muxes|
      ensures Feeds(other, k, m) == Feeds(net, k, m)
    {
      assert VariantCell(net, net.muxes[m], other.muxes[m]);
      forall p | 0 <= p < |net.muxes[m].data|
        ensures FeedsPort(other, k, m, p) == FeedsPort(net, k, m, p)
      {
        VariantFeeds(net, other, k, m, p);
      }
    }
  }

  lemma {:induction false} VariantFeeders(net: Netlist, other: Netlist, m: nat, p: nat, n: nat)
    requires Variant(net, other) && m < |net.muxes| && p < |net.muxes[m].data| && n <= |net.muxes|
    ensures p < |other.muxes[m].data| && FeedersUpTo(other, m, p, n) == FeedersUpTo(net, m, p, n)
  {
    assert VariantCell(net, net.muxes[m], other.muxes[m]);
    if n > 0 {
      VariantFeeders(net, other, m, p, n - 1);
      VariantFeeds(net, other, n - 1, m, p);
    }
  }

  lemma VariantWf(net: Netlist, other: Netlist)
    requires Variant(net, other) && WellFormed(net)
    ensures WellFormed(other)
  {
    assert forall m :: 0 <= m < |net.muxes| ==> VariantCell(net, net.muxes[m], other.muxes[m]);
    forall m | 0 <= m < |other.muxes|
      ensures WfMux(other.muxes[m])
    {
      assert forall p :: 0 <= p < |net.muxes[m].data| ==> SameOrUndriven(net, net.muxes[m].data[p], other.muxes[m].data[p]);
    }
  }

  lemma VariantTables(net: Netlist, other: Netlist)
    requires Variant(net, other) && WfMuxes(net) && WfMuxes(other)
    ensures Build(other) == Build(net).(muxes := other.muxes)
  {
    var a, b := Build(net), Build(other);
    forall m | 0 <= m < |net.muxes|
      ensures b.inputs[m] == a.inputs[m]
    {
      assert VariantCell(net, net.muxes[m], other.muxes[m]);
      forall p | 0 <= p < |net.muxes[m].data|
        ensures b.inputs[m][p] == a.inputs[m][p]
      {
        VariantFeeders(net, other, m, p, |net.muxes|);
      }
    }
    assert b.inputs == a.inputs;
    forall m | 0 <= m < |net.muxes|
      ensures IsRoot(other, m) == IsRoot(net, m) && SeenMux(other, m) == SeenMux(net, m)
    {
      VariantRoot(net, other, m);
      VariantSeen(net, other, m);
    }
    assert b.roots == a.roots && b.seen == a.seen;
  }

  lemma {:induction false} SameOpenPorts(x: Mux, y: Mux, k: nat)
    requires x.ctrl == y.ctrl && k <= |x.ctrl| + 1
    ensures OpenPorts(x, multiset{}, k) == OpenPorts(y, multiset{}, k)
    decreases |x.ctrl| + 1 - k
  {
    if k <= |x.ctrl| {
      SameOpenPorts(x, y, k + 1);
    }
  }

  lemma SamePorts(x: Mux, y: Mux)
    requires x.ctrl == y.ctrl
    ensures PortsToEval(x, multiset{}, multiset{}) == PortsToEval(y, multiset{}, multiset{})
  {
    SameOpenPorts(x, y, 0);
    var a, b := FirstConstOn(x, 0), FirstConstOn(y, 0);
    assert a < |x.ctrl| ==> ConstOn(y, a);
    assert b < |x.ctrl| ==> ConstOn(x, b);
  }

  lemma {:induction false} SamePortCosts(a: Tables, b: Tables, m: nat, ports: seq<nat>)
    requires WfTables(a) && WfTables(b) && a.inputs == b.inputs && m < |a.muxes|
    requires AllBelow(ports, |a.muxes[m].data|) && AllBelow(ports, |b.muxes[m].data|)
    ensures PortCosts(a, m, ports) == PortCosts(b, m, ports)
    decreases |ports|
  {
    if ports != [] {
      SamePortCosts(a, b, m, ports[1..]);
    }
  }

  lemma {:induction false} SameCosts(a: Tables, b: Tables, m: nat)
    requires WfTables(a) && WfTables(b) && a.inputs == b.inputs && m <= |a.muxes|
    requires forall n :: 0 <= n < |a.muxes| ==> a.muxes[n].ctrl == b.muxes[n].ctrl
    ensures RootCosts(a, m) == RootCosts(b, m)
    decreases |a.muxes| - m
  {
    if m < |a.muxes| {
      SameCosts(a, b, m + 1);
      SamePorts(a.muxes[m], b.muxes[m]);
      SamePortCosts(a, b, m, PortsToEval(a.muxes[m], multiset{}, multiset{}));
    }
  }

  /** Modules of one shape complete within the same budget. */
  lemma VariantCompletes(net: Netlist, other: Netlist, budget: nat)
    requires WellFormed(net) && TwoLevel(net) && Variant(net, other) && budget > Cost(net)
    ensures WellFormed(other) && Completes(other, budget)
  {
    VariantWf(net, other);
    VariantTables(net, other);
    assert forall m :: 0 <= m < |net.muxes| ==> VariantCell(net, net.muxes[m], other.muxes[m]);
    SameCosts(Build(net), Build(other), 0);
    TwoLevelShallow(net);
    SameShallow(Build(net), Build(other));
    ShallowCompletes(other, budget);
  }

  lemma SameShallow(a: Tables, b: Tables)
    requires WfTables(a) && WfTables(b) && a.inputs == b.inputs && a.seen == b.seen && Shallow(a)
    ensures Shallow(b)
  {
    forall m, p, k | 0 <= m < |b.muxes| && 0 <= p < |b.inputs[m]| && k in b.inputs[m][p] && k !in b.seen
      ensures Leaf(b, k)
    {
      assert Leaf(a, k);
    }
  }

  /** A ranking in which wires that no multiplexer drives come first. */
  ghost function Lifted(net: Netlist, rank: nat -> nat): nat -> nat {
    (w: nat) => if MuxDriven(net.muxes, w) then rank(w) + 1 else 0
  }

  lemma VariantAcyclic(net: Netlist, other: Netlist, rank: nat -> nat)
    requires WellFormed(net) && WellFormed(other) && Acyclic(rank, net) && Variant(net, other)
    ensures Acyclic(Lifted(net, rank), other)
  {
    var high := Lifted(net, rank);
    forall m | 0 <= m < |other.muxes|
      ensures AcyclicMux(high, other.muxes[m])
    {
      VariantCellAcyclic(net, net.muxes[m], other.muxes[m], rank, m);
    }
  }

  lemma VariantCellAcyclic(net: Netlist, x: Mux, y: Mux, rank: nat -> nat, m: nat)
    requires m < |net.muxes| && x == net.muxes[m] && VariantCell(net, x, y) && WfMux(x) && WfMux(y) && AcyclicMux(rank, x)
    ensures AcyclicMux(Lifted(net, rank), y)
  {
    var high := Lifted(net, rank);
    forall i | 0 <= i < |y.out|
      ensures forall p :: 0 <= p < |y.data| ==> Below(high, y.data[p][i], high(y.out[i]))
      ensures forall s :: 0 <= s < |y.ctrl| ==> Below(high, y.ctrl[s], high(y.out[i]))
    {
      assert MuxDriven(net.muxes, x.out[i]);
      forall p | 0 <= p < |y.data|
        ensures Below(high, y.data[p][i], high(y.out[i]))
      {
        assert SameOrUndriven(net, x.data[p], y.data[p]);
        assert Below(rank, x.data[p][i], rank(x.out[i]));
      }
      forall s | 0 <= s < |y.ctrl|
        ensures Below(high, y.ctrl[s], high(y.out[i]))
      {
        assert Below(rank, x.ctrl[s], rank(x.out[i]));
      }
    }
  }

  // ---------------------------------------------------------------------------------------------
  // Single use is exactly what makes a shape right

  /** A run of the optimiser keeps every bit read outside the data ports, for every assignment. */
  ghost predicate RunsRight(net: Netlist, budget: nat) {
    && WfMuxes(net)
    && forall env: Env, v: Valuation, u: Valuation, w: nat ::
         OneRun(net, budget, env, v, u) && SeenByNonMux(net, w) ==> u(w) == v(w)
  }

  lemma EligibleRunsRight(net: Netlist, rank: nat -> nat, budget: nat)
    requires WellFormed(net) && Acyclic(rank, net) && Eligible(net)
    ensures RunsRight(net, budget)
  {
    forall env: Env, v: Valuation, u: Valuation, w: nat | OneRun(net, budget, env, v, u) && SeenByNonMux(net, w)
      ensures u(w) == v(w)
    {
      RunPreserves(net, rank, budget, env, v, u, w);
    }
  }

  /** The next round reads at the taps what `u` gives the module before its connections are resolved. */
  ghost predicate RoundReads(net: Netlist, rank: nat -> nat, budget: nat, env: Env, u: Valuation)
    requires WfMuxes(net)
  {
    var r := Round(net, budget);
    && WellFormed(r) && Acyclic(rank, r)
    && SameTaps(env, Meaning(r, rank, env), u, r.taps, net.taps)
  }

  /** Every assignment of the undriven bits is one of a run. */
  lemma RunExists(net: Netlist, rank: nat -> nat, budget: nat, env: Env) returns (v: Valuation, u: Valuation)
    requires WellFormed(net) && Acyclic(rank, net) && !env.undef
    ensures v == Meaning(net, rank, env) && Consistent(net, env, v)
    ensures Consistent(RunResult(net, budget), env, u) && RoundReads(net, rank, budget, env, u)
  {
    v := Meaning(net, rank, env);
    var r := RunResult(net, budget);
    RunWf(net, rank, budget);
    CanonicalWf(rank, r);
    u := CanonicalSound(rank, r, env, Meaning(Canonical(r), rank, env));
  }

  lemma IndependentAligned(net: Netlist)
    requires WfMuxes(net) && Independent(net)
    ensures AllAligned(Build(net))
  {
    forall m | 0 <= m < |net.muxes|
      ensures Aligned(net.muxes[m])
    {
      PlainAligned(net.muxes, net.muxes[m]);
    }
  }

  lemma SingleUseRight(net: Netlist, rank: nat -> nat, budget: nat, other: Netlist)
    requires WellFormed(net) && Acyclic(rank, net) && Independent(net) && SingleUse(Build(net)) && Variant(net, other)
    ensures RunsRight(other, budget)
  {
    VariantWf(net, other);
    VariantTables(net, other);
    VariantAcyclic(net, other, rank);
    VariantIndependent(net, other);
    IndependentAligned(other);
    SameSingleUse(Build(net), Build(other));
    EligibleRunsRight(other, Lifted(net, rank), budget);
  }

  lemma SameSingleUse(a: Tables, b: Tables)
    requires WfTables(a) && WfTables(b) && a.inputs == b.inputs && a.roots == b.roots && SingleUse(a)
    requires |a.muxes| == |b.muxes|
    ensures SingleUse(b)
  {
    forall m | 0 <= m < |a.muxes|
      ensures |a.muxes[m].data| == |b.muxes[m].data|
    {
      assert |a.inputs[m]| == |b.inputs[m]|;
    }
    forall k: nat, m: nat, p: nat | UsesAt(b, k, m, p)
      ensures UsesAt(a, k, m, p)
    {
    }
  }

  lemma VariantIndependent(net: Netlist, other: Netlist)
    requires Variant(net, other) && Independent(net)
    ensures Independent(other)
  {
    forall m | 0 <= m < |net.muxes|
      ensures other.muxes[m].ctrl == net.muxes[m].ctrl
    {
      assert VariantCell(net, net.muxes[m], other.muxes[m]);
    }
    forall m, s | 0 <= m < |other.muxes| && 0 <= s < |other.muxes[m].ctrl|
      ensures FreeWire(other, other.muxes[m].ctrl[s])
    {
      assert FreeWire(net, net.muxes[m].ctrl[s]);
      VariantDrives(net, other, net.muxes[m].ctrl[s].id);
    }
  }

  // When some cell is used twice, data that reads a control breaks the run.

  /** Cell `k`, not a root, feeds ports `p` and `q` of cell `m` through its output bits `j` and `j2`. */
  ghost predicate FeedsTwice(net: Netlist, m: nat, p: nat, i: nat, q: nat, i2: nat, k: nat, j: nat, j2: nat)
    requires WfMuxes(net)
  {
    && Links(net, m, p, i, k, j) && Links(net, m, q, i2, k, j2) && p < q && !IsRoot(net, k)
  }

  lemma FeedLinks(net: Netlist, m: nat, p: nat, k: nat) returns (i: nat, j: nat)
    requires WfMuxes(net) && TwoLevel(net) && k < |net.muxes| && m < |net.muxes| && p < |net.muxes[m].data|
    requires FeedsPort(net, k, m, p)
    ensures Links(net, m, p, i, k, j)
  {
    FeederDrives(net, k, m, p);
    j :| 0 <= j < |net.muxes[k].out| && Wire(net.muxes[k].out[j]) in net.muxes[m].data[p];
    i :| 0 <= i < |net.muxes[m].data[p]| && net.muxes[m].data[p][i] == Wire(net.muxes[k].out[j]);
    assert AllTapped(net, m);
    assert SeenByNonMux(net, net.muxes[m].out[i]);
  }

  /** A cell used twice that is not a root has one user. */
  lemma OneUser(net: Netlist, k: nat, m: nat, p: nat, n: nat, q: nat)
    requires WfMuxes(net) && k < |net.muxes| && !IsRoot(net, k)
    requires m < |net.muxes| && p < |net.muxes[m].data| && FeedsPort(net, k, m, p)
    requires n < |net.muxes| && q < |net.muxes[n].data| && FeedsPort(net, k, n, q)
    ensures m == n
  {
    assert Feeds(net, k, m) && Feeds(net, k, n);
  }

  lemma UseFeeds(net: Netlist, k: nat, m: nat, p: nat)
    requires WfMuxes(net) && UsesAt(Build(net), k, m, p)
    ensures m < |net.muxes| && p < |net.muxes[m].data| && k < |net.muxes| && FeedsPort(net, k, m, p) && !IsRoot(net, k)
  {
    assert k in InputMuxes(net, m, p);
  }

  lemma TwoUses(tab: Tables) returns (k: nat, m: nat, p: nat, n: nat, q: nat)
    requires WfTables(tab) && !SingleUse(tab)
    ensures UsesAt(tab, k, m, p) && UsesAt(tab, k, n, q) && !(m == n && p == q)
  {
    k, m, p, n, q :| UsesAt(tab, k, m, p) && UsesAt(tab, k, n, q) && !(m == n && p == q);
  }

  lemma UsedTwice(net: Netlist)
    returns (m: nat, p: nat, i: nat, q: nat, i2: nat, k: nat, j: nat, j2: nat)
    requires WfMuxes(net) && TwoLevel(net) && !SingleUse(Build(net))
    ensures FeedsTwice(net, m, p, i, q, i2, k, j, j2)
  {
    var n;
    k, m, p, n, q := TwoUses(Build(net));
    UseFeeds(net, k, m, p);
    UseFeeds(net, k, n, q);
    OneUser(net, k, m, p, n, q);
    if p > q {
      p, q := q, p;
    }
    i, j := FeedLinks(net, m, p, k);
    i2, j2 := FeedLinks(net, m, q, k);
  }

  /** `xs` with two places set to `b`. */
  function SetTwo(xs: seq<Bit>, j: nat, j2: nat, b: Bit): (ys: seq<Bit>)
    requires j < |xs| && j2 < |xs|
    ensures |ys| == |xs| && ys[j] == b && ys[j2] == b
    ensures forall i :: 0 <= i < |xs| && i != j && i != j2 ==> ys[i] == xs[i]
  {
    xs[j := b][j2 := b]
  }

  /** The module with two data bits of the default port of cell `k` reading `b`. */
  function Rewired(net: Netlist, k: nat, j: nat, j2: nat, b: Bit): Netlist
    requires WfMuxes(net) && k < |net.muxes| && j < |net.muxes[k].out| && j2 < |net.muxes[k].out|
  {
    var x := net.muxes[k];
    net.(muxes := net.muxes[k := x.(data := x.data[|x.ctrl| := SetTwo(x.data[|x.ctrl|], j, j2, b)])])
  }

  lemma SelfVariantCell(net: Netlist, x: Mux)
    ensures VariantCell(net, x, x)
  {
    assert forall p :: 0 <= p < |x.data| ==> SameOrUndriven(net, x.data[p], x.data[p]);
  }

  lemma RewiredVariant(net: Netlist, k: nat, j: nat, j2: nat, b: Bit)
    requires WfMuxes(net) && k < |net.muxes| && j < |net.muxes[k].out| && j2 < |net.muxes[k].out|
    requires !ReadsDriven(net, k) && Undriven(net, b)
    ensures Variant(net, Rewired(net, k, j, j2, b))
  {
    var other := Rewired(net, k, j, j2, b);
    forall m | 0 <= m < |net.muxes|
      ensures VariantCell(net, net.muxes[m], other.muxes[m])
    {
      SelfVariantCell(net, net.muxes[m]);
      if m == k {
        var x, y := net.muxes[k], other.muxes[k];
        assert SameOrUndriven(net, x.data[|x.ctrl|], y.data[|x.ctrl|]);
        assert forall p :: 0 <= p < |x.data| ==> SameOrUndriven(net, x.data[p], y.data[p]);
      }
    }
  }

  /** The user reads a multiplexer, the cell it uses is not read outside: they differ, and the latter reads
      no multiplexer. */
  lemma UsedReadsNone(net: Netlist, m: nat, p: nat, i: nat, k: nat, j: nat)
    requires WfMuxes(net) && TwoLevel(net) && Links(net, m, p, i, k, j) && !IsRoot(net, k)
    ensures !ReadsDriven(net, k) && m != k
  {
    UnseenOutput(net, k, j);
    assert !AllTapped(net, k);
    assert !Undriven(net, net.muxes[m].data[p][i]);
    assert ReadsDriven(net, m);
  }

  lemma LinkKept(net: Netlist, other: Netlist, m: nat, p: nat, i: nat, k: nat, j: nat)
    requires WfMuxes(net) && WfMuxes(other) && TwoLevel(net) && Variant(net, other) && Links(net, m, p, i, k, j)
    requires other.muxes[m] == net.muxes[m]
    ensures Links(other, m, p, i, k, j)
  {
    assert VariantCell(net, net.muxes[k], other.muxes[k]);
    assert !Undriven(net, net.muxes[m].data[p][i]);
    assert AllTapped(net, m);
    assert SeenByNonMux(other, other.muxes[m].out[i]);
  }

  lemma IndependentFree(net: Netlist, m: nat)
    requires Independent(net) && m < |net.muxes|
    ensures FreeControls(net, m)
  {
    forall s | 0 <= s < |net.muxes[m].ctrl|
      ensures !MuxDriven(net.muxes, net.muxes[m].ctrl[s].id)
    {
      assert FreeWire(net, net.muxes[m].ctrl[s]);
    }
  }

  /** Rewiring a cell used twice gives a module to which `SharedBreaks` applies. */
  lemma RewiredShares(net: Netlist, m: nat, p: nat, i: nat, q: nat, i2: nat, k: nat, j: nat, j2: nat)
    requires WellFormed(net) && TwoLevel(net) && Independent(net) && FeedsTwice(net, m, p, i, q, i2, k, j, j2)
    ensures var b := net.muxes[m].ctrl[p];
            var other := Rewired(net, k, j, j2, b);
            && Variant(net, other) && WellFormed(other) && Independent(other)
            && Shares(other, Sharing(m, p, i, q, i2, k, |net.muxes[k].ctrl|, j, j2))
  {
    var b := net.muxes[m].ctrl[p];
    var other := Rewired(net, k, j, j2, b);
    UsedReadsNone(net, m, p, i, k, j);
    assert FreeWire(net, b);
    RewiredVariant(net, k, j, j2, b);
    VariantWf(net, other);
    VariantIndependent(net, other);
    VariantRoot(net, other, k);
    LinkKept(net, other, m, p, i, k, j);
    LinkKept(net, other, m, q, i2, k, j2);
  }

  /** With one undriven wire on, exactly the control that reads it is active. */
  lemma LoneControl(net: Netlist, env: Env, v: Valuation, b: Bit)
    requires WfMuxes(net) && net.conns == [] && Independent(net) && Consistent(net, env, v)
    requires (forall w :: env.free(w) == (Wire(w) == b)) && (b.Wire? || b == Zero)
    ensures forall m, s :: 0 <= m < |net.muxes| && 0 <= s < |net.muxes[m].ctrl|
              ==> (Active(v, net.muxes[m].ctrl[s]) <==> net.muxes[m].ctrl[s] == b)
    ensures OneHot(v, net.muxes)
  {
    forall m, s | 0 <= m < |net.muxes| && 0 <= s < |net.muxes[m].ctrl|
      ensures Active(v, net.muxes[m].ctrl[s]) <==> net.muxes[m].ctrl[s] == b
    {
      assert FreeWire(net, net.muxes[m].ctrl[s]);
      assert !Driven(net, net.muxes[m].ctrl[s].id);
    }
    forall m | 0 <= m < |net.muxes|
      ensures AtMostOneActive(v, net.muxes[m])
    {
    }
  }

  lemma FirstIs(v: Valuation, ctrl: seq<Bit>, s: nat)
    requires s <= |ctrl| && forall t :: 0 <= t < |ctrl| ==> (Active(v, ctrl[t]) <==> t == s)
    ensures FirstActive(v, ctrl) == s
  {
    var f := FirstActive(v, ctrl);
    assert f < |ctrl| ==> Active(v, ctrl[f]);
    assert s < |ctrl| ==> Active(v, ctrl[s]);
  }

  /** The control of port `p`; for the default port, a bit that turns no control on. */
  function Selector(x: Mux, p: nat): Bit
    requires p <= |x.ctrl|
  {
    if p < |x.ctrl| then x.ctrl[p] else Zero
  }

  /** A run in which cell `m` selects port `p` and every other cell its default port. */
  lemma SelectingRun(net: Netlist, rank: nat -> nat, budget: nat, m: nat, p: nat) returns (env: Env, v: Valuation, u: Valuation)
    requires WellFormed(net) && Acyclic(rank, net) && Independent(net) && m < |net.muxes| && p <= |net.muxes[m].ctrl|
    ensures !env.undef && v == Meaning(net, rank, env) && RoundReads(net, rank, budget, env, u)
    ensures OneRun(net, budget, env, v, u) && FirstActive(v, net.muxes[m].ctrl) == p
    ensures forall k :: 0 <= k < |net.muxes| && k != m ==> FirstActive(v, net.muxes[k].ctrl) == |net.muxes[k].ctrl|
  {
    var b := Selector(net.muxes[m], p);
    env := Env((w: nat) => Wire(w) == b, false);
    v, u := RunExists(net, rank, budget, env);
    if p < |net.muxes[m].ctrl| {
      assert FreeWire(net, net.muxes[m].ctrl[p]);
    }
    LoneControl(net, env, v, b);
    forall s | 0 <= s < |net.muxes[m].ctrl|
      ensures Active(v, net.muxes[m].ctrl[s]) <==> s == p
    {
      assert FreeWire(net, net.muxes[m].ctrl[s]);
    }
    FirstIs(v, net.muxes[m].ctrl, p);
    forall k | 0 <= k < |net.muxes| && k != m
      ensures FirstActive(v, net.muxes[k].ctrl) == |net.muxes[k].ctrl|
    {
      forall s | 0 <= s < |net.muxes[k].ctrl|
        ensures !Active(v, net.muxes[k].ctrl[s])
      {
        assert FreeWire(net, net.muxes[k].ctrl[s]);
      }
      FirstIs(v, net.muxes[k].ctrl, |net.muxes[k].ctrl|);
    }
  }

  /** For one assignment the run changes output bit `w` and the next round reads the changed value. */
  ghost predicate Changes(net: Netlist, rank: nat -> nat, budget: nat, env: Env, v: Valuation, u: Valuation, w: nat)
    requires WellFormed(net) && Acyclic(rank, net)
  {
    && !env.undef && v == Meaning(net, rank, env) && RoundReads(net, rank, budget, env, u)
    && OneRun(net, budget, env, v, u) && SeenByNonMux(net, w) && u(w) != v(w)
  }

  lemma SharesBreaks(net: Netlist, rank: nat -> nat, budget: nat, s: Sharing)
    returns (env: Env, v: Valuation, u: Valuation, w: nat)
    requires WellFormed(net) && Acyclic(rank, net) && Independent(net) && Completes(net, budget)
    requires Shares(net, s) && s.m != s.k && s.d == |net.muxes[s.k].ctrl|
    ensures Changes(net, rank, budget, env, v, u, w) && w in [net.muxes[s.m].out[s.i], net.muxes[s.m].out[s.i2]]
  {
    var e1, v1, u1 := SelectingRun(net, rank, budget, s.m, s.p);
    var e2, v2, u2 := SelectingRun(net, rank, budget, s.m, s.q);
    IndependentFree(net, s.m);
    IndependentFree(net, s.k);
    FreeControlsAgree(net, budget, e1, v1, u1, s.m);
    FreeControlsAgree(net, budget, e1, v1, u1, s.k);
    FreeControlsAgree(net, budget, e2, v2, u2, s.m);
    FreeControlsAgree(net, budget, e2, v2, u2, s.k);
    SharedDiffers(net, s, budget, e1, v1, u1, e2, v2, u2);
    w := net.muxes[s.m].out[s.i];
    if u1(w) != v1(w) {
      env, v, u := e1, v1, u1;
    } else {
      env, v, u, w := e2, v2, u2, net.muxes[s.m].out[s.i2];
    }
  }

  lemma UsedTwiceBreaks(net: Netlist, rank: nat -> nat, budget: nat) returns (other: Netlist)
    requires WellFormed(net) && Acyclic(rank, net) && TwoLevel(net) && Independent(net) && budget > Cost(net)
    requires !SingleUse(Build(net))
    ensures Variant(net, other) && !RunsRight(other, budget)
  {
    var m, p, i, q, i2, k, j, j2 := UsedTwice(net);
    RewiredShares(net, m, p, i, q, i2, k, j, j2);
    UsedReadsNone(net, m, p, i, k, j);
    other := Rewired(net, k, j, j2, net.muxes[m].ctrl[p]);
    VariantCompletes(net, other, budget);
    VariantAcyclic(net, other, rank);
    var env, v, u, w := SharesBreaks(other, Lifted(net, rank), budget, Sharing(m, p, i, q, i2, k, |net.muxes[k].ctrl|, j, j2));
  }

  /** For every shape two multiplexers deep with independent controls: the optimiser is right whatever the
      undriven data bits are if and only if every cell that is not a root feeds a single port. */
  lemma SingleUseExact(net: Netlist, rank: nat -> nat, budget: nat)
    requires WellFormed(net) && Acyclic(rank, net) && TwoLevel(net) && Independent(net) && budget > Cost(net)
    ensures SingleUse(Build(net)) <==> forall other :: Variant(net, other) ==> RunsRight(other, budget)
  {
    if SingleUse(Build(net)) {
      forall other | Variant(net, other)
        ensures RunsRight(other, budget)
      {
        SingleUseRight(net, rank, budget, other);
      }
    } else {
      var other := UsedTwiceBreaks(net, rank, budget);
    }
  }
}
