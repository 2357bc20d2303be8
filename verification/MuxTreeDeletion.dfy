/** What a run deletes, counted in the ports its evaluation enabled. */
module MuxTreeDeletion {
  import opened Flatten
  import opened MuxNetlist
  import opened MuxTree
  import opened MuxTreePass
  import opened MuxTreeLoop

  // ---------------------------------------------------------------------------------------------
  // Counting ports

  /** The enabled ports of cell `m` among the first `n`. */
  function EnabledPorts(enabled: set<(nat, nat)>, m: nat, n: nat): set<nat> {
    set p: nat | p < n && (m, p) in enabled
  }

  lemma EnabledNext(enabled: set<(nat, nat)>, m: nat, n: nat)
    ensures var ps := EnabledPorts(enabled, m, n);
            EnabledPorts(enabled, m, n + 1) == (if (m, n) in enabled then ps + {n} else ps)
  {
  }

  lemma {:induction false} LiveCount(enabled: set<(nat, nat)>, m: nat, n: nat)
    ensures |LivePorts(enabled, m, n)| == |EnabledPorts(enabled, m, n)|
  {
    if n > 0 {
      LiveCount(enabled, m, n - 1);
      EnabledNext(enabled, m, n - 1);
    } else {
      assert EnabledPorts(enabled, m, n) == {};
    }
  }

  lemma {:induction false} LiveIsEnabled(enabled: set<(nat, nat)>, m: nat, n: nat, j: nat)
    requires j < |LivePorts(enabled, m, n)|
    ensures LivePorts(enabled, m, n)[j] < n && (m, LivePorts(enabled, m, n)[j]) in enabled
  {
    if n > 0 && j < |LivePorts(enabled, m, n - 1)| {
      LiveIsEnabled(enabled, m, n - 1, j);
    }
  }

  lemma {:induction false} PlaceOf(enabled: set<(nat, nat)>, m: nat, n: nat, p: nat)
    requires p < n && (m, p) in enabled
    ensures |LivePorts(enabled, m, p)| < |LivePorts(enabled, m, n)|
    ensures LivePorts(enabled, m, n)[|LivePorts(enabled, m, p)|] == p
  {
    if p < n - 1 {
      PlaceOf(enabled, m, n - 1, p);
    }
  }

  /** An enabled port stands behind those enabled before it. */
  lemma LiveAt(enabled: set<(nat, nat)>, m: nat, n: nat, p: nat)
    requires p < n && (m, p) in enabled
    ensures var j := |EnabledPorts(enabled, m, p)|;
            j < |LivePorts(enabled, m, n)| && LivePorts(enabled, m, n)[j] == p
  {
    PlaceOf(enabled, m, n, p);
    LiveCount(enabled, m, p);
  }

  /** The ports of the first `n` cells that are not enabled. */
  function DeadPorts(muxes: seq<Mux>, enabled: set<(nat, nat)>, n: nat): set<(nat, nat)>
    requires n <= |muxes|
  {
    set m: nat, p: nat | m < n && p < |muxes[m].data| && (m, p) !in enabled :: (m, p)
  }

  /** Those of cell `m`, among its first `k` ports. */
  function DeadOf(enabled: set<(nat, nat)>, m: nat, k: nat): set<(nat, nat)> {
    set p: nat | p < k && (m, p) !in enabled :: (m, p)
  }

  lemma DeadOneMore(enabled: set<(nat, nat)>, m: nat, k: nat)
    ensures var before := DeadOf(enabled, m, k);
            && (m, k) !in before
            && DeadOf(enabled, m, k + 1) == if (m, k) in enabled then before else before + {(m, k)}
  {
  }

  lemma {:induction false} DeadCount(enabled: set<(nat, nat)>, m: nat, k: nat)
    ensures |DeadOf(enabled, m, k)| + |LivePorts(enabled, m, k)| == k
  {
    if k > 0 {
      DeadCount(enabled, m, k - 1);
      DeadOneMore(enabled, m, k - 1);
    } else {
      assert DeadOf(enabled, m, k) == {};
    }
  }

  lemma DisjointSizes(a: set<(nat, nat)>, b: set<(nat, nat)>)
    requires a !! b
    ensures |a + b| == |a| + |b|
  {
  }

  lemma DeadNext(muxes: seq<Mux>, enabled: set<(nat, nat)>, n: nat)
    requires n < |muxes|
    ensures var before, here := DeadPorts(muxes, enabled, n), DeadOf(enabled, n, |muxes[n].data|);
            before !! here && DeadPorts(muxes, enabled, n + 1) == before + here
  {
    var before, here := DeadPorts(muxes, enabled, n), DeadOf(enabled, n, |muxes[n].data|);
    forall e | e in DeadPorts(muxes, enabled, n + 1)
      ensures e in before + here
    {
      assert e.0 == n || e in before;
    }
  }

  lemma DeadSize(muxes: seq<Mux>, enabled: set<(nat, nat)>, n: nat)
    requires n < |muxes|
    ensures |DeadPorts(muxes, enabled, n + 1)|
         == |DeadPorts(muxes, enabled, n)| + (|muxes[n].data| - |LivePorts(enabled, n, |muxes[n].data|)|)
  {
    DeadNext(muxes, enabled, n);
    DisjointSizes(DeadPorts(muxes, enabled, n), DeadOf(enabled, n, |muxes[n].data|));
    DeadCount(enabled, n, |muxes[n].data|);
  }

  /** `f` grows by the ports of cell `k` that are not live. */
  ghost predicate GrowsAt(muxes: seq<Mux>, st: State, f: nat -> nat, k: nat)
    requires k < |muxes|
  {
    f(k + 1) == f(k) + (|muxes[k].data| - |Live(muxes, st, k)|)
  }

  /** A sum that starts and grows like the count is the count. */
  lemma {:induction false} DeletedIs(muxes: seq<Mux>, st: State, f: nat -> nat, n: nat)
    requires n <= |muxes| && f(0) == 0 && forall k: nat :: k < |muxes| ==> GrowsAt(muxes, st, f, k)
    ensures Deleted(muxes, st, n) == f(n)
  {
    if n > 0 {
      DeletedIs(muxes, st, f, n - 1);
      assert GrowsAt(muxes, st, f, n - 1);
    }
  }

  lemma DeletedCount(muxes: seq<Mux>, st: State, n: nat)
    requires n <= |muxes|
    ensures Deleted(muxes, st, n) == |DeadPorts(muxes, st.enabled, n)|
  {
    var f: nat -> nat := (k: nat) => if k <= |muxes| then |DeadPorts(muxes, st.enabled, k)| else 0;
    assert DeadPorts(muxes, st.enabled, 0) == {};
    forall k: nat | k < |muxes|
      ensures GrowsAt(muxes, st, f, k)
    {
      DeadSize(muxes, st.enabled, k);
    }
    DeletedIs(muxes, st, f, n);
  }

  /** A run that completes removes exactly the ports that were not enabled, and counts them. */
  lemma RemovedExact(net: Netlist, budget: nat)
    requires WfMuxes(net)
    ensures var st := FinalState(Build(net), budget);
            Removed(net, budget) == if st.budget == 0 then 0 else |DeadPorts(net.muxes, st.enabled, |net.muxes|)|
  {
    DeletedCount(net.muxes, FinalState(Build(net), budget), |net.muxes|);
  }

  // ---------------------------------------------------------------------------------------------
  // What is left of a cell

  /** How many ports of cell `m` are enabled. */
  function Alive(net: Netlist, st: State, m: nat): nat
    requires m < |net.muxes|
  {
    |EnabledPorts(st.enabled, m, |net.muxes[m].data|)|
  }

  /** Port `p` of cell `m` is in `y` behind the ports enabled before it, with its control unless it is
      the last. */
  ghost predicate PortKept(x: Mux, st: State, m: nat, p: nat, y: Mux)
    requires m < |st.data| && p < |st.data[m]|
  {
    var j := |EnabledPorts(st.enabled, m, p)|;
    && j < |y.data| && y.data[j] == st.data[m][p]
    && (j < |y.ctrl| ==> p < |x.ctrl| && y.ctrl[j] == x.ctrl[p])
  }

  /** `y` has the enabled ports of cell `m`, no others, in the order they had. */
  ghost predicate Keeps(net: Netlist, st: State, m: nat, y: Mux)
    requires m < |net.muxes| && Shaped(net.muxes, st)
  {
    && |y.data| == Alive(net, st, m) && |y.ctrl| + 1 == |y.data| && y.out == net.muxes[m].out
    && forall p: nat :: p < |st.data[m]| && (m, p) in st.enabled ==> PortKept(net.muxes[m], st, m, p, y)
  }

  lemma CellExact(net: Netlist, st: State, m: nat)
    requires WfMuxes(net) && Shaped(net.muxes, st) && m < |net.muxes|
    ensures var cell := Cells(net.muxes, st, m);
            if Alive(net, st, m) >= 2 then |cell| == 1 && Keeps(net, st, m, cell[0]) else cell == []
  {
    var n := |net.muxes[m].data|;
    LiveCount(st.enabled, m, n);
    if Alive(net, st, m) >= 2 {
      var y := Cells(net.muxes, st, m)[0];
      forall p: nat | p < n && (m, p) in st.enabled
        ensures PortKept(net.muxes[m], st, m, p, y)
      {
        LiveAt(st.enabled, m, n, p);
        LivePortsAscend(st.enabled, m, n);
      }
    }
  }

  /** Every cell with two enabled ports or more is kept with these; any other is gone. */
  lemma CellsExact(net: Netlist, st: State, m: nat)
    requires WfMuxes(net) && Shaped(net.muxes, st) && m < |net.muxes| && Alive(net, st, m) >= 2
    ensures exists k :: 0 <= k < |Trimmed(net, st).muxes| && Keeps(net, st, m, Trimmed(net, st).muxes[k])
  {
    LiveCount(st.enabled, m, |net.muxes[m].data|);
    CellExact(net, st, m);
    CellKept(net, st, m);
  }

  lemma CellsFrom(net: Netlist, st: State, k: nat)
    requires WfMuxes(net) && Shaped(net.muxes, st) && k < |Trimmed(net, st).muxes|
    ensures exists m: nat :: m < |net.muxes| && Alive(net, st, m) >= 2 && Keeps(net, st, m, Trimmed(net, st).muxes[k])
  {
    var from := CellOrigins(net, st);
    assert Cells(net.muxes, st, from[k]) == [Trimmed(net, st).muxes[k]];
    CellExact(net, st, from[k]);
  }

  /** The cells with two enabled ports or more, among the first `n`. */
  function Wide(net: Netlist, st: State, n: nat): set<nat>
    requires n <= |net.muxes|
  {
    set m: nat | m < n && Alive(net, st, m) >= 2
  }

  lemma WideNext(net: Netlist, st: State, n: nat)
    requires n < |net.muxes|
    ensures |Wide(net, st, n + 1)| == |Wide(net, st, n)| + (if Alive(net, st, n) >= 2 then 1 else 0)
  {
    var before := Wide(net, st, n);
    assert Wide(net, st, n + 1) == if Alive(net, st, n) >= 2 then before + {n} else before;
  }

  lemma {:induction false} WideCount(net: Netlist, st: State, n: nat)
    requires WfMuxes(net) && Shaped(net.muxes, st) && n <= |net.muxes|
    ensures |Flat(AllCells(net.muxes, st)[..n])| == |Wide(net, st, n)|
  {
    if n > 0 {
      WideCount(net, st, n - 1);
      FlatNext(AllCells(net.muxes, st), n - 1);
      CellExact(net, st, n - 1);
      WideNext(net, st, n - 1);
    } else {
      assert Wide(net, st, n) == {};
    }
  }

  /** Output bit `i` of cell `m` is connected to the data of its only enabled port. */
  ghost predicate Through(net: Netlist, st: State, m: nat, i: nat, c: (nat, Bit))
    requires Shaped(net.muxes, st)
  {
    && m < |net.muxes| && i < |net.muxes[m].out| && Alive(net, st, m) == 1
    && exists p: nat :: p < |st.data[m]| && (m, p) in st.enabled && i < |st.data[m][p]|
         && c == (net.muxes[m].out[i], st.data[m][p][i])
  }

  lemma OnlyPort(net: Netlist, st: State, m: nat) returns (p: nat)
    requires WfMuxes(net) && Shaped(net.muxes, st) && m < |net.muxes| && Alive(net, st, m) == 1
    ensures p < |net.muxes[m].data| && (m, p) in st.enabled && Live(net.muxes, st, m) == [p]
    ensures forall q: nat :: q < |net.muxes[m].data| && (m, q) in st.enabled ==> q == p
  {
    var n := |net.muxes[m].data|;
    LiveCount(st.enabled, m, n);
    p := Live(net.muxes, st, m)[0];
    LiveIsEnabled(st.enabled, m, n, 0);
    forall q: nat | q < n && (m, q) in st.enabled
      ensures q == p
    {
      LiveAt(st.enabled, m, n, q);
    }
  }

  lemma ConnsExact(net: Netlist, st: State, m: nat, i: nat, p: nat)
    requires WfMuxes(net) && Shaped(net.muxes, st) && m < |net.muxes| && i < |net.muxes[m].out|
    requires Alive(net, st, m) == 1 && p < |net.muxes[m].data| && (m, p) in st.enabled
    ensures (net.muxes[m].out[i], st.data[m][p][i]) in Trimmed(net, st).conns
  {
    var q := OnlyPort(net, st, m);
    ConnKept(net, st, m, i);
  }

  lemma ConnsFrom(net: Netlist, st: State, k: nat)
    requires WfMuxes(net) && net.conns == [] && Shaped(net.muxes, st) && k < |Trimmed(net, st).conns|
    ensures exists m: nat, i: nat :: Through(net, st, m, i, Trimmed(net, st).conns[k])
  {
    var from := ConnOrigins(net, st);
    var (m, i) := from[k];
    LiveCount(st.enabled, m, |net.muxes[m].data|);
    var p := OnlyPort(net, st, m);
    assert Through(net, st, m, i, Trimmed(net, st).conns[k]);
  }

  /** A cell without enabled ports drives nothing any more. */
  lemma NothingLeft(net: Netlist, st: State, m: nat, i: nat)
    requires WellFormed(net) && Shaped(net.muxes, st) && m < |net.muxes| && i < |net.muxes[m].out|
    requires Alive(net, st, m) == 0
    ensures !Driven(Trimmed(net, st), net.muxes[m].out[i])
  {
    var r, w := Trimmed(net, st), net.muxes[m].out[i];
    if MuxDriven(r.muxes, w) {
      var k, j :| 0 <= k < |r.muxes| && 0 <= j < |r.muxes[k].out| && r.muxes[k].out[j] == w;
      CellsFrom(net, st, k);
    }
    if exists k :: 0 <= k < |r.conns| && r.conns[k].0 == w {
      var k :| 0 <= k < |r.conns| && r.conns[k].0 == w;
      ConnsFrom(net, st, k);
    }
  }

  /** What is left of cell `m`: a cell with its enabled ports, a connection from its only one, nothing. */
  ghost predicate CellLeft(net: Netlist, st: State, r: Netlist, m: nat)
    requires Shaped(net.muxes, st) && m < |net.muxes|
  {
    && (Alive(net, st, m) >= 2 ==> exists k :: 0 <= k < |r.muxes| && Keeps(net, st, m, r.muxes[k]))
    && (forall i: nat, p: nat :: Alive(net, st, m) == 1 && i < |net.muxes[m].out| && p < |st.data[m]|
          && (m, p) in st.enabled && i < |st.data[m][p]|
          ==> (net.muxes[m].out[i], st.data[m][p][i]) in r.conns)
    && (forall i: nat :: Alive(net, st, m) == 0 && i < |net.muxes[m].out| ==> !Driven(r, net.muxes[m].out[i]))
  }

  /** The cell `y` of the result is what is left of some cell. */
  ghost predicate Comes(net: Netlist, st: State, y: Mux)
    requires Shaped(net.muxes, st)
  {
    exists m: nat :: m < |net.muxes| && Alive(net, st, m) >= 2 && Keeps(net, st, m, y)
  }

  ghost predicate Connects(net: Netlist, st: State, c: (nat, Bit))
    requires Shaped(net.muxes, st)
  {
    exists m: nat, i: nat :: Through(net, st, m, i, c)
  }

  /** `r` is what the enabled ports leave of the module, and nothing else. */
  ghost predicate Leaves(net: Netlist, st: State, r: Netlist)
    requires Shaped(net.muxes, st)
  {
    && (forall m: nat :: m < |net.muxes| ==> CellLeft(net, st, r, m))
    && |r.muxes| == |Wide(net, st, |net.muxes|)| && (forall k: nat :: k < |r.muxes| ==> Comes(net, st, r.muxes[k]))
    && (forall k: nat :: k < |r.conns| ==> Connects(net, st, r.conns[k]))
    && r.taps == net.taps
  }

  lemma CellLeaves(net: Netlist, st: State, m: nat)
    requires WellFormed(net) && Shaped(net.muxes, st) && m < |net.muxes|
    ensures CellLeft(net, st, Trimmed(net, st), m)
  {
    if Alive(net, st, m) >= 2 {
      CellsExact(net, st, m);
    }
    forall i: nat, p: nat | Alive(net, st, m) == 1 && i < |net.muxes[m].out| && p < |st.data[m]| && (m, p) in st.enabled
      ensures (net.muxes[m].out[i], st.data[m][p][i]) in Trimmed(net, st).conns
    {
      ConnsExact(net, st, m, i, p);
    }
    forall i: nat | Alive(net, st, m) == 0 && i < |net.muxes[m].out|
      ensures !Driven(Trimmed(net, st), net.muxes[m].out[i])
    {
      NothingLeft(net, st, m, i);
    }
  }

  lemma TrimLeaves(net: Netlist, st: State)
    requires WellFormed(net) && Shaped(net.muxes, st)
    ensures Leaves(net, st, Trimmed(net, st))
  {
    var r := Trimmed(net, st);
    forall m: nat | m < |net.muxes|
      ensures CellLeft(net, st, r, m)
    {
      CellLeaves(net, st, m);
    }
    forall k: nat | k < |r.muxes|
      ensures Comes(net, st, r.muxes[k])
    {
      CellsFrom(net, st, k);
    }
    forall k: nat | k < |r.conns|
      ensures Connects(net, st, r.conns[k])
    {
      ConnsFrom(net, st, k);
    }
    WideCount(net, st, |net.muxes|);
    FlatWhole(AllCells(net.muxes, st));
  }

  /** Each cell left has exactly the enabled ports of a cell, which had two or more; a cell with one is a
      connection from that port, and a cell with none is gone. */
  lemma RunLeaves(net: Netlist, budget: nat)
    requires WellFormed(net) && FinalState(Build(net), budget).budget > 0
    ensures Leaves(net, FinalState(Build(net), budget), RunResult(net, budget))
  {
    TrimLeaves(net, FinalState(Build(net), budget));
  }

  // ---------------------------------------------------------------------------------------------
  // Giving up

  /** Every evaluation of a root costs something. */
  lemma RootCosts(tab: Tables, st: State, m: nat)
    requires WfTables(tab) && Valid(tab, st) && m < |tab.muxes| && st.budget > 0
    ensures EvalRoot(tab, st, m).budget < st.budget
  {
    var st1 := st.(rerun := st.rerun - {m}, budget := st.budget - 1);
    var st2 := ReplaceKnown(tab, st1, multiset{}, multiset{}, m);
    var r := EvalPorts(tab, st2, multiset{}, multiset{}, {m}, m, PortsToEval(tab.muxes[m], multiset{}, multiset{}), true,
                       m in st.pure, ABORT_DEPTH);
    assert r == EvalRoot(tab, st, m);
  }

  /** A run that spends its budget counts nothing and keeps every cell with all its ports. */
  lemma GivenUpKeeps(net: Netlist, budget: nat)
    requires WfMuxes(net) && FinalState(Build(net), budget).budget == 0
    ensures var r, st := RunResult(net, budget), FinalState(Build(net), budget);
            && Removed(net, budget) == 0 && r.conns == net.conns && r.taps == net.taps && |r.muxes| == |net.muxes|
            && forall m: nat :: m < |net.muxes| ==> r.muxes[m] == Mux(st.data[m], net.muxes[m].ctrl, net.muxes[m].out)
  {
  }
}
