/** Why a multiplexer that is not a root must feed one port only. One that feeds two ports of a cell is
    evaluated for both, but its data is substituted once: a control of the cell that the data reads becomes
    a constant, which is wrong for one of the two ports. */
module MuxTreeShared {
  import opened MuxNetlist
  import opened MuxTree
  import opened MuxTreeProofs
  import opened MuxTreePass
  import opened MuxTreeLoop

  // ---------------------------------------------------------------------------------------------
  // What substitution leaves alone

  ghost predicate IsControl(tab: Tables, w: nat) {
    exists m :: 0 <= m < |tab.muxes| && Wire(w) in tab.muxes[m].ctrl
  }

  ghost predicate FromControls(tab: Tables, known: multiset<nat>) {
    forall w :: w in known ==> IsControl(tab, w)
  }

  /** Wires that are no controls stay, and equal bits stay equal. */
  ghost predicate BitsFramed(tab: Tables, before: seq<Bit>, after: seq<Bit>) {
    && |before| == |after|
    && (forall i :: 0 <= i < |before| && before[i].Wire? && !IsControl(tab, before[i].id) ==> after[i] == before[i])
    && (forall i, j :: 0 <= i < |before| && 0 <= j < |before| && before[i] == before[j] ==> after[i] == after[j])
  }

  ghost predicate CellFramed(tab: Tables, before: seq<seq<Bit>>, after: seq<seq<Bit>>) {
    |before| == |after| && forall p :: 0 <= p < |before| ==> BitsFramed(tab, before[p], after[p])
  }

  ghost predicate Framed(tab: Tables, before: seq<seq<seq<Bit>>>, after: seq<seq<seq<Bit>>>) {
    |before| == |after| && forall m :: 0 <= m < |before| ==> CellFramed(tab, before[m], after[m])
  }

  lemma BitsFramedTrans(tab: Tables, a: seq<Bit>, b: seq<Bit>, c: seq<Bit>)
    requires BitsFramed(tab, a, b) && BitsFramed(tab, b, c)
    ensures BitsFramed(tab, a, c)
  {
  }

  lemma FramedTrans(tab: Tables, a: seq<seq<seq<Bit>>>, b: seq<seq<seq<Bit>>>, c: seq<seq<seq<Bit>>>)
    requires Framed(tab, a, b) && Framed(tab, b, c)
    ensures Framed(tab, a, c)
  {
    forall m | 0 <= m < |a|
      ensures CellFramed(tab, a[m], c[m])
    {
      assert CellFramed(tab, a[m], b[m]) && CellFramed(tab, b[m], c[m]);
      forall p | 0 <= p < |a[m]|
        ensures BitsFramed(tab, a[m][p], c[m][p])
      {
        BitsFramedTrans(tab, a[m][p], b[m][p], c[m][p]);
      }
    }
  }

  lemma KeyIsControl(tab: Tables, m: nat, w: nat)
    requires m < |tab.muxes| && w in Keys(tab.muxes[m].ctrl)
    ensures IsControl(tab, w)
  {
    var s :| 0 <= s < |tab.muxes[m].ctrl| && Key(tab.muxes[m].ctrl[s]) == w;
    assert tab.muxes[m].ctrl[s] == Wire(w);
  }

  lemma PortFramed(tab: Tables, m: nat, inactive: multiset<nat>, active: multiset<nat>, p: nat, bits: seq<Bit>)
    requires m < |tab.muxes| && FromControls(tab, inactive) && FromControls(tab, active)
    ensures BitsFramed(tab, bits, ReplacePort(tab.muxes[m].ctrl, inactive, active, p, bits))
  {
    forall i | 0 <= i < |bits| && bits[i].Wire? && !IsControl(tab, bits[i].id)
      ensures ReplaceBit(tab.muxes[m].ctrl, inactive, active, p, bits[i]) == bits[i]
    {
      if bits[i].id in Keys(tab.muxes[m].ctrl) {
        KeyIsControl(tab, m, bits[i].id);
      }
    }
  }

  lemma FrameReplace(tab: Tables, st: State, inactive: multiset<nat>, active: multiset<nat>, m: nat)
    requires WfTables(tab) && Valid(tab, st) && m < |tab.muxes|
    requires FromControls(tab, inactive) && FromControls(tab, active)
    ensures Framed(tab, st.data, ReplaceKnown(tab, st, inactive, active, m).data)
  {
    var r := ReplaceKnown(tab, st, inactive, active, m);
    forall n | 0 <= n < |st.data|
      ensures CellFramed(tab, st.data[n], r.data[n])
    {
      if n == m {
        forall p | 0 <= p < |st.data[m]|
          ensures BitsFramed(tab, st.data[m][p], r.data[m][p])
        {
          PortFramed(tab, m, inactive, active, p, st.data[m][p]);
        }
      }
    }
  }

  lemma KnownFromControls(tab: Tables, m: nat, p: nat, inactive: multiset<nat>, active: multiset<nat>)
    requires WfTables(tab) && m < |tab.muxes| && p < |tab.muxes[m].data|
    requires FromControls(tab, inactive) && FromControls(tab, active)
    ensures FromControls(tab, inactive + OtherControls(tab.muxes[m], p, |tab.muxes[m].data|))
    ensures FromControls(tab, active + OwnControl(tab.muxes[m], p))
  {
    var x := tab.muxes[m];
    forall w | w in OtherControls(x, p, |x.data|)
      ensures IsControl(tab, w)
    {
      var s := OtherControlIs(x, p, |x.data|, w);
      assert Wire(w) in x.ctrl;
    }
  }

  lemma {:induction false} FrameMux(tab: Tables, st: State, inactive: multiset<nat>, active: multiset<nat>,
                                    visited: set<nat>, m: nat, replace: bool, enable: bool, abort: nat)
    requires WfTables(tab) && Valid(tab, st) && m < |tab.muxes|
    requires FromControls(tab, inactive) && FromControls(tab, active)
    ensures Framed(tab, st.data, EvalMux(tab, st, inactive, active, visited, m, replace, enable, abort).data)
    decreases Unvisited(tab, visited), 3, 0
  {
    if st.budget > 0 {
      var st1 := st.(budget := st.budget - 1);
      FrameReplace(tab, st1, inactive, active, m);
      var st2 := if replace then ReplaceKnown(tab, st1, inactive, active, m) else st1;
      var ports := PortsToEval(tab.muxes[m], inactive, active);
      FramePorts(tab, st2, inactive, active, visited, m, ports, replace, enable, abort);
      FramedTrans(tab, st.data, st2.data, EvalPorts(tab, st2, inactive, active, visited, m, ports, replace, enable, abort).data);
    }
  }

  lemma {:induction false} FramePorts(tab: Tables, st: State, inactive: multiset<nat>, active: multiset<nat>,
                                      visited: set<nat>, m: nat, ports: seq<nat>, replace: bool, enable: bool, abort: nat)
    requires WfTables(tab) && Valid(tab, st) && m < |tab.muxes| && AllBelow(ports, |tab.muxes[m].data|)
    requires FromControls(tab, inactive) && FromControls(tab, active)
    ensures Framed(tab, st.data, EvalPorts(tab, st, inactive, active, visited, m, ports, replace, enable, abort).data)
    decreases Unvisited(tab, visited), 2, |ports|
  {
    if ports != [] {
      var st1 := EvalPort(tab, st, inactive, active, visited, m, ports[0], replace, enable, abort);
      FramePort(tab, st, inactive, active, visited, m, ports[0], replace, enable, abort);
      FramePorts(tab, st1, inactive, active, visited, m, ports[1..], replace, enable, abort);
      FramedTrans(tab, st.data, st1.data,
                  EvalPorts(tab, st1, inactive, active, visited, m, ports[1..], replace, enable, abort).data);
    }
  }

  lemma {:induction false} FramePort(tab: Tables, st: State, inactive: multiset<nat>, active: multiset<nat>,
                                     visited: set<nat>, m: nat, p: nat, replace: bool, enable: bool, abort: nat)
    requires WfTables(tab) && Valid(tab, st) && m < |tab.muxes| && p < |tab.muxes[m].data|
    requires FromControls(tab, inactive) && FromControls(tab, active)
    ensures Framed(tab, st.data, EvalPort(tab, st, inactive, active, visited, m, p, replace, enable, abort).data)
    decreases Unvisited(tab, visited), 1, 0
  {
    if st.budget > 0 {
      var x := tab.muxes[m];
      var ks := NotVisited(tab.inputs[m][p], visited);
      var st1 := if enable then st.(enabled := st.enabled + {(m, p)}) else st;
      if ks != [] {
        UnvisitedShrinks(tab, visited, tab.inputs[m][p]);
        KnownFromControls(tab, m, p, inactive, active);
        FrameParents(tab, st1, inactive + OtherControls(x, p, |x.data|), active + OwnControl(x, p),
                     visited + Members(ks), ks, replace, enable, abort);
      }
    }
  }

  lemma {:induction false} FrameParents(tab: Tables, st: State, inactive: multiset<nat>, active: multiset<nat>,
                                        visited: set<nat>, ks: seq<nat>, replace: bool, enable: bool, abort: nat)
    requires WfTables(tab) && Valid(tab, st) && AllBelow(ks, |tab.muxes|)
    requires FromControls(tab, inactive) && FromControls(tab, active)
    ensures Framed(tab, st.data, EvalParents(tab, st, inactive, active, visited, ks, replace, enable, abort).data)
    decreases Unvisited(tab, visited), 4, |ks|
  {
    if ks != [] && st.budget > 0 {
      var st1 := EvalParent(tab, st, inactive, active, visited, ks[0], replace, enable, abort);
      FrameParent(tab, st, inactive, active, visited, ks[0], replace, enable, abort);
      FrameParents(tab, st1, inactive, active, visited, ks[1..], replace, enable, abort);
      FramedTrans(tab, st.data, st1.data,
                  EvalParents(tab, st1, inactive, active, visited, ks[1..], replace, enable, abort).data);
    }
  }

  lemma {:induction false} FrameParent(tab: Tables, st: State, inactive: multiset<nat>, active: multiset<nat>,
                                       visited: set<nat>, k: nat, replace: bool, enable: bool, abort: nat)
    requires WfTables(tab) && Valid(tab, st) && k < |tab.muxes|
    requires FromControls(tab, inactive) && FromControls(tab, active)
    ensures Framed(tab, st.data, EvalParent(tab, st, inactive, active, visited, k, replace, enable, abort).data)
    decreases Unvisited(tab, visited), 4, 0
  {
    if k !in st.pure && !(k in tab.roots && abort == 0) {
      if k in tab.roots {
        FrameMux(tab, st, inactive, active, visited, k, false, enable, abort - 1);
      } else {
        FrameMux(tab, st, inactive, active, visited, k, replace, enable, abort);
      }
    }
  }

  lemma FrameRoot(tab: Tables, st: State, m: nat)
    requires WfTables(tab) && Valid(tab, st) && m < |tab.muxes|
    ensures Framed(tab, st.data, EvalRoot(tab, st, m).data)
  {
    FrameMux(tab, st.(rerun := st.rerun - {m}), multiset{}, multiset{}, {m}, m, true, m in st.pure, ABORT_DEPTH);
  }

  lemma {:induction false} FrameRootsFrom(tab: Tables, st: State, m: nat)
    requires WfTables(tab) && Valid(tab, st) && m <= |tab.muxes|
    ensures Framed(tab, st.data, EvalRootsFrom(tab, st, m).data)
    decreases |tab.muxes| - m
  {
    if m < |tab.muxes| {
      if m !in tab.roots {
        FrameRootsFrom(tab, st, m + 1);
      } else {
        var st1 := EvalRoot(tab, st, m);
        FrameRoot(tab, st, m);
        if st1.budget > 0 {
          FrameRootsFrom(tab, st1, m + 1);
          FramedTrans(tab, st.data, st1.data, EvalRootsFrom(tab, st1, m + 1).data);
        }
      }
    }
  }

  lemma {:induction false} FrameRerun(tab: Tables, st: State)
    requires WfTables(tab) && Valid(tab, st)
    ensures Framed(tab, st.data, Rerun(tab, st).data)
    decreases Impure(tab, st), st.rerun
  {
    if st.rerun != {} && st.budget > 0 {
      var m := Least(st.rerun);
      var st1 := EvalRoot(tab, st, m);
      FrameRoot(tab, st, m);
      if st1.budget > 0 {
        RerunShrinks(tab, st);
        FrameRerun(tab, st1);
        FramedTrans(tab, st.data, st1.data, Rerun(tab, st1).data);
      }
    }
  }

  lemma FrameFinal(tab: Tables, budget: nat)
    requires WfTables(tab)
    ensures Framed(tab, InitialState(tab, budget).data, FinalState(tab, budget).data)
  {
    var st0 := InitialState(tab, budget);
    FrameRootsFrom(tab, st0, 0);
    var st1 := EvalRootsFrom(tab, st0, 0);
    if st1.budget > 0 {
      FrameRerun(tab, st1);
      FramedTrans(tab, st0.data, st1.data, Rerun(tab, st1).data);
    }
  }

  // ---------------------------------------------------------------------------------------------
  // What substitution does to a control read below

  /** A data bit: bit `i` of port `p` of cell `m`. */
  datatype Place = Place(m: nat, p: nat, i: nat)

  predicate HasPlace(st: State, b: Place) {
    b.m < |st.data| && b.p < |st.data[b.m]| && b.i < |st.data[b.m][b.p]|
  }

  function BitAt(st: State, b: Place): Bit
    requires HasPlace(st, b)
  {
    st.data[b.m][b.p][b.i]
  }

  predicate Fixed(st: State, b: Place) {
    HasPlace(st, b) && (BitAt(st, b) == Zero || BitAt(st, b) == One)
  }

  /** The bit is wire `c`, or has been replaced. */
  predicate Open(st: State, b: Place, c: nat) {
    HasPlace(st, b) && (BitAt(st, b) == Wire(c) || Fixed(st, b))
  }

  lemma PlaceKept(tab: Tables, st: State, r: State, b: Place, c: nat)
    requires Shaped(tab.muxes, st) && Shaped(tab.muxes, r) && Constants(st.data, r.data)
    ensures Open(st, b, c) ==> Open(r, b, c)
    ensures Fixed(st, b) ==> Fixed(r, b)
  {
    if HasPlace(st, b) {
      assert SameShape(st.data[b.m], tab.muxes[b.m].data) && SameShape(r.data[b.m], tab.muxes[b.m].data);
      assert r.data[b.m][b.p][b.i] == st.data[b.m][b.p][b.i]
          || r.data[b.m][b.p][b.i] == Zero || r.data[b.m][b.p][b.i] == One;
    }
  }

  /** Evaluating the cell fixes a bit of its data whose value is known. */
  lemma FixMux(tab: Tables, st: State, inactive: multiset<nat>, active: multiset<nat>, visited: set<nat>,
               enable: bool, abort: nat, b: Place, c: nat)
    requires WfTables(tab) && Valid(tab, st) && b.m < |tab.muxes| && st.budget > 0
    requires Open(st, b, c) && (c in inactive || c in active)
    ensures Fixed(EvalMux(tab, st, inactive, active, visited, b.m, true, enable, abort), b)
  {
    var st1 := st.(budget := st.budget - 1);
    var st2 := ReplaceKnown(tab, st1, inactive, active, b.m);
    assert Fixed(st2, b);
    var r := EvalPorts(tab, st2, inactive, active, visited, b.m, PortsToEval(tab.muxes[b.m], inactive, active),
                       true, enable, abort);
    PlaceKept(tab, st2, r, b, c);
  }

  lemma {:induction false} FixParents(tab: Tables, st: State, inactive: multiset<nat>, active: multiset<nat>,
                                      visited: set<nat>, ks: seq<nat>, enable: bool, abort: nat, b: Place, c: nat)
    requires WfTables(tab) && Valid(tab, st) && AllBelow(ks, |tab.muxes|) && b.m in ks && b.m !in tab.roots
    requires Open(st, b, c) && (c in inactive || c in active)
    requires EvalParents(tab, st, inactive, active, visited, ks, true, enable, abort).budget > 0
    ensures Fixed(EvalParents(tab, st, inactive, active, visited, ks, true, enable, abort), b)
    decreases |ks|
  {
    var st1 := EvalParent(tab, st, inactive, active, visited, ks[0], true, enable, abort);
    var r := EvalParents(tab, st1, inactive, active, visited, ks[1..], true, enable, abort);
    assert r == EvalParents(tab, st, inactive, active, visited, ks, true, enable, abort);
    if ks[0] == b.m {
      FixMux(tab, st, inactive, active, visited, enable, abort, b, c);
      PlaceKept(tab, st1, r, b, c);
    } else {
      PlaceKept(tab, st, st1, b, c);
      FixParents(tab, st1, inactive, active, visited, ks[1..], enable, abort, b, c);
    }
  }

  /** Port `p` of cell `m` is fed by the cell of `b`, and following it tells the value of `c`. */
  ghost predicate Tells(tab: Tables, m: nat, p: nat, b: Place, c: nat)
    requires WfTables(tab)
  {
    && m < |tab.muxes| && p < |tab.muxes[m].data| && b.m < |tab.muxes| && b.m in tab.inputs[m][p]
    && (c in OtherControls(tab.muxes[m], p, |tab.muxes[m].data|) || c in OwnControl(tab.muxes[m], p))
  }

  lemma FixPort(tab: Tables, st: State, m: nat, p: nat, visited: set<nat>, enable: bool, abort: nat, b: Place, c: nat)
    requires WfTables(tab) && Valid(tab, st) && Tells(tab, m, p, b, c) && b.m !in tab.roots && b.m !in visited
    requires Open(st, b, c)
    requires EvalPort(tab, st, multiset{}, multiset{}, visited, m, p, true, enable, abort).budget > 0
    ensures Fixed(EvalPort(tab, st, multiset{}, multiset{}, visited, m, p, true, enable, abort), b)
  {
    var x := tab.muxes[m];
    var ks := NotVisited(tab.inputs[m][p], visited);
    var st1 := if enable then st.(enabled := st.enabled + {(m, p)}) else st;
    assert b.m in ks;
    UnvisitedShrinks(tab, visited, tab.inputs[m][p]);
    FixParents(tab, st1, multiset{} + OtherControls(x, p, |x.data|), multiset{} + OwnControl(x, p),
               visited + Members(ks), ks, enable, abort, b, c);
  }

  lemma {:induction false} FixPorts(tab: Tables, st: State, m: nat, p: nat, visited: set<nat>, ports: seq<nat>,
                                    enable: bool, abort: nat, b: Place, c: nat)
    requires WfTables(tab) && Valid(tab, st) && Tells(tab, m, p, b, c) && b.m !in tab.roots && b.m !in visited
    requires AllBelow(ports, |tab.muxes[m].data|) && p in ports && Open(st, b, c)
    requires EvalPorts(tab, st, multiset{}, multiset{}, visited, m, ports, true, enable, abort).budget > 0
    ensures Fixed(EvalPorts(tab, st, multiset{}, multiset{}, visited, m, ports, true, enable, abort), b)
    decreases |ports|
  {
    var st1 := EvalPort(tab, st, multiset{}, multiset{}, visited, m, ports[0], true, enable, abort);
    var r := EvalPorts(tab, st1, multiset{}, multiset{}, visited, m, ports[1..], true, enable, abort);
    assert r == EvalPorts(tab, st, multiset{}, multiset{}, visited, m, ports, true, enable, abort);
    if ports[0] == p {
      FixPort(tab, st, m, p, visited, enable, abort, b, c);
      PlaceKept(tab, st1, r, b, c);
    } else {
      PlaceKept(tab, st, st1, b, c);
      FixPorts(tab, st1, m, p, visited, ports[1..], enable, abort, b, c);
    }
  }

  lemma FixRoot(tab: Tables, st: State, m: nat, p: nat, b: Place, c: nat)
    requires WfTables(tab) && Valid(tab, st) && Tells(tab, m, p, b, c) && b.m !in tab.roots && m in tab.roots
    requires p in PortsToEval(tab.muxes[m], multiset{}, multiset{}) && Open(st, b, c)
    requires st.budget > 0 && EvalRoot(tab, st, m).budget > 0
    ensures Fixed(EvalRoot(tab, st, m), b)
  {
    var st1 := st.(rerun := st.rerun - {m}, budget := st.budget - 1);
    var st2 := ReplaceKnown(tab, st1, multiset{}, multiset{}, m);
    PlaceKept(tab, st, st2, b, c);
    FixPorts(tab, st2, m, p, {m}, PortsToEval(tab.muxes[m], multiset{}, multiset{}), m in st.pure, ABORT_DEPTH, b, c);
  }

  lemma {:induction false} FixRootsFrom(tab: Tables, st: State, n: nat, m: nat, p: nat, b: Place, c: nat)
    requires WfTables(tab) && Valid(tab, st) && Tells(tab, m, p, b, c) && b.m !in tab.roots && m in tab.roots
    requires p in PortsToEval(tab.muxes[m], multiset{}, multiset{}) && Open(st, b, c)
    requires n <= m && st.budget > 0 && EvalRootsFrom(tab, st, n).budget > 0
    ensures Fixed(EvalRootsFrom(tab, st, n), b)
    decreases |tab.muxes| - n
  {
    if n !in tab.roots {
      FixRootsFrom(tab, st, n + 1, m, p, b, c);
    } else {
      var st1 := EvalRoot(tab, st, n);
      PlaceKept(tab, st, st1, b, c);
      assert EvalRootsFrom(tab, st, n) == if st1.budget == 0 then st1 else EvalRootsFrom(tab, st1, n + 1);
      if n == m {
        FixRoot(tab, st, m, p, b, c);
        PlaceKept(tab, st1, EvalRootsFrom(tab, st1, n + 1), b, c);
      } else {
        FixRootsFrom(tab, st1, n + 1, m, p, b, c);
      }
    }
  }

  /** A control that a fed cell reads is a constant when the evaluation completes. */
  lemma FixFinal(tab: Tables, budget: nat, m: nat, p: nat, b: Place, c: nat)
    requires WfTables(tab) && Tells(tab, m, p, b, c) && b.m !in tab.roots && m in tab.roots
    requires p in PortsToEval(tab.muxes[m], multiset{}, multiset{})
    requires Open(InitialState(tab, budget), b, c) && FinalState(tab, budget).budget > 0
    ensures Fixed(FinalState(tab, budget), b)
  {
    var st0 := InitialState(tab, budget);
    FixRootsFrom(tab, st0, 0, m, p, b, c);
    var st1 := EvalRootsFrom(tab, st0, 0);
    PlaceKept(tab, st1, Rerun(tab, st1), b, c);
  }

  // ---------------------------------------------------------------------------------------------
  // A cell that feeds two ports of a root

  /** Bit `j` of cell `k` is read as bit `i` of port `p` of cell `m`, bit `j2` as bit `i2` of port `q`, and
      both bits copy the control of `p` when `k` selects port `d`. The two outputs of `m` are read outside
      and `k` is not a root. */
  datatype Sharing = Sharing(m: nat, p: nat, i: nat, q: nat, i2: nat, k: nat, d: nat, j: nat, j2: nat)

  ghost predicate FreeControls(net: Netlist, m: nat)
    requires m < |net.muxes|
  {
    forall s :: 0 <= s < |net.muxes[m].ctrl| && net.muxes[m].ctrl[s].Wire? ==> !MuxDriven(net.muxes, net.muxes[m].ctrl[s].id)
  }

  /** Bit `i` of port `p` of cell `m` is output bit `j` of cell `k`, and output bit `i` of `m` is read outside. */
  ghost predicate Links(net: Netlist, m: nat, p: nat, i: nat, k: nat, j: nat)
    requires WfMuxes(net)
  {
    && m < |net.muxes| && p < |net.muxes[m].data| && i < |net.muxes[m].out| && SeenByNonMux(net, net.muxes[m].out[i])
    && k < |net.muxes| && j < |net.muxes[k].out| && net.muxes[m].data[p][i] == Wire(net.muxes[k].out[j])
  }

  ghost predicate Copies(net: Netlist, k: nat, d: nat, j: nat, b: Bit)
    requires WfMuxes(net)
  {
    k < |net.muxes| && d < |net.muxes[k].data| && j < |net.muxes[k].out| && net.muxes[k].data[d][j] == b
  }

  ghost predicate Shares(net: Netlist, s: Sharing)
    requires WfMuxes(net)
  {
    && Links(net, s.m, s.p, s.i, s.k, s.j) && Links(net, s.m, s.q, s.i2, s.k, s.j2) && s.p != s.q
    && s.p < |net.muxes[s.m].ctrl| && net.muxes[s.m].ctrl[s.p].Wire?
    && Copies(net, s.k, s.d, s.j, net.muxes[s.m].ctrl[s.p]) && Copies(net, s.k, s.d, s.j2, net.muxes[s.m].ctrl[s.p])
    && !IsRoot(net, s.k)
  }

  ghost predicate Completes(net: Netlist, budget: nat)
    requires WfMuxes(net)
  {
    FinalState(Build(net), budget).budget > 0
  }

  lemma LinkFeeds(net: Netlist, m: nat, p: nat, i: nat, k: nat, j: nat)
    requires WfMuxes(net) && Links(net, m, p, i, k, j)
    ensures k in Build(net).inputs[m][p] && m in Build(net).seen && m in Build(net).roots
  {
    assert Wire(net.muxes[k].out[j]) in net.muxes[m].data[p];
    assert FeedsPort(net, k, m, p);
    assert SeenMux(net, m);
  }

  lemma SeenOutput(net: Netlist, k: nat, j: nat)
    requires k < |net.muxes| && j < |net.muxes[k].out|
    ensures SeenByNonMux(net, net.muxes[k].out[j]) ==> SeenMux(net, k)
  {
  }

  /** Nothing but data ports reads a cell that is not a root. */
  lemma UnseenOutput(net: Netlist, k: nat, j: nat)
    requires k < |net.muxes| && j < |net.muxes[k].out| && !IsRoot(net, k)
    ensures !SeenByNonMux(net, net.muxes[k].out[j])
  {
    SeenOutput(net, k, j);
  }

  /** What feeds a port is still read there after the evaluation. */
  lemma LinkStays(net: Netlist, m: nat, p: nat, i: nat, k: nat, j: nat, budget: nat)
    requires WfMuxes(net) && Links(net, m, p, i, k, j) && !IsRoot(net, k)
    ensures FinalState(Build(net), budget).data[m][p][i] == Wire(net.muxes[k].out[j])
  {
    var tab, w := Build(net), net.muxes[k].out[j];
    UnseenOutput(net, k, j);
    assert IsControl(tab, w) ==> SeenByNonMux(net, w);
    FrameFinal(tab, budget);
    var a, b := InitialState(tab, budget).data, FinalState(tab, budget).data;
    assert CellFramed(tab, a[m], b[m]);
    assert BitsFramed(tab, a[m][p], b[m][p]);
  }

  /** Both copies of the control become the same constant. */
  lemma CopiesFixed(net: Netlist, s: Sharing, budget: nat)
    requires WfMuxes(net) && Shares(net, s) && Completes(net, budget)
    requires s.p in PortsToEval(net.muxes[s.m], multiset{}, multiset{})
    ensures var st := FinalState(Build(net), budget);
            Fixed(st, Place(s.k, s.d, s.j)) && st.data[s.k][s.d][s.j] == st.data[s.k][s.d][s.j2]
  {
    var tab := Build(net);
    var c := net.muxes[s.m].ctrl[s.p].id;
    var b := Place(s.k, s.d, s.j);
    LinkFeeds(net, s.m, s.p, s.i, s.k, s.j);
    assert c in OwnControl(net.muxes[s.m], s.p);
    FixFinal(tab, budget, s.m, s.p, b, c);
    FrameFinal(tab, budget);
    var data, after := InitialState(tab, budget).data, FinalState(tab, budget).data;
    assert CellFramed(tab, data[s.k], after[s.k]);
    assert BitsFramed(tab, data[s.k][s.d], after[s.k][s.d]);
  }

  /** Consistent valuations of a module and of what a run makes of it. */
  ghost predicate OneRun(net: Netlist, budget: nat, env: Env, v: Valuation, u: Valuation)
    requires WfMuxes(net)
  {
    Consistent(net, env, v) && OneHot(v, net.muxes) && Consistent(RunResult(net, budget), env, u)
  }

  /** A run does not change controls that no multiplexer drives. */
  lemma FreeControlsAgree(net: Netlist, budget: nat, env: Env, v: Valuation, u: Valuation, m: nat)
    requires WellFormed(net) && OneRun(net, budget, env, v, u) && m < |net.muxes| && FreeControls(net, m)
    ensures ControlsAgree(v, u, net.muxes[m])
  {
    RunTransformed(net, budget, env, v, u);
    forall s | 0 <= s < |net.muxes[m].ctrl| && net.muxes[m].ctrl[s].Wire?
      ensures u(net.muxes[m].ctrl[s].id) == v(net.muxes[m].ctrl[s].id)
    {
      assert !Driven(net, net.muxes[m].ctrl[s].id);
    }
  }

  /** A control that the run changes is itself a bit read outside the data ports. */
  lemma ControlDiffers(net: Netlist, v: Valuation, u: Valuation, m: nat) returns (w: nat)
    requires m < |net.muxes| && !ControlsAgree(v, u, net.muxes[m])
    ensures SeenByNonMux(net, w) && u(w) != v(w)
  {
    var s :| 0 <= s < |net.muxes[m].ctrl| && Active(v, net.muxes[m].ctrl[s]) != Active(u, net.muxes[m].ctrl[s]);
    w := net.muxes[m].ctrl[s].id;
    assert Wire(w) in net.muxes[m].ctrl;
  }

  /** Both cells of a link are reached when the user selects its port. */
  lemma LinkReached(net: Netlist, budget: nat, v: Valuation, m: nat, p: nat, i: nat, k: nat, j: nat)
    requires WfMuxes(net) && Links(net, m, p, i, k, j) && p == FirstActive(v, net.muxes[m].ctrl)
    ensures var pure := FinalState(Build(net), budget).pure;
            Reached(Build(net), v, pure, m) && Reached(Build(net), v, pure, k)
  {
    var tab := Build(net);
    LinkFeeds(net, m, p, i, k, j);
    assert IsPath(tab, v, [m]) && m in FinalState(tab, budget).pure;
    ReachedStep(tab, v, FinalState(tab, budget).pure, m, k);
  }

  /** Before the run the output of `m` reads the data of `k` ... */
  lemma ReadsBefore(net: Netlist, env: Env, v: Valuation, m: nat, p: nat, i: nat, k: nat, d: nat, j: nat)
    requires WfMuxes(net) && Consistent(net, env, v) && Links(net, m, p, i, k, j)
    requires p == FirstActive(v, net.muxes[m].ctrl) && d == FirstActive(v, net.muxes[k].ctrl)
    ensures v(net.muxes[m].out[i]) == Value(env, v, net.muxes[k].data[d][j])
  {
    assert MuxHolds(env, v, net.muxes[m]) && MuxHolds(env, v, net.muxes[k]);
  }

  /** ... and after it what is left of that. */
  lemma ReadsAfter(net: Netlist, budget: nat, env: Env, v: Valuation, u: Valuation,
                   m: nat, p: nat, i: nat, k: nat, d: nat, j: nat)
    requires WellFormed(net) && OneRun(net, budget, env, v, u) && Links(net, m, p, i, k, j) && !IsRoot(net, k)
    requires ControlsAgree(v, u, net.muxes[m]) && ControlsAgree(v, u, net.muxes[k])
    requires p == FirstActive(v, net.muxes[m].ctrl) && d == FirstActive(v, net.muxes[k].ctrl)
    ensures u(net.muxes[m].out[i]) == Value(env, u, FinalState(Build(net), budget).data[k][d][j])
  {
    LinkStays(net, m, p, i, k, j, budget);
    RunTransformed(net, budget, env, v, u);
    LinkReached(net, budget, v, m, p, i, k, j);
  }

  /** Two assignments, each selecting one of the two ports and the same data of the shared cell. */
  ghost predicate SelectsBoth(net: Netlist, s: Sharing, v1: Valuation, v2: Valuation)
    requires WfMuxes(net) && Shares(net, s)
  {
    && FirstActive(v1, net.muxes[s.m].ctrl) == s.p && FirstActive(v2, net.muxes[s.m].ctrl) == s.q
    && FirstActive(v1, net.muxes[s.k].ctrl) == FirstActive(v2, net.muxes[s.k].ctrl) == s.d
  }

  /** If the run changes no control of the two cells, it changes one of the two outputs: the shared data is
      the control of the first port, and becomes one constant for both. */
  lemma SharedDiffers(net: Netlist, s: Sharing, budget: nat, e1: Env, v1: Valuation, u1: Valuation,
                      e2: Env, v2: Valuation, u2: Valuation)
    requires WellFormed(net) && Shares(net, s) && Completes(net, budget) && SelectsBoth(net, s, v1, v2)
    requires OneRun(net, budget, e1, v1, u1) && OneRun(net, budget, e2, v2, u2)
    requires ControlsAgree(v1, u1, net.muxes[s.m]) && ControlsAgree(v1, u1, net.muxes[s.k])
    requires ControlsAgree(v2, u2, net.muxes[s.m]) && ControlsAgree(v2, u2, net.muxes[s.k])
    ensures u1(net.muxes[s.m].out[s.i]) != v1(net.muxes[s.m].out[s.i])
         || u2(net.muxes[s.m].out[s.i2]) != v2(net.muxes[s.m].out[s.i2])
  {
    assert AtMostOneActive(v1, net.muxes[s.m]) && AtMostOneActive(v2, net.muxes[s.m]);
    SelectedIsEvaluated(v1, net.muxes[s.m], multiset{}, multiset{});
    CopiesFixed(net, s, budget);
    ReadsBefore(net, e1, v1, s.m, s.p, s.i, s.k, s.d, s.j);
    ReadsBefore(net, e2, v2, s.m, s.q, s.i2, s.k, s.d, s.j2);
    ReadsAfter(net, budget, e1, v1, u1, s.m, s.p, s.i, s.k, s.d, s.j);
    ReadsAfter(net, budget, e2, v2, u2, s.m, s.q, s.i2, s.k, s.d, s.j2);
    OnlySelectedActive(v2, net.muxes[s.m], s.p);
  }

  /** A cell that is not a root, feeds two ports of a cell read outside and passes the control of the first
      port on breaks the run: among any two assignments that select the two ports and that data, one shows
      a bit read outside the data ports that the run changes. */
  lemma SharedBreaks(net: Netlist, s: Sharing, budget: nat, e1: Env, v1: Valuation, u1: Valuation,
                     e2: Env, v2: Valuation, u2: Valuation) returns (w: nat)
    requires WellFormed(net) && Shares(net, s) && Completes(net, budget) && SelectsBoth(net, s, v1, v2)
    requires OneRun(net, budget, e1, v1, u1) && OneRun(net, budget, e2, v2, u2)
    ensures SeenByNonMux(net, w) && (u1(w) != v1(w) || u2(w) != v2(w))
  {
    if !ControlsAgree(v1, u1, net.muxes[s.m]) {
      w := ControlDiffers(net, v1, u1, s.m);
    } else if !ControlsAgree(v1, u1, net.muxes[s.k]) {
      w := ControlDiffers(net, v1, u1, s.k);
    } else if !ControlsAgree(v2, u2, net.muxes[s.m]) {
      w := ControlDiffers(net, v2, u2, s.m);
    } else if !ControlsAgree(v2, u2, net.muxes[s.k]) {
      w := ControlDiffers(net, v2, u2, s.k);
    } else {
      SharedDiffers(net, s, budget, e1, v1, u1, e2, v2, u2);
      w := net.muxes[s.m].out[s.i];
      if u1(w) == v1(w) {
        w := net.muxes[s.m].out[s.i2];
      }
    }
  }
}
