/** Where the substitution of known bits stops being right, and what repeated rounds can do. */
module MuxTreeLimits {
  import opened Flatten
  import opened MuxNetlist
  import opened MuxTree
  import opened MuxTreeProofs
  import opened MuxTreePass
  import opened MuxTreeLoop
  import opened MuxTreeShared
  import opened MuxTreeShapes

  // ---------------------------------------------------------------------------------------------
  // The own controls of a cell

  /** A module of one cell whose outputs are read outside. */
  function OneCell(x: Mux): (net: Netlist)
    ensures net.muxes == [x] && net.conns == []
    ensures forall i :: 0 <= i < |x.out| ==> Wire(x.out[i]) in net.taps
  {
    var taps := seq(|x.out|, i requires 0 <= i < |x.out| => Wire(x.out[i]));
    assert forall i :: 0 <= i < |x.out| ==> taps[i] == Wire(x.out[i]);
    Netlist([x], [], taps)
  }

  lemma OneCellControls(x: Mux, rank: nat -> nat)
    requires WfMux(x) && AcyclicMux(rank, x)
    ensures FreeControls(OneCell(x), 0)
  {
    forall s | 0 <= s < |x.ctrl| && x.ctrl[s].Wire?
      ensures !MuxDriven([x], x.ctrl[s].id)
    {
      assert forall i :: 0 <= i < |x.out| ==> Below(rank, x.ctrl[s], rank(x.out[i]));
    }
  }

  lemma OneCellSeen(x: Mux, i: nat)
    requires WfMux(x) && i < |x.out|
    ensures var tab := Build(OneCell(x)); tab.roots == {0} && tab.seen == {0}
    ensures SeenByNonMux(OneCell(x), x.out[i])
  {
    var net := OneCell(x);
    assert SeenByNonMux(net, net.muxes[0].out[i]);
    assert SeenMux(net, 0) && IsRoot(net, 0);
    assert UpTo(1) == {0};
  }

  lemma OneCellBlocked(x: Mux)
    requires WfMux(x)
    ensures Blocked(Build(OneCell(x)), 0, {0})
  {
  }

  /** Every data bit of the cell is substituted with what its own controls say. */
  lemma OneCellData(x: Mux, p: nat, i: nat, budget: nat)
    requires WfMux(x) && p < |x.data| && i < |x.out| && budget > 1
    ensures FinalState(Build(OneCell(x)), budget).data[0][p][i] == ReplaceBit(x.ctrl, multiset{}, multiset{}, p, x.data[p][i])
  {
    var tab := Build(OneCell(x));
    var st0 := InitialState(tab, budget);
    OneCellSeen(x, i);
    OneCellBlocked(x);
    assert st0.(rerun := st0.rerun - {0}) == st0;
    BlockedMux(tab, st0, multiset{}, multiset{}, {0}, 0, true, true, ABORT_DEPTH);
    var st1 := EvalRoot(tab, st0, 0);
    assert st1 == OwnResult(tab, st0, multiset{}, multiset{}, 0, true, true);
    assert EvalRootsFrom(tab, st1, 1) == st1;
    assert EvalRootsFrom(tab, st0, 0) == st1;
    assert Rerun(tab, st1) == st1;
  }

  /** A run of the module turns output bit `i` from the selected data bit into its substitute. */
  lemma OneCellOutput(x: Mux, budget: nat, env: Env, v: Valuation, u: Valuation, i: nat)
    requires WfMux(x) && WellFormed(OneCell(x)) && OneRun(OneCell(x), budget, env, v, u) && FreeControls(OneCell(x), 0)
    requires i < |x.out| && budget > 1
    ensures var p := FirstActive(v, x.ctrl);
            && v(x.out[i]) == Value(env, v, x.data[p][i])
            && u(x.out[i]) == Value(env, u, ReplaceBit(x.ctrl, multiset{}, multiset{}, p, x.data[p][i]))
  {
    var net := OneCell(x);
    var tab := Build(net);
    var st := FinalState(tab, budget);
    var p := FirstActive(v, x.ctrl);
    assert MuxHolds(env, v, net.muxes[0]);
    OneCellSeen(x, i);
    OneCellData(x, p, i, budget);
    RunTransformed(net, budget, env, v, u);
    FreeControlsAgree(net, budget, env, v, u, 0);
    assert IsPath(tab, v, [0]);
    assert Reached(tab, v, st.pure, 0);
  }

  /** The one cell is a root, or has no output to use. */
  lemma OneCellUnused(x: Mux, k: nat, m: nat, p: nat)
    requires WfMux(x)
    ensures !UsesAt(Build(OneCell(x)), k, m, p)
  {
    if x.out != [] {
      OneCellSeen(x, 0);
    }
  }

  lemma OneCellEligible(x: Mux)
    requires WfMux(x) && Aligned(x)
    ensures Eligible(OneCell(x))
  {
    forall k: nat, m: nat, p: nat
      ensures !UsesAt(Build(OneCell(x)), k, m, p)
    {
      OneCellUnused(x, k, m, p);
    }
  }

  /** Data bit `i` of selectable port `p` is a control that is interned under a wrong number. */
  ghost predicate Misaligned(x: Mux, p: nat, i: nat)
    requires WfMux(x)
  {
    && p < |x.ctrl| && i < |x.out| && Selectable(x, p) && x.data[p][i].Wire? && x.data[p][i].id in Keys(x.ctrl)
    && !(IndexOf(Keys(x.ctrl), x.data[p][i].id) == p <==> x.ctrl[p] == x.data[p][i])
  }

  /** With the control of a selectable port on and every other undriven wire off, that port is selected. */
  lemma SelectPort(x: Mux, env: Env, v: Valuation, p: nat)
    requires WfMux(x) && FreeControls(OneCell(x), 0) && Consistent(OneCell(x), env, v)
    requires Selectable(x, p) && forall w :: env.free(w) == (Wire(w) == x.ctrl[p])
    ensures forall s :: 0 <= s < |x.ctrl| ==> (Active(v, x.ctrl[s]) <==> s == p)
    ensures AtMostOneActive(v, x) && FirstActive(v, x.ctrl) == p
  {
    var net := OneCell(x);
    forall s | 0 <= s < |x.ctrl|
      ensures Active(v, x.ctrl[s]) <==> s == p
    {
      if x.ctrl[s].Wire? {
        assert !Driven(net, x.ctrl[s].id);
      }
    }
    FirstIs(v, x.ctrl, p);
  }

  lemma KeyValue(x: Mux, v: Valuation, p: nat, b: Bit)
    requires b.Wire? && b.id in Keys(x.ctrl) && forall s :: 0 <= s < |x.ctrl| ==> (Active(v, x.ctrl[s]) <==> s == p)
    requires Selectable(x, p)
    ensures v(b.id) <==> x.ctrl[p] == b
  {
    var s :| 0 <= s < |x.ctrl| && Key(x.ctrl[s]) == b.id;
    assert x.ctrl[s] == b;
  }

  lemma FindMisaligned(x: Mux) returns (p: nat, i: nat)
    requires WfMux(x) && !Aligned(x)
    ensures Misaligned(x, p, i)
  {
    p, i :| 0 <= p < |x.ctrl| && 0 <= i < |x.out| && Selectable(x, p)
            && x.data[p][i].Wire? && x.data[p][i].id in Keys(x.ctrl)
            && !(IndexOf(Keys(x.ctrl), x.data[p][i].id) == p <==> x.ctrl[p] == x.data[p][i]);
  }

  /** The substitute of a misaligned bit has the wrong value when its port is selected. */
  lemma SubstituteDiffers(x: Mux, env: Env, v: Valuation, u: Valuation, p: nat, i: nat)
    requires WfMux(x) && Misaligned(x, p, i)
    requires forall s :: 0 <= s < |x.ctrl| ==> (Active(v, x.ctrl[s]) <==> s == p)
    ensures Value(env, u, ReplaceBit(x.ctrl, multiset{}, multiset{}, p, x.data[p][i])) != Value(env, v, x.data[p][i])
  {
    KeyValue(x, v, p, x.data[p][i]);
  }

  lemma MisalignedBreaks(x: Mux, rank: nat -> nat, budget: nat, p: nat, i: nat) returns (env: Env, v: Valuation, u: Valuation)
    requires WfMux(x) && WellFormed(OneCell(x)) && Acyclic(rank, OneCell(x)) && budget > 1 && Misaligned(x, p, i)
    ensures OneRun(OneCell(x), budget, env, v, u) && u(x.out[i]) != v(x.out[i])
  {
    env := Env((w: nat) => Wire(w) == x.ctrl[p], false);
    v, u := RunExists(OneCell(x), rank, budget, env);
    assert AcyclicMux(rank, OneCell(x).muxes[0]);
    OneCellControls(x, rank);
    SelectPort(x, env, v, p);
    SubstituteDiffers(x, env, v, u, p, i);
    OneCellOutput(x, budget, env, v, u, i);
  }

  /** For every module of one cell: the run is right for every assignment if and only if the controls are
      aligned, that is, the number a control is interned under is the number of its port in every
      selectable port that reads it. Constants share one number, so two constant controls (or a repeated
      control) shift the numbers of the ones that follow. */
  lemma OwnControlsExact(x: Mux, rank: nat -> nat, budget: nat)
    requires WfMux(x) && WellFormed(OneCell(x)) && Acyclic(rank, OneCell(x)) && budget > 1
    ensures Aligned(x) <==> RunsRight(OneCell(x), budget)
  {
    if Aligned(x) {
      OneCellEligible(x);
      EligibleRunsRight(OneCell(x), rank, budget);
    } else {
      var p, i := FindMisaligned(x);
      var env, v, u := MisalignedBreaks(x, rank, budget, p, i);
      OneCellSeen(x, i);
    }
  }

  /** `S = [0, 0, w0]`, where port 2 reads `w0`. */
  function ConstantControls(): (x: Mux)
    ensures WfMux(x)
  {
    Mux([[Zero], [Zero], [Wire(0)], [Zero]], [Zero, Zero, Wire(0)], [1])
  }

  /** Two constant-zero controls are enough: the third control is interned under 1, so its occurrence
      in port 2 becomes zero although it is one whenever port 2 is selected. */
  lemma ConstantControlsMisnumber()
    ensures Misaligned(ConstantControls(), 2, 0)
  {
    var x := ConstantControls();
    assert x.ctrl[..2] == [Zero, Zero] && x.ctrl[..2][..1] == [Zero] && x.ctrl[..2][..1][..0] == [];
    assert Keys([Zero]) == [-1];
    assert Keys([Zero, Zero]) == [-1];
    assert Keys(x.ctrl) == [-1, 0];
    assert IndexOf([-1, 0], 0) == 1 by {
      assert [-1, 0][1..] == [0];
      assert IndexOf([0], 0) == 0;
    }
    assert Selectable(x, 2) && x.data[2][0] == Wire(0);
  }

  lemma MisalignedNotAligned(x: Mux, p: nat, i: nat)
    requires WfMux(x) && Misaligned(x, p, i)
    ensures !Aligned(x)
  {
  }

  lemma ConstantControlsWf(x: Mux, rank: nat -> nat)
    requires x == ConstantControls() && rank(0) == 0 && rank(1) == 1
    ensures WellFormed(OneCell(x)) && Acyclic(rank, OneCell(x))
  {
    assert x.out == [1];
    forall i | 0 <= i < |x.out|
      ensures forall p :: 0 <= p < |x.data| ==> Below(rank, x.data[p][i], rank(x.out[i]))
      ensures forall s :: 0 <= s < |x.ctrl| ==> Below(rank, x.ctrl[s], rank(x.out[i]))
    {
    }
  }

  /** The module of that cell has an output that the optimiser changes. */
  lemma ConstantControlsBreak(budget: nat)
    requires budget > 1
    ensures !RunsRight(OneCell(ConstantControls()), budget)
  {
    var rank := (w: nat) => w;
    ConstantControlsMisnumber();
    MisalignedNotAligned(ConstantControls(), 2, 0);
    ConstantControlsWf(ConstantControls(), rank);
    OwnControlsExact(ConstantControls(), rank, budget);
  }

  // ---------------------------------------------------------------------------------------------
  // An eligible module whose second round is wrong

  /** `w1 = w0 ? w2 : w2`, read outside. */
  const UserCell: Mux := Mux([[Wire(2)], [Wire(2)]], [Wire(0)], [1])

  /** `w4 = 1 ? 0 : w2`, read outside. */
  const PassCell: Mux := Mux([[Zero], [Wire(2)]], [One], [4])

  /** `w2 = w3 ? 0 : w0`, used by the other two. */
  const SharedCell: Mux := Mux([[Zero], [Wire(0)]], [Wire(3)], [2])

  function Start(): (net: Netlist)
    ensures WfMuxes(net)
  {
    Netlist([UserCell, PassCell, SharedCell], [], [Wire(1), Wire(4)])
  }

  /** What the first round makes of it: the cell used twice is no root any more. */
  function Middle(): (net: Netlist)
    ensures WfMuxes(net)
  {
    Netlist([UserCell, SharedCell], [], [Wire(1), Zero])
  }

  ghost predicate StartTab(tab: Tables) {
    && WfTables(tab)
    && tab.muxes == Start().muxes
    && tab.roots == {0, 1, 2} && tab.seen == {0, 1} && tab.inputs == [[[2], [2]], [[], [2]], [[], []]]
  }

  lemma StartFeeds(net: Netlist, m: nat, p: nat)
    requires net == Start() && m < 3 && p < 2
    ensures FeedsPort(net, 2, m, p) <==> m == 0 || (m == 1 && p == 1)
    ensures !FeedsPort(net, 0, m, p) && !FeedsPort(net, 1, m, p)
  {
    assert m == 0 || (m == 1 && p == 1) ==> net.muxes[m].data[p] == [Wire(net.muxes[2].out[0])];
  }

  lemma StartInputs(net: Netlist, m: nat, p: nat)
    requires net == Start() && m < 3 && p < 2
    ensures InputMuxes(net, m, p) == if m == 0 || (m == 1 && p == 1) then [2] else []
  {
    StartFeeds(net, m, p);
    assert FeedersUpTo(net, m, p, 0) == [];
    assert FeedersUpTo(net, m, p, 1) == [];
    assert FeedersUpTo(net, m, p, 2) == [];
  }

  lemma StartRoots(net: Netlist)
    requires net == Start()
    ensures SeenMux(net, 0) && SeenMux(net, 1) && !SeenMux(net, 2) && IsRoot(net, 2)
  {
    assert SeenByNonMux(net, net.muxes[0].out[0]) && SeenByNonMux(net, net.muxes[1].out[0]);
    StartFeeds(net, 0, 0);
    StartFeeds(net, 1, 1);
    assert Feeds(net, 2, 0) && Feeds(net, 2, 1);
  }

  lemma StartInputTable(tab: Tables)
    requires tab == Build(Start())
    ensures tab.inputs == [[[2], [2]], [[], [2]], [[], []]]
  {
    forall m: nat, p: nat | m < 3 && p < 2
      ensures tab.inputs[m][p] == if m == 0 || (m == 1 && p == 1) then [2] else []
    {
      StartInputs(Start(), m, p);
    }
    assert tab.inputs[0] == [[2], [2]];
    assert tab.inputs[1] == [[], [2]];
    assert tab.inputs[2] == [[], []];
  }

  lemma ThreeRootTable(net: Netlist, tab: Tables)
    requires WfMuxes(net) && |net.muxes| == 3 && tab == Build(net)
    requires SeenMux(net, 0) && SeenMux(net, 1) && !SeenMux(net, 2) && IsRoot(net, 2)
    ensures tab.roots == {0, 1, 2} && tab.seen == {0, 1}
  {
    RootsAre(net, tab);
    assert UpTo(3) == {0, 1, 2};
    assert IsRoot(net, 0) && IsRoot(net, 1);
  }

  lemma RootsAre(net: Netlist, tab: Tables)
    requires WfMuxes(net) && tab == Build(net)
    ensures forall m :: m in tab.roots <==> m in UpTo(|net.muxes|) && IsRoot(net, m)
    ensures forall m :: m in tab.seen <==> m in UpTo(|net.muxes|) && SeenMux(net, m)
  {
  }

  lemma StartTables()
    ensures StartTab(Build(Start()))
  {
    StartRoots(Start());
    ThreeRootTable(Start(), Build(Start()));
    StartInputTable(Build(Start()));
  }

  lemma AllRootsSingle(tab: Tables)
    requires WfTables(tab) && forall k: nat :: k < |tab.muxes| ==> k in tab.roots
    ensures SingleUse(tab)
  {
  }

  lemma StartAligned(tab: Tables)
    requires WfTables(tab) && tab.muxes == Start().muxes
    ensures AllAligned(tab)
  {
    forall m | 0 <= m < |tab.muxes|
      ensures Aligned(tab.muxes[m])
    {
      OneControlAligned(tab.muxes[m]);
    }
  }

  /** All cells of the module are roots, so nothing is used twice. */
  lemma StartEligible()
    ensures Eligible(Start())
  {
    StartTables();
    AllRootsSingle(Build(Start()));
    StartAligned(Build(Start()));
  }

  lemma OneControlAligned(x: Mux)
    requires WfMux(x) && |x.ctrl| == 1
    ensures Aligned(x)
  {
    assert x.ctrl[..0] == [];
    assert Keys(x.ctrl) == [Key(x.ctrl[0])];
  }

  // The first round: every port but one is found selectable, and no bit is known.

  lemma NothingKnown(tab: Tables, st: State, m: nat)
    requires WfTables(tab) && Valid(tab, st) && m < |tab.muxes|
    requires forall p, i :: 0 <= p < |st.data[m]| && 0 <= i < |st.data[m][p]| && st.data[m][p][i].Wire?
               ==> st.data[m][p][i].id !in Keys(tab.muxes[m].ctrl)
    ensures ReplaceKnown(tab, st, multiset{}, multiset{}, m) == st
  {
    var r := ReplaceKnown(tab, st, multiset{}, multiset{}, m);
    forall p | 0 <= p < |st.data[m]|
      ensures r.data[m][p] == st.data[m][p]
    {
    }
    assert r.data[m] == st.data[m];
    assert r.data == st.data;
  }

  /** A cell with one control follows both ports unless the control is constant or known. */
  lemma BothOpen(x: Mux, inactive: multiset<nat>, active: multiset<nat>)
    requires |x.ctrl| == 1 && x.ctrl[0].Wire? && x.ctrl[0].id !in inactive && x.ctrl[0].id !in active
    ensures PortsToEval(x, inactive, active) == [0, 1]
  {
    assert OpenPorts(x, inactive, 2) == [];
    assert OpenPorts(x, inactive, 1) == [1];
    assert FirstConstOn(x, 1) == 1 && FirstKnownActive(x, active, 1) == 1;
  }

  ghost predicate StartState(tab: Tables, st: State) {
    && StartTab(tab) && Valid(tab, st) && st.budget > 4
    && st.data == [UserCell.data, PassCell.data, SharedCell.data] && st.pure == {0, 1} && st.rerun == {}
  }

  /** The user's walk enables both ports of the shared cell and substitutes nothing, as that is a root. */
  lemma SharedParent(tab: Tables, st: State, inactive: multiset<nat>, active: multiset<nat>, visited: set<nat>)
    requires StartState(tab, st) && 3 !in inactive && 3 !in active
    ensures EvalParents(tab, st, inactive, active, visited, [2], true, true, ABORT_DEPTH)
         == st.(budget := st.budget - 1, enabled := st.enabled + PortSet(2, [0, 1]))
  {
    BothOpen(tab.muxes[2], inactive, active);
    BlockedMux(tab, st, inactive, active, visited, 2, false, true, ABORT_DEPTH - 1);
    var st1 := EvalParent(tab, st, inactive, active, visited, 2, true, true, ABORT_DEPTH);
    assert [2][1..] == [];
    assert EvalParents(tab, st1, inactive, active, visited, [], true, true, ABORT_DEPTH) == st1;
  }

  lemma UserPort(tab: Tables, st: State, p: nat)
    requires StartState(tab, st) && p < 2
    ensures EvalPort(tab, st, multiset{}, multiset{}, {0}, 0, p, true, true, ABORT_DEPTH)
         == st.(budget := st.budget - 1, enabled := st.enabled + {(0, p)} + PortSet(2, [0, 1]))
  {
    var x := tab.muxes[0];
    assert NotVisited([2], {0}) == [2] by { assert NotVisited([], {0} + {2}) == []; }
    assert OtherControls(x, p, 1) <= multiset{0} && OtherControls(x, p, 2) <= multiset{0};
    assert OwnControl(x, p) <= multiset{0};
    var st1 := st.(enabled := st.enabled + {(0, p)});
    SharedParent(tab, st1, multiset{} + OtherControls(x, p, |x.data|), multiset{} + OwnControl(x, p),
                 {0} + Members([2]));
  }

  /** The walk over both ports of the user. */
  lemma UserPorts(tab: Tables, st: State)
    requires StartState(tab, st) && st.budget > 6
    ensures EvalPorts(tab, st, multiset{}, multiset{}, {0}, 0, [0, 1], true, true, ABORT_DEPTH)
         == st.(budget := st.budget - 2, enabled := st.enabled + {(0, 0), (0, 1)} + PortSet(2, [0, 1]))
  {
    UserPort(tab, st, 0);
    var st1 := EvalPort(tab, st, multiset{}, multiset{}, {0}, 0, 0, true, true, ABORT_DEPTH);
    UserPort(tab, st1, 1);
    TwoPorts(tab, st, {0}, 0, true, true, ABORT_DEPTH);
    assert st1.enabled + {(0, 1)} + PortSet(2, [0, 1]) == st.enabled + {(0, 0), (0, 1)} + PortSet(2, [0, 1]);
  }

  lemma UserRoot(tab: Tables, st: State)
    requires StartState(tab, st) && st.budget > 7
    ensures EvalRoot(tab, st, 0)
         == st.(budget := st.budget - 3, enabled := st.enabled + {(0, 0), (0, 1)} + PortSet(2, [0, 1]))
  {
    assert st.(rerun := st.rerun - {0}) == st;
    var st1 := st.(budget := st.budget - 1);
    OneKey(UserCell);
    NothingKnown(tab, st1, 0);
    BothOpen(tab.muxes[0], multiset{}, multiset{});
    UserPorts(tab, st1);
  }

  lemma TwoPorts(tab: Tables, st: State, visited: set<nat>, m: nat, replace: bool, enable: bool, abort: nat)
    requires WfTables(tab) && Valid(tab, st) && m < |tab.muxes| && |tab.muxes[m].data| == 2
    ensures var st1 := EvalPort(tab, st, multiset{}, multiset{}, visited, m, 0, replace, enable, abort);
            var st2 := EvalPort(tab, st1, multiset{}, multiset{}, visited, m, 1, replace, enable, abort);
            EvalPorts(tab, st, multiset{}, multiset{}, visited, m, [0, 1], replace, enable, abort) == st2
  {
    var st1 := EvalPort(tab, st, multiset{}, multiset{}, visited, m, 0, replace, enable, abort);
    var st2 := EvalPort(tab, st1, multiset{}, multiset{}, visited, m, 1, replace, enable, abort);
    assert [0, 1][1..] == [1] && [1][1..] == [];
    assert EvalPorts(tab, st2, multiset{}, multiset{}, visited, m, [], replace, enable, abort) == st2;
    assert EvalPorts(tab, st1, multiset{}, multiset{}, visited, m, [1], replace, enable, abort) == st2;
  }

  lemma OneKey(x: Mux)
    requires |x.ctrl| == 1
    ensures Keys(x.ctrl) == [Key(x.ctrl[0])]
  {
    assert x.ctrl[..0] == [];
  }

  lemma PassRoot(tab: Tables, st: State)
    requires StartState(tab, st)
    ensures EvalRoot(tab, st, 1) == st.(budget := st.budget - 1, enabled := st.enabled + {(1, 0)})
  {
    assert st.(rerun := st.rerun - {1}) == st;
    var st1 := st.(budget := st.budget - 1);
    OneKey(PassCell);
    NothingKnown(tab, st1, 1);
    assert PortsToEval(tab.muxes[1], multiset{}, multiset{}) == [0];
    var st2 := EvalPort(tab, st1, multiset{}, multiset{}, {1}, 1, 0, true, true, ABORT_DEPTH);
    assert st2 == st1.(enabled := st1.enabled + {(1, 0)});
    assert [0][1..] == [];
    assert EvalPorts(tab, st2, multiset{}, multiset{}, {1}, 1, [], true, true, ABORT_DEPTH) == st2;
    assert EvalPorts(tab, st1, multiset{}, multiset{}, {1}, 1, [0], true, true, ABORT_DEPTH) == st2;
  }

  lemma SharedRoot(tab: Tables, st: State)
    requires StartState(tab, st)
    ensures EvalRoot(tab, st, 2) == st.(budget := st.budget - 1)
  {
    assert st.(rerun := st.rerun - {2}) == st;
    var st1 := st.(budget := st.budget - 1);
    OneKey(SharedCell);
    NothingKnown(tab, st1, 2);
    BlockedMux(tab, st, multiset{}, multiset{}, {2}, 2, true, false, ABORT_DEPTH);
  }

  ghost predicate StartDone(st: State) {
    && st.data == [UserCell.data, PassCell.data, SharedCell.data] && st.budget > 0
    && st.enabled == {(0, 0), (0, 1), (1, 0), (2, 0), (2, 1)}
  }

  lemma NextRoot(tab: Tables, st: State, m: nat, n: nat, r: State)
    requires WfTables(tab) && Valid(tab, st) && m < |tab.muxes| && n == m + 1 && m in tab.roots
    requires r == EvalRoot(tab, st, m) && r.budget > 0
    ensures EvalRootsFrom(tab, st, m) == EvalRootsFrom(tab, r, n)
  {
  }

  /** The indices are parameters so that the recursion is not unrolled. */
  lemma ThreeRoots(tab: Tables, st: State, st1: State, st2: State, st3: State, m: nat, n: nat)
    requires WfTables(tab) && Valid(tab, st) && |tab.muxes| == 3 && tab.roots == {0, 1, 2} && m == 0 && n == 1
    requires st1 == EvalRoot(tab, st, m) && st1.budget > 0
    requires st2 == EvalRoot(tab, st1, n) && st2.budget > 0
    requires st3 == EvalRoot(tab, st2, n + 1) && st3.budget > 0
    ensures EvalRootsFrom(tab, st, m) == st3
  {
    NextRoot(tab, st, m, n, st1);
    NextRoot(tab, st1, n, n + 1, st2);
    NextRoot(tab, st2, n + 1, n + 2, st3);
    assert EvalRootsFrom(tab, st3, n + 2) == st3;
  }

  lemma StartRootsDone(tab: Tables, st: State)
    requires StartState(tab, st) && st.budget > 12 && st.enabled == {}
    ensures var r := EvalRootsFrom(tab, st, 0); StartDone(r) && r.rerun == {}
  {
    UserRoot(tab, st);
    var st1 := EvalRoot(tab, st, 0);
    PassRoot(tab, st1);
    var st2 := EvalRoot(tab, st1, 1);
    SharedRoot(tab, st2);
    var st3 := EvalRoot(tab, st2, 2);
    ThreeRoots(tab, st, st1, st2, st3, 0, 1);
    assert PortSet(2, [0, 1]) == {(2, 0), (2, 1)};
  }

  lemma StartBegins(tab: Tables, budget: nat)
    requires StartTab(tab) && budget > 4
    ensures StartState(tab, InitialState(tab, budget))
  {
    assert InitialState(tab, budget).data == [UserCell.data, PassCell.data, SharedCell.data];
  }

  lemma StartFinal(tab: Tables, budget: nat)
    requires tab == Build(Start()) && budget > 12
    ensures StartDone(FinalState(tab, budget))
  {
    StartTables();
    StartBegins(tab, budget);
    StartRootsDone(tab, InitialState(tab, budget));
    var st1 := EvalRootsFrom(tab, InitialState(tab, budget), 0);
    assert Rerun(tab, st1) == st1;
  }

  lemma FlatThree<T>(xs: seq<seq<T>>)
    requires |xs| == 3
    ensures Flat(xs) == xs[0] + xs[1] + xs[2]
  {
    FlatNext(xs, 0);
    FlatNext(xs, 1);
    FlatNext(xs, 2);
    FlatWhole(xs);
    assert xs[..0] == [];
  }

  lemma LiveTwo(enabled: set<(nat, nat)>, m: nat)
    ensures LivePorts(enabled, m, 2)
         == if (m, 1) in enabled then (if (m, 0) in enabled then [0, 1] else [1])
            else (if (m, 0) in enabled then [0] else [])
  {
    assert LivePorts(enabled, m, 0) == [];
    assert LivePorts(enabled, m, 1) == if (m, 0) in enabled then [0] else [];
  }

  /** A two-port cell with both ports enabled stays as it is. */
  lemma KeepBoth(muxes: seq<Mux>, st: State, m: nat)
    requires m < |muxes| && WfMux(muxes[m]) && Shaped(muxes, st) && |muxes[m].data| == 2
    requires (m, 0) in st.enabled && (m, 1) in st.enabled && st.data[m] == muxes[m].data
    ensures Cells(muxes, st, m) == [muxes[m]] && Conns(muxes, st, m) == []
  {
    LiveTwo(st.enabled, m);
    var y := TrimMux(muxes[m], st.data[m], [0, 1]);
    assert y.data == st.data[m] && y.ctrl == muxes[m].ctrl;
  }

  /** A two-port cell with its first port enabled is connected through. */
  lemma PassFirst(muxes: seq<Mux>, st: State, m: nat)
    requires m < |muxes| && WfMux(muxes[m]) && Shaped(muxes, st) && |muxes[m].data| == 2 && |muxes[m].out| == 1
    requires (m, 0) in st.enabled && (m, 1) !in st.enabled
    ensures Cells(muxes, st, m) == [] && Conns(muxes, st, m) == [(muxes[m].out[0], st.data[m][0][0])]
  {
    LiveTwo(st.enabled, m);
  }

  lemma StartTrimmed(net: Netlist, st: State)
    requires net == Start() && Shaped(net.muxes, st) && StartDone(st)
    ensures Trimmed(net, st) == Netlist([UserCell, SharedCell], [(4, Zero)], net.taps)
  {
    KeepBoth(net.muxes, st, 0);
    PassFirst(net.muxes, st, 1);
    KeepBoth(net.muxes, st, 2);
    FlatThree(AllCells(net.muxes, st));
    FlatThree(AllConns(net.muxes, st));
  }

  /** A cell that does not read the wire is not changed. */
  lemma SubstSelf(w: nat, b: Bit, x: Mux)
    requires forall p :: 0 <= p < |x.data| ==> Wire(w) !in x.data[p]
    requires Wire(w) !in x.ctrl
    ensures SubstMux(w, b, x) == x
  {
    var y := SubstMux(w, b, x);
    forall p | 0 <= p < |x.data|
      ensures y.data[p] == x.data[p]
    {
    }
    assert y.data == x.data && y.ctrl == x.ctrl;
  }

  lemma MiddleCanonical(net: Netlist)
    requires net == Netlist([UserCell, SharedCell], [(4, Zero)], [Wire(1), Wire(4)])
    ensures Canonical(net) == Middle()
  {
    var s := Subst(4, Zero, net.(conns := net.conns[1..]));
    SubstSelf(4, Zero, UserCell);
    SubstSelf(4, Zero, SharedCell);
    assert s.muxes == [UserCell, SharedCell] && s.conns == [] && s.taps == [Wire(1), Zero];
  }

  lemma FirstRound(budget: nat)
    requires budget > 12
    ensures Round(Start(), budget) == Middle()
  {
    StartFinal(Build(Start()), budget);
    StartTrimmed(Start(), FinalState(Build(Start()), budget));
    MiddleCanonical(RunResult(Start(), budget));
  }

  // The second round goes wrong.

  ghost function StartRank(): nat -> nat {
    (w: nat) => if w == 1 || w == 4 then 2 else if w == 2 then 1 else 0
  }

  /** A cell of one bit and two ports. */
  predicate Small(x: Mux) {
    WfMux(x) && |x.ctrl| == 1 && |x.out| == 1
  }

  lemma SmallUnique(muxes: seq<Mux>)
    requires forall m :: 0 <= m < |muxes| ==> Small(muxes[m])
    requires forall m, n :: 0 <= m < n < |muxes| && Small(muxes[m]) && Small(muxes[n]) ==> muxes[m].out[0] != muxes[n].out[0]
    ensures UniqueDrivers(muxes)
  {
  }

  lemma SmallAcyclic(rank: nat -> nat, x: Mux)
    requires Small(x) && Below(rank, x.ctrl[0], rank(x.out[0]))
    requires Below(rank, x.data[0][0], rank(x.out[0])) && Below(rank, x.data[1][0], rank(x.out[0]))
    ensures AcyclicMux(rank, x)
  {
    forall p | 0 <= p < |x.data|
      ensures Below(rank, x.data[p][0], rank(x.out[0]))
    {
    }
  }

  lemma CellsAcyclic(rank: nat -> nat)
    requires rank == StartRank()
    ensures AcyclicMux(rank, UserCell) && AcyclicMux(rank, PassCell) && AcyclicMux(rank, SharedCell)
  {
    SmallAcyclic(rank, UserCell);
    SmallAcyclic(rank, PassCell);
    SmallAcyclic(rank, SharedCell);
  }

  lemma StartWf(rank: nat -> nat)
    requires rank == StartRank()
    ensures WellFormed(Start()) && Acyclic(rank, Start())
  {
    SmallUnique(Start().muxes);
    CellsAcyclic(rank);
  }

  lemma MiddleWf(rank: nat -> nat)
    requires rank == StartRank()
    ensures WellFormed(Middle()) && Acyclic(rank, Middle())
  {
    SmallUnique(Middle().muxes);
    CellsAcyclic(rank);
  }

  lemma MiddleDrives(muxes: seq<Mux>, w: nat)
    requires muxes == Middle().muxes
    ensures MuxDriven(muxes, w) <==> w == 1 || w == 2
  {
    assert w == 1 ==> muxes[0].out[0] == w;
    assert w == 2 ==> muxes[1].out[0] == w;
  }

  lemma SmallIndependent(net: Netlist)
    requires forall m :: 0 <= m < |net.muxes| ==> Small(net.muxes[m]) && FreeWire(net, net.muxes[m].ctrl[0])
    requires forall m, n :: 0 <= m < n < |net.muxes| && Small(net.muxes[m]) && Small(net.muxes[n])
               ==> net.muxes[m].ctrl[0] != net.muxes[n].ctrl[0]
    ensures Independent(net)
  {
  }

  lemma MiddleIndependent(net: Netlist)
    requires net == Middle()
    ensures Independent(net)
  {
    MiddleDrives(net.muxes, 0);
    MiddleDrives(net.muxes, 3);
    SmallIndependent(net);
  }

  lemma MiddleTwoLevel(net: Netlist)
    requires net == Middle()
    ensures TwoLevel(net)
  {
    MiddleDrives(net.muxes, 0);
    assert Undriven(net, net.muxes[1].data[0][0]) && Undriven(net, net.muxes[1].data[1][0]);
    assert !ReadsDriven(net, 1);
    assert AllTapped(net, 0);
  }

  lemma MiddleNotRoot(net: Netlist)
    requires net == Middle()
    ensures !IsRoot(net, 1)
  {
    assert !FeedsPort(net, 1, 1, 0) && !FeedsPort(net, 1, 1, 1);
    assert !Feeds(net, 1, 1);
    assert !SeenByNonMux(net, net.muxes[1].out[0]);
    assert !SeenMux(net, 1);
  }

  lemma MiddleShares(net: Netlist)
    requires net == Middle()
    ensures Shares(net, Sharing(0, 0, 0, 1, 0, 1, 1, 0, 0))
  {
    MiddleIndependent(net);
    MiddleNotRoot(net);
    assert SeenByNonMux(net, net.muxes[0].out[0]);
    assert Links(net, 0, 0, 0, 1, 0) && Links(net, 0, 1, 0, 1, 0);
  }

  lemma {:induction false} FeedersFew(net: Netlist, m: nat, p: nat, n: nat)
    requires m < |net.muxes| && p < |net.muxes[m].data| && n <= |net.muxes|
    ensures |FeedersUpTo(net, m, p, n)| <= n
  {
    if n > 0 {
      FeedersFew(net, m, p, n - 1);
    }
  }

  lemma MiddleCost(net: Netlist)
    requires net == Middle()
    ensures Cost(net) <= 10
  {
    var tab := Build(net);
    forall m, p | 0 <= m < 2 && 0 <= p < 2
      ensures |tab.inputs[m][p]| <= 2
    {
      FeedersFew(net, m, p, 2);
    }
    BothOpen(tab.muxes[0], multiset{}, multiset{});
    BothOpen(tab.muxes[1], multiset{}, multiset{});
    TwoPortCosts(tab, 0);
    TwoPortCosts(tab, 1);
    assert RootCosts(tab, 2) == 0;
    assert RootCosts(tab, 1) <= 5;
  }

  lemma TwoPortCosts(tab: Tables, m: nat)
    requires WfTables(tab) && m < |tab.muxes| && |tab.muxes[m].data| == 2
    ensures PortCosts(tab, m, [0, 1]) == |tab.inputs[m][0]| + |tab.inputs[m][1]|
  {
    assert [0, 1][1..] == [1] && [1][1..] == [];
    assert PortCosts(tab, m, []) == 0;
    assert PortCosts(tab, m, [1]) == |tab.inputs[m][1]|;
  }

  lemma SecondRound(rank: nat -> nat, budget: nat) returns (env: Env, v: Valuation, u: Valuation)
    requires rank == StartRank() && budget > 10
    ensures WellFormed(Middle()) && Acyclic(rank, Middle()) && Changes(Middle(), rank, budget, env, v, u, 1)
  {
    MiddleWf(rank);
    MiddleIndependent(Middle());
    MiddleTwoLevel(Middle());
    MiddleShares(Middle());
    MiddleCost(Middle());
    TwoLevelShallow(Middle());
    ShallowCompletes(Middle(), budget);
    var w;
    env, v, u, w := SharesBreaks(Middle(), rank, budget, Sharing(0, 0, 0, 1, 0, 1, 1, 0, 0));
  }

  lemma StartOneHot(v: Valuation)
    ensures OneHot(v, Start().muxes)
  {
  }

  lemma FirstRoundReads(rank: nat -> nat, budget: nat, env: Env, v: Valuation)
    requires rank == StartRank() && budget > 12 && !env.undef && Consistent(Middle(), env, v)
    ensures WellFormed(Start()) && Acyclic(rank, Start()) && Eligible(Start())
    ensures SameTaps(env, v, Meaning(Start(), rank, env), Middle().taps, Start().taps)
  {
    StartWf(rank);
    StartEligible();
    FirstRound(budget);
    StartOneHot(Meaning(Start(), rank, env));
    RoundPreserves(Start(), rank, budget, env, Meaning(Start(), rank, env), v);
  }

  lemma TwoRounds(budget: nat, n: nat)
    requires budget > 12 && n == 2
    ensures After(Start(), budget, n) == Round(Middle(), budget)
  {
    FirstRound(budget);
    assert Iterate(RoundOf(budget), Start(), n - 1) == Middle();
  }

  /** Eligibility is not kept: the module is eligible, its first round leads to one that is not, and the
      second changes what is read outside. */
  lemma EligibleIsNotKept(rank: nat -> nat, budget: nat) returns (env: Env)
    requires rank == StartRank() && budget > 12
    ensures WellFormed(Start()) && Acyclic(rank, Start()) && Eligible(Start())
    ensures !env.undef && OneHot(Meaning(Start(), rank, env), Start().muxes)
    ensures var r := After(Start(), budget, 2);
            WellFormed(r) && Acyclic(rank, r) && !Preserved(Start(), r, rank, env)
  {
    var v, u;
    env, v, u := SecondRound(rank, budget);
    FirstRoundReads(rank, budget, env, v);
    StartOneHot(Meaning(Start(), rank, env));
    TwoRounds(budget, 2);
    SecondDiffers(rank, budget, env, v, u, Round(Middle(), budget));
  }

  lemma SecondDiffers(rank: nat -> nat, budget: nat, env: Env, v: Valuation, u: Valuation, r: Netlist)
    requires WellFormed(Start()) && Acyclic(rank, Start()) && WellFormed(Middle()) && Acyclic(rank, Middle())
    requires Changes(Middle(), rank, budget, env, v, u, 1) && r == Round(Middle(), budget)
    requires SameTaps(env, v, Meaning(Start(), rank, env), Middle().taps, Start().taps)
    ensures WellFormed(r) && Acyclic(rank, r) && !Preserved(Start(), r, rank, env)
  {
    var t := Meaning(r, rank, env);
    assert SameTaps(env, t, u, r.taps, Middle().taps);
    assert Value(env, t, r.taps[0]) == u(1) && v(1) == Value(env, Meaning(Start(), rank, env), Wire(1));
  }
}
