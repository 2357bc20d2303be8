/** Why a port is enabled: a trail of cells and ports leads to it from a root, along which no control is
    taken to be both active and inactive. Ports without one are dead, and deleted (MuxTreeDeletion.dfy). */
module MuxTreeTrails {
  import opened MuxNetlist
  import opened MuxTree
  import opened MuxTreePass
  import opened MuxTreeLoop
  import opened MuxTreeDeletion

  // ---------------------------------------------------------------------------------------------
  // Trails

  type Trail = seq<(nat, nat)>

  /** Following port `step.1` of cell `step.0` takes control `w` to be active. */
  predicate TakesOne(muxes: seq<Mux>, step: (nat, nat), w: nat) {
    step.0 < |muxes| && step.1 < |muxes[step.0].ctrl| && muxes[step.0].ctrl[step.1] == Wire(w)
  }

  /** ... and every control of another port to be inactive. */
  predicate TakesZero(muxes: seq<Mux>, step: (nat, nat), w: nat) {
    step.0 < |muxes| && exists s :: 0 <= s < |muxes[step.0].ctrl| && s != step.1 && muxes[step.0].ctrl[s] == Wire(w)
  }

  predicate IsOne(muxes: seq<Mux>, path: Trail, w: nat) {
    exists j :: 0 <= j < |path| && TakesOne(muxes, path[j], w)
  }

  predicate IsZero(muxes: seq<Mux>, path: Trail, w: nat) {
    exists j :: 0 <= j < |path| && TakesZero(muxes, path[j], w)
  }

  /** Control `s` is a signal taken to be active on the way. */
  predicate KnownOne(muxes: seq<Mux>, path: Trail, x: Mux, s: nat) {
    s < |x.ctrl| && x.ctrl[s].Wire? && IsOne(muxes, path, x.ctrl[s].id)
  }

  predicate KnownZero(muxes: seq<Mux>, path: Trail, x: Mux, s: nat) {
    s < |x.ctrl| && x.ctrl[s].Wire? && IsZero(muxes, path, x.ctrl[s].id)
  }

  predicate AlwaysOn(x: Mux, s: nat) {
    s < |x.ctrl| && x.ctrl[s] == One
  }

  /** Port `p` of a cell may be selected after `path`: the first whose control is the constant one if
      there is such a control; else the first whose control was taken to be active; else any whose
      control is not a constant and was not taken to be inactive. */
  predicate Open(muxes: seq<Mux>, path: Trail, x: Mux, p: nat) {
    if exists s: nat :: s < |x.ctrl| && AlwaysOn(x, s) then
      AlwaysOn(x, p) && forall s: nat :: s < p ==> !AlwaysOn(x, s)
    else if exists s: nat :: s < |x.ctrl| && KnownOne(muxes, path, x, s) then
      KnownOne(muxes, path, x, p) && forall s: nat :: s < p ==> !KnownOne(muxes, path, x, s)
    else
      p == |x.ctrl| || (p < |x.ctrl| && x.ctrl[p].Wire? && !KnownZero(muxes, path, x, p))
  }

  /** The roots a trail passes through after its start. */
  function Passed(roots: set<nat>, path: Trail): nat {
    if |path| <= 1 then 0
    else Passed(roots, path[..|path| - 1]) + (if path[|path| - 1].0 in roots then 1 else 0)
  }

  ghost predicate StepOk(tab: Tables, path: Trail, j: nat)
    requires WfTables(tab) && j < |path|
  {
    var (m, p) := path[j];
    && m < |tab.muxes| && p < |tab.muxes[m].data| && Open(tab.muxes, path[..j], tab.muxes[m], p)
    && (j > 0 ==> m !in tab.seen && path[j - 1].0 < |tab.inputs| && path[j - 1].1 < |tab.inputs[path[j - 1].0]|
                  && m in tab.inputs[path[j - 1].0][path[j - 1].1])
  }

  /** From a root, each cell feeds the port followed before it, no cell but the first is seen outside,
      and at most three more roots are passed. */
  ghost predicate IsTrail(tab: Tables, path: Trail)
    requires WfTables(tab)
  {
    && path != [] && path[0].0 in tab.roots && Passed(tab.roots, path) <= 3
    && forall j :: 0 <= j < |path| ==> StepOk(tab, path, j)
  }

  ghost predicate Reaches(tab: Tables, pure: set<nat>, e: (nat, nat))
    requires WfTables(tab)
  {
    exists path: Trail :: IsTrail(tab, path) && path[0].0 in pure && path[|path| - 1] == e
  }

  /** `k` feeds the end of the trail. */
  ghost predicate FeedsEnd(tab: Tables, path: Trail, k: nat)
    requires WfTables(tab)
  {
    && path != [] && path[|path| - 1].0 < |tab.inputs| && path[|path| - 1].1 < |tab.inputs[path[|path| - 1].0]|
    && k in tab.inputs[path[|path| - 1].0][path[|path| - 1].1]
  }

  /** A root is reached by a trail that has passed three others. */
  ghost predicate IsFar(tab: Tables, k: nat)
    requires WfTables(tab)
  {
    exists path: Trail :: IsTrail(tab, path) && Passed(tab.roots, path) == 3 && FeedsEnd(tab, path, k)
  }

  /** `good` has the ports that trails from `pure` reach, `far` the roots behind three others. */
  datatype Goals = Goals(pure: set<nat>, good: iset<(nat, nat)>, far: iset<nat>)

  ghost predicate TrailEnds(tab: Tables, to: Goals, path: Trail)
    requires WfTables(tab) && IsTrail(tab, path)
  {
    && (path[0].0 in to.pure ==> path[|path| - 1] in to.good)
    && (Passed(tab.roots, path) == 3 ==> forall k :: FeedsEnd(tab, path, k) ==> k in to.far)
  }

  ghost predicate Reachable(tab: Tables, to: Goals)
    requires WfTables(tab)
  {
    forall path: Trail :: IsTrail(tab, path) ==> TrailEnds(tab, to, path)
  }

  /** Every enabled port is good, and every pure root is seen outside or far. */
  ghost predicate Justified(tab: Tables, to: Goals, st: State) {
    && tab.seen <= st.pure
    && (forall e :: e in st.enabled ==> e in to.good)
    && (forall k :: k in st.pure ==> k in tab.seen || k in to.far)
  }

  // ---------------------------------------------------------------------------------------------
  // The walk follows trails

  /** What is known after `path`. */
  ghost predicate Knows(tab: Tables, path: Trail, inactive: multiset<nat>, active: multiset<nat>) {
    && (forall w :: w in inactive <==> IsZero(tab.muxes, path, w))
    && (forall w :: w in active <==> IsOne(tab.muxes, path, w))
  }

  lemma KnowsPorts(tab: Tables, path: Trail, inactive: multiset<nat>, active: multiset<nat>, x: Mux, p: nat)
    requires Knows(tab, path, inactive, active) && p in PortsToEval(x, inactive, active)
    ensures Open(tab.muxes, path, x, p)
  {
    forall s: nat
      ensures AlwaysOn(x, s) <==> ConstOn(x, s)
      ensures KnownOne(tab.muxes, path, x, s) <==> KnownTo(x, active, s)
      ensures KnownZero(tab.muxes, path, x, s) <==> KnownTo(x, inactive, s)
    {
    }
    var on, one := FirstConstOn(x, 0), FirstKnownActive(x, active, 0);
    if on < |x.ctrl| {
      assert p == on && AlwaysOn(x, on);
    } else if one < |x.ctrl| {
      assert p == one && KnownOne(tab.muxes, path, x, one);
      assert forall s: nat :: s < |x.ctrl| ==> !AlwaysOn(x, s);
    } else {
      assert forall s: nat :: s < |x.ctrl| ==> !AlwaysOn(x, s) && !KnownOne(tab.muxes, path, x, s);
      assert p in OpenPorts(x, inactive, 0);
      assert p < |x.ctrl| ==> !ConstOff(x, p) && !AlwaysOn(x, p);
    }
  }

  lemma {:induction false} OtherControlsHave(x: Mux, p: nat, n: nat, s: nat)
    requires s < n && s != p && s < |x.ctrl| && x.ctrl[s].Wire?
    ensures x.ctrl[s].id in OtherControls(x, p, n)
  {
    if s < n - 1 {
      OtherControlsHave(x, p, n - 1, s);
    }
  }

  lemma KnowsOne(tab: Tables, path: Trail, active: multiset<nat>, m: nat, p: nat, w: nat)
    requires m < |tab.muxes| && (w in active <==> IsOne(tab.muxes, path, w))
    ensures w in active + OwnControl(tab.muxes[m], p) <==> IsOne(tab.muxes, path + [(m, p)], w)
  {
    var longer := path + [(m, p)];
    assert forall j :: 0 <= j < |path| ==> longer[j] == path[j];
    if TakesOne(tab.muxes, (m, p), w) {
      assert TakesOne(tab.muxes, longer[|path|], w);
    }
  }

  lemma KnowsZero(tab: Tables, path: Trail, inactive: multiset<nat>, m: nat, p: nat, w: nat)
    requires m < |tab.muxes| && WfMux(tab.muxes[m]) && (w in inactive <==> IsZero(tab.muxes, path, w))
    ensures w in inactive + OtherControls(tab.muxes[m], p, |tab.muxes[m].data|)
       <==> IsZero(tab.muxes, path + [(m, p)], w)
  {
    var x, longer := tab.muxes[m], path + [(m, p)];
    assert forall j :: 0 <= j < |path| ==> longer[j] == path[j];
    if w in OtherControls(x, p, |x.data|) {
      var s := OtherControlIs(x, p, |x.data|, w);
      assert TakesZero(tab.muxes, longer[|path|], w);
    }
    if TakesZero(tab.muxes, (m, p), w) {
      var s: nat :| s < |x.ctrl| && s != p && x.ctrl[s] == Wire(w);
      OtherControlsHave(x, p, |x.data|, s);
      assert TakesZero(tab.muxes, longer[|path|], w);
    }
  }

  lemma KnowsMore(tab: Tables, path: Trail, inactive: multiset<nat>, active: multiset<nat>, m: nat, p: nat)
    requires m < |tab.muxes| && WfMux(tab.muxes[m]) && Knows(tab, path, inactive, active)
    ensures Knows(tab, path + [(m, p)], inactive + OtherControls(tab.muxes[m], p, |tab.muxes[m].data|),
                  active + OwnControl(tab.muxes[m], p))
  {
    forall w: nat
      ensures w in inactive + OtherControls(tab.muxes[m], p, |tab.muxes[m].data|) <==> IsZero(tab.muxes, path + [(m, p)], w)
      ensures w in active + OwnControl(tab.muxes[m], p) <==> IsOne(tab.muxes, path + [(m, p)], w)
    {
      KnowsZero(tab, path, inactive, m, p, w);
      KnowsOne(tab, path, active, m, p, w);
    }
  }

  /** The walk has come along `path`, which may be empty, to cell `m`, and may pass `abort` more roots. */
  ghost predicate Arrived(tab: Tables, path: Trail, m: nat, abort: nat)
    requires WfTables(tab)
  {
    && m < |tab.muxes|
    && if path == [] then m in tab.roots && abort == 3
       else IsTrail(tab, path) && FeedsEnd(tab, path, m) && m !in tab.seen
            && Passed(tab.roots, path) + (if m in tab.roots then 1 else 0) + abort == 3
  }

  lemma ArrivedAt(tab: Tables, path: Trail, k: nat, abort: nat)
    requires WfTables(tab) && k < |tab.muxes| && k !in tab.seen
    requires IsTrail(tab, path) && Passed(tab.roots, path) + abort == 3 && FeedsEnd(tab, path, k)
    ensures if k !in tab.roots then Arrived(tab, path, k, abort) else abort > 0 ==> Arrived(tab, path, k, abort - 1)
    ensures Start(path, k) == path[0].0
  {
  }

  lemma TrailGrows(tab: Tables, path: Trail, m: nat, p: nat, abort: nat)
    requires WfTables(tab) && Arrived(tab, path, m, abort) && p < |tab.muxes[m].data|
    requires Open(tab.muxes, path, tab.muxes[m], p)
    ensures IsTrail(tab, path + [(m, p)]) && Passed(tab.roots, path + [(m, p)]) + abort == 3
  {
    var longer := path + [(m, p)];
    assert longer[..|path|] == path;
    forall j | 0 <= j < |longer|
      ensures StepOk(tab, longer, j)
    {
      assert longer[..j] == path[..j];
      if j < |path| {
        assert StepOk(tab, path, j);
      }
    }
  }

  ghost predicate AllOpen(tab: Tables, path: Trail, m: nat, ports: seq<nat>)
    requires m < |tab.muxes|
  {
    forall j :: 0 <= j < |ports| ==> Open(tab.muxes, path, tab.muxes[m], ports[j])
  }

  lemma KnowsAll(tab: Tables, path: Trail, inactive: multiset<nat>, active: multiset<nat>, m: nat)
    requires m < |tab.muxes| && Knows(tab, path, inactive, active)
    ensures AllOpen(tab, path, m, PortsToEval(tab.muxes[m], inactive, active))
  {
    var ports := PortsToEval(tab.muxes[m], inactive, active);
    forall j | 0 <= j < |ports|
      ensures Open(tab.muxes, path, tab.muxes[m], ports[j])
    {
      KnowsPorts(tab, path, inactive, active, tab.muxes[m], ports[j]);
    }
  }

  /** The root the walk started from. */
  function Start(path: Trail, m: nat): nat {
    if path == [] then m else path[0].0
  }

  lemma {:induction false} TrailMux(tab: Tables, to: Goals, path: Trail, st: State, inactive: multiset<nat>,
                                    active: multiset<nat>, visited: set<nat>, m: nat, replace: bool, enable: bool, abort: nat)
    requires WfTables(tab) && Valid(tab, st) && Reachable(tab, to) && Justified(tab, to, st)
    requires Arrived(tab, path, m, abort) && Knows(tab, path, inactive, active)
    requires enable ==> Start(path, m) in to.pure
    ensures Justified(tab, to, EvalMux(tab, st, inactive, active, visited, m, replace, enable, abort))
    decreases Unvisited(tab, visited), 3, 0
  {
    if st.budget > 0 {
      var st1 := st.(budget := st.budget - 1);
      var st2 := if replace then ReplaceKnown(tab, st1, inactive, active, m) else st1;
      var ports := PortsToEval(tab.muxes[m], inactive, active);
      KnowsAll(tab, path, inactive, active, m);
      TrailPorts(tab, to, path, st2, inactive, active, visited, m, ports, replace, enable, abort);
    }
  }

  lemma {:induction false} TrailPorts(tab: Tables, to: Goals, path: Trail, st: State, inactive: multiset<nat>,
                                      active: multiset<nat>, visited: set<nat>, m: nat, ports: seq<nat>, replace: bool,
                                      enable: bool, abort: nat)
    requires WfTables(tab) && Valid(tab, st) && Reachable(tab, to) && Justified(tab, to, st)
    requires Arrived(tab, path, m, abort) && Knows(tab, path, inactive, active)
    requires AllBelow(ports, |tab.muxes[m].data|) && AllOpen(tab, path, m, ports)
    requires enable ==> Start(path, m) in to.pure
    ensures Justified(tab, to, EvalPorts(tab, st, inactive, active, visited, m, ports, replace, enable, abort))
    decreases Unvisited(tab, visited), 2, |ports|
  {
    if ports != [] {
      var st1 := EvalPort(tab, st, inactive, active, visited, m, ports[0], replace, enable, abort);
      TrailPort(tab, to, path, st, inactive, active, visited, m, ports[0], replace, enable, abort);
      TrailPorts(tab, to, path, st1, inactive, active, visited, m, ports[1..], replace, enable, abort);
    }
  }

  lemma EnabledMore(tab: Tables, to: Goals, path: Trail, st: State, e: (nat, nat))
    requires WfTables(tab) && Reachable(tab, to) && Justified(tab, to, st)
    requires IsTrail(tab, path) && path[0].0 in to.pure && path[|path| - 1] == e
    ensures Justified(tab, to, st.(enabled := st.enabled + {e}))
  {
    assert TrailEnds(tab, to, path);
  }

  lemma {:induction false} TrailPort(tab: Tables, to: Goals, path: Trail, st: State, inactive: multiset<nat>,
                                     active: multiset<nat>, visited: set<nat>, m: nat, p: nat, replace: bool, enable: bool,
                                     abort: nat)
    requires WfTables(tab) && Valid(tab, st) && Reachable(tab, to) && Justified(tab, to, st)
    requires Arrived(tab, path, m, abort) && Knows(tab, path, inactive, active)
    requires p < |tab.muxes[m].data| && Open(tab.muxes, path, tab.muxes[m], p)
    requires enable ==> Start(path, m) in to.pure
    ensures Justified(tab, to, EvalPort(tab, st, inactive, active, visited, m, p, replace, enable, abort))
    decreases Unvisited(tab, visited), 1, 0
  {
    if st.budget > 0 {
      var x := tab.muxes[m];
      var longer := path + [(m, p)];
      TrailGrows(tab, path, m, p, abort);
      var st1 := if enable then st.(enabled := st.enabled + {(m, p)}) else st;
      if enable {
        EnabledMore(tab, to, longer, st, (m, p));
      }
      var ks := NotVisited(tab.inputs[m][p], visited);
      if ks != [] {
        UnvisitedShrinks(tab, visited, tab.inputs[m][p]);
        KnowsMore(tab, path, inactive, active, m, p);
        TrailParents(tab, to, longer, st1, inactive + OtherControls(x, p, |x.data|), active + OwnControl(x, p),
                     visited + Members(ks), ks, replace, enable, abort);
      }
    }
  }

  ghost predicate AllFeed(tab: Tables, path: Trail, ks: seq<nat>)
    requires WfTables(tab)
  {
    forall j :: 0 <= j < |ks| ==> FeedsEnd(tab, path, ks[j])
  }

  lemma {:induction false} TrailParents(tab: Tables, to: Goals, path: Trail, st: State, inactive: multiset<nat>,
                                        active: multiset<nat>, visited: set<nat>, ks: seq<nat>, replace: bool, enable: bool,
                                        abort: nat)
    requires WfTables(tab) && Valid(tab, st) && Reachable(tab, to) && Justified(tab, to, st)
    requires IsTrail(tab, path) && Passed(tab.roots, path) + abort == 3 && Knows(tab, path, inactive, active)
    requires AllBelow(ks, |tab.muxes|) && AllFeed(tab, path, ks)
    requires enable ==> path[0].0 in to.pure
    ensures Justified(tab, to, EvalParents(tab, st, inactive, active, visited, ks, replace, enable, abort))
    decreases Unvisited(tab, visited), 4, |ks|
  {
    if ks != [] && st.budget > 0 {
      var st1 := EvalParent(tab, st, inactive, active, visited, ks[0], replace, enable, abort);
      TrailParent(tab, to, path, st, inactive, active, visited, ks[0], replace, enable, abort);
      TrailParents(tab, to, path, st1, inactive, active, visited, ks[1..], replace, enable, abort);
    }
  }

  lemma PureMore(tab: Tables, to: Goals, path: Trail, st: State, k: nat)
    requires WfTables(tab) && Reachable(tab, to) && Justified(tab, to, st)
    requires IsTrail(tab, path) && Passed(tab.roots, path) == 3 && FeedsEnd(tab, path, k)
    ensures Justified(tab, to, st.(rerun := st.rerun + {k}, pure := st.pure + {k}))
  {
    assert TrailEnds(tab, to, path);
  }

  lemma {:induction false} TrailParent(tab: Tables, to: Goals, path: Trail, st: State, inactive: multiset<nat>,
                                       active: multiset<nat>, visited: set<nat>, k: nat, replace: bool, enable: bool, abort: nat)
    requires WfTables(tab) && Valid(tab, st) && Reachable(tab, to) && Justified(tab, to, st)
    requires IsTrail(tab, path) && Passed(tab.roots, path) + abort == 3 && Knows(tab, path, inactive, active)
    requires k < |tab.muxes| && FeedsEnd(tab, path, k)
    requires enable ==> path[0].0 in to.pure
    ensures Justified(tab, to, EvalParent(tab, st, inactive, active, visited, k, replace, enable, abort))
    decreases Unvisited(tab, visited), 4, 0
  {
    if k !in st.pure {
      ArrivedAt(tab, path, k, abort);
      if k !in tab.roots {
        TrailMux(tab, to, path, st, inactive, active, visited, k, replace, enable, abort);
      } else if abort > 0 {
        TrailMux(tab, to, path, st, inactive, active, visited, k, false, enable, abort - 1);
      } else {
        PureMore(tab, to, path, st, k);
      }
    }
  }

  lemma TrailRoot(tab: Tables, to: Goals, st: State, m: nat)
    requires WfTables(tab) && Valid(tab, st) && m in tab.roots && m < |tab.muxes|
    requires Reachable(tab, to) && Justified(tab, to, st) && st.pure <= to.pure
    ensures Justified(tab, to, EvalRoot(tab, st, m))
  {
    TrailMux(tab, to, [], st.(rerun := st.rerun - {m}), multiset{}, multiset{}, {m}, m, true, m in st.pure, ABORT_DEPTH);
  }

  lemma {:induction false} TrailRootsFrom(tab: Tables, to: Goals, st: State, m: nat)
    requires WfTables(tab) && Valid(tab, st) && m <= |tab.muxes| && Reachable(tab, to) && Justified(tab, to, st)
    requires EvalRootsFrom(tab, st, m).pure <= to.pure
    ensures Justified(tab, to, EvalRootsFrom(tab, st, m))
    decreases |tab.muxes| - m
  {
    if m < |tab.muxes| {
      if m !in tab.roots {
        TrailRootsFrom(tab, to, st, m + 1);
      } else {
        var st1 := EvalRoot(tab, st, m);
        TrailRoot(tab, to, st, m);
        if st1.budget > 0 {
          TrailRootsFrom(tab, to, st1, m + 1);
        }
      }
    }
  }

  lemma {:induction false} TrailRerun(tab: Tables, to: Goals, st: State)
    requires WfTables(tab) && Valid(tab, st) && Reachable(tab, to) && Justified(tab, to, st)
    requires Rerun(tab, st).pure <= to.pure
    ensures Justified(tab, to, Rerun(tab, st))
    decreases Impure(tab, st), st.rerun
  {
    if st.rerun != {} && st.budget > 0 {
      var m := Least(st.rerun);
      assert m in tab.roots && m in UpTo(|tab.muxes|);
      var st1 := EvalRoot(tab, st, m);
      TrailRoot(tab, to, st, m);
      if st1.budget > 0 {
        RerunShrinks(tab, st);
        TrailRerun(tab, to, st1);
      }
    }
  }

  lemma TrailAll(tab: Tables, to: Goals, budget: nat)
    requires WfTables(tab) && Reachable(tab, to) && FinalState(tab, budget).pure <= to.pure
    ensures Justified(tab, to, FinalState(tab, budget))
  {
    var st0 := InitialState(tab, budget);
    var st1 := EvalRootsFrom(tab, st0, 0);
    TrailRootsFrom(tab, to, st0, 0);
    if st1.budget > 0 {
      TrailRerun(tab, to, st1);
    }
  }

  ghost function AllGoals(tab: Tables, pure: set<nat>): Goals
    requires WfTables(tab)
  {
    Goals(pure, iset e | Reaches(tab, pure, e), iset k | IsFar(tab, k))
  }

  lemma GoalsReachable(tab: Tables, pure: set<nat>)
    requires WfTables(tab)
    ensures Reachable(tab, AllGoals(tab, pure))
  {
    forall path: Trail | IsTrail(tab, path)
      ensures TrailEnds(tab, AllGoals(tab, pure), path)
    {
      assert path[0].0 in pure ==> Reaches(tab, pure, path[|path| - 1]);
      forall k: nat | Passed(tab.roots, path) == 3 && FeedsEnd(tab, path, k)
        ensures IsFar(tab, k)
      {
      }
    }
  }

  /** Every port enabled in the end has a trail from a root that is pure in the end. */
  lemma TrailFinal(tab: Tables, budget: nat)
    requires WfTables(tab)
    ensures forall e :: e in FinalState(tab, budget).enabled ==> Reaches(tab, FinalState(tab, budget).pure, e)
    ensures forall k :: k in FinalState(tab, budget).pure ==> k in tab.seen || IsFar(tab, k)
  {
    GoalsReachable(tab, FinalState(tab, budget).pure);
    TrailAll(tab, AllGoals(tab, FinalState(tab, budget).pure), budget);
  }

  // ---------------------------------------------------------------------------------------------
  // Trails through a module

  /** Some output bit of cell `k` is a data bit of port `p` of cell `m`. */
  predicate Drives(net: Netlist, k: nat, m: nat, p: nat) {
    && k < |net.muxes| && m < |net.muxes| && p < |net.muxes[m].data|
    && exists i :: 0 <= i < |net.muxes[k].out| && Wire(net.muxes[k].out[i]) in net.muxes[m].data[p]
  }

  /** A control, or something that is no multiplexer, reads the wire. */
  predicate ReadBy(net: Netlist, w: nat) {
    Wire(w) in net.taps || exists n :: 0 <= n < |net.muxes| && Wire(w) in net.muxes[n].ctrl
  }

  predicate ReadOutside(net: Netlist, k: nat) {
    k < |net.muxes| && exists i :: 0 <= i < |net.muxes[k].out| && ReadBy(net, net.muxes[k].out[i])
  }

  ghost predicate Shared(net: Netlist, k: nat) {
    exists m: nat, n: nat, p: nat, q: nat :: m < n && Drives(net, k, m, p) && Drives(net, k, n, q)
  }

  /** Roots are the cells read outside the data ports, or by the data ports of two cells. */
  ghost predicate Rooted(net: Netlist, k: nat) {
    ReadOutside(net, k) || Shared(net, k)
  }

  ghost predicate NetStep(net: Netlist, path: Trail, j: nat)
    requires j < |path|
  {
    var (m, p) := path[j];
    && m < |net.muxes| && p < |net.muxes[m].data| && Open(net.muxes, path[..j], net.muxes[m], p)
    && (j > 0 ==> !ReadOutside(net, m) && Drives(net, m, path[j - 1].0, path[j - 1].1))
  }

  ghost function RootsPassed(net: Netlist, path: Trail): set<nat> {
    set j: nat | 1 <= j < |path| && Rooted(net, path[j].0)
  }

  /** A trail from a root through cells that are read by data ports alone, with at most three more roots,
      each port being open after those followed before it. */
  ghost predicate NetTrail(net: Netlist, path: Trail) {
    && path != [] && Rooted(net, path[0].0) && |RootsPassed(net, path)| <= 3
    && forall j :: 0 <= j < |path| ==> NetStep(net, path, j)
  }

  lemma DrivesIsFeeds(net: Netlist, k: nat, m: nat)
    requires k < |net.muxes| && m < |net.muxes|
    ensures MuxTree.Feeds(net, k, m) <==> exists p: nat :: Drives(net, k, m, p)
  {
    forall p: nat | p < |net.muxes[m].data|
      ensures FeedsPort(net, k, m, p) <==> Drives(net, k, m, p)
    {
    }
    if p: nat :| Drives(net, k, m, p) {
      assert FeedsPort(net, k, m, p);
    }
  }

  lemma SharedIs(net: Netlist, k: nat)
    requires k < |net.muxes|
    ensures Shared(net, k) <==> exists m, n :: 0 <= m < n < |net.muxes| && MuxTree.Feeds(net, k, m) && MuxTree.Feeds(net, k, n)
  {
    if m: nat, n: nat, p: nat, q: nat :| m < n && Drives(net, k, m, p) && Drives(net, k, n, q) {
      DrivesIsFeeds(net, k, m);
      DrivesIsFeeds(net, k, n);
    }
    if m, n :| 0 <= m < n < |net.muxes| && MuxTree.Feeds(net, k, m) && MuxTree.Feeds(net, k, n) {
      DrivesIsFeeds(net, k, m);
      DrivesIsFeeds(net, k, n);
    }
  }

  /** The tables list the roots, and of these the cells read outside. */
  lemma RootsExact(net: Netlist, k: nat)
    requires WfMuxes(net)
    ensures k in Build(net).seen <==> ReadOutside(net, k)
    ensures k in Build(net).roots <==> Rooted(net, k)
  {
    if k < |net.muxes| {
      SharedIs(net, k);
      forall w: nat
        ensures ReadBy(net, w) <==> SeenByNonMux(net, w)
      {
      }
      assert ReadOutside(net, k) <==> SeenMux(net, k);
    }
  }

  lemma {:induction false} PassedCount(roots: set<nat>, path: Trail)
    ensures Passed(roots, path) == |set j: nat | 1 <= j < |path| && path[j].0 in roots|
  {
    var here := set j: nat | 1 <= j < |path| && path[j].0 in roots;
    if |path| <= 1 {
      assert here == {};
    } else {
      var n := |path| - 1;
      PassedCount(roots, path[..n]);
      var before := set j: nat | 1 <= j < n && path[..n][j].0 in roots;
      assert here == if path[n].0 in roots then before + {n} else before;
    }
  }

  lemma NetPassed(net: Netlist, path: Trail)
    requires WfMuxes(net)
    ensures Passed(Build(net).roots, path) == |RootsPassed(net, path)|
  {
    PassedCount(Build(net).roots, path);
    forall k: nat
      ensures k in Build(net).roots <==> Rooted(net, k)
    {
      RootsExact(net, k);
    }
    assert RootsPassed(net, path) == set j: nat | 1 <= j < |path| && path[j].0 in Build(net).roots;
  }

  lemma TrailInNet(net: Netlist, path: Trail)
    requires WfMuxes(net) && IsTrail(Build(net), path)
    ensures NetTrail(net, path)
  {
    NetPassed(net, path);
    RootsExact(net, path[0].0);
    forall j | 0 <= j < |path|
      ensures NetStep(net, path, j)
    {
      assert StepOk(Build(net), path, j);
      RootsExact(net, path[j].0);
    }
  }

  /** A trail ends at port `p` of cell `m`. */
  ghost predicate HasTrail(net: Netlist, m: nat, p: nat) {
    exists path: Trail :: NetTrail(net, path) && path[|path| - 1] == (m, p)
  }

  /** A port to which no trail leads is never enabled, so a run that completes deletes it. */
  lemma EnabledHasTrail(net: Netlist, budget: nat, m: nat, p: nat)
    requires WfMuxes(net) && (m, p) in FinalState(Build(net), budget).enabled
    ensures HasTrail(net, m, p)
  {
    var tab, pure := Build(net), FinalState(Build(net), budget).pure;
    TrailFinal(tab, budget);
    assert Reaches(tab, pure, (m, p));
    var path: Trail :| IsTrail(tab, path) && path[0].0 in pure && path[|path| - 1] == (m, p);
    TrailInNet(net, path);
  }

  lemma EndInNet(net: Netlist, path: Trail, k: nat)
    requires WfMuxes(net) && FeedsEnd(Build(net), path, k)
    ensures Drives(net, k, path[|path| - 1].0, path[|path| - 1].1)
  {
  }

  lemma FarInNet(net: Netlist, k: nat)
    requires WfMuxes(net) && IsFar(Build(net), k)
    ensures exists path: Trail :: NetTrail(net, path) && |RootsPassed(net, path)| == 3
                               && Drives(net, k, path[|path| - 1].0, path[|path| - 1].1)
  {
    var path: Trail := FarTrail(Build(net), k);
    TrailInNet(net, path);
    NetPassed(net, path);
    EndInNet(net, path, k);
  }

  lemma FarTrail(tab: Tables, k: nat) returns (path: Trail)
    requires WfTables(tab) && IsFar(tab, k)
    ensures IsTrail(tab, path) && Passed(tab.roots, path) == 3 && FeedsEnd(tab, path, k)
  {
    path :| IsTrail(tab, path) && Passed(tab.roots, path) == 3 && FeedsEnd(tab, path, k);
  }

  /** Evaluation enables ports from the roots read outside, and from those reached behind three others. */
  lemma PureReason(net: Netlist, budget: nat, k: nat)
    requires WfMuxes(net) && k in FinalState(Build(net), budget).pure && !ReadOutside(net, k)
    ensures exists path: Trail :: NetTrail(net, path) && |RootsPassed(net, path)| == 3
                               && Drives(net, k, path[|path| - 1].0, path[|path| - 1].1)
  {
    TrailFinal(Build(net), budget);
    RootsExact(net, k);
    FarInNet(net, k);
  }

  // ---------------------------------------------------------------------------------------------
  // A module in which nothing is left to remove

  predicate AllEnabled(net: Netlist, enabled: set<(nat, nat)>) {
    forall m: nat, p: nat :: m < |net.muxes| && p < |net.muxes[m].data| ==> (m, p) in enabled
  }

  /** Nothing is removed exactly when the evaluation was given up or every port is enabled. */
  lemma NothingRemoved(net: Netlist, budget: nat)
    requires WfMuxes(net)
    ensures var st := FinalState(Build(net), budget);
            Removed(net, budget) == 0 <==> st.budget == 0 || AllEnabled(net, st.enabled)
  {
    RemovedExact(net, budget);
    NoneDead(net.muxes, FinalState(Build(net), budget).enabled);
  }

  lemma NoneDead(muxes: seq<Mux>, enabled: set<(nat, nat)>)
    ensures |DeadPorts(muxes, enabled, |muxes|)| == 0
       <==> forall m: nat, p: nat :: m < |muxes| && p < |muxes[m].data| ==> (m, p) in enabled
  {
    var dead := DeadPorts(muxes, enabled, |muxes|);
    if m: nat, p: nat :| m < |muxes| && p < |muxes[m].data| && (m, p) !in enabled {
      assert (m, p) in dead;
    } else {
      assert dead == {};
    }
  }

  /** Unless its evaluation is given up, every port is enabled and has a trail. */
  ghost predicate Finished(net: Netlist, budget: nat) {
    && WfMuxes(net)
    && var st := FinalState(Build(net), budget);
       st.budget == 0
       || (AllEnabled(net, st.enabled)
           && forall m: nat, p: nat :: m < |net.muxes| && p < |net.muxes[m].data| ==> HasTrail(net, m, p))
  }

  lemma FinishedWhen(net: Netlist, budget: nat)
    requires WfMuxes(net) && Removed(net, budget) == 0
    ensures Finished(net, budget)
  {
    NothingRemoved(net, budget);
    var st := FinalState(Build(net), budget);
    if st.budget > 0 {
      forall m: nat, p: nat | m < |net.muxes| && p < |net.muxes[m].data|
        ensures HasTrail(net, m, p)
      {
        EnabledHasTrail(net, budget, m, p);
      }
    }
  }
}
