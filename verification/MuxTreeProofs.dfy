/** Why the mux-tree optimiser may delete the ports it did not enable and keep the constants it
    substituted. Everything is argued for one valuation `v` of the original netlist under which every
    multiplexer has at most one active control. */
module MuxTreeProofs {
  import opened MuxNetlist
  import opened MuxTree

  /** The port the multiplexer selects under `v`. */
  ghost function Selected(tab: Tables, v: Valuation, m: nat): (p: nat)
    requires WfTables(tab) && m < |tab.muxes|
    ensures p < |tab.muxes[m].data|
  {
    FirstActive(v, tab.muxes[m].ctrl)
  }

  ghost predicate KnowledgeHolds(v: Valuation, inactive: multiset<nat>, active: multiset<nat>) {
    && (forall w :: w in inactive ==> !v(w))
    && (forall w :: w in active ==> v(w))
  }

  lemma OnlySelectedActive(v: Valuation, x: Mux, s: nat)
    requires AtMostOneActive(v, x) && s < |x.ctrl|
    ensures Active(v, x.ctrl[s]) <==> s == FirstActive(v, x.ctrl)
  {
    var p := FirstActive(v, x.ctrl);
    if s < p { assert !Active(v, x.ctrl[s]); }
    if p < s { assert Active(v, x.ctrl[p]); }
  }

  /** Following the selected port only adds true knowledge. */
  lemma KnowledgeGrows(v: Valuation, x: Mux, inactive: multiset<nat>, active: multiset<nat>)
    requires WfMux(x) && AtMostOneActive(v, x) && KnowledgeHolds(v, inactive, active)
    ensures var p := FirstActive(v, x.ctrl);
            KnowledgeHolds(v, inactive + OtherControls(x, p, |x.data|), active + OwnControl(x, p))
  {
    var p := FirstActive(v, x.ctrl);
    var others := OtherControls(x, p, |x.data|);
    forall w | w in others
      ensures !v(w)
    {
      var s := OtherControlIs(x, p, |x.data|, w);
      OnlySelectedActive(v, x, s);
    }
  }

  /** With true knowledge, the selected port is among those followed. */
  lemma SelectedIsEvaluated(v: Valuation, x: Mux, inactive: multiset<nat>, active: multiset<nat>)
    requires WfMux(x) && AtMostOneActive(v, x) && KnowledgeHolds(v, inactive, active)
    ensures FirstActive(v, x.ctrl) in PortsToEval(x, inactive, active)
  {
    var p := FirstActive(v, x.ctrl);
    var c := FirstConstOn(x, 0);
    var k := FirstKnownActive(x, active, 0);
    if c < |x.ctrl| {
      OnlySelectedActive(v, x, c);
    } else if k < |x.ctrl| {
      OnlySelectedActive(v, x, k);
    } else {
      assert p in OpenPorts(x, inactive, 0);
    }
  }

  // ---------------------------------------------------------------------------------------------
  // Coverage: every multiplexer reached along selected ports has its selected port enabled

  /** `k` drives a bit of the port that `m` selects. */
  ghost predicate Follows(tab: Tables, v: Valuation, m: nat, k: nat)
    requires WfTables(tab)
  {
    m < |tab.muxes| && k < |tab.muxes| && k in tab.inputs[m][Selected(tab, v, m)]
  }

  /** A walk from the output of `path[0]` towards the inputs, through selected ports only. */
  ghost predicate IsPath(tab: Tables, v: Valuation, path: seq<nat>)
    requires WfTables(tab)
  {
    && |path| >= 1
    && AllBelow(path, |tab.muxes|)
    && forall i :: 0 <= i < |path| - 1 ==> Follows(tab, v, path[i], path[i + 1])
  }

  ghost predicate Avoids(path: seq<nat>, i: nat, s: set<nat>) {
    forall j :: i <= j < |path| ==> path[j] !in s
  }

  ghost predicate SelectionEnabled(tab: Tables, v: Valuation, st: State, m: nat)
    requires WfTables(tab) && m < |tab.muxes|
  {
    (m, Selected(tab, v, m)) in st.enabled
  }

  lemma PathSuffix(tab: Tables, v: Valuation, path: seq<nat>, i: nat)
    requires WfTables(tab) && IsPath(tab, v, path) && i < |path|
    ensures IsPath(tab, v, path[i..]) && path[i..][|path| - i - 1] == path[|path| - 1]
  {
    var q := path[i..];
    forall j | 0 <= j < |q| - 1
      ensures Follows(tab, v, q[j], q[j + 1])
    {
      assert Follows(tab, v, path[i + j], path[i + j + 1]);
    }
  }

  /** The last place at which a path meets `s`. */
  lemma LastMeeting(path: seq<nat>, s: set<nat>, n: nat) returns (i: nat)
    requires n < |path| && path[n] in s
    ensures n <= i < |path| && path[i] in s && Avoids(path, i + 1, s)
    decreases |path| - n
  {
    i := n;
    if j :| n < j < |path| && path[j] in s {
      i := LastMeeting(path, s, j);
    }
  }

  lemma {:induction false} CoverMux(tab: Tables, v: Valuation, st: State, inactive: multiset<nat>, active: multiset<nat>,
                                    visited: set<nat>, replace: bool, abort: nat, path: seq<nat>)
    requires WfTables(tab) && Valid(tab, st) && OneHot(v, tab.muxes) && KnowledgeHolds(v, inactive, active)
    requires IsPath(tab, v, path) && Avoids(path, 1, visited)
    requires var r := EvalMux(tab, st, inactive, active, visited, path[0], replace, true, abort);
             r.budget > 0 && Avoids(path, 1, r.pure)
    ensures var r := EvalMux(tab, st, inactive, active, visited, path[0], replace, true, abort);
            SelectionEnabled(tab, v, r, path[|path| - 1])
    decreases Unvisited(tab, visited), 3, 0
  {
    var m := path[0];
    var st1 := st.(budget := st.budget - 1);
    var st2 := if replace then ReplaceKnown(tab, st1, inactive, active, m) else st1;
    SelectedIsEvaluated(v, tab.muxes[m], inactive, active);
    CoverPorts(tab, v, st2, inactive, active, visited, PortsToEval(tab.muxes[m], inactive, active), replace, abort, path);
  }

  lemma {:induction false} CoverPorts(tab: Tables, v: Valuation, st: State, inactive: multiset<nat>, active: multiset<nat>,
                                      visited: set<nat>, ports: seq<nat>, replace: bool, abort: nat, path: seq<nat>)
    requires WfTables(tab) && Valid(tab, st) && OneHot(v, tab.muxes) && KnowledgeHolds(v, inactive, active)
    requires IsPath(tab, v, path) && Avoids(path, 1, visited)
    requires AllBelow(ports, |tab.muxes[path[0]].data|) && Selected(tab, v, path[0]) in ports
    requires var r := EvalPorts(tab, st, inactive, active, visited, path[0], ports, replace, true, abort);
             r.budget > 0 && Avoids(path, 1, r.pure)
    ensures var r := EvalPorts(tab, st, inactive, active, visited, path[0], ports, replace, true, abort);
            SelectionEnabled(tab, v, r, path[|path| - 1])
    decreases Unvisited(tab, visited), 2, |ports|
  {
    var st1 := EvalPort(tab, st, inactive, active, visited, path[0], ports[0], replace, true, abort);
    if ports[0] == Selected(tab, v, path[0]) {
      CoverPort(tab, v, st, inactive, active, visited, replace, abort, path);
    } else {
      CoverPorts(tab, v, st1, inactive, active, visited, ports[1..], replace, abort, path);
    }
  }

  lemma {:induction false} CoverPort(tab: Tables, v: Valuation, st: State, inactive: multiset<nat>, active: multiset<nat>,
                                     visited: set<nat>, replace: bool, abort: nat, path: seq<nat>)
    requires WfTables(tab) && Valid(tab, st) && OneHot(v, tab.muxes) && KnowledgeHolds(v, inactive, active)
    requires IsPath(tab, v, path) && Avoids(path, 1, visited)
    requires var r := EvalPort(tab, st, inactive, active, visited, path[0], Selected(tab, v, path[0]), replace, true, abort);
             r.budget > 0 && Avoids(path, 1, r.pure)
    ensures var r := EvalPort(tab, st, inactive, active, visited, path[0], Selected(tab, v, path[0]), replace, true, abort);
            SelectionEnabled(tab, v, r, path[|path| - 1])
    decreases Unvisited(tab, visited), 1, 0
  {
    var m, p := path[0], Selected(tab, v, path[0]);
    var x := tab.muxes[m];
    var ks := NotVisited(tab.inputs[m][p], visited);
    var st1 := st.(enabled := st.enabled + {(m, p)});
    if |path| > 1 {
      assert Follows(tab, v, path[0], path[1]);
      assert path[1] in ks;
      UnvisitedShrinks(tab, visited, tab.inputs[m][p]);
      var i := LastMeeting(path, Members(ks), 1);
      PathSuffix(tab, v, path, i);
      KnowledgeGrows(v, x, inactive, active);
      CoverParents(tab, v, st1, inactive + OtherControls(x, p, |x.data|), active + OwnControl(x, p),
                   visited + Members(ks), ks, replace, abort, path[i..]);
    }
  }

  lemma {:induction false} CoverParents(tab: Tables, v: Valuation, st: State, inactive: multiset<nat>, active: multiset<nat>,
                                        visited: set<nat>, ks: seq<nat>, replace: bool, abort: nat, path: seq<nat>)
    requires WfTables(tab) && Valid(tab, st) && OneHot(v, tab.muxes) && KnowledgeHolds(v, inactive, active)
    requires IsPath(tab, v, path) && Avoids(path, 1, visited)
    requires AllBelow(ks, |tab.muxes|) && path[0] in ks
    requires var r := EvalParents(tab, st, inactive, active, visited, ks, replace, true, abort);
             r.budget > 0 && Avoids(path, 0, r.pure)
    ensures var r := EvalParents(tab, st, inactive, active, visited, ks, replace, true, abort);
            SelectionEnabled(tab, v, r, path[|path| - 1])
    decreases Unvisited(tab, visited), 4, |ks|
  {
    var st1 := EvalParent(tab, st, inactive, active, visited, ks[0], replace, true, abort);
    var r := EvalParents(tab, st1, inactive, active, visited, ks[1..], replace, true, abort);
    if ks[0] == path[0] {
      assert path[0] !in st1.pure;
      if ks[0] in tab.roots {
        CoverMux(tab, v, st, inactive, active, visited, false, abort - 1, path);
      } else {
        CoverMux(tab, v, st, inactive, active, visited, replace, abort, path);
      }
    } else {
      CoverParents(tab, v, st1, inactive, active, visited, ks[1..], replace, abort, path);
    }
  }

  /** Every path from `m` that stays out of the pure roots has been followed with enabling on. */
  ghost predicate CoveredFrom(tab: Tables, v: Valuation, st: State, m: nat)
    requires WfTables(tab)
  {
    forall path :: IsPath(tab, v, path) && path[0] == m && Avoids(path, 1, st.pure)
      ==> SelectionEnabled(tab, v, st, path[|path| - 1])
  }

  /** Pure roots below `n` that are not waiting to be evaluated again are covered. */
  ghost predicate RootsCovered(tab: Tables, v: Valuation, st: State, n: nat)
    requires WfTables(tab)
  {
    forall m :: m in st.pure && m !in st.rerun && m < n ==> CoveredFrom(tab, v, st, m)
  }

  /** Evaluating root `m` covers it and uncovers nothing. */
  lemma CoverRoot(tab: Tables, v: Valuation, st: State, m: nat, n: nat)
    requires WfTables(tab) && Valid(tab, st) && OneHot(v, tab.muxes) && m < |tab.muxes|
    requires RootsCovered(tab, v, st, if n == m + 1 then m else n)
    requires m < n && EvalRoot(tab, st, m).budget > 0
    ensures RootsCovered(tab, v, EvalRoot(tab, st, m), n)
  {
    var st1 := st.(rerun := st.rerun - {m});
    var r := EvalRoot(tab, st, m);
    forall k, path | k in r.pure && k !in r.rerun && k < n
                     && IsPath(tab, v, path) && path[0] == k && Avoids(path, 1, r.pure)
      ensures SelectionEnabled(tab, v, r, path[|path| - 1])
    {
      if k == m {
        assert m in st.pure;
        assert Avoids(path, 1, {m});
        CoverMux(tab, v, st1, multiset{}, multiset{}, {m}, true, ABORT_DEPTH, path);
      } else {
        assert CoveredFrom(tab, v, st, k);
        assert Avoids(path, 1, st.pure);
      }
    }
  }

  lemma {:induction false} CoverRootsFrom(tab: Tables, v: Valuation, st: State, m: nat)
    requires WfTables(tab) && Valid(tab, st) && OneHot(v, tab.muxes) && m <= |tab.muxes|
    requires RootsCovered(tab, v, st, m)
    requires EvalRootsFrom(tab, st, m).budget > 0
    ensures RootsCovered(tab, v, EvalRootsFrom(tab, st, m), |tab.muxes|)
    decreases |tab.muxes| - m
  {
    if m < |tab.muxes| {
      if m in tab.roots {
        var st1 := EvalRoot(tab, st, m);
        assert EvalRootsFrom(tab, st, m) == if st1.budget == 0 then st1 else EvalRootsFrom(tab, st1, m + 1);
        CoverRoot(tab, v, st, m, m + 1);
        CoverRootsFrom(tab, v, st1, m + 1);
      } else {
        SkipNonRoot(tab, v, st, m);
        CoverRootsFrom(tab, v, st, m + 1);
      }
    }
  }

  lemma SkipNonRoot(tab: Tables, v: Valuation, st: State, m: nat)
    requires WfTables(tab) && Valid(tab, st) && m < |tab.muxes| && m !in tab.roots
    requires RootsCovered(tab, v, st, m)
    ensures RootsCovered(tab, v, st, m + 1)
  {
    assert m !in st.pure;
  }

  lemma {:induction false} CoverRerun(tab: Tables, v: Valuation, st: State)
    requires WfTables(tab) && Valid(tab, st) && OneHot(v, tab.muxes)
    requires RootsCovered(tab, v, st, |tab.muxes|)
    requires Rerun(tab, st).budget > 0
    ensures RootsCovered(tab, v, Rerun(tab, st), |tab.muxes|)
    decreases Impure(tab, st), st.rerun
  {
    if st.rerun != {} {
      var m := Least(st.rerun);
      var st1 := EvalRoot(tab, st, m);
      assert Rerun(tab, st) == if st1.budget == 0 then st1 else Rerun(tab, st1);
      RerunShrinks(tab, st);
      CoverRoot(tab, v, st, m, |tab.muxes|);
      CoverRerun(tab, v, st1);
    }
  }

  /** When the evaluation completes, every pure root is covered. */
  lemma FinalCovered(tab: Tables, v: Valuation, budget: nat)
    requires WfTables(tab) && OneHot(v, tab.muxes)
    requires FinalState(tab, budget).budget > 0
    ensures var st := FinalState(tab, budget);
            st.rerun == {} && forall m :: m in st.pure ==> CoveredFrom(tab, v, st, m)
  {
    var st0 := InitialState(tab, budget);
    CoverRootsFrom(tab, v, st0, 0);
    CoverRerun(tab, v, EvalRootsFrom(tab, st0, 0));
  }

  // ---------------------------------------------------------------------------------------------
  // Multiplexers whose value can matter

  /** Some pure root reaches `k` through selected ports. */
  ghost predicate Reached(tab: Tables, v: Valuation, pure: set<nat>, k: nat)
    requires WfTables(tab)
  {
    exists path :: IsPath(tab, v, path) && path[0] in pure && path[|path| - 1] == k
  }

  lemma ReachedStep(tab: Tables, v: Valuation, pure: set<nat>, m: nat, k: nat)
    requires WfTables(tab) && Reached(tab, v, pure, m) && Follows(tab, v, m, k)
    ensures Reached(tab, v, pure, k)
  {
    var path :| IsPath(tab, v, path) && path[0] in pure && path[|path| - 1] == m;
    var q := path + [k];
    assert forall i :: 0 <= i < |path| - 1 ==> Follows(tab, v, path[i], path[i + 1]);
    assert forall i :: 0 <= i < |q| - 1 ==> Follows(tab, v, q[i], q[i + 1]);
    assert IsPath(tab, v, q);
  }

  /** A reached multiplexer is pure or fed from the selected port of another reached one. */
  lemma ReachedPredecessor(tab: Tables, v: Valuation, pure: set<nat>, k: nat) returns (m: nat)
    requires WfTables(tab) && Reached(tab, v, pure, k) && k !in pure
    ensures Reached(tab, v, pure, m) && Follows(tab, v, m, k)
  {
    var path :| IsPath(tab, v, path) && path[0] in pure && path[|path| - 1] == k;
    var n := |path| - 1;
    m := path[n - 1];
    var q := path[..n];
    assert Follows(tab, v, path[n - 1], path[n]);
    assert IsPath(tab, v, q) && q[|q| - 1] == m;
  }

  /** Every reached multiplexer has its selected port enabled. */
  lemma ReachedEnabled(tab: Tables, v: Valuation, st: State, k: nat)
    requires WfTables(tab) && k < |tab.muxes|
    requires forall m :: m in st.pure ==> CoveredFrom(tab, v, st, m)
    requires Reached(tab, v, st.pure, k)
    ensures SelectionEnabled(tab, v, st, k)
  {
    var path :| IsPath(tab, v, path) && path[0] in st.pure && path[|path| - 1] == k;
    var i := LastMeeting(path, st.pure, 0);
    PathSuffix(tab, v, path, i);
    assert CoveredFrom(tab, v, st, path[i]);
    assert Avoids(path[i..], 1, st.pure);
  }

  // ---------------------------------------------------------------------------------------------
  // Substituted constants have the value the bit has wherever it matters

  /** Multiplexer `k`, not a root, feeds port `p` of multiplexer `m`. */
  ghost predicate UsesAt(tab: Tables, k: nat, m: nat, p: nat)
    requires WfTables(tab)
  {
    k < |tab.muxes| && k !in tab.roots && m < |tab.muxes| && p < |tab.muxes[m].data| && k in tab.inputs[m][p]
  }

  /** A multiplexer that is not a root feeds one port of one multiplexer. */
  ghost predicate SingleUse(tab: Tables)
    requires WfTables(tab)
  {
    forall k: nat, m: nat, p: nat, n: nat, q: nat :: UsesAt(tab, k, m, p) && UsesAt(tab, k, n, q) ==> m == n && p == q
  }

  /** Port `p` is selected by some assignment with at most one active control. */
  predicate Selectable(x: Mux, p: nat) {
    && p < |x.ctrl|
    && (x.ctrl[p].Wire? || x.ctrl[p] == One)
    && forall s :: 0 <= s < |x.ctrl| && s != p ==> x.ctrl[s] != One && x.ctrl[s] != x.ctrl[p]
  }

  /** A control of the cell that occurs in data port `p` is interned under number `p` exactly when it
      is the control of port `p`. Holds when the controls of the cell are pairwise distinct and at
      most one of them is a constant. */
  ghost predicate Aligned(x: Mux)
    requires WfMux(x)
  {
    forall p, i :: (0 <= p < |x.ctrl| && 0 <= i < |x.out| && Selectable(x, p)
                    && x.data[p][i].Wire? && x.data[p][i].id in Keys(x.ctrl))
      ==> (IndexOf(Keys(x.ctrl), x.data[p][i].id) == p <==> x.ctrl[p] == x.data[p][i])
  }

  lemma SelectedIsSelectable(v: Valuation, x: Mux)
    requires AtMostOneActive(v, x) && FirstActive(v, x.ctrl) < |x.ctrl|
    ensures Selectable(x, FirstActive(v, x.ctrl))
  {
    var p := FirstActive(v, x.ctrl);
    forall s | 0 <= s < |x.ctrl| && s != p
      ensures x.ctrl[s] != One && x.ctrl[s] != x.ctrl[p]
    {
      OnlySelectedActive(v, x, s);
    }
  }

  ghost predicate AllAligned(tab: Tables)
    requires WfTables(tab)
  {
    forall m :: 0 <= m < |tab.muxes| ==> Aligned(tab.muxes[m])
  }

  /** Each data bit is the original one or a constant. */
  ghost predicate DataRefines(muxes: seq<Mux>, st: State)
    requires Shaped(muxes, st)
  {
    forall m, p, i :: 0 <= m < |muxes| && 0 <= p < |muxes[m].data| && 0 <= i < |muxes[m].data[p]|
      ==> var b := st.data[m][p][i]; b == muxes[m].data[p][i] || b == Zero || b == One
  }

  /** The selected data bits of the multiplexers in `act` still have their values. */
  ghost predicate DataHolds(tab: Tables, env: Env, v: Valuation, act: set<nat>, st: State)
    requires WfTables(tab) && Valid(tab, st)
  {
    forall m, i :: m in act && m < |tab.muxes| && 0 <= i < |tab.muxes[m].out|
      ==> var p := Selected(tab, v, m);
          Value(env, v, st.data[m][p][i]) == Value(env, v, tab.muxes[m].data[p][i])
  }

  /** If `act` holds a multiplexer that is not a root, it holds every multiplexer that one feeds, and
      they select it. */
  ghost predicate BackClosed(tab: Tables, v: Valuation, act: set<nat>)
    requires WfTables(tab)
  {
    forall k: nat, m: nat, p: nat :: (k in act && k < |tab.muxes| && k !in tab.roots
                       && m < |tab.muxes| && p < |tab.muxes[m].data| && k in tab.inputs[m][p])
      ==> m in act && p == Selected(tab, v, m)
  }

  lemma OwnControlValue(v: Valuation, x: Mux, b: Bit)
    requires WfMux(x) && AtMostOneActive(v, x) && b.Wire? && b.id in Keys(x.ctrl)
    ensures var p := FirstActive(v, x.ctrl); v(b.id) <==> p < |x.ctrl| && x.ctrl[p] == b
  {
    var s :| 0 <= s < |x.ctrl| && Key(x.ctrl[s]) == b.id;
    OnlySelectedActive(v, x, s);
  }

  lemma ReplaceBitHolds(env: Env, v: Valuation, x: Mux, inactive: multiset<nat>, active: multiset<nat>, b: Bit)
    requires WfMux(x) && AtMostOneActive(v, x) && KnowledgeHolds(v, inactive, active)
    requires var p := FirstActive(v, x.ctrl);
             p < |x.ctrl| && b.Wire? && b.id in Keys(x.ctrl)
             ==> (IndexOf(Keys(x.ctrl), b.id) == p <==> x.ctrl[p] == b)
    ensures Value(env, v, ReplaceBit(x.ctrl, inactive, active, FirstActive(v, x.ctrl), b)) == Value(env, v, b)
  {
    if b.Wire? && b.id in Keys(x.ctrl) {
      OwnControlValue(v, x, b);
    }
  }

  lemma ReplaceHolds(tab: Tables, env: Env, v: Valuation, act: set<nat>, st: State,
                     inactive: multiset<nat>, active: multiset<nat>, m: nat)
    requires WfTables(tab) && Valid(tab, st) && OneHot(v, tab.muxes) && AllAligned(tab) && m < |tab.muxes|
    requires DataRefines(tab.muxes, st) && DataHolds(tab, env, v, act, st)
    requires m in act ==> KnowledgeHolds(v, inactive, active)
    ensures var r := ReplaceKnown(tab, st, inactive, active, m);
            DataRefines(tab.muxes, r) && DataHolds(tab, env, v, act, r)
  {
    var x := tab.muxes[m];
    var r := ReplaceKnown(tab, st, inactive, active, m);
    var p := Selected(tab, v, m);
    if m in act {
      forall i | 0 <= i < |x.out|
        ensures Value(env, v, r.data[m][p][i]) == Value(env, v, x.data[p][i])
      {
        assert Aligned(x);
        if p < |x.ctrl| {
          SelectedIsSelectable(v, x);
        }
        ReplaceBitHolds(env, v, x, inactive, active, st.data[m][p][i]);
      }
    }
  }

  lemma {:induction false} HoldsMux(tab: Tables, env: Env, v: Valuation, act: set<nat>, st: State,
                                    inactive: multiset<nat>, active: multiset<nat>, visited: set<nat>,
                                    m: nat, replace: bool, enable: bool, abort: nat)
    requires WfTables(tab) && Valid(tab, st) && OneHot(v, tab.muxes) && AllAligned(tab) && BackClosed(tab, v, act)
    requires DataRefines(tab.muxes, st) && DataHolds(tab, env, v, act, st)
    requires m < |tab.muxes|
    requires replace && m in act ==> KnowledgeHolds(v, inactive, active)
    ensures var r := EvalMux(tab, st, inactive, active, visited, m, replace, enable, abort);
            DataRefines(tab.muxes, r) && DataHolds(tab, env, v, act, r)
    decreases Unvisited(tab, visited), 3, 0
  {
    if st.budget > 0 {
      var st1 := st.(budget := st.budget - 1);
      if replace {
        ReplaceHolds(tab, env, v, act, st1, inactive, active, m);
      }
      var st2 := if replace then ReplaceKnown(tab, st1, inactive, active, m) else st1;
      HoldsPorts(tab, env, v, act, st2, inactive, active, visited, m,
                 PortsToEval(tab.muxes[m], inactive, active), replace, enable, abort);
    }
  }

  lemma {:induction false} HoldsPorts(tab: Tables, env: Env, v: Valuation, act: set<nat>, st: State,
                                      inactive: multiset<nat>, active: multiset<nat>, visited: set<nat>,
                                      m: nat, ports: seq<nat>, replace: bool, enable: bool, abort: nat)
    requires WfTables(tab) && Valid(tab, st) && OneHot(v, tab.muxes) && AllAligned(tab) && BackClosed(tab, v, act)
    requires DataRefines(tab.muxes, st) && DataHolds(tab, env, v, act, st)
    requires m < |tab.muxes| && AllBelow(ports, |tab.muxes[m].data|)
    requires replace && m in act ==> KnowledgeHolds(v, inactive, active)
    ensures var r := EvalPorts(tab, st, inactive, active, visited, m, ports, replace, enable, abort);
            DataRefines(tab.muxes, r) && DataHolds(tab, env, v, act, r)
    decreases Unvisited(tab, visited), 2, |ports|
  {
    if ports != [] {
      HoldsPort(tab, env, v, act, st, inactive, active, visited, m, ports[0], replace, enable, abort);
      var st1 := EvalPort(tab, st, inactive, active, visited, m, ports[0], replace, enable, abort);
      HoldsPorts(tab, env, v, act, st1, inactive, active, visited, m, ports[1..], replace, enable, abort);
    }
  }

  lemma {:induction false} HoldsPort(tab: Tables, env: Env, v: Valuation, act: set<nat>, st: State,
                                     inactive: multiset<nat>, active: multiset<nat>, visited: set<nat>,
                                     m: nat, p: nat, replace: bool, enable: bool, abort: nat)
    requires WfTables(tab) && Valid(tab, st) && OneHot(v, tab.muxes) && AllAligned(tab) && BackClosed(tab, v, act)
    requires DataRefines(tab.muxes, st) && DataHolds(tab, env, v, act, st)
    requires m < |tab.muxes| && p < |tab.muxes[m].data|
    requires replace && m in act ==> KnowledgeHolds(v, inactive, active)
    ensures var r := EvalPort(tab, st, inactive, active, visited, m, p, replace, enable, abort);
            DataRefines(tab.muxes, r) && DataHolds(tab, env, v, act, r)
    decreases Unvisited(tab, visited), 1, 0
  {
    if st.budget > 0 {
      var x := tab.muxes[m];
      var ks := NotVisited(tab.inputs[m][p], visited);
      var st1 := if enable then st.(enabled := st.enabled + {(m, p)}) else st;
      if ks != [] {
        UnvisitedShrinks(tab, visited, tab.inputs[m][p]);
        var inactive1 := inactive + OtherControls(x, p, |x.data|);
        var active1 := active + OwnControl(x, p);
        if k :| replace && k in ks && k !in tab.roots && k in act {
          assert m in act && p == Selected(tab, v, m);
          KnowledgeGrows(v, x, inactive, active);
        }
        HoldsParents(tab, env, v, act, st1, inactive1, active1, visited + Members(ks), ks, replace, enable, abort);
      }
    }
  }

  lemma {:induction false} HoldsParents(tab: Tables, env: Env, v: Valuation, act: set<nat>, st: State,
                                        inactive: multiset<nat>, active: multiset<nat>, visited: set<nat>,
                                        ks: seq<nat>, replace: bool, enable: bool, abort: nat)
    requires WfTables(tab) && Valid(tab, st) && OneHot(v, tab.muxes) && AllAligned(tab) && BackClosed(tab, v, act)
    requires DataRefines(tab.muxes, st) && DataHolds(tab, env, v, act, st)
    requires AllBelow(ks, |tab.muxes|)
    requires replace ==> forall k :: k in ks && k !in tab.roots && k in act ==> KnowledgeHolds(v, inactive, active)
    ensures var r := EvalParents(tab, st, inactive, active, visited, ks, replace, enable, abort);
            DataRefines(tab.muxes, r) && DataHolds(tab, env, v, act, r)
    decreases Unvisited(tab, visited), 4, |ks|
  {
    if ks != [] && st.budget > 0 {
      var st1 := EvalParent(tab, st, inactive, active, visited, ks[0], replace, enable, abort);
      HoldsParent(tab, env, v, act, st, inactive, active, visited, ks[0], replace, enable, abort);
      HoldsParents(tab, env, v, act, st1, inactive, active, visited, ks[1..], replace, enable, abort);
    }
  }

  lemma {:induction false} HoldsParent(tab: Tables, env: Env, v: Valuation, act: set<nat>, st: State,
                                       inactive: multiset<nat>, active: multiset<nat>, visited: set<nat>,
                                       k: nat, replace: bool, enable: bool, abort: nat)
    requires WfTables(tab) && Valid(tab, st) && OneHot(v, tab.muxes) && AllAligned(tab) && BackClosed(tab, v, act)
    requires DataRefines(tab.muxes, st) && DataHolds(tab, env, v, act, st)
    requires k < |tab.muxes|
    requires replace && k !in tab.roots && k in act ==> KnowledgeHolds(v, inactive, active)
    ensures var r := EvalParent(tab, st, inactive, active, visited, k, replace, enable, abort);
            DataRefines(tab.muxes, r) && DataHolds(tab, env, v, act, r)
    decreases Unvisited(tab, visited), 4, 0
  {
    if k !in st.pure && !(k in tab.roots && abort == 0) {
      if k in tab.roots {
        HoldsMux(tab, env, v, act, st, inactive, active, visited, k, false, enable, abort - 1);
      } else {
        HoldsMux(tab, env, v, act, st, inactive, active, visited, k, replace, enable, abort);
      }
    }
  }

  lemma HoldsRoot(tab: Tables, env: Env, v: Valuation, act: set<nat>, st: State, m: nat)
    requires WfTables(tab) && Valid(tab, st) && OneHot(v, tab.muxes) && AllAligned(tab) && BackClosed(tab, v, act)
    requires DataRefines(tab.muxes, st) && DataHolds(tab, env, v, act, st) && m < |tab.muxes|
    ensures DataRefines(tab.muxes, EvalRoot(tab, st, m)) && DataHolds(tab, env, v, act, EvalRoot(tab, st, m))
  {
    var st1 := st.(rerun := st.rerun - {m});
    HoldsMux(tab, env, v, act, st1, multiset{}, multiset{}, {m}, m, true, m in st.pure, ABORT_DEPTH);
  }

  lemma {:induction false} HoldsRootsFrom(tab: Tables, env: Env, v: Valuation, act: set<nat>, st: State, m: nat)
    requires WfTables(tab) && Valid(tab, st) && OneHot(v, tab.muxes) && AllAligned(tab) && BackClosed(tab, v, act)
    requires DataRefines(tab.muxes, st) && DataHolds(tab, env, v, act, st) && m <= |tab.muxes|
    ensures var r := EvalRootsFrom(tab, st, m); DataRefines(tab.muxes, r) && DataHolds(tab, env, v, act, r)
    decreases |tab.muxes| - m
  {
    if m < |tab.muxes| {
      if m !in tab.roots {
        HoldsRootsFrom(tab, env, v, act, st, m + 1);
      } else {
        HoldsRoot(tab, env, v, act, st, m);
        if EvalRoot(tab, st, m).budget > 0 {
          HoldsRootsFrom(tab, env, v, act, EvalRoot(tab, st, m), m + 1);
        }
      }
    }
  }

  lemma {:induction false} HoldsRerun(tab: Tables, env: Env, v: Valuation, act: set<nat>, st: State)
    requires WfTables(tab) && Valid(tab, st) && OneHot(v, tab.muxes) && AllAligned(tab) && BackClosed(tab, v, act)
    requires DataRefines(tab.muxes, st) && DataHolds(tab, env, v, act, st)
    ensures var r := Rerun(tab, st); DataRefines(tab.muxes, r) && DataHolds(tab, env, v, act, r)
    decreases Impure(tab, st), st.rerun
  {
    if st.rerun != {} && st.budget > 0 {
      var m := Least(st.rerun);
      var st1 := EvalRoot(tab, st, m);
      HoldsRoot(tab, env, v, act, st, m);
      if st1.budget > 0 {
        RerunShrinks(tab, st);
        HoldsRerun(tab, env, v, act, st1);
      }
    }
  }

  /** Whatever back-closed set of multiplexers can matter, substitution kept their selected bits. */
  lemma FinalHolds(tab: Tables, env: Env, v: Valuation, act: set<nat>, budget: nat)
    requires WfTables(tab) && OneHot(v, tab.muxes) && AllAligned(tab) && BackClosed(tab, v, act)
    ensures var st := FinalState(tab, budget); DataRefines(tab.muxes, st) && DataHolds(tab, env, v, act, st)
  {
    var st0 := InitialState(tab, budget);
    HoldsRootsFrom(tab, env, v, act, st0, 0);
    var st1 := EvalRootsFrom(tab, st0, 0);
    if st1.budget > 0 {
      HoldsRerun(tab, env, v, act, st1);
    }
  }
}
