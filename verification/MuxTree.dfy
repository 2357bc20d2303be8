/** What the mux-tree optimiser works out about a netlist, as functions.

    `Worker` (MuxTreeWorker.dfy) updates these values in place; its methods are proved equal to the
    functions here, and MuxTreeProofs.dfy proves what the functions promise. */
module MuxTree {
  import opened MuxNetlist
  import opened Flatten

  // ---------------------------------------------------------------------------------------------
  // Tables built before the evaluation

  predicate ConstOn(x: Mux, p: nat) {
    p < |x.ctrl| && x.ctrl[p] == One
  }

  predicate ConstOff(x: Mux, p: nat) {
    p < |x.ctrl| && (x.ctrl[p] == Zero || x.ctrl[p] == Undef)
  }

  /** Some output bit of multiplexer `k` is a data bit of port `p` of multiplexer `m`. */
  predicate FeedsPort(net: Netlist, k: nat, m: nat, p: nat)
    requires k < |net.muxes| && m < |net.muxes| && p < |net.muxes[m].data|
  {
    exists i :: 0 <= i < |net.muxes[k].out| && Wire(net.muxes[k].out[i]) in net.muxes[m].data[p]
  }

  predicate Feeds(net: Netlist, k: nat, m: nat)
    requires k < |net.muxes| && m < |net.muxes|
  {
    exists p :: 0 <= p < |net.muxes[m].data| && FeedsPort(net, k, m, p)
  }

  predicate AllBelow(ks: seq<nat>, n: nat) {
    forall j :: 0 <= j < |ks| ==> ks[j] < n
  }

  function UpTo(n: nat): (s: set<nat>)
    ensures forall k: nat :: k in s <==> k < n
  {
    if n == 0 then {} else UpTo(n - 1) + {n - 1}
  }

  function FeedersUpTo(net: Netlist, m: nat, p: nat, n: nat): (ks: seq<nat>)
    requires m < |net.muxes| && p < |net.muxes[m].data| && n <= |net.muxes|
    ensures forall k: nat :: k in ks <==> k < n && FeedsPort(net, k, m, p)
    ensures AllBelow(ks, n)
  {
    if n == 0 then []
    else if FeedsPort(net, n - 1, m, p) then FeedersUpTo(net, m, p, n - 1) + [n - 1]
    else FeedersUpTo(net, m, p, n - 1)
  }

  /** The multiplexers that drive a data bit of port `p` of multiplexer `m`. */
  function InputMuxes(net: Netlist, m: nat, p: nat): (ks: seq<nat>)
    requires m < |net.muxes| && p < |net.muxes[m].data|
    ensures forall k: nat :: k in ks <==> k < |net.muxes| && FeedsPort(net, k, m, p)
    ensures AllBelow(ks, |net.muxes|)
  {
    FeedersUpTo(net, m, p, |net.muxes|)
  }

  /** The bit is read by something other than a data port of a multiplexer. */
  predicate SeenByNonMux(net: Netlist, w: nat) {
    || Wire(w) in net.taps
    || exists m :: 0 <= m < |net.muxes| && Wire(w) in net.muxes[m].ctrl
  }

  predicate SeenMux(net: Netlist, m: nat)
    requires m < |net.muxes|
  {
    exists i :: 0 <= i < |net.muxes[m].out| && SeenByNonMux(net, net.muxes[m].out[i])
  }

  /** Roots of mux trees: seen by something else, or used by more than one multiplexer. */
  predicate IsRoot(net: Netlist, k: nat)
    requires k < |net.muxes|
  {
    || SeenMux(net, k)
    || exists m, n :: 0 <= m < n < |net.muxes| && Feeds(net, k, m) && Feeds(net, k, n)
  }

  /** What the constructor stores: the feeders of every port, the roots, and the roots seen outside. */
  datatype Tables = Tables(muxes: seq<Mux>, inputs: seq<seq<seq<nat>>>, roots: set<nat>, seen: set<nat>)

  predicate WfTables(tab: Tables) {
    && (forall m :: 0 <= m < |tab.muxes| ==> WfMux(tab.muxes[m]))
    && |tab.inputs| == |tab.muxes|
    && (forall m :: 0 <= m < |tab.muxes| ==> |tab.inputs[m]| == |tab.muxes[m].data|)
    && (forall m, p :: 0 <= m < |tab.muxes| && 0 <= p < |tab.inputs[m]| ==> AllBelow(tab.inputs[m][p], |tab.muxes|))
    && tab.roots <= UpTo(|tab.muxes|)
    && tab.seen <= tab.roots
  }

  predicate WfMuxes(net: Netlist) {
    forall m :: 0 <= m < |net.muxes| ==> WfMux(net.muxes[m])
  }

  function Build(net: Netlist): (tab: Tables)
    requires WfMuxes(net)
    ensures WfTables(tab) && tab.muxes == net.muxes
  {
    var all := UpTo(|net.muxes|);
    Tables(net.muxes,
           seq(|net.muxes|, m requires 0 <= m < |net.muxes| =>
             seq(|net.muxes[m].data|, p requires 0 <= p < |net.muxes[m].data| => InputMuxes(net, m, p))),
           set m | m in all && IsRoot(net, m),
           set m | m in all && SeenMux(net, m))
  }

  // ---------------------------------------------------------------------------------------------
  // Evaluation state

  /** `data`: the data ports of each cell, with known bits replaced so far.
      `enabled`: the ports found selectable. `pure`: the roots evaluated with enabling on.
      `rerun`: roots that became pure and await another evaluation. `budget`: evaluations left. */
  datatype State = State(data: seq<seq<seq<Bit>>>, enabled: set<(nat, nat)>, pure: set<nat>,
                         rerun: set<nat>, budget: nat)

  predicate SameShape(xs: seq<seq<Bit>>, ys: seq<seq<Bit>>) {
    |xs| == |ys| && forall p :: 0 <= p < |xs| ==> |xs[p]| == |ys[p]|
  }

  predicate Shaped(muxes: seq<Mux>, st: State) {
    && |st.data| == |muxes|
    && (forall m :: 0 <= m < |muxes| ==> SameShape(st.data[m], muxes[m].data))
  }

  predicate Valid(tab: Tables, st: State) {
    Shaped(tab.muxes, st) && st.rerun <= st.pure <= tab.roots
  }

  /** Each bit is the old one or a constant. */
  ghost predicate Constants(before: seq<seq<seq<Bit>>>, after: seq<seq<seq<Bit>>>) {
    && |before| == |after|
    && forall m, p, i :: 0 <= m < |before| && 0 <= p < |before[m]| && 0 <= i < |before[m][p]| && p < |after[m]| && i < |after[m][p]|
         ==> after[m][p][i] == before[m][p][i] || after[m][p][i] == Zero || after[m][p][i] == One
  }

  /** `r` comes later than `st` in one run. */
  ghost predicate Grows(st: State, r: State) {
    && st.enabled <= r.enabled
    && st.pure <= r.pure
    && r.rerun == st.rerun + (r.pure - st.pure)
    && r.budget <= st.budget
    && Constants(st.data, r.data)
  }

  // ---------------------------------------------------------------------------------------------
  // Substituting known bits

  /** The number a control bit is interned under: all constants share the number -1. */
  function Key(b: Bit): int {
    if b.Wire? then b.id else -1
  }

  /** The distinct keys of the controls, in order of first appearance. */
  function Keys(ctrl: seq<Bit>): (ks: seq<int>)
    ensures |ks| <= |ctrl|
    ensures forall k :: k in ks <==> exists s :: 0 <= s < |ctrl| && Key(ctrl[s]) == k
  {
    if ctrl == [] then [] else
      var n := |ctrl| - 1;
      var ks := Keys(ctrl[..n]);
      assert forall s :: 0 <= s < n ==> ctrl[..n][s] == ctrl[s];
      assert forall k :: k in ks ==> exists s :: 0 <= s < |ctrl| && Key(ctrl[s]) == k;
      if Key(ctrl[n]) in ks then ks else ks + [Key(ctrl[n])]
  }

  function IndexOf(ks: seq<int>, k: int): (i: nat)
    requires k in ks
    ensures i < |ks| && ks[i] == k
  {
    if ks[0] == k then 0 else 1 + IndexOf(ks[1..], k)
  }

  /** One data bit of port `p` after substitution: a control of the cell itself has the value it
      takes when port `p` is selected; otherwise knowledge from the multiplexers above is used. */
  function ReplaceBit(ctrl: seq<Bit>, inactive: multiset<nat>, active: multiset<nat>, p: nat, b: Bit): Bit {
    if !b.Wire? then b
    else if b.id in Keys(ctrl) then
      (if p < |ctrl| && IndexOf(Keys(ctrl), b.id) == p then One else Zero)
    else if b.id in inactive then Zero
    else if b.id in active then One
    else b
  }

  function ReplacePort(ctrl: seq<Bit>, inactive: multiset<nat>, active: multiset<nat>, p: nat, bits: seq<Bit>): seq<Bit> {
    seq(|bits|, i requires 0 <= i < |bits| => ReplaceBit(ctrl, inactive, active, p, bits[i]))
  }

  function ReplaceKnown(tab: Tables, st: State, inactive: multiset<nat>, active: multiset<nat>, m: nat): (r: State)
    requires Valid(tab, st) && m < |tab.muxes|
    ensures Valid(tab, r) && Grows(st, r)
  {
    var ports := st.data[m];
    st.(data := st.data[m := seq(|ports|, p requires 0 <= p < |ports| =>
                                   ReplacePort(tab.muxes[m].ctrl, inactive, active, p, ports[p]))])
  }

  // ---------------------------------------------------------------------------------------------
  // Choosing the ports to follow

  function FirstConstOn(x: Mux, k: nat): (p: nat)
    requires k <= |x.ctrl|
    ensures k <= p <= |x.ctrl| && (p < |x.ctrl| ==> ConstOn(x, p))
    ensures forall q :: k <= q < p ==> !ConstOn(x, q)
    decreases |x.ctrl| - k
  {
    if k == |x.ctrl| || ConstOn(x, k) then k else FirstConstOn(x, k + 1)
  }

  predicate KnownTo(x: Mux, known: multiset<nat>, p: nat) {
    p < |x.ctrl| && x.ctrl[p].Wire? && x.ctrl[p].id in known
  }

  function FirstKnownActive(x: Mux, active: multiset<nat>, k: nat): (p: nat)
    requires k <= |x.ctrl|
    ensures k <= p <= |x.ctrl| && (p < |x.ctrl| ==> KnownTo(x, active, p))
    ensures forall q :: k <= q < p ==> !KnownTo(x, active, q)
    decreases |x.ctrl| - k
  {
    if k == |x.ctrl| || KnownTo(x, active, k) then k else FirstKnownActive(x, active, k + 1)
  }

  /** The ports from `k` on whose control is neither constant zero nor known to be inactive. */
  function OpenPorts(x: Mux, inactive: multiset<nat>, k: nat): (ps: seq<nat>)
    requires k <= |x.ctrl| + 1
    ensures forall p: nat :: p in ps <==> k <= p <= |x.ctrl| && !ConstOff(x, p) && !KnownTo(x, inactive, p)
    ensures AllBelow(ps, |x.ctrl| + 1)
    decreases |x.ctrl| + 1 - k
  {
    if k == |x.ctrl| + 1 then []
    else if ConstOff(x, k) || KnownTo(x, inactive, k) then OpenPorts(x, inactive, k + 1)
    else [k] + OpenPorts(x, inactive, k + 1)
  }

  function PortsToEval(x: Mux, inactive: multiset<nat>, active: multiset<nat>): (ps: seq<nat>)
    ensures forall p :: p in ps ==> !ConstOff(x, p)
    ensures AllBelow(ps, |x.ctrl| + 1)
    ensures ps != []
  {
    if FirstConstOn(x, 0) < |x.ctrl| then [FirstConstOn(x, 0)]
    else if FirstKnownActive(x, active, 0) < |x.ctrl| then [FirstKnownActive(x, active, 0)]
    else
      assert |x.ctrl| in OpenPorts(x, inactive, 0);
      OpenPorts(x, inactive, 0)
  }

  // ---------------------------------------------------------------------------------------------
  // Knowledge gained by following a port

  /** Controls of the first `n` ports other than `p`, with multiplicity. */
  function OtherControls(x: Mux, p: nat, n: nat): multiset<nat> {
    if n == 0 then multiset{}
    else if n - 1 != p && n - 1 < |x.ctrl| && x.ctrl[n - 1].Wire? then
      OtherControls(x, p, n - 1) + multiset{x.ctrl[n - 1].id}
    else
      OtherControls(x, p, n - 1)
  }

  lemma {:induction false} OtherControlIs(x: Mux, p: nat, n: nat, w: nat) returns (s: nat)
    requires w in OtherControls(x, p, n)
    ensures s < |x.ctrl| && s != p && x.ctrl[s] == Wire(w)
  {
    if n - 1 != p && n - 1 < |x.ctrl| && x.ctrl[n - 1] == Wire(w) {
      s := n - 1;
    } else {
      s := OtherControlIs(x, p, n - 1, w);
    }
  }

  function OwnControl(x: Mux, p: nat): multiset<nat> {
    if p < |x.ctrl| && x.ctrl[p].Wire? then multiset{x.ctrl[p].id} else multiset{}
  }

  // ---------------------------------------------------------------------------------------------
  // Evaluation

  ghost function Unvisited(tab: Tables, visited: set<nat>): set<nat> {
    UpTo(|tab.muxes|) - visited
  }

  /** The multiplexers of `ks` not visited yet, each once. */
  function NotVisited(ks: seq<nat>, visited: set<nat>): (ps: seq<nat>)
    ensures forall k :: k in ps <==> k in ks && k !in visited
    ensures forall n :: AllBelow(ks, n) ==> AllBelow(ps, n)
    decreases |ks|
  {
    if ks == [] then [] else
    assert forall n :: AllBelow(ks, n) ==> AllBelow(ks[1..], n) && ks[0] < n;
    if ks[0] in visited then NotVisited(ks[1..], visited)
    else [ks[0]] + NotVisited(ks[1..], visited + {ks[0]})
  }

  function Members(ks: seq<nat>): set<nat> {
    set k | k in ks
  }

  lemma UnvisitedShrinks(tab: Tables, visited: set<nat>, ks: seq<nat>)
    requires NotVisited(ks, visited) != [] && AllBelow(ks, |tab.muxes|)
    ensures Unvisited(tab, visited + Members(NotVisited(ks, visited))) < Unvisited(tab, visited)
  {
    var ps := NotVisited(ks, visited);
    assert ps[0] in ps;
    assert ps[0] in Unvisited(tab, visited) && ps[0] !in Unvisited(tab, visited + Members(ps));
  }

  ghost function EvalMux(tab: Tables, st: State, inactive: multiset<nat>, active: multiset<nat>, visited: set<nat>,
                         m: nat, replace: bool, enable: bool, abort: nat): (r: State)
    requires WfTables(tab) && Valid(tab, st) && m < |tab.muxes|
    ensures Valid(tab, r) && Grows(st, r)
    decreases Unvisited(tab, visited), 3, 0
  {
    if st.budget == 0 then st
    else
      var st1 := st.(budget := st.budget - 1);
      var st2 := if replace then ReplaceKnown(tab, st1, inactive, active, m) else st1;
      EvalPorts(tab, st2, inactive, active, visited, m,
                PortsToEval(tab.muxes[m], inactive, active), replace, enable, abort)
  }

  ghost function EvalPorts(tab: Tables, st: State, inactive: multiset<nat>, active: multiset<nat>, visited: set<nat>,
                           m: nat, ports: seq<nat>, replace: bool, enable: bool, abort: nat): (r: State)
    requires WfTables(tab) && Valid(tab, st) && m < |tab.muxes|
    requires AllBelow(ports, |tab.muxes[m].data|)
    ensures Valid(tab, r) && Grows(st, r)
    decreases Unvisited(tab, visited), 2, |ports|
  {
    if ports == [] then st
    else
      var st1 := EvalPort(tab, st, inactive, active, visited, m, ports[0], replace, enable, abort);
      EvalPorts(tab, st1, inactive, active, visited, m, ports[1..], replace, enable, abort)
  }

  ghost function EvalPort(tab: Tables, st: State, inactive: multiset<nat>, active: multiset<nat>, visited: set<nat>,
                          m: nat, p: nat, replace: bool, enable: bool, abort: nat): (r: State)
    requires WfTables(tab) && Valid(tab, st) && m < |tab.muxes| && p < |tab.muxes[m].data|
    ensures Valid(tab, r) && Grows(st, r)
    decreases Unvisited(tab, visited), 1, 0
  {
    if st.budget == 0 then st
    else
      var x := tab.muxes[m];
      var st1 := if enable then st.(enabled := st.enabled + {(m, p)}) else st;
      var ks := NotVisited(tab.inputs[m][p], visited);
      if ks == [] then st1
      else
        UnvisitedShrinks(tab, visited, tab.inputs[m][p]);
        EvalParents(tab, st1, inactive + OtherControls(x, p, |x.data|), active + OwnControl(x, p),
                    visited + Members(ks), ks, replace, enable, abort)
  }

  ghost function EvalParents(tab: Tables, st: State, inactive: multiset<nat>, active: multiset<nat>, visited: set<nat>,
                             ks: seq<nat>, replace: bool, enable: bool, abort: nat): (r: State)
    requires WfTables(tab) && Valid(tab, st)
    requires AllBelow(ks, |tab.muxes|)
    ensures Valid(tab, r) && Grows(st, r)
    decreases Unvisited(tab, visited), 4, |ks|
  {
    if ks == [] || st.budget == 0 then st
    else
      var st1 := EvalParent(tab, st, inactive, active, visited, ks[0], replace, enable, abort);
      EvalParents(tab, st1, inactive, active, visited, ks[1..], replace, enable, abort)
  }

  /** A pure root is left to its own evaluation; any other root is followed at most `abort` deep, and
      without substituting, because it may be reached along other paths. */
  ghost function EvalParent(tab: Tables, st: State, inactive: multiset<nat>, active: multiset<nat>, visited: set<nat>,
                            k: nat, replace: bool, enable: bool, abort: nat): (r: State)
    requires WfTables(tab) && Valid(tab, st) && k < |tab.muxes|
    ensures Valid(tab, r) && Grows(st, r)
    decreases Unvisited(tab, visited), 4, 0
  {
    if k in st.pure then st
    else if k in tab.roots then
      if abort == 0 then st.(rerun := st.rerun + {k}, pure := st.pure + {k})
      else EvalMux(tab, st, inactive, active, visited, k, false, enable, abort - 1)
    else EvalMux(tab, st, inactive, active, visited, k, replace, enable, abort)
  }

  // ---------------------------------------------------------------------------------------------
  // Evaluating every root

  const ABORT_DEPTH: nat := 3

  ghost function EvalRoot(tab: Tables, st: State, m: nat): (r: State)
    requires WfTables(tab) && Valid(tab, st) && m < |tab.muxes|
    ensures Valid(tab, r) && Grows(st.(rerun := st.rerun - {m}), r)
  {
    EvalMux(tab, st.(rerun := st.rerun - {m}), multiset{}, multiset{}, {m}, m, true, m in st.pure, ABORT_DEPTH)
  }

  /** The first evaluation of the roots numbered `m` and above; stops when the budget is spent. */
  ghost function EvalRootsFrom(tab: Tables, st: State, m: nat): (r: State)
    requires WfTables(tab) && Valid(tab, st) && m <= |tab.muxes|
    ensures Valid(tab, r) && r.budget <= st.budget && st.pure <= r.pure && st.enabled <= r.enabled
    ensures Constants(st.data, r.data)
    decreases |tab.muxes| - m
  {
    if m == |tab.muxes| then st
    else if m !in tab.roots then EvalRootsFrom(tab, st, m + 1)
    else
      var st1 := EvalRoot(tab, st, m);
      if st1.budget == 0 then st1 else EvalRootsFrom(tab, st1, m + 1)
  }

  predicate IsLeast(s: set<nat>, m: nat) {
    m in s && forall n :: n in s ==> m <= n
  }

  lemma LeastExists(s: set<nat>) returns (m: nat)
    requires s != {}
    ensures IsLeast(s, m)
  {
    m :| m in s;
    while s - UpTo(m) != s
      invariant m in s
      decreases m
    {
      var n :| n in s && n !in s - UpTo(m);
      m := n;
    }
    forall n | n in s
      ensures m <= n
    {
      assert n in s - UpTo(m);
    }
  }

  ghost function Least(s: set<nat>): (m: nat)
    requires s != {}
    ensures IsLeast(s, m)
  {
    assert exists m :: IsLeast(s, m) by { var k := LeastExists(s); }
    var m :| IsLeast(s, m);
    m
  }

  lemma LeastUnique(s: set<nat>, m: nat)
    requires m in s && forall n :: n in s ==> m <= n
    ensures m == Least(s)
  {
    var l := Least(s);
    assert IsLeast(s, l);
  }

  ghost function Impure(tab: Tables, st: State): set<nat> {
    UpTo(|tab.muxes|) - st.pure
  }

  /** Evaluating a waiting root takes it off the list, or makes another root pure. */
  lemma RerunShrinks(tab: Tables, st: State)
    requires WfTables(tab) && Valid(tab, st) && st.rerun != {}
    ensures var m := Least(st.rerun);
            var r := EvalRoot(tab, st, m);
            && Impure(tab, r) <= Impure(tab, st)
            && (Impure(tab, r) == Impure(tab, st) ==> r.rerun < st.rerun)
  {
    var m := Least(st.rerun);
    var r := EvalRoot(tab, st, m);
    if r.pure == st.pure {
      assert r.rerun == st.rerun - {m};
    } else {
      var k :| k in r.pure && k !in st.pure;
      assert k in Impure(tab, st) && k !in Impure(tab, r);
    }
  }

  /** Repeats the evaluation of the roots that became pure. */
  ghost function Rerun(tab: Tables, st: State): (r: State)
    requires WfTables(tab) && Valid(tab, st)
    ensures Valid(tab, r) && r.budget <= st.budget && st.pure <= r.pure && st.enabled <= r.enabled
    ensures Constants(st.data, r.data)
    ensures r.budget > 0 ==> r.rerun == {}
    decreases Impure(tab, st), st.rerun
  {
    if st.rerun == {} || st.budget == 0 then st
    else
      var st1 := EvalRoot(tab, st, Least(st.rerun));
      RerunShrinks(tab, st);
      if st1.budget == 0 then st1 else Rerun(tab, st1)
  }

  ghost function InitialState(tab: Tables, budget: nat): (st: State)
    requires WfTables(tab)
    ensures Valid(tab, st)
  {
    State(seq(|tab.muxes|, m requires 0 <= m < |tab.muxes| => tab.muxes[m].data),
          {}, tab.seen, {}, budget)
  }

  ghost function FinalState(tab: Tables, budget: nat): (st: State)
    requires WfTables(tab)
    ensures Valid(tab, st)
    ensures st.budget > 0 ==> st.rerun == {}
  {
    var st1 := EvalRootsFrom(tab, InitialState(tab, budget), 0);
    if st1.budget == 0 then st1 else Rerun(tab, st1)
  }

  // ---------------------------------------------------------------------------------------------
  // Deleting dead ports

  function LivePorts(enabled: set<(nat, nat)>, m: nat, n: nat): (ps: seq<nat>)
    ensures |ps| <= n && AllBelow(ps, n)
    ensures ps != [] ==> AllBelow(ps[..|ps| - 1], ps[|ps| - 1])
  {
    if n == 0 then []
    else if (m, n - 1) in enabled then LivePorts(enabled, m, n - 1) + [n - 1]
    else LivePorts(enabled, m, n - 1)
  }

  ghost predicate Ascending(ps: seq<nat>) {
    forall j, k :: 0 <= j < k < |ps| ==> ps[j] < ps[k]
  }

  lemma {:induction false} LivePortsAscend(enabled: set<(nat, nat)>, m: nat, n: nat)
    ensures Ascending(LivePorts(enabled, m, n))
  {
    if n > 0 {
      LivePortsAscend(enabled, m, n - 1);
    }
  }

  lemma {:induction false} LivePortsHave(enabled: set<(nat, nat)>, m: nat, n: nat, p: nat)
    requires p < n && (m, p) in enabled
    ensures p in LivePorts(enabled, m, n)
  {
    if p < n - 1 {
      LivePortsHave(enabled, m, n - 1, p);
    }
  }

  /** The cell left when only the ports in `live` remain: the last of them becomes the default. */
  function TrimMux(x: Mux, data: seq<seq<Bit>>, live: seq<nat>): (y: Mux)
    requires WfMux(x) && SameShape(data, x.data)
    requires |live| >= 2 && AllBelow(live, |x.data|) && AllBelow(live[..|live| - 1], live[|live| - 1])
    ensures WfMux(y)
  {
    var last := |live| - 1;
    assert forall j :: 0 <= j < last ==> live[..last][j] == live[j];
    Mux(seq(|live|, j requires 0 <= j < |live| => data[live[j]]),
        seq(last, j requires 0 <= j < last => x.ctrl[live[j]]),
        x.out)
  }

  function Live(muxes: seq<Mux>, st: State, m: nat): seq<nat>
    requires m < |muxes|
  {
    LivePorts(st.enabled, m, |muxes[m].data|)
  }

  /** What is left of cell `m` as a cell: one with the live ports, if at least two are live. */
  function Cells(muxes: seq<Mux>, st: State, m: nat): seq<Mux>
    requires m < |muxes| && WfMux(muxes[m]) && Shaped(muxes, st)
  {
    var live := Live(muxes, st, m);
    if |live| >= 2 then [TrimMux(muxes[m], st.data[m], live)] else []
  }

  /** What is left of cell `m` as connections: its output wired to its only live port. */
  function Conns(muxes: seq<Mux>, st: State, m: nat): seq<(nat, Bit)>
    requires m < |muxes| && WfMux(muxes[m]) && Shaped(muxes, st)
  {
    var live := Live(muxes, st, m);
    var out := muxes[m].out;
    if |live| == 1 then seq(|out|, i requires 0 <= i < |out| => (out[i], st.data[m][live[0]][i])) else []
  }

  function AllCells(muxes: seq<Mux>, st: State): seq<seq<Mux>>
    requires (forall m :: 0 <= m < |muxes| ==> WfMux(muxes[m])) && Shaped(muxes, st)
  {
    seq(|muxes|, m requires 0 <= m < |muxes| => Cells(muxes, st, m))
  }

  function AllConns(muxes: seq<Mux>, st: State): seq<seq<(nat, Bit)>>
    requires (forall m :: 0 <= m < |muxes| ==> WfMux(muxes[m])) && Shaped(muxes, st)
  {
    seq(|muxes|, m requires 0 <= m < |muxes| => Conns(muxes, st, m))
  }

  /** The module after every multiplexer has been trimmed, connected through or removed. */
  function Trimmed(net: Netlist, st: State): Netlist
    requires WfMuxes(net) && Shaped(net.muxes, st)
  {
    Netlist(Flat(AllCells(net.muxes, st)), net.conns + Flat(AllConns(net.muxes, st)), net.taps)
  }

  /** How many ports of the first `n` cells are not enabled. */
  function Deleted(muxes: seq<Mux>, st: State, n: nat): nat
    requires n <= |muxes|
  {
    if n == 0 then 0 else Deleted(muxes, st, n - 1) + (|muxes[n - 1].data| - |Live(muxes, st, n - 1)|)
  }

  /** The module when the evaluation is given up: known bits replaced, every port kept. */
  ghost function Replaced(net: Netlist, st: State): (r: Netlist)
    requires WfMuxes(net) && Shaped(net.muxes, st)
    ensures WfMuxes(r)
  {
    net.(muxes := seq(|net.muxes|, m requires 0 <= m < |net.muxes| =>
                        Mux(st.data[m], net.muxes[m].ctrl, net.muxes[m].out)))
  }
}
