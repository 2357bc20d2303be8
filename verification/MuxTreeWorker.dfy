/** The optimiser as it runs: one object per module whose methods update the cells, the enabled flags
    and a shared knowledge base in place. Each method is proved equal to its function in MuxTree. */
module MuxTreeWorker {
  import opened Flatten
  import opened MuxNetlist
  import opened MuxTree
  import opened MuxTreeProofs
  import opened MuxTreePass
  import opened MuxTreeLoop
  import opened MuxTreeTame
  import opened MuxTreeDeletion
  import MuxTreeTrails

  /** Reference counts of the controls known to be inactive or active on the current path (a multiset
      holds one count per signal), and the multiplexers on the path or waiting at one of its levels. */
  class Knowledge {
    var knownInactive: multiset<nat>
    var knownActive: multiset<nat>
    var visited: set<nat>

    constructor (m: nat)
      ensures knownInactive == multiset{} && knownActive == multiset{} && visited == {m}
    {
      knownInactive, knownActive, visited := multiset{}, multiset{}, {m};
    }
  }

  /** Once the budget is spent the remaining ports are not evaluated. */
  lemma {:induction false} SpentPorts(tab: Tables, st: State, inactive: multiset<nat>, active: multiset<nat>,
                                      visited: set<nat>, m: nat, ports: seq<nat>, replace: bool, enable: bool, abort: nat)
    requires WfTables(tab) && Valid(tab, st) && m < |tab.muxes| && AllBelow(ports, |tab.muxes[m].data|)
    requires st.budget == 0
    ensures EvalPorts(tab, st, inactive, active, visited, m, ports, replace, enable, abort) == st
    decreases |ports|
  {
    if ports != [] {
      SpentPorts(tab, st, inactive, active, visited, m, ports[1..], replace, enable, abort);
    }
  }

  lemma VisitNext(inputs: seq<nat>, j: nat, visited: set<nat>)
    requires j < |inputs|
    ensures NotVisited(inputs[j..], visited)
         == if inputs[j] in visited then NotVisited(inputs[j + 1..], visited)
            else [inputs[j]] + NotVisited(inputs[j + 1..], visited + {inputs[j]})
  {
    assert inputs[j..][0] == inputs[j] && inputs[j..][1..] == inputs[j + 1..];
  }

  lemma NothingTaken(a: multiset<nat>)
    ensures a - multiset{} == a
  {
  }

  lemma TakenBack(a: multiset<nat>, b: multiset<nat>, c: multiset<nat>)
    ensures (a - b) - c == a - (b + c)
    ensures (a + b) - b == a
  {
  }

  class Worker {
    const net: Netlist
    const tab: Tables
    var data: seq<seq<seq<Bit>>>
    var enabled: set<(nat, nat)>
    var rootEnable: set<nat>
    var rerun: set<nat>
    var globAbortCnt: nat

    ghost predicate Valid()
      reads this
    {
      WfTables(tab) && tab.muxes == net.muxes && MuxTree.Valid(tab, St())
    }

    ghost function St(): State
      reads this
    {
      State(data, enabled, rootEnable, rerun, globAbortCnt)
    }

    constructor (net: Netlist, globAbortCnt: nat)
      requires WfMuxes(net)
      ensures Valid() && this.net == net && tab == Build(net) && St() == InitialState(tab, globAbortCnt)
      ensures this.globAbortCnt == globAbortCnt
    {
      this.net := net;
      var tables := Build(net);
      this.tab := tables;
      this.data := seq(|net.muxes|, m requires 0 <= m < |net.muxes| => net.muxes[m].data);
      this.enabled := {};
      this.rootEnable := tables.seen;
      this.rerun := {};
      this.globAbortCnt := globAbortCnt;
    }

    /** Replaces the known bits of data port `p` of cell `m`. */
    method ReplaceKnownPort(k: Knowledge, m: nat, p: nat)
      requires Valid() && m < |tab.muxes| && p < |tab.muxes[m].data|
      modifies this`data
      ensures Valid()
      ensures data == old(data)[m := old(data)[m][p := ReplacePort(tab.muxes[m].ctrl, k.knownInactive, k.knownActive, p, old(data)[m][p])]]
    {
      var ctrl := tab.muxes[m].ctrl;
      var ctrlBits: seq<int> := [];
      for s := 0 to |ctrl|
        invariant ctrlBits == Keys(ctrl[..s])
      {
        assert ctrl[..s + 1][..s] == ctrl[..s];
        if Key(ctrl[s]) !in ctrlBits {
          ctrlBits := ctrlBits + [Key(ctrl[s])];
        }
      }
      assert ctrl[..|ctrl|] == ctrl;
      var bits := data[m][p];
      var sig := bits;
      var didSomething := false;
      for i := 0 to |bits|
        invariant |sig| == |bits| && (!didSomething ==> sig == bits)
        invariant forall j :: 0 <= j < |bits| ==>
          sig[j] == if j < i then ReplaceBit(ctrl, k.knownInactive, k.knownActive, p, bits[j]) else bits[j]
      {
        if bits[i].Wire? {
          var w := bits[i].id;
          if w in k.knownInactive {
            sig, didSomething := sig[i := Zero], true;
          } else if w in k.knownActive {
            sig, didSomething := sig[i := One], true;
          }
          if w in ctrlBits {
            sig := sig[i := if p < |ctrl| && IndexOf(ctrlBits, w) == p then One else Zero];
            didSomething := true;
          }
        }
      }
      assert sig == ReplacePort(ctrl, k.knownInactive, k.knownActive, p, bits);
      if didSomething {
        data := data[m := data[m][p := sig]];
      } else {
        assert data[m][p := sig] == data[m];
        assert data[m := data[m]] == data;
      }
    }

    method ReplaceKnownBits(k: Knowledge, m: nat)
      requires Valid() && m < |tab.muxes|
      modifies this`data
      ensures Valid()
      ensures St() == ReplaceKnown(tab, old(St()), k.knownInactive, k.knownActive, m)
    {
      ghost var before := data[m];
      for p := 0 to |tab.muxes[m].data|
        invariant Valid()
        invariant |data| == |old(data)| && |data[m]| == |before|
        invariant St() == old(St()).(data := data)
        invariant forall n :: 0 <= n < |data| && n != m ==> data[n] == old(data)[n]
        invariant forall q :: 0 <= q < |before| ==>
          data[m][q] == if q < p then ReplacePort(tab.muxes[m].ctrl, k.knownInactive, k.knownActive, q, before[q]) else before[q]
      {
        ReplaceKnownPort(k, m, p);
      }
      ghost var r := ReplaceKnown(tab, old(St()), k.knownInactive, k.knownActive, m);
      assert data[m] == r.data[m];
      assert data == r.data;
    }

    /** Learns what following port `p` of `x` says about the controls. */
    static method EnterPort(k: Knowledge, x: Mux, p: nat)
      requires WfMux(x) && p < |x.data| && !ConstOff(x, p)
      modifies k`knownInactive, k`knownActive
      ensures k.knownInactive == old(k.knownInactive) + OtherControls(x, p, |x.data|)
      ensures k.knownActive == old(k.knownActive) + OwnControl(x, p)
    {
      for i := 0 to |x.data|
        invariant k.knownActive == old(k.knownActive)
        invariant k.knownInactive == old(k.knownInactive) + OtherControls(x, p, i)
      {
        if i != p && i < |x.ctrl| && x.ctrl[i].Wire? {
          k.knownInactive := k.knownInactive + multiset{x.ctrl[i].id};
        }
      }
      if p < |x.ctrl| && !ConstOn(x, p) {
        k.knownActive := k.knownActive + multiset{x.ctrl[p].id};
      }
    }

    /** Forgets exactly what `EnterPort` learnt. */
    static method LeavePort(k: Knowledge, x: Mux, p: nat, ghost inactive: multiset<nat>, ghost active: multiset<nat>)
      requires WfMux(x) && p < |x.data| && !ConstOff(x, p)
      requires k.knownInactive == inactive + OtherControls(x, p, |x.data|)
      requires k.knownActive == active + OwnControl(x, p)
      modifies k`knownInactive, k`knownActive
      ensures k.knownInactive == inactive && k.knownActive == active
    {
      if p < |x.ctrl| && !ConstOn(x, p) {
        k.knownActive := k.knownActive - multiset{x.ctrl[p].id};
      }
      TakenBack(active, OwnControl(x, p), multiset{});
      ForgetInactive(k, x, p);
      TakenBack(inactive, OtherControls(x, p, |x.data|), multiset{});
    }

    static method ForgetInactive(k: Knowledge, x: Mux, p: nat)
      modifies k`knownInactive
      ensures k.knownInactive == old(k.knownInactive) - OtherControls(x, p, |x.data|)
    {
      var counts := k.knownInactive;
      NothingTaken(counts);
      for i := 0 to |x.data|
        invariant counts == old(k.knownInactive) - OtherControls(x, p, i)
      {
        if i != p && i < |x.ctrl| && x.ctrl[i].Wire? {
          TakenBack(old(k.knownInactive), OtherControls(x, p, i), multiset{x.ctrl[i].id});
          counts := counts - multiset{x.ctrl[i].id};
        }
      }
      k.knownInactive := counts;
    }

    /** Marks the multiplexers of `inputs` that are not visited yet, and returns them. */
    static method VisitParents(k: Knowledge, inputs: seq<nat>) returns (parents: seq<nat>)
      modifies k`visited
      ensures parents == NotVisited(inputs, old(k.visited))
      ensures k.visited == old(k.visited) + Members(parents) && old(k.visited) !! Members(parents)
    {
      parents := [];
      for j := 0 to |inputs|
        invariant k.visited == old(k.visited) + Members(parents) && old(k.visited) !! Members(parents)
        invariant parents + NotVisited(inputs[j..], k.visited) == NotVisited(inputs, old(k.visited))
      {
        VisitNext(inputs, j, k.visited);
        if inputs[j] !in k.visited {
          k.visited := k.visited + {inputs[j]};
          parents := parents + [inputs[j]];
        }
      }
      assert inputs[|inputs|..] == [];
    }

    static method UnvisitParents(k: Knowledge, parents: seq<nat>)
      modifies k`visited
      ensures k.visited == old(k.visited) - Members(parents)
    {
      for j := 0 to |parents|
        invariant k.visited == old(k.visited) - Members(parents[..j])
      {
        assert Members(parents[..j + 1]) == Members(parents[..j]) + {parents[j]};
        k.visited := k.visited - {parents[j]};
      }
      assert parents[..|parents|] == parents;
    }

    /** Puts what following port `p` of `x` teaches into `k` and marks the feeders not visited yet. */
    static method Descend(k: Knowledge, x: Mux, p: nat, inputs: seq<nat>) returns (parents: seq<nat>)
      requires WfMux(x) && p < |x.data| && !ConstOff(x, p)
      modifies k
      ensures parents == NotVisited(inputs, old(k.visited))
      ensures k.visited == old(k.visited) + Members(parents) && old(k.visited) !! Members(parents)
      ensures k.knownInactive == old(k.knownInactive) + OtherControls(x, p, |x.data|)
      ensures k.knownActive == old(k.knownActive) + OwnControl(x, p)
    {
      EnterPort(k, x, p);
      parents := VisitParents(k, inputs);
    }

    /** Undoes `Descend`. */
    static method Ascend(k: Knowledge, x: Mux, p: nat, parents: seq<nat>,
                         ghost inactive: multiset<nat>, ghost active: multiset<nat>, ghost visited: set<nat>)
      requires WfMux(x) && p < |x.data| && !ConstOff(x, p)
      requires k.visited == visited + Members(parents) && visited !! Members(parents)
      requires k.knownInactive == inactive + OtherControls(x, p, |x.data|)
      requires k.knownActive == active + OwnControl(x, p)
      modifies k
      ensures k.knownInactive == inactive && k.knownActive == active && k.visited == visited
    {
      UnvisitParents(k, parents);
      LeavePort(k, x, p, inactive, active);
    }

    method EvalMuxPort(k: Knowledge, m: nat, p: nat, replace: bool, enable: bool, abort: nat)
      requires Valid() && m < |tab.muxes| && p < |tab.muxes[m].data| && !ConstOff(tab.muxes[m], p)
      modifies this`data, this`enabled, this`rootEnable, this`rerun, this`globAbortCnt, k
      ensures Valid()
      ensures St() == EvalPort(tab, old(St()), old(k.knownInactive), old(k.knownActive), old(k.visited), m, p, replace, enable, abort)
      ensures globAbortCnt > 0 ==> unchanged(k`knownInactive, k`knownActive, k`visited)
      decreases Unvisited(tab, k.visited), 1, 0
    {
      if globAbortCnt == 0 {
        return;
      }
      if enable {
        enabled := enabled + {(m, p)};
      }
      var parents := Descend(k, tab.muxes[m], p, tab.inputs[m][p]);
      if parents != [] {
        UnvisitedShrinks(tab, old(k.visited), tab.inputs[m][p]);
        EvalParentMuxes(k, parents, replace, enable, abort);
        if globAbortCnt == 0 {
          return;
        }
      }
      Ascend(k, tab.muxes[m], p, parents, old(k.knownInactive), old(k.knownActive), old(k.visited));
    }

    method EvalParentMuxes(k: Knowledge, parents: seq<nat>, replace: bool, enable: bool, abort: nat)
      requires Valid() && AllBelow(parents, |tab.muxes|) && globAbortCnt > 0
      modifies this`data, this`enabled, this`rootEnable, this`rerun, this`globAbortCnt, k
      ensures Valid()
      ensures St() == EvalParents(tab, old(St()), old(k.knownInactive), old(k.knownActive), old(k.visited), parents, replace, enable, abort)
      ensures globAbortCnt > 0 ==> unchanged(k`knownInactive, k`knownActive, k`visited)
      decreases Unvisited(tab, k.visited), 4, 0
    {
      ghost var all := EvalParents(tab, St(), k.knownInactive, k.knownActive, k.visited, parents, replace, enable, abort);
      assert parents[0..] == parents;
      for j := 0 to |parents|
        invariant Valid() && globAbortCnt > 0 && unchanged(k`knownInactive, k`knownActive, k`visited)
        invariant all == EvalParents(tab, St(), k.knownInactive, k.knownActive, k.visited, parents[j..], replace, enable, abort)
      {
        assert parents[j..][0] == parents[j] && parents[j..][1..] == parents[j + 1..];
        EvalParentMux(k, parents[j], replace, enable, abort);
        if globAbortCnt == 0 {
          return;
        }
      }
      assert parents[|parents|..] == [];
    }

    method EvalParentMux(k: Knowledge, h: nat, replace: bool, enable: bool, abort: nat)
      requires Valid() && h < |tab.muxes|
      modifies this`data, this`enabled, this`rootEnable, this`rerun, this`globAbortCnt, k
      ensures Valid()
      ensures St() == EvalParent(tab, old(St()), old(k.knownInactive), old(k.knownActive), old(k.visited), h, replace, enable, abort)
      ensures globAbortCnt > 0 ==> unchanged(k`knownInactive, k`knownActive, k`visited)
      decreases Unvisited(tab, k.visited), 3, 1
    {
      if h in rootEnable {
        return;
      } else if h in tab.roots {
        if abort == 0 {
          rerun := rerun + {h};
          rootEnable := rootEnable + {h};
        } else {
          EvalMux(k, h, false, enable, abort - 1);
        }
      } else {
        EvalMux(k, h, replace, enable, abort);
      }
    }

    method EvalMux(k: Knowledge, m: nat, replace: bool, enable: bool, abort: nat)
      requires Valid() && m < |tab.muxes|
      modifies this`data, this`enabled, this`rootEnable, this`rerun, this`globAbortCnt, k
      ensures Valid()
      ensures St() == MuxTree.EvalMux(tab, old(St()), old(k.knownInactive), old(k.knownActive), old(k.visited), m, replace, enable, abort)
      ensures globAbortCnt > 0 ==> unchanged(k`knownInactive, k`knownActive, k`visited)
      decreases Unvisited(tab, k.visited), 3, 0
    {
      if globAbortCnt == 0 {
        return;
      }
      globAbortCnt := globAbortCnt - 1;
      if replace {
        ReplaceKnownBits(k, m);
      }
      FollowPorts(k, m, replace, enable, abort);
    }

    /** Follows the ports that could be selected. */
    method FollowPorts(k: Knowledge, m: nat, replace: bool, enable: bool, abort: nat)
      requires Valid() && m < |tab.muxes|
      modifies this`data, this`enabled, this`rootEnable, this`rerun, this`globAbortCnt, k
      ensures Valid()
      ensures St() == EvalPorts(tab, old(St()), old(k.knownInactive), old(k.knownActive), old(k.visited), m,
                                PortsToEval(tab.muxes[m], old(k.knownInactive), old(k.knownActive)), replace, enable, abort)
      ensures globAbortCnt > 0 ==> unchanged(k`knownInactive, k`knownActive, k`visited)
      decreases Unvisited(tab, k.visited), 2, 1
    {
      var x := tab.muxes[m];
      var c := ConstActivated(x);
      if c < |x.ctrl| {
        OnePort(tab, St(), k.knownInactive, k.knownActive, k.visited, m, c, replace, enable, abort);
        EvalMuxPort(k, m, c, replace, enable, abort);
        return;
      }
      var a := MatchActive(k, x);
      if a < |x.ctrl| {
        OnePort(tab, St(), k.knownInactive, k.knownActive, k.visited, m, a, replace, enable, abort);
        EvalMuxPort(k, m, a, replace, enable, abort);
        return;
      }
      EvalOpenPorts(k, m, replace, enable, abort);
    }

    /** The first port whose control is the constant one. */
    static method ConstActivated(x: Mux) returns (p: nat)
      ensures p == FirstConstOn(x, 0)
    {
      p := 0;
      while p < |x.ctrl| && !ConstOn(x, p)
        invariant p <= |x.ctrl| && FirstConstOn(x, 0) == FirstConstOn(x, p)
      {
        p := p + 1;
      }
    }

    /** The first port whose control is known to be active. */
    static method MatchActive(k: Knowledge, x: Mux) returns (p: nat)
      ensures p == FirstKnownActive(x, k.knownActive, 0)
    {
      p := 0;
      while p < |x.ctrl| && (ConstOff(x, p) || !KnownTo(x, k.knownActive, p))
        invariant p <= |x.ctrl| && FirstKnownActive(x, k.knownActive, 0) == FirstKnownActive(x, k.knownActive, p)
      {
        p := p + 1;
      }
    }

    /** Follows every port that is neither constant zero nor known to be inactive. */
    method EvalOpenPorts(k: Knowledge, m: nat, replace: bool, enable: bool, abort: nat)
      requires Valid() && m < |tab.muxes|
      modifies this`data, this`enabled, this`rootEnable, this`rerun, this`globAbortCnt, k
      ensures Valid()
      ensures St() == EvalPorts(tab, old(St()), old(k.knownInactive), old(k.knownActive), old(k.visited), m,
                                OpenPorts(tab.muxes[m], old(k.knownInactive), 0), replace, enable, abort)
      ensures globAbortCnt > 0 ==> unchanged(k`knownInactive, k`knownActive, k`visited)
      decreases Unvisited(tab, k.visited), 2, 0
    {
      var x := tab.muxes[m];
      ghost var inactive, active, visited := k.knownInactive, k.knownActive, k.visited;
      ghost var all := EvalPorts(tab, St(), inactive, active, visited, m, OpenPorts(x, inactive, 0), replace, enable, abort);
      for p := 0 to |x.data|
        invariant Valid() && unchanged(k`knownInactive, k`knownActive, k`visited)
        invariant all == EvalPorts(tab, St(), inactive, active, visited, m, OpenPorts(x, inactive, p), replace, enable, abort)
      {
        if !ConstOff(x, p) && !KnownTo(x, k.knownInactive, p) {
          ghost var rest := OpenPorts(x, inactive, p + 1);
          assert OpenPorts(x, inactive, p) == [p] + rest;
          assert ([p] + rest)[0] == p && ([p] + rest)[1..] == rest;
          EvalMuxPort(k, m, p, replace, enable, abort);
          if globAbortCnt == 0 {
            SpentPorts(tab, St(), inactive, active, visited, m, rest, replace, enable, abort);
            return;
          }
        }
      }
    }

    method EvalRootMux(m: nat)
      requires Valid() && m < |tab.muxes|
      modifies this`data, this`enabled, this`rootEnable, this`rerun, this`globAbortCnt
      ensures Valid()
      ensures St() == EvalRoot(tab, old(St()), m)
    {
      rerun := rerun - {m};
      var k := new Knowledge(m);
      EvalMux(k, m, true, m in rootEnable, ABORT_DEPTH);
    }

    /** Evaluates every root; `complete` says that the budget lasted. */
    method EvalRoots() returns (complete: bool)
      requires Valid() && St() == InitialState(tab, globAbortCnt) && globAbortCnt > 0
      modifies this`data, this`enabled, this`rootEnable, this`rerun, this`globAbortCnt
      ensures Valid()
      ensures St() == FinalState(tab, old(globAbortCnt)) && complete == (globAbortCnt > 0)
    {
      complete := EvalEachRoot();
      if complete {
        complete := RerunRoots();
      }
    }

    method EvalEachRoot() returns (complete: bool)
      requires Valid() && globAbortCnt > 0
      modifies this`data, this`enabled, this`rootEnable, this`rerun, this`globAbortCnt
      ensures Valid()
      ensures St() == EvalRootsFrom(tab, old(St()), 0) && complete == (globAbortCnt > 0)
    {
      for m := 0 to |tab.muxes|
        invariant Valid() && globAbortCnt > 0
        invariant EvalRootsFrom(tab, St(), m) == EvalRootsFrom(tab, old(St()), 0)
      {
        if m in tab.roots {
          EvalRootMux(m);
          if globAbortCnt == 0 {
            return false;
          }
        }
      }
      return true;
    }

    method RerunOne()
      requires Valid() && rerun != {}
      modifies this`data, this`enabled, this`rootEnable, this`rerun, this`globAbortCnt
      ensures Valid()
      ensures St() == EvalRoot(tab, old(St()), Least(old(rerun)))
    {
      ghost var least := Least(rerun);
      var m :| m in rerun && forall n :: n in rerun ==> m <= n;
      LeastUnique(rerun, m);
      EvalRootMux(m);
    }

    method RerunRoots() returns (complete: bool)
      requires Valid() && globAbortCnt > 0
      modifies this`data, this`enabled, this`rootEnable, this`rerun, this`globAbortCnt
      ensures Valid()
      ensures St() == Rerun(tab, old(St())) && complete == (globAbortCnt > 0)
    {
      while rerun != {}
        invariant Valid() && globAbortCnt > 0
        invariant Rerun(tab, St()) == Rerun(tab, old(St()))
        decreases Impure(tab, St()), rerun
      {
        RerunShrinks(tab, St());
        ghost var st1 := EvalRoot(tab, St(), Least(rerun));
        assert Rerun(tab, St()) == if st1.budget == 0 then st1 else Rerun(tab, st1);
        RerunOne();
        if globAbortCnt == 0 {
          return false;
        }
      }
      return true;
    }

    /** Deletes the ports that were not enabled and rewires what is left. */
    method DeleteDeadPorts() returns (r: Netlist, removed: nat)
      requires Valid() && net.conns == []
      ensures r == Trimmed(net, St())
      ensures removed == Deleted(net.muxes, St(), |net.muxes|) == |DeadPorts(net.muxes, enabled, |net.muxes|)|
      ensures UniqueDrivers(net.muxes) ==> Leaves(net, St(), r)
    {
      var muxes: seq<Mux> := [];
      var conns: seq<(nat, Bit)> := [];
      removed := 0;
      for m := 0 to |net.muxes|
        invariant PartTrimmed(net.muxes, St(), m, muxes, conns, removed)
      {
        var live, cell, wires := TrimCell(m);
        NextTrimmed(net.muxes, St(), m, muxes, conns, removed);
        muxes, conns := muxes + cell, conns + wires;
        removed := removed + (|net.muxes[m].data| - live);
      }
      FlatWhole(AllCells(net.muxes, St()));
      FlatWhole(AllConns(net.muxes, St()));
      r := Netlist(muxes, net.conns + conns, net.taps);
      DeletedCount(net.muxes, St(), |net.muxes|);
      if UniqueDrivers(net.muxes) {
        TrimLeaves(net, St());
      }
    }

    /** What is left of cell `m`, and how many of its ports are live. */
    method TrimCell(m: nat) returns (count: nat, cell: seq<Mux>, wires: seq<(nat, Bit)>)
      requires Valid() && m < |net.muxes|
      ensures count == |Live(net.muxes, St(), m)|
      ensures cell == Cells(net.muxes, St(), m) && wires == Conns(net.muxes, St(), m)
    {
      var live := CollectLive(m);
      count, cell, wires := |live|, [], [];
      if |live| >= 2 {
        cell := [TrimMux(net.muxes[m], data[m], live)];
      } else if |live| == 1 {
        wires := ConnectThrough(m, live[0]);
      }
    }

    /** Wires the output of cell `m` to its port `p`. */
    method ConnectThrough(m: nat, p: nat) returns (added: seq<(nat, Bit)>)
      requires Valid() && m < |net.muxes| && p < |net.muxes[m].data|
      ensures |added| == |net.muxes[m].out|
      ensures forall i :: 0 <= i < |added| ==> added[i] == (net.muxes[m].out[i], data[m][p][i])
    {
      added := [];
      for i := 0 to |net.muxes[m].out|
        invariant |added| == i && forall j :: 0 <= j < i ==> added[j] == (net.muxes[m].out[j], data[m][p][j])
      {
        added := added + [(net.muxes[m].out[i], data[m][p][i])];
      }
    }

    method CollectLive(m: nat) returns (live: seq<nat>)
      requires Valid() && m < |net.muxes|
      ensures live == Live(net.muxes, St(), m)
    {
      live := [];
      for p := 0 to |net.muxes[m].data|
        invariant live == LivePorts(enabled, m, p)
      {
        if (m, p) in enabled {
          live := live + [p];
        }
      }
    }

    /** The whole run: the new module and how many ports were removed. */
    method Run() returns (r: Netlist, removed: nat)
      requires Valid() && tab == Build(net) && St() == InitialState(tab, globAbortCnt)
      requires globAbortCnt > 0 && net.conns == []
      modifies this
      ensures r == RunResult(net, old(globAbortCnt)) && removed == Removed(net, old(globAbortCnt))
    {
      var complete := EvalRoots();
      if complete {
        r, removed := DeleteDeadPorts();
      } else {
        var cells := data;
        r := net.(muxes := seq(|net.muxes|, m requires 0 <= m < |net.muxes| =>
                                 Mux(cells[m], net.muxes[m].ctrl, net.muxes[m].out)));
        removed := 0;
      }
    }
  }

  /** The first `m` cells have been trimmed. */
  ghost predicate PartTrimmed(muxes: seq<Mux>, st: State, m: nat, cells: seq<Mux>, conns: seq<(nat, Bit)>, removed: nat)
    requires (forall k :: 0 <= k < |muxes| ==> WfMux(muxes[k])) && Shaped(muxes, st)
  {
    && m <= |muxes| && cells == Flat(AllCells(muxes, st)[..m]) && conns == Flat(AllConns(muxes, st)[..m])
    && removed == Deleted(muxes, st, m)
  }

  lemma NextTrimmed(muxes: seq<Mux>, st: State, m: nat, cells: seq<Mux>, conns: seq<(nat, Bit)>, removed: nat)
    requires (forall k :: 0 <= k < |muxes| ==> WfMux(muxes[k])) && Shaped(muxes, st) && m < |muxes|
    requires PartTrimmed(muxes, st, m, cells, conns, removed)
    ensures PartTrimmed(muxes, st, m + 1, cells + Cells(muxes, st, m), conns + Conns(muxes, st, m),
                        removed + (|muxes[m].data| - |Live(muxes, st, m)|))
  {
    FlatNext(AllCells(muxes, st), m);
    FlatNext(AllConns(muxes, st), m);
  }

  lemma OnePort(tab: Tables, st: State, inactive: multiset<nat>, active: multiset<nat>, visited: set<nat>,
                m: nat, p: nat, replace: bool, enable: bool, abort: nat)
    requires WfTables(tab) && Valid(tab, st) && m < |tab.muxes| && p < |tab.muxes[m].data|
    ensures EvalPorts(tab, st, inactive, active, visited, m, [p], replace, enable, abort)
         == EvalPort(tab, st, inactive, active, visited, m, p, replace, enable, abort)
  {
    var st1 := EvalPort(tab, st, inactive, active, visited, m, p, replace, enable, abort);
    assert [p][1..] == [];
    assert EvalPorts(tab, st1, inactive, active, visited, m, [], replace, enable, abort) == st1;
  }

  // ---------------------------------------------------------------------------------------------
  // The pass

  const INT_MAX: nat := 2147483647

  /** One round on one module: run the optimiser, then resolve the connections it made. */
  method RunModule(net: Netlist, ghost rank: nat -> nat) returns (r: Netlist, removed: nat)
    requires WellFormed(net) && Acyclic(rank, net)
    ensures r == Round(net, INT_MAX) && removed == Removed(net, INT_MAX)
    ensures WellFormed(r) && Acyclic(rank, r)
    ensures Ports(r.muxes) + removed <= Ports(net.muxes)
  {
    var worker := new Worker(net, INT_MAX);
    r, removed := worker.Run();
    r := Canonical(r);
    RoundWf(net, rank, INT_MAX);
    RoundShrinks(net, INT_MAX);
  }

  /** `f` is one round. */
  ghost predicate IsRound(f: Netlist -> Netlist) {
    forall n {:trigger Round(n, INT_MAX)} :: WfMuxes(n) ==> f(n) == Round(n, INT_MAX)
  }

  /** The round that follows `k` others on `start`. */
  method RunAgain(ghost f: Netlist -> Netlist, ghost start: Netlist, ghost k: nat, net: Netlist, ghost rank: nat -> nat)
    returns (r: Netlist, removed: nat)
    requires IsRound(f) && net == Iterate(f, start, k) && WellFormed(net) && Acyclic(rank, net)
    ensures r == Iterate(f, start, k + 1) && (removed == 0 ==> RemovesNothing(net))
    ensures WellFormed(r) && Acyclic(rank, r)
    ensures Ports(r.muxes) + removed <= Ports(net.muxes)
  {
    r, removed := RunModule(net, rank);
  }

  ghost predicate RemovesNothing(net: Netlist) {
    WfMuxes(net) && Removed(net, INT_MAX) == 0
  }

  method Repeat(ghost f: Netlist -> Netlist, net: Netlist, ghost rank: nat -> nat) returns (r: Netlist, ghost rounds: nat)
    requires IsRound(f) && WellFormed(net) && Acyclic(rank, net)
    ensures r == Iterate(f, net, rounds + 1) && RemovesNothing(Iterate(f, net, rounds))
  {
    var removed;
    rounds := 0;
    r, removed := RunAgain(f, net, 0, net, rank);
    while removed != 0
      invariant WellFormed(r) && Acyclic(rank, r) && r == Iterate(f, net, rounds + 1)
      invariant removed == 0 ==> RemovesNothing(Iterate(f, net, rounds))
      decreases Ports(r.muxes), removed
    {
      rounds := rounds + 1;
      r, removed := RunAgain(f, net, rounds, r, rank);
    }
  }

  /** Repeats rounds until one removes nothing; it ends because every removed port is gone. From a tame
      module it returns one that reads the same outside the multiplexers for every assignment with at
      most one active control per cell. `rounds` is how often it ran before the last time: unless that
      evaluation was given up, every port was then enabled and had a trail. */
  method Execute(net: Netlist, ghost rank: nat -> nat) returns (r: Netlist, ghost rounds: nat)
    requires WellFormed(net) && Acyclic(rank, net)
    ensures r == After(net, INT_MAX, rounds + 1) && RemovesNothing(After(net, INT_MAX, rounds))
    ensures MuxTreeTrails.Finished(After(net, INT_MAX, rounds), INT_MAX)
    ensures Tame(net) ==> Equivalent(net, r, rank)
  {
    r, rounds := Repeat(RoundOf(INT_MAX), net, rank);
    if Tame(net) {
      RoundsEquivalent(net, rank, INT_MAX, rounds + 1);
    }
    MuxTreeTrails.FinishedWhen(After(net, INT_MAX, rounds), INT_MAX);
  }
}
