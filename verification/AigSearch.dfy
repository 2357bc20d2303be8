/** Checking that a graph is sorted, and the searches that explain a value. */
module AigSearch {
  import opened AigGraph
  import opened BitVectors
  import opened Options

  datatype Node = And(fanin0: Literal, fanin1: Literal) | Leaf

  datatype Latch = Latch(input: nat, next: Literal)

  datatype File = File(nodes: seq<Node>, inputs: seq<nat>, latches: seq<Latch>)

  // ---------------------------------------------------------------------------------------------
  // The check

  /** The constant, an input or a latch. */
  predicate Declared(f: File, n: nat) {
    n == 0 || n in f.inputs || exists k :: 0 <= k < |f.latches| && f.latches[k].input == n
  }

  /** As above, with the first `m` latches. */
  predicate DeclaredSoFar(f: File, m: nat, n: nat)
    requires m <= |f.latches|
  {
    n == 0 || n in f.inputs || exists k :: 0 <= k < m && f.latches[k].input == n
  }

  /** Node `x` is declared or an earlier gate. */
  predicate Known(f: File, before: nat, x: nat) {
    x < |f.nodes| && (Declared(f, x) || (x < before && f.nodes[x].And?))
  }

  predicate GateChecked(f: File, i: nat)
    requires i < |f.nodes|
  {
    f.nodes[i].And? ==> Known(f, i, f.nodes[i].fanin0.variable) && Known(f, i, f.nodes[i].fanin1.variable)
  }

  /** There is a constant, and every input and latch is a node. */
  ghost predicate InRange(f: File) {
    && |f.nodes| > 0
    && (forall k :: 0 <= k < |f.inputs| ==> f.inputs[k] < |f.nodes|)
    && (forall k :: 0 <= k < |f.latches| ==> f.latches[k].input < |f.nodes|)
  }

  ghost predicate Checked(f: File) {
    && InRange(f)
    && (forall i: nat :: i < |f.nodes| ==> GateChecked(f, i))
    && (forall k :: 0 <= k < |f.latches| ==> Known(f, |f.nodes|, f.latches[k].next.variable))
  }

  /** Marks the declared nodes, one after the other; false where the source panics. */
  method MarkDeclared(f: File, ok: BitVec) returns (r: bool)
    requires ok.Valid() && ok.Contents() == seq(|f.nodes|, _ => false)
    modifies ok
    ensures ok.Valid() && |ok.Contents()| == |f.nodes|
    ensures r <==> InRange(f)
    ensures r ==> forall n: nat :: n < |f.nodes| ==> ok.Contents()[n] == Declared(f, n)
  {
    if |f.nodes| == 0 {
      return false;
    }
    ok.Set(0, true);
    for i := 0 to |f.inputs|
      invariant ok.Valid() && |ok.Contents()| == |f.nodes|
      invariant forall k :: 0 <= k < i ==> f.inputs[k] < |f.nodes|
      invariant forall n: nat :: n < |f.nodes| ==> ok.Contents()[n] == (n == 0 || n in f.inputs[..i])
    {
      if f.inputs[i] >= |f.nodes| {
        return false;
      }
      ok.Set(f.inputs[i], true);
      assert f.inputs[..i + 1] == f.inputs[..i] + [f.inputs[i]];
    }
    assert f.inputs[..|f.inputs|] == f.inputs;
    for i := 0 to |f.latches|
      invariant ok.Valid() && |ok.Contents()| == |f.nodes|
      invariant forall k :: 0 <= k < i ==> f.latches[k].input < |f.nodes|
      invariant forall n: nat :: n < |f.nodes| ==> ok.Contents()[n] == DeclaredSoFar(f, i, n)
    {
      if f.latches[i].input >= |f.nodes| {
        return false;
      }
      ok.Set(f.latches[i].input, true);
    }
    return true;
  }

  /** The check of a file, true exactly when every gate comes after the gates it reads and nothing
      undeclared is read; false where the source panics. */
  method CheckAig(f: File) returns (r: bool)
    ensures r <==> Checked(f)
  {
    var ok := new BitVec.FillZero(|f.nodes|);
    r := MarkDeclared(f, ok);
    if !r {
      return;
    }
    r := CheckGates(f, ok);
    if r {
      r := CheckNext(f, ok);
    }
  }

  method CheckGates(f: File, ok: BitVec) returns (r: bool)
    requires MarkedUpTo(f, ok, 0)
    modifies ok
    ensures r <==> forall i: nat :: i < |f.nodes| ==> GateChecked(f, i)
    ensures r ==> MarkedUpTo(f, ok, |f.nodes|)
  {
    for i := 0 to |f.nodes|
      invariant MarkedUpTo(f, ok, i)
      invariant forall k: nat :: k < i ==> GateChecked(f, k)
    {
      if f.nodes[i].And? {
        var good := CheckGate(f, ok, i);
        if !good {
          return false;
        }
        ok.Set(i, true);
      }
    }
    return true;
  }

  method CheckNext(f: File, ok: BitVec) returns (r: bool)
    requires MarkedUpTo(f, ok, |f.nodes|)
    ensures r <==> forall k :: 0 <= k < |f.latches| ==> Known(f, |f.nodes|, f.latches[k].next.variable)
  {
    for i := 0 to |f.latches|
      invariant forall k :: 0 <= k < i ==> Known(f, |f.nodes|, f.latches[k].next.variable)
    {
      if ok.Get(f.latches[i].next.variable) != Option.Some(true) {
        assert !Known(f, |f.nodes|, f.latches[i].next.variable);
        return false;
      }
    }
    return true;
  }

  /** The declared nodes and the gates before `i` are marked. */
  ghost predicate MarkedUpTo(f: File, ok: BitVec, i: nat)
    reads ok
  {
    && ok.Valid() && |ok.Contents()| == |f.nodes|
    && forall n: nat :: n < |f.nodes| ==> ok.Contents()[n] == Known(f, i, n)
  }

  method CheckGate(f: File, ok: BitVec, i: nat) returns (r: bool)
    requires i < |f.nodes| && f.nodes[i].And? && MarkedUpTo(f, ok, i)
    ensures r <==> GateChecked(f, i)
  {
    var left, right := ok.Get(f.nodes[i].fanin0.variable), ok.Get(f.nodes[i].fanin1.variable);
    return left == Option.Some(true) && right == Option.Some(true);
  }

  // ---------------------------------------------------------------------------------------------
  // Sorted graphs have one valuation for given leaves

  /** Gates read leaves and earlier gates only. */
  ghost predicate Sorted(nodes: seq<Node>) {
    forall i: nat :: i < |nodes| ==> ReadsEarlier(nodes, i)
  }

  predicate ReadsEarlier(nodes: seq<Node>, i: nat)
    requires i < |nodes|
  {
    nodes[i].And? ==> Earlier(nodes, i, nodes[i].fanin0.variable) && Earlier(nodes, i, nodes[i].fanin1.variable)
  }

  predicate Earlier(nodes: seq<Node>, i: nat, x: nat) {
    x < |nodes| && (nodes[x].And? ==> x < i)
  }

  /** What is declared is not a gate. */
  ghost predicate DeclaredLeaves(f: File) {
    forall n: nat :: n < |f.nodes| && Declared(f, n) ==> f.nodes[n].Leaf?
  }

  /** Some gate or latch reads node `x`. */
  ghost predicate IsRead(f: File, x: nat) {
    || (exists i: nat :: i < |f.nodes| && f.nodes[i].And?
                         && (f.nodes[i].fanin0.variable == x || f.nodes[i].fanin1.variable == x))
    || exists k :: 0 <= k < |f.latches| && f.latches[k].next.variable == x
  }

  /** What is read is a node, and a declared one unless it is a gate. */
  ghost predicate ReadsDeclared(f: File) {
    forall x: nat :: IsRead(f, x) ==> x < |f.nodes| && (f.nodes[x].Leaf? ==> Declared(f, x))
  }

  lemma CheckedReads(f: File, x: nat)
    requires Checked(f) && IsRead(f, x)
    ensures x < |f.nodes| && (f.nodes[x].Leaf? ==> Declared(f, x))
  {
    if i: nat :| i < |f.nodes| && f.nodes[i].And? && (f.nodes[i].fanin0.variable == x || f.nodes[i].fanin1.variable == x) {
      assert GateChecked(f, i);
    }
  }

  /** When what is declared is not a gate, the check accepts exactly the files that are topologically
      sorted and read declared nodes and gates only. */
  lemma CheckedExact(f: File)
    requires DeclaredLeaves(f)
    ensures Checked(f) <==> InRange(f) && Sorted(f.nodes) && ReadsDeclared(f)
  {
    if Checked(f) {
      forall i: nat | i < |f.nodes|
        ensures ReadsEarlier(f.nodes, i)
      {
        assert GateChecked(f, i);
      }
      forall x: nat | IsRead(f, x)
        ensures x < |f.nodes| && (f.nodes[x].Leaf? ==> Declared(f, x))
      {
        CheckedReads(f, x);
      }
    }
    if InRange(f) && Sorted(f.nodes) && ReadsDeclared(f) {
      forall i: nat | i < |f.nodes| && f.nodes[i].And?
        ensures GateChecked(f, i)
      {
        assert ReadsEarlier(f.nodes, i);
        assert IsRead(f, f.nodes[i].fanin0.variable) && IsRead(f, f.nodes[i].fanin1.variable);
      }
      forall k | 0 <= k < |f.latches|
        ensures Known(f, |f.nodes|, f.latches[k].next.variable)
      {
        assert IsRead(f, f.latches[k].next.variable);
      }
    }
  }

  /** A declared gate may read itself: then the check accepts a file that is not sorted. */
  lemma DeclaredGatePasses()
    ensures var f := File([Leaf, And(Literal(1, false), Literal(1, false))], [1], []);
            Checked(f) && !Sorted(f.nodes)
  {
    var f := File([Leaf, And(Literal(1, false), Literal(1, false))], [1], []);
    assert Declared(f, 1);
    assert GateChecked(f, 0) && GateChecked(f, 1);
    assert !ReadsEarlier(f.nodes, 1);
  }

  predicate GateHolds(nodes: seq<Node>, v: seq<bool>, i: nat)
    requires i < |nodes| == |v|
  {
    nodes[i].And? ==> v[i] == (LitValue(v, nodes[i].fanin0) && LitValue(v, nodes[i].fanin1))
  }

  ghost predicate Consistent(nodes: seq<Node>, v: seq<bool>) {
    |v| == |nodes| && forall i: nat :: i < |nodes| ==> GateHolds(nodes, v, i)
  }

  /** One pass in order, over the given leaf values. */
  function Pass(nodes: seq<Node>, leaves: seq<bool>, n: nat): (v: seq<bool>)
    requires n <= |nodes| == |leaves|
    ensures |v| == |nodes|
  {
    if n == 0 then leaves
    else
      var v := Pass(nodes, leaves, n - 1);
      match nodes[n - 1]
      case Leaf => v
      case And(f0, f1) => v[n - 1 := LitValue(v, f0) && LitValue(v, f1)]
  }

  lemma {:induction false} PassPrefix(nodes: seq<Node>, leaves: seq<bool>, n: nat)
    requires n <= |nodes| == |leaves| && Sorted(nodes)
    ensures forall i: nat :: i < |nodes| && (nodes[i].Leaf? || i >= n) ==> Pass(nodes, leaves, n)[i] == leaves[i]
    ensures forall i: nat :: i < n ==> GateHolds(nodes, Pass(nodes, leaves, n), i)
  {
    if n > 0 {
      PassPrefix(nodes, leaves, n - 1);
      var before, v := Pass(nodes, leaves, n - 1), Pass(nodes, leaves, n);
      forall i: nat | i < n
        ensures GateHolds(nodes, v, i)
      {
        assert ReadsEarlier(nodes, i);
        if i < n - 1 {
          assert GateHolds(nodes, before, i);
        }
      }
    }
  }

  /** In a sorted graph the pass is the one consistent valuation with the given leaves. */
  lemma PassUnique(nodes: seq<Node>, leaves: seq<bool>, w: seq<bool>)
    requires |nodes| == |leaves| && Sorted(nodes) && Consistent(nodes, w)
    requires forall i: nat :: i < |nodes| && nodes[i].Leaf? ==> w[i] == leaves[i]
    ensures Consistent(nodes, Pass(nodes, leaves, |nodes|))
    ensures w == Pass(nodes, leaves, |nodes|)
  {
    PassPrefix(nodes, leaves, |nodes|);
    var v := Pass(nodes, leaves, |nodes|);
    forall i | 0 <= i < |nodes|
      ensures w[i] == v[i]
    {
      SameValue(nodes, v, w, i);
    }
  }

  lemma {:induction false} SameValue(nodes: seq<Node>, v: seq<bool>, w: seq<bool>, i: nat)
    requires Sorted(nodes) && Consistent(nodes, v) && Consistent(nodes, w) && i < |nodes|
    requires forall k: nat :: k < |nodes| && nodes[k].Leaf? ==> w[k] == v[k]
    ensures w[i] == v[i]
    decreases i
  {
    if nodes[i].And? {
      assert ReadsEarlier(nodes, i) && GateHolds(nodes, v, i) && GateHolds(nodes, w, i);
      if nodes[nodes[i].fanin0.variable].And? {
        SameValue(nodes, v, w, nodes[i].fanin0.variable);
      }
      if nodes[nodes[i].fanin1.variable].And? {
        SameValue(nodes, v, w, nodes[i].fanin1.variable);
      }
    }
  }

  // ---------------------------------------------------------------------------------------------
  // The searches

  /** The gates among the queried bits. */
  predicate Root(nodes: seq<Node>, bits: seq<Literal>, n: nat) {
    n < |nodes| && nodes[n].And? && exists k :: 0 <= k < |bits| && bits[k].variable == n
  }

  /** The nodes a gate reads. */
  function Fanins(nodes: seq<Node>, n: nat): set<nat>
    requires n < |nodes|
  {
    if nodes[n].And? then {nodes[n].fanin0.variable, nodes[n].fanin1.variable} else {}
  }

  /** The nodes a gate reads that are responsible for its value: both when they agree, else the false one. */
  function Responsible(nodes: seq<Node>, v: seq<bool>, n: nat): set<nat>
    requires n < |nodes|
  {
    if nodes[n].Leaf? then {}
    else
      var f0, f1 := nodes[n].fanin0, nodes[n].fanin1;
      if LitValue(v, f0) == LitValue(v, f1) then {f0.variable, f1.variable}
      else if LitValue(v, f0) then {f1.variable}
      else {f0.variable}
  }

  /** What a search must reach: the nodes its roots read and, from each node that has no name, the nodes
      it goes on to; `trace` is the simulated step for a why query, none for a cone of influence. */
  ghost predicate Closed(nodes: seq<Node>, named: set<nat>, trace: Option<seq<bool>>, bits: seq<Literal>, s: set<nat>) {
    && (forall n: nat :: Root(nodes, bits, n) ==> Fanins(nodes, n) <= s)
    && (forall n: nat :: n in s && n < |nodes| && n !in named ==> Onward(nodes, trace, n) <= s)
  }

  function Onward(nodes: seq<Node>, trace: Option<seq<bool>>, n: nat): set<nat>
    requires n < |nodes|
  {
    if trace.None? then Fanins(nodes, n) else Responsible(nodes, trace.value, n)
  }

  /** The search reached exactly what it must. */
  ghost predicate Least(nodes: seq<Node>, named: set<nat>, trace: Option<seq<bool>>, bits: seq<Literal>, s: set<nat>) {
    Closed(nodes, named, trace, bits, s)
    && forall other: set<nat> :: Closed(nodes, named, trace, bits, other) ==> s <= other
  }

  // ---------------------------------------------------------------------------------------------
  // What the searches find is enough

  /** The named nodes and the leaves that were reached have the same values. */
  ghost predicate AgreesOn(nodes: seq<Node>, named: set<nat>, s: set<nat>, v: seq<bool>, w: seq<bool>)
    requires |v| == |w| == |nodes|
  {
    forall n: nat :: n in s && n < |nodes| && (n in named || nodes[n].Leaf?) ==> v[n] == w[n]
  }

  lemma {:induction false} ReachedSame(nodes: seq<Node>, named: set<nat>, trace: Option<seq<bool>>, bits: seq<Literal>,
                                       s: set<nat>, v: seq<bool>, w: seq<bool>, n: nat)
    requires Sorted(nodes) && Consistent(nodes, v) && Consistent(nodes, w)
    requires trace == Option.Some(v) || trace.None?
    requires Closed(nodes, named, trace, bits, s) && AgreesOn(nodes, named, s, v, w)
    requires n in s && n < |nodes|
    ensures v[n] == w[n]
    decreases n
  {
    if n !in named && nodes[n].And? {
      assert ReadsEarlier(nodes, n) && GateHolds(nodes, v, n) && GateHolds(nodes, w, n);
      forall m | m in Onward(nodes, trace, n)
        ensures v[m] == w[m]
      {
        if nodes[m].And? {
          ReachedSame(nodes, named, trace, bits, s, v, w, m);
        }
      }
    }
  }

  /** A why query is answered sufficiently: in any consistent valuation that agrees with the simulated one
      on the named nodes found and on the leaves reached, the queried bits have their simulated values. */
  lemma WhySufficient(nodes: seq<Node>, named: set<nat>, v: seq<bool>, bits: seq<Literal>, s: set<nat>, w: seq<bool>, k: nat)
    requires Sorted(nodes) && Consistent(nodes, v) && Consistent(nodes, w) && k < |bits|
    requires Closed(nodes, named, Option.Some(v), bits, s) && AgreesOn(nodes, named, s, v, w)
    requires bits[k].variable < |nodes| && nodes[bits[k].variable].And?
    ensures LitValue(w, bits[k]) == LitValue(v, bits[k])
  {
    RootSame(nodes, named, Option.Some(v), bits, s, v, w, k);
  }

  /** The cone of influence determines the queried bits: any two valuations that agree on the named nodes
      found and on the leaves reached agree on them. */
  lemma CoiDetermines(nodes: seq<Node>, named: set<nat>, bits: seq<Literal>, s: set<nat>, v: seq<bool>, w: seq<bool>, k: nat)
    requires Sorted(nodes) && Consistent(nodes, v) && Consistent(nodes, w) && k < |bits|
    requires Closed(nodes, named, Option.None, bits, s) && AgreesOn(nodes, named, s, v, w)
    requires bits[k].variable < |nodes| && nodes[bits[k].variable].And?
    ensures LitValue(w, bits[k]) == LitValue(v, bits[k])
  {
    RootSame(nodes, named, Option.None, bits, s, v, w, k);
  }

  lemma RootSame(nodes: seq<Node>, named: set<nat>, trace: Option<seq<bool>>, bits: seq<Literal>, s: set<nat>,
                 v: seq<bool>, w: seq<bool>, k: nat)
    requires Sorted(nodes) && Consistent(nodes, v) && Consistent(nodes, w) && k < |bits|
    requires trace == Option.Some(v) || trace.None?
    requires Closed(nodes, named, trace, bits, s) && AgreesOn(nodes, named, s, v, w)
    requires bits[k].variable < |nodes| && nodes[bits[k].variable].And?
    ensures LitValue(w, bits[k]) == LitValue(v, bits[k])
  {
    var n := bits[k].variable;
    assert Root(nodes, bits, n) && ReadsEarlier(nodes, n) && GateHolds(nodes, v, n) && GateHolds(nodes, w, n);
    ReachedSame(nodes, named, trace, bits, s, v, w, nodes[n].fanin0.variable);
    ReachedSame(nodes, named, trace, bits, s, v, w, nodes[n].fanin1.variable);
  }

  // ---------------------------------------------------------------------------------------------
  // The paths a search follows

  /** Literal `l` of gate `n` reads node `x`; for a why query it also has the value of the gate. */
  predicate ReadsThrough(trace: Option<seq<bool>>, n: nat, l: Literal, x: nat) {
    l.variable == x && (trace.Some? ==> n < |trace.value| && LitValue(trace.value, l) == trace.value[n])
  }

  predicate Edge(nodes: seq<Node>, trace: Option<seq<bool>>, n: nat, x: nat) {
    && n < |nodes| && nodes[n].And?
    && (ReadsThrough(trace, n, nodes[n].fanin0, x) || ReadsThrough(trace, n, nodes[n].fanin1, x))
  }

  /** From a queried gate through any of its inputs, and on through gates without a name. */
  ghost predicate IsPath(nodes: seq<Node>, named: set<nat>, trace: Option<seq<bool>>, bits: seq<Literal>, path: seq<nat>) {
    && |path| >= 2
    && (exists k :: 0 <= k < |bits| && bits[k].variable == path[0])
    && Edge(nodes, Option.None, path[0], path[1])
    && forall j :: 1 <= j < |path| - 1 ==> path[j] !in named && Edge(nodes, trace, path[j], path[j + 1])
  }

  /** Some path ends at `n`. */
  ghost predicate OnPath(nodes: seq<Node>, named: set<nat>, trace: Option<seq<bool>>, bits: seq<Literal>, n: nat) {
    exists path: seq<nat> :: IsPath(nodes, named, trace, bits, path) && path[|path| - 1] == n
  }

  /** The trace, if any, is a simulated step. */
  ghost predicate Simulated(nodes: seq<Node>, trace: Option<seq<bool>>) {
    trace.Some? ==> Consistent(nodes, trace.value)
  }

  lemma OnwardEdges(nodes: seq<Node>, trace: Option<seq<bool>>, n: nat, x: nat)
    requires n < |nodes| && Simulated(nodes, trace)
    ensures x in Onward(nodes, trace, n) <==> Edge(nodes, trace, n, x)
  {
    if trace.Some? {
      assert GateHolds(nodes, trace.value, n);
    }
  }

  lemma {:induction false} PathInside(nodes: seq<Node>, named: set<nat>, trace: Option<seq<bool>>, bits: seq<Literal>,
                                      s: set<nat>, path: seq<nat>, j: nat)
    requires Simulated(nodes, trace) && Closed(nodes, named, trace, bits, s)
    requires IsPath(nodes, named, trace, bits, path) && 1 <= j < |path|
    ensures path[j] in s
  {
    if j == 1 {
      assert Root(nodes, bits, path[0]);
    } else {
      PathInside(nodes, named, trace, bits, s, path, j - 1);
      OnwardEdges(nodes, trace, path[j - 1], path[j]);
    }
  }

  lemma PathStarts(nodes: seq<Node>, named: set<nat>, trace: Option<seq<bool>>, bits: seq<Literal>, n: nat, x: nat)
    requires Root(nodes, bits, n) && x in Fanins(nodes, n)
    ensures OnPath(nodes, named, trace, bits, x)
  {
    var path := [n, x];
    assert IsPath(nodes, named, trace, bits, path) && path[|path| - 1] == x;
  }

  lemma PathGoesOn(nodes: seq<Node>, named: set<nat>, trace: Option<seq<bool>>, bits: seq<Literal>, n: nat, x: nat)
    requires OnPath(nodes, named, trace, bits, n) && n !in named && Edge(nodes, trace, n, x)
    ensures OnPath(nodes, named, trace, bits, x)
  {
    var path: seq<nat> :| IsPath(nodes, named, trace, bits, path) && path[|path| - 1] == n;
    var longer := path + [x];
    assert forall j :: 0 <= j < |path| ==> longer[j] == path[j];
    assert IsPath(nodes, named, trace, bits, longer) && longer[|longer| - 1] == x;
  }

  lemma OnwardInside(nodes: seq<Node>, trace: Option<seq<bool>>, n: nat)
    requires Sorted(nodes) && n < |nodes|
    ensures forall x :: x in Onward(nodes, trace, n) ==> x < |nodes|
  {
    assert ReadsEarlier(nodes, n);
  }

  ghost function Below(n: nat): (s: set<nat>)
    ensures forall x: nat :: x in s <==> x < n
  {
    if n == 0 then {} else Below(n - 1) + {n - 1}
  }

  lemma PathsClosed(nodes: seq<Node>, named: set<nat>, trace: Option<seq<bool>>, bits: seq<Literal>) returns (s: set<nat>)
    requires Sorted(nodes) && Simulated(nodes, trace)
    ensures Closed(nodes, named, trace, bits, s)
    ensures forall n :: n in s ==> OnPath(nodes, named, trace, bits, n)
  {
    s := set n | n in Below(|nodes|) && OnPath(nodes, named, trace, bits, n);
    forall n: nat, x | Root(nodes, bits, n) && x in Fanins(nodes, n)
      ensures x in s
    {
      assert ReadsEarlier(nodes, n);
      PathStarts(nodes, named, trace, bits, n, x);
    }
    forall n: nat, x | n in s && n !in named && x in Onward(nodes, trace, n)
      ensures x in s
    {
      OnwardInside(nodes, trace, n);
      OnwardEdges(nodes, trace, n, x);
      PathGoesOn(nodes, named, trace, bits, n, x);
    }
  }

  /** A search reaches exactly the nodes at the ends of paths, each gate on them after the first having, in
      a why query, the value of the literal the path follows. */
  lemma ReachedExact(nodes: seq<Node>, named: set<nat>, trace: Option<seq<bool>>, bits: seq<Literal>, s: set<nat>, n: nat)
    requires Sorted(nodes) && Simulated(nodes, trace) && Least(nodes, named, trace, bits, s)
    ensures n in s <==> OnPath(nodes, named, trace, bits, n)
  {
    if n in s {
      var other := PathsClosed(nodes, named, trace, bits);
      assert s <= other;
    }
    if OnPath(nodes, named, trace, bits, n) {
      var path: seq<nat> :| IsPath(nodes, named, trace, bits, path) && path[|path| - 1] == n;
      PathInside(nodes, named, trace, bits, s, path, |path| - 1);
    }
  }

  /** The named nodes found are those at the ends of paths. */
  ghost predicate FindsPaths(nodes: seq<Node>, named: set<nat>, trace: Option<seq<bool>>, bits: seq<Literal>, found: set<nat>) {
    forall n: nat :: n in found <==> n in named && OnPath(nodes, named, trace, bits, n)
  }

  lemma FoundExact(nodes: seq<Node>, named: set<nat>, trace: Option<seq<bool>>, bits: seq<Literal>, s: set<nat>)
    requires Sorted(nodes) && Simulated(nodes, trace) && Least(nodes, named, trace, bits, s)
    ensures FindsPaths(nodes, named, trace, bits, s * named)
  {
    forall n: nat
      ensures n in s <==> OnPath(nodes, named, trace, bits, n)
    {
      ReachedExact(nodes, named, trace, bits, s, n);
    }
  }

  // ---------------------------------------------------------------------------------------------
  // The worklists

  /** `reached` has been taken off the worklist, `seen` has ever been put on it by a gate. */
  ghost predicate Searching(nodes: seq<Node>, named: set<nat>, trace: Option<seq<bool>>, bits: seq<Literal>,
                            reached: set<nat>, seen: set<nat>, found: set<nat>, toVisit: seq<nat>)
  {
    && (forall x :: x in toVisit ==> x < |nodes|)
    && (forall x :: x in reached ==> x < |nodes|)
    && (forall x :: x in seen ==> x in reached || x in toVisit)
    && found == reached * named
    && (forall n :: n in reached && n !in named ==> Onward(nodes, trace, n) <= seen)
    && (forall other: set<nat> :: Closed(nodes, named, trace, bits, other) ==> Within(reached, seen, toVisit, other))
  }

  ghost predicate Within(reached: set<nat>, seen: set<nat>, toVisit: seq<nat>, other: set<nat>) {
    reached <= other && seen <= other && forall x :: x in toVisit ==> x in other
  }

  /** Taking `n` off the worklist. A node without a name puts those of its onward nodes on it that it has
      not put there before. */
  lemma Visited(nodes: seq<Node>, named: set<nat>, trace: Option<seq<bool>>, bits: seq<Literal>, reached: set<nat>,
                seen: set<nat>, found: set<nat>, rest: seq<nat>, n: nat, pushed: seq<nat>)
    requires Sorted(nodes) && Searching(nodes, named, trace, bits, reached, seen, found, rest + [n]) && n < |nodes|
    requires var onward := if n in named then {} else Onward(nodes, trace, n);
             && (forall x :: x in pushed ==> x in onward)
             && (forall x :: x in onward ==> x in seen || x in pushed)
    ensures var onward := if n in named then {} else Onward(nodes, trace, n);
            Searching(nodes, named, trace, bits, reached + {n}, seen + onward,
                      if n in named then found + {n} else found, rest + pushed)
  {
    var onward := if n in named then {} else Onward(nodes, trace, n);
    assert n in rest + [n];
    OnwardInside(nodes, trace, n);
    forall x | x in rest + pushed
      ensures x < |nodes|
    {
      if x in rest {
        assert x in rest + [n];
      }
    }
    forall x | x in seen + onward
      ensures x in reached + {n} || x in rest + pushed
    {
      if x in seen && x !in reached && x != n {
        assert x in rest + [n];
      }
    }
    forall other: set<nat> | Closed(nodes, named, trace, bits, other)
      ensures Within(reached + {n}, seen + onward, rest + pushed, other)
    {
      assert Within(reached, seen, rest + [n], other);
      assert forall x :: x in rest ==> x in rest + [n];
    }
  }

  /** The roots handled so far have the nodes they read reached. */
  ghost predicate RootsReached(nodes: seq<Node>, bits: seq<Literal>, m: nat, reached: set<nat>) {
    forall k: nat :: k < m && k < |bits| && bits[k].variable < |nodes| ==> Fanins(nodes, bits[k].variable) <= reached
  }

  lemma SearchDone(nodes: seq<Node>, named: set<nat>, trace: Option<seq<bool>>, bits: seq<Literal>, reached: set<nat>,
                   seen: set<nat>, found: set<nat>)
    requires Searching(nodes, named, trace, bits, reached, seen, found, [])
    requires RootsReached(nodes, bits, |bits|, reached)
    ensures Least(nodes, named, trace, bits, reached)
  {
    forall n: nat | Root(nodes, bits, n)
      ensures Fanins(nodes, n) <= reached
    {
      var k: nat :| k < |bits| && bits[k].variable == n;
    }
    forall other: set<nat> | Closed(nodes, named, trace, bits, other)
      ensures reached <= other
    {
      assert Within(reached, seen, [], other);
    }
  }

  /** Starting on root `k`: the nodes it reads go on the empty worklist. */
  lemma RootPushed(nodes: seq<Node>, named: set<nat>, trace: Option<seq<bool>>, bits: seq<Literal>, reached: set<nat>,
                   seen: set<nat>, found: set<nat>, k: nat)
    requires Sorted(nodes) && Searching(nodes, named, trace, bits, reached, seen, found, [])
    requires k < |bits| && bits[k].variable < |nodes| && nodes[bits[k].variable].And?
    ensures var node := nodes[bits[k].variable];
            Searching(nodes, named, trace, bits, reached, seen, found, [node.fanin0.variable, node.fanin1.variable])
  {
    var n := bits[k].variable;
    var pushed := [nodes[n].fanin0.variable, nodes[n].fanin1.variable];
    assert Root(nodes, bits, n) && ReadsEarlier(nodes, n);
    forall other: set<nat> | Closed(nodes, named, trace, bits, other)
      ensures Within(reached, seen, pushed, other)
    {
      assert Within(reached, seen, [], other);
    }
  }

  /** The why search: named nodes are recorded, gates are followed to what is responsible for their value.
      It reaches exactly what Closed asks for, and finds the named nodes among it. */
  method Why(nodes: seq<Node>, named: set<nat>, v: seq<bool>, bits: seq<Literal>)
    returns (found: set<nat>, ghost reached: set<nat>)
    requires Sorted(nodes) && |v| == |nodes| && forall k :: 0 <= k < |bits| ==> bits[k].variable < |nodes|
    ensures Least(nodes, named, Option.Some(v), bits, reached) && found == reached * named
    ensures forall s :: Least(nodes, named, Option.Some(v), bits, s) ==> found == s * named
    ensures Consistent(nodes, v) ==> FindsPaths(nodes, named, Option.Some(v), bits, found)
  {
    ghost var trace := Option.Some(v);
    found, reached := {}, {};
    var visited: set<nat> := {};
    for k := 0 to |bits|
      invariant Searching(nodes, named, trace, bits, reached, visited, found, []) && RootsReached(nodes, bits, k, reached)
    {
      var node := nodes[bits[k].variable];
      if node.Leaf? {
        continue;
      }
      RootPushed(nodes, named, trace, bits, reached, visited, found, k);
      found, visited, reached := WhyRoot(nodes, named, v, bits, [node.fanin0.variable, node.fanin1.variable], found,
                                         visited, reached);
    }
    SearchDone(nodes, named, trace, bits, reached, visited, found);
    if Consistent(nodes, v) {
      FoundExact(nodes, named, trace, bits, reached);
    }
  }

  /** The worklist loop for one bit. */
  method WhyRoot(nodes: seq<Node>, named: set<nat>, v: seq<bool>, bits: seq<Literal>, start: seq<nat>, found0: set<nat>,
                 visited0: set<nat>, ghost reached0: set<nat>)
    returns (found: set<nat>, visited: set<nat>, ghost reached: set<nat>)
    requires Sorted(nodes) && |v| == |nodes|
    requires Searching(nodes, named, Option.Some(v), bits, reached0, visited0, found0, start)
    ensures Searching(nodes, named, Option.Some(v), bits, reached, visited, found, [])
    ensures reached0 <= reached && forall x :: x in start ==> x in reached
  {
    ghost var trace := Option.Some(v);
    found, visited, reached := found0, visited0, reached0;
    var toVisit := start;
    ghost var all := Below(|nodes|);
    while toVisit != []
      invariant Searching(nodes, named, trace, bits, reached, visited, found, toVisit)
      invariant reached0 <= reached && forall x :: x in start ==> x in reached || x in toVisit
      invariant visited <= all
      decreases all - visited, |toVisit|
    {
      var n := toVisit[|toVisit| - 1];
      ghost var found1, seen1, pushed: seq<nat> := found, visited, [];
      assert toVisit == toVisit[..|toVisit| - 1] + [n];
      assert n in toVisit;
      toVisit := toVisit[..|toVisit| - 1];
      ghost var rest := toVisit;
      if n in named {
        found := found + {n};
      } else if nodes[n].And? {
        toVisit, visited, pushed := WhyPush(nodes, v, n, toVisit, visited);
      }
      WhyVisited(nodes, named, v, bits, reached, seen1, found1, rest, n, pushed, found, visited, toVisit);
      reached := reached + {n};
    }
  }

  lemma WhyVisited(nodes: seq<Node>, named: set<nat>, v: seq<bool>, bits: seq<Literal>, reached: set<nat>, seen: set<nat>,
                   found: set<nat>, rest: seq<nat>, n: nat, pushed: seq<nat>, found': set<nat>, seen': set<nat>, toVisit': seq<nat>)
    requires Sorted(nodes) && Searching(nodes, named, Option.Some(v), bits, reached, seen, found, rest + [n]) && n < |nodes|
    requires if n in named then found' == found + {n} && seen' == seen && pushed == []
             else found' == found && seen' == seen + Responsible(nodes, v, n) && Pushes(Responsible(nodes, v, n), seen, pushed)
    requires toVisit' == rest + pushed
    ensures Searching(nodes, named, Option.Some(v), bits, reached + {n}, seen', found', toVisit')
  {
    Visited(nodes, named, Option.Some(v), bits, reached, seen, found, rest, n, pushed);
    if n in named {
      assert seen + {} == seen;
    }
  }

  /** `pushed` holds what of `onward` has not been seen, perhaps more of it. */
  ghost predicate Pushes(onward: set<nat>, seen: set<nat>, pushed: seq<nat>) {
    (forall x :: x in pushed ==> x in onward) && forall x :: x in onward ==> x in seen || x in pushed
  }

  method WhyPush(nodes: seq<Node>, v: seq<bool>, n: nat, toVisit0: seq<nat>, visited0: set<nat>)
    returns (toVisit: seq<nat>, visited: set<nat>, ghost pushed: seq<nat>)
    requires n < |nodes| && nodes[n].And?
    ensures visited == visited0 + Responsible(nodes, v, n) && toVisit == toVisit0 + pushed
    ensures Pushes(Responsible(nodes, v, n), visited0, pushed)
    ensures pushed == [] || visited0 < visited
  {
    toVisit, visited, pushed := toVisit0, visited0, [];
    var left, right := LitValue(v, nodes[n].fanin0), LitValue(v, nodes[n].fanin1);
    ghost var more;
    if left == right || !left {
      toVisit, visited, more := Push(toVisit, visited, nodes[n].fanin0.variable);
      pushed := pushed + more;
    }
    if left == right || !right {
      toVisit, visited, more := Push(toVisit, visited, nodes[n].fanin1.variable);
      pushed := pushed + more;
    }
  }

  /** Puts a node on the worklist unless it has been there. */
  method Push(toVisit0: seq<nat>, visited0: set<nat>, x: nat)
    returns (toVisit: seq<nat>, visited: set<nat>, ghost pushed: seq<nat>)
    ensures visited == visited0 + {x} && toVisit == toVisit0 + pushed
    ensures pushed == if x in visited0 then [] else [x]
  {
    toVisit, visited, pushed := toVisit0, visited0, [];
    if x !in visited {
      visited := visited + {x};
      toVisit := toVisit + [x];
      pushed := [x];
    }
  }

  /** The nodes of a set of edges. */
  function NodesOf(edges: set<Literal>): set<nat> {
    set x | x in edges :: x.variable
  }

  /** The cone-of-influence search. What has been seen is kept by edge, so a node reached under both
      polarities is put on the worklist twice. */
  method Coi(nodes: seq<Node>, named: set<nat>, bits: seq<Literal>) returns (found: set<nat>, ghost reached: set<nat>)
    requires Sorted(nodes) && forall k :: 0 <= k < |bits| ==> bits[k].variable < |nodes|
    ensures Least(nodes, named, Option.None, bits, reached) && found == reached * named
    ensures forall s :: Least(nodes, named, Option.None, bits, s) ==> found == s * named
    ensures FindsPaths(nodes, named, Option.None, bits, found)
  {
    found, reached := {}, {};
    var visited: set<Literal> := {};
    for k := 0 to |bits|
      invariant Searching(nodes, named, Option.None, bits, reached, NodesOf(visited), found, [])
      invariant RootsReached(nodes, bits, k, reached)
      invariant forall x :: x in visited ==> x.variable < |nodes|
    {
      var node := nodes[bits[k].variable];
      if node.Leaf? {
        continue;
      }
      RootPushed(nodes, named, Option.None, bits, reached, NodesOf(visited), found, k);
      found, visited, reached := CoiRoot(nodes, named, bits, [node.fanin0.variable, node.fanin1.variable], found,
                                         visited, reached);
    }
    SearchDone(nodes, named, Option.None, bits, reached, NodesOf(visited), found);
    FoundExact(nodes, named, Option.None, bits, reached);
  }

  /** The worklist loop for one bit. */
  method CoiRoot(nodes: seq<Node>, named: set<nat>, bits: seq<Literal>, start: seq<nat>, found0: set<nat>,
                 visited0: set<Literal>, ghost reached0: set<nat>)
    returns (found: set<nat>, visited: set<Literal>, ghost reached: set<nat>)
    requires Sorted(nodes) && forall x :: x in visited0 ==> x.variable < |nodes|
    requires Searching(nodes, named, Option.None, bits, reached0, NodesOf(visited0), found0, start)
    ensures Searching(nodes, named, Option.None, bits, reached, NodesOf(visited), found, [])
    ensures reached0 <= reached && forall x :: x in start ==> x in reached
    ensures forall x :: x in visited ==> x.variable < |nodes|
  {
    found, visited, reached := found0, visited0, reached0;
    var toVisit := start;
    ghost var all := set i: nat, b: bool | 0 <= i < |nodes| :: Literal(i, b);
    while toVisit != []
      invariant Searching(nodes, named, Option.None, bits, reached, NodesOf(visited), found, toVisit)
      invariant reached0 <= reached && forall x :: x in start ==> x in reached || x in toVisit
      invariant forall x :: x in visited ==> x.variable < |nodes|
      decreases all - visited, |toVisit|
    {
      var n := toVisit[|toVisit| - 1];
      ghost var found1, visited1, pushed: seq<nat> := found, visited, [];
      assert toVisit == toVisit[..|toVisit| - 1] + [n];
      assert n in toVisit;
      toVisit := toVisit[..|toVisit| - 1];
      ghost var rest := toVisit;
      if n in named {
        found := found + {n};
      } else if nodes[n].And? {
        assert ReadsEarlier(nodes, n);
        toVisit, visited, pushed := CoiPush(nodes, n, toVisit, visited);
        CoiMeasure(all, |nodes|, visited1, visited);
      }
      CoiVisited(nodes, named, bits, reached, visited1, found1, rest, n, pushed, found, visited, toVisit);
      reached := reached + {n};
    }
  }

  lemma CoiMeasure(all: set<Literal>, n: nat, before: set<Literal>, after: set<Literal>)
    requires all == (set i: nat, b: bool | 0 <= i < n :: Literal(i, b)) && before <= after
    requires forall x :: x in after ==> x.variable < n
    ensures all - after <= all - before && (before != after ==> all - after < all - before)
  {
    if before != after {
      var x :| x in after && x !in before;
      assert x == Literal(x.variable, x.inverted);
      assert x in all - before && x !in all - after;
    }
  }

  lemma CoiVisited(nodes: seq<Node>, named: set<nat>, bits: seq<Literal>, reached: set<nat>, visited: set<Literal>,
                   found: set<nat>, rest: seq<nat>, n: nat, pushed: seq<nat>, found': set<nat>, visited': set<Literal>,
                   toVisit': seq<nat>)
    requires Sorted(nodes) && n < |nodes|
    requires Searching(nodes, named, Option.None, bits, reached, NodesOf(visited), found, rest + [n])
    requires if n in named then found' == found + {n} && visited' == visited && pushed == []
             else found' == found && NodesOf(visited') == NodesOf(visited) + Fanins(nodes, n)
                  && Pushes(Fanins(nodes, n), NodesOf(visited), pushed)
    requires toVisit' == rest + pushed
    ensures Searching(nodes, named, Option.None, bits, reached + {n}, NodesOf(visited'), found', toVisit')
  {
    Visited(nodes, named, Option.None, bits, reached, NodesOf(visited), found, rest, n, pushed);
    if n in named {
      assert NodesOf(visited) + {} == NodesOf(visited);
    }
  }

  method CoiPush(nodes: seq<Node>, n: nat, toVisit0: seq<nat>, visited0: set<Literal>)
    returns (toVisit: seq<nat>, visited: set<Literal>, ghost pushed: seq<nat>)
    requires n < |nodes| && nodes[n].And?
    ensures visited == visited0 + {nodes[n].fanin0, nodes[n].fanin1} && toVisit == toVisit0 + pushed
    ensures NodesOf(visited) == NodesOf(visited0) + Fanins(nodes, n)
    ensures Pushes(Fanins(nodes, n), NodesOf(visited0), pushed)
    ensures pushed == [] || visited0 < visited
  {
    toVisit, visited, pushed := toVisit0, visited0, [];
    ghost var more;
    toVisit, visited, more := PushEdge(toVisit, visited, nodes[n].fanin0);
    pushed := pushed + more;
    toVisit, visited, more := PushEdge(toVisit, visited, nodes[n].fanin1);
    pushed := pushed + more;
  }

  /** Puts the node of an edge on the worklist unless this edge has been seen. */
  method PushEdge(toVisit0: seq<nat>, visited0: set<Literal>, x: Literal)
    returns (toVisit: seq<nat>, visited: set<Literal>, ghost pushed: seq<nat>)
    ensures visited == visited0 + {x} && toVisit == toVisit0 + pushed
    ensures NodesOf(visited) == NodesOf(visited0) + {x.variable}
    ensures pushed == if x in visited0 then [] else [x.variable]
    ensures x.variable in NodesOf(visited0) || x.variable in pushed
  {
    toVisit, visited, pushed := toVisit0, visited0, [];
    if x !in visited {
      visited := visited + {x};
      toVisit := toVisit + [x.variable];
      pushed := [x.variable];
    }
    assert NodesOf(visited) == NodesOf(visited0) + {x.variable};
  }
}
