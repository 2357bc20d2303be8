/** A condition on a module that makes every round of the optimiser right, and that every round keeps.

    It can be read off the netlist: no cell without tapped outputs leads to two data ports of one other
    cell, directly or through untapped outputs of cells between, and a cell with several controls has
    different ones that no multiplexer drives. Deleting ports and connecting through only shortens such
    paths. Being `Eligible` alone is not kept: MuxTreeLimits has a module whose second round is wrong. */
module MuxTreeTame {
  import opened MuxNetlist
  import opened MuxTree
  import opened MuxTreeProofs
  import opened MuxTreePass
  import opened MuxTreeLoop

  ghost predicate Tapped(net: Netlist, w: nat) {
    Wire(w) in net.taps
  }

  ghost predicate Reads(net: Netlist, m: nat, p: nat, w: nat) {
    m < |net.muxes| && p < |net.muxes[m].data| && Wire(w) in net.muxes[m].data[p]
  }

  /** An untapped output bit of cell `k` is read at port `p` of cell `m`. */
  ghost predicate FansInto(net: Netlist, k: nat, m: nat, p: nat) {
    k < |net.muxes|
    && exists i :: 0 <= i < |net.muxes[k].out| && !Tapped(net, net.muxes[k].out[i]) && Reads(net, m, p, net.muxes[k].out[i])
  }

  /** Untapped outputs lead from cell `k` to port `p` of cell `m` through `n` other cells. */
  ghost predicate Leads(net: Netlist, k: nat, n: nat, m: nat, p: nat)
    decreases n
  {
    if n == 0 then FansInto(net, k, m, p)
    else exists a: nat, b: nat :: a != m && FansInto(net, k, a, b) && Leads(net, a, n - 1, m, p)
  }

  ghost predicate SomeTapped(net: Netlist, k: nat) {
    k < |net.muxes| && exists i :: 0 <= i < |net.muxes[k].out| && Tapped(net, net.muxes[k].out[i])
  }

  /** No cell without tapped outputs leads to two ports of one cell. */
  ghost predicate NeverRejoins(net: Netlist) {
    forall k, m, p, q, i, j :: !SomeTapped(net, k) && Leads(net, k, i, m, p) && Leads(net, k, j, m, q) ==> p == q
  }

  /** A constant, or a wire that none of `own` drives. */
  ghost predicate Outside(own: seq<Mux>, b: Bit) {
    b.Wire? ==> !MuxDriven(own, b.id)
  }

  /** The cell has one control, or several with different numbers that none of `own` drives. */
  ghost predicate PlainControls(own: seq<Mux>, x: Mux) {
    || |x.ctrl| == 1
    || ((forall s :: 0 <= s < |x.ctrl| ==> Outside(own, x.ctrl[s]))
        && forall s, t :: 0 <= s < t < |x.ctrl| ==> Key(x.ctrl[s]) != Key(x.ctrl[t]))
  }

  ghost predicate Tame(net: Netlist) {
    && NeverRejoins(net)
    && forall m :: 0 <= m < |net.muxes| ==> PlainControls(net.muxes, net.muxes[m])
  }

  // ---------------------------------------------------------------------------------------------
  // A tame module is eligible

  lemma {:induction false} DistinctKeys(ctrl: seq<Bit>, s: nat)
    requires forall s, t :: 0 <= s < t < |ctrl| ==> Key(ctrl[s]) != Key(ctrl[t])
    ensures |Keys(ctrl)| == |ctrl|
    ensures forall t :: 0 <= t < |ctrl| ==> Keys(ctrl)[t] == Key(ctrl[t])
    ensures s < |ctrl| ==> IndexOf(Keys(ctrl), Key(ctrl[s])) == s
    decreases |ctrl|
  {
    if ctrl != [] {
      DistinctKeys(ctrl[..|ctrl| - 1], 0);
    }
    if s < |ctrl| {
      IndexUnique(Keys(ctrl), s);
    }
  }

  lemma {:induction false} IndexUnique(ks: seq<int>, s: nat)
    requires s < |ks| && forall t, r :: 0 <= t < r < |ks| ==> ks[t] != ks[r]
    ensures IndexOf(ks, ks[s]) == s
  {
    if s > 0 {
      IndexUnique(ks[1..], s - 1);
      assert ks[1..][s - 1] == ks[s];
    }
  }

  lemma PlainAligned(own: seq<Mux>, x: Mux)
    requires WfMux(x) && PlainControls(own, x)
    ensures Aligned(x)
  {
    forall p, i | 0 <= p < |x.ctrl| && 0 <= i < |x.out| && x.data[p][i].Wire? && x.data[p][i].id in Keys(x.ctrl)
      ensures IndexOf(Keys(x.ctrl), x.data[p][i].id) == p <==> x.ctrl[p] == x.data[p][i]
    {
      var t :| 0 <= t < |x.ctrl| && Key(x.ctrl[t]) == x.data[p][i].id;
      DistinctKeys(x.ctrl, t);
    }
  }

  lemma UntappedFans(net: Netlist, k: nat, m: nat, p: nat)
    requires k < |net.muxes| && m < |net.muxes| && p < |net.muxes[m].data|
    requires FeedsPort(net, k, m, p) && !SeenMux(net, k)
    ensures FansInto(net, k, m, p)
  {
    var i :| 0 <= i < |net.muxes[k].out| && Wire(net.muxes[k].out[i]) in net.muxes[m].data[p];
    assert !SeenByNonMux(net, net.muxes[k].out[i]);
    assert Reads(net, m, p, net.muxes[k].out[i]);
  }

  lemma InputFans(net: Netlist, k: nat, m: nat, p: nat)
    requires WfMuxes(net) && k < |net.muxes| && k !in Build(net).roots && m < |net.muxes| && p < |net.muxes[m].data|
    requires k in Build(net).inputs[m][p]
    ensures FansInto(net, k, m, p)
  {
    assert k in InputMuxes(net, m, p);
    assert !IsRoot(net, k);
    UntappedFans(net, k, m, p);
  }

  lemma TappedIsRoot(net: Netlist, k: nat)
    requires k < |net.muxes|
    ensures SomeTapped(net, k) ==> IsRoot(net, k)
  {
    if SomeTapped(net, k) {
      var i :| 0 <= i < |net.muxes[k].out| && Tapped(net, net.muxes[k].out[i]);
      assert SeenByNonMux(net, net.muxes[k].out[i]);
    }
  }

  lemma InputLeads(net: Netlist, k: nat, m: nat, p: nat)
    requires WfMuxes(net) && UsesAt(Build(net), k, m, p)
    ensures Leads(net, k, 0, m, p) && !SomeTapped(net, k) && !IsRoot(net, k) && Feeds(net, k, m)
  {
    InputFans(net, k, m, p);
    assert k in InputMuxes(net, m, p);
    TappedIsRoot(net, k);
  }

  lemma TameSingleUse(net: Netlist)
    requires WfMuxes(net) && NeverRejoins(net)
    ensures SingleUse(Build(net))
  {
    var tab := Build(net);
    forall k: nat, m: nat, p: nat, n: nat, q: nat | UsesAt(tab, k, m, p) && UsesAt(tab, k, n, q)
      ensures m == n && p == q
    {
      InputLeads(net, k, m, p);
      InputLeads(net, k, n, q);
    }
  }

  lemma TameEligible(net: Netlist)
    requires WfMuxes(net) && Tame(net)
    ensures Eligible(net)
  {
    TameSingleUse(net);
    forall m | 0 <= m < |net.muxes|
      ensures Aligned(net.muxes[m])
    {
      PlainAligned(net.muxes, net.muxes[m]);
    }
  }

  /** The untapped outputs of a cell feed one data port at most, as in a tree. */
  ghost predicate SingleFan(net: Netlist) {
    forall k, m, p, n, q :: FansInto(net, k, m, p) && FansInto(net, k, n, q) ==> m == n && p == q
  }

  lemma {:induction false} SinglePath(net: Netlist, k: nat, m: nat, i: nat, p: nat, j: nat, q: nat)
    requires SingleFan(net) && Leads(net, k, i, m, p) && Leads(net, k, j, m, q)
    ensures p == q
    decreases i
  {
    if i > 0 && j > 0 {
      var a: nat, b: nat :| a != m && FansInto(net, k, a, b) && Leads(net, a, i - 1, m, p);
      var c: nat, d: nat :| c != m && FansInto(net, k, c, d) && Leads(net, c, j - 1, m, q);
      SinglePath(net, a, m, i - 1, p, j - 1, q);
    }
  }

  /** Trees never rejoin, whatever cycles their cells form. */
  lemma TreesNeverRejoin(net: Netlist)
    requires SingleFan(net)
    ensures NeverRejoins(net)
  {
    forall k: nat, m: nat, p: nat, q: nat, i: nat, j: nat | !SomeTapped(net, k) && Leads(net, k, i, m, p) && Leads(net, k, j, m, q)
      ensures p == q
    {
      SinglePath(net, k, m, i, p, j, q);
    }
  }

  // ---------------------------------------------------------------------------------------------
  // Where the untapped outputs of a cell end once connections are resolved

  /** Following the outputs of cell `k` through `n` cells with one live port leads to port `t`. */
  ghost predicate EndsAt(net: Netlist, st: State, k: nat, n: nat, t: (nat, nat))
    requires WfMuxes(net) && Shaped(net.muxes, st)
    decreases n, 1
  {
    exists m, p :: FansInto(net, k, m, p) && EndsVia(net, st, n, m, p, t)
  }

  ghost predicate EndsVia(net: Netlist, st: State, n: nat, m: nat, p: nat, t: (nat, nat))
    requires WfMuxes(net) && Shaped(net.muxes, st)
    decreases n, 0
  {
    m < |net.muxes|
    && if |Live(net.muxes, st, m)| == 1 then n > 0 && EndsAt(net, st, m, n - 1, t) else t == (m, p)
  }

  ghost predicate EndsAtSome(net: Netlist, st: State, k: nat, t: (nat, nat))
    requires WfMuxes(net) && Shaped(net.muxes, st)
  {
    exists n: nat :: EndsAt(net, st, k, n, t)
  }

  /** The ports the outputs of cell `k` lead to through cells with one live port. */
  ghost function Ends(net: Netlist, st: State, k: nat): iset<(nat, nat)>
    requires WfMuxes(net) && Shaped(net.muxes, st)
  {
    iset t: (nat, nat) | EndsAtSome(net, st, k, t)
  }

  /** A cell that stays is an end. */
  lemma EndHere(net: Netlist, st: State, k: nat, m: nat, p: nat)
    requires WfMuxes(net) && Shaped(net.muxes, st) && FansInto(net, k, m, p) && |Live(net.muxes, st, m)| != 1
    ensures (m, p) in Ends(net, st, k)
  {
    assert EndsVia(net, st, 0, m, p, (m, p));
    assert EndsAt(net, st, k, 0, (m, p));
  }

  /** A cell with one live port is passed through. */
  lemma EndThrough(net: Netlist, st: State, k: nat, m: nat, p: nat)
    requires WfMuxes(net) && Shaped(net.muxes, st) && FansInto(net, k, m, p)
    requires m < |net.muxes| && |Live(net.muxes, st, m)| == 1
    ensures Ends(net, st, m) <= Ends(net, st, k)
  {
    forall t | t in Ends(net, st, m)
      ensures t in Ends(net, st, k)
    {
      var n: nat :| EndsAt(net, st, m, n, t);
      assert EndsVia(net, st, n + 1, m, p, t);
      assert EndsAt(net, st, k, n + 1, t);
    }
  }

  lemma LeadsVia(net: Netlist, k: nat, a: nat, b: nat, n: nat, m: nat, p: nat)
    requires FansInto(net, k, a, b) && a != m && Leads(net, a, n, m, p)
    ensures Leads(net, k, n + 1, m, p)
  {
  }

  lemma FirstEnd(net: Netlist, st: State, k: nat, n: nat, t: (nat, nat)) returns (c: nat, d: nat)
    requires WfMuxes(net) && Shaped(net.muxes, st) && EndsAt(net, st, k, n, t)
    ensures FansInto(net, k, c, d) && c < |net.muxes|
    ensures if |Live(net.muxes, st, c)| == 1 then n > 0 && EndsAt(net, st, c, n - 1, t) else t == (c, d)
  {
    c, d :| FansInto(net, k, c, d) && EndsVia(net, st, n, c, d, t);
  }

  /** Whatever is closed under stepping back, past cells other than `m`, holds of the cells before an end. */
  lemma {:induction false} EndsReach(net: Netlist, st: State, k: nat, n: nat, t: (nat, nat), m: nat, reach: iset<nat>)
    requires WfMuxes(net) && Shaped(net.muxes, st) && EndsAt(net, st, k, n, t) && t.0 != m
    requires m < |net.muxes| && |Live(net.muxes, st, m)| != 1 && t.0 in reach
    requires forall x: nat, c: nat, d: nat :: FansInto(net, x, c, d) && c in reach && c != m ==> x in reach
    ensures k in reach
    decreases n
  {
    var c, d := FirstEnd(net, st, k, n, t);
    if |Live(net.muxes, st, c)| == 1 {
      EndsReach(net, st, c, n - 1, t, m, reach);
    }
  }

  ghost predicate LeadsSome(net: Netlist, k: nat, m: nat, p: nat) {
    exists r: nat :: Leads(net, k, r, m, p)
  }

  /** Passing to an end and going on from there is one path of the module before the run. */
  lemma EndsThenLeads(net: Netlist, st: State, k: nat, n: nat, t: (nat, nat), j: nat, m: nat, p: nat) returns (r: nat)
    requires WfMuxes(net) && Shaped(net.muxes, st) && EndsAt(net, st, k, n, t) && t.0 != m
    requires m < |net.muxes| && |Live(net.muxes, st, m)| != 1 && Leads(net, t.0, j, m, p)
    ensures Leads(net, k, r, m, p)
  {
    var reach: iset<nat> := iset c: nat | LeadsSome(net, c, m, p);
    forall x: nat, c: nat, d: nat | FansInto(net, x, c, d) && c in reach && c != m
      ensures x in reach
    {
      var i: nat :| Leads(net, c, i, m, p);
      LeadsVia(net, x, c, d, i, m, p);
    }
    EndsReach(net, st, k, n, t, m, reach);
    r :| Leads(net, k, r, m, p);
  }

  /** So is passing to an end. */
  lemma {:induction false} EndsLead(net: Netlist, st: State, k: nat, n: nat, m: nat, p: nat) returns (r: nat)
    requires WfMuxes(net) && Shaped(net.muxes, st) && EndsAt(net, st, k, n, (m, p))
    requires m < |net.muxes| && |Live(net.muxes, st, m)| != 1
    ensures Leads(net, k, r, m, p)
    decreases n
  {
    var c, d := FirstEnd(net, st, k, n, (m, p));
    if |Live(net.muxes, st, c)| == 1 {
      var i := EndsLead(net, st, c, n - 1, m, p);
      r := i + 1;
      LeadsVia(net, k, c, d, i, m, p);
    } else {
      r := 0;
    }
  }

  // ---------------------------------------------------------------------------------------------
  // Resolving connections keeps ends

  /** Every untapped wire that one of `own` drives is read at data ports it is routed to only: by cells
      directly, or by connections to wires routed nowhere else. The output bits of a cell are routed
      together. */
  ghost predicate Routed(net: Netlist, own: seq<Mux>, dest: nat -> iset<(nat, nat)>, name: (nat, nat) -> (nat, nat)) {
    && (forall m, p, w :: ReadsOwn(net, own, m, p, w) ==> name(m, p) in dest(w))
    && (forall k :: 0 <= k < |net.conns| ==> ConnRouted(net, own, dest, net.conns[k].0, net.conns[k].1))
    && (forall m :: 0 <= m < |net.muxes| ==> CellRouted(own, dest, net.muxes[m].out))
  }

  ghost predicate ReadsOwn(net: Netlist, own: seq<Mux>, m: nat, p: nat, w: nat) {
    Reads(net, m, p, w) && MuxDriven(own, w) && !Tapped(net, w)
  }

  ghost predicate ConnRouted(net: Netlist, own: seq<Mux>, dest: nat -> iset<(nat, nat)>, w: nat, b: Bit) {
    && MuxDriven(own, w)
    && (b.Wire? && MuxDriven(own, b.id) && !Tapped(net, b.id) && !Tapped(net, w) ==> dest(w) <= dest(b.id))
  }

  ghost predicate CellRouted(own: seq<Mux>, dest: nat -> iset<(nat, nat)>, out: seq<nat>) {
    && (forall i :: 0 <= i < |out| ==> MuxDriven(own, out[i]))
    && forall i, j :: 0 <= i < |out| && 0 <= j < |out| ==> dest(out[i]) == dest(out[j])
  }

  lemma SubstIn(w: nat, b: Bit, xs: seq<Bit>, x: nat)
    ensures Wire(x) in SubstBits(w, b, xs) <==> (x != w && Wire(x) in xs) || (b == Wire(x) && Wire(w) in xs)
  {
    var ys := SubstBits(w, b, xs);
    if x != w && Wire(x) in xs {
      var i :| 0 <= i < |xs| && xs[i] == Wire(x);
      assert ys[i] == Wire(x);
    }
    if b == Wire(x) && Wire(w) in xs {
      var i :| 0 <= i < |xs| && xs[i] == Wire(w);
      assert ys[i] == b;
    }
    if Wire(x) in ys {
      var i :| 0 <= i < |ys| && ys[i] == Wire(x);
      assert ys[i] == SubstBit(w, b, xs[i]);
    }
  }

  lemma SubstTapped(net: Netlist, w: nat, b: Bit, x: nat)
    ensures Tapped(Subst(w, b, net), x) <==> (x != w && Tapped(net, x)) || (b == Wire(x) && Tapped(net, w))
  {
    SubstIn(w, b, net.taps, x);
  }

  lemma SubstReads(net: Netlist, w: nat, b: Bit, m: nat, p: nat, x: nat)
    ensures Reads(Subst(w, b, net), m, p, x)
         <==> (x != w && Reads(net, m, p, x)) || (b == Wire(x) && Reads(net, m, p, w))
  {
    if m < |net.muxes| && p < |net.muxes[m].data| {
      SubstIn(w, b, net.muxes[m].data[p], x);
    }
  }

  lemma SubstUntapped(net: Netlist, w: nat, b: Bit, x: nat)
    requires b != Wire(w) && !Tapped(Subst(w, b, net), x)
    ensures x != w ==> !Tapped(net, x)
    ensures b == Wire(x) ==> !Tapped(net, x) && !Tapped(net, w)
  {
    SubstTapped(net, w, b, x);
  }

  lemma SubstReadsRouted(net: Netlist, own: seq<Mux>, dest: nat -> iset<(nat, nat)>, name: (nat, nat) -> (nat, nat),
                         w: nat, b: Bit, m: nat, p: nat, x: nat)
    requires Routed(net, own, dest, name) && ConnRouted(net, own, dest, w, b) && b != Wire(w)
    requires ReadsOwn(Subst(w, b, net), own, m, p, x)
    ensures name(m, p) in dest(x)
  {
    SubstReads(net, w, b, m, p, x);
    SubstUntapped(net, w, b, x);
    if x != w && Reads(net, m, p, x) {
      assert ReadsOwn(net, own, m, p, x);
    } else {
      assert ReadsOwn(net, own, m, p, w);
    }
  }

  lemma SubstConnRouted(net: Netlist, own: seq<Mux>, dest: nat -> iset<(nat, nat)>, w: nat, b: Bit, x: nat, c: Bit)
    requires ConnRouted(net, own, dest, w, b) && b != Wire(w) && ConnRouted(net, own, dest, x, c) && x != w
    ensures ConnRouted(Subst(w, b, net), own, dest, x, SubstBit(w, b, c))
  {
    var s, d := Subst(w, b, net), SubstBit(w, b, c);
    if d.Wire? && MuxDriven(own, d.id) && !Tapped(s, d.id) && !Tapped(s, x) {
      SubstUntapped(net, w, b, d.id);
      SubstUntapped(net, w, b, x);
    }
  }

  /** Substituting one connection keeps the routing. */
  lemma SubstRouted(net: Netlist, own: seq<Mux>, dest: nat -> iset<(nat, nat)>, name: (nat, nat) -> (nat, nat), w: nat, b: Bit)
    requires Routed(net, own, dest, name) && ConnRouted(net, own, dest, w, b)
    requires b != Wire(w) && forall k :: 0 <= k < |net.conns| ==> net.conns[k].0 != w
    ensures Routed(Subst(w, b, net), own, dest, name)
  {
    var s := Subst(w, b, net);
    forall m, p, x | ReadsOwn(s, own, m, p, x)
      ensures name(m, p) in dest(x)
    {
      SubstReadsRouted(net, own, dest, name, w, b, m, p, x);
    }
    forall k | 0 <= k < |s.conns|
      ensures ConnRouted(s, own, dest, s.conns[k].0, s.conns[k].1)
    {
      SubstConnRouted(net, own, dest, w, b, net.conns[k].0, net.conns[k].1);
    }
    forall m | 0 <= m < |s.muxes|
      ensures CellRouted(own, dest, s.muxes[m].out)
    {
      assert s.muxes[m].out == net.muxes[m].out;
    }
  }

  ghost predicate AllPlain(own: seq<Mux>, muxes: seq<Mux>) {
    forall m :: 0 <= m < |muxes| ==> PlainControls(own, muxes[m])
  }

  lemma SubstPlain(net: Netlist, own: seq<Mux>, w: nat, b: Bit)
    requires AllPlain(own, net.muxes) && MuxDriven(own, w)
    ensures AllPlain(own, Subst(w, b, net).muxes)
  {
    var s := Subst(w, b, net);
    forall m | 0 <= m < |s.muxes|
      ensures PlainControls(own, s.muxes[m])
    {
      assert PlainControls(own, net.muxes[m]);
      if |net.muxes[m].ctrl| != 1 {
        assert s.muxes[m].ctrl == net.muxes[m].ctrl;
      }
    }
  }

  lemma {:induction false} CanonicalRouted(rank: nat -> nat, net: Netlist, own: seq<Mux>, dest: nat -> iset<(nat, nat)>,
                                           name: (nat, nat) -> (nat, nat))
    requires WfDrivers(net) && AcyclicAll(rank, net)
    requires Routed(net, own, dest, name) && AllPlain(own, net.muxes)
    ensures Routed(Canonical(net), own, dest, name) && AllPlain(own, Canonical(net).muxes)
    decreases |net.conns|
  {
    if net.conns != [] {
      var (w, b) := net.conns[0];
      var rest := net.(conns := net.conns[1..]);
      assert net.conns == [(w, b)] + rest.conns;
      assert !Driven(rest, w) by {
        assert !MuxDriven(net.muxes, net.conns[0].0);
      }
      RestRouted(net, own, dest, name);
      SubstWf(rank, rest, w, b);
      SubstRouted(rest, own, dest, name, w, b);
      SubstPlain(rest, own, w, b);
      CanonicalRouted(rank, Subst(w, b, rest), own, dest, name);
    }
  }

  lemma RestRouted(net: Netlist, own: seq<Mux>, dest: nat -> iset<(nat, nat)>, name: (nat, nat) -> (nat, nat))
    requires Routed(net, own, dest, name) && net.conns != []
    ensures var rest := net.(conns := net.conns[1..]);
            Routed(rest, own, dest, name) && ConnRouted(rest, own, dest, net.conns[0].0, net.conns[0].1)
  {
    var rest := net.(conns := net.conns[1..]);
    forall m, p, w | ReadsOwn(rest, own, m, p, w)
      ensures name(m, p) in dest(w)
    {
      assert ReadsOwn(net, own, m, p, w);
    }
    forall k | 0 <= k < |rest.conns|
      ensures ConnRouted(rest, own, dest, rest.conns[k].0, rest.conns[k].1)
    {
      assert rest.conns[k] == net.conns[k + 1];
    }
  }

  lemma RoutedPlain(net: Netlist, own: seq<Mux>, dest: nat -> iset<(nat, nat)>, name: (nat, nat) -> (nat, nat))
    requires Routed(net, own, dest, name) && AllPlain(own, net.muxes)
    ensures AllPlain(net.muxes, net.muxes)
  {
    forall m | 0 <= m < |net.muxes|
      ensures PlainControls(net.muxes, net.muxes[m])
    {
      assert PlainControls(own, net.muxes[m]);
      forall s | 0 <= s < |net.muxes[m].ctrl| && Outside(own, net.muxes[m].ctrl[s])
        ensures Outside(net.muxes, net.muxes[m].ctrl[s])
      {
        if net.muxes[m].ctrl[s].Wire? {
          OwnDrives(net, own, dest, name, net.muxes[m].ctrl[s].id);
        }
      }
    }
  }

  lemma FanRouted(net: Netlist, own: seq<Mux>, dest: nat -> iset<(nat, nat)>, name: (nat, nat) -> (nat, nat),
                  k: nat, m: nat, p: nat) returns (w: nat)
    requires Routed(net, own, dest, name) && FansInto(net, k, m, p)
    ensures w in net.muxes[k].out && name(m, p) in dest(w)
  {
    var i :| 0 <= i < |net.muxes[k].out| && !Tapped(net, net.muxes[k].out[i]) && Reads(net, m, p, net.muxes[k].out[i]);
    w := net.muxes[k].out[i];
    assert CellRouted(own, dest, net.muxes[k].out);
    assert ReadsOwn(net, own, m, p, w);
  }

  lemma OwnDrives(net: Netlist, own: seq<Mux>, dest: nat -> iset<(nat, nat)>, name: (nat, nat) -> (nat, nat), w: nat)
    requires Routed(net, own, dest, name)
    ensures MuxDriven(net.muxes, w) ==> MuxDriven(own, w)
  {
    if MuxDriven(net.muxes, w) {
      var m, i :| 0 <= m < |net.muxes| && 0 <= i < |net.muxes[m].out| && net.muxes[m].out[i] == w;
      assert CellRouted(own, dest, net.muxes[m].out);
    }
  }

  // ---------------------------------------------------------------------------------------------
  // A round keeps a module tame

  /** The cell that drives the wire. */
  ghost function Owner(muxes: seq<Mux>, w: nat): (m: nat)
    requires MuxDriven(muxes, w)
    ensures m < |muxes| && w in muxes[m].out
  {
    var m, i :| 0 <= m < |muxes| && 0 <= i < |muxes[m].out| && muxes[m].out[i] == w;
    m
  }

  lemma OwnerIs(muxes: seq<Mux>, m: nat, i: nat)
    requires UniqueDrivers(muxes) && m < |muxes| && i < |muxes[m].out|
    ensures MuxDriven(muxes, muxes[m].out[i]) && Owner(muxes, muxes[m].out[i]) == m
  {
    var n := Owner(muxes, muxes[m].out[i]);
    var j :| 0 <= j < |muxes[n].out| && muxes[n].out[j] == muxes[m].out[i];
  }

  ghost function Dest(net: Netlist, st: State): nat -> iset<(nat, nat)>
    requires WfMuxes(net) && Shaped(net.muxes, st)
  {
    (w: nat) => if MuxDriven(net.muxes, w) then Ends(net, st, Owner(net.muxes, w)) else iset{}
  }

  /** An untapped driven wire that a data port reads fans into that port. */
  lemma OwnerFans(net: Netlist, m: nat, p: nat, w: nat)
    requires Reads(net, m, p, w) && MuxDriven(net.muxes, w) && !Tapped(net, w)
    ensures FansInto(net, Owner(net.muxes, w), m, p)
  {
    var k := Owner(net.muxes, w);
    var i :| 0 <= i < |net.muxes[k].out| && net.muxes[k].out[i] == w;
  }

  /** Cell `k` of the trimmed module, port `j`, is this port of the original. */
  ghost function NameOf(net: Netlist, st: State, cells: seq<nat>): (nat, nat) -> (nat, nat) {
    (k: nat, j: nat) =>
      if k < |cells| && cells[k] < |net.muxes| && j < |Live(net.muxes, st, cells[k])|
      then (cells[k], Live(net.muxes, st, cells[k])[j]) else (0, 0)
  }

  /** What a data port of the trimmed module reads was read by the port it comes from. */
  lemma TrimmedReads(net: Netlist, st: State, cells: seq<nat>, k: nat, j: nat, w: nat)
    requires WfMuxes(net) && Shaped(net.muxes, st) && DataRefines(net.muxes, st)
    requires k < |cells| == |Trimmed(net, st).muxes| && cells[k] < |net.muxes|
    requires Cells(net.muxes, st, cells[k]) == [Trimmed(net, st).muxes[k]]
    requires Reads(Trimmed(net, st), k, j, w)
    ensures var t := NameOf(net, st, cells)(k, j); t.0 == cells[k] && Reads(net, t.0, t.1, w)
    ensures |Live(net.muxes, st, cells[k])| >= 2
  {
    var m := cells[k];
    var live := Live(net.muxes, st, m);
    var y := TrimMux(net.muxes[m], st.data[m], live);
    assert y.data[j] == st.data[m][live[j]];
    var i :| 0 <= i < |y.data[j]| && y.data[j][i] == Wire(w);
    assert st.data[m][live[j]][i] == net.muxes[m].data[live[j]][i];
  }

  lemma TrimmedReadRouted(net: Netlist, st: State, cells: seq<nat>, k: nat, j: nat, w: nat)
    requires WfMuxes(net) && Shaped(net.muxes, st) && DataRefines(net.muxes, st)
    requires k < |cells| == |Trimmed(net, st).muxes| && cells[k] < |net.muxes|
    requires Cells(net.muxes, st, cells[k]) == [Trimmed(net, st).muxes[k]]
    requires ReadsOwn(Trimmed(net, st), net.muxes, k, j, w)
    ensures NameOf(net, st, cells)(k, j) in Dest(net, st)(w)
  {
    TrimmedReads(net, st, cells, k, j, w);
    var t := NameOf(net, st, cells)(k, j);
    OwnerFans(net, t.0, t.1, w);
    EndHere(net, st, Owner(net.muxes, w), t.0, t.1);
  }

  lemma TrimmedConnRouted(net: Netlist, st: State, m: nat, i: nat)
    requires WellFormed(net) && Shaped(net.muxes, st) && DataRefines(net.muxes, st)
    requires m < |net.muxes| && i < |net.muxes[m].out| && |Live(net.muxes, st, m)| == 1
    ensures ConnRouted(net, net.muxes, Dest(net, st), net.muxes[m].out[i],
                       st.data[m][Live(net.muxes, st, m)[0]][i])
  {
    var p := Live(net.muxes, st, m)[0];
    var b := st.data[m][p][i];
    OwnerIs(net.muxes, m, i);
    assert b == net.muxes[m].data[p][i] || b == Zero || b == One;
    if b.Wire? && MuxDriven(net.muxes, b.id) && !Tapped(net, b.id) {
      assert Reads(net, m, p, b.id);
      OwnerFans(net, m, p, b.id);
      EndThrough(net, st, Owner(net.muxes, b.id), m, p);
    }
  }

  lemma CellsRouted(net: Netlist, st: State, m: nat)
    requires WellFormed(net) && Shaped(net.muxes, st) && m < |net.muxes|
    ensures CellRouted(net.muxes, Dest(net, st), net.muxes[m].out)
  {
    forall i | 0 <= i < |net.muxes[m].out|
      ensures MuxDriven(net.muxes, net.muxes[m].out[i]) && Owner(net.muxes, net.muxes[m].out[i]) == m
    {
      OwnerIs(net.muxes, m, i);
    }
  }

  lemma TrimmedRouted(net: Netlist, st: State, cells: seq<nat>)
    requires WellFormed(net) && Shaped(net.muxes, st) && DataRefines(net.muxes, st)
    requires CellsOf(net, st, cells)
    ensures Routed(Trimmed(net, st), net.muxes, Dest(net, st), NameOf(net, st, cells))
  {
    var r, own, dest := Trimmed(net, st), net.muxes, Dest(net, st);
    forall k, j, w | ReadsOwn(r, own, k, j, w)
      ensures NameOf(net, st, cells)(k, j) in dest(w)
    {
      TrimmedReadRouted(net, st, cells, k, j, w);
    }
    var conns := ConnOrigins(net, st);
    forall k | 0 <= k < |r.conns|
      ensures ConnRouted(r, own, dest, r.conns[k].0, r.conns[k].1)
    {
      var (m, i) := conns[k];
      assert Conns(net.muxes, st, m)[i] == r.conns[k];
      TrimmedConnRouted(net, st, m, i);
    }
    forall k | 0 <= k < |r.muxes|
      ensures CellRouted(own, dest, r.muxes[k].out)
    {
      assert Cells(net.muxes, st, cells[k]) == [r.muxes[k]];
      CellsRouted(net, st, cells[k]);
    }
  }

  /** `cells` numbers the cells of the original that the cells of the trimmed module come from. */
  ghost predicate CellsOf(net: Netlist, st: State, cells: seq<nat>)
    requires WfMuxes(net) && Shaped(net.muxes, st)
  {
    && |cells| == |Trimmed(net, st).muxes|
    && (forall k :: 0 <= k < |cells| ==>
          cells[k] < |net.muxes| && Cells(net.muxes, st, cells[k]) == [Trimmed(net, st).muxes[k]])
    && Distinct(cells)
  }

  ghost predicate Distinct(cells: seq<nat>) {
    forall k, l :: 0 <= k < l < |cells| ==> cells[k] != cells[l]
  }

  lemma TrimMuxPlain(own: seq<Mux>, x: Mux, data: seq<seq<Bit>>, live: seq<nat>)
    requires WfMux(x) && SameShape(data, x.data) && PlainControls(own, x)
    requires |live| >= 2 && AllBelow(live, |x.data|) && AllBelow(live[..|live| - 1], live[|live| - 1])
    requires Ascending(live)
    ensures PlainControls(own, TrimMux(x, data, live))
  {
    var y := TrimMux(x, data, live);
    var last := |live| - 1;
    assert forall j :: 0 <= j < last ==> live[j] < live[last];
    assert forall j :: 0 <= j < last ==> y.ctrl[j] == x.ctrl[live[j]];
    AscendingLength(live, |x.data|);
  }

  lemma {:induction false} AscendingLength(live: seq<nat>, n: nat)
    requires Ascending(live) && AllBelow(live, n)
    ensures |live| <= n
  {
    if live != [] {
      AscendingLength(live[..|live| - 1], live[|live| - 1]);
    }
  }

  lemma CellPlain(own: seq<Mux>, muxes: seq<Mux>, st: State, m: nat)
    requires m < |muxes| && WfMux(muxes[m]) && Shaped(muxes, st) && PlainControls(own, muxes[m])
    ensures forall y :: y in Cells(muxes, st, m) ==> PlainControls(own, y)
  {
    LivePortsAscend(st.enabled, m, |muxes[m].data|);
    if |Live(muxes, st, m)| >= 2 {
      TrimMuxPlain(own, muxes[m], st.data[m], Live(muxes, st, m));
    }
  }

  lemma TrimmedPlain(net: Netlist, st: State, cells: seq<nat>, own: seq<Mux>)
    requires WfMuxes(net) && Shaped(net.muxes, st) && CellsOf(net, st, cells) && AllPlain(own, net.muxes)
    ensures AllPlain(own, Trimmed(net, st).muxes)
  {
    forall k | 0 <= k < |cells|
      ensures PlainControls(own, Trimmed(net, st).muxes[k])
    {
      CellPlain(own, net.muxes, st, cells[k]);
      assert Trimmed(net, st).muxes[k] in Cells(net.muxes, st, cells[k]);
    }
  }

  /** What resolving the connections of a trimmed module keeps of it. */
  ghost predicate Resolves(net: Netlist, st: State, cells: seq<nat>, r: Netlist)
    requires WfMuxes(net) && Shaped(net.muxes, st)
  {
    && CellsOf(net, st, cells) && |r.muxes| == |cells|
    && (forall k :: 0 <= k < |cells| ==>
          && r.muxes[k].out == net.muxes[cells[k]].out && |Live(net.muxes, st, cells[k])| >= 2
          && |r.muxes[k].data| == |Live(net.muxes, st, cells[k])|)
    && (forall k :: 0 <= k < |cells| && SomeTapped(net, cells[k]) ==> SomeTapped(r, k))
    && Routed(r, net.muxes, Dest(net, st), NameOf(net, st, cells))
  }

  /** Port `p` of cell `m` of the new module is port `q` of cell `x`, which stays, of the old one. */
  ghost predicate ComesFrom(net: Netlist, st: State, cells: seq<nat>, m: nat, p: nat, x: nat, q: nat)
    requires WfMuxes(net) && Shaped(net.muxes, st)
  {
    && m < |cells| && x == cells[m] && x < |net.muxes| && |Live(net.muxes, st, x)| >= 2
    && p < |Live(net.muxes, st, x)| && q == Live(net.muxes, st, x)[p]
  }

  /** What cell `k` of the new module fans into, port `p` of `m`, is an end of the cell it comes from. */
  ghost predicate WasEnd(net: Netlist, st: State, cells: seq<nat>, k: nat, m: nat, p: nat)
    requires WfMuxes(net) && Shaped(net.muxes, st)
  {
    k < |cells| && exists n: nat, x: nat, q: nat ::
      ComesFrom(net, st, cells, m, p, x, q) && EndsAt(net, st, cells[k], n, (x, q))
  }

  ghost predicate EdgesKept(net: Netlist, st: State, cells: seq<nat>, r: Netlist)
    requires WfMuxes(net) && Shaped(net.muxes, st)
  {
    forall k: nat, m: nat, p: nat :: FansInto(r, k, m, p) ==> WasEnd(net, st, cells, k, m, p)
  }

  lemma EdgeEnds(net: Netlist, st: State, cells: seq<nat>, r: Netlist, k: nat, m: nat, p: nat)
    requires WellFormed(net) && Shaped(net.muxes, st) && Resolves(net, st, cells, r) && FansInto(r, k, m, p)
    ensures WasEnd(net, st, cells, k, m, p)
  {
    var w := FanRouted(r, net.muxes, Dest(net, st), NameOf(net, st, cells), k, m, p);
    var x, q := cells[m], Live(net.muxes, st, cells[m])[p];
    var i :| 0 <= i < |net.muxes[cells[k]].out| && net.muxes[cells[k]].out[i] == w;
    OwnerIs(net.muxes, cells[k], i);
    assert (x, q) in Ends(net, st, cells[k]);
    var n: nat :| EndsAt(net, st, cells[k], n, (x, q));
    assert ComesFrom(net, st, cells, m, p, x, q);
  }

  /** A path from cell `k` of the new module to port `p` of cell `m` was one of the old one. */
  ghost predicate WasPath(net: Netlist, st: State, cells: seq<nat>, k: nat, m: nat, p: nat)
    requires WfMuxes(net) && Shaped(net.muxes, st)
  {
    k < |cells| && exists j: nat, x: nat, q: nat :: ComesFrom(net, st, cells, m, p, x, q) && Leads(net, cells[k], j, x, q)
  }

  lemma PathStarts(net: Netlist, st: State, cells: seq<nat>, k: nat, m: nat, p: nat)
    requires WfMuxes(net) && Shaped(net.muxes, st) && WasEnd(net, st, cells, k, m, p)
    ensures WasPath(net, st, cells, k, m, p)
  {
    var n: nat, x: nat, q: nat :| ComesFrom(net, st, cells, m, p, x, q) && EndsAt(net, st, cells[k], n, (x, q));
    var j := EndsLead(net, st, cells[k], n, x, q);
  }

  lemma PathGoesOn(net: Netlist, st: State, cells: seq<nat>, k: nat, a: nat, b: nat, m: nat, p: nat)
    requires WfMuxes(net) && Shaped(net.muxes, st) && WasEnd(net, st, cells, k, a, b) && Distinct(cells)
    requires a != m && WasPath(net, st, cells, a, m, p)
    ensures WasPath(net, st, cells, k, m, p)
  {
    var n: nat, y: nat, d: nat :| ComesFrom(net, st, cells, a, b, y, d) && EndsAt(net, st, cells[k], n, (y, d));
    var l: nat, x: nat, q: nat :| ComesFrom(net, st, cells, m, p, x, q) && Leads(net, cells[a], l, x, q);
    assert y != x by {
      assert a < m || m < a;
    }
    var j := EndsThenLeads(net, st, cells[k], n, (y, d), l, x, q);
  }

  /** Paths by induction: whatever holds of edges and is kept by putting an edge in front. */
  lemma {:induction false} PathInduction(r: Netlist, was: (nat, nat, nat) -> bool, k: nat, n: nat, m: nat, p: nat)
    requires forall k: nat, m: nat, p: nat :: FansInto(r, k, m, p) ==> was(k, m, p)
    requires forall k: nat, a: nat, b: nat, m: nat, p: nat :: FansInto(r, k, a, b) && a != m && was(a, m, p) ==> was(k, m, p)
    requires Leads(r, k, n, m, p)
    ensures was(k, m, p)
    decreases n
  {
    if n > 0 {
      var a: nat, b: nat :| a != m && FansInto(r, k, a, b) && Leads(r, a, n - 1, m, p);
      PathInduction(r, was, a, n - 1, m, p);
    }
  }

  /** Paths of the new module are paths of the old one. */
  lemma PathsKept(net: Netlist, st: State, cells: seq<nat>, r: Netlist, k: nat, n: nat, m: nat, p: nat)
    requires WfMuxes(net) && Shaped(net.muxes, st) && EdgesKept(net, st, cells, r) && Distinct(cells)
    requires Leads(r, k, n, m, p)
    ensures WasPath(net, st, cells, k, m, p)
  {
    var was := (k: nat, m: nat, p: nat) => WasPath(net, st, cells, k, m, p);
    forall k: nat, m: nat, p: nat | FansInto(r, k, m, p)
      ensures was(k, m, p)
    {
      PathStarts(net, st, cells, k, m, p);
    }
    forall k: nat, a: nat, b: nat, m: nat, p: nat | FansInto(r, k, a, b) && a != m && was(a, m, p)
      ensures was(k, m, p)
    {
      PathGoesOn(net, st, cells, k, a, b, m, p);
    }
    PathInduction(r, was, k, n, m, p);
  }

  lemma SamePath(net: Netlist, st: State, cells: seq<nat>, k: nat, m: nat, p: nat, q: nat)
    requires WfMuxes(net) && Shaped(net.muxes, st) && NeverRejoins(net)
    requires WasPath(net, st, cells, k, m, p) && WasPath(net, st, cells, k, m, q) && !SomeTapped(net, cells[k])
    ensures p == q
  {
    var i: nat, x: nat, a: nat :| ComesFrom(net, st, cells, m, p, x, a) && Leads(net, cells[k], i, x, a);
    var j: nat, y: nat, b: nat :| ComesFrom(net, st, cells, m, q, y, b) && Leads(net, cells[k], j, y, b);
    LivePortsAscend(st.enabled, x, |net.muxes[x].data|);
  }

  lemma EdgesNeverRejoin(net: Netlist, st: State, cells: seq<nat>, r: Netlist)
    requires WfMuxes(net) && Shaped(net.muxes, st) && EdgesKept(net, st, cells, r) && Distinct(cells) && NeverRejoins(net)
    requires forall k: nat :: k < |cells| && SomeTapped(net, cells[k]) ==> SomeTapped(r, k)
    ensures NeverRejoins(r)
  {
    forall k: nat, m: nat, p: nat, q: nat, i: nat, j: nat | !SomeTapped(r, k) && Leads(r, k, i, m, p) && Leads(r, k, j, m, q)
      ensures p == q
    {
      PathsKept(net, st, cells, r, k, i, m, p);
      PathsKept(net, st, cells, r, k, j, m, q);
      SamePath(net, st, cells, k, m, p, q);
    }
  }

  lemma ResolvedNeverRejoins(net: Netlist, st: State, cells: seq<nat>, r: Netlist)
    requires WellFormed(net) && Shaped(net.muxes, st) && Resolves(net, st, cells, r) && NeverRejoins(net)
    ensures NeverRejoins(r)
  {
    forall k: nat, m: nat, p: nat | FansInto(r, k, m, p)
      ensures WasEnd(net, st, cells, k, m, p)
    {
      EdgeEnds(net, st, cells, r, k, m, p);
    }
    EdgesNeverRejoin(net, st, cells, r);
  }

  lemma TrimmedTame(net: Netlist, rank: nat -> nat, st: State)
    requires WellFormed(net) && Acyclic(rank, net) && Shaped(net.muxes, st) && DataRefines(net.muxes, st) && Tame(net)
    ensures Tame(Canonical(Trimmed(net, st)))
  {
    var cells := CellOrigins(net, st);
    TrimmedPlain(net, st, cells, net.muxes);
    TrimmedResolves(net, rank, st, cells);
    ResolvedNeverRejoins(net, st, cells, Canonical(Trimmed(net, st)));
    RoutedPlain(Canonical(Trimmed(net, st)), net.muxes, Dest(net, st), NameOf(net, st, cells));
  }

  lemma TrimmedResolves(net: Netlist, rank: nat -> nat, st: State, cells: seq<nat>)
    requires WellFormed(net) && Acyclic(rank, net) && Shaped(net.muxes, st) && DataRefines(net.muxes, st)
    requires CellsOf(net, st, cells) && AllPlain(net.muxes, Trimmed(net, st).muxes)
    ensures Resolves(net, st, cells, Canonical(Trimmed(net, st)))
    ensures AllPlain(net.muxes, Canonical(Trimmed(net, st)).muxes)
  {
    var t, r := Trimmed(net, st), Canonical(Trimmed(net, st));
    TrimmedRouted(net, st, cells);
    TrimmedWf(net, rank, st);
    CanonicalRouted(rank, t, net.muxes, Dest(net, st), NameOf(net, st, cells));
    CanonicalShape(t);
    forall k | 0 <= k < |cells|
      ensures r.muxes[k].out == net.muxes[cells[k]].out && |Live(net.muxes, st, cells[k])| >= 2
      ensures |r.muxes[k].data| == |Live(net.muxes, st, cells[k])|
    {
      assert Cells(net.muxes, st, cells[k]) == [t.muxes[k]];
    }
    forall k | 0 <= k < |cells| && SomeTapped(net, cells[k])
      ensures SomeTapped(r, k)
    {
      var i :| 0 <= i < |net.muxes[cells[k]].out| && Tapped(net, net.muxes[cells[k]].out[i]);
      assert r.muxes[k].out[i] == t.muxes[k].out[i] == net.muxes[cells[k]].out[i];
      assert MuxDriven(t.muxes, t.muxes[k].out[i]);
      CanonicalTapped(rank, t, t.muxes[k].out[i]);
    }
  }

  /** A tapped output of a cell stays tapped. */
  lemma {:induction false} CanonicalTapped(rank: nat -> nat, net: Netlist, w: nat)
    requires WfDrivers(net) && AcyclicAll(rank, net) && MuxDriven(net.muxes, w) && Tapped(net, w)
    ensures Tapped(Canonical(net), w)
    decreases |net.conns|
  {
    if net.conns != [] {
      var (x, b) := net.conns[0];
      var rest := net.(conns := net.conns[1..]);
      assert net.conns == [(x, b)] + rest.conns;
      assert !Driven(rest, x) by {
        assert !MuxDriven(net.muxes, net.conns[0].0);
      }
      SubstWf(rank, rest, x, b);
      SubstTapped(rest, x, b, w);
      SameDrivers(rest.muxes, Subst(x, b, rest).muxes);
      CanonicalTapped(rank, Subst(x, b, rest), w);
    }
  }

  lemma {:induction false} CanonicalShape(net: Netlist)
    ensures |Canonical(net).muxes| == |net.muxes|
    ensures forall m :: 0 <= m < |net.muxes| ==>
              |Canonical(net).muxes[m].data| == |net.muxes[m].data| && Canonical(net).muxes[m].out == net.muxes[m].out
    decreases |net.conns|
  {
    if net.conns != [] {
      CanonicalShape(Subst(net.conns[0].0, net.conns[0].1, net.(conns := net.conns[1..])));
    }
  }

  lemma {:induction false} FewerLeads(r: Netlist, net: Netlist, k: nat, n: nat, m: nat, p: nat)
    requires forall k: nat, m: nat, p: nat :: FansInto(r, k, m, p) ==> FansInto(net, k, m, p)
    requires Leads(r, k, n, m, p)
    ensures Leads(net, k, n, m, p)
    decreases n
  {
    if n > 0 {
      var a: nat, b: nat :| a != m && FansInto(r, k, a, b) && Leads(r, a, n - 1, m, p);
      FewerLeads(r, net, a, n - 1, m, p);
    }
  }

  lemma ReplacedFans(net: Netlist, st: State, k: nat, m: nat, p: nat)
    requires WfMuxes(net) && Shaped(net.muxes, st) && DataRefines(net.muxes, st) && FansInto(Replaced(net, st), k, m, p)
    ensures FansInto(net, k, m, p)
  {
    var r := Replaced(net, st);
    var i :| 0 <= i < |r.muxes[k].out| && !Tapped(r, r.muxes[k].out[i]) && Reads(r, m, p, r.muxes[k].out[i]);
    var j :| 0 <= j < |r.muxes[m].data[p]| && r.muxes[m].data[p][j] == Wire(r.muxes[k].out[i]);
    assert st.data[m][p][j] == net.muxes[m].data[p][j];
    assert Reads(net, m, p, net.muxes[k].out[i]);
  }

  lemma ReplacedTame(net: Netlist, st: State)
    requires WellFormed(net) && Shaped(net.muxes, st) && DataRefines(net.muxes, st) && Tame(net)
    ensures Tame(Replaced(net, st))
  {
    var r := Replaced(net, st);
    forall k: nat, m: nat, p: nat | FansInto(r, k, m, p)
      ensures FansInto(net, k, m, p)
    {
      ReplacedFans(net, st, k, m, p);
    }
    forall k: nat, m: nat, p: nat, q: nat, i: nat, j: nat | !SomeTapped(r, k) && Leads(r, k, i, m, p) && Leads(r, k, j, m, q)
      ensures p == q
    {
      FewerLeads(r, net, k, i, m, p);
      FewerLeads(r, net, k, j, m, q);
      assert !SomeTapped(net, k);
    }
    forall m | 0 <= m < |r.muxes|
      ensures PlainControls(r.muxes, r.muxes[m])
    {
      assert PlainControls(net.muxes, net.muxes[m]);
      SameDrivers(net.muxes, r.muxes);
    }
  }

  lemma SameDrivers(a: seq<Mux>, b: seq<Mux>)
    requires |a| == |b| && forall m :: 0 <= m < |a| ==> a[m].out == b[m].out
    ensures forall w :: MuxDriven(a, w) == MuxDriven(b, w)
  {
    forall w
      ensures MuxDriven(a, w) == MuxDriven(b, w)
    {
      if m, i :| 0 <= m < |a| && 0 <= i < |a[m].out| && a[m].out[i] == w {
        assert b[m].out[i] == w;
      }
      if m, i :| 0 <= m < |b| && 0 <= i < |b[m].out| && b[m].out[i] == w {
        assert a[m].out[i] == w;
      }
    }
  }

  /** A round keeps a module tame. */
  lemma TameRound(net: Netlist, rank: nat -> nat, budget: nat)
    requires WellFormed(net) && Acyclic(rank, net) && Tame(net)
    ensures Tame(Round(net, budget))
  {
    var st := FinalState(Build(net), budget);
    FinalRefines(net, budget);
    if st.budget == 0 {
      ReplacedTame(net, st);
    } else {
      TrimmedTame(net, rank, st);
    }
  }

  /** An acyclic, well formed and tame module. */
  ghost predicate Safe(net: Netlist, rank: nat -> nat) {
    WellFormed(net) && Acyclic(rank, net) && Tame(net)
  }

  lemma SafeRound(net: Netlist, rank: nat -> nat, budget: nat)
    requires Safe(net, rank)
    ensures Safe(Round(net, budget), rank)
  {
    RoundWf(net, rank, budget);
    TameRound(net, rank, budget);
  }

  /** Under `env`, everything outside the multiplexers reads the same in both modules. */
  ghost predicate SafelyPreserved(net: Netlist, other: Netlist, rank: nat -> nat, env: Env) {
    Safe(net, rank) && Safe(other, rank) && Preserved(net, other, rank, env)
  }

  lemma SafeNext(net: Netlist, before: Netlist, rank: nat -> nat, budget: nat, env: Env)
    requires SafelyPreserved(net, before, rank, env) && !env.undef && WfMuxes(before)
    ensures SafelyPreserved(net, Round(before, budget), rank, env)
  {
    SafeRound(before, rank, budget);
    TameEligible(before);
    PreservedRound(net, before, rank, budget, env);
  }

  lemma SafeSelf(net: Netlist, rank: nat -> nat, env: Env)
    requires Safe(net, rank) && OneHot(Meaning(net, rank, env), net.muxes)
    ensures SafelyPreserved(net, net, rank, env)
  {
    PreservedSelf(net, rank, env);
  }

  lemma {:induction false} IteratePreserves(f: Netlist -> Netlist, net: Netlist, rank: nat -> nat, k: nat, env: Env)
    requires SafelyPreserved(net, net, rank, env)
    requires forall n :: SafelyPreserved(net, n, rank, env) ==> SafelyPreserved(net, f(n), rank, env)
    ensures SafelyPreserved(net, Iterate(f, net, k), rank, env)
  {
    if k > 0 {
      IteratePreserves(f, net, rank, k - 1, env);
    }
  }

  /** On a tame module any number of rounds preserves meaning: whatever the undriven bits are, if no
      `$pmux` has two active controls, everything outside the multiplexers reads the same values (and
      still no `$pmux` has two active controls). */
  lemma RoundsPreserve(net: Netlist, rank: nat -> nat, budget: nat, k: nat, env: Env)
    requires Safe(net, rank) && !env.undef && OneHot(Meaning(net, rank, env), net.muxes)
    ensures SafelyPreserved(net, After(net, budget, k), rank, env)
  {
    SafeSelf(net, rank, env);
    forall n | SafelyPreserved(net, n, rank, env)
      ensures SafelyPreserved(net, RoundOf(budget)(n), rank, env)
    {
      SafeNext(net, n, rank, budget, env);
    }
    IteratePreserves(RoundOf(budget), net, rank, k, env);
  }

  /** Whatever the undriven bits are, the two modules read the same outside the multiplexers. */
  ghost predicate Equivalent(net: Netlist, other: Netlist, rank: nat -> nat)
    requires WellFormed(net) && Acyclic(rank, net)
  {
    forall env: Env :: !env.undef && OneHot(Meaning(net, rank, env), net.muxes) ==> SafelyPreserved(net, other, rank, env)
  }

  lemma RoundsEquivalent(net: Netlist, rank: nat -> nat, budget: nat, k: nat)
    requires Safe(net, rank)
    ensures Equivalent(net, After(net, budget, k), rank)
  {
    forall env: Env | !env.undef && OneHot(Meaning(net, rank, env), net.muxes)
      ensures SafelyPreserved(net, After(net, budget, k), rank, env)
    {
      RoundsPreserve(net, rank, budget, k, env);
    }
  }
}
