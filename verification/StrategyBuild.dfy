/** Proving a tree of properties: as one block, or split into its parts, whichever is done first. */
module StrategyBuild {
  import opened Flatten
  import opened Strategy

  /** What exploring a list of properties ends with: a proof by some engine, a counterexample, or neither. */
  datatype Verdict = Proved(config: string) | Refuted | Unknown

  /** How a run goes. `explore` is the result for a list of properties; `whole` says that the attempt on the
      whole list beats its parts, and `early` that a part had by then recorded the failure of the property
      at a position of the list, if it fails alone. */
  datatype Oracle<!N> = Oracle(explore: seq<N> -> Verdict, whole: seq<N> -> bool, early: (seq<N>, nat) -> bool)

  /** The failures that the parts recorded before they were cancelled, among the first `n` properties. */
  function Recorded<N>(all: seq<N>, o: Oracle<N>, n: nat): seq<N>
    requires n <= |all|
  {
    if n == 0 then []
    else if o.explore([all[n - 1]]).Unknown? && o.early(all, n - 1) then Recorded(all, o, n - 1) + [all[n - 1]]
    else Recorded(all, o, n - 1)
  }

  datatype Block<N> = Block(props: seq<N>, config: string)

  /** A strategy, the failures recorded, and the properties refuted on the way. */
  datatype Built<N> = Built(blocks: seq<Block<N>>, failures: seq<N>, refuted: seq<N>)

  function SizeTo<N>(ts: seq<Tree<N>>, n: nat): nat
    requires n <= |ts|
    decreases ts, n
  {
    if n == 0 then 0 else SizeTo(ts, n - 1) + SizeOf(ts[n - 1])
  }

  function SizeOf<N>(t: Tree<N>): (r: nat)
    ensures r > 0
    decreases t
  {
    match t
    case Leaf(_) => 1
    case Node(children) => 1 + SizeTo(children, |children|)
  }

  function Size<N>(ts: seq<Tree<N>>): nat {
    SizeTo(ts, |ts|)
  }

  /** Among the first `n` trees, the subtrees, as lists, and the leaves. */
  function Subtrees<N>(ts: seq<Tree<N>>, n: nat): (r: seq<seq<Tree<N>>>)
    requires n <= |ts|
  {
    if n == 0 then []
    else if ts[n - 1].Node? then Subtrees(ts, n - 1) + [ts[n - 1].children]
    else Subtrees(ts, n - 1)
  }

  function Single<N>(ts: seq<Tree<N>>, n: nat): (r: seq<Tree<N>>)
    requires n <= |ts|
    ensures forall i :: 0 <= i < |r| ==> r[i].Leaf?
  {
    if n == 0 then []
    else if ts[n - 1].Leaf? then Single(ts, n - 1) + [ts[n - 1]]
    else Single(ts, n - 1)
  }

  /** Each of the first `n` trees in a list of its own. */
  function Apart<N>(ts: seq<Tree<N>>, n: nat): (r: seq<seq<Tree<N>>>)
    requires n <= |ts|
    ensures |r| == n && forall i :: 0 <= i < n ==> r[i] == [ts[i]]
  {
    if n == 0 then [] else Apart(ts, n - 1) + [[ts[n - 1]]]
  }

  /** The parts of a split: every leaf alone when there are only leaves, else the subtrees and the leaves. */
  function Parts<N>(ts: seq<Tree<N>>): (r: seq<seq<Tree<N>>>) {
    var subtrees, single := Subtrees(ts, |ts|), Single(ts, |ts|);
    if subtrees == [] then Apart(single, |single|) else subtrees + [single]
  }

  lemma {:induction false} SubtreeSmaller<N>(ts: seq<Tree<N>>, n: nat, i: nat)
    requires n <= |ts| && i < |Subtrees(ts, n)|
    ensures Size(Subtrees(ts, n)[i]) < SizeTo(ts, n)
  {
    if i < |Subtrees(ts, n - 1)| {
      SubtreeSmaller(ts, n - 1, i);
    }
  }

  lemma {:induction false} LeavesSize<N>(ts: seq<Tree<N>>, n: nat)
    requires n <= |ts| && forall i :: 0 <= i < n ==> ts[i].Leaf?
    ensures SizeTo(ts, n) == n
  {
    if n > 0 {
      LeavesSize(ts, n - 1);
    }
  }

  lemma {:induction false} SingleSmaller<N>(ts: seq<Tree<N>>, n: nat)
    requires n <= |ts|
    ensures |Single(ts, n)| + |Subtrees(ts, n)| == n <= SizeTo(ts, n)
  {
    if n > 0 {
      SingleSmaller(ts, n - 1);
    }
  }

  lemma SizeOne<N>(t: Tree<N>)
    ensures Size([t]) == SizeOf(t)
  {
    assert SizeTo([t], 1) == SizeTo([t], 0) + SizeOf(t);
  }

  lemma PartSmaller<N>(ts: seq<Tree<N>>, i: nat)
    requires |ts| > 1 && i < |Parts(ts)|
    ensures Size(Parts(ts)[i]) < Size(ts)
  {
    var single := Single(ts, |ts|);
    SingleSmaller(ts, |ts|);
    LeavesSize(single, |single|);
    if |Subtrees(ts, |ts|)| == 0 {
      SizeOne(single[i]);
    } else if i < |Subtrees(ts, |ts|)| {
      SubtreeSmaller(ts, |ts|, i);
    }
  }

  /** Part `i`, which is smaller than the tree. */
  function PartAt<N>(ts: seq<Tree<N>>, i: nat): (r: seq<Tree<N>>)
    requires |ts| > 1 && i < |Parts(ts)|
    ensures Size(r) < Size(ts)
  {
    PartSmaller(ts, i);
    Parts(ts)[i]
  }

  function Join<N>(x: Built<N>, y: Built<N>): Built<N> {
    Built(x.blocks + y.blocks, x.failures + y.failures, x.refuted + y.refuted)
  }

  lemma LoneNode<N>(ts: seq<Tree<N>>)
    requires |ts| == 1 && |Leaves(ts)| > 1
    ensures ts[0].Node? && Size(ts[0].children) < Size(ts) && Leaves(ts) == Leaves(ts[0].children)
  {
    assert ts == [ts[0]];
    OneTree(ts[0]);
    SizeOne(ts[0]);
  }

  /** The strategy for a tree. */
  function Build<N>(ts: seq<Tree<N>>, o: Oracle<N>): Built<N>
    decreases Size(ts), 1, 0
  {
    var all := Leaves(ts);
    if |all| == 0 then Built([], [], [])
    else if |all| == 1 then
      match o.explore(all)
      case Proved(config) => Built([Block(all, config)], [], [])
      case Refuted => Built([], [], all)
      case Unknown => Built([], all, [])
    else if |ts| == 1 then
      LoneNode(ts);
      Build(ts[0].children, o)
    else if o.explore(all).Proved? && o.whole(all) then Built([Block(all, o.explore(all).config)], Recorded(all, o, |all|), [])
    else
      NotEmpty(ts);
      BuildParts(ts, o, |Parts(ts)|)
  }

  lemma NotEmpty<N>(ts: seq<Tree<N>>)
    requires |Leaves(ts)| > 0
    ensures |ts| > 0
  {
  }

  /** The first `n` parts, one after the other. */
  function BuildParts<N>(ts: seq<Tree<N>>, o: Oracle<N>, n: nat): Built<N>
    requires |ts| > 1 && n <= |Parts(ts)|
    decreases Size(ts), 0, n
  {
    if n == 0 then Built([], [], [])
    else Join(BuildParts(ts, o, n - 1), Build(PartAt(ts, n - 1), o))
  }

  // ---------------------------------------------------------------------------------------------
  // The recursion, step by step

  /** All properties of a tree, in order. */
  method FindAll<N>(ts: seq<Tree<N>>, before: seq<N>) returns (all: seq<N>)
    ensures all == before + Leaves(ts)
  {
    all := before;
    for i := 0 to |ts|
      invariant all == before + Leaves(ts[..i])
    {
      assert ts[..i + 1][..i] == ts[..i];
      match ts[i]
      case Leaf(name) => all := all + [name];
      case Node(children) => all := FindAll(children, all);
    }
    assert ts[..|ts|] == ts;
  }

  /** The parts: subtrees and leaves are told apart in one pass. */
  method FindParts<N>(ts: seq<Tree<N>>) returns (parts: seq<seq<Tree<N>>>)
    ensures parts == Parts(ts)
  {
    var children: seq<seq<Tree<N>>> := [];
    var rest: seq<Tree<N>> := [];
    for i := 0 to |ts|
      invariant children == Subtrees(ts, i) && rest == Single(ts, i)
    {
      match ts[i]
      case Leaf(_) => rest := rest + [ts[i]];
      case Node(subtree) => children := children + [subtree];
    }
    if |children| == 0 {
      parts := [];
      for i := 0 to |rest|
        invariant parts == Apart(rest, i)
      {
        parts := parts + [[rest[i]]];
      }
    } else {
      parts := children + [rest];
    }
  }

  method BuildStrategyRec<N>(ts: seq<Tree<N>>, o: Oracle<N>, failures0: seq<N>)
    returns (blocks: seq<Block<N>>, failures: seq<N>)
    ensures blocks == Build(ts, o).blocks && failures == failures0 + Build(ts, o).failures
    decreases Size(ts), 1
  {
    blocks, failures := [], failures0;
    var all := FindAll(ts, []);
    assert all == Leaves(ts);
    if |all| == 0 {
      return;
    }
    if |all| == 1 {
      match o.explore(all) {
        case Proved(config) => blocks := [Block(all, config)];
        case Refuted =>
        case Unknown => failures := failures + all;
      }
      return;
    }
    if |ts| == 1 {
      LoneNode(ts);
      blocks, failures := BuildStrategyRec(ts[0].children, o, failures);
      return;
    }
    var whole := o.explore(all);
    if whole.Proved? && o.whole(all) {
      WholeWins(ts, o);
      return [Block(all, whole.config)], failures + Recorded(all, o, |all|);
    }
    NotEmpty(ts);
    PartsWin(ts, o);
    blocks, failures := BuildPartsRec(ts, o, failures0);
  }

  lemma WholeWins<N>(ts: seq<Tree<N>>, o: Oracle<N>)
    requires |ts| != 1 && |Leaves(ts)| > 1 && o.explore(Leaves(ts)).Proved? && o.whole(Leaves(ts))
    ensures Build(ts, o) == Built([Block(Leaves(ts), o.explore(Leaves(ts)).config)], Recorded(Leaves(ts), o, |Leaves(ts)|), [])
  {
  }

  lemma PartsWin<N>(ts: seq<Tree<N>>, o: Oracle<N>)
    requires |ts| > 1 && |Leaves(ts)| > 1 && !(o.explore(Leaves(ts)).Proved? && o.whole(Leaves(ts)))
    ensures Build(ts, o) == BuildParts(ts, o, |Parts(ts)|)
  {
  }

  /** When the whole list is proved first the strategy is that one block, however the tree is nested. */
  lemma {:induction false} WholeFirst<N>(ts: seq<Tree<N>>, o: Oracle<N>)
    requires |Leaves(ts)| > 1 && o.explore(Leaves(ts)).Proved? && o.whole(Leaves(ts))
    ensures Build(ts, o).blocks == [Block(Leaves(ts), o.explore(Leaves(ts)).config)] && Build(ts, o).refuted == []
    ensures forall x :: x in Build(ts, o).failures <==>
              exists i :: 0 <= i < |Leaves(ts)| && Leaves(ts)[i] == x && o.explore([x]).Unknown? && o.early(Leaves(ts), i)
    decreases Size(ts)
  {
    if |ts| == 1 {
      LoneNode(ts);
      WholeFirst(ts[0].children, o);
    } else {
      WholeWins(ts, o);
      RecordedExact(Leaves(ts), o, |Leaves(ts)|);
    }
  }

  lemma {:induction false} RecordedExact<N>(all: seq<N>, o: Oracle<N>, n: nat)
    requires n <= |all|
    ensures forall x :: x in Recorded(all, o, n) <==>
              exists i :: 0 <= i < n && all[i] == x && o.explore([x]).Unknown? && o.early(all, i)
  {
    if n > 0 {
      RecordedExact(all, o, n - 1);
    }
  }

  /** A property that is alone is proved, refuted or recorded. */
  lemma AloneExact<N>(ts: seq<Tree<N>>, o: Oracle<N>)
    requires |Leaves(ts)| == 1
    ensures var all, b := Leaves(ts), Build(ts, o);
            && (o.explore(all).Proved? ==> b == Built([Block(all, o.explore(all).config)], [], []))
            && (o.explore(all).Refuted? ==> b == Built([], [], all))
            && (o.explore(all).Unknown? ==> b == Built([], all, []))
  {
  }

  /** The leaves of a list of trees, as trees. */
  ghost predicate OnlyLeaves<N>(ts: seq<Tree<N>>) {
    forall i :: 0 <= i < |ts| ==> ts[i].Leaf?
  }

  lemma {:induction false} NoSubtrees<N>(ts: seq<Tree<N>>, n: nat)
    requires n <= |ts| && OnlyLeaves(ts)
    ensures Subtrees(ts, n) == [] && Single(ts, n) == ts[..n]
  {
    if n > 0 {
      NoSubtrees(ts, n - 1);
    }
  }

  /** Where subtree and leaf number `i` of the first `n` trees stand in their lists. */
  lemma {:induction false} TreePlaced<N>(ts: seq<Tree<N>>, n: nat, i: nat)
    requires i < n <= |ts|
    ensures ts[i].Node? ==> |Subtrees(ts, i)| < |Subtrees(ts, n)| && Subtrees(ts, n)[|Subtrees(ts, i)|] == ts[i].children
    ensures ts[i].Leaf? ==> |Single(ts, i)| < |Single(ts, n)| && Single(ts, n)[|Single(ts, i)|] == ts[i]
    ensures |Subtrees(ts, i)| + |Single(ts, i)| == i
  {
    SingleSmaller(ts, i);
    if i < n - 1 {
      TreePlaced(ts, n - 1, i);
    }
  }

  /** Leaves only are taken apart one by one; with a subtree among them there is a part for each subtree, in
      order, and one, the last, for all the leaves together. */
  lemma PartsExact<N>(ts: seq<Tree<N>>, i: nat)
    requires i < |ts|
    ensures OnlyLeaves(ts) ==> |Parts(ts)| == |ts| && Parts(ts)[i] == [ts[i]]
    ensures !OnlyLeaves(ts) ==>
              var last := |Parts(ts)| - 1;
              && last == |Subtrees(ts, |ts|)| > 0 && |Parts(ts)[last]| == |ts| - last
              && (ts[i].Node? ==> exists k :: 0 <= k < last && Parts(ts)[k] == ts[i].children)
              && (ts[i].Leaf? ==> ts[i] in Parts(ts)[last])
  {
    SingleSmaller(ts, |ts|);
    if OnlyLeaves(ts) {
      NoSubtrees(ts, |ts|);
      assert ts[..|ts|] == ts;
    } else {
      var j: nat :| j < |ts| && ts[j].Node?;
      TreePlaced(ts, |ts|, j);
      TreePlaced(ts, |ts|, i);
      if ts[i].Node? {
        assert Parts(ts)[|Subtrees(ts, i)|] == ts[i].children;
      }
    }
  }

  method BuildPartsRec<N>(ts: seq<Tree<N>>, o: Oracle<N>, failures0: seq<N>)
    returns (blocks: seq<Block<N>>, failures: seq<N>)
    requires |ts| > 1
    ensures blocks == BuildParts(ts, o, |Parts(ts)|).blocks
    ensures failures == failures0 + BuildParts(ts, o, |Parts(ts)|).failures
    decreases Size(ts), 0
  {
    blocks, failures := [], failures0;
    var parts := FindParts(ts);
    for i := 0 to |parts|
      invariant blocks == BuildParts(ts, o, i).blocks && failures == failures0 + BuildParts(ts, o, i).failures
    {
      PartAdded(ts, o, i);
      assert parts[i] == PartAt(ts, i);
      ghost var before := BuildParts(ts, o, i).failures;
      var more;
      more, failures := BuildStrategyRec(parts[i], o, failures);
      blocks := blocks + more;
      Regroup(failures0, before, Build(parts[i], o).failures);
    }
  }

  lemma Regroup<T>(x: seq<T>, y: seq<T>, z: seq<T>)
    ensures (x + y) + z == x + (y + z)
  {
  }

  lemma PartAdded<N>(ts: seq<Tree<N>>, o: Oracle<N>, i: nat)
    requires |ts| > 1 && i < |Parts(ts)|
    ensures BuildParts(ts, o, i + 1) == Join(BuildParts(ts, o, i), Build(PartAt(ts, i), o))
  {
  }

  // ---------------------------------------------------------------------------------------------
  // What a strategy covers

  function CountBlocks<N(==)>(blocks: seq<Block<N>>, name: N): nat {
    if blocks == [] then 0 else CountBlocks(blocks[..|blocks| - 1], name) + Count(blocks[|blocks| - 1].props, name)
  }

  lemma {:induction false} CountBlocksAppend<N>(x: seq<Block<N>>, y: seq<Block<N>>, name: N)
    ensures CountBlocks(x + y, name) == CountBlocks(x, name) + CountBlocks(y, name)
  {
    if y == [] {
      assert x + y == x;
    } else {
      CountBlocksAppend(x, y[..|y| - 1], name);
      assert (x + y)[..|x + y| - 1] == x + y[..|y| - 1];
    }
  }

  /** Covered and refuted names are leaves, none more often than it is one, and so are recorded failures;
      and every leaf is covered, refuted or recorded as a failure. */
  predicate Accounted<N(==)>(b: Built<N>, leaves: nat, name: N) {
    && CountBlocks(b.blocks, name) + Count(b.refuted, name) <= leaves && Count(b.failures, name) <= leaves
    && leaves <= CountBlocks(b.blocks, name) + Count(b.refuted, name) + Count(b.failures, name)
  }

  lemma JoinAccounted<N>(x: Built<N>, y: Built<N>, m: nat, n: nat, name: N)
    requires Accounted(x, m, name) && Accounted(y, n, name)
    ensures Accounted(Join(x, y), m + n, name)
  {
    CountBlocksAppend(x.blocks, y.blocks, name);
    CountAppend(x.refuted, y.refuted, name);
    CountAppend(x.failures, y.failures, name);
  }

  /** The leaves of the first `n` parts. */
  function CountParts<N(==)>(parts: seq<seq<Tree<N>>>, n: nat, name: N): nat
    requires n <= |parts|
  {
    if n == 0 then 0 else CountParts(parts, n - 1, name) + CountLeaves(parts[n - 1], name)
  }

  lemma {:induction false} CountPartsPrefix<N>(x: seq<seq<Tree<N>>>, y: seq<seq<Tree<N>>>, n: nat, name: N)
    requires n <= |x| && n <= |y| && forall i :: 0 <= i < n ==> x[i] == y[i]
    ensures CountParts(x, n, name) == CountParts(y, n, name)
  {
    if n > 0 {
      CountPartsPrefix(x, y, n - 1, name);
    }
  }

  lemma {:induction false} SubtreesAndSingles<N>(ts: seq<Tree<N>>, n: nat, name: N)
    requires n <= |ts|
    ensures CountParts(Subtrees(ts, n), |Subtrees(ts, n)|, name) + CountLeaves(Single(ts, n), name)
         == CountLeaves(ts[..n], name)
  {
    if n > 0 {
      SubtreesAndSingles(ts, n - 1, name);
      var t := ts[n - 1];
      assert ts[..n] == ts[..n - 1] + [t];
      CountTreesAppend(ts[..n - 1], [t], name);
      OneTree(t);
      if t.Leaf? {
        CountTreesAppend(Single(ts, n - 1), [t], name);
      } else {
        CountPartsPrefix(Subtrees(ts, n - 1), Subtrees(ts, n), |Subtrees(ts, n - 1)|, name);
      }
    }
  }

  lemma {:induction false} SinglesApart<N>(ts: seq<Tree<N>>, parts: seq<seq<Tree<N>>>, n: nat, name: N)
    requires n <= |ts| == |parts| && forall i :: 0 <= i < |ts| ==> parts[i] == [ts[i]]
    ensures CountParts(parts, n, name) == CountLeaves(ts[..n], name)
  {
    if n > 0 {
      SinglesApart(ts, parts, n - 1, name);
      assert ts[..n] == ts[..n - 1] + [ts[n - 1]];
      CountTreesAppend(ts[..n - 1], [ts[n - 1]], name);
    }
  }

  /** The parts have the leaves of the tree. */
  lemma PartsCover<N>(ts: seq<Tree<N>>, name: N)
    ensures CountParts(Parts(ts), |Parts(ts)|, name) == CountLeaves(ts, name)
  {
    SubtreesAndSingles(ts, |ts|, name);
    assert ts[..|ts|] == ts;
    var subtrees, single := Subtrees(ts, |ts|), Single(ts, |ts|);
    if subtrees == [] {
      SinglesApart(single, Apart(single, |single|), |single|, name);
      assert single[..|single|] == single;
    } else {
      CountPartsPrefix(subtrees, Parts(ts), |subtrees|, name);
    }
  }

  lemma OneBlock<N>(props: seq<N>, config: string, name: N)
    ensures CountBlocks([Block(props, config)], name) == Count(props, name)
  {
    assert [Block(props, config)][..0] == [];
  }

  lemma {:induction false} RecordedCount<N>(all: seq<N>, o: Oracle<N>, n: nat, name: N)
    requires n <= |all|
    ensures Count(Recorded(all, o, n), name) <= Count(all[..n], name)
  {
    if n > 0 {
      RecordedCount(all, o, n - 1, name);
      CountAppend(all[..n - 1], [all[n - 1]], name);
      CountAppend(Recorded(all, o, n - 1), [all[n - 1]], name);
      assert all[..n] == all[..n - 1] + [all[n - 1]];
    }
  }

  /** However the races go, the strategy accounts for every leaf of the tree. */
  lemma {:induction false} BuildAccounts<N>(ts: seq<Tree<N>>, o: Oracle<N>, name: N)
    ensures TreeAccounted(ts, o, name)
    decreases Size(ts)
  {
    var all := Leaves(ts);
    if |all| <= 1 {
      if |all| == 1 && o.explore(all).Proved? {
        OneBlock(all, o.explore(all).config, name);
      }
    } else if |ts| == 1 {
      LoneNode(ts);
      BuildAccounts(ts[0].children, o, name);
    } else if o.explore(all).Proved? && o.whole(all) {
      OneBlock(all, o.explore(all).config, name);
      RecordedCount(all, o, |all|, name);
      assert all[..|all|] == all;
    } else {
      NotEmpty(ts);
      forall i: nat | i < |Parts(ts)|
        ensures TreeAccounted(PartAt(ts, i), o, name)
      {
        BuildAccounts(PartAt(ts, i), o, name);
      }
      SplitAccounts(ts, o, name);
    }
  }

  predicate TreeAccounted<N(==)>(ts: seq<Tree<N>>, o: Oracle<N>, name: N) {
    Accounted(Build(ts, o), CountLeaves(ts, name), name)
  }

  function JoinAll<N>(results: seq<Built<N>>, n: nat): Built<N>
    requires n <= |results|
  {
    if n == 0 then Built([], [], []) else Join(JoinAll(results, n - 1), results[n - 1])
  }

  /** Joining keeps account, whatever the parts are. */
  lemma {:induction false} JoinAllAccounted<N>(results: seq<Built<N>>, parts: seq<seq<Tree<N>>>, n: nat, name: N)
    requires n <= |results| == |parts|
    requires forall i :: 0 <= i < |parts| ==> Accounted(results[i], CountLeaves(parts[i], name), name)
    ensures Accounted(JoinAll(results, n), CountParts(parts, n, name), name)
  {
    if n > 0 {
      JoinAllAccounted(results, parts, n - 1, name);
      JoinAccounted(JoinAll(results, n - 1), results[n - 1], CountParts(parts, n - 1, name),
                    CountLeaves(parts[n - 1], name), name);
    }
  }

  lemma {:induction false} BuildPartsJoins<N>(ts: seq<Tree<N>>, o: Oracle<N>, results: seq<Built<N>>, n: nat)
    requires |ts| > 1 && n <= |Parts(ts)| == |results|
    requires forall i: nat :: i < |results| ==> results[i] == Build(PartAt(ts, i), o)
    ensures BuildParts(ts, o, n) == JoinAll(results, n)
  {
    if n > 0 {
      BuildPartsJoins(ts, o, results, n - 1);
      PartAdded(ts, o, n - 1);
    }
  }

  lemma SplitAccounts<N>(ts: seq<Tree<N>>, o: Oracle<N>, name: N)
    requires |ts| > 1 && |Leaves(ts)| > 1 && !(o.explore(Leaves(ts)).Proved? && o.whole(Leaves(ts)))
    requires forall i: nat :: i < |Parts(ts)| ==> TreeAccounted(PartAt(ts, i), o, name)
    ensures TreeAccounted(ts, o, name)
  {
    var results := PartResults(ts, o, |Parts(ts)|);
    forall i | 0 <= i < |results|
      ensures Accounted(results[i], CountLeaves(Parts(ts)[i], name), name)
    {
      assert TreeAccounted(PartAt(ts, i), o, name);
    }
    PartsWin(ts, o);
    BuildPartsJoins(ts, o, results, |results|);
    JoinAllAccounted(results, Parts(ts), |results|, name);
    PartsCover(ts, name);
  }

  function PartResults<N>(ts: seq<Tree<N>>, o: Oracle<N>, n: nat): (r: seq<Built<N>>)
    requires |ts| > 1 && n <= |Parts(ts)|
    ensures |r| == n && forall i: nat :: i < n ==> r[i] == Build(PartAt(ts, i), o)
  {
    if n == 0 then [] else PartResults(ts, o, n - 1) + [Build(PartAt(ts, n - 1), o)]
  }

  /** The blocks of each result. */
  function BlocksOf<N>(results: seq<Built<N>>): (r: seq<seq<Block<N>>>)
    ensures |r| == |results| && forall i :: 0 <= i < |r| ==> r[i] == results[i].blocks
  {
    seq(|results|, i requires 0 <= i < |results| => results[i].blocks)
  }

  lemma {:induction false} JoinAllFlat<N>(results: seq<Built<N>>, n: nat)
    requires n <= |results|
    ensures JoinAll(results, n).blocks == Flat(BlocksOf(results)[..n])
  {
    if n > 0 {
      JoinAllFlat(results, n - 1);
      FlatNext(BlocksOf(results), n - 1);
    }
  }

  /** When the whole list is not proved first the strategy is those of the parts, one after the other. */
  lemma PartsFirst<N>(ts: seq<Tree<N>>, o: Oracle<N>)
    requires |ts| > 1 && |Leaves(ts)| > 1 && !(o.explore(Leaves(ts)).Proved? && o.whole(Leaves(ts)))
    ensures Build(ts, o).blocks == Flat(BlocksOf(PartResults(ts, o, |Parts(ts)|)))
  {
    var results := PartResults(ts, o, |Parts(ts)|);
    PartsWin(ts, o);
    BuildPartsJoins(ts, o, results, |results|);
    JoinAllFlat(results, |results|);
    assert BlocksOf(results)[..|results|] == BlocksOf(results);
  }

  lemma CountBlocksNext<N>(blocks: seq<Block<N>>, n: nat, name: N)
    requires n < |blocks|
    ensures CountBlocks(blocks[..n + 1], name) == CountBlocks(blocks[..n], name) + Count(blocks[n].props, name)
  {
    assert blocks[..n + 1][..n] == blocks[..n];
  }

  lemma {:induction false} CountBlocksMono<N>(blocks: seq<Block<N>>, m: nat, n: nat, name: N)
    requires m <= n <= |blocks|
    ensures CountBlocks(blocks[..m], name) <= CountBlocks(blocks[..n], name)
    decreases n
  {
    if m < n {
      CountBlocksMono(blocks, m, n - 1, name);
      CountBlocksNext(blocks, n - 1, name);
    }
  }

  /** Two blocks of a list hold a name at most as often as the list. */
  lemma TwoBlocks<N>(blocks: seq<Block<N>>, i: nat, j: nat, name: N)
    requires i < j < |blocks|
    ensures Count(blocks[i].props, name) + Count(blocks[j].props, name) <= CountBlocks(blocks, name)
  {
    CountBlocksNext(blocks, i, name);
    CountBlocksMono(blocks, i + 1, j, name);
    CountBlocksNext(blocks, j, name);
    CountBlocksMono(blocks, j + 1, |blocks|, name);
    assert blocks[..|blocks|] == blocks;
  }

  /** When no name is two leaves, the blocks of a strategy are disjoint. */
  lemma BlocksDisjoint<N>(ts: seq<Tree<N>>, o: Oracle<N>, i: nat, j: nat, name: N)
    requires i < j < |Build(ts, o).blocks| && CountLeaves(ts, name) <= 1
    ensures !(name in Build(ts, o).blocks[i].props && name in Build(ts, o).blocks[j].props)
  {
    var blocks := Build(ts, o).blocks;
    BuildAccounts(ts, o, name);
    assert TreeAccounted(ts, o, name);
    TwoBlocks(blocks, i, j, name);
    CountIsMultiplicity(blocks[i].props, name);
    CountIsMultiplicity(blocks[j].props, name);
  }

  /** Every block of the strategy has been proved, with the engine it names. */
  ghost predicate AllProved<N>(blocks: seq<Block<N>>, o: Oracle<N>) {
    forall i :: 0 <= i < |blocks| ==> o.explore(blocks[i].props) == Proved(blocks[i].config)
  }

  /** Every failure could not be decided alone, and what is refuted was refuted alone. */
  ghost predicate AllAlone<N>(b: Built<N>, o: Oracle<N>) {
    && (forall i :: 0 <= i < |b.failures| ==> o.explore([b.failures[i]]).Unknown?)
    && forall i :: 0 <= i < |b.refuted| ==> o.explore([b.refuted[i]]).Refuted?
  }

  lemma {:induction false} RecordedUnknown<N>(all: seq<N>, o: Oracle<N>, n: nat)
    requires n <= |all|
    ensures forall i :: 0 <= i < |Recorded(all, o, n)| ==> o.explore([Recorded(all, o, n)[i]]).Unknown?
  {
    if n > 0 {
      RecordedUnknown(all, o, n - 1);
    }
  }

  lemma {:induction false} BuildProves<N>(ts: seq<Tree<N>>, o: Oracle<N>)
    ensures AllProved(Build(ts, o).blocks, o) && AllAlone(Build(ts, o), o)
    decreases Size(ts), 1, 0
  {
    var all := Leaves(ts);
    if |all| == 1 {
      assert all == [all[0]];
    } else if |all| > 1 {
      if |ts| == 1 {
        LoneNode(ts);
        BuildProves(ts[0].children, o);
      } else if o.explore(all).Proved? && o.whole(all) {
        RecordedUnknown(all, o, |all|);
      } else {
        NotEmpty(ts);
        PartsProve(ts, o, |Parts(ts)|);
      }
    }
  }

  lemma {:induction false} PartsProve<N>(ts: seq<Tree<N>>, o: Oracle<N>, n: nat)
    requires |ts| > 1 && n <= |Parts(ts)|
    ensures AllProved(BuildParts(ts, o, n).blocks, o) && AllAlone(BuildParts(ts, o, n), o)
    decreases Size(ts), 0, n
  {
    if n > 0 {
      PartsProve(ts, o, n - 1);
      BuildProves(PartAt(ts, n - 1), o);
      PartAdded(ts, o, n - 1);
      JoinProves(BuildParts(ts, o, n - 1), Build(PartAt(ts, n - 1), o), o);
    }
  }

  lemma JoinProves<N>(x: Built<N>, y: Built<N>, o: Oracle<N>)
    requires AllProved(x.blocks, o) && AllAlone(x, o) && AllProved(y.blocks, o) && AllAlone(y, o)
    ensures AllProved(Join(x, y).blocks, o) && AllAlone(Join(x, y), o)
  {
  }

  // ---------------------------------------------------------------------------------------------
  // From names to a strategy

  /** Every name is in a block, a failure or refuted; failures and refuted names are among the names. */
  ghost predicate Settles(names: seq<string>, blocks: seq<Block<string>>, failures: seq<string>, refuted: seq<string>) {
    && (forall name :: name in names ==> Covered(blocks, name) || name in failures || name in refuted)
    && forall name :: name in failures || name in refuted ==> name in names
  }

  /** Building the strategy for the names that no stored block covers. Afterwards every name is in a block,
      recorded as a failure, or was refuted. In hard mode each open name is built for alone, with the
      engines for difficult properties; otherwise the names are split by prefixes, which fails on an empty
      one. */
  method ConstructStrategy(stored: seq<Block<string>>, names: seq<string>, hard: bool, engines: bool -> Oracle<string>)
    returns (ok: bool, blocks: seq<Block<string>>, failures: seq<string>, ghost refuted: seq<string>)
    ensures ok <==> hard || "" !in names || Covered(stored, "")
    ensures ok ==> stored <= blocks && AllProved(blocks[|stored|..], engines(hard))
    ensures ok && hard ==> forall i :: |stored| <= i < |blocks| ==> |blocks[i].props| == 1
    ensures ok ==> Settles(names, blocks, failures, refuted)
  {
    var open := NotCovered(stored, names);
    if open == [] {
      refuted := [];
      return true, stored, [], [];
    }
    var more;
    ok := true;
    if hard {
      more, failures, refuted := BuildEach(open, engines(true));
    } else {
      ok, more, failures, refuted := BuildSplit(open, engines(false));
    }
    if !ok {
      return false, stored, [], [];
    }
    blocks := stored + more;
    assert blocks[|stored|..] == more;
    forall name | name in names
      ensures Covered(blocks, name) || name in failures || name in refuted
    {
      if name in open {
        if Covered(more, name) {
          CoveredMore(stored, more, name);
        }
      } else {
        CoveredAlready(stored, more, name);
      }
    }
  }

  /** Splitting by prefixes. */
  method BuildSplit(open: seq<string>, o: Oracle<string>)
    returns (ok: bool, blocks: seq<Block<string>>, failures: seq<string>, ghost refuted: seq<string>)
    ensures ok <==> "" !in open
    ensures ok ==> AllProved(blocks, o) && Settles(open, blocks, failures, refuted)
  {
    blocks, failures, refuted := [], [], [];
    var tree;
    ok, tree := SplitByPrefixes(open);
    if !ok {
      return;
    }
    blocks, failures := BuildStrategyRec(tree, o, []);
    assert failures == Build(tree, o).failures;
    refuted := Build(tree, o).refuted;
    BuildProves(tree, o);
    BuiltSettles(tree, o, open);
  }

  lemma BuiltSettles(tree: seq<Tree<string>>, o: Oracle<string>, open: seq<string>)
    requires multiset(Leaves(tree)) == multiset(open)
    ensures var b := Build(tree, o); Settles(open, b.blocks, b.failures, b.refuted)
  {
    var b := Build(tree, o);
    forall name | name in open
      ensures Covered(b.blocks, name) || name in b.failures || name in b.refuted
    {
      BuiltCovers(tree, o, open, name);
    }
    forall name | name in b.failures || name in b.refuted
      ensures name in open
    {
      BuiltInside(tree, o, open, name);
    }
  }

  /** Hard mode: each name alone. */
  method BuildEach(open: seq<string>, o: Oracle<string>)
    returns (blocks: seq<Block<string>>, failures: seq<string>, ghost refuted: seq<string>)
    ensures AllProved(blocks, o) && Settles(open, blocks, failures, refuted)
    ensures forall i :: 0 <= i < |blocks| ==> |blocks[i].props| == 1
  {
    blocks, failures, refuted := [], [], [];
    for i := 0 to |open|
      invariant AllProved(blocks, o) && Settles(open[..i], blocks, failures, refuted)
      invariant forall k :: 0 <= k < |blocks| ==> |blocks[k].props| == 1
    {
      var tree := [Leaf(open[i])];
      ghost var blocks0, failures0, refuted0 := blocks, failures, refuted;
      var more;
      more, failures := BuildStrategyRec(tree, o, failures);
      blocks := blocks + more;
      refuted := refuted + Build(tree, o).refuted;
      LeafBuild(open[i], o);
      BuildProves(tree, o);
      BuiltSettles(tree, o, [open[i]]);
      SettlesMore(open[..i], blocks0, failures0, refuted0, open[i], Build(tree, o));
      assert open[..i + 1] == open[..i] + [open[i]];
    }
    assert open[..|open|] == open;
  }

  lemma LeafBuild(name: string, o: Oracle<string>)
    ensures Leaves([Leaf(name)]) == [name]
    ensures forall i :: 0 <= i < |Build([Leaf(name)], o).blocks| ==> |Build([Leaf(name)], o).blocks[i].props| == 1
  {
    OneTree(Leaf(name));
  }

  lemma SettlesMore(names: seq<string>, blocks: seq<Block<string>>, failures: seq<string>, refuted: seq<string>,
                    name: string, b: Built<string>)
    requires Settles(names, blocks, failures, refuted) && Settles([name], b.blocks, b.failures, b.refuted)
    ensures Settles(names + [name], blocks + b.blocks, failures + b.failures, refuted + b.refuted)
  {
    forall x | x in names + [name]
      ensures Covered(blocks + b.blocks, x) || x in failures + b.failures || x in refuted + b.refuted
    {
      if x in names {
        if Covered(blocks, x) {
          CoveredAlready(blocks, b.blocks, x);
        }
      } else {
        assert x in [name];
        if Covered(b.blocks, x) {
          CoveredMore(blocks, b.blocks, x);
        }
      }
    }
  }

  /** The names no block covers. */
  method NotCovered(stored: seq<Block<string>>, names: seq<string>) returns (open: seq<string>)
    ensures forall name :: name in open ==> name in names && !Covered(stored, name)
    ensures forall name :: name in names ==> name in open || Covered(stored, name)
  {
    open := [];
    for i := 0 to |names|
      invariant forall name :: name in open ==> name in names && !Covered(stored, name)
      invariant forall k :: 0 <= k < i ==> names[k] in open || Covered(stored, names[k])
    {
      var done := IsCovered(stored, names[i]);
      if !done && names[i] !in open {
        open := open + [names[i]];
      }
    }
  }

  lemma BuiltCovers<N>(tree: seq<Tree<N>>, o: Oracle<N>, open: seq<N>, name: N)
    requires multiset(Leaves(tree)) == multiset(open) && name in open
    ensures var b := Build(tree, o); Covered(b.blocks, name) || name in b.failures || name in b.refuted
  {
    var b := Build(tree, o);
    assert name in multiset(open);
    CountIsMultiplicity(Leaves(tree), name);
    BuildAccounts(tree, o, name);
    assert TreeAccounted(tree, o, name);
    CountIsMultiplicity(b.failures, name);
    CountIsMultiplicity(b.refuted, name);
    if CountBlocks(b.blocks, name) > 0 {
      CountedCovered(b.blocks, name);
    }
  }

  lemma BuiltInside<N>(tree: seq<Tree<N>>, o: Oracle<N>, open: seq<N>, name: N)
    requires multiset(Leaves(tree)) == multiset(open)
    requires name in Build(tree, o).failures || name in Build(tree, o).refuted
    ensures name in open
  {
    var b := Build(tree, o);
    BuildAccounts(tree, o, name);
    assert TreeAccounted(tree, o, name);
    CountIsMultiplicity(b.failures, name);
    CountIsMultiplicity(b.refuted, name);
    CountIsMultiplicity(Leaves(tree), name);
    assert name in multiset(open);
  }

  ghost predicate Covered<N>(blocks: seq<Block<N>>, name: N) {
    exists i :: 0 <= i < |blocks| && name in blocks[i].props
  }

  method IsCovered(blocks: seq<Block<string>>, name: string) returns (r: bool)
    ensures r == Covered(blocks, name)
  {
    for i := 0 to |blocks|
      invariant forall k :: 0 <= k < i ==> name !in blocks[k].props
    {
      if name in blocks[i].props {
        return true;
      }
    }
    return false;
  }

  lemma {:induction false} CountedCovered<N>(blocks: seq<Block<N>>, name: N)
    requires CountBlocks(blocks, name) > 0
    ensures Covered(blocks, name)
  {
    var last := |blocks| - 1;
    CountIsMultiplicity(blocks[last].props, name);
    if Count(blocks[last].props, name) == 0 {
      CountedCovered(blocks[..last], name);
      var i :| 0 <= i < last && name in blocks[..last][i].props;
      assert name in blocks[i].props;
    }
  }

  lemma CoveredMore<N>(x: seq<Block<N>>, y: seq<Block<N>>, name: N)
    requires Covered(y, name)
    ensures Covered(x + y, name)
  {
    var i :| 0 <= i < |y| && name in y[i].props;
    assert (x + y)[|x| + i] == y[i];
  }

  lemma CoveredAlready<N>(x: seq<Block<N>>, y: seq<Block<N>>, name: N)
    requires Covered(x, name)
    ensures Covered(x + y, name)
  {
    var i :| 0 <= i < |x| && name in x[i].props;
    assert (x + y)[i] == x[i];
  }
}
