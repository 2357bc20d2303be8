/** Building a proof strategy: names are split into a tree, and the tree is proved as a whole or in parts. */
module Strategy {

  datatype Tree<N> = Leaf(name: N) | Node(children: seq<Tree<N>>)

  // ---------------------------------------------------------------------------------------------
  // Splitting names

  predicate Upper(c: char) {
    'A' <= c <= 'Z'
  }

  /** The pieces of a name: a new one starts at an underscore, which is dropped, and at a capital, which is
      kept; an underscore before a capital starts one piece. */
  function Pieces(name: string): (r: seq<string>)
    ensures |r| > 0
    decreases |name|
  {
    if name == "" then [""]
    else if name[0] == '_' then
      if |name| > 1 && Upper(name[1]) then
        var rest := Pieces(name[2..]);
        ["", [name[1]] + rest[0]] + rest[1..]
      else [""] + Pieces(name[1..])
    else
      var rest := Pieces(name[1..]);
      if Upper(name[0]) then ["", [name[0]] + rest[0]] + rest[1..]
      else [[name[0]] + rest[0]] + rest[1..]
  }

  /** The chunks of a name: its pieces, without the first when that is empty. */
  function Chunks(name: string): seq<string> {
    var pieces := Pieces(name);
    if pieces[0] == "" then pieces[1..] else pieces
  }

  /** Only the empty name has no chunks; the source fails on it. */
  lemma ChunksEmpty(name: string)
    ensures Chunks(name) == [] <==> name == ""
  {
    if name != "" && name[0] != '_' && !Upper(name[0]) {
      assert Pieces(name)[0] != "";
    }
  }

  /** Chunks and names may be of any types here. */
  datatype Prop<K, N> = Prop(chunks: seq<K>, name: N)

  /** No property has run out of chunks. */
  predicate Chunked<K, N>(props: seq<Prop<K, N>>) {
    forall i :: 0 <= i < |props| ==> |props[i].chunks| > 0
  }

  function Total<K, N>(props: seq<Prop<K, N>>, n: nat): nat
    requires n <= |props|
  {
    if n == 0 then 0 else Total(props, n - 1) + |props[n - 1].chunks|
  }

  predicate Ends<K, N>(p: Prop<K, N>) {
    |p.chunks| <= 1
  }

  predicate InBucket<K(==), N>(p: Prop<K, N>, prefix: K) {
    |p.chunks| > 1 && p.chunks[0] == prefix
  }

  /** Among the first `n` properties, those whose chunks end here. */
  function Done<K, N>(props: seq<Prop<K, N>>, n: nat): (r: seq<Tree<N>>)
    requires n <= |props|
  {
    if n == 0 then []
    else if Ends(props[n - 1]) then Done(props, n - 1) + [Leaf(props[n - 1].name)]
    else Done(props, n - 1)
  }

  /** The first chunks of the others, in order of appearance. */
  function Prefixes<K(==), N>(props: seq<Prop<K, N>>, n: nat): (r: seq<K>)
    requires n <= |props|
  {
    if n == 0 then []
    else
      var p, before := props[n - 1], Prefixes(props, n - 1);
      if Ends(p) || p.chunks[0] in before then before else before + [p.chunks[0]]
  }

  /** The properties with that prefix, without it. */
  function Bucket<K(==), N>(props: seq<Prop<K, N>>, n: nat, prefix: K): (r: seq<Prop<K, N>>)
    requires n <= |props|
  {
    if n == 0 then []
    else if InBucket(props[n - 1], prefix) then
      Bucket(props, n - 1, prefix) + [Prop(props[n - 1].chunks[1..], props[n - 1].name)]
    else Bucket(props, n - 1, prefix)
  }

  lemma {:induction false} BucketChunked<K, N>(props: seq<Prop<K, N>>, n: nat, prefix: K)
    requires n <= |props|
    ensures Chunked(Bucket(props, n, prefix))
  {
    if n > 0 {
      BucketChunked(props, n - 1, prefix);
    }
  }

  lemma {:induction false} TotalPrefix<K, N>(x: seq<Prop<K, N>>, y: seq<Prop<K, N>>, n: nat)
    requires n <= |x| && n <= |y| && forall i :: 0 <= i < n ==> x[i] == y[i]
    ensures Total(x, n) == Total(y, n)
  {
    if n > 0 {
      TotalPrefix(x, y, n - 1);
    }
  }

  lemma {:induction false} BucketTotal<K, N>(props: seq<Prop<K, N>>, n: nat, prefix: K)
    requires n <= |props|
    ensures var b := Bucket(props, n, prefix); Total(b, |b|) + |b| <= Total(props, n)
  {
    if n > 0 {
      BucketTotal(props, n - 1, prefix);
      var before, b := Bucket(props, n - 1, prefix), Bucket(props, n, prefix);
      TotalPrefix(before, b, |before|);
    }
  }

  lemma {:induction false} BucketNotEmpty<K, N>(props: seq<Prop<K, N>>, n: nat, prefix: K)
    requires n <= |props| && prefix in Prefixes(props, n)
    ensures Bucket(props, n, prefix) != []
  {
    if prefix in Prefixes(props, n - 1) {
      BucketNotEmpty(props, n - 1, prefix);
    }
  }

  /** The whole list. */
  function All<K, N>(props: seq<Prop<K, N>>): nat {
    Total(props, |props|)
  }

  function BucketOf<K(==), N>(props: seq<Prop<K, N>>, k: nat): (r: seq<Prop<K, N>>)
    requires k < |Prefixes(props, |props|)|
    ensures Chunked(r) && All(r) < All(props)
  {
    var prefix := Prefixes(props, |props|)[k];
    BucketChunked(props, |props|, prefix);
    BucketNotEmpty(props, |props|, prefix);
    BucketTotal(props, |props|, prefix);
    Bucket(props, |props|, prefix)
  }

  /** The tree of a list of properties. */
  function Group<K(==), N>(props: seq<Prop<K, N>>): (r: seq<Tree<N>>)
    decreases All(props), 1, 0
  {
    Done(props, |props|) + Groups(props, |Prefixes(props, |props|)|)
  }

  /** The subtrees of the first `n` prefixes. */
  function Groups<K(==), N>(props: seq<Prop<K, N>>, n: nat): (r: seq<Tree<N>>)
    requires n <= |Prefixes(props, |props|)|
    decreases All(props), 0, n
  {
    if n == 0 then [] else Groups(props, n - 1) + [Node(Group(BucketOf(props, n - 1)))]
  }

  // ---------------------------------------------------------------------------------------------
  // The grouping, in place

  /** The bucket of prefix `x` after `n` properties; none yet is an empty one. */
  ghost predicate BucketOk<K, N>(props: seq<Prop<K, N>>, n: nat, buckets: map<K, seq<Prop<K, N>>>, x: K)
    requires n <= |props|
  {
    && (x in buckets <==> x in Prefixes(props, n))
    && Bucket(props, n, x) == (if x in buckets then buckets[x] else [])
  }

  ghost predicate AllBucketsOk<K(!new), N>(props: seq<Prop<K, N>>, n: nat, buckets: map<K, seq<Prop<K, N>>>)
    requires n <= |props|
  {
    forall x :: BucketOk(props, n, buckets, x)
  }

  /** What the first pass has collected from the first `n` properties. */
  ghost predicate Collected<K(!new), N>(props: seq<Prop<K, N>>, n: nat, done: seq<Tree<N>>, order: seq<K>,
                                        buckets: map<K, seq<Prop<K, N>>>)
    requires n <= |props|
  {
    done == Done(props, n) && order == Prefixes(props, n) && AllBucketsOk(props, n, buckets)
  }

  /** The grouping: leaves and buckets in one pass, then one subtree for each bucket. */
  method GroupProps<K(==,!new), N>(props: seq<Prop<K, N>>) returns (done: seq<Tree<N>>)
    requires Chunked(props)
    ensures done == Group(props)
    decreases All(props), 1
  {
    var order: seq<K> := [];
    var buckets: map<K, seq<Prop<K, N>>> := map[];
    done := [];
    for i := 0 to |props|
      invariant Collected(props, i, done, order, buckets)
    {
      done, order, buckets := Collect(props, i, done, order, buckets);
    }
    var subtrees := GroupBuckets(props, order, buckets);
    done := done + subtrees;
  }

  /** One property joins the leaves or its bucket. */
  method Collect<K(==,!new), N>(props: seq<Prop<K, N>>, i: nat, done0: seq<Tree<N>>, order0: seq<K>,
                                buckets0: map<K, seq<Prop<K, N>>>)
    returns (done: seq<Tree<N>>, order: seq<K>, buckets: map<K, seq<Prop<K, N>>>)
    requires Chunked(props) && i < |props| && Collected(props, i, done0, order0, buckets0)
    ensures Collected(props, i + 1, done, order, buckets)
  {
    done, order, buckets := done0, order0, buckets0;
    var p := props[i];
    if |p.chunks| == 1 {
      done := done + [Leaf(p.name)];
      SameBuckets(props, i, buckets0);
    } else {
      var prefix, shorter := p.chunks[0], Prop(p.chunks[1..], p.name);
      assert BucketOk(props, i, buckets0, prefix);
      if prefix !in buckets {
        buckets := buckets[prefix := [shorter]];
        order := order + [prefix];
      } else {
        buckets := buckets[prefix := buckets[prefix] + [shorter]];
      }
      BucketsAdded(props, i, buckets0, buckets);
    }
  }

  lemma BucketAdded<K, N>(props: seq<Prop<K, N>>, i: nat, before: map<K, seq<Prop<K, N>>>, after: map<K, seq<Prop<K, N>>>, x: K)
    requires i < |props| && |props[i].chunks| > 1
    requires forall y :: y in {x, props[i].chunks[0]} ==> BucketOk(props, i, before, y)
    requires var prefix, shorter := props[i].chunks[0], Prop(props[i].chunks[1..], props[i].name);
             after == before[prefix := if prefix in before then before[prefix] + [shorter] else [shorter]]
    ensures BucketOk(props, i + 1, after, x)
  {
    assert BucketOk(props, i, before, x);
  }

  lemma BucketsAdded<K(!new), N>(props: seq<Prop<K, N>>, i: nat, before: map<K, seq<Prop<K, N>>>, after: map<K, seq<Prop<K, N>>>)
    requires i < |props| && |props[i].chunks| > 1 && forall x :: BucketOk(props, i, before, x)
    requires var prefix, shorter := props[i].chunks[0], Prop(props[i].chunks[1..], props[i].name);
             after == before[prefix := if prefix in before then before[prefix] + [shorter] else [shorter]]
    ensures AllBucketsOk(props, i + 1, after)
  {
    var m := i + 1;
    forall x {:trigger BucketOk(props, m, after, x)}
      ensures BucketOk(props, m, after, x)
    {
      BucketAdded(props, i, before, after, x);
    }
  }

  lemma SameBuckets<K(!new), N>(props: seq<Prop<K, N>>, i: nat, buckets: map<K, seq<Prop<K, N>>>)
    requires i < |props| && Ends(props[i]) && forall x :: BucketOk(props, i, buckets, x)
    ensures AllBucketsOk(props, i + 1, buckets)
  {
    var m := i + 1;
    forall x {:trigger BucketOk(props, m, buckets, x)}
      ensures BucketOk(props, m, buckets, x)
    {
      assert BucketOk(props, i, buckets, x);
    }
  }

  /** The second loop, over the buckets in order. */
  method GroupBuckets<K(==,!new), N>(props: seq<Prop<K, N>>, order: seq<K>, buckets: map<K, seq<Prop<K, N>>>)
    returns (trees: seq<Tree<N>>)
    requires order == Prefixes(props, |props|) && forall x :: BucketOk(props, |props|, buckets, x)
    ensures trees == Groups(props, |order|)
    decreases All(props), 0
  {
    trees := [];
    for k := 0 to |order|
      invariant trees == Groups(props, k)
    {
      assert BucketOk(props, |props|, buckets, order[k]);
      assert buckets[order[k]] == BucketOf(props, k);
      var bucket := GroupProps(buckets[order[k]]);
      trees := trees + [Node(bucket)];
    }
  }

  // ---------------------------------------------------------------------------------------------
  // The tree holds every name as often as the list

  function Leaves<N>(ts: seq<Tree<N>>): seq<N> {
    if ts == [] then [] else Leaves(ts[..|ts| - 1]) + LeavesOf(ts[|ts| - 1])
  }

  function LeavesOf<N>(t: Tree<N>): seq<N> {
    match t
    case Leaf(name) => [name]
    case Node(children) => Leaves(children)
  }

  /** How often a name occurs in a list, among the leaves, and among the first `n` properties. */
  function Count<N(==)>(s: seq<N>, name: N): nat {
    if s == [] then 0 else Count(s[..|s| - 1], name) + (if s[|s| - 1] == name then 1 else 0)
  }

  function CountLeaves<N(==)>(ts: seq<Tree<N>>, name: N): nat {
    Count(Leaves(ts), name)
  }

  function CountProps<K, N(==)>(props: seq<Prop<K, N>>, n: nat, name: N): nat
    requires n <= |props|
  {
    if n == 0 then 0 else CountProps(props, n - 1, name) + (if props[n - 1].name == name then 1 else 0)
  }

  /** Those still to be placed: more than one chunk and none of the prefixes placed. */
  function CountLeft<K(==), N(==)>(props: seq<Prop<K, N>>, n: nat, placed: set<K>, name: N): nat
    requires n <= |props|
  {
    if n == 0 then 0
    else
      var p := props[n - 1];
      CountLeft(props, n - 1, placed, name)
        + (if !Ends(p) && p.chunks[0] !in placed && p.name == name then 1 else 0)
  }

  lemma {:induction false} CountAppend<N>(x: seq<N>, y: seq<N>, name: N)
    ensures Count(x + y, name) == Count(x, name) + Count(y, name)
  {
    if y == [] {
      assert x + y == x;
    } else {
      CountAppend(x, y[..|y| - 1], name);
      assert (x + y)[..|x + y| - 1] == x + y[..|y| - 1];
    }
  }

  lemma {:induction false} CountIsMultiplicity<N>(s: seq<N>, name: N)
    ensures Count(s, name) == multiset(s)[name]
  {
    if s != [] {
      CountIsMultiplicity(s[..|s| - 1], name);
      assert s == s[..|s| - 1] + [s[|s| - 1]];
    }
  }

  lemma {:induction false} LeavesAppend<N>(x: seq<Tree<N>>, y: seq<Tree<N>>)
    ensures Leaves(x + y) == Leaves(x) + Leaves(y)
  {
    if y == [] {
      assert x + y == x;
    } else {
      LeavesAppend(x, y[..|y| - 1]);
      assert (x + y)[..|x + y| - 1] == x + y[..|y| - 1];
    }
  }

  lemma CountTreesAppend<N>(x: seq<Tree<N>>, y: seq<Tree<N>>, name: N)
    ensures CountLeaves(x + y, name) == CountLeaves(x, name) + CountLeaves(y, name)
  {
    LeavesAppend(x, y);
    CountAppend(Leaves(x), Leaves(y), name);
  }

  lemma OneTree<N>(t: Tree<N>)
    ensures Leaves([t]) == LeavesOf(t)
  {
    assert [t][..0] == [];
  }

  lemma {:induction false} DoneOrLeft<K, N>(props: seq<Prop<K, N>>, n: nat, name: N)
    requires n <= |props|
    ensures CountLeaves(Done(props, n), name) + CountLeft(props, n, {}, name) == CountProps(props, n, name)
  {
    if n > 0 {
      DoneOrLeft(props, n - 1, name);
      if Ends(props[n - 1]) {
        LeafAdded(Done(props, n - 1), props[n - 1].name, name);
      }
    }
  }

  lemma LeafAdded<N>(ts: seq<Tree<N>>, x: N, name: N)
    ensures CountLeaves(ts + [Leaf(x)], name) == CountLeaves(ts, name) + (if x == name then 1 else 0)
  {
    CountTreesAppend(ts, [Leaf(x)], name);
    OneTree(Leaf(x));
    assert [x][..0] == [];
  }

  lemma {:induction false} CountPrefix<K, N>(x: seq<Prop<K, N>>, y: seq<Prop<K, N>>, n: nat, name: N)
    requires n <= |x| && n <= |y| && forall i :: 0 <= i < n ==> x[i] == y[i]
    ensures CountProps(x, n, name) == CountProps(y, n, name)
  {
    if n > 0 {
      CountPrefix(x, y, n - 1, name);
    }
  }

  lemma {:induction false} BucketOrLeft<K, N>(props: seq<Prop<K, N>>, n: nat, placed: set<K>, prefix: K, name: N)
    requires n <= |props| && prefix !in placed
    ensures var b := Bucket(props, n, prefix);
            CountLeft(props, n, placed, name) == CountProps(b, |b|, name) + CountLeft(props, n, placed + {prefix}, name)
  {
    if n > 0 {
      BucketOrLeft(props, n - 1, placed, prefix, name);
      var before, b := Bucket(props, n - 1, prefix), Bucket(props, n, prefix);
      CountPrefix(before, b, |before|, name);
    }
  }

  lemma {:induction false} PrefixesDistinct<K, N>(props: seq<Prop<K, N>>, n: nat, i: nat, j: nat)
    requires n <= |props| && i < j < |Prefixes(props, n)|
    ensures Prefixes(props, n)[i] != Prefixes(props, n)[j]
  {
    if j < |Prefixes(props, n - 1)| {
      PrefixesDistinct(props, n - 1, i, j);
    }
  }

  lemma {:induction false} NothingLeft<K, N>(props: seq<Prop<K, N>>, n: nat, placed: set<K>, name: N)
    requires n <= |props| && forall x :: x in Prefixes(props, n) ==> x in placed
    ensures CountLeft(props, n, placed, name) == 0
  {
    if n > 0 {
      NothingLeft(props, n - 1, placed, name);
      assert !Ends(props[n - 1]) ==> props[n - 1].chunks[0] in Prefixes(props, n);
    }
  }

  /** The first `n` prefixes. */
  function First<K(==,!new), N>(props: seq<Prop<K, N>>, n: nat): (r: set<K>)
    requires n <= |Prefixes(props, |props|)|
    ensures forall x :: x in r <==> x in Prefixes(props, |props|)[..n]
  {
    if n == 0 then {} else First(props, n - 1) + {Prefixes(props, |props|)[n - 1]}
  }

  lemma NewPrefix<K(!new), N>(props: seq<Prop<K, N>>, n: nat)
    requires 0 < n <= |Prefixes(props, |props|)|
    ensures Prefixes(props, |props|)[n - 1] !in First(props, n - 1)
  {
    var prefixes := Prefixes(props, |props|);
    if prefixes[n - 1] in First(props, n - 1) {
      var i :| 0 <= i < n - 1 && prefixes[..n - 1][i] == prefixes[n - 1];
      PrefixesDistinct(props, |props|, i, n - 1);
    }
  }

  /** The tree holds every name as often as the list of properties. */
  lemma {:induction false} GroupPermutes<K(!new), N>(props: seq<Prop<K, N>>, name: N)
    ensures CountLeaves(Group(props), name) == CountProps(props, |props|, name)
    decreases All(props), 1, 0
  {
    var n := |Prefixes(props, |props|)|;
    DoneOrLeft(props, |props|, name);
    GroupsPermute(props, n, name);
    assert Prefixes(props, |props|)[..n] == Prefixes(props, |props|);
    NothingLeft(props, |props|, First(props, n), name);
    CountTreesAppend(Done(props, |props|), Groups(props, n), name);
  }

  /** The same for the subtrees, without what they leave out. */
  lemma {:induction false} GroupsPermute<K(!new), N>(props: seq<Prop<K, N>>, n: nat, name: N)
    requires n <= |Prefixes(props, |props|)|
    ensures CountLeaves(Groups(props, n), name) + CountLeft(props, |props|, First(props, n), name)
         == CountLeft(props, |props|, {}, name)
    decreases All(props), 0, n
  {
    if n > 0 {
      GroupsPermute(props, n - 1, name);
      GroupPermutes(BucketOf(props, n - 1), name);
      PlaceBucket(props, n, name);
    }
  }

  /** Placing one more bucket. */
  lemma PlaceBucket<K(!new), N>(props: seq<Prop<K, N>>, n: nat, name: N)
    requires 0 < n <= |Prefixes(props, |props|)|
    requires var b := BucketOf(props, n - 1); CountLeaves(Group(b), name) == CountProps(b, |b|, name)
    ensures CountLeaves(Groups(props, n), name) + CountLeft(props, |props|, First(props, n), name)
         == CountLeaves(Groups(props, n - 1), name) + CountLeft(props, |props|, First(props, n - 1), name)
  {
    NewPrefix(props, n);
    BucketOrLeft(props, |props|, First(props, n - 1), Prefixes(props, |props|)[n - 1], name);
    CountTreesAppend(Groups(props, n - 1), [Node(Group(BucketOf(props, n - 1)))], name);
    OneTree(Node(Group(BucketOf(props, n - 1))));
  }

  lemma {:induction false} CountNames<K, N>(props: seq<Prop<K, N>>, names: seq<N>, name: N)
    requires |props| == |names| && forall i :: 0 <= i < |props| ==> props[i].name == names[i]
    ensures CountProps(props, |props|, name) == Count(names, name)
  {
    if props != [] {
      var n := |props| - 1;
      CountNames(props[..n], names[..n], name);
      CountPrefix(props[..n], props, n, name);
    }
  }

  /** The names with their chunks. */
  function ChunkedNames(names: seq<string>): (r: seq<Prop<string, string>>)
    ensures |r| == |names| && forall k :: 0 <= k < |r| ==> r[k] == Prop(Chunks(names[k]), names[k])
  {
    seq(|names|, k requires 0 <= k < |names| => Prop(Chunks(names[k]), names[k]))
  }

  /** Splitting a list of names by their prefixes; fails on an empty name. */
  method SplitByPrefixes(names: seq<string>) returns (ok: bool, tree: seq<Tree<string>>)
    ensures ok <==> "" !in names
    ensures ok ==> tree == Group(ChunkedNames(names)) && multiset(Leaves(tree)) == multiset(names)
  {
    var props: seq<Prop<string, string>> := [];
    for i := 0 to |names|
      invariant |props| == i && forall k :: 0 <= k < i ==> props[k] == Prop(Chunks(names[k]), names[k]) && names[k] != ""
    {
      ChunksEmpty(names[i]);
      if names[i] == "" {
        return false, [];
      }
      props := props + [Prop(Chunks(names[i]), names[i])];
    }
    forall k | 0 <= k < |props|
      ensures |props[k].chunks| > 0
    {
      ChunksEmpty(names[k]);
    }
    tree := GroupProps(props);
    assert props == ChunkedNames(names);
    forall name: string
      ensures multiset(Leaves(tree))[name] == multiset(names)[name]
    {
      GroupPermutes(props, name);
      CountNames(props, names, name);
      CountIsMultiplicity(Leaves(tree), name);
      CountIsMultiplicity(names, name);
    }
    return true, tree;
  }
}
