/** What the chunks of a name are, and which names share a subtree. */
module StrategyNames {
  import opened Strategy

  // ---------------------------------------------------------------------------------------------
  // Where a name is cut

  /** A piece starts at an underscore, and at a capital that does not follow one. */
  predicate StartsAt(name: string, i: nat) {
    i < |name| && (name[i] == '_' || ('A' <= name[i] <= 'Z' && (i == 0 || name[i - 1] != '_')))
  }

  /** `cuts` lists the places where pieces start. */
  ghost predicate IsCuts(name: string, cuts: seq<nat>) {
    && (forall j, k :: 0 <= j < k < |cuts| ==> cuts[j] < cuts[k])
    && forall i: nat :: i in cuts <==> StartsAt(name, i)
  }

  /** Where piece `k` begins; piece 0 is what comes before the first cut. */
  function Bound(name: string, cuts: seq<nat>, k: nat): nat {
    if k == 0 then 0 else if k <= |cuts| then cuts[k - 1] else |name|
  }

  /** The text from `i` to `j` without the underscore it may start with. */
  function Text(name: string, i: nat, j: nat): string
    requires i <= j <= |name|
  {
    if i < j && name[i] == '_' then name[i + 1..j] else name[i..j]
  }

  ghost predicate PieceIs(name: string, cuts: seq<nat>, k: nat, piece: string) {
    var i, j := Bound(name, cuts, k), Bound(name, cuts, k + 1);
    i <= j <= |name| && piece == Text(name, i, j)
  }

  ghost predicate AreCut(name: string, cuts: seq<nat>, pieces: seq<string>) {
    && IsCuts(name, cuts) && |pieces| == |cuts| + 1
    && forall k: nat :: k < |pieces| ==> PieceIs(name, cuts, k, pieces[k])
  }

  function Shift(cuts: seq<nat>, d: nat): (r: seq<nat>)
    ensures |r| == |cuts| && forall i :: 0 <= i < |r| ==> r[i] == cuts[i] + d
  {
    seq(|cuts|, i requires 0 <= i < |cuts| => cuts[i] + d)
  }

  lemma ShiftHas(cuts: seq<nat>, d: nat, i: nat)
    ensures i in Shift(cuts, d) <==> i >= d && i - d in cuts
  {
    if i >= d && i - d in cuts {
      var k :| 0 <= k < |cuts| && cuts[k] == i - d;
      assert Shift(cuts, d)[k] == i;
    }
  }

  lemma ZeroFirst(name: string, cuts: seq<nat>)
    requires IsCuts(name, cuts) && StartsAt(name, 0)
    ensures |cuts| > 0 && cuts[0] == 0
  {
    assert 0 in cuts;
    assert forall k :: 0 <= k < |cuts| ==> cuts[0] <= cuts[k];
  }

  /** The first piece ends before the first underscore. */
  lemma FirstPlain(name: string, cuts: seq<nat>, pieces: seq<string>)
    requires AreCut(name, cuts, pieces)
    ensures Bound(name, cuts, 1) <= |name| && pieces[0] == name[..Bound(name, cuts, 1)]
  {
    assert PieceIs(name, cuts, 0, pieces[0]);
    if name != "" && name[0] == '_' {
      ZeroFirst(name, cuts);
    }
  }

  lemma TextShifted(front: string, name: string, i: nat, j: nat)
    requires i <= j <= |name|
    ensures Text(front + name, i + |front|, j + |front|) == Text(name, i, j)
  {
    assert (front + name)[i + |front|..j + |front|] == name[i..j];
    if i < j {
      assert (front + name)[i + 1 + |front|..j + |front|] == name[i + 1..j];
    }
  }

  lemma PlainCuts(c: char, name: string, cuts: seq<nat>)
    requires IsCuts(name, cuts) && c != '_' && !('A' <= c <= 'Z')
    ensures IsCuts([c] + name, Shift(cuts, 1))
  {
    forall i: nat
      ensures i in Shift(cuts, 1) <==> StartsAt([c] + name, i)
    {
      ShiftHas(cuts, 1, i);
      if i > 0 {
        assert StartsAt([c] + name, i) == StartsAt(name, i - 1);
      }
    }
  }

  lemma PlainPiece(c: char, name: string, cuts: seq<nat>, pieces: seq<string>)
    requires AreCut(name, cuts, pieces) && c != '_'
    ensures PieceIs([c] + name, Shift(cuts, 1), 0, [c] + pieces[0])
  {
    FirstPlain(name, cuts, pieces);
    var b := Bound(name, cuts, 1);
    assert Bound([c] + name, Shift(cuts, 1), 1) == b + 1;
    assert ([c] + name)[..b + 1] == [c] + name[..b];
  }

  lemma PlainPieces(c: char, name: string, cuts: seq<nat>, pieces: seq<string>, k: nat)
    requires AreCut(name, cuts, pieces) && 0 < k < |pieces|
    ensures PieceIs([c] + name, Shift(cuts, 1), k, pieces[k])
  {
    assert PieceIs(name, cuts, k, pieces[k]);
    TextShifted([c], name, Bound(name, cuts, k), Bound(name, cuts, k + 1));
    assert Bound([c] + name, Shift(cuts, 1), k) == Bound(name, cuts, k) + 1;
    assert Bound([c] + name, Shift(cuts, 1), k + 1) == Bound(name, cuts, k + 1) + 1;
  }

  /** Characters that start nothing are put before the first piece. */
  lemma CutPlain(c: char, name: string, cuts: seq<nat>, pieces: seq<string>)
    requires AreCut(name, cuts, pieces) && c != '_' && !('A' <= c <= 'Z')
    ensures AreCut([c] + name, Shift(cuts, 1), [[c] + pieces[0]] + pieces[1..])
  {
    var all := [[c] + pieces[0]] + pieces[1..];
    PlainCuts(c, name, cuts);
    forall k: nat | k < |all|
      ensures PieceIs([c] + name, Shift(cuts, 1), k, all[k])
    {
      if k == 0 {
        PlainPiece(c, name, cuts, pieces);
      } else {
        PlainPieces(c, name, cuts, pieces, k);
      }
    }
  }

  /** `front` opens a piece at its first character, and `name` goes on with it. */
  ghost predicate Opens(front: string, name: string) {
    && front != "" && (forall i: nat :: i < |front| ==> (StartsAt(front + name, i) <==> i == 0))
    && (name != "" && 'A' <= name[0] <= 'Z' ==> front[|front| - 1] != '_')
  }

  lemma StartCuts(front: string, name: string, cuts: seq<nat>)
    requires IsCuts(name, cuts) && Opens(front, name)
    ensures IsCuts(front + name, [0] + Shift(cuts, |front|))
  {
    var longer, more := front + name, [0] + Shift(cuts, |front|);
    forall i: nat
      ensures i in more <==> StartsAt(longer, i)
    {
      ShiftHas(cuts, |front|, i);
      assert i in more <==> i == 0 || i in Shift(cuts, |front|);
      if i >= |front| {
        assert StartsAt(longer, i) == StartsAt(name, i - |front|);
      }
    }
  }

  lemma BoundShifted(front: string, name: string, cuts: seq<nat>, k: nat)
    requires k > 0
    ensures Bound(front + name, [0] + Shift(cuts, |front|), k + 1) == Bound(name, cuts, k) + |front|
  {
  }

  lemma StartPieces(front: string, name: string, cuts: seq<nat>, piece: string, k: nat)
    requires k > 1 && PieceIs(name, cuts, k - 1, piece)
    ensures PieceIs(front + name, [0] + Shift(cuts, |front|), k, piece)
  {
    BoundShifted(front, name, cuts, k - 1);
    BoundShifted(front, name, cuts, k);
    TextShifted(front, name, Bound(name, cuts, k - 1), Bound(name, cuts, k));
  }

  lemma StartPiece(front: string, kept: string, name: string, cuts: seq<nat>, pieces: seq<string>)
    requires AreCut(name, cuts, pieces) && front != ""
    requires kept == if front[0] == '_' then front[1..] else front
    ensures PieceIs(front + name, [0] + Shift(cuts, |front|), 1, kept + pieces[0])
  {
    FirstPlain(name, cuts, pieces);
    var b := Bound(name, cuts, 1);
    assert Bound(front + name, [0] + Shift(cuts, |front|), 2) == b + |front|;
    assert (front + name)[..b + |front|] == front + name[..b];
    if front[0] == '_' {
      assert (front + name)[1..b + |front|] == kept + name[..b];
    }
  }

  /** An underscore, a capital or both open a piece, with `kept` before the first one. */
  lemma CutStart(front: string, kept: string, name: string, cuts: seq<nat>, pieces: seq<string>)
    requires AreCut(name, cuts, pieces) && Opens(front, name)
    requires kept == if front[0] == '_' then front[1..] else front
    ensures AreCut(front + name, [0] + Shift(cuts, |front|), ["", kept + pieces[0]] + pieces[1..])
  {
    var more, all := [0] + Shift(cuts, |front|), ["", kept + pieces[0]] + pieces[1..];
    StartCuts(front, name, cuts);
    forall k: nat | k < |all|
      ensures PieceIs(front + name, more, k, all[k])
    {
      if k == 1 {
        StartPiece(front, kept, name, cuts, pieces);
      } else if k > 1 {
        assert PieceIs(name, cuts, k - 1, pieces[k - 1]);
        StartPieces(front, name, cuts, pieces[k - 1], k);
      }
    }
  }

  lemma OpenBoth(name: string, cuts: seq<nat>)
    requires |name| > 1 && name[0] == '_' && Upper(name[1]) && AreCut(name[2..], cuts, Pieces(name[2..]))
    ensures AreCut(name, [0] + Shift(cuts, 2), Pieces(name))
  {
    assert name == name[..2] + name[2..];
    CutStart(name[..2], [name[1]], name[2..], cuts, Pieces(name[2..]));
  }

  lemma NothingKept(pieces: seq<string>)
    requires |pieces| > 0
    ensures ["", "" + pieces[0]] + pieces[1..] == [""] + pieces
  {
    assert "" + pieces[0] == pieces[0];
  }

  lemma OpenUnderscore(name: string, cuts: seq<nat>)
    requires name != "" && name[0] == '_' && !(|name| > 1 && Upper(name[1])) && AreCut(name[1..], cuts, Pieces(name[1..]))
    ensures AreCut(name, [0] + Shift(cuts, 1), Pieces(name))
  {
    assert name == [name[0]] + name[1..];
    CutStart([name[0]], "", name[1..], cuts, Pieces(name[1..]));
    NothingKept(Pieces(name[1..]));
  }

  lemma OpenCapital(name: string, cuts: seq<nat>)
    requires name != "" && Upper(name[0]) && AreCut(name[1..], cuts, Pieces(name[1..]))
    ensures AreCut(name, [0] + Shift(cuts, 1), Pieces(name))
  {
    assert name == [name[0]] + name[1..];
    CutStart([name[0]], [name[0]], name[1..], cuts, Pieces(name[1..]));
  }

  lemma OpenNothing(name: string, cuts: seq<nat>)
    requires name != "" && name[0] != '_' && !Upper(name[0]) && AreCut(name[1..], cuts, Pieces(name[1..]))
    ensures AreCut(name, Shift(cuts, 1), Pieces(name))
  {
    assert name == [name[0]] + name[1..];
    CutPlain(name[0], name[1..], cuts, Pieces(name[1..]));
  }

  /** A name is cut at its underscores, which are dropped, and before its capitals. */
  lemma {:induction false} PiecesExact(name: string) returns (cuts: seq<nat>)
    ensures AreCut(name, cuts, Pieces(name))
    decreases |name|
  {
    if name == "" {
      cuts := [];
      assert PieceIs(name, cuts, 0, "");
    } else if name[0] == '_' && |name| > 1 && Upper(name[1]) {
      var before := PiecesExact(name[2..]);
      OpenBoth(name, before);
      cuts := [0] + Shift(before, 2);
    } else {
      var before := PiecesExact(name[1..]);
      if name[0] == '_' {
        OpenUnderscore(name, before);
        cuts := [0] + Shift(before, 1);
      } else if Upper(name[0]) {
        OpenCapital(name, before);
        cuts := [0] + Shift(before, 1);
      } else {
        OpenNothing(name, before);
        cuts := Shift(before, 1);
      }
    }
  }

  /** The chunks are the pieces; what comes before the first cut is one only if there is something. */
  lemma ChunksExact(name: string) returns (cuts: seq<nat>)
    ensures IsCuts(name, cuts)
    ensures var first := if name == "" || StartsAt(name, 0) then 1 else 0;
            && |Chunks(name)| + first == |cuts| + 1
            && forall k: nat :: k < |Chunks(name)| ==> PieceIs(name, cuts, k + first, Chunks(name)[k])
  {
    cuts := PiecesExact(name);
    var pieces := Pieces(name);
    FirstPlain(name, cuts, pieces);
    if StartsAt(name, 0) {
      ZeroFirst(name, cuts);
      assert Bound(name, cuts, 1) == 0;
    } else if name != "" {
      if |cuts| > 0 {
        assert cuts[0] in cuts;
        assert cuts[0] != 0;
      }
      assert Bound(name, cuts, 1) > 0;
    }
  }

  // ---------------------------------------------------------------------------------------------
  // Which names share a subtree

  /** The property goes on after the chunk `x`. */
  predicate GoesOn<K(==), N>(p: Prop<K, N>, x: K) {
    |p.chunks| > 1 && p.chunks[0] == x
  }

  ghost predicate Ascends(at: seq<nat>, n: nat) {
    (forall j, k :: 0 <= j < k < |at| ==> at[j] < at[k]) && forall j :: 0 <= j < |at| ==> at[j] < n
  }

  /** `b` holds the properties that go on after `x`, in order, without that chunk. */
  ghost predicate Gathers<K, N>(props: seq<Prop<K, N>>, n: nat, x: K, at: seq<nat>, b: seq<Prop<K, N>>)
    requires n <= |props|
  {
    && Ascends(at, n) && (forall i: nat :: i < n ==> (i in at <==> GoesOn(props[i], x))) && |b| == |at|
    && forall l :: 0 <= l < |at| ==>
         |props[at[l]].chunks| > 0 && b[l] == Prop(props[at[l]].chunks[1..], props[at[l]].name)
  }

  lemma AscendsMore(at: seq<nat>, n: nat)
    requires Ascends(at, n)
    ensures Ascends(at, n + 1) && Ascends(at + [n], n + 1)
    ensures n !in at && forall i :: i in at + [n] <==> i in at || i == n
  {
  }

  lemma GathersOne<K, N>(props: seq<Prop<K, N>>, n: nat, x: K, at: seq<nat>, b: seq<Prop<K, N>>)
    requires n < |props| && Gathers(props, n, x, at, b) && GoesOn(props[n], x)
    ensures Gathers(props, n + 1, x, at + [n], b + [Prop(props[n].chunks[1..], props[n].name)])
  {
    AscendsMore(at, n);
  }

  lemma GathersNone<K, N>(props: seq<Prop<K, N>>, n: nat, x: K, at: seq<nat>, b: seq<Prop<K, N>>)
    requires n < |props| && Gathers(props, n, x, at, b) && !GoesOn(props[n], x)
    ensures Gathers(props, n + 1, x, at, b)
  {
    AscendsMore(at, n);
  }

  lemma {:induction false} BucketExact<K, N>(props: seq<Prop<K, N>>, n: nat, x: K) returns (at: seq<nat>)
    requires n <= |props|
    ensures Gathers(props, n, x, at, Bucket(props, n, x))
  {
    at := [];
    if n > 0 {
      at := BucketExact(props, n - 1, x);
      if GoesOn(props[n - 1], x) {
        GathersOne(props, n - 1, x, at, Bucket(props, n - 1, x));
        at := at + [n - 1];
      } else {
        GathersNone(props, n - 1, x, at, Bucket(props, n - 1, x));
      }
    }
  }

  /** The leaves are the properties whose chunks end here, in order. */
  ghost predicate Ending<K, N>(props: seq<Prop<K, N>>, n: nat, at: seq<nat>, ts: seq<Tree<N>>)
    requires n <= |props|
  {
    && Ascends(at, n) && (forall i: nat :: i < n ==> (i in at <==> |props[i].chunks| <= 1)) && |ts| == |at|
    && forall l :: 0 <= l < |at| ==> ts[l] == Leaf(props[at[l]].name)
  }

  lemma EndingOne<K, N>(props: seq<Prop<K, N>>, n: nat, at: seq<nat>, ts: seq<Tree<N>>)
    requires n < |props| && Ending(props, n, at, ts) && |props[n].chunks| <= 1
    ensures Ending(props, n + 1, at + [n], ts + [Leaf(props[n].name)])
  {
    AscendsMore(at, n);
  }

  lemma EndingNone<K, N>(props: seq<Prop<K, N>>, n: nat, at: seq<nat>, ts: seq<Tree<N>>)
    requires n < |props| && Ending(props, n, at, ts) && |props[n].chunks| > 1
    ensures Ending(props, n + 1, at, ts)
  {
    AscendsMore(at, n);
  }

  lemma EndingEmpty<K, N>(props: seq<Prop<K, N>>)
    ensures Ending(props, 0, [], [])
  {
  }

  lemma {:induction false} DoneExact<K, N>(props: seq<Prop<K, N>>, n: nat) returns (at: seq<nat>)
    requires n <= |props|
    ensures Ending(props, n, at, Done(props, n))
  {
    if n == 0 {
      EndingEmpty(props);
      at := [];
    } else {
      var before := DoneExact(props, n - 1);
      if |props[n - 1].chunks| <= 1 {
        EndingOne(props, n - 1, before, Done(props, n - 1));
        at := before + [n - 1];
      } else {
        EndingNone(props, n - 1, before, Done(props, n - 1));
        at := before;
      }
    }
  }

  lemma {:induction false} PrefixesExact<K, N>(props: seq<Prop<K, N>>, n: nat, x: K)
    requires n <= |props|
    ensures x in Prefixes(props, n) <==> exists i :: 0 <= i < n && GoesOn(props[i], x)
  {
    if n > 0 {
      PrefixesExact(props, n - 1, x);
    }
  }

  /** Prefixes come in the order in which they first appear. */
  lemma {:induction false} PrefixesOrder<K, N>(props: seq<Prop<K, N>>, m: nat, n: nat)
    requires m <= n <= |props|
    ensures Prefixes(props, m) <= Prefixes(props, n)
  {
    if m < n {
      PrefixesOrder(props, m, n - 1);
    }
  }

  lemma {:induction false} GroupsAt<K, N>(props: seq<Prop<K, N>>, n: nat, k: nat)
    requires k < n <= |Prefixes(props, |props|)|
    ensures |Groups(props, n)| == n && Groups(props, n)[k] == Node(Group(Bucket(props, |props|, Prefixes(props, |props|)[k])))
  {
    if n > 1 {
      GroupsAt(props, n - 1, if k < n - 1 then k else 0);
    }
  }

  /** The subtree `t` is the tree of the properties that go on after `x`. */
  ghost predicate SubtreeOf<K(!new), N(!new)>(props: seq<Prop<K, N>>, x: K, t: Tree<N>) {
    exists at: seq<nat>, b: seq<Prop<K, N>> :: Gathers(props, |props|, x, at, b) && t == Node(Group(b))
  }

  lemma SubtreeAt<K(!new), N(!new)>(props: seq<Prop<K, N>>, k: nat)
    requires k < |Prefixes(props, |props|)|
    ensures |Done(props, |props|)| + k < |Group(props)|
    ensures SubtreeOf(props, Prefixes(props, |props|)[k], Group(props)[|Done(props, |props|)| + k])
  {
    GroupsAt(props, |Prefixes(props, |props|)|, k);
    var at := BucketExact(props, |props|, Prefixes(props, |props|)[k]);
  }

  /** The tree of a list: a leaf for each property whose chunks end here, then a subtree for each first
      chunk of the others, which is the tree of all those that go on after it. */
  lemma GroupExact<K(!new), N(!new)>(props: seq<Prop<K, N>>) returns (leaves: seq<nat>, order: seq<K>)
    ensures |Group(props)| == |leaves| + |order|
    ensures Ending(props, |props|, leaves, Group(props)[..|leaves|])
    ensures forall i :: 0 <= i < |props| && |props[i].chunks| > 1 ==> props[i].chunks[0] in order
    ensures forall j, k :: 0 <= j < k < |order| ==> order[j] != order[k]
    ensures forall k: nat :: k < |order| ==> SubtreeOf(props, order[k], Group(props)[|leaves| + k])
  {
    order := Prefixes(props, |props|);
    leaves := DoneExact(props, |props|);
    if order != [] {
      GroupsAt(props, |order|, 0);
    }
    assert Group(props)[..|leaves|] == Done(props, |props|);
    forall i | 0 <= i < |props| && |props[i].chunks| > 1
      ensures props[i].chunks[0] in order
    {
      PrefixesExact(props, |props|, props[i].chunks[0]);
    }
    forall j: nat, k: nat | j < k < |order|
      ensures order[j] != order[k]
    {
      PrefixesDistinct(props, |props|, j, k);
    }
    forall k: nat | k < |order|
      ensures SubtreeOf(props, order[k], Group(props)[|leaves| + k])
    {
      SubtreeAt(props, k);
    }
  }

  lemma {:induction false} CountedListed<K, N>(props: seq<Prop<K, N>>, n: nat, name: N)
    requires n <= |props|
    ensures CountProps(props, n, name) > 0 <==> exists i :: 0 <= i < n && props[i].name == name
  {
    if n > 0 {
      CountedListed(props, n - 1, name);
    }
  }

  lemma InTree<K(!new), N(!new)>(props: seq<Prop<K, N>>, name: N)
    ensures name in Leaves(Group(props)) <==> exists i :: 0 <= i < |props| && props[i].name == name
  {
    GroupPermutes(props, name);
    CountIsMultiplicity(Leaves(Group(props)), name);
    CountedListed(props, |props|, name);
  }

  ghost predicate DistinctNames<K, N>(props: seq<Prop<K, N>>) {
    forall i, j :: 0 <= i < j < |props| ==> props[i].name != props[j].name
  }

  /** With distinct names, a property is in the subtree of `x` exactly when it goes on after `x`. */
  lemma InSubtree<K(!new), N(!new)>(props: seq<Prop<K, N>>, x: K, t: Tree<N>, i: nat)
    requires DistinctNames(props) && SubtreeOf(props, x, t) && i < |props|
    ensures props[i].name in LeavesOf(t) <==> GoesOn(props[i], x)
  {
    var at: seq<nat>, b: seq<Prop<K, N>> :| Gathers(props, |props|, x, at, b) && t == Node(Group(b));
    InTree(b, props[i].name);
    if l :| 0 <= l < |b| && b[l].name == props[i].name {
      assert props[at[l]].name == props[i].name;
      assert at[l] == i;
      assert at[l] in at;
    }
    if GoesOn(props[i], x) {
      assert i in at;
      var l :| 0 <= l < |at| && at[l] == i;
      assert b[l].name == props[i].name;
    }
  }

  /** One subtree holds both names. */
  ghost predicate Together<N>(ts: seq<Tree<N>>, x: N, y: N) {
    exists k :: 0 <= k < |ts| && ts[k].Node? && x in LeavesOf(ts[k]) && y in LeavesOf(ts[k])
  }

  lemma LeavesFirst<K, N>(props: seq<Prop<K, N>>, at: seq<nat>, ts: seq<Tree<N>>, k: nat)
    requires |at| <= |ts| && k < |ts| && Ending(props, |props|, at, ts[..|at|])
    ensures k < |at| ==> ts[k].Leaf?
  {
    if k < |at| {
      assert ts[..|at|][k] == ts[k];
    }
  }

  /** Two properties share a subtree exactly when both go on after the same first chunk. */
  lemma SharedExact<K(!new), N(!new)>(props: seq<Prop<K, N>>, i: nat, j: nat)
    requires DistinctNames(props) && i < |props| && j < |props|
    ensures Together(Group(props), props[i].name, props[j].name)
       <==> |props[i].chunks| > 1 && |props[j].chunks| > 1 && props[i].chunks[0] == props[j].chunks[0]
  {
    var leaves, order := GroupExact(props);
    var ts := Group(props);
    if Together(ts, props[i].name, props[j].name) {
      var k :| 0 <= k < |ts| && ts[k].Node? && props[i].name in LeavesOf(ts[k]) && props[j].name in LeavesOf(ts[k]);
      LeavesFirst(props, leaves, ts, k);
      var x := order[k - |leaves|];
      InSubtree(props, x, ts[k], i);
      InSubtree(props, x, ts[k], j);
    }
    if |props[i].chunks| > 1 && |props[j].chunks| > 1 && props[i].chunks[0] == props[j].chunks[0] {
      var k :| 0 <= k < |order| && order[k] == props[i].chunks[0];
      InSubtree(props, order[k], ts[|leaves| + k], i);
      InSubtree(props, order[k], ts[|leaves| + k], j);
      assert SubtreeOf(props, order[k], ts[|leaves| + k]);
    }
  }
}
