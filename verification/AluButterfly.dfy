/** The butterfly network of the ALU, which performs `bdecompress` forwards and `bcompress` backwards,
    driven by left-rotate-and-complement masks. Widths are any power of two; the ALU uses 32. */
module AluButterfly {
  import opened Blocks
  import opened Words

  // ---------------------------------------------------------------------------------------------
  // Control masks and one stage

  /** Bit `n + j` of `{n zeros, n ones} << c` in a segment of width `2 * n`. */
  predicate LrotcUpper(n: nat, c: nat, j: nat) {
    c <= n + j && n + j - c < n
  }

  /** The complemented upper half of the shifted pattern: bit `j` of both halves is exchanged. */
  predicate Swaps(n: nat, c: nat, j: nat) {
    !LrotcUpper(n, c, j)
  }

  /** Whether the stage with half-width `n` exchanges bit `i` with its partner; `count(p)` is the saved
      count for the segment whose halves meet at position `p`. */
  predicate SwapAt(n: nat, count: nat -> nat, i: nat)
    requires n > 0
  {
    Swaps(n, count(Start(2 * n, i) + n), i % n)
  }

  function MaskL(w: nat, n: nat, count: nat -> nat): seq<bool>
    requires n > 0
  {
    seq(w, i requires 0 <= i < w => i % (2 * n) >= n && SwapAt(n, count, i))
  }

  function MaskR(w: nat, n: nat, count: nat -> nat): seq<bool>
    requires n > 0
  {
    seq(w, i requires 0 <= i < w => i % (2 * n) < n && SwapAt(n, count, i))
  }

  /** One stage, as the ALU writes it. */
  function Stage(x: seq<bool>, n: nat, count: nat -> nat): (y: seq<bool>)
    requires n > 0
    ensures |y| == |x|
  {
    var l, r := MaskL(|x|, n, count), MaskR(|x|, n, count);
    Or(Or(And(x, Not(Or(l, r))), Shr(And(x, l), n)), Shl(And(x, r), n))
  }

  /** The same place in the other half of the segment. */
  function Opposite(n: nat, i: nat): int
    requires n > 0
  {
    if i % (2 * n) < n then i + n else i - n
  }

  /** The position bit `i` is exchanged with. */
  function Partner(n: nat, count: nat -> nat, i: nat): int
    requires n > 0
  {
    if SwapAt(n, count, i) then Opposite(n, i) else i
  }

  ghost predicate WholeSegments(w: nat, n: nat) {
    n > 0 && w % (2 * n) == 0
  }

  lemma OppositeIn(w: nat, n: nat, i: nat)
    requires WholeSegments(w, n) && i < w
    ensures var o := Opposite(n, i);
            && 0 <= o < w && Start(2 * n, o) == Start(2 * n, i) && o % n == i % n
            && (o % (2 * n) < n <==> i % (2 * n) >= n)
  {
    Halves(w, n, i);
    var b, r := Start(2 * n, i), i % (2 * n);
    var s := if r < n then r + n else r - n;
    SameBlock(2 * n, i, s);
    ModHalf(n, b + s);
  }

  /** The partner of the partner is the position itself, and stays inside the word. */
  lemma PartnerInvolution(w: nat, n: nat, count: nat -> nat, i: nat)
    requires WholeSegments(w, n) && i < w
    ensures 0 <= Partner(n, count, i) < w
    ensures Partner(n, count, Partner(n, count, i)) == i
    ensures SwapAt(n, count, Partner(n, count, i)) == SwapAt(n, count, i)
  {
    OppositeIn(w, n, i);
  }

  lemma MaskBits(w: nat, n: nat, count: nat -> nat, i: nat)
    requires n > 0 && i < w
    ensures MaskL(w, n, count)[i] == (i % (2 * n) >= n && SwapAt(n, count, i))
    ensures MaskR(w, n, count)[i] == (i % (2 * n) < n && SwapAt(n, count, i))
  {
  }

  lemma StageWords(x: seq<bool>, l: seq<bool>, r: seq<bool>, n: nat, i: nat)
    requires |l| == |r| == |x| && i < |x|
    ensures Or(Or(And(x, Not(Or(l, r))), Shr(And(x, l), n)), Shl(And(x, r), n))[i] <==>
            || (x[i] && !l[i] && !r[i])
            || (i + n < |x| && x[i + n] && l[i + n])
            || (i >= n && x[i - n] && r[i - n])
  {
  }

  /** Bit `i` after a stage, with the masks written out. */
  lemma StageBits(x: seq<bool>, n: nat, count: nat -> nat, i: nat)
    requires n > 0 && i < |x|
    ensures Stage(x, n, count)[i] <==>
            || (x[i] && !SwapAt(n, count, i))
            || (i + n < |x| && x[i + n] && (i + n) % (2 * n) >= n && SwapAt(n, count, i + n))
            || (i >= n && x[i - n] && (i - n) % (2 * n) < n && SwapAt(n, count, i - n))
  {
    StageWords(x, MaskL(|x|, n, count), MaskR(|x|, n, count), n, i);
    MaskBits(|x|, n, count, i);
    if i + n < |x| {
      MaskBits(|x|, n, count, i + n);
    }
    if i >= n {
      MaskBits(|x|, n, count, i - n);
    }
  }

  /** A stage exchanges partners. */
  lemma StageAt(x: seq<bool>, n: nat, count: nat -> nat, i: nat)
    requires WholeSegments(|x|, n) && i < |x|
    ensures 0 <= Partner(n, count, i) < |x| && Stage(x, n, count)[i] == x[Partner(n, count, i)]
  {
    StageBits(x, n, count, i);
    OppositeIn(|x|, n, i);
    if i % (2 * n) < n {
      LeftOfLower(n, i);
    } else {
      RightOfUpper(n, i);
    }
  }

  /** Left of a lower half lies an upper half, and conversely. */
  lemma LeftOfLower(n: nat, i: nat)
    requires n > 0 && i % (2 * n) < n
    ensures i >= n ==> (i - n) % (2 * n) >= n
  {
    if i >= n {
      var d, r := i / (2 * n), i % (2 * n);
      assert i == 2 * n * d + r;
      assert d > 0;
      assert 2 * n * (d - 1) == 2 * n * d - 2 * n;
      DivModUnique(i - n, 2 * n, d - 1, r + n);
    }
  }

  lemma RightOfUpper(n: nat, i: nat)
    requires n > 0 && i % (2 * n) >= n
    ensures (i + n) % (2 * n) < n
  {
    var m := 2 * n;
    var d, r := DivMod(i, m);
    NextMultiple(m, d);
    DivModUnique(i + n, m, d + 1, r - n);
  }

  // ---------------------------------------------------------------------------------------------
  // The masks steer the k-th deposited bit towards its place

  /** Element `e` sits in a segment of width `2 * n` whose lower half ends at element `e0`: it must be
      exchanged exactly when its position modulo `2 * n` lies in the wrong half. */
  lemma SwapDecision(n: nat, e: nat, e0: nat)
    requires n > 0
    ensures e < e0 <= e + n ==> (Swaps(n, e0 % (2 * n), e % n) <==> e % (2 * n) >= n)
    ensures e0 <= e < e0 + n ==> (Swaps(n, e0 % (2 * n), e % n) <==> e % (2 * n) < n)
  {
    ModHalf(n, e);
    if e < e0 <= e + n {
      ModPlus(2 * n, e, e0 - e);
    } else if e0 <= e < e0 + n {
      ModPlus(2 * n, e0, e - e0);
    }
  }

  /** Where the element for the set bit `i` of `m` is while segments have width `n`. */
  function Slot(m: seq<bool>, n: nat, i: nat): (s: nat)
    requires n > 0 && i < |m|
  {
    Start(n, i) + Ones(m, i) % n
  }

  /** The counts a stage reads: the ones below each segment's middle, modulo the segment width. */
  ghost predicate CountsFor(m: seq<bool>, n: nat, count: nat -> nat)
    requires n > 0
  {
    forall p: nat :: p <= |m| && p % (2 * n) == n ==> count(p) == Ones(m, p) % (2 * n)
  }

  /** The masks exchange the slot at width `n` exactly when the slot at width `2 * n` is the other one. */
  lemma SlotDecision(m: seq<bool>, n: nat, i: nat)
    requires WholeSegments(|m|, n) && i < |m| && m[i]
    ensures var b, r, e := Start(2 * n, i), i % (2 * n), Ones(m, i);
            && b + n <= |m|
            && (Swaps(n, Ones(m, b + n) % (2 * n), e % n) <==> (e % (2 * n) >= n <==> r < n))
  {
    var b, r, e := Start(2 * n, i), i % (2 * n), Ones(m, i);
    Halves(|m|, n, i);
    if r < n {
      OnesInjectiveUpTo(m, i, b + n);
    } else {
      OnesStep(m, b + n, i);
    }
    SwapDecision(n, e, Ones(m, b + n));
  }

  lemma SlotArithmetic(m: seq<bool>, n: nat, i: nat)
    requires WholeSegments(|m|, n) && i < |m|
    ensures var b, r, e := Start(2 * n, i), i % (2 * n), Ones(m, i);
            var s := Slot(m, n, i);
            && s == b + (if r < n then e % n else n + e % n) < |m|
            && Start(2 * n, s) == b && s % (2 * n) == s - b && s % n == e % n
            && Slot(m, 2 * n, i) == b + e % (2 * n) < |m|
            && e % (2 * n) == (if e % (2 * n) < n then e % n else n + e % n)
            && (b + n) % (2 * n) == n
  {
    var b, r, e := Start(2 * n, i), i % (2 * n), Ones(m, i);
    Halves(|m|, n, i);
    ModHalf(n, e);
    var s := Slot(m, n, i);
    SameBlock(2 * n, i, if r < n then e % n else n + e % n);
    ModHalf(n, s);
    SameBlock(2 * n, i, n);
  }

  /** The stage with half-width `n` moves the element between its slots at widths `n` and `2 * n`. */
  lemma SlotPartner(m: seq<bool>, n: nat, count: nat -> nat, i: nat)
    requires WholeSegments(|m|, n) && i < |m| && m[i] && CountsFor(m, n, count)
    ensures Slot(m, n, i) < |m| && Slot(m, 2 * n, i) < |m|
    ensures Partner(n, count, Slot(m, n, i)) == Slot(m, 2 * n, i)
    ensures Partner(n, count, Slot(m, 2 * n, i)) == Slot(m, n, i)
  {
    SlotArithmetic(m, n, i);
    SlotDecision(m, n, i);
    var b := Start(2 * n, i);
    assert count(b + n) == Ones(m, b + n) % (2 * n);
    PartnerInvolution(|m|, n, count, Slot(m, n, i));
  }

  lemma OnesInjectiveUpTo(m: seq<bool>, i: nat, p: nat)
    requires i < p <= |m| && m[i]
    ensures Ones(m, i) < Ones(m, p) <= Ones(m, i) + (p - i)
  {
    OnesStep(m, i + 1, p);
    OnesStep(m, i, p);
  }

  // ---------------------------------------------------------------------------------------------
  // What the two instructions compute

  /** `bdecompress`: the low bits of `a`, in order, at the set positions of `m`. */
  function Deposit(a: seq<bool>, m: seq<bool>): (r: seq<bool>)
    requires |a| == |m|
  {
    seq(|m|, i requires 0 <= i < |m| => m[i] && a[Ones(m, i)])
  }

  /** The bits of `a` at the set positions of `m` below `n`, in order. */
  function Gather(a: seq<bool>, m: seq<bool>, n: nat): (r: seq<bool>)
    requires |a| == |m| && n <= |m|
    ensures |r| == Ones(m, n)
  {
    if n == 0 then [] else Gather(a, m, n - 1) + (if m[n - 1] then [a[n - 1]] else [])
  }

  /** `bcompress`: the gathered bits at the bottom of an otherwise zero word. */
  function Extract(a: seq<bool>, m: seq<bool>): (r: seq<bool>)
    requires |a| == |m|
    ensures |r| == |m|
  {
    Gather(a, m, |m|) + Zeros(|m| - Ones(m, |m|))
  }

  lemma {:induction false} GatherAt(a: seq<bool>, m: seq<bool>, n: nat, i: nat)
    requires |a| == |m| && i < n <= |m| && m[i]
    ensures Ones(m, i) < Ones(m, n) && Gather(a, m, n)[Ones(m, i)] == a[i]
  {
    OnesInjectiveUpTo(m, i, n);
    if i < n - 1 {
      GatherAt(a, m, n - 1, i);
    }
  }

  /** Every number below the count is the count below some set bit. */
  lemma {:induction false} SetBit(m: seq<bool>, n: nat, c: nat) returns (i: nat)
    requires n <= |m| && c < Ones(m, n)
    ensures i < n && m[i] && Ones(m, i) == c
  {
    if c < Ones(m, n - 1) {
      i := SetBit(m, n - 1, c);
    } else {
      i := n - 1;
    }
  }

  /** The two instructions are inverse on the bits the mask selects. */
  lemma ExtractDeposit(v: seq<bool>, m: seq<bool>)
    requires |v| == |m|
    ensures var c := Ones(m, |m|); Extract(Deposit(v, m), m) == v[..c] + Zeros(|m| - c)
  {
    var c := Ones(m, |m|);
    var d := Deposit(v, m);
    forall t | 0 <= t < c
      ensures Gather(d, m, |m|)[t] == v[t]
    {
      var i := SetBit(m, |m|, t);
      GatherAt(d, m, |m|, i);
    }
    assert Gather(d, m, |m|) == v[..c];
  }

  lemma DepositExtract(v: seq<bool>, m: seq<bool>)
    requires |v| == |m|
    ensures Deposit(Extract(v, m), m) == And(v, m)
  {
    forall i | 0 <= i < |m| && m[i]
      ensures Extract(v, m)[Ones(m, i)] == v[i]
    {
      GatherAt(v, m, |m|, i);
    }
  }

  /** The bit-by-bit definition of `bdecompress` in the Bitmanip draft. */
  method DepositLoop(a: seq<bool>, m: seq<bool>) returns (r: seq<bool>)
    requires |a| == |m|
    ensures r == Deposit(a, m)
  {
    r := Zeros(|m|);
    var j := 0;
    for i := 0 to |m|
      invariant |r| == |m| && j == Ones(m, i)
      invariant forall t :: 0 <= t < |m| ==> r[t] == (t < i && Deposit(a, m)[t])
    {
      if m[i] {
        if a[j] {
          r := r[i := true];
        }
        j := j + 1;
      }
    }
  }

  /** The bit-by-bit definition of `bcompress` in the Bitmanip draft. */
  method ExtractLoop(a: seq<bool>, m: seq<bool>) returns (r: seq<bool>)
    requires |a| == |m|
    ensures r == Extract(a, m)
  {
    r := Zeros(|m|);
    var j := 0;
    for i := 0 to |m|
      invariant |r| == |m| && j == Ones(m, i)
      invariant r == Gather(a, m, i) + Zeros(|m| - j)
    {
      if m[i] {
        if a[i] {
          r := r[j := true];
        }
        j := j + 1;
      }
    }
  }

  // ---------------------------------------------------------------------------------------------
  // Invariants of the networks

  /** With segments of width `n`, the bit for each set position is in that position's slot. */
  ghost predicate Routed(x: seq<bool>, a: seq<bool>, m: seq<bool>, n: nat)
    requires |x| == |m| == |a| && n > 0
  {
    forall i :: 0 <= i < |m| && m[i] ==> Slot(m, n, i) < |m| && x[Slot(m, n, i)] == a[Ones(m, i)]
  }

  lemma RoutedStep(x: seq<bool>, a: seq<bool>, m: seq<bool>, n: nat, count: nat -> nat)
    requires |x| == |m| == |a| && WholeSegments(|m|, n) && CountsFor(m, n, count)
    requires Routed(x, a, m, 2 * n)
    ensures Routed(Stage(x, n, count), a, m, n)
  {
    forall i | 0 <= i < |m| && m[i]
      ensures Slot(m, n, i) < |m| && Stage(x, n, count)[Slot(m, n, i)] == a[Ones(m, i)]
    {
      SlotPartner(m, n, count, i);
      StageAt(x, n, count, Slot(m, n, i));
    }
  }

  /** Backwards: the bit at each set position has reached its slot, and no other slot holds a one. */
  ghost predicate Packed(y: seq<bool>, a: seq<bool>, m: seq<bool>, n: nat)
    requires |y| == |m| == |a| && n > 0
  {
    && (forall i :: 0 <= i < |m| && m[i] ==> Slot(m, n, i) < |m| && y[Slot(m, n, i)] == a[i])
    && (forall p :: 0 <= p < |m| && y[p] ==> Occupied(m, n, p))
  }

  ghost predicate Occupied(m: seq<bool>, n: nat, p: nat)
    requires n > 0
  {
    exists i :: 0 <= i < |m| && m[i] && Slot(m, n, i) == p
  }

  lemma PackedStep(y: seq<bool>, a: seq<bool>, m: seq<bool>, n: nat, count: nat -> nat)
    requires |y| == |m| == |a| && WholeSegments(|m|, n) && CountsFor(m, n, count)
    requires Packed(y, a, m, n)
    ensures Packed(Stage(y, n, count), a, m, 2 * n)
  {
    var z := Stage(y, n, count);
    forall i | 0 <= i < |m| && m[i]
      ensures Slot(m, 2 * n, i) < |m| && z[Slot(m, 2 * n, i)] == a[i]
    {
      SlotPartner(m, n, count, i);
      StageAt(y, n, count, Slot(m, 2 * n, i));
    }
    forall p | 0 <= p < |m| && z[p]
      ensures Occupied(m, 2 * n, p)
    {
      StageAt(y, n, count, p);
      PartnerInvolution(|m|, n, count, p);
      assert Occupied(m, n, Partner(n, count, p));
      var i :| 0 <= i < |m| && m[i] && Slot(m, n, i) == Partner(n, count, p);
      SlotPartner(m, n, count, i);
    }
  }

  /** Before the first stage the network holds `a` itself; after the last one every bit is home. */
  lemma RoutedEnds(x: seq<bool>, a: seq<bool>, m: seq<bool>)
    requires |x| == |m| == |a| && |m| > 0
    ensures Routed(a, a, m, |m|)
    ensures Routed(x, a, m, 1) ==> And(x, m) == Deposit(a, m)
  {
    forall i | 0 <= i < |m| && m[i]
      ensures Slot(m, |m|, i) == Ones(m, i) && Slot(m, 1, i) == i
    {
      DivModUnique(i, |m|, 0, i);
      DivModUnique(Ones(m, i), |m|, 0, Ones(m, i));
    }
  }

  lemma PackedEnds(y: seq<bool>, a: seq<bool>, m: seq<bool>)
    requires |y| == |m| == |a| && |m| > 0
    ensures Packed(And(a, m), a, m, 1)
    ensures Packed(y, a, m, |m|) ==> y == Extract(a, m)
  {
    forall i | 0 <= i < |m|
      ensures Slot(m, |m|, i) == Ones(m, i) && Slot(m, 1, i) == i
    {
      DivModUnique(i, |m|, 0, i);
      DivModUnique(Ones(m, i), |m|, 0, Ones(m, i));
    }
    forall p | 0 <= p < |m| && And(a, m)[p]
      ensures Occupied(m, 1, p)
    {
      assert m[p] && Slot(m, 1, p) == p;
    }
    if Packed(y, a, m, |m|) {
      forall t | 0 <= t < |m|
        ensures y[t] == Extract(a, m)[t]
      {
        if t < Ones(m, |m|) {
          var i := SetBit(m, |m|, t);
          GatherAt(a, m, |m|, i);
        } else if y[t] {
          assert Occupied(m, |m|, t);
          var i :| 0 <= i < |m| && m[i] && Slot(m, |m|, i) == t;
          OnesInjectiveUpTo(m, i, |m|);
        }
      }
    }
  }
}
