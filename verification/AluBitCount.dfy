/** The parallel prefix bit counter of the ALU: an array updated in place, first along a tree of sums
    towards the top entry, then back down. Used for `cpop`, `clz`, `ctz` and the butterfly masks. */
module AluBitCount {
  import opened Blocks
  import opened Words

  /** The largest power of two up to `2^s` that divides `n`: how many bits entry `n - 1` sums after
      `s` stages of the upward tree. */
  function Span(n: nat, s: nat): (w: nat)
    ensures 1 <= w <= Pow2(s)
  {
    if s == 0 || n % Pow2(s) == 0 then Pow2(s) else Span(n, s - 1)
  }

  lemma {:induction false} SpanFits(n: nat, s: nat)
    requires n > 0
    ensures Span(n, s) <= n
  {
    if s > 0 && n % Pow2(s) != 0 {
      SpanFits(n, s - 1);
    } else if s > 0 {
      assert n >= Pow2(s) by {
        if n < Pow2(s) {
          DivModUnique(n, Pow2(s), 0, n);
        }
      }
    }
  }

  /** Entry `n - 1` holds the ones among the `Span(n, s)` bits that end there. */
  ghost predicate Partial(p: seq<nat>, bits: seq<bool>, n: nat, s: nat)
    requires 0 < n <= |bits| == |p|
  {
    SpanFits(n, s);
    p[n - 1] == Ones(bits, n) - Ones(bits, n - Span(n, s))
  }

  /** Every entry at an even number of bits is partial for stage `s`. */
  ghost predicate UpDone(p: seq<nat>, bits: seq<bool>, s: nat)
    requires |bits| == |p|
  {
    forall n: nat :: 0 < n <= |bits| && n % 2 == 0 ==> Partial(p, bits, n, s)
  }

  /** Entries at multiples of `m` count everything below them; the others are still partial. */
  ghost predicate DownDone(p: seq<nat>, bits: seq<bool>, s: nat, k: nat)
    requires |bits| == |p|
  {
    forall n: nat :: 0 < n <= |bits| && n % 2 == 0 ==>
      if n % Pow2(s) == 0 then p[n - 1] == Ones(bits, n) else Partial(p, bits, n, k)
  }

  lemma ModStep(m: nat, n: nat)
    requires m > 0
    ensures (n + m) % m == n % m
    ensures n % (2 * m) == 0 ==> n % m == 0
    ensures n % (2 * m) == m ==> n % m == 0 && n >= m && (n - m) % (2 * m) == 0
    ensures n % m == 0 ==> n % (2 * m) == 0 || n % (2 * m) == m
  {
    ModPlus(m, n, m);
    ModHalf(m, n);
    if n % (2 * m) == m {
      DivModUnique(n - m, 2 * m, n / (2 * m), 0);
    }
  }

  /** Strictly between two numbers that are `m` apart there is none with the same remainder. */
  lemma Between(m: nat, n: nat, t: nat)
    requires m > 0 && n < t < n + m
    ensures t % m != n % m
  {
    ModPlus(m, n, t - n);
  }

  lemma EvenProduct(a: nat, half: nat, q: nat)
    requires a == 2 * half
    ensures (a * q) % 2 == 0
  {
    assert a * q == 2 * (half * q);
  }

  /** A multiple of `2^s` is even once `s` is positive. */
  lemma {:induction false} EvenMultiple(n: nat, s: nat)
    requires s > 0 && n % Pow2(s) == 0
    ensures n % 2 == 0
  {
    var q, r := DivMod(n, Pow2(s));
    EvenProduct(Pow2(s), Pow2(s - 1), q);
  }

  /** Below the stage that reaches it, an entry's span does not change. */
  lemma SpanStays(n: nat, s: nat)
    ensures n % Pow2(s + 1) != 0 ==> Span(n, s + 1) == Span(n, s)
    ensures n % Pow2(s) == 0 ==> Span(n, s) == Pow2(s)
  {
  }

  lemma {:induction false} SpanAbove(n: nat, s: nat, k: nat)
    requires s <= k && n % Pow2(s) != 0
    ensures Span(n, k) == Span(n, s)
    decreases k
  {
    if s < k {
      if n % Pow2(k) == 0 {
        MultipleBelow(n, s, k);
      }
      SpanAbove(n, s, k - 1);
    }
  }

  lemma {:induction false} MultipleBelow(n: nat, s: nat, k: nat)
    requires s <= k && n % Pow2(k) == 0
    ensures n % Pow2(s) == 0
    decreases k
  {
    if s < k {
      ModStep(Pow2(k - 1), n);
      MultipleBelow(n, s, k - 1);
    }
  }

  /** How many stages entry `t - 1` has been through when stage `s + 1` is about to update `n - 1`. */
  function StageOf(t: nat, n: nat, s: nat): nat {
    if t < n then s + 1 else s
  }

  /** The state of the loop of stage `s + 1` of the upward tree when it is about to update entry
      `n - 1`. */
  ghost predicate UpTo(p: seq<nat>, bits: seq<bool>, s: nat, n: nat)
    requires |bits| == |p|
  {
    forall t: nat :: 0 < t <= |bits| && t % 2 == 0 ==> Partial(p, bits, t, StageOf(t, n, s))
  }

  lemma UpStart(p: seq<nat>, bits: seq<bool>, s: nat)
    requires |bits| == |p| && s > 0 && UpDone(p, bits, s)
    ensures UpTo(p, bits, s, Pow2(s + 1))
  {
    forall t: nat | 0 < t <= |bits| && t % 2 == 0
      ensures Partial(p, bits, t, StageOf(t, Pow2(s + 1), s))
    {
      assert Partial(p, bits, t, s);
      if t < Pow2(s + 1) {
        DivModUnique(t, Pow2(s + 1), 0, t);
        SpanStays(t, s);
      }
    }
  }

  lemma UpArithmetic(n: nat, s: nat)
    requires s > 0 && n > 0 && n % Pow2(s + 1) == 0
    ensures var h := Pow2(s);
            && 2 * h <= n && n % 2 == 0 && (n - h) % 2 == 0
            && Span(n, s) == h && Span(n - h, s + 1) == h && Span(n - h, s) == h
  {
    var h := Pow2(s);
    if n < 2 * h {
      DivModUnique(n, 2 * h, 0, n);
    }
    ModStep(h, n);
    ModPlus(h, n - h, h);
    ModPlus(2 * h, n - h, h);
    EvenMultiple(n, s);
    EvenMultiple(n - h, s);
  }

  /** Adding the entry `2^s` below doubles the span of entry `n - 1`. */
  lemma UpEntry(p: seq<nat>, bits: seq<bool>, s: nat, n: nat)
    requires |bits| == |p| && s > 0 && 0 < n <= |bits| && n % Pow2(s + 1) == 0 && UpTo(p, bits, s, n)
    ensures Pow2(s + 1) <= n && n % 2 == 0
    ensures p[n - Pow2(s) - 1] + p[n - 1] == Ones(bits, n) - Ones(bits, n - Pow2(s + 1))
  {
    UpArithmetic(n, s);
    assert Partial(p, bits, n, StageOf(n, n, s));
    assert Partial(p, bits, n - Pow2(s), StageOf(n - Pow2(s), n, s));
  }

  lemma UpNext(p: seq<nat>, bits: seq<bool>, s: nat, n: nat, r: seq<nat>)
    requires |bits| == |p| && s > 0 && 0 < n <= |bits| && n % Pow2(s + 1) == 0 && UpTo(p, bits, s, n)
    requires Pow2(s) < n && r == p[n - 1 := p[n - Pow2(s) - 1] + p[n - 1]]
    ensures UpTo(r, bits, s, n + Pow2(s + 1))
  {
    UpEntry(p, bits, s, n);
    var m := Pow2(s + 1);
    forall t: nat | 0 < t <= |bits| && t % 2 == 0
      ensures Partial(r, bits, t, StageOf(t, n + m, s))
    {
      assert Partial(p, bits, t, StageOf(t, n, s));
      if t == n {
        SpanStays(n, s + 1);
      } else if n < t < n + m {
        Between(m, n, t);
        SpanStays(t, s);
      }
    }
  }

  lemma UpFinish(p: seq<nat>, bits: seq<bool>, s: nat, n: nat)
    requires |bits| == |p| && n > |bits| && UpTo(p, bits, s, n)
    ensures UpDone(p, bits, s + 1)
  {
    forall t: nat | 0 < t <= |bits| && t % 2 == 0
      ensures Partial(p, bits, t, s + 1)
    {
      assert Partial(p, bits, t, StageOf(t, n, s));
    }
  }

  /** Stage `s + 1` of the upward tree. */
  method UpStage(p: array<nat>, bits: seq<bool>, s: nat)
    requires p.Length == |bits| && s > 0 && UpDone(p[..], bits, s)
    modifies p
    ensures UpDone(p[..], bits, s + 1)
  {
    UpStart(p[..], bits, s);
    var h, m := Pow2(s), Pow2(s + 1);
    var n := m;
    while n <= |bits|
      invariant n > 0 && n % m == 0
      invariant UpTo(p[..], bits, s, n)
      decreases |bits| + m - n
    {
      ghost var before := p[..];
      UpEntry(before, bits, s, n);
      p[n - 1] := p[n - h - 1] + p[n - 1];
      assert p[..] == before[n - 1 := before[n - h - 1] + before[n - 1]];
      UpNext(before, bits, s, n, p[..]);
      ModStep(m, n);
      n := n + m;
    }
    UpFinish(p[..], bits, s, n);
  }

  ghost predicate DownAt(p: seq<nat>, bits: seq<bool>, n: nat, s: nat, k: nat)
    requires 0 < n <= |bits| == |p|
  {
    if n % Pow2(s) == 0 then p[n - 1] == Ones(bits, n) else Partial(p, bits, n, k)
  }

  /** The state of the loop of the stage that finishes the odd multiples of `2^(s - 1)`. */
  ghost predicate DownTo(p: seq<nat>, bits: seq<bool>, s: nat, k: nat, n: nat)
    requires |bits| == |p| && s > 0
  {
    forall t: nat :: 0 < t <= |bits| && t % 2 == 0 ==> DownAt(p, bits, t, if t < n then s - 1 else s, k)
  }

  /** A number below `3 * h` that is a multiple of `h` but not of `2 * h` is `h`. */
  lemma OddMultipleBelow(h: nat, t: nat)
    requires h > 0 && 0 < t < 3 * h && t % h == 0 && t % (2 * h) != 0
    ensures t == h
  {
    var q := t / h;
    assert t == h * q;
    if q >= 3 {
      MulMono(h, 3, q);
    }
    if q == 2 {
      DivModUnique(t, 2 * h, 1, 0);
    }
  }

  /** Entries below the first one a stage changes are finished already. */
  lemma DownStart(p: seq<nat>, bits: seq<bool>, s: nat, k: nat)
    requires |bits| == |p| && 1 < s <= k && DownDone(p, bits, s, k)
    ensures DownTo(p, bits, s, k, 3 * Pow2(s - 1))
  {
    var h := Pow2(s - 1);
    forall t: nat | 0 < t <= |bits| && t % 2 == 0
      ensures DownAt(p, bits, t, if t < 3 * h then s - 1 else s, k)
    {
      assert DownAt(p, bits, t, s, k);
      if t < 3 * h && t % h == 0 && t % Pow2(s) != 0 {
        OddMultipleBelow(h, t);
        SpanAbove(t, s, k);
        SpanStays(t, s - 1);
      } else if t < 3 * h && t % h != 0 {
        ModStep(h, t);
      }
    }
  }

  lemma DownArithmetic(n: nat, s: nat, k: nat)
    requires 1 < s <= k && n > Pow2(s - 1) && n % Pow2(s) == Pow2(s - 1)
    ensures var h := Pow2(s - 1);
            && n % h == 0 && n % 2 == 0 && (n - h) % 2 == 0 && (n - h) % h == 0
            && Span(n, k) == h
  {
    var h := Pow2(s - 1);
    ModStep(h, n);
    EvenMultiple(n, s - 1);
    EvenMultiple(n - h, s);
    ModStep(h, n - h);
    SpanAbove(n, s, k);
    SpanStays(n, s - 1);
  }

  lemma DownEntry(p: seq<nat>, bits: seq<bool>, s: nat, k: nat, n: nat)
    requires |bits| == |p| && 1 < s <= k && n <= |bits| && n > Pow2(s - 1) && n % Pow2(s) == Pow2(s - 1)
    requires DownTo(p, bits, s, k, n)
    ensures p[n - Pow2(s - 1) - 1] + p[n - 1] == Ones(bits, n) && n % Pow2(s - 1) == 0 && n % 2 == 0
  {
    DownArithmetic(n, s, k);
    assert DownAt(p, bits, n - Pow2(s - 1), s - 1, k);
    assert DownAt(p, bits, n, s, k);
  }

  lemma DownNext(p: seq<nat>, bits: seq<bool>, s: nat, k: nat, n: nat, r: seq<nat>)
    requires |bits| == |p| && 1 < s <= k && n <= |bits| && n > Pow2(s - 1) && n % Pow2(s) == Pow2(s - 1)
    requires DownTo(p, bits, s, k, n) && r == p[n - 1 := p[n - Pow2(s - 1) - 1] + p[n - 1]]
    ensures DownTo(r, bits, s, k, n + Pow2(s))
  {
    DownEntry(p, bits, s, k, n);
    var m := Pow2(s);
    forall t: nat | 0 < t <= |bits| && t % 2 == 0
      ensures DownAt(r, bits, t, if t < n + m then s - 1 else s, k)
    {
      assert DownAt(p, bits, t, if t < n then s - 1 else s, k);
      if n < t < n + m {
        Between(m, n, t);
        ModStep(Pow2(s - 1), t);
      }
    }
  }

  /** Stage `s` of the way down: entries at odd multiples of `2^(s - 1)` beyond the first. */
  method DownStage(p: array<nat>, bits: seq<bool>, s: nat, k: nat)
    requires p.Length == |bits| && 1 < s <= k && DownDone(p[..], bits, s, k)
    modifies p
    ensures DownDone(p[..], bits, s - 1, k)
  {
    DownStart(p[..], bits, s, k);
    var n := 3 * Pow2(s - 1);
    DivModUnique(n, Pow2(s), 1, Pow2(s - 1));
    while n <= |bits|
      invariant n > Pow2(s - 1) && n % Pow2(s) == Pow2(s - 1)
      invariant DownTo(p[..], bits, s, k, n)
      decreases |bits| + Pow2(s) - n
    {
      ghost var before := p[..];
      p[n - 1] := p[n - Pow2(s - 1) - 1] + p[n - 1];
      DownNext(before, bits, s, k, n, p[..]);
      ModStep(Pow2(s), n);
      n := n + Pow2(s);
    }
    DownFinish(p[..], bits, s, k, n);
  }

  lemma DownFinish(p: seq<nat>, bits: seq<bool>, s: nat, k: nat, n: nat)
    requires |bits| == |p| && 1 < s <= k && n > |bits| && DownTo(p, bits, s, k, n)
    ensures DownDone(p, bits, s - 1, k)
  {
    forall t: nat | 0 < t <= |bits| && t % 2 == 0
      ensures if t % Pow2(s - 1) == 0 then p[t - 1] == Ones(bits, t) else Partial(p, bits, t, k)
    {
      assert DownAt(p, bits, t, s - 1, k);
    }
  }

  lemma PairsDone(p: seq<nat>, bits: seq<bool>)
    requires |bits| == |p|
    requires forall i :: 0 < i < |bits| && i % 2 == 1 ==> p[i] == Ones(bits, i + 1) - Ones(bits, i - 1)
    ensures UpDone(p, bits, 1)
  {
    forall t: nat | 0 < t <= |bits| && t % 2 == 0
      ensures Partial(p, bits, t, 1)
    {
      assert Pow2(1) == 2;
      assert p[t - 1] == Ones(bits, t) - Ones(bits, t - 2);
    }
  }

  /** Stage 1: pairs of bits. */
  method FirstStage(p: array<nat>, bits: seq<bool>)
    requires p.Length == |bits|
    modifies p
    ensures UpDone(p[..], bits, 1)
  {
    var n := 2;
    while n <= |bits|
      invariant n >= 2 && n % 2 == 0
      invariant forall i :: 0 < i < |bits| && i % 2 == 1 && i < n - 1 ==> p[i] == Ones(bits, i + 1) - Ones(bits, i - 1)
      decreases |bits| + 2 - n
    {
      p[n - 1] := BitValue(bits[n - 1]) + BitValue(bits[n - 2]);
      assert Ones(bits, n) == Ones(bits, n - 2) + BitValue(bits[n - 2]) + BitValue(bits[n - 1]);
      n := n + 2;
    }
    PairsDone(p[..], bits);
  }

  /** The last stage: even positions, from their odd neighbours. */
  method LastStage(p: array<nat>, bits: seq<bool>)
    requires p.Length == |bits| > 0
    requires forall t :: 0 <= t < |bits| && t % 2 == 1 ==> p[t] == Ones(bits, t + 1)
    modifies p
    ensures forall t :: 0 <= t < |bits| ==> p[t] == Ones(bits, t + 1)
  {
    p[0] := BitValue(bits[0]);
    var i := 2;
    while i < |bits|
      invariant i >= 2 && i % 2 == 0
      invariant forall t :: 0 <= t < |bits| && (t < i || t % 2 == 1) ==> p[t] == Ones(bits, t + 1)
    {
      p[i] := p[i - 1] + BitValue(bits[i]);
      i := i + 2;
    }
  }

  /** The whole counter: entry `i` is the number of ones among bits `0..i`. */
  method CountPrefix(bits: seq<bool>, k: nat) returns (p: array<nat>)
    requires k > 0 && |bits| == Pow2(k)
    ensures fresh(p) && p.Length == |bits|
    ensures forall i :: 0 <= i < |bits| ==> p[i] == Ones(bits, i + 1)
  {
    p := new nat[|bits|](_ => 0);
    FirstStage(p, bits);
    var s := 1;
    while s < k
      invariant 1 <= s <= k && UpDone(p[..], bits, s)
    {
      UpStage(p, bits, s);
      s := s + 1;
    }
    TopIsWhole(p[..], bits, k);
    while s > 1
      invariant 1 <= s <= k && DownDone(p[..], bits, s, k)
    {
      DownStage(p, bits, s, k);
      s := s - 1;
    }
    OddEntries(p[..], bits, k);
    LastStage(p, bits);
  }

  lemma OddEntries(p: seq<nat>, bits: seq<bool>, k: nat)
    requires |bits| == |p| && DownDone(p, bits, 1, k)
    ensures forall t :: 0 <= t < |bits| && t % 2 == 1 ==> p[t] == Ones(bits, t + 1)
  {
    assert Pow2(1) == 2;
    forall t | 0 <= t < |bits| && t % 2 == 1
      ensures p[t] == Ones(bits, t + 1)
    {
      assert (t + 1) % Pow2(1) == 0;
    }
  }

  /** After the upward tree only the top entry is a multiple of the width, and it counts everything. */
  lemma TopIsWhole(p: seq<nat>, bits: seq<bool>, k: nat)
    requires |bits| == |p| == Pow2(k) && UpDone(p, bits, k)
    ensures DownDone(p, bits, k, k)
  {
    forall n: nat | 0 < n <= |bits| && n % 2 == 0
      ensures if n % Pow2(k) == 0 then p[n - 1] == Ones(bits, n) else Partial(p, bits, n, k)
    {
      assert Partial(p, bits, n, k);
      if n < Pow2(k) {
        DivModUnique(n, Pow2(k), 0, n);
      }
      SpanStays(n, k);
    }
  }

  // ---------------------------------------------------------------------------------------------
  // cpop, ctz and clz

  /** One of the `d` bits up to position `i` is set. */
  ghost predicate SetWithin(x: seq<bool>, d: nat, i: nat) {
    exists t :: i - d < t <= i && 0 <= t < |x| && x[t]
  }

  /** Spreads the lowest set bit to all higher positions, doubling the distance at each step. */
  method Smear(x: seq<bool>, k: nat) returns (r: seq<bool>)
    requires |x| == Pow2(k)
    ensures |r| == |x| && forall i :: 0 <= i < |x| ==> (r[i] <==> SetWithin(x, |x|, i))
  {
    r := x;
    for j := 0 to k
      invariant |r| == |x|
      invariant forall i :: 0 <= i < |x| ==> (r[i] <==> SetWithin(x, Pow2(j), i))
    {
      SmearStep(x, r, Pow2(j));
      r := Or(r, Shl(r, Pow2(j)));
    }
  }

  lemma SmearStep(x: seq<bool>, y: seq<bool>, d: nat)
    requires |x| == |y| && forall j :: 0 <= j < |x| ==> (y[j] <==> SetWithin(x, d, j))
    ensures forall i :: 0 <= i < |x| ==> (Or(y, Shl(y, d))[i] <==> SetWithin(x, 2 * d, i))
  {
    forall i | 0 <= i < |x|
      ensures Or(y, Shl(y, d))[i] <==> SetWithin(x, 2 * d, i)
    {
      if SetWithin(x, 2 * d, i) {
        var t :| i - 2 * d < t <= i && 0 <= t < |x| && x[t];
        if t <= i - d {
          assert SetWithin(x, d, i - d);
        } else {
          assert SetWithin(x, d, i);
        }
      }
    }
  }

  method PopCount(x: seq<bool>, k: nat) returns (c: nat)
    requires k > 0 && |x| == Pow2(k)
    ensures c == Ones(x, |x|)
  {
    var p := CountPrefix(x, k);
    c := p[|x| - 1];
  }

  /** `c` zeros at the bottom, then a one or the end of the word. */
  ghost predicate TrailingZeros(x: seq<bool>, c: nat) {
    c <= |x| && (forall t :: 0 <= t < c ==> !x[t]) && (c < |x| ==> x[c])
  }

  lemma {:induction false} CountZeros(x: seq<bool>, bits: seq<bool>, n: nat)
    requires |x| == |bits| && n <= |x|
    requires forall i :: 0 <= i < |x| ==> (bits[i] <==> !SetWithin(x, |x|, i))
    ensures var c := Ones(bits, n);
            && (forall t :: 0 <= t < c ==> !x[t])
            && (c < n ==> x[c])
  {
    if n > 0 {
      CountZeros(x, bits, n - 1);
      var c := Ones(bits, n - 1);
      if bits[n - 1] {
        assert !SetWithin(x, |x|, n - 1);
        assert c == n - 1;
      } else if c == n - 1 {
        var t :| n - 1 - |x| < t <= n - 1 && 0 <= t < |x| && x[t];
      }
    }
  }

  /** `ctz`: counting the ones of the complemented smeared mask. Gives the width for zero. */
  method CountTrailing(x: seq<bool>, k: nat) returns (c: nat)
    requires k > 0 && |x| == Pow2(k)
    ensures TrailingZeros(x, c)
  {
    var mask := Smear(x, k);
    mask := Not(mask);
    var bits := And(mask, Not(x));
    forall i | 0 <= i < |x|
      ensures bits[i] <==> !SetWithin(x, |x|, i)
    {
    }
    c := PopCount(bits, k);
    CountZeros(x, bits, |x|);
  }

  /** `clz`: the same on the reversed operand. */
  method CountLeading(x: seq<bool>, k: nat) returns (c: nat)
    requires k > 0 && |x| == Pow2(k)
    ensures c <= |x| && (forall t :: |x| - c <= t < |x| ==> !x[t]) && (c < |x| ==> x[|x| - 1 - c])
  {
    c := CountTrailing(Reverse(x), k);
    forall t | |x| - c <= t < |x|
      ensures !x[t]
    {
      assert Reverse(x)[|x| - 1 - t] == x[t];
    }
  }
}
