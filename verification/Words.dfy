/** Words as sequences of bits, least significant first, and the counts the ALU works with. */
module Words {

  function Pow2(k: nat): (r: nat)
    ensures r > 0
  {
    if k == 0 then 1 else 2 * Pow2(k - 1)
  }

  /** The number of ones among the low `n` bits. */
  function Ones(m: seq<bool>, n: nat): (c: nat)
    requires n <= |m|
    ensures c <= n
  {
    if n == 0 then 0 else Ones(m, n - 1) + (if m[n - 1] then 1 else 0)
  }

  lemma {:induction false} OnesStep(m: seq<bool>, i: nat, j: nat)
    requires i <= j <= |m|
    ensures Ones(m, i) <= Ones(m, j) <= Ones(m, i) + (j - i)
    decreases j
  {
    if i < j {
      OnesStep(m, i, j - 1);
    }
  }

  function Bit(x: nat, b: nat): bool {
    x / Pow2(b) % 2 == 1
  }

  function BitValue(b: bool): nat {
    if b then 1 else 0
  }

  function And(x: seq<bool>, y: seq<bool>): seq<bool>
    requires |x| == |y|
  {
    seq(|x|, i requires 0 <= i < |x| => x[i] && y[i])
  }

  function Or(x: seq<bool>, y: seq<bool>): seq<bool>
    requires |x| == |y|
  {
    seq(|x|, i requires 0 <= i < |x| => x[i] || y[i])
  }

  function Not(x: seq<bool>): seq<bool> {
    seq(|x|, i requires 0 <= i < |x| => !x[i])
  }

  function Shr(x: seq<bool>, n: nat): seq<bool> {
    seq(|x|, i requires 0 <= i < |x| => i + n < |x| && x[i + n])
  }

  function Shl(x: seq<bool>, n: nat): seq<bool> {
    seq(|x|, i requires 0 <= i < |x| => i >= n && x[i - n])
  }

  function Reverse(x: seq<bool>): seq<bool> {
    seq(|x|, i requires 0 <= i < |x| => x[|x| - 1 - i])
  }

  function Zeros(n: nat): seq<bool> {
    seq(n, _ => false)
  }
}

/** Division with remainder, for the index arithmetic of aligned blocks. */
module Blocks {

  lemma {:induction false} MulMono(n: nat, a: nat, b: nat)
    requires a <= b
    ensures n * a <= n * b
    decreases b
  {
    if a < b {
      MulMono(n, a, b - 1);
      assert n * b == n * (b - 1) + n;
    }
  }

  /** Quotient and remainder are determined by their equation. */
  lemma DivModUnique(x: nat, n: nat, q: nat, r: nat)
    requires r < n && x == n * q + r
    ensures x / n == q && x % n == r
  {
    var q', r' := x / n, x % n;
    assert x == n * q' + r';
    assert n * (q' + 1) == n * q' + n && n * (q + 1) == n * q + n;
    if q' < q {
      MulMono(n, q' + 1, q);
    }
    if q < q' {
      MulMono(n, q + 1, q');
    }
  }

  lemma ModDouble(h: nat, x: nat)
    requires h > 0
    ensures x % (2 * h) == x % h + (if x / h % 2 == 1 then h else 0)
  {
    var q, r := x / h, x % h;
    var d := q / 2;
    assert x == h * q + r;
    assert h * (2 * d) == 2 * h * d && h * (2 * d + 1) == 2 * h * d + h;
    if q % 2 == 1 {
      DivModUnique(x, 2 * h, d, h + r);
    } else {
      DivModUnique(x, 2 * h, d, r);
    }
  }

  lemma ModPlus(m: nat, e: nat, t: nat)
    requires m > 0 && t <= m
    ensures (e + t) % m == (if e % m + t < m then e % m + t else e % m + t - m)
  {
    var d, r := e / m, e % m;
    assert e == m * d + r && m * (d + 1) == m * d + m;
    if r + t < m {
      DivModUnique(e + t, m, d, r + t);
    } else {
      DivModUnique(e + t, m, d + 1, r + t - m);
    }
  }

  /** The start of the block of `n` that holds `i`. */
  function Start(n: nat, i: nat): (b: nat)
    requires n > 0
    ensures b <= i && i == b + i % n && b == n * (i / n)
  {
    assert i == n * (i / n) + i % n;
    i - i % n
  }

  /** Halving a block of `2 * n`: remainders, starts, and the end of the block inside `w`. */
  lemma Halves(w: nat, n: nat, i: nat)
    requires n > 0 && w % (2 * n) == 0 && i < w
    ensures var b, r := Start(2 * n, i), i % (2 * n);
            && b + 2 * n <= w
            && i % n == (if r < n then r else r - n)
            && Start(n, i) == (if r < n then b else b + n)
  {
    ModHalf(n, i);
    BlockInside(w, 2 * n, i);
  }

  lemma BlockInside(w: nat, m: nat, i: nat)
    requires m > 0 && w % m == 0 && i < w
    ensures Start(m, i) + m <= w
  {
    var d, e := i / m, w / m;
    assert w == m * e && i == m * d + i % m;
    if d >= e {
      MulMono(m, e, d);
    }
    MulMono(m, d + 1, e);
    assert m * (d + 1) == m * d + m;
  }

  lemma NextMultiple(m: nat, d: nat)
    ensures m * (d + 1) == m * d + m
  {
  }

  lemma DivMod(i: nat, m: nat) returns (d: nat, r: nat)
    requires m > 0
    ensures i == m * d + r && r < m && r == i % m
  {
    d, r := i / m, i % m;
  }

  lemma ModOf(n: nat, i: nat, d: nat, r: nat)
    requires n > 0 && i == (2 * n) * d + r && r < 2 * n
    ensures i % n == (if r < n then r else r - n)
  {
    assert (2 * n) * d == n * (2 * d) && n * (2 * d + 1) == n * (2 * d) + n;
    if r < n {
      DivModUnique(i, n, 2 * d, r);
    } else {
      DivModUnique(i, n, 2 * d + 1, r - n);
    }
  }

  lemma ModHalf(n: nat, i: nat)
    requires n > 0
    ensures var r := i % (2 * n); i % n == (if r < n then r else r - n)
  {
    var d, r := DivMod(i, 2 * n);
    ModOf(n, i, d, r);
  }

  /** Starts of aligned blocks inside a block. */
  lemma SameBlock(n: nat, i: nat, r: nat)
    requires n > 0 && r < n
    ensures Start(n, Start(n, i) + r) == Start(n, i) && (Start(n, i) + r) % n == r
  {
    DivModUnique(Start(n, i) + r, n, i / n, r);
  }
}
