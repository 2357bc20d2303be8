/** The two-cycle CRC of the ALU: a carry-less product with the reversed Barrett constant, then one
    with the polynomial. Proved equal to the bit-serial definition for any polynomial and width whose
    constant is right. */
module AluCrc {
  import opened Words

  // ---------------------------------------------------------------------------------------------
  // Sums modulo two

  predicate Xor1(x: bool, y: bool) {
    x != y
  }

  ghost function XorSum(f: nat -> bool, n: nat): bool {
    if n == 0 then false else Xor1(XorSum(f, n - 1), f(n - 1))
  }

  lemma {:induction false} XorSumEqual(f: nat -> bool, g: nat -> bool, n: nat)
    requires forall i :: 0 <= i < n ==> f(i) == g(i)
    ensures XorSum(f, n) == XorSum(g, n)
  {
    if n > 0 {
      XorSumEqual(f, g, n - 1);
    }
  }

  lemma {:induction false} XorSumXor(f: nat -> bool, g: nat -> bool, h: nat -> bool, n: nat)
    requires forall i :: 0 <= i < n ==> h(i) == Xor1(f(i), g(i))
    ensures XorSum(h, n) == Xor1(XorSum(f, n), XorSum(g, n))
  {
    if n > 0 {
      XorSumXor(f, g, h, n - 1);
    }
  }

  lemma {:induction false} XorSumAnd(c: bool, f: nat -> bool, g: nat -> bool, n: nat)
    requires forall i :: 0 <= i < n ==> g(i) == (c && f(i))
    ensures XorSum(g, n) == (c && XorSum(f, n))
  {
    if n > 0 {
      XorSumAnd(c, f, g, n - 1);
    }
  }

  /** Terms that are zero from `m` on can be left out. */
  lemma {:induction false} XorSumTail(f: nat -> bool, m: nat, n: nat)
    requires m <= n && forall i :: m <= i < n ==> !f(i)
    ensures XorSum(f, m) == XorSum(f, n)
    decreases n
  {
    if m < n {
      XorSumTail(f, m, n - 1);
    }
  }

  /** Terms that are zero below `d` can be left out. */
  lemma {:induction false} XorSumShift(f: nat -> bool, g: nat -> bool, d: nat, n: nat)
    requires forall i :: 0 <= i < d ==> !f(i)
    requires forall i :: 0 <= i < n ==> f(d + i) == g(i)
    ensures XorSum(f, d + n) == XorSum(g, n)
  {
    if n == 0 {
      XorSumTail(f, 0, d);
    } else {
      XorSumShift(f, g, d, n - 1);
      assert f(d + (n - 1)) == g(n - 1);
    }
  }

  /** Row `s` of a triangle, from its diagonal entry on. */
  ghost function Row(t: (nat, nat) -> bool, s: nat, n: nat): bool
    requires s <= n
  {
    XorSum((k: nat) => t(s, s + k), n - s)
  }

  /** Summing a triangle by columns or by rows is the same. */
  lemma {:induction false} Triangle(t: (nat, nat) -> bool, columns: nat -> bool, rows: nat -> bool, n: nat)
    requires forall j :: 0 <= j < n ==> columns(j) == XorSum((s: nat) => t(s, j), j + 1)
    requires forall s :: 0 <= s < n ==> rows(s) == Row(t, s, n)
    ensures XorSum(columns, n) == XorSum(rows, n)
  {
    if n > 0 {
      var shorter := (s: nat) => s < n && Row(t, s, n - 1);
      forall s | 0 <= s < n - 1
        ensures shorter(s) == Row(t, s, n - 1)
      {
      }
      Triangle(t, columns, shorter, n - 1);
      var last := (s: nat) => t(s, n - 1);
      forall s | 0 <= s < n
        ensures rows(s) == Xor1(shorter(s), last(s))
      {
        RowStep(t, s, n);
      }
      XorSumXor(shorter, last, rows, n);
      assert !shorter(n - 1);
    }
  }

  lemma RowStep(t: (nat, nat) -> bool, s: nat, n: nat)
    requires s < n
    ensures Row(t, s, n) == Xor1(Row(t, s, n - 1), t(s, n - 1))
  {
    assert n - s - 1 == n - 1 - s;
    assert ((k: nat) => t(s, s + k))(n - 1 - s) == t(s, n - 1);
  }

  // ---------------------------------------------------------------------------------------------
  // The bit-serial definition

  /** Bit `i`, and zero outside the word. */
  predicate At(x: seq<bool>, i: int) {
    0 <= i < |x| && x[i]
  }

  function Xor(x: seq<bool>, y: seq<bool>): (r: seq<bool>)
    requires |x| == |y|
    ensures |r| == |x|
  {
    seq(|x|, i requires 0 <= i < |x| => Xor1(x[i], y[i]))
  }

  /** One step of the reflected CRC with reversed polynomial `prev`. */
  function Step(x: seq<bool>, prev: seq<bool>): (r: seq<bool>)
    requires |x| == |prev|
    ensures |r| == |x|
  {
    if At(x, 0) then Xor(Shr(x, 1), prev) else Shr(x, 1)
  }

  /** `crc32.b`, `.h` and `.w` are 8, 16 and 32 steps. */
  function Serial(x: seq<bool>, prev: seq<bool>, n: nat): (r: seq<bool>)
    requires |x| == |prev|
    ensures |r| == |x|
  {
    if n == 0 then x else Step(Serial(x, prev, n - 1), prev)
  }

  /** The bit that decides step `j`. */
  predicate Quotient(x: seq<bool>, prev: seq<bool>, j: nat)
    requires |x| == |prev|
  {
    At(Serial(x, prev, j), 0)
  }

  /** The part of bit `m` contributed by the polynomials added in the first `i` steps. */
  ghost function Added(x: seq<bool>, prev: seq<bool>, i: nat, m: nat): bool
    requires |x| == |prev|
  {
    XorSum((j: nat) => Quotient(x, prev, j) && At(prev, m + i - 1 - j), i)
  }

  lemma StepBit(x: seq<bool>, prev: seq<bool>, m: nat)
    requires |x| == |prev|
    ensures At(Step(x, prev), m) == Xor1(At(x, m + 1), At(x, 0) && At(prev, m))
  {
  }

  lemma AddedNext(x: seq<bool>, prev: seq<bool>, i: nat, m: nat)
    requires |x| == |prev|
    ensures Added(x, prev, i + 1, m) == Xor1(Added(x, prev, i, m + 1), Quotient(x, prev, i) && At(prev, m))
  {
    var f := (j: nat) => Quotient(x, prev, j) && At(prev, m + (i + 1) - 1 - j);
    var g := (j: nat) => Quotient(x, prev, j) && At(prev, m + 1 + i - 1 - j);
    XorSumEqual(f, g, i);
  }

  /** Every bit after `i` steps, in closed form. */
  lemma {:induction false} SerialBit(x: seq<bool>, prev: seq<bool>, i: nat, m: nat)
    requires |x| == |prev|
    ensures At(Serial(x, prev, i), m) == Xor1(At(x, m + i), Added(x, prev, i, m))
    decreases i
  {
    if i > 0 {
      SerialBit(x, prev, i - 1, m + 1);
      StepBit(Serial(x, prev, i - 1), prev, m);
      AddedNext(x, prev, i - 1, m);
    }
  }

  // ---------------------------------------------------------------------------------------------
  // Carry-less multiplication

  ghost function Term(x: seq<bool>, y: seq<bool>, j: nat): nat -> bool {
    (i: nat) => At(y, i) && At(x, j - i)
  }

  /** Bit `j` of the product: all pairs of bits whose positions add up to `j`. */
  ghost function ProductBit(x: seq<bool>, y: seq<bool>, j: nat): bool {
    XorSum(Term(x, y, j), j + 1)
  }

  /** The array of the ALU: `x` shifted by each set bit of `y`. */
  function AndStage(x: seq<bool>, y: seq<bool>): (rows: seq<seq<bool>>)
    requires |x| == |y|
    ensures |rows| == |y| && forall i :: 0 <= i < |rows| ==> |rows[i]| == |x|
  {
    seq(|y|, i requires 0 <= i < |y| => if y[i] then Shl(x, i) else Zeros(|x|))
  }

  /** One level of the tree: neighbours are combined. */
  function XorPairs(rows: seq<seq<bool>>, w: nat): (r: seq<seq<bool>>)
    requires |rows| % 2 == 0 && forall i :: 0 <= i < |rows| ==> |rows[i]| == w
    ensures |r| == |rows| / 2 && forall i :: 0 <= i < |r| ==> |r[i]| == w
  {
    seq(|rows| / 2, i requires 0 <= i < |rows| / 2 => Xor(rows[2 * i], rows[2 * i + 1]))
  }

  /** The whole tree over `2^k` rows. */
  function XorTree(rows: seq<seq<bool>>, w: nat, k: nat): (r: seq<bool>)
    requires |rows| == Pow2(k) && forall i :: 0 <= i < |rows| ==> |rows[i]| == w
    ensures |r| == w
    decreases k
  {
    if k == 0 then rows[0] else XorTree(XorPairs(rows, w), w, k - 1)
  }

  ghost function Column(rows: seq<seq<bool>>, j: nat): nat -> bool {
    (i: nat) => i < |rows| && At(rows[i], j)
  }

  lemma {:induction false} PairsSum(rows: seq<seq<bool>>, w: nat, j: nat, n: nat)
    requires |rows| % 2 == 0 && (forall i :: 0 <= i < |rows| ==> |rows[i]| == w) && j < w && 2 * n <= |rows|
    ensures XorSum(Column(XorPairs(rows, w), j), n) == XorSum(Column(rows, j), 2 * n)
  {
    if n > 0 {
      PairsSum(rows, w, j, n - 1);
      var f := Column(rows, j);
      assert XorSum(f, 2 * n) == Xor1(Xor1(XorSum(f, 2 * n - 2), f(2 * n - 2)), f(2 * n - 1));
    }
  }

  /** Each bit of the tree is the sum of its column: the tree only regroups. */
  lemma {:induction false} TreeIsSum(rows: seq<seq<bool>>, w: nat, k: nat, j: nat)
    requires |rows| == Pow2(k) && (forall i :: 0 <= i < |rows| ==> |rows[i]| == w) && j < w
    ensures XorTree(rows, w, k)[j] == XorSum(Column(rows, j), |rows|)
    decreases k
  {
    if k > 0 {
      TreeIsSum(XorPairs(rows, w), w, k - 1, j);
      PairsSum(rows, w, j, |rows| / 2);
    } else {
      assert XorSum(Column(rows, j), 1) == Xor1(XorSum(Column(rows, j), 0), Column(rows, j)(0));
    }
  }

  function Clmul(x: seq<bool>, y: seq<bool>, k: nat): (r: seq<bool>)
    requires |x| == |y| == Pow2(k)
    ensures |r| == |x|
  {
    XorTree(AndStage(x, y), |x|, k)
  }

  lemma StageCell(x: seq<bool>, y: seq<bool>, i: nat, j: nat)
    requires |x| == |y| && i < |x| && j < |x|
    ensures AndStage(x, y)[i][j] == (At(y, i) && At(x, j - i))
  {
    var row := AndStage(x, y)[i];
    assert row == if y[i] then Shl(x, i) else Zeros(|x|);
  }

  lemma ColumnCell(x: seq<bool>, y: seq<bool>, i: nat, j: nat)
    requires |x| == |y| && i < |x| && j < |x|
    ensures Column(AndStage(x, y), j)(i) == Term(x, y, j)(i)
  {
    var rows := AndStage(x, y);
    StageCell(x, y, i, j);
    assert Column(rows, j)(i) == At(rows[i], j) == rows[i][j];
  }

  lemma StageColumn(x: seq<bool>, y: seq<bool>, j: nat)
    requires |x| == |y| && j < |x|
    ensures XorSum(Column(AndStage(x, y), j), |x|) == XorSum(Term(x, y, j), |x|)
  {
    forall i | 0 <= i < |x|
      ensures Column(AndStage(x, y), j)(i) == Term(x, y, j)(i)
    {
      ColumnCell(x, y, i, j);
    }
    XorSumEqual(Column(AndStage(x, y), j), Term(x, y, j), |x|);
  }

  lemma LateTermsAreZero(x: seq<bool>, y: seq<bool>, j: nat)
    requires |x| == |y| && j < |x|
    ensures XorSum(Term(x, y, j), |x|) == ProductBit(x, y, j)
  {
    XorSumTail(Term(x, y, j), j + 1, |x|);
  }

  lemma ClmulBit(x: seq<bool>, y: seq<bool>, k: nat, j: nat)
    requires |x| == |y| == Pow2(k) && j < |x|
    ensures Clmul(x, y, k)[j] == ProductBit(x, y, j)
  {
    TreeIsSum(AndStage(x, y), |x|, k, j);
    StageColumn(x, y, j);
    LateTermsAreZero(x, y, j);
  }

  // ---------------------------------------------------------------------------------------------
  // The reversed Barrett constant generates the quotient

  /** `mu` is the quotient of the word one: the power series inverse of `1 + x * prev`. */
  ghost predicate IsBarrett(mu: seq<bool>, prev: seq<bool>) {
    |mu| == |prev| && forall j :: 0 <= j < |mu| ==> mu[j] == Xor1(j == 0, MuSum(mu, prev, j))
  }

  ghost function MuSum(mu: seq<bool>, prev: seq<bool>, j: nat): bool {
    XorSum((i: nat) => At(mu, i) && At(prev, j - 1 - i), j)
  }

  /** Entry of the triangle behind the quotient of a product: word bit `s`, constant bit `j - s`,
      polynomial bit `d - 1 - j`. */
  ghost function Cell(x: seq<bool>, mu: seq<bool>, prev: seq<bool>, d: nat): (nat, nat) -> bool {
    (s: nat, j: nat) => At(x, s) && At(mu, j - s) && At(prev, d - 1 - j)
  }

  /** The quotient bits are the product of the word with the Barrett constant. By strong induction: each
      quotient bit is the word bit plus the polynomials added before, a triangle of terms whose rows are
      the recurrence of the constant. */
  lemma {:induction false} QuotientIsProduct(x: seq<bool>, mu: seq<bool>, prev: seq<bool>, d: nat)
    requires |x| == |prev| && IsBarrett(mu, prev) && d < |x|
    ensures Quotient(x, prev, d) == XorSum(Partial(x, mu, d), d + 1)
    decreases d
  {
    forall j | 0 <= j < d
      ensures Quotient(x, prev, j) == XorSum(Partial(x, mu, j), j + 1)
    {
      QuotientIsProduct(x, mu, prev, j);
    }
    SerialBit(x, prev, d, 0);
    AddedIsTriangle(x, mu, prev, d);
    var f := Partial(x, mu, d);
    assert mu[0] by { assert MuSum(mu, prev, 0) == false; }
    assert XorSum(f, d + 1) == Xor1(XorSum(f, d), f(d));
  }

  ghost function Partial(x: seq<bool>, mu: seq<bool>, d: nat): nat -> bool {
    (s: nat) => At(x, s) && At(mu, d - s)
  }

  lemma AddedIsTriangle(x: seq<bool>, mu: seq<bool>, prev: seq<bool>, d: nat)
    requires |x| == |prev| && IsBarrett(mu, prev) && d < |x|
    requires forall j :: 0 <= j < d ==> Quotient(x, prev, j) == XorSum(Partial(x, mu, j), j + 1)
    ensures Added(x, prev, d, 0) == XorSum(Partial(x, mu, d), d)
  {
    var columns := (j: nat) => Quotient(x, prev, j) && At(prev, 0 + d - 1 - j);
    forall j | 0 <= j < d
      ensures columns(j) == XorSum((s: nat) => Cell(x, mu, prev, d)(s, j), j + 1)
    {
      ColumnSum(x, mu, prev, d, j);
    }
    ByRows(x, mu, prev, d, columns);
  }

  lemma ByRows(x: seq<bool>, mu: seq<bool>, prev: seq<bool>, d: nat, columns: nat -> bool)
    requires |x| == |prev| && IsBarrett(mu, prev) && d < |x|
    requires forall j :: 0 <= j < d ==> columns(j) == XorSum((s: nat) => Cell(x, mu, prev, d)(s, j), j + 1)
    ensures XorSum(columns, d) == XorSum(Partial(x, mu, d), d)
  {
    forall s | 0 <= s < d
      ensures Partial(x, mu, d)(s) == Row(Cell(x, mu, prev, d), s, d)
    {
      RowSum(x, mu, prev, d, s);
    }
    Triangle(Cell(x, mu, prev, d), columns, Partial(x, mu, d), d);
  }

  lemma ColumnSum(x: seq<bool>, mu: seq<bool>, prev: seq<bool>, d: nat, j: nat)
    requires |x| == |prev| && j < d
    requires Quotient(x, prev, j) == XorSum(Partial(x, mu, j), j + 1)
    ensures (Quotient(x, prev, j) && At(prev, d - 1 - j)) == XorSum((s: nat) => Cell(x, mu, prev, d)(s, j), j + 1)
  {
    var f := Partial(x, mu, j);
    var g := (s: nat) => Cell(x, mu, prev, d)(s, j);
    forall s | 0 <= s < j + 1
      ensures g(s) == (At(prev, d - 1 - j) && f(s))
    {
      assert Cell(x, mu, prev, d)(s, j) == (At(x, s) && At(mu, j - s) && At(prev, d - 1 - j));
    }
    XorSumAnd(At(prev, d - 1 - j), f, g, j + 1);
  }

  lemma MuIsSum(mu: seq<bool>, prev: seq<bool>, j: nat)
    requires IsBarrett(mu, prev) && 0 < j < |mu|
    ensures At(mu, j) == MuSum(mu, prev, j)
  {
    assert mu[j] == Xor1(j == 0, MuSum(mu, prev, j));
  }

  lemma RowIsMuSum(x: seq<bool>, mu: seq<bool>, prev: seq<bool>, d: nat, s: nat)
    requires s < d
    ensures Row(Cell(x, mu, prev, d), s, d) == (At(x, s) && MuSum(mu, prev, d - s))
  {
    var t := Cell(x, mu, prev, d);
    var f := (i: nat) => At(mu, i) && At(prev, (d - s) - 1 - i);
    var g := (k: nat) => t(s, s + k);
    forall k | 0 <= k < d - s
      ensures g(k) == (At(x, s) && f(k))
    {
    }
    XorSumAnd(At(x, s), f, g, d - s);
  }

  lemma RowSum(x: seq<bool>, mu: seq<bool>, prev: seq<bool>, d: nat, s: nat)
    requires IsBarrett(mu, prev) && s < d < |mu|
    ensures (At(x, s) && At(mu, d - s)) == Row(Cell(x, mu, prev, d), s, d)
  {
    RowIsMuSum(x, mu, prev, d, s);
    MuIsSum(mu, prev, d - s);
  }

  // ---------------------------------------------------------------------------------------------
  // Two cycles equal `|x|` steps

  /** Both cycles for a full word: the reversed product with the constant, then the reversed product of
      that with the polynomial. */
  function TwoCycles(x: seq<bool>, poly: seq<bool>, mu: seq<bool>, k: nat): (r: seq<bool>)
    requires |x| == |poly| == |mu| == Pow2(k)
    ensures |r| == |x|
  {
    var first := Reverse(Clmul(x, mu, k));
    Reverse(Clmul(first, poly, k))
  }

  lemma FirstCycleBit(x: seq<bool>, poly: seq<bool>, mu: seq<bool>, k: nat, d: nat)
    requires |x| == |poly| == |mu| == Pow2(k) && IsBarrett(mu, Reverse(poly)) && d < |x|
    ensures Clmul(x, mu, k)[d] == Quotient(x, Reverse(poly), d)
  {
    ClmulBit(x, mu, k, d);
    QuotientIsProduct(x, mu, Reverse(poly), d);
    ProductFlips(x, mu, d);
  }

  lemma ProductFlips(x: seq<bool>, y: seq<bool>, d: nat)
    ensures XorSum(Partial(x, y, d), d + 1) == ProductBit(x, y, d)
  {
    var f := Partial(x, y, d);
    var g := Term(x, y, d);
    forall i: nat | 0 <= i < d + 1
      ensures f(i) == g(d + 1 - 1 - i)
    {
    }
    XorSumFlip(f, g, d + 1);
  }

  /** Reading the terms backwards does not change their sum. */
  lemma {:induction false} XorSumFlip(f: nat -> bool, g: nat -> bool, n: nat)
    requires forall i :: 0 <= i < n ==> f(i) == g(n - 1 - i)
    ensures XorSum(f, n) == XorSum(g, n)
  {
    if n > 0 {
      var f1 := (i: nat) => f(i + 1);
      XorSumFlip(f1, g, n - 1);
      XorSumFront(f, f1, n - 1);
    }
  }

  lemma {:induction false} XorSumFront(f: nat -> bool, g: nat -> bool, n: nat)
    requires forall i :: 0 <= i < n ==> g(i) == f(i + 1)
    ensures XorSum(f, n + 1) == Xor1(f(0), XorSum(g, n))
  {
    if n == 0 {
      assert XorSum(f, 1) == Xor1(XorSum(f, 0), f(0));
    } else {
      XorSumFront(f, g, n - 1);
      assert g(n - 1) == f(n - 1 + 1);
    }
  }

  /** For a full word, the two cycles compute the bit-serial CRC. */
  lemma TwoCyclesSerial(x: seq<bool>, poly: seq<bool>, mu: seq<bool>, k: nat)
    requires |x| == |poly| == |mu| == Pow2(k) && IsBarrett(mu, Reverse(poly))
    ensures TwoCycles(x, poly, mu, k) == Serial(x, Reverse(poly), |x|)
  {
    forall m | 0 <= m < |x|
      ensures TwoCycles(x, poly, mu, k)[m] == Serial(x, Reverse(poly), |x|)[m]
    {
      SecondCycleBit(x, poly, mu, k, m);
    }
  }

  lemma SecondCycleBit(x: seq<bool>, poly: seq<bool>, mu: seq<bool>, k: nat, m: nat)
    requires |x| == |poly| == |mu| == Pow2(k) && IsBarrett(mu, Reverse(poly)) && m < |x|
    ensures TwoCycles(x, poly, mu, k)[m] == Serial(x, Reverse(poly), |x|)[m]
  {
    FirstIsQuotients(x, poly, mu, k);
    SecondProductBit(x, poly, Reverse(Clmul(x, mu, k)), k, m);
  }

  lemma SecondProductBit(x: seq<bool>, poly: seq<bool>, first: seq<bool>, k: nat, m: nat)
    requires |x| == |poly| == Pow2(k) && m < |x| && QuotientsReversed(x, Reverse(poly), first)
    ensures Reverse(Clmul(first, poly, k))[m] == Serial(x, Reverse(poly), |x|)[m]
  {
    ReversedProductBit(first, poly, k, m);
    ProductIsAdded(x, poly, first, m);
    AllAdded(x, Reverse(poly), m);
  }

  lemma ReversedProductBit(x: seq<bool>, y: seq<bool>, k: nat, m: nat)
    requires |x| == |y| == Pow2(k) && m < |x|
    ensures Reverse(Clmul(x, y, k))[m] == ProductBit(x, y, |x| - 1 - m)
  {
    ClmulBit(x, y, k, |x| - 1 - m);
  }

  lemma ReverseBit(x: seq<bool>, d: nat)
    requires d < |x|
    ensures Reverse(x)[|x| - 1 - d] == x[d]
  {
  }

  /** The first cycle delivers the quotient bits of the serial run, last one first. */
  lemma FirstIsQuotients(x: seq<bool>, poly: seq<bool>, mu: seq<bool>, k: nat)
    requires |x| == |poly| == |mu| == Pow2(k) && IsBarrett(mu, Reverse(poly))
    ensures QuotientsReversed(x, Reverse(poly), Reverse(Clmul(x, mu, k)))
  {
    forall d | 0 <= d < |x|
      ensures Reverse(Clmul(x, mu, k))[|x| - 1 - d] == Quotient(x, Reverse(poly), d)
    {
      FirstCycleBit(x, poly, mu, k, d);
      ReverseBit(Clmul(x, mu, k), d);
    }
  }

  ghost predicate QuotientsReversed(x: seq<bool>, prev: seq<bool>, first: seq<bool>)
    requires |x| == |prev|
  {
    |first| == |x| && forall d :: 0 <= d < |x| ==> first[|x| - 1 - d] == Quotient(x, prev, d)
  }

  lemma AllAdded(x: seq<bool>, prev: seq<bool>, m: nat)
    requires |x| == |prev| && m < |x|
    ensures Serial(x, prev, |x|)[m] == Added(x, prev, |x|, m)
  {
    SerialBit(x, prev, |x|, m);
  }

  lemma ContributionBit(x: seq<bool>, poly: seq<bool>, first: seq<bool>, m: nat, i: nat)
    requires |x| == |poly| && m < |x| && i < |x| - m && QuotientsReversed(x, Reverse(poly), first)
    ensures (Quotient(x, Reverse(poly), m + i) && At(Reverse(poly), m + |x| - 1 - (m + i)))
         == (At(poly, i) && At(first, |x| - 1 - m - i))
  {
    assert first[|x| - 1 - (m + i)] == Quotient(x, Reverse(poly), m + i);
    assert Reverse(poly)[|x| - 1 - i] == poly[i];
  }

  /** The second product sums, for each polynomial added in the serial run, its contribution to `m`. */
  lemma ProductIsAdded(x: seq<bool>, poly: seq<bool>, first: seq<bool>, m: nat)
    requires |x| == |poly| && m < |x| && QuotientsReversed(x, Reverse(poly), first)
    ensures ProductBit(first, poly, |x| - 1 - m) == Added(x, Reverse(poly), |x|, m)
  {
    var w, prev := |x|, Reverse(poly);
    var g := Term(first, poly, w - 1 - m);
    var f := (j: nat) => Quotient(x, prev, j) && At(prev, m + w - 1 - j);
    forall i | 0 <= i < w - m
      ensures f(m + i) == g(i)
    {
      ContributionBit(x, poly, first, m, i);
    }
    forall i | 0 <= i < m
      ensures !f(i)
    {
    }
    XorSumShift(f, g, m, w - m);
  }

  // ---------------------------------------------------------------------------------------------
  // Shorter operands

  lemma StepXor(x: seq<bool>, y: seq<bool>, prev: seq<bool>)
    requires |x| == |y| == |prev|
    ensures Step(Xor(x, y), prev) == Xor(Step(x, prev), Step(y, prev))
  {
  }

  /** The bit-serial CRC is linear. */
  lemma {:induction false} SerialXor(x: seq<bool>, y: seq<bool>, prev: seq<bool>, n: nat)
    requires |x| == |y| == |prev|
    ensures Serial(Xor(x, y), prev, n) == Xor(Serial(x, prev, n), Serial(y, prev, n))
  {
    if n > 0 {
      SerialXor(x, y, prev, n - 1);
      StepXor(Serial(x, prev, n - 1), Serial(y, prev, n - 1), prev);
    }
  }

  /** While only zeros leave the word, steps are shifts. */
  lemma {:induction false} SerialShift(x: seq<bool>, prev: seq<bool>, n: nat)
    requires |x| == |prev| && n <= |x| && forall i :: 0 <= i < n ==> !x[i]
    ensures Serial(x, prev, n) == Shr(x, n)
  {
    if n > 0 {
      SerialShift(x, prev, n - 1);
      assert Shr(Shr(x, n - 1), 1) == Shr(x, n);
      assert !At(Shr(x, n - 1), 0);
    } else {
      assert Shr(x, 0) == x;
    }
  }

  lemma {:induction false} SerialSplit(x: seq<bool>, prev: seq<bool>, i: nat, j: nat)
    requires |x| == |prev|
    ensures Serial(x, prev, i + j) == Serial(Serial(x, prev, i), prev, j)
  {
    if j > 0 {
      SerialSplit(x, prev, i, j - 1);
      assert Serial(x, prev, i + j) == Step(Serial(x, prev, i + (j - 1)), prev);
    }
  }

  /** `n` steps from the whole word shifted so that only its low `n` bits remain, plus the rest. */
  lemma ShortOperand(x: seq<bool>, prev: seq<bool>, n: nat)
    requires |x| == |prev| && n <= |x|
    ensures Serial(x, prev, n) == Xor(Serial(Shl(x, |x| - n), prev, |x|), Shr(x, n))
  {
    var low, high := LowAndHigh(x, n);
    FirstSteps(Shl(x, |x| - n), prev, |x| - n);
    SerialXor(low, high, prev, n);
    SerialShift(high, prev, n);
  }

  lemma FirstSteps(up: seq<bool>, prev: seq<bool>, n: nat)
    requires |up| == |prev| && n <= |up| && forall i :: 0 <= i < n ==> !up[i]
    ensures Serial(up, prev, |up|) == Serial(Shr(up, n), prev, |up| - n)
  {
    SerialShift(up, prev, n);
    SerialSplit(up, prev, n, |up| - n);
  }

  lemma LowAndHigh(x: seq<bool>, n: nat) returns (low: seq<bool>, high: seq<bool>)
    requires n <= |x|
    ensures |low| == |high| == |x| && x == Xor(low, high)
    ensures low == Shr(Shl(x, |x| - n), |x| - n)
    ensures (forall i :: 0 <= i < n ==> !high[i]) && Shr(high, n) == Shr(x, n)
  {
    low := Shr(Shl(x, |x| - n), |x| - n);
    forall i | 0 <= i < |x|
      ensures low[i] == (i < n && x[i])
    {
    }
    high := Xor(x, low);
    assert x == Xor(low, high);
    assert Shr(high, n) == Shr(x, n);
  }

  /** The ALU result for an operand of `n` bits: 8, 16 or the whole word. */
  function CrcResult(x: seq<bool>, poly: seq<bool>, mu: seq<bool>, k: nat, n: nat): seq<bool>
    requires |x| == |poly| == |mu| == Pow2(k) && n <= |x|
  {
    if n == |x| then TwoCycles(x, poly, mu, k)
    else Xor(TwoCycles(Shl(x, |x| - n), poly, mu, k), Shr(x, n))
  }

  /** For every operand and length the two-cycle result is the bit-serial CRC. */
  lemma CrcCorrect(x: seq<bool>, poly: seq<bool>, mu: seq<bool>, k: nat, n: nat)
    requires |x| == |poly| == |mu| == Pow2(k) && n <= |x| && IsBarrett(mu, Reverse(poly))
    ensures CrcResult(x, poly, mu, k, n) == Serial(x, Reverse(poly), n)
  {
    if n == |x| {
      TwoCyclesSerial(x, poly, mu, k);
    } else {
      TwoCyclesSerial(Shl(x, |x| - n), poly, mu, k);
      ShortOperand(x, Reverse(poly), n);
    }
  }
}
