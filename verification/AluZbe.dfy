/** `bcompress` and `bdecompress` over two cycles: the first cycle counts the mask bits and saves the
    few count bits the masks need in two registers, the second rebuilds the masks and runs the network. */
module AluZbe {
  import opened Blocks
  import opened Words
  import opened AluBitCount
  import opened AluButterfly

  /** Where bit `b` of the counts starts in the second register. */
  function Offset(k: nat, b: nat): (o: nat)
    requires 1 <= b <= k + 1
    ensures b <= k ==> o + Pow2(k - b) <= Pow2(k)
  {
    Pow2Mono(k - b + 1, k);
    if b <= k then Pow2(k) - Pow2(k - b + 1) else Pow2(k) - 1
  }

  lemma {:induction false} Pow2Mono(i: nat, j: nat)
    requires i <= j
    ensures Pow2(i) <= Pow2(j)
    decreases j
  {
    if i < j {
      Pow2Mono(i, j - 1);
    }
  }

  lemma Doubled(a: nat, b: nat)
    ensures 2 * a * b == 2 * (a * b)
  {
  }

  lemma {:induction false} Pow2Product(i: nat, j: nat)
    ensures Pow2(i) * Pow2(j) == Pow2(i + j)
  {
    if i > 0 {
      Pow2Product(i - 1, j);
      Doubled(Pow2(i - 1), Pow2(j));
    }
  }

  /** Entry `i` of level `b` is bit `b` of the count below position `2^b * (i + 1)`. */
  ghost predicate SavedAt(p: seq<nat>, msb: seq<bool>, k: nat, b: nat, i: nat)
    requires |p| == |msb| == Pow2(k) && 1 <= b <= k && i < Pow2(k - b)
  {
    LevelInside(k, b, i);
    msb[Offset(k, b) + i] == Bit(p[Pow2(b) * (i + 1) - 1], b)
  }

  lemma LevelInside(k: nat, b: nat, i: nat)
    requires b <= k && i < Pow2(k - b)
    ensures 0 < Pow2(b) * (i + 1) <= Pow2(k)
  {
    MulMono(Pow2(b), i + 1, Pow2(k - b));
    MulMono(Pow2(b), 1, i + 1);
    Pow2Product(b, k - b);
  }

  /** First cycle: bit 0 of every count goes to one register; bit `b` of the counts at multiples of
      `2^b` goes to the other, level after level. */
  method SaveCounts(p: seq<nat>, k: nat) returns (lsb: seq<bool>, msb: seq<bool>)
    requires |p| == Pow2(k)
    ensures |lsb| == |msb| == |p|
    ensures forall i :: 0 <= i < |p| ==> lsb[i] == Bit(p[i], 0)
    ensures forall b, i :: 1 <= b <= k && 0 <= i < Pow2(k - b) ==> SavedAt(p, msb, k, b, i)
  {
    lsb := seq(|p|, i requires 0 <= i < |p| => Bit(p[i], 0));
    msb := Zeros(|p|);
    for b := 1 to k + 1
      invariant |msb| == |p|
      invariant forall c, i :: 1 <= c < b && 0 <= i < Pow2(k - c) ==> SavedAt(p, msb, k, c, i)
    {
      msb := SaveLevel(p, msb, k, b);
    }
  }

  method SaveLevel(p: seq<nat>, msb: seq<bool>, k: nat, b: nat) returns (r: seq<bool>)
    requires |p| == |msb| == Pow2(k) && 1 <= b <= k
    requires forall c, i :: 1 <= c < b && 0 <= i < Pow2(k - c) ==> SavedAt(p, msb, k, c, i)
    ensures |r| == |p|
    ensures forall c, i :: 1 <= c <= b && 0 <= i < Pow2(k - c) ==> SavedAt(p, r, k, c, i)
  {
    r := msb;
    for i := 0 to Pow2(k - b)
      invariant |r| == |p| && r[..Offset(k, b)] == msb[..Offset(k, b)]
      invariant forall j :: 0 <= j < i ==> SavedAt(p, r, k, b, j)
    {
      LevelInside(k, b, i);
      ghost var before := r;
      r := r[Offset(k, b) + i := Bit(p[Pow2(b) * (i + 1) - 1], b)];
      forall j | 0 <= j <= i
        ensures SavedAt(p, r, k, b, j)
      {
        assert j < i ==> SavedAt(p, before, k, b, j);
      }
    }
    forall c, i | 1 <= c < b && 0 <= i < Pow2(k - c)
      ensures SavedAt(p, r, k, c, i)
    {
      assert SavedAt(p, msb, k, c, i);
      LevelsApart(k, c, b);
      assert r[..Offset(k, b)][Offset(k, c) + i] == msb[..Offset(k, b)][Offset(k, c) + i];
    }
  }

  lemma LevelsApart(k: nat, c: nat, b: nat)
    requires 1 <= c < b <= k
    ensures Offset(k, c) + Pow2(k - c) <= Offset(k, b)
  {
    Pow2Mono(k - b + 1, k - c);
  }

  /** Second cycle: bit `b` of count `i` as loaded back; the bits that were not saved read as zero. */
  function LoadedBit(lsb: seq<bool>, msb: seq<bool>, k: nat, i: nat, b: nat): bool
    requires |lsb| == |msb| == Pow2(k) && i < Pow2(k)
  {
    if b == 0 then lsb[i]
    else if b <= k && (i + 1) % Pow2(b) == 0 && Offset(k, b) + (i + 1) / Pow2(b) - 1 < |msb| then
      msb[Offset(k, b) + (i + 1) / Pow2(b) - 1]
    else false
  }

  /** Bits `l` down to 0 of the loaded count `i`. */
  function LoadedCount(lsb: seq<bool>, msb: seq<bool>, k: nat, i: nat, l: nat): nat
    requires |lsb| == |msb| == Pow2(k) && i < Pow2(k)
  {
    (if l == 0 then 0 else LoadedCount(lsb, msb, k, i, l - 1)) + BitValue(LoadedBit(lsb, msb, k, i, l)) * Pow2(l)
  }

  /** The registers hold the counts of mask `m`. */
  ghost predicate Saved(m: seq<bool>, k: nat, lsb: seq<bool>, msb: seq<bool>) {
    && |m| == |lsb| == |msb| == Pow2(k)
    && forall l, i :: 0 <= l < k && 0 <= i < |m| && (i + 1) % Pow2(l) == 0
         ==> LoadedCount(lsb, msb, k, i, l) == Ones(m, i + 1) % (2 * Pow2(l))
  }

  lemma ModBit(x: nat, l: nat)
    ensures x % (2 * Pow2(l)) == x % Pow2(l) + BitValue(Bit(x, l)) * Pow2(l)
  {
    ModDouble(Pow2(l), x);
  }

  lemma QuotientInside(k: nat, b: nat, i: nat)
    requires b <= k && i < Pow2(k) && (i + 1) % Pow2(b) == 0
    ensures var q := (i + 1) / Pow2(b); i + 1 == Pow2(b) * q && 0 < q <= Pow2(k - b)
  {
    var q := (i + 1) / Pow2(b);
    assert i + 1 == Pow2(b) * q;
    Pow2Product(b, k - b);
    assert Pow2(b) * (Pow2(k - b) + 1) == Pow2(k) + Pow2(b);
    if q > Pow2(k - b) {
      MulMono(Pow2(b), Pow2(k - b) + 1, q);
    }
  }

  lemma LoadsSaved(p: seq<nat>, lsb: seq<bool>, msb: seq<bool>, k: nat, i: nat, b: nat)
    requires |p| == |lsb| == |msb| == Pow2(k) && i < Pow2(k) && b <= k
    requires forall i :: 0 <= i < |p| ==> lsb[i] == Bit(p[i], 0)
    requires forall b, i :: 1 <= b <= k && 0 <= i < Pow2(k - b) ==> SavedAt(p, msb, k, b, i)
    requires (i + 1) % Pow2(b) == 0
    ensures LoadedBit(lsb, msb, k, i, b) == Bit(p[i], b)
  {
    if b > 0 {
      var q := (i + 1) / Pow2(b);
      QuotientInside(k, b, i);
      assert SavedAt(p, msb, k, b, q - 1);
    }
  }

  /** Enough is saved: at the positions a stage reads, the loaded count is the count modulo the width
      of the segment. */
  lemma {:induction false} LoadedIsCount(p: seq<nat>, lsb: seq<bool>, msb: seq<bool>, k: nat, i: nat, l: nat)
    requires |p| == |lsb| == |msb| == Pow2(k) && i < Pow2(k) && l <= k
    requires forall i :: 0 <= i < |p| ==> lsb[i] == Bit(p[i], 0)
    requires forall b, i :: 1 <= b <= k && 0 <= i < Pow2(k - b) ==> SavedAt(p, msb, k, b, i)
    requires (i + 1) % Pow2(l) == 0
    ensures LoadedCount(lsb, msb, k, i, l) == p[i] % (2 * Pow2(l))
  {
    LoadsSaved(p, lsb, msb, k, i, l);
    ModBit(p[i], l);
    if l > 0 {
      MultipleBelow(i + 1, l - 1, l);
      LoadedIsCount(p, lsb, msb, k, i, l - 1);
    }
  }

  method FirstCycle(m: seq<bool>, k: nat) returns (lsb: seq<bool>, msb: seq<bool>)
    requires k > 0 && |m| == Pow2(k)
    ensures Saved(m, k, lsb, msb)
  {
    var p := CountPrefix(m, k);
    lsb, msb := SaveCounts(p[..], k);
    forall l, i | 0 <= l < k && 0 <= i < |m| && (i + 1) % Pow2(l) == 0
      ensures LoadedCount(lsb, msb, k, i, l) == Ones(m, i + 1) % (2 * Pow2(l))
    {
      LoadedIsCount(p[..], lsb, msb, k, i, l);
    }
  }

  /** The counts the stage with half-width `2^l` reads from the registers. */
  function Counts(lsb: seq<bool>, msb: seq<bool>, k: nat, l: nat): nat -> nat
    requires |lsb| == |msb| == Pow2(k)
  {
    (p: nat) => if 0 < p <= |lsb| then LoadedCount(lsb, msb, k, p - 1, l) else 0
  }

  lemma CountsAreFor(m: seq<bool>, k: nat, lsb: seq<bool>, msb: seq<bool>, l: nat)
    requires Saved(m, k, lsb, msb) && l < k
    ensures WholeSegments(|m|, Pow2(l)) && CountsFor(m, Pow2(l), Counts(lsb, msb, k, l))
  {
    SegmentsFit(k, l);
    forall p: nat | p <= |m| && p % (2 * Pow2(l)) == Pow2(l)
      ensures Counts(lsb, msb, k, l)(p) == Ones(m, p) % (2 * Pow2(l))
    {
      CountAt(m, k, lsb, msb, l, p);
    }
  }

  lemma SegmentsFit(k: nat, l: nat)
    requires l < k
    ensures WholeSegments(Pow2(k), Pow2(l))
  {
    Pow2Product(l + 1, k - l - 1);
    DivModUnique(Pow2(k), Pow2(l + 1), Pow2(k - l - 1), 0);
  }

  lemma CountAt(m: seq<bool>, k: nat, lsb: seq<bool>, msb: seq<bool>, l: nat, p: nat)
    requires Saved(m, k, lsb, msb) && l < k && p <= |m| && p % (2 * Pow2(l)) == Pow2(l)
    ensures Counts(lsb, msb, k, l)(p) == Ones(m, p) % (2 * Pow2(l))
  {
    ModHalf(Pow2(l), p);
    assert LoadedCount(lsb, msb, k, p - 1, l) == Ones(m, p - 1 + 1) % (2 * Pow2(l));
  }

  lemma RoutedBy(x: seq<bool>, a: seq<bool>, m: seq<bool>, k: nat, lsb: seq<bool>, msb: seq<bool>, l: nat)
    requires |x| == |a| == |m| && Saved(m, k, lsb, msb) && l < k && Routed(x, a, m, Pow2(l + 1))
    ensures Routed(Stage(x, Pow2(l), Counts(lsb, msb, k, l)), a, m, Pow2(l))
  {
    CountsAreFor(m, k, lsb, msb, l);
    RoutedStep(x, a, m, Pow2(l), Counts(lsb, msb, k, l));
  }

  lemma PackedBy(y: seq<bool>, a: seq<bool>, m: seq<bool>, k: nat, lsb: seq<bool>, msb: seq<bool>, l: nat)
    requires |y| == |a| == |m| && Saved(m, k, lsb, msb) && l < k && Packed(y, a, m, Pow2(l))
    ensures Packed(Stage(y, Pow2(l), Counts(lsb, msb, k, l)), a, m, Pow2(l + 1))
  {
    CountsAreFor(m, k, lsb, msb, l);
    PackedStep(y, a, m, Pow2(l), Counts(lsb, msb, k, l));
  }

  /** Second cycle of `bdecompress`. */
  method Decompress(a: seq<bool>, m: seq<bool>, k: nat, lsb: seq<bool>, msb: seq<bool>) returns (r: seq<bool>)
    requires |a| == |m| && Saved(m, k, lsb, msb)
    ensures r == Deposit(a, m)
  {
    r := a;
    RoutedEnds(a, a, m);
    for l := k downto 0
      invariant |r| == |a| && Routed(r, a, m, Pow2(l))
    {
      RoutedBy(r, a, m, k, lsb, msb, l);
      r := Stage(r, Pow2(l), Counts(lsb, msb, k, l));
    }
    RoutedEnds(r, a, m);
    r := And(r, m);
  }

  /** Second cycle of `bcompress`: the same stages in the opposite order. */
  method Compress(a: seq<bool>, m: seq<bool>, k: nat, lsb: seq<bool>, msb: seq<bool>) returns (r: seq<bool>)
    requires |a| == |m| && Saved(m, k, lsb, msb)
    ensures r == Extract(a, m)
  {
    r := And(a, m);
    PackedEnds(r, a, m);
    for l := 0 to k
      invariant |r| == |a| && Packed(r, a, m, Pow2(l))
    {
      PackedBy(r, a, m, k, lsb, msb, l);
      r := Stage(r, Pow2(l), Counts(lsb, msb, k, l));
    }
    PackedEnds(r, a, m);
  }

  /** The 32-bit ALU: both instructions agree with the bit-by-bit definitions. */
  method Zbe32(a: seq<bool>, m: seq<bool>) returns (deposited: seq<bool>, extracted: seq<bool>)
    requires |a| == |m| == 32
    ensures deposited == Deposit(a, m) && extracted == Extract(a, m)
  {
    assert Pow2(1) == 2 && Pow2(2) == 4 && Pow2(3) == 8 && Pow2(4) == 16 && Pow2(5) == 32;
    var lsb, msb := FirstCycle(m, 5);
    deposited := Decompress(a, m, 5, lsb, msb);
    extracted := Compress(a, m, 5, lsb, msb);
  }
}
