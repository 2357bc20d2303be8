/** The constants of CRC-32 and CRC-32C. The Barrett constant is the quotient of the word one, so its bits
    are those that leave the bit-serial CRC started on one. Machine words are followed for eight steps at
    a time, which the solver computes, and only the results meet the sequences of bits. */
module AluCrcConstants {
  import opened Words
  import opened AluCrc

  const CRC32_POLYNOMIAL: bv32 := 0x04c1_1db7
  const CRC32_MU_REV: bv32 := 0xf701_1641
  const CRC32C_POLYNOMIAL: bv32 := 0x1edc_6f41
  const CRC32C_MU_REV: bv32 := 0xdea7_13f1

  predicate Low(x: bv32) {
    x & 1 == 1
  }

  function Down(x: bv32, i: nat): bv32
    decreases i
  {
    if i == 0 then x else Down(x >> 1, i - 1)
  }

  /** Bit `i` of a machine word. */
  predicate BitOf(x: bv32, i: nat) {
    Low(Down(x, i))
  }

  /** A machine word as a sequence of bits. */
  function Bits(x: bv32): (r: seq<bool>)
    ensures |r| == 32
  {
    seq(32, i requires 0 <= i < 32 => BitOf(x, i))
  }

  lemma {:induction false} DownAdd(x: bv32, m: nat, n: nat)
    ensures Down(x, m + n) == Down(Down(x, m), n)
    decreases m
  {
    if m > 0 {
      DownAdd(x >> 1, m - 1, n);
    }
  }

  lemma DownEight(x: bv32)
    ensures Down(x, 8) == x >> 8
  {
  }

  lemma FourEights(x: bv32)
    ensures (((x >> 8) >> 8) >> 8) >> 8 == 0
  {
  }

  /** Nothing is left of a word after all its bits. */
  lemma DownAll(x: bv32, n: nat)
    requires n == 8
    ensures Down(x, n + n + n + n) == 0
  {
    DownEight(x);
    DownEight(x >> 8);
    DownEight((x >> 8) >> 8);
    DownEight(((x >> 8) >> 8) >> 8);
    FourEights(x);
    DownAdd(x, n, n);
    DownAdd(x, n + n, n);
    DownAdd(x, n + n + n, n);
  }

  // ---------------------------------------------------------------------------------------------
  // One step on machine words

  /** One step of the bit-serial CRC. */
  function StepWord(x: bv32, prev: bv32): bv32 {
    if Low(x) then (x >> 1) ^ prev else x >> 1
  }

  lemma XorShift(x: bv32, y: bv32)
    ensures (x ^ y) >> 1 == (x >> 1) ^ (y >> 1)
  {
  }

  lemma XorLow(x: bv32, y: bv32)
    ensures Low(x ^ y) == Xor1(Low(x), Low(y))
  {
  }

  lemma NextBit(x: bv32, h: bv32, i: nat)
    requires h == x >> 1
    ensures BitOf(x, i + 1) == BitOf(h, i)
  {
  }

  lemma LowIsBit(x: bv32)
    ensures Low(x) == BitOf(x, 0)
  {
  }

  lemma XorHalves(x: bv32, y: bv32, z: bv32) returns (xh: bv32, yh: bv32, zh: bv32)
    requires z == x ^ y
    ensures xh == x >> 1 && yh == y >> 1 && zh == z >> 1 && zh == xh ^ yh
  {
    XorShift(x, y);
    xh, yh, zh := x >> 1, y >> 1, z >> 1;
  }

  lemma {:induction false} BitXor(x: bv32, y: bv32, z: bv32, i: nat)
    requires z == x ^ y
    ensures BitOf(z, i) == Xor1(BitOf(x, i), BitOf(y, i))
    decreases i
  {
    if i == 0 {
      XorLow(x, y);
      LowIsBit(x);
      LowIsBit(y);
      LowIsBit(z);
    } else {
      var xh, yh, zh := XorHalves(x, y, z);
      BitXor(xh, yh, zh, i - 1);
      NextBit(x, xh, i - 1);
      NextBit(y, yh, i - 1);
      NextBit(z, zh, i - 1);
    }
  }

  lemma BitShift(x: bv32, i: nat)
    requires i < 32
    ensures BitOf(x >> 1, i) == (i + 1 < 32 && BitOf(x, i + 1))
  {
    if i + 1 == 32 {
      DownAll(x, 8);
    }
  }

  lemma ShiftXorBit(x: bv32, prev: bv32, i: nat)
    requires i < 32
    ensures BitOf((x >> 1) ^ prev, i) == Xor1(i + 1 < 32 && BitOf(x, i + 1), BitOf(prev, i))
  {
    BitXor(x >> 1, prev, (x >> 1) ^ prev, i);
    BitShift(x, i);
  }

  lemma StepBitOf(x: bv32, prev: bv32, i: nat)
    requires i < 32
    ensures BitOf(StepWord(x, prev), i)
         == Xor1(i + 1 < 32 && BitOf(x, i + 1), BitOf(x, 0) && BitOf(prev, i))
  {
    LowIsBit(x);
    if Low(x) {
      ShiftXorBit(x, prev, i);
    } else {
      BitShift(x, i);
    }
  }

  lemma StepWordBits(x: bv32, prev: bv32)
    ensures Bits(StepWord(x, prev)) == Step(Bits(x), Bits(prev))
  {
    forall i | 0 <= i < 32
      ensures Bits(StepWord(x, prev))[i] == Step(Bits(x), Bits(prev))[i]
    {
      StepBitOf(x, prev, i);
      StepBit(Bits(x), Bits(prev), i);
    }
  }

  // ---------------------------------------------------------------------------------------------
  // Runs on machine words

  /** From word `x` the next `n` bits to leave are the low bits of `mu`; then the word is `y`, and `rest`
      is left of `mu`. */
  predicate Leaves(x: bv32, prev: bv32, mu: bv32, n: nat, y: bv32, rest: bv32)
    decreases n
  {
    if n == 0 then x == y && mu == rest
    else Low(x) == Low(mu) && Leaves(StepWord(x, prev), prev, mu >> 1, n - 1, y, rest)
  }

  lemma SerialNext(x: bv32, prev: bv32, next: bv32, n: nat)
    requires next == StepWord(x, prev)
    ensures Serial(Bits(x), Bits(prev), n + 1) == Serial(Bits(next), Bits(prev), n)
  {
    StepWordBits(x, prev);
    SerialFirst(Bits(x), Bits(prev), n);
  }

  lemma NextLeaves(x: bv32, prev: bv32, mu: bv32, n: nat, y: bv32, rest: bv32) returns (next: bv32, half: bv32)
    requires n > 0 && Leaves(x, prev, mu, n, y, rest)
    ensures next == StepWord(x, prev) && half == mu >> 1
    ensures Low(x) == Low(mu) && Leaves(next, prev, half, n - 1, y, rest)
  {
    next, half := StepWord(x, prev), mu >> 1;
  }

  /** Running on machine words or on sequences of bits is the same. */
  lemma {:induction false} LeavesBits(x: bv32, prev: bv32, mu: bv32, n: nat, y: bv32, rest: bv32, d: nat)
    requires Leaves(x, prev, mu, n, y, rest) && d < n
    ensures Quotient(Bits(x), Bits(prev), d) == BitOf(mu, d)
    decreases n
  {
    var next, half := NextLeaves(x, prev, mu, n, y, rest);
    if d > 0 {
      LeavesBits(next, prev, half, n - 1, y, rest, d - 1);
      SerialNext(x, prev, next, d - 1);
      NextBit(mu, half, d - 1);
    } else {
      LowIsBit(x);
      LowIsBit(mu);
    }
  }

  lemma SerialFirst(x: seq<bool>, prev: seq<bool>, n: nat)
    requires |x| == |prev|
    ensures Serial(x, prev, n + 1) == Serial(Step(x, prev), prev, n)
  {
    SerialSplit(x, prev, 1, n);
    assert Serial(x, prev, 1) == Step(Serial(x, prev, 0), prev);
  }

  lemma {:induction false} LeavesJoin(x: bv32, prev: bv32, mu: bv32, m: nat, y: bv32, rest: bv32, n: nat, z: bv32, end: bv32)
    requires Leaves(x, prev, mu, m, y, rest) && Leaves(y, prev, rest, n, z, end)
    ensures Leaves(x, prev, mu, m + n, z, end)
    decreases m
  {
    if m > 0 {
      LeavesJoin(StepWord(x, prev), prev, mu >> 1, m - 1, y, rest, n, z, end);
    }
  }

  /** The low `n` bits of `x` are those of `y`, read backwards. */
  predicate Mirrors(x: bv32, y: bv32, n: nat)
    decreases n
  {
    n == 0 || (Low(x) == BitOf(y, n - 1) && Mirrors(x >> 1, y, n - 1))
  }

  lemma {:induction false} MirrorBit(x: bv32, y: bv32, n: nat, i: nat)
    requires Mirrors(x, y, n) && i < n
    ensures BitOf(x, i) == BitOf(y, n - 1 - i)
    decreases n
  {
    if i > 0 {
      MirrorBit(x >> 1, y, n - 1, i - 1);
    }
  }

  lemma {:induction false} MirrorsJoin(x: bv32, xh: bv32, m: nat, y: bv32, yh: bv32, n: nat)
    requires Down(x, m) == xh && Down(y, n) == yh && Mirrors(x, yh, m) && Mirrors(xh, y, n)
    ensures Mirrors(x, y, m + n)
    decreases m
  {
    if m > 0 {
      DownAdd(y, n, m - 1);
      MirrorsJoin(x >> 1, xh, m - 1, y, yh, n);
    }
  }

  lemma MirrorsReverse(x: bv32, y: bv32)
    requires Mirrors(x, y, 32)
    ensures Bits(x) == Reverse(Bits(y))
  {
    forall i | 0 <= i < 32
      ensures BitOf(x, i) == BitOf(y, 31 - i)
    {
      MirrorBit(x, y, 32, i);
    }
  }

  // ---------------------------------------------------------------------------------------------
  // From the quotient of one to the Barrett constant

  lemma BarrettFromSerial(mu: seq<bool>, prev: seq<bool>, one: seq<bool>)
    requires |mu| == |prev| == |one| && forall i :: 0 <= i < |one| ==> one[i] == (i == 0)
    requires forall d :: 0 <= d < |mu| ==> mu[d] == Quotient(one, prev, d)
    ensures IsBarrett(mu, prev)
  {
    forall d | 0 <= d < |mu|
      ensures mu[d] == Xor1(d == 0, MuSum(mu, prev, d))
    {
      SerialBit(one, prev, d, 0);
      var f := (j: nat) => Quotient(one, prev, j) && At(prev, 0 + d - 1 - j);
      var g := (i: nat) => At(mu, i) && At(prev, d - 1 - i);
      XorSumEqual(f, g, d);
    }
  }

  lemma {:induction false} ZeroBit(i: nat)
    ensures !BitOf(0, i)
  {
    if i > 0 {
      ZeroBit(i - 1);
    }
  }

  lemma OneBit(i: nat)
    ensures BitOf(1, i) == (i == 0)
  {
    if i > 0 {
      ZeroBit(i - 1);
    }
  }

  lemma LeavesBarrett(prev: bv32, mu: bv32, y: bv32)
    requires Leaves(1, prev, mu, 32, y, 0)
    ensures IsBarrett(Bits(mu), Bits(prev))
  {
    forall i | 0 <= i < 32
      ensures Bits(1)[i] == (i == 0)
    {
      OneBit(i);
    }
    forall d | 0 <= d < 32
      ensures Bits(mu)[d] == Quotient(Bits(1), Bits(prev), d)
    {
      LeavesBits(1, prev, mu, 32, y, 0, d);
    }
    BarrettFromSerial(Bits(mu), Bits(prev), Bits(1));
  }

  // ---------------------------------------------------------------------------------------------
  // The two constants

  lemma FourLeave(x: bv32, x1: bv32, x2: bv32, x3: bv32, x4: bv32, prev: bv32, mu: bv32, m1: bv32, m2: bv32, m3: bv32,
                  n: nat)
    requires Leaves(x, prev, mu, n, x1, m1) && Leaves(x1, prev, m1, n, x2, m2)
    requires Leaves(x2, prev, m2, n, x3, m3) && Leaves(x3, prev, m3, n, x4, 0)
    ensures Leaves(x, prev, mu, n + n + n + n, x4, 0)
  {
    LeavesJoin(x, prev, mu, n, x1, m1, n, x2, m2);
    LeavesJoin(x, prev, mu, n + n, x2, m2, n, x3, m3);
    LeavesJoin(x, prev, mu, n + n + n, x3, m3, n, x4, 0);
  }

  lemma FourMirror(x: bv32, x1: bv32, x2: bv32, x3: bv32, y: bv32, y1: bv32, y2: bv32, y3: bv32, n: nat)
    requires Down(x, n) == x1 && Down(x1, n) == x2 && Down(x2, n) == x3
    requires Down(y, n) == y1 && Down(y1, n) == y2 && Down(y2, n) == y3
    requires Mirrors(x, y3, n) && Mirrors(x1, y2, n) && Mirrors(x2, y1, n) && Mirrors(x3, y, n)
    ensures Mirrors(x, y, n + (n + (n + n)))
  {
    MirrorsJoin(x2, x3, n, y, y1, n);
    DownAdd(y, n, n);
    MirrorsJoin(x1, x2, n, y, y2, n + n);
    DownAdd(y, n + n, n);
    assert Down(y, n + (n + n)) == y3;
    MirrorsJoin(x, x1, n, y, y3, n + (n + n));
  }

  lemma Crc32Leaves()
    ensures Leaves(0x1, 0xedb8_8320, 0xf701_1641, 8, 0x7707_3096, 0x00f7_0116)
    ensures Leaves(0x7707_3096, 0xedb8_8320, 0x00f7_0116, 8, 0x191b_3141, 0xf701)
    ensures Leaves(0x191b_3141, 0xedb8_8320, 0xf701, 8, 0x01c2_6a37, 0xf7)
    ensures Leaves(0x01c2_6a37, 0xedb8_8320, 0xf7, 8, 0xb8bc_6765, 0x0)
  {
  }

  lemma Crc32Downs()
    ensures Down(0xedb8_8320, 8) == 0x00ed_b883 && Down(0x00ed_b883, 8) == 0xedb8 && Down(0xedb8, 8) == 0xed
    ensures Down(0x04c1_1db7, 8) == 0x0004_c11d && Down(0x0004_c11d, 8) == 0x4c1 && Down(0x4c1, 8) == 0x4
  {
    DownEight(0xedb8_8320);
    DownEight(0x00ed_b883);
    DownEight(0xedb8);
    DownEight(0x04c1_1db7);
    DownEight(0x0004_c11d);
    DownEight(0x4c1);
  }

  lemma Crc32MirrorsLow()
    ensures Mirrors(0xedb8_8320, 0x4, 8) && Mirrors(0x00ed_b883, 0x4c1, 8)
  {
  }

  lemma Crc32MirrorsHigh()
    ensures Mirrors(0xedb8, 0x0004_c11d, 8) && Mirrors(0xed, 0x04c1_1db7, 8)
  {
  }

  lemma Crc32Quotient()
    ensures IsBarrett(Bits(CRC32_MU_REV), Bits(0xedb8_8320))
  {
    Crc32Leaves();
    FourLeave(0x1, 0x7707_3096, 0x191b_3141, 0x01c2_6a37, 0xb8bc_6765, 0xedb8_8320, 0xf701_1641, 0x00f7_0116, 0xf701, 0xf7, 8);
    LeavesBarrett(0xedb8_8320, CRC32_MU_REV, 0xb8bc_6765);
  }

  lemma Crc32Reversed()
    ensures Bits(0xedb8_8320) == Reverse(Bits(CRC32_POLYNOMIAL))
  {
    Crc32Downs();
    Crc32MirrorsLow();
    Crc32MirrorsHigh();
    FourMirror(0xedb8_8320, 0x00ed_b883, 0xedb8, 0xed, 0x04c1_1db7, 0x0004_c11d, 0x4c1, 0x4, 8);
    MirrorsReverse(0xedb8_8320, CRC32_POLYNOMIAL);
  }

  lemma Crc32Constants()
    ensures IsBarrett(Bits(CRC32_MU_REV), Reverse(Bits(CRC32_POLYNOMIAL)))
  {
    Crc32Quotient();
    Crc32Reversed();
  }

  lemma Crc32cLeaves()
    ensures Leaves(0x1, 0x82f6_3b78, 0xdea7_13f1, 8, 0xf26b_8303, 0x00de_a713)
    ensures Leaves(0xf26b_8303, 0x82f6_3b78, 0x00de_a713, 8, 0x13a2_9877, 0xdea7)
    ensures Leaves(0x13a2_9877, 0x82f6_3b78, 0xdea7, 8, 0xa541_927e, 0xde)
    ensures Leaves(0xa541_927e, 0x82f6_3b78, 0xde, 8, 0xdd45_aab8, 0x0)
  {
  }

  lemma Crc32cDowns()
    ensures Down(0x82f6_3b78, 8) == 0x0082_f63b && Down(0x0082_f63b, 8) == 0x82f6 && Down(0x82f6, 8) == 0x82
    ensures Down(0x1edc_6f41, 8) == 0x001e_dc6f && Down(0x001e_dc6f, 8) == 0x1edc && Down(0x1edc, 8) == 0x1e
  {
    DownEight(0x82f6_3b78);
    DownEight(0x0082_f63b);
    DownEight(0x82f6);
    DownEight(0x1edc_6f41);
    DownEight(0x001e_dc6f);
    DownEight(0x1edc);
  }

  lemma Crc32cMirrorsLow()
    ensures Mirrors(0x82f6_3b78, 0x1e, 8) && Mirrors(0x0082_f63b, 0x1edc, 8)
  {
  }

  lemma Crc32cMirrorsHigh()
    ensures Mirrors(0x82f6, 0x001e_dc6f, 8) && Mirrors(0x82, 0x1edc_6f41, 8)
  {
  }

  lemma Crc32cQuotient()
    ensures IsBarrett(Bits(CRC32C_MU_REV), Bits(0x82f6_3b78))
  {
    Crc32cLeaves();
    FourLeave(0x1, 0xf26b_8303, 0x13a2_9877, 0xa541_927e, 0xdd45_aab8, 0x82f6_3b78, 0xdea7_13f1, 0x00de_a713, 0xdea7, 0xde, 8);
    LeavesBarrett(0x82f6_3b78, CRC32C_MU_REV, 0xdd45_aab8);
  }

  lemma Crc32cReversed()
    ensures Bits(0x82f6_3b78) == Reverse(Bits(CRC32C_POLYNOMIAL))
  {
    Crc32cDowns();
    Crc32cMirrorsLow();
    Crc32cMirrorsHigh();
    FourMirror(0x82f6_3b78, 0x0082_f63b, 0x82f6, 0x82, 0x1edc_6f41, 0x001e_dc6f, 0x1edc, 0x1e, 8);
    MirrorsReverse(0x82f6_3b78, CRC32C_POLYNOMIAL);
  }

  lemma Crc32cConstants()
    ensures IsBarrett(Bits(CRC32C_MU_REV), Reverse(Bits(CRC32C_POLYNOMIAL)))
  {
    Crc32cQuotient();
    Crc32cReversed();
  }

  // ---------------------------------------------------------------------------------------------
  // The instructions

  datatype CrcOp = Crc32(bits: nat) | Crc32c(bits: nat)

  function Polynomial(op: CrcOp): bv32 {
    if op.Crc32? then CRC32_POLYNOMIAL else CRC32C_POLYNOMIAL
  }

  function MuRev(op: CrcOp): bv32 {
    if op.Crc32? then CRC32_MU_REV else CRC32C_MU_REV
  }

  lemma WidthIsPower()
    ensures Pow2(5) == 32
  {
    assert Pow2(3) == 8;
  }

  /** The two-cycle result of the six instructions. */
  function CrcInstruction(op: CrcOp, x: seq<bool>): (r: seq<bool>)
    requires |x| == 32 && op.bits in {8, 16, 32}
  {
    WidthIsPower();
    CrcResult(x, Bits(Polynomial(op)), Bits(MuRev(op)), 5, op.bits)
  }

  /** Every CRC instruction equals the bit-serial CRC of the Bitmanip draft, with as many steps as the
      operand has bits and the reversed polynomial of the draft: 0xedb88320 for CRC-32 ... */
  lemma Crc32Correct(n: nat, x: seq<bool>)
    requires |x| == 32 && n in {8, 16, 32}
    ensures CrcInstruction(Crc32(n), x) == Serial(x, Bits(0xedb8_8320), n)
  {
    WidthIsPower();
    Crc32Constants();
    Crc32Reversed();
    CrcCorrect(x, Bits(CRC32_POLYNOMIAL), Bits(CRC32_MU_REV), 5, n);
  }

  /** ... and 0x82f63b78 for CRC-32C. */
  lemma Crc32cCorrect(n: nat, x: seq<bool>)
    requires |x| == 32 && n in {8, 16, 32}
    ensures CrcInstruction(Crc32c(n), x) == Serial(x, Bits(0x82f6_3b78), n)
  {
    WidthIsPower();
    Crc32cConstants();
    Crc32cReversed();
    CrcCorrect(x, Bits(CRC32C_POLYNOMIAL), Bits(CRC32C_MU_REV), 5, n);
  }

  lemma CrcInstructionCorrect(op: CrcOp, x: seq<bool>)
    requires |x| == 32 && op.bits in {8, 16, 32}
    ensures op.Crc32? ==> CrcInstruction(op, x) == Serial(x, Bits(0xedb8_8320), op.bits)
    ensures op.Crc32c? ==> CrcInstruction(op, x) == Serial(x, Bits(0x82f6_3b78), op.bits)
  {
    if op.Crc32? {
      Crc32Correct(op.bits, x);
    } else {
      Crc32cCorrect(op.bits, x);
    }
  }
}
