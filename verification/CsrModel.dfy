/** The reference model of the control and status registers: what each access does, over the values of all
    registers of the map. */
module CsrModel {
  import opened Words

  const W := 32

  type Word = w: seq<bool> | |w| == 32 witness seq(32, _ => false)

  datatype Kind = Plain | MSeccfg | PmpCfg | PmpAddr | NonImp | Warl(mask: Word, reset: Word)

  datatype Decl = Decl(kind: Kind, addr: nat)

  datatype Op = Read | Write | Set | Clear

  const MSECCFG := 0x747
  const MSECCFGH := 0x757
  const PMPCFG0 := 0x3A0
  const PMPADDR0 := 0x3B0

  /** Bits of mseccfg. */
  const MML := 0
  const MMWP := 1
  const RLB := 2

  /** Bits of a region's configuration byte: read, write, address matching, lock. */
  const R_BIT := 0
  const W_BIT := 1
  const A_LOW := 3
  const A_HIGH := 4
  const L_BIT := 7

  function Zero(): Word {
    Zeros(W)
  }

  /** What software reads. */
  function ReadValue(d: Decl, value: Word): Word {
    if d.kind.NonImp? then Zero() else value
  }

  /** The value of the last register at `addr`; zero if there is none. */
  function ReadAt(map_: seq<Decl>, values: seq<Word>, addr: nat, n: nat): Word
    requires n <= |map_| == |values|
  {
    if n == 0 then Zero()
    else if map_[n - 1].addr == addr then ReadValue(map_[n - 1], values[n - 1])
    else ReadAt(map_, values, addr, n - 1)
  }

  /** The position of the first register at `addr`, from `n` on. */
  function FirstAt(map_: seq<Decl>, addr: nat, n: nat): (k: nat)
    requires n <= |map_|
    ensures k <= |map_| && (k < |map_| ==> map_[k].addr == addr)
    decreases |map_| - n
  {
    if n == |map_| || map_[n].addr == addr then n else FirstAt(map_, addr, n + 1)
  }

  /** Bit `b` of mseccfg as the other registers see it. */
  predicate Seccfg(map_: seq<Decl>, values: seq<Word>, b: nat)
    requires |map_| == |values| && b < W
  {
    var k := FirstAt(map_, MSECCFG, 0);
    k < |map_| && ReadValue(map_[k], values[k])[b]
  }

  predicate AnyLockBit(x: Word) {
    x[7] || x[15] || x[23] || x[31]
  }

  predicate AnyLocked(map_: seq<Decl>, values: seq<Word>)
    requires |map_| == |values|
  {
    exists i :: 0 <= i < |map_| && map_[i].addr / 4 == PMPCFG0 / 4 && AnyLockBit(ReadValue(map_[i], values[i]))
  }

  function SeccfgMask(value: Word, anyLocked: bool): Word {
    seq(W, b => b > 2 || (b == RLB && anyLocked && !value[RLB]) || (b == MMWP && value[MMWP]) || (b == MML && value[MML]))
  }

  /** Every byte whose lock bit is set. */
  function CfgMask(value: Word): Word {
    seq(W, b requires 0 <= b < W => value[8 * (b / 8) + L_BIT])
  }

  function Full(locked: bool): Word {
    seq(W, _ => locked)
  }

  /** The address of region `r` is locked by its own lock bit or because the next region starts there. */
  predicate AddrLocked(map_: seq<Decl>, values: seq<Word>, r: nat)
    requires |map_| == |values|
  {
    var own := ReadAt(map_, values, PMPCFG0 + r / 4, |map_|);
    var next := ReadAt(map_, values, PMPCFG0 + (r + 1) / 4, |map_|);
    var at := 8 * ((r + 1) % 4);
    own[8 * (r % 4) + L_BIT] || (next[at + A_LOW] && !next[at + A_HIGH])
  }

  /** The bits a write cannot change. */
  function LockMask(map_: seq<Decl>, values: seq<Word>, i: nat): Word
    requires |map_| == |values| && i < |map_|
  {
    match map_[i].kind
    case Plain => Zero()
    case NonImp => Zero()
    case Warl(mask, _) => mask
    case MSeccfg => SeccfgMask(values[i], AnyLocked(map_, values))
    case PmpCfg => if Seccfg(map_, values, RLB) then Zero() else CfgMask(values[i])
    case PmpAddr => Full(AddrLocked(map_, values, map_[i].addr % 16))
  }

  function Masked(value: Word, lock: Word, op: Op, wdata: Word): Word {
    match op
    case Read => value
    case Write => Or(And(value, lock), And(wdata, Not(lock)))
    case Set => Or(value, And(wdata, Not(lock)))
    case Clear => And(value, Or(Not(wdata), lock))
  }

  /** Bits 5 and 6 of every byte read as zero. Until MML is set, write permission without read permission
      is reserved and becomes none. */
  function Reserved(value: Word, mml: bool): Word {
    seq(W, b requires 0 <= b < W =>
      var byte := 8 * (b / 8);
      value[b] && b - byte != 5 && b - byte != 6
      && (mml || b - byte > 1 || value[byte + R_BIT] || !value[byte + W_BIT]))
  }

  /** The value register `i` has after an access. */
  function Accessed(map_: seq<Decl>, values: seq<Word>, i: nat, op: Op, wdata: Word): Word
    requires |map_| == |values| && i < |map_|
  {
    if map_[i].kind.NonImp? || op.Read? then values[i]
    else
      var masked := Masked(values[i], LockMask(map_, values, i), op, wdata);
      if map_[i].kind.PmpCfg? then Reserved(masked, Seccfg(map_, values, MML)) else masked
  }

  datatype Access = Access(op: Op, addr: nat, wdata: Word)

  /** The registers take the access in turn; those at other addresses ignore it. */
  function AfterAccess(map_: seq<Decl>, values: seq<Word>, a: Access, n: nat): (r: seq<Word>)
    requires n <= |map_| == |values|
    ensures |r| == |map_|
  {
    if n == 0 then values
    else
      var before := AfterAccess(map_, values, a, n - 1);
      if map_[n - 1].addr != a.addr then before
      else before[n - 1 := Accessed(map_, before, n - 1, a.op, a.wdata)]
  }

  function Run(map_: seq<Decl>, values: seq<Word>, accesses: seq<Access>): (r: seq<Word>)
    requires |map_| == |values|
    ensures |r| == |map_|
    decreases |accesses|
  {
    if accesses == [] then values
    else
      var last := |accesses| - 1;
      AfterAccess(map_, Run(map_, values, accesses[..last]), accesses[last], |map_|)
  }

  function ResetValue(d: Decl): Word {
    match d.kind
    case Warl(_, reset) => reset
    case _ => Zero()
  }

  function ResetValues(map_: seq<Decl>): (r: seq<Word>)
    ensures |r| == |map_|
  {
    seq(|map_|, i requires 0 <= i < |map_| => ResetValue(map_[i]))
  }

  // ---------------------------------------------------------------------------------------------
  // The register map

  datatype Params = Params(pmpEnable: bool, pmpRegions: nat, counters: nat, counterWidth: nat)

  function CfgDecl(p: Params, i: nat): Decl {
    Decl(if p.pmpEnable && i < p.pmpRegions / 4 then PmpCfg else NonImp, PMPCFG0 + i)
  }

  function AddrDecl(p: Params, i: nat): Decl {
    Decl(if p.pmpEnable && i < p.pmpRegions then PmpAddr else NonImp, PMPADDR0 + i)
  }

  /** The first 22 registers: mseccfg, its high half, four configuration and sixteen address registers.
      Registers of regions that do not exist are not implemented. */
  predicate PmpMap(map_: seq<Decl>, p: Params) {
    && |map_| >= 22
    && map_[0] == Decl(MSeccfg, MSECCFG) && map_[1] == Decl(NonImp, MSECCFGH)
    && (forall i: nat :: i < 4 ==> map_[2 + i] == CfgDecl(p, i))
    && (forall i: nat :: i < 16 ==> map_[6 + i] == AddrDecl(p, i))
  }

  /** The other registers are counters: they are plain or fixed-mask registers elsewhere in the address
      space. */
  predicate Counter(d: Decl) {
    (d.kind.Plain? || d.kind.NonImp? || d.kind.Warl?)
    && (0x320 <= d.addr < 0x340 || 0xB00 <= d.addr < 0xB20 || 0xB80 <= d.addr < 0xBA0)
  }

  ghost predicate WellMapped(map_: seq<Decl>, p: Params) {
    PmpMap(map_, p) && forall i: nat :: 22 <= i < |map_| ==> Counter(map_[i])
  }

  /** Bits from `n` on. */
  function From(n: nat): Word {
    seq(W, b => b >= n)
  }

  /** Bit `n` alone. */
  function Only(n: nat): Word {
    seq(W, b => b == n)
  }

  /** Bit 1, time, and the bits of counters that do not exist. */
  function InhibitMask(counters: nat): Word {
    seq(W, b => b == 1 || b >= counters + 3)
  }

  function CounterDecl(p: Params, base: nat, i: nat): Decl
    requires 3 <= i
  {
    Decl(if i < p.counters + 3 then CounterKind(p, base, i) else NonImp, base + i)
  }

  predicate CounterBlock(map_: seq<Decl>, p: Params, at: nat, base: nat) {
    at + 29 <= |map_| && forall i: nat :: 3 <= i < 32 ==> map_[at + i - 3] == CounterDecl(p, base, i)
  }

  /** The registers after the first 22: the inhibit register with the event selectors, then the low and the
      high halves of the counters, the cycle and the instruction counter first. */
  predicate CounterMap(map_: seq<Decl>, p: Params) {
    && |map_| == 114
    && map_[22] == Decl(Warl(InhibitMask(p.counters), Zero()), 0x320) && CounterBlock(map_, p, 23, 0x320)
    && map_[52] == Decl(Plain, 0xB00) && map_[53] == Decl(Plain, 0xB02) && CounterBlock(map_, p, 54, 0xB00)
    && map_[83] == Decl(Plain, 0xB80) && map_[84] == Decl(Plain, 0xB82) && CounterBlock(map_, p, 85, 0xB80)
  }

  /** The address of register `i`. */
  function Address(i: nat): nat {
    if i == 0 then MSECCFG else if i == 1 then MSECCFGH
    else if i < 6 then PMPCFG0 + i - 2 else if i < 22 then PMPADDR0 + i - 6
    else if i == 22 then 0x320 else if i < 52 then 0x320 + i - 20
    else if i == 52 then 0xB00 else if i < 83 then 0xB00 + i - 51
    else if i == 83 then 0xB80 else 0xB80 + i - 82
  }

  lemma BlockAddress(map_: seq<Decl>, p: Params, at: nat, base: nat, i: nat)
    requires CounterBlock(map_, p, at, base) && at <= i < at + 29
    ensures map_[i].addr == base + (i - at + 3)
  {
    assert map_[at + (i - at + 3) - 3] == CounterDecl(p, base, i - at + 3);
  }

  lemma AddressIs(map_: seq<Decl>, p: Params, i: nat)
    requires WellMapped(map_, p) && CounterMap(map_, p) && i < |map_|
    ensures map_[i].addr == Address(i)
  {
    if 2 <= i < 6 {
      assert map_[2 + (i - 2)] == CfgDecl(p, i - 2);
    } else if 6 <= i < 22 {
      assert map_[6 + (i - 6)] == AddrDecl(p, i - 6);
    } else if 23 <= i < 52 {
      BlockAddress(map_, p, 23, 0x320, i);
    } else if 54 <= i < 83 {
      BlockAddress(map_, p, 54, 0xB00, i);
    } else if 85 <= i {
      BlockAddress(map_, p, 85, 0xB80, i);
    }
  }

  /** No two registers share an address, so an access reaches at most one of them. */
  lemma AddressesDiffer(map_: seq<Decl>, p: Params, i: nat, j: nat)
    requires WellMapped(map_, p) && CounterMap(map_, p) && i < j < |map_|
    ensures map_[i].addr != map_[j].addr
  {
    AddressIs(map_, p, i);
    AddressIs(map_, p, j);
  }

  /** The constructor of the model. */
  method BuildMap(p: Params) returns (map_: seq<Decl>)
    ensures WellMapped(map_, p) && CounterMap(map_, p)
  {
    map_ := [Decl(MSeccfg, MSECCFG), Decl(NonImp, MSECCFGH)];
    for i := 0 to 4
      invariant |map_| == 2 + i && map_[0] == Decl(MSeccfg, MSECCFG) && map_[1] == Decl(NonImp, MSECCFGH)
      invariant forall j: nat :: j < i ==> map_[2 + j] == CfgDecl(p, j)
    {
      if p.pmpEnable && i < p.pmpRegions / 4 {
        map_ := map_ + [Decl(PmpCfg, PMPCFG0 + i)];
      } else {
        map_ := map_ + [Decl(NonImp, PMPCFG0 + i)];
      }
    }
    for i := 0 to 16
      invariant |map_| == 6 + i && map_[0] == Decl(MSeccfg, MSECCFG) && map_[1] == Decl(NonImp, MSECCFGH)
      invariant forall j: nat :: j < 4 ==> map_[2 + j] == CfgDecl(p, j)
      invariant forall j: nat :: j < i ==> map_[6 + j] == AddrDecl(p, j)
    {
      if p.pmpEnable && i < p.pmpRegions {
        map_ := map_ + [Decl(PmpAddr, PMPADDR0 + i)];
      } else {
        map_ := map_ + [Decl(NonImp, PMPADDR0 + i)];
      }
    }
    map_ := map_ + [Decl(Warl(InhibitMask(p.counters), Zero()), 0x320)];
    map_ := AddCounters(map_, p, 0x320);
    map_ := map_ + [Decl(Plain, 0xB00), Decl(Plain, 0xB02)];
    map_ := AddCounters(map_, p, 0xB00);
    map_ := map_ + [Decl(Plain, 0xB80), Decl(Plain, 0xB82)];
    map_ := AddCounters(map_, p, 0xB80);
  }

  /** The 29 event or counter registers from `base + 3` on. */
  method AddCounters(before: seq<Decl>, p: Params, base: nat) returns (map_: seq<Decl>)
    requires base in {0x320, 0xB00, 0xB80}
    ensures before <= map_ && |map_| == |before| + 29
    ensures forall i: nat :: |before| <= i < |map_| ==> Counter(map_[i])
    ensures CounterBlock(map_, p, |before|, base)
  {
    map_ := before;
    for i := 3 to 32
      invariant before <= map_ && |map_| == |before| + i - 3
      invariant forall j: nat :: |before| <= j < |map_| ==> Counter(map_[j])
      invariant forall j: nat :: 3 <= j < i ==> map_[|before| + j - 3] == CounterDecl(p, base, j)
    {
      if i < p.counters + 3 {
        map_ := map_ + [Decl(CounterKind(p, base, i), base + i)];
      } else {
        map_ := map_ + [Decl(NonImp, base + i)];
      }
    }
  }

  /** Event registers are fixed one-hot; counters are cut off at their width. */
  function CounterKind(p: Params, base: nat, i: nat): Kind
    requires 3 <= i
  {
    if base == 0x320 then Warl(Full(true), Only(i - 3))
    else if base == 0xB00 then Warl(From(p.counterWidth), Zero())
    else Warl(From(if p.counterWidth >= 32 then p.counterWidth - 32 else 0), Zero())
  }
}
