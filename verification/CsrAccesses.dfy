/** What an access does to every bit of every register, kind by kind. */
module CsrAccesses {
  import opened Words
  import opened CsrModel
  import opened PmpLocks
  import opened CsrRegisters

  /** The map of the constructor. */
  ghost predicate Mapped(map_: seq<Decl>, p: Params) {
    WellMapped(map_, p) && CounterMap(map_, p)
  }

  lemma {:induction false} AccessPrefix(map_: seq<Decl>, p: Params, values: seq<Word>, a: Access, i: nat, n: nat)
    requires Mapped(map_, p) && n <= |map_| == |values| && i < |map_| && map_[i].addr == a.addr
    ensures AfterAccess(map_, values, a, n)
         == if i < n then values[i := Accessed(map_, values, i, a.op, a.wdata)] else values
  {
    if n > 0 {
      AccessPrefix(map_, p, values, a, i, n - 1);
      if n - 1 < i {
        AddressesDiffer(map_, p, n - 1, i);
      } else if i < n - 1 {
        AddressesDiffer(map_, p, i, n - 1);
      }
    }
  }

  /** An access changes the register at its address only, and looks at the others as they were before. */
  lemma AccessReaches(map_: seq<Decl>, p: Params, values: seq<Word>, a: Access, i: nat)
    requires Mapped(map_, p) && |map_| == |values| && i < |map_| && map_[i].addr == a.addr
    ensures AfterAccess(map_, values, a, |map_|) == values[i := Accessed(map_, values, i, a.op, a.wdata)]
  {
    AccessPrefix(map_, p, values, a, i, |map_|);
  }

  lemma {:induction false} AccessMisses(map_: seq<Decl>, values: seq<Word>, a: Access, n: nat)
    requires n <= |map_| == |values| && forall i :: 0 <= i < n ==> map_[i].addr != a.addr
    ensures AfterAccess(map_, values, a, n) == values
  {
    if n > 0 {
      AccessMisses(map_, values, a, n - 1);
    }
  }

  /** Every other register keeps its value. */
  lemma OthersStay(map_: seq<Decl>, p: Params, values: seq<Word>, a: Access, j: nat)
    requires Mapped(map_, p) && |map_| == |values| && j < |map_| && map_[j].addr != a.addr
    ensures AfterAccess(map_, values, a, |map_|)[j] == values[j]
  {
    if i: nat :| i < |map_| && map_[i].addr == a.addr {
      AccessReaches(map_, p, values, a, i);
    } else {
      AccessMisses(map_, values, a, |map_|);
    }
  }

  /** A read changes nothing. */
  lemma ReadsChangeNothing(map_: seq<Decl>, values: seq<Word>, a: Access, n: nat)
    requires n <= |map_| == |values| && a.op == Read
    ensures AfterAccess(map_, values, a, n) == values
  {
    if n > 0 {
      ReadsChangeNothing(map_, values, a, n - 1);
    }
  }

  /** The new value of a bit that is free to change. */
  predicate Applied(op: Op, before: bool, wdata: bool, after: bool) {
    match op
    case Read => after == before
    case Write => after == wdata
    case Set => after == (before || wdata)
    case Clear => after == (before && !wdata)
  }

  /** Bit `b` under a lock mask. */
  lemma MaskedBit(value: Word, lock: Word, op: Op, wdata: Word, b: nat)
    requires b < W
    ensures if lock[b] then Masked(value, lock, op, wdata)[b] == value[b]
            else Applied(op, value[b], wdata[b], Masked(value, lock, op, wdata)[b])
  {
  }

  /** A plain register: a write stores the operand, a set adds its ones, a clear takes them away. */
  lemma PlainExact(map_: seq<Decl>, p: Params, values: seq<Word>, a: Access, i: nat, b: nat)
    requires Mapped(map_, p) && |map_| == |values| && i < |map_| && map_[i].addr == a.addr && map_[i].kind.Plain? && b < W
    ensures var after := AfterAccess(map_, values, a, |map_|)[i][b];
            && (a.op == Read ==> after == values[i][b])
            && (a.op == Write ==> after == a.wdata[b])
            && (a.op == Set ==> after == (values[i][b] || a.wdata[b]))
            && (a.op == Clear ==> after == (values[i][b] && !a.wdata[b]))
  {
    AccessReaches(map_, p, values, a, i);
    MaskedBit(values[i], Zero(), a.op, a.wdata, b);
  }

  /** A register with a fixed mask: the same outside the mask, and the bits inside stay. */
  lemma WarlExact(map_: seq<Decl>, p: Params, values: seq<Word>, a: Access, i: nat, b: nat)
    requires Mapped(map_, p) && |map_| == |values| && i < |map_| && map_[i].addr == a.addr && map_[i].kind.Warl? && b < W
    ensures var after := AfterAccess(map_, values, a, |map_|)[i][b];
            if map_[i].kind.mask[b] then after == values[i][b] else Applied(a.op, values[i][b], a.wdata[b], after)
  {
    AccessReaches(map_, p, values, a, i);
    MaskedBit(values[i], map_[i].kind.mask, a.op, a.wdata, b);
  }

  /** A register that is not implemented holds nothing and reads zero. */
  lemma NonImpExact(map_: seq<Decl>, p: Params, values: seq<Word>, a: Access, i: nat)
    requires Mapped(map_, p) && |map_| == |values| && i < |map_| && map_[i].addr == a.addr && map_[i].kind.NonImp?
    ensures AfterAccess(map_, values, a, |map_|)[i] == values[i]
    ensures forall b :: 0 <= b < W ==> !ReadValue(map_[i], values[i])[b]
  {
    AccessReaches(map_, p, values, a, i);
  }

  /** Some region has its lock bit set. */
  ghost predicate SomeLockBit(map_: seq<Decl>, values: seq<Word>)
    requires |map_| == |values| >= 22
  {
    exists r: nat :: r < 16 && Cfg(map_, values, r, L_BIT)
  }

  lemma CfgRegister(map_: seq<Decl>, p: Params, i: nat)
    requires Mapped(map_, p) && i < |map_|
    ensures map_[i].addr / 4 == PMPCFG0 / 4 <==> 2 <= i < 6
  {
    AddressIs(map_, p, i);
  }

  lemma AnyLockedMeans(map_: seq<Decl>, p: Params, values: seq<Word>)
    requires Mapped(map_, p) && |map_| == |values|
    ensures AnyLocked(map_, values) <==> SomeLockBit(map_, values)
  {
    if r: nat :| r < 16 && Cfg(map_, values, r, L_BIT) {
      LockSeen(map_, p, values, r);
    }
    if i :| 0 <= i < |map_| && map_[i].addr / 4 == PMPCFG0 / 4 && AnyLockBit(ReadValue(map_[i], values[i])) {
      CfgRegister(map_, p, i);
      var x, base := ReadValue(map_[i], values[i]), 4 * (i - 2);
      var r := if x[7] then base else if x[15] then base + 1 else if x[23] then base + 2 else base + 3;
      assert r / 4 == i - 2;
      assert Cfg(map_, values, r, L_BIT);
    }
  }

  /** mseccfg: the modes stay once set, the bypass stays off while a region has its lock bit set, the bits
      above do not exist, and otherwise the three bits are free. */
  lemma SeccfgExact(map_: seq<Decl>, p: Params, values: seq<Word>, a: Access, b: nat)
    requires Mapped(map_, p) && |map_| == |values| && a.addr == 0x747 && b < W
    ensures var before, after := values[0][b], AfterAccess(map_, values, a, |map_|)[0][b];
            if b > 2 || (b < 2 && before) || (b == 2 && !before && SomeLockBit(map_, values)) then after == before
            else Applied(a.op, before, a.wdata[b], after)
  {
    AccessReaches(map_, p, values, a, 0);
    AnyLockedMeans(map_, p, values);
    MaskedBit(values[0], SeccfgMask(values[0], AnyLocked(map_, values)), a.op, a.wdata, b);
  }

  /** An address register stays as it is when its region has its lock bit set or the next region is in
      top-of-range mode, and takes every bit otherwise. */
  lemma AddrExact(map_: seq<Decl>, p: Params, values: seq<Word>, a: Access, r: nat, b: nat)
    requires Mapped(map_, p) && |map_| == |values| && r < 16 && a.addr == 0x3B0 + r && map_[6 + r].kind.PmpAddr? && b < W
    ensures var before, after := values[6 + r][b], AfterAccess(map_, values, a, |map_|)[6 + r][b];
            if Cfg(map_, values, r, 7) || (r + 1 < 16 && Cfg(map_, values, r + 1, 3) && !Cfg(map_, values, r + 1, 4))
            then after == before else Applied(a.op, before, a.wdata[b], after)
  {
    assert map_[6 + r] == AddrDecl(p, r);
    AccessReaches(map_, p, values, a, 6 + r);
    AddrLockMeaning(map_, p, values, r);
    assert (PMPADDR0 + r) % 16 == r;
    MaskedBit(values[6 + r], LockMask(map_, values, 6 + r), a.op, a.wdata, b);
  }

  /** Bit `b` of the configuration byte of region `r` before reserved values are taken out. */
  predicate Raw(map_: seq<Decl>, values: seq<Word>, a: Access, r: nat, b: nat)
    requires |map_| == |values| >= 22 && r < 16 && b < 8
  {
    var i, at := 2 + r / 4, 8 * (r % 4) + b;
    Masked(values[i], LockMask(map_, values, i), a.op, a.wdata)[at]
  }

  /** A locked byte keeps its bits unless the bypass is on; any other takes them. */
  lemma RawExact(map_: seq<Decl>, p: Params, values: seq<Word>, a: Access, r: nat, b: nat)
    requires Mapped(map_, p) && |map_| == |values| && r < 16 && b < 8 && map_[2 + r / 4].kind.PmpCfg?
    ensures var i, at := 2 + r / 4, 8 * (r % 4);
            if values[i][at + 7] && !values[0][2] then Raw(map_, values, a, r, b) == values[i][at + b]
            else Applied(a.op, values[i][at + b], a.wdata[at + b], Raw(map_, values, a, r, b))
  {
    var i, at := 2 + r / 4, 8 * (r % 4);
    CfgLockBit(map_, p, values, i, r % 4, b);
    MaskedBit(values[i], LockMask(map_, values, i), a.op, a.wdata, at + b);
  }

  lemma CfgLockBit(map_: seq<Decl>, p: Params, values: seq<Word>, i: nat, k: nat, b: nat)
    requires Mapped(map_, p) && |map_| == |values| && i < |map_| && map_[i].kind.PmpCfg? && k < 4 && b < 8
    ensures LockMask(map_, values, i)[8 * k + b] <==> values[i][8 * k + 7] && !values[0][2]
  {
    SeccfgFirst(map_, p, values, RLB);
    ByteOf(k, b);
  }

  lemma ByteOf(k: nat, b: nat)
    requires b < 8
    ensures (8 * k + b) / 8 == k
  {
  }

  lemma ReservedBit(value: Word, mml: bool, k: nat, b: nat)
    requires k < 4 && b < 8
    ensures Reserved(value, mml)[8 * k + b]
         == if b == 5 || b == 6 then false
            else if b == 1 then value[8 * k + 1] && (mml || value[8 * k])
            else value[8 * k + b]
  {
    ByteOf(k, b);
  }

  /** A configuration byte after an access: bits 5 and 6 are zero, write permission without read
      permission is none until MML is set, and the other bits are the raw ones. */
  lemma CfgExact(map_: seq<Decl>, p: Params, values: seq<Word>, a: Access, r: nat, b: nat)
    requires Mapped(map_, p) && |map_| == |values| && r < 16 && a.addr == 0x3A0 + r / 4 && a.op != Read && b < 8
    requires map_[2 + r / 4].kind.PmpCfg?
    ensures AfterAccess(map_, values, a, |map_|)[2 + r / 4][8 * (r % 4) + b]
         == if b == 5 || b == 6 then false
            else if b == 1 then Raw(map_, values, a, r, 1) && (values[0][0] || Raw(map_, values, a, r, 0))
            else Raw(map_, values, a, r, b)
  {
    var i := 2 + r / 4;
    assert map_[2 + r / 4] == CfgDecl(p, r / 4);
    AccessReaches(map_, p, values, a, i);
    SeccfgFirst(map_, p, values, MML);
    ReservedBit(Masked(values[i], LockMask(map_, values, i), a.op, a.wdata), values[0][MML], r % 4, b);
  }

  // ---------------------------------------------------------------------------------------------
  // When the comparison stops the test

  /** What the register at `i` shows before the access. */
  function Shown(map_: seq<Decl>, values: seq<Word>, i: nat): Word
    requires |map_| == |values| && i < |map_|
  {
    if map_[i].kind.NonImp? then seq(32, _ => false) else values[i]
  }

  lemma {:induction false} AddressedBy(map_: seq<Decl>, addr: nat, n: nat)
    requires n <= |map_|
    ensures Addressed(map_, addr, n) <==> exists i :: 0 <= i < n && map_[i].addr == addr
  {
    if n > 0 {
      AddressedBy(map_, addr, n - 1);
    }
  }

  lemma {:induction false} StopsBy(map_: seq<Decl>, p: Params, values: seq<Word>, t: Transaction, i: nat, n: nat)
    requires Mapped(map_, p) && n <= |map_| == |values| && i < |map_| && map_[i].addr == t.access.addr
    ensures Stops(map_, values, t, n)
       <==> i < n && t.access.addr != 0xB00 && t.access.addr != 0xB80 && Shown(map_, values, i) != t.rdata
  {
    if n > 0 {
      StopsBy(map_, p, values, t, i, n - 1);
      AccessPrefix(map_, p, values, t.access, i, n - 1);
      if n - 1 < i {
        AddressesDiffer(map_, p, n - 1, i);
      } else if i < n - 1 {
        AddressesDiffer(map_, p, i, n - 1);
      }
    }
  }

  lemma {:induction false} NothingStops(map_: seq<Decl>, values: seq<Word>, t: Transaction, n: nat)
    requires n <= |map_| == |values| && forall i :: 0 <= i < |map_| ==> map_[i].addr != t.access.addr
    ensures !Stops(map_, values, t, n)
  {
    if n > 0 {
      NothingStops(map_, values, t, n - 1);
    }
  }

  lemma OnlyOneThere(map_: seq<Decl>, p: Params, i: nat, addr: nat)
    requires Mapped(map_, p) && i < |map_| && map_[i].addr == addr
    ensures forall j: nat :: j < |map_| && map_[j].addr == addr ==> j == i
  {
    forall j: nat | j < |map_| && map_[j].addr == addr
      ensures j == i
    {
      if j < i {
        AddressesDiffer(map_, p, j, i);
      } else if i < j {
        AddressesDiffer(map_, p, i, j);
      }
    }
  }

  /** A register, other than a cycle counter, that shows something else than was observed. */
  ghost predicate ShowsOther(map_: seq<Decl>, values: seq<Word>, t: Transaction)
    requires |map_| == |values|
  {
    && t.access.addr != 0xB00 && t.access.addr != 0xB80
    && exists i: nat :: i < |map_| && map_[i].addr == t.access.addr && Shown(map_, values, i) != t.rdata
  }

  /** No register is at the address of the transaction. */
  ghost predicate NoneThere(map_: seq<Decl>, t: Transaction) {
    forall i: nat :: i < |map_| ==> map_[i].addr != t.access.addr
  }

  lemma ShowsOtherExact(map_: seq<Decl>, p: Params, values: seq<Word>, t: Transaction)
    requires Mapped(map_, p) && |map_| == |values|
    ensures Stops(map_, values, t, |map_|) <==> ShowsOther(map_, values, t)
  {
    if i: nat :| i < |map_| && map_[i].addr == t.access.addr {
      StopsBy(map_, p, values, t, i, |map_|);
      OnlyOneThere(map_, p, i, t.access.addr);
    } else {
      NothingStops(map_, values, t, |map_|);
    }
  }

  /** A transaction stops the test exactly when the register at its address, other than a cycle counter,
      showed something else than was observed, or when there is none and no error was signalled. */
  lemma StopsExact(map_: seq<Decl>, p: Params, values: seq<Word>, t: Transaction)
    requires Mapped(map_, p) && |map_| == |values|
    ensures (Stops(map_, values, t, |map_|) || (!Addressed(map_, t.access.addr, |map_|) && !t.illegal))
       <==> ShowsOther(map_, values, t) || (NoneThere(map_, t) && !t.illegal)
  {
    AddressedBy(map_, t.access.addr, |map_|);
    ShowsOtherExact(map_, p, values, t);
  }

  // ---------------------------------------------------------------------------------------------
  // The map

  /** A configuration register exists for every four regions, an address register for every region. */
  lemma RegionsExact(map_: seq<Decl>, p: Params, r: nat)
    requires Mapped(map_, p) && r < 16
    ensures map_[2 + r / 4].kind == (if p.pmpEnable && r / 4 < p.pmpRegions / 4 then PmpCfg else NonImp)
    ensures map_[6 + r].kind == (if p.pmpEnable && r < p.pmpRegions then PmpAddr else NonImp)
  {
    assert map_[2 + r / 4] == CfgDecl(p, r / 4) && map_[6 + r] == AddrDecl(p, r);
  }

  /** Bits of the inhibit register that cannot be set: time, and those of counters that do not exist. */
  lemma InhibitExact(map_: seq<Decl>, p: Params, b: nat)
    requires Mapped(map_, p) && b < W
    ensures map_[22].addr == 0x320 && map_[22].kind.Warl? && !map_[22].kind.reset[b]
    ensures map_[22].kind.mask[b] <==> b == 1 || b - 3 >= p.counters
  {
  }

  /** Event selector `n` is fixed to its own event; the counters keep the bits below their width, the low
      word first. Those that do not exist are not implemented. */
  lemma CountersExact(map_: seq<Decl>, p: Params, n: nat, b: nat)
    requires Mapped(map_, p) && 3 <= n < 32 && b < W
    ensures var event, low, high := map_[20 + n], map_[51 + n], map_[82 + n];
            && event.addr == 0x320 + n && low.addr == 0xB00 + n && high.addr == 0xB80 + n
            && if n - 3 >= p.counters then event.kind.NonImp? && low.kind.NonImp? && high.kind.NonImp?
               else
                 && event.kind.Warl? && event.kind.mask[b] && event.kind.reset[b] == (b == n - 3)
                 && low.kind.Warl? && low.kind.mask[b] == (b >= p.counterWidth) && !low.kind.reset[b]
                 && high.kind.Warl? && high.kind.mask[b] == (b + 32 >= p.counterWidth) && !high.kind.reset[b]
  {
    assert map_[23 + n - 3] == CounterDecl(p, 0x320, n);
    assert map_[54 + n - 3] == CounterDecl(p, 0xB00, n);
    assert map_[85 + n - 3] == CounterDecl(p, 0xB80, n);
  }
}
