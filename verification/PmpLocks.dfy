/** Locked regions stay as they are, over any run of accesses without a reset. */
module PmpLocks {
  import opened Words
  import opened CsrModel

  /** Bit `b` of the configuration byte of region `r`, as it reads. */
  predicate Cfg(map_: seq<Decl>, values: seq<Word>, r: nat, b: nat)
    requires |map_| == |values| >= 22 && r < 16 && b < 8
  {
    ReadValue(map_[2 + r / 4], values[2 + r / 4])[8 * (r % 4) + b]
  }

  /** Region `r` is locked and locks cannot be bypassed. */
  predicate Locked(map_: seq<Decl>, values: seq<Word>, r: nat)
    requires |map_| == |values| >= 22 && r < 16
  {
    !values[0][RLB] && Cfg(map_, values, r, L_BIT)
  }

  /** Region `r` starts where the previous one ends. */
  predicate Tor(map_: seq<Decl>, values: seq<Word>, r: nat)
    requires |map_| == |values| >= 22 && r < 16
  {
    Cfg(map_, values, r, A_LOW) && !Cfg(map_, values, r, A_HIGH)
  }

  /** Byte `k` has no reserved bits set, and no write permission alone unless `mml`. */
  predicate ByteClean(x: Word, k: nat, mml: bool)
    requires k < 4
  {
    !x[8 * k + 5] && !x[8 * k + 6] && (mml || x[8 * k + R_BIT] || !x[8 * k + W_BIT])
  }

  predicate CfgClean(x: Word, mml: bool) {
    ByteClean(x, 0, mml) && ByteClean(x, 1, mml) && ByteClean(x, 2, mml) && ByteClean(x, 3, mml)
  }

  /** What every access keeps. */
  predicate Inv(values: seq<Word>)
    requires |values| >= 22
  {
    var mml := values[0][MML];
    CfgClean(values[2], mml) && CfgClean(values[3], mml) && CfgClean(values[4], mml) && CfgClean(values[5], mml)
  }

  // ---------------------------------------------------------------------------------------------
  // Lookups

  lemma {:induction false} ReadCfg(map_: seq<Decl>, p: Params, values: seq<Word>, k: nat, n: nat)
    requires WellMapped(map_, p) && |map_| == |values| && k < 4 && 3 + k <= n <= |map_|
    ensures ReadAt(map_, values, PMPCFG0 + k, n) == ReadValue(map_[2 + k], values[2 + k])
    decreases n
  {
    assert map_[2 + k] == CfgDecl(p, k);
    if n > 3 + k {
      ReadCfg(map_, p, values, k, n - 1);
      NotCfg(map_, p, n - 1, k);
    }
  }

  lemma NotCfg(map_: seq<Decl>, p: Params, i: nat, k: nat)
    requires WellMapped(map_, p) && k < 4 && 2 + k < i < |map_|
    ensures map_[i].addr != PMPCFG0 + k
  {
    if i < 6 {
      assert map_[2 + (i - 2)] == CfgDecl(p, i - 2);
    } else if i < 22 {
      assert map_[6 + (i - 6)] == AddrDecl(p, i - 6);
    } else {
      assert Counter(map_[i]);
    }
  }

  lemma SeccfgFirst(map_: seq<Decl>, p: Params, values: seq<Word>, b: nat)
    requires WellMapped(map_, p) && |map_| == |values| && b < W
    ensures Seccfg(map_, values, b) == values[0][b]
  {
  }

  /** The lock of an address register, in terms of the regions. */
  lemma AddrLockMeaning(map_: seq<Decl>, p: Params, values: seq<Word>, r: nat)
    requires WellMapped(map_, p) && |map_| == |values| && r < 16
    ensures AddrLocked(map_, values, r)
        <==> (Cfg(map_, values, r, L_BIT) || (r + 1 < 16 && Tor(map_, values, r + 1)))
  {
    ReadCfg(map_, p, values, r / 4, |map_|);
    if r + 1 < 16 {
      ReadCfg(map_, p, values, (r + 1) / 4, |map_|);
    } else {
      NoFifthCfg(map_, p, values, |map_|);
    }
  }

  lemma {:induction false} NoFifthCfg(map_: seq<Decl>, p: Params, values: seq<Word>, n: nat)
    requires WellMapped(map_, p) && |map_| == |values| && n <= |map_|
    ensures ReadAt(map_, values, PMPCFG0 + 4, n) == Zero()
    decreases n
  {
    if n > 0 {
      NoFifthCfg(map_, p, values, n - 1);
      if 2 <= n - 1 < 6 {
        assert map_[2 + (n - 3)] == CfgDecl(p, n - 3);
      } else if 6 <= n - 1 < 22 {
        assert map_[6 + (n - 7)] == AddrDecl(p, n - 7);
      } else if n - 1 >= 22 {
        assert Counter(map_[n - 1]);
      }
    }
  }

  lemma LockSeen(map_: seq<Decl>, p: Params, values: seq<Word>, r: nat)
    requires WellMapped(map_, p) && |map_| == |values| && r < 16 && Cfg(map_, values, r, L_BIT)
    ensures AnyLocked(map_, values)
  {
    var i := 2 + r / 4;
    assert map_[2 + r / 4] == CfgDecl(p, r / 4);
    assert r % 4 == 0 || r % 4 == 1 || r % 4 == 2 || r % 4 == 3;
    assert AnyLockBit(ReadValue(map_[i], values[i]));
  }

  // ---------------------------------------------------------------------------------------------
  // One configuration register

  /** A configuration register is clean after any access. */
  lemma CfgStepClean(value: Word, lock: Word, op: Op, wdata: Word, mml: bool)
    ensures CfgClean(Reserved(Masked(value, lock, op, wdata), mml), mml)
  {
  }

  /** A locked byte keeps its bits. */
  lemma CfgStepLocked(value: Word, op: Op, wdata: Word, mml: bool, k: nat, b: nat)
    requires k < 4 && b < 8 && CfgClean(value, mml) && value[8 * k + L_BIT]
    ensures Reserved(Masked(value, CfgMask(value), op, wdata), mml)[8 * k + b] == value[8 * k + b]
  {
    var masked := Masked(value, CfgMask(value), op, wdata);
    assert (8 * k + b) / 8 == k && ByteClean(value, k, mml);
    ByteKept(value, op, wdata, k, b);
    ByteKept(value, op, wdata, k, R_BIT);
    ByteKept(value, op, wdata, k, W_BIT);
  }

  lemma ByteKept(value: Word, op: Op, wdata: Word, k: nat, b: nat)
    requires k < 4 && b < 8 && value[8 * k + L_BIT]
    ensures Masked(value, CfgMask(value), op, wdata)[8 * k + b] == value[8 * k + b]
  {
    assert (8 * k + b) / 8 == k;
    assert CfgMask(value)[8 * k + b];
  }

  // ---------------------------------------------------------------------------------------------
  // One access by one register

  function Stepped(map_: seq<Decl>, values: seq<Word>, i: nat, op: Op, wdata: Word): (r: seq<Word>)
    requires |map_| == |values| && i < |map_|
    ensures |r| == |map_|
  {
    values[i := Accessed(map_, values, i, op, wdata)]
  }

  /** The mode bits only ever get set, and with a lock present locking bypass cannot be turned on. */
  lemma SeccfgStep(map_: seq<Decl>, p: Params, values: seq<Word>, i: nat, op: Op, wdata: Word)
    requires WellMapped(map_, p) && |map_| == |values| && i < |map_|
    ensures var values' := Stepped(map_, values, i, op, wdata);
            && (values[0][MML] ==> values'[0][MML]) && (values[0][MMWP] ==> values'[0][MMWP])
            && (AnyLocked(map_, values) && !values[0][RLB] ==> !values'[0][RLB])
  {
    if i == 0 {
      var mask := LockMask(map_, values, 0);
      assert mask == SeccfgMask(values[0], AnyLocked(map_, values));
    }
  }

  lemma InvStep(map_: seq<Decl>, p: Params, values: seq<Word>, i: nat, op: Op, wdata: Word)
    requires WellMapped(map_, p) && |map_| == |values| && i < |map_| && Inv(values)
    ensures Inv(Stepped(map_, values, i, op, wdata))
  {
    SeccfgStep(map_, p, values, i, op, wdata);
    SeccfgFirst(map_, p, values, MML);
    if 2 <= i < 6 {
      assert map_[2 + (i - 2)] == CfgDecl(p, i - 2);
      CfgStepClean(values[i], LockMask(map_, values, i), op, wdata, values[0][MML]);
    }
  }

  /** A locked configuration byte is not changed. */
  lemma CfgStays(map_: seq<Decl>, p: Params, values: seq<Word>, i: nat, op: Op, wdata: Word, r: nat, b: nat)
    requires WellMapped(map_, p) && |map_| == |values| && i < |map_| && Inv(values) && r < 16 && b < 8
    requires Locked(map_, values, r)
    ensures Cfg(map_, Stepped(map_, values, i, op, wdata), r, b) == Cfg(map_, values, r, b)
  {
    var k := r / 4;
    if i == 2 + k {
      assert map_[2 + k] == CfgDecl(p, k);
      SeccfgFirst(map_, p, values, MML);
      SeccfgFirst(map_, p, values, RLB);
      if map_[i].kind.PmpCfg? {
        CfgStepLocked(values[i], op, wdata, values[0][MML], r % 4, b);
      }
    }
  }

  /** The address of a locked region, and the one below a region that starts there, is not changed. */
  lemma AddrStays(map_: seq<Decl>, p: Params, values: seq<Word>, i: nat, op: Op, wdata: Word, r: nat)
    requires WellMapped(map_, p) && |map_| == |values| && i < |map_| && r < 16
    requires Cfg(map_, values, r, L_BIT) || (r + 1 < 16 && Tor(map_, values, r + 1))
    ensures Stepped(map_, values, i, op, wdata)[6 + r] == values[6 + r]
  {
    if i == 6 + r {
      assert map_[6 + r] == AddrDecl(p, r);
      AddrLockMeaning(map_, p, values, r);
      assert (PMPADDR0 + r) % 16 == r;
      MaskedFull(values[i], op, wdata);
    }
  }

  lemma MaskedFull(value: Word, op: Op, wdata: Word)
    ensures Masked(value, Full(true), op, wdata) == value
  {
  }

  // ---------------------------------------------------------------------------------------------
  // Runs

  /** Nothing about locked region `r` has changed from `before` to `after`, and it is still locked. */
  ghost predicate Frozen(map_: seq<Decl>, before: seq<Word>, after: seq<Word>, r: nat)
    requires |map_| == |before| == |after| >= 22 && r < 16
  {
    && !after[0][RLB]
    && (forall b: nat :: b < 8 ==> Cfg(map_, after, r, b) == Cfg(map_, before, r, b))
    && after[6 + r] == before[6 + r]
    && (r > 0 && Tor(map_, before, r) ==> after[6 + r - 1] == before[6 + r - 1])
  }

  lemma FrozenTrans(map_: seq<Decl>, v0: seq<Word>, v1: seq<Word>, v2: seq<Word>, r: nat)
    requires |map_| == |v0| == |v1| == |v2| >= 22 && r < 16
    requires Frozen(map_, v0, v1, r) && Frozen(map_, v1, v2, r)
    ensures Frozen(map_, v0, v2, r)
  {
    assert Cfg(map_, v1, r, A_LOW) == Cfg(map_, v0, r, A_LOW) && Cfg(map_, v1, r, A_HIGH) == Cfg(map_, v0, r, A_HIGH);
    forall b: nat | b < 8
      ensures Cfg(map_, v2, r, b) == Cfg(map_, v0, r, b)
    {
      assert Cfg(map_, v2, r, b) == Cfg(map_, v1, r, b);
    }
  }

  lemma StepFrozen(map_: seq<Decl>, p: Params, values: seq<Word>, i: nat, op: Op, wdata: Word, r: nat)
    requires WellMapped(map_, p) && |map_| == |values| && i < |map_| && Inv(values) && r < 16 && Locked(map_, values, r)
    ensures Frozen(map_, values, Stepped(map_, values, i, op, wdata), r)
  {
    LockSeen(map_, p, values, r);
    SeccfgStep(map_, p, values, i, op, wdata);
    forall b: nat | b < 8
      ensures Cfg(map_, Stepped(map_, values, i, op, wdata), r, b) == Cfg(map_, values, r, b)
    {
      CfgStays(map_, p, values, i, op, wdata, r, b);
    }
    AddrStays(map_, p, values, i, op, wdata, r);
    if r > 0 && Tor(map_, values, r) {
      AddrStays(map_, p, values, i, op, wdata, r - 1);
    }
  }

  lemma FrozenLocked(map_: seq<Decl>, before: seq<Word>, after: seq<Word>, r: nat)
    requires |map_| == |before| == |after| >= 22 && r < 16
    requires Frozen(map_, before, after, r) && Locked(map_, before, r)
    ensures Locked(map_, after, r)
  {
    assert Cfg(map_, after, r, L_BIT) == Cfg(map_, before, r, L_BIT);
  }

  lemma {:induction false} InvAccess(map_: seq<Decl>, p: Params, values: seq<Word>, a: Access, n: nat)
    requires WellMapped(map_, p) && n <= |map_| == |values| && Inv(values)
    ensures Inv(AfterAccess(map_, values, a, n))
  {
    if n > 0 {
      InvAccess(map_, p, values, a, n - 1);
      InvStep(map_, p, AfterAccess(map_, values, a, n - 1), n - 1, a.op, a.wdata);
    }
  }

  lemma {:induction false} AccessFrozen(map_: seq<Decl>, p: Params, values: seq<Word>, a: Access, n: nat, r: nat)
    requires WellMapped(map_, p) && n <= |map_| == |values| && Inv(values) && r < 16 && Locked(map_, values, r)
    ensures Frozen(map_, values, AfterAccess(map_, values, a, n), r)
  {
    if n > 0 {
      AccessFrozen(map_, p, values, a, n - 1, r);
      InvAccess(map_, p, values, a, n - 1);
      var before := AfterAccess(map_, values, a, n - 1);
      FrozenLocked(map_, values, before, r);
      StepFrozen(map_, p, before, n - 1, a.op, a.wdata, r);
      FrozenTrans(map_, values, before, Stepped(map_, before, n - 1, a.op, a.wdata), r);
    }
  }

  lemma {:induction false} InvRun(map_: seq<Decl>, p: Params, values: seq<Word>, accesses: seq<Access>)
    requires WellMapped(map_, p) && |map_| == |values| && Inv(values)
    ensures Inv(Run(map_, values, accesses))
    decreases |accesses|
  {
    if accesses != [] {
      var last := |accesses| - 1;
      InvRun(map_, p, values, accesses[..last]);
      InvAccess(map_, p, Run(map_, values, accesses[..last]), accesses[last], |map_|);
    }
  }

  lemma InvReset(map_: seq<Decl>, p: Params)
    requires WellMapped(map_, p)
    ensures Inv(ResetValues(map_))
  {
    assert map_[2 + 0] == CfgDecl(p, 0) && map_[2 + 1] == CfgDecl(p, 1);
    assert map_[2 + 2] == CfgDecl(p, 2) && map_[2 + 3] == CfgDecl(p, 3);
  }

  /** Locks are permanent: once a run from reset has locked a region without bypass, no further accesses
      turn the bypass on, change the region's configuration or its address, or change the address it
      starts from. */
  lemma {:induction false} LocksArePermanent(map_: seq<Decl>, p: Params, earlier: seq<Access>, later: seq<Access>, r: nat)
    requires WellMapped(map_, p) && r < 16
    requires Locked(map_, Run(map_, ResetValues(map_), earlier), r)
    ensures var locked := Run(map_, ResetValues(map_), earlier);
            Frozen(map_, locked, Run(map_, locked, later), r)
    decreases |later|
  {
    var locked := Run(map_, ResetValues(map_), earlier);
    InvReset(map_, p);
    InvRun(map_, p, ResetValues(map_), earlier);
    if later != [] {
      var last := |later| - 1;
      LocksArePermanent(map_, p, earlier, later[..last], r);
      var before := Run(map_, locked, later[..last]);
      InvRun(map_, p, locked, later[..last]);
      FrozenLocked(map_, locked, before, r);
      AccessFrozen(map_, p, before, later[last], |map_|, r);
      FrozenTrans(map_, locked, before, AfterAccess(map_, before, later[last], |map_|), r);
    }
  }

  /** The mode bits stay set over any run. */
  lemma {:induction false} ModesAreSticky(map_: seq<Decl>, p: Params, values: seq<Word>, accesses: seq<Access>)
    requires WellMapped(map_, p) && |map_| == |values|
    ensures var after := Run(map_, values, accesses);
            (values[0][MML] ==> after[0][MML]) && (values[0][MMWP] ==> after[0][MMWP])
    decreases |accesses|
  {
    if accesses != [] {
      var last := |accesses| - 1;
      ModesAreSticky(map_, p, values, accesses[..last]);
      ModesAccess(map_, p, Run(map_, values, accesses[..last]), accesses[last], |map_|);
    }
  }

  lemma {:induction false} ModesAccess(map_: seq<Decl>, p: Params, values: seq<Word>, a: Access, n: nat)
    requires WellMapped(map_, p) && n <= |map_| == |values|
    ensures var after := AfterAccess(map_, values, a, n);
            (values[0][MML] ==> after[0][MML]) && (values[0][MMWP] ==> after[0][MMWP])
  {
    if n > 0 {
      ModesAccess(map_, p, values, a, n - 1);
      SeccfgStep(map_, p, AfterAccess(map_, values, a, n - 1), n - 1, a.op, a.wdata);
    }
  }

  // ---------------------------------------------------------------------------------------------
  // Exactly what is locked

  /** An address register that is not locked takes any value. With AddrStays: it can be changed exactly
      when its region is not locked and the next region does not start there. Bypass makes no difference. */
  lemma AddrWritable(map_: seq<Decl>, p: Params, values: seq<Word>, r: nat, wdata: Word)
    requires WellMapped(map_, p) && |map_| == |values| && r < 16 && map_[6 + r].kind.PmpAddr?
    requires !Cfg(map_, values, r, L_BIT) && !(r + 1 < 16 && Tor(map_, values, r + 1))
    ensures Stepped(map_, values, 6 + r, Write, wdata)[6 + r] == wdata
  {
    assert map_[6 + r] == AddrDecl(p, r);
    AddrLockMeaning(map_, p, values, r);
    assert (PMPADDR0 + r) % 16 == r;
    MaskedOpen(values[6 + r], wdata);
  }

  lemma MaskedOpen(value: Word, wdata: Word)
    ensures Masked(value, Full(false), Write, wdata) == wdata
  {
  }

  /** A configuration byte takes any value that is not reserved, unless it is locked without bypass. */
  lemma CfgWritable(map_: seq<Decl>, p: Params, values: seq<Word>, r: nat, wdata: Word, b: nat)
    requires WellMapped(map_, p) && |map_| == |values| && r < 16 && b < 8 && map_[2 + r / 4].kind.PmpCfg?
    requires !Locked(map_, values, r) && ByteClean(wdata, r % 4, values[0][MML])
    ensures Cfg(map_, Stepped(map_, values, 2 + r / 4, Write, wdata), r, b) == wdata[8 * (r % 4) + b]
  {
    var k := r % 4;
    SeccfgFirst(map_, p, values, MML);
    SeccfgFirst(map_, p, values, RLB);
    var lock := LockMask(map_, values, 2 + r / 4);
    ByteOpen(values[2 + r / 4], lock, wdata, k, b);
    ByteOpen(values[2 + r / 4], lock, wdata, k, R_BIT);
    ByteOpen(values[2 + r / 4], lock, wdata, k, W_BIT);
    assert (8 * k + b) / 8 == k;
  }

  lemma ByteOpen(value: Word, lock: Word, wdata: Word, k: nat, b: nat)
    requires k < 4 && b < 8
    requires lock == Zero() || (lock == CfgMask(value) && !value[8 * k + L_BIT])
    ensures Masked(value, lock, Write, wdata)[8 * k + b] == wdata[8 * k + b]
  {
    assert (8 * k + b) / 8 == k;
  }
}
