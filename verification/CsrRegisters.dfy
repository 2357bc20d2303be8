/** The register objects and the model that dispatches accesses to them. */
module CsrRegisters {
  import opened Words
  import opened CsrModel

  const MCYCLE := 0xB00
  const MCYCLEH := 0xB80

  ghost function Decls(map_: seq<Register>): (r: seq<Decl>)
    ensures |r| == |map_| && forall i :: 0 <= i < |map_| ==> r[i] == map_[i].decl
  {
    seq(|map_|, i requires 0 <= i < |map_| => map_[i].decl)
  }

  ghost function Values(map_: seq<Register>): (r: seq<Word>)
    reads map_
    ensures |r| == |map_| && forall i :: 0 <= i < |map_| ==> r[i] == map_[i].value
  {
    if map_ == [] then [] else Values(map_[..|map_| - 1]) + [map_[|map_| - 1].value]
  }

  /** One register. What a subclass of the source overrides depends on its kind here. */
  class Register {
    const decl: Decl
    var value: Word

    constructor (decl: Decl)
      ensures this.decl == decl && value == Zero()
    {
      this.decl := decl;
      value := Zero();
    }

    method RegisterReset()
      modifies this
      ensures value == ResetValue(decl)
    {
      match decl.kind
      case Warl(_, reset) => value := reset;
      case _ => value := Zero();
    }

    function RegisterRead(): Word
      reads this
    {
      if decl.kind.NonImp? then Zero() else value
    }
  }

  /** The lock bits of all configuration registers. */
  method AnyPmpCfgsLocked(map_: seq<Register>) returns (r: bool)
    ensures r == AnyLocked(Decls(map_), Values(map_))
  {
    for i := 0 to |map_|
      invariant forall k :: 0 <= k < i && map_[k].decl.addr / 4 == PMPCFG0 / 4 ==>
                  !AnyLockBit(ReadValue(map_[k].decl, map_[k].value))
    {
      if map_[i].decl.addr / 4 == PMPCFG0 / 4 {
        var x := map_[i].RegisterRead();
        if x[7] || x[15] || x[23] || x[31] {
          assert AnyLockBit(ReadValue(Decls(map_)[i], Values(map_)[i]));
          return true;
        }
      }
    }
    return false;
  }

  /** The first register at `addr`. */
  method GetRegisterFromMap(map_: seq<Register>, addr: nat) returns (k: nat)
    ensures k == FirstAt(Decls(map_), addr, 0)
  {
    k := 0;
    while k < |map_|
      invariant k <= |map_| && FirstAt(Decls(map_), addr, k) == FirstAt(Decls(map_), addr, 0)
    {
      if map_[k].decl.addr == addr {
        return;
      }
      k := k + 1;
    }
  }

  method ReadSeccfg(map_: seq<Register>, b: nat) returns (r: bool)
    requires b < W
    ensures r == Seccfg(Decls(map_), Values(map_), b)
  {
    var k := GetRegisterFromMap(map_, MSECCFG);
    if k < |map_| {
      var x := map_[k].RegisterRead();
      return x[b];
    }
    return false;
  }

  /** The last registers at two addresses, found in one pass. */
  method ReadTwo(map_: seq<Register>, addr0: nat, addr1: nat) returns (x0: Word, x1: Word)
    ensures x0 == ReadAt(Decls(map_), Values(map_), addr0, |map_|)
    ensures x1 == ReadAt(Decls(map_), Values(map_), addr1, |map_|)
  {
    x0, x1 := Zero(), Zero();
    for i := 0 to |map_|
      invariant x0 == ReadAt(Decls(map_), Values(map_), addr0, i)
      invariant x1 == ReadAt(Decls(map_), Values(map_), addr1, i)
    {
      if map_[i].decl.addr == addr0 {
        x0 := map_[i].RegisterRead();
      }
      if map_[i].decl.addr == addr1 {
        x1 := map_[i].RegisterRead();
      }
    }
  }

  /** The lock mask, by kind. */
  method GetLockMask(map_: seq<Register>, i: nat) returns (mask: Word)
    requires i < |map_|
    ensures mask == LockMask(Decls(map_), Values(map_), i)
  {
    match map_[i].decl.kind
    case Plain => mask := Zero();
    case NonImp => mask := Zero();
    case Warl(fixed, _) => mask := fixed;
    case MSeccfg =>
      var locked := AnyPmpCfgsLocked(map_);
      mask := SeccfgMask(map_[i].value, locked);
    case PmpCfg =>
      var bypass := ReadSeccfg(map_, RLB);
      mask := if bypass then Zero() else CfgMask(map_[i].value);
    case PmpAddr =>
      var locked := AddrLock(map_, map_[i].decl.addr % 16);
      mask := Full(locked);
  }

  method AddrLock(map_: seq<Register>, r: nat) returns (locked: bool)
    ensures locked == AddrLocked(Decls(map_), Values(map_), r)
  {
    var own, next := ReadTwo(map_, PMPCFG0 + r / 4, PMPCFG0 + (r + 1) / 4);
    var at := 8 * ((r + 1) % 4);
    return own[8 * (r % 4) + L_BIT] || (next[at + A_LOW] && !next[at + A_HIGH]);
  }

  ghost predicate Distinct(map_: seq<Register>) {
    forall i, j :: 0 <= i < j < |map_| ==> map_[i] != map_[j]
  }

  /** Changing one object changes one value. */
  lemma ValuesUpdated(map_: seq<Register>, before: seq<Word>, i: nat)
    requires Distinct(map_) && i < |map_| == |before|
    requires forall k :: 0 <= k < |map_| && k != i ==> map_[k].value == before[k]
    ensures Values(map_) == before[i := map_[i].value]
  {
  }

  /** Register `i` takes an access; the result is what was read. */
  method TakeAccess(map_: seq<Register>, i: nat, op: Op, wdata: Word) returns (read: Word)
    requires Distinct(map_) && i < |map_|
    modifies map_[i]
    ensures read == old(ReadValue(map_[i].decl, map_[i].value))
    ensures Values(map_) == old(Values(map_))[i := Accessed(Decls(map_), old(Values(map_)), i, op, wdata)]
  {
    ghost var before := Values(map_);
    var reg := map_[i];
    read := reg.RegisterRead();
    if !reg.decl.kind.NonImp? {
      var lock := GetLockMask(map_, i);
      var mml := false;
      if reg.decl.kind.PmpCfg? {
        mml := ReadSeccfg(map_, MML);
      }
      match op {
        case Read =>
        case Write => reg.value := Or(And(reg.value, lock), And(wdata, Not(lock)));
        case Set => reg.value := Or(reg.value, And(wdata, Not(lock)));
        case Clear => reg.value := And(reg.value, Or(Not(wdata), lock));
      }
      if reg.decl.kind.PmpCfg? && op != Read {
        reg.value := Reserved(reg.value, mml);
      }
    }
    ValuesUpdated(map_, before, i);
  }

  datatype Transaction = Transaction(access: Access, rdata: Word, illegal: bool)

  /** Register `i` answers a transaction at its address with something else than was observed. Cycle
      counters are not compared. */
  predicate Differs(d: Decl, value: Word, t: Transaction) {
    d.addr == t.access.addr && d.addr != MCYCLE && d.addr != MCYCLEH && ReadValue(d, value) != t.rdata
  }

  /** One of the first `n` registers differs when its turn comes. */
  predicate Stops(map_: seq<Decl>, values: seq<Word>, t: Transaction, n: nat)
    requires n <= |map_| == |values|
  {
    n > 0 && (Stops(map_, values, t, n - 1)
              || Differs(map_[n - 1], AfterAccess(map_, values, t.access, n - 1)[n - 1], t))
  }

  /** Register `i` sees a transaction: did it match, and did it read something else? */
  method ProcessTransaction(map_: seq<Register>, i: nat, t: Transaction) returns (matched: bool, error: bool)
    requires Distinct(map_) && i < |map_|
    modifies map_[i]
    ensures matched == (map_[i].decl.addr == t.access.addr)
    ensures error == Differs(map_[i].decl, old(map_[i].value), t)
    ensures Values(map_) == if matched
      then old(Values(map_))[i := Accessed(Decls(map_), old(Values(map_)), i, t.access.op, t.access.wdata)]
      else old(Values(map_))
  {
    if map_[i].decl.addr != t.access.addr {
      return false, false;
    }
    var read := TakeAccess(map_, i, t.access.op, t.access.wdata);
    return true, map_[i].decl.addr != MCYCLE && map_[i].decl.addr != MCYCLEH && read != t.rdata;
  }

  class RegisterModel {
    const registers: seq<Register>
    var stopped: bool

    ghost predicate Valid() {
      Distinct(registers)
    }

    constructor (registers: seq<Register>)
      requires Distinct(registers)
      ensures Valid() && this.registers == registers && !stopped
    {
      this.registers, stopped := registers, false;
    }

    method RegisterReset()
      requires Valid()
      modifies registers
      ensures Values(registers) == ResetValues(Decls(registers))
    {
      for i := 0 to |registers|
        invariant forall k :: 0 <= k < i ==> registers[k].value == ResetValue(registers[k].decl)
      {
        registers[i].RegisterReset();
      }
    }

    /** The turn of register `i`. */
    method Dispatch(i: nat, t: Transaction, ghost before: seq<Word>) returns (matched: bool)
      requires Valid() && i < |registers| == |before|
      requires Values(registers) == AfterAccess(Decls(registers), before, t.access, i)
      modifies this, registers[i]
      ensures Values(registers) == AfterAccess(Decls(registers), before, t.access, i + 1)
      ensures matched == (Decls(registers)[i].addr == t.access.addr)
      ensures stopped == (old(stopped) || Differs(Decls(registers)[i],
                            AfterAccess(Decls(registers), before, t.access, i)[i], t))
    {
      var error;
      matched, error := ProcessTransaction(registers, i, t);
      stopped := stopped || error;
    }

    /** All registers see the transaction, in turn. The test stops when one that is addressed read
        something else, or when none is addressed and no error was signalled. */
    method NewTransaction(t: Transaction)
      requires Valid()
      modifies this, registers
      ensures Values(registers) == AfterAccess(Decls(registers), old(Values(registers)), t.access, |registers|)
      ensures stopped == (old(stopped) || Stops(Decls(registers), old(Values(registers)), t, |registers|)
                          || (!Addressed(Decls(registers), t.access.addr, |registers|) && !t.illegal))
    {
      ghost var before := Values(registers);
      var matched := false;
      for i := 0 to |registers|
        invariant Values(registers) == AfterAccess(Decls(registers), before, t.access, i)
        invariant matched == Addressed(Decls(registers), t.access.addr, i)
        invariant stopped == (old(stopped) || Stops(Decls(registers), before, t, i))
      {
        var here := Dispatch(i, t, before);
        matched := matched || here;
      }
      if !matched && !t.illegal {
        stopped := true;
      }
    }
  }

  /** One of the first `n` registers is at `addr`. */
  predicate Addressed(map_: seq<Decl>, addr: nat, n: nat)
    requires n <= |map_|
  {
    n > 0 && (Addressed(map_, addr, n - 1) || map_[n - 1].addr == addr)
  }
}
