/** The check of instruction-set-simulator memory accesses against what the design under test did. */
module MemCheck {
  import Blocks

  // ---------------------------------------------------------------------------------------------
  // Words and byte lanes

  function Pow256(n: nat): (r: nat)
    ensures r > 0
  {
    if n == 0 then 1 else 256 * Pow256(n - 1)
  }

  function Low(data: nat, len: nat): nat {
    data % Pow256(len)
  }

  /** The first `n` bytes as a little-endian number. */
  function Combine(bytes: seq<nat>, n: nat): nat
    requires n <= |bytes|
  {
    if n == 0 then 0 else Combine(bytes, n - 1) + bytes[n - 1] * Pow256(n - 1)
  }

  lemma QuotientNatural(x: nat, d: nat)
    requires d > 0
    ensures x / d >= 0
  {
    var q, r := x / d, x % d;
    assert x == d * q + r && r < d;
  }

  /** `data` without its low `off` bytes. */
  function Shifted(data: nat, off: nat): nat {
    QuotientNatural(data, Pow256(off));
    data / Pow256(off)
  }

  /** `data` with all but `len` bytes from byte `off` on masked off. */
  function MaskedData(data: nat, off: nat, len: nat): nat {
    Low(Shifted(data, off), len) * Pow256(off)
  }

  function DataByte(data: nat, lane: nat): nat {
    Shifted(data, lane) % 256
  }

  lemma Regroup(p: nat, q: nat)
    ensures p * (256 * q) == 256 * (p * q)
  {
  }

  lemma {:induction false} PowAdd(m: nat, n: nat)
    ensures Pow256(m + n) == Pow256(m) * Pow256(n)
  {
    if n > 0 {
      PowAdd(m, n - 1);
      Regroup(Pow256(m), Pow256(n - 1));
      assert Pow256(m + n) == 256 * Pow256(m + (n - 1));
    }
  }

  lemma DivTwice(x: nat, a: nat, b: nat)
    requires a > 0 && b > 0
    ensures a * b > 0 && x / (a * b) == x / a / b
  {
    var q, r := x / a, x % a;
    var s, u := q / b, q % b;
    assert x == a * q + r && q == b * s + u;
    assert a * (b * s + u) == a * b * s + a * u;
    Blocks.MulMono(a, u + 1, b);
    assert a * (u + 1) == a * u + a;
    Blocks.DivModUnique(x, a * b, s, a * u + r);
  }

  lemma TwiceSplit(m: nat, s: nat, u: nat)
    ensures m * (256 * s + u) == 256 * m * s + m * u
  {
    assert m * (256 * s) == 256 * m * s;
  }

  lemma ModStep(y: nat, m: nat)
    requires m > 0
    ensures y % (256 * m) == y % m + (y / m % 256) * m
  {
    var q, r := Blocks.DivMod(y, m);
    var s, u := Blocks.DivMod(q, 256);
    Blocks.DivModUnique(y, m, q, r);
    TwiceSplit(m, s, u);
    Blocks.MulMono(m, u + 1, 256);
    Blocks.NextMultiple(m, u);
    Blocks.DivModUnique(y, 256 * m, s, m * u + r);
  }

  lemma {:induction false} CombineBound(bytes: seq<nat>, n: nat)
    requires n <= |bytes| && forall i :: 0 <= i < |bytes| ==> bytes[i] < 256
    ensures Combine(bytes, n) < Pow256(n)
  {
    if n > 0 {
      CombineBound(bytes, n - 1);
      var p := Pow256(n - 1);
      Blocks.MulMono(p, bytes[n - 1], 255);
      assert bytes[n - 1] * p == p * bytes[n - 1];
    }
  }

  lemma TwoParts(c: nat, b: nat, r: nat, d: nat, m: nat)
    requires m > 0 && c < m && r < m
    ensures c + b * m == r + d * m <==> c == r && b == d
  {
    if c + b * m == r + d * m {
      assert b * m == m * b && d * m == m * d;
      Blocks.DivModUnique(c + b * m, m, b, c);
      Blocks.DivModUnique(c + b * m, m, d, r);
    }
  }

  /** A number below is the low part of another exactly when their bytes are the same. */
  lemma {:induction false} CombineIsLow(bytes: seq<nat>, y: nat, n: nat)
    requires n <= |bytes| && forall i :: 0 <= i < |bytes| ==> bytes[i] < 256
    ensures Combine(bytes, n) == Low(y, n) <==> forall i: nat :: i < n ==> DataByte(y, i) == bytes[i]
  {
    if n > 0 {
      CombineIsLow(bytes, y, n - 1);
      CombineBound(bytes, n - 1);
      ModStep(y, Pow256(n - 1));
      TwoParts(Combine(bytes, n - 1), bytes[n - 1], Low(y, n - 1), DataByte(y, n - 1), Pow256(n - 1));
    }
  }

  lemma ShiftedByte(data: nat, off: nat, i: nat)
    ensures DataByte(Shifted(data, off), i) == DataByte(data, off + i)
  {
    PowAdd(off, i);
    DivTwice(data, Pow256(off), Pow256(i));
  }

  lemma TimesSame(x: nat, y: nat, p: nat)
    requires p > 0
    ensures x * p == y * p <==> x == y
  {
    if x < y {
      Blocks.MulMono(p, x + 1, y);
      assert p * (x + 1) == p * x + p;
    } else if y < x {
      Blocks.MulMono(p, y + 1, x);
      assert p * (y + 1) == p * y + p;
    }
  }

  /** The comparison of masked words compares byte by byte. */
  lemma WordsCompareBytes(data: nat, off: nat, bytes: seq<nat>)
    requires forall i :: 0 <= i < |bytes| ==> bytes[i] < 256
    ensures Combine(bytes, |bytes|) * Pow256(off) == MaskedData(data, off, |bytes|)
       <==> forall i: nat :: i < |bytes| ==> DataByte(data, off + i) == bytes[i]
  {
    var y := Shifted(data, off);
    TimesSame(Combine(bytes, |bytes|), Low(y, |bytes|), Pow256(off));
    CombineIsLow(bytes, y, |bytes|);
    forall i: nat | i < |bytes|
      ensures DataByte(y, i) == DataByte(data, off + i)
    {
      ShiftedByte(data, off, i);
    }
    if forall i: nat :: i < |bytes| ==> DataByte(data, off + i) == bytes[i] {
      forall i: nat | i < |bytes|
        ensures DataByte(y, i) == bytes[i]
      {
        assert DataByte(data, off + i) == bytes[i];
      }
    }
    if forall i: nat :: i < |bytes| ==> DataByte(y, i) == bytes[i] {
      forall i: nat | i < |bytes|
        ensures DataByte(data, off + i) == bytes[i]
      {
        assert DataByte(y, i) == bytes[i];
      }
    }
  }

  // ---------------------------------------------------------------------------------------------
  // Accesses

  /** An access on the data interface. Byte enables are the set of enabled lanes. */
  datatype Dut = Dut(store: bool, data: nat, addr: nat, be: set<nat>, error: bool, misalignedFirst: bool,
                     misalignedSecond: bool, firstSawError: bool)

  /** An access of the simulator; it stays within a word. */
  datatype Iss = Iss(store: bool, addr: nat, bytes: seq<nat>)

  predicate IssValid(a: Iss) {
    1 <= |a.bytes| && a.addr % 4 + |a.bytes| <= 4 && forall i :: 0 <= i < |a.bytes| ==> a.bytes[i] < 256
  }

  /** `n` lanes from `off` on. */
  function LanesFrom(off: nat, n: nat): (s: set<nat>)
    ensures forall i: nat :: i in s <==> off <= i < off + n
  {
    if n == 0 then {} else LanesFrom(off, n - 1) + {off + n - 1}
  }

  function Lanes(a: Iss): set<nat> {
    LanesFrom(a.addr % 4, |a.bytes|)
  }

  function Misaligned(d: Dut): bool {
    d.misalignedFirst || d.misalignedSecond
  }

  datatype Error = NothingPending | WrongAddress | WrongKind | SeenTwice | OtherBytes | WrongBytes | WrongData
                 | NoSecondHalf | WrongSecondHalf | SecondNotPermitted

  datatype Verdict = Ok | BusError | Failed(error: Error)

  /** A pending access with the simulator accesses matched to it so far. */
  datatype Entry = Entry(dut: Dut, covered: seq<Iss>)

  function Seen(covered: seq<Iss>): set<nat> {
    if covered == [] then {} else Seen(covered[..|covered| - 1]) + Lanes(covered[|covered| - 1])
  }

  predicate DataMatches(d: Dut, a: Iss) {
    Combine(a.bytes, |a.bytes|) * Pow256(a.addr % 4) == MaskedData(d.data, a.addr % 4, |a.bytes|)
  }

  /** The word after, with the wrap-around of addresses. */
  function NextWord(addr: nat): nat {
    (addr + 4) % 0x1_0000_0000
  }

  /** The result of a check: the verdict, what is still pending, and the entries that are finished. */
  datatype Outcome = Outcome(verdict: Verdict, pending: seq<Entry>, finished: seq<Entry>)

  function Check(pending: seq<Entry>, a: Iss): Outcome {
    if pending == [] then Outcome(Failed(NothingPending), pending, [])
    else
      var top := pending[0].dut;
      if a.addr - a.addr % 4 != top.addr then Outcome(Failed(WrongAddress), pending, [])
      else if a.store != top.store then Outcome(Failed(WrongKind), pending, [])
      else CheckBytes(pending, a)
  }

  /** Address and kind match: the bytes. */
  function CheckBytes(pending: seq<Entry>, a: Iss): Outcome
    requires pending != []
  {
    var top, seen := pending[0].dut, Seen(pending[0].covered);
    var recorded := pending[0 := Entry(top, pending[0].covered + [a])];
    if Misaligned(top) then
      if Lanes(a) * seen != {} then Outcome(Failed(SeenTwice), pending, [])
      else if !(Lanes(a) <= top.be) then Outcome(Failed(OtherBytes), pending, [])
      else CheckData(recorded, a, seen + Lanes(a) == top.be)
    else if Lanes(a) != top.be then Outcome(Failed(WrongBytes), pending, [])
    else CheckData(recorded, a, true)
  }

  /** The bytes match and are recorded: the data, then errors of misaligned accesses. */
  function CheckData(recorded: seq<Entry>, a: Iss, done: bool): Outcome
    requires recorded != []
  {
    var top := recorded[0].dut;
    if (a.store || !top.error) && !DataMatches(top, a) then Outcome(Failed(WrongData), recorded, [])
    else if top.error && Misaligned(top) && top.misalignedFirst && 3 in top.be then
      if |recorded| < 2 || !recorded[1].dut.misalignedSecond then Outcome(Failed(NoSecondHalf), recorded, [])
      else if recorded[1].dut.addr != NextWord(top.addr) then Outcome(Failed(WrongSecondHalf), recorded, [])
      else Outcome(BusError, recorded[2..], recorded[..2])
    else
      var verdict := if top.error then BusError else Ok;
      if done || (top.error && Misaligned(top)) then Outcome(verdict, recorded[1..], recorded[..1])
      else Outcome(verdict, recorded, [])
  }

  // ---------------------------------------------------------------------------------------------
  // The checker's state

  datatype Pending = Pending(dut: Dut, beSpike: set<nat>)

  class SpikeCosim {
    var pending: seq<Pending>
    var errors: seq<Error>
    ghost var entries: seq<Entry>

    /** The seen bytes are those of the accesses matched so far. */
    ghost predicate Valid()
      reads this
    {
      |pending| == |entries| && forall i: nat :: i < |pending| ==> Represents(pending[i], entries[i])
    }

    constructor ()
      ensures Valid() && entries == [] && errors == []
    {
      pending, errors, entries := [], [], [];
    }

    method NotifyDsideAccess(d: Dut)
      requires Valid() && d.addr % 4 == 0
      modifies this
      ensures Valid() && entries == old(entries) + [Entry(d, [])] && errors == old(errors)
    {
      pending := pending + [Pending(d, {})];
      entries := entries + [Entry(d, [])];
    }

    /** Combining the bytes of an access into a word, in place. */
    method ExpectedData(a: Iss) returns (word: nat)
      ensures word == Combine(a.bytes, |a.bytes|) * Pow256(a.addr % 4)
    {
      word := 0;
      for i := 0 to |a.bytes|
        invariant word == Combine(a.bytes, i)
      {
        word := word + a.bytes[i] * Pow256(i);
      }
      word := word * Pow256(a.addr % 4);
    }

    method CheckMemAccess(a: Iss) returns (r: Verdict)
      requires Valid() && IssValid(a)
      modifies this
      ensures Valid() && r == Check(old(entries), a).verdict && entries == Check(old(entries), a).pending
      ensures errors == old(errors) + (if r.Failed? then [r.error] else [])
    {
      if |pending| == 0 {
        r := Report(NothingPending);
        return;
      }
      var top := pending[0].dut;
      assert Represents(pending[0], entries[0]);
      if a.addr - a.addr % 4 != top.addr {
        r := Report(WrongAddress);
        return;
      }
      if a.store != top.store {
        r := Report(WrongKind);
        return;
      }
      var be := LanesFrom(a.addr % 4, |a.bytes|);
      var misaligned := top.misalignedFirst || top.misalignedSecond;
      if misaligned {
        if be * pending[0].beSpike != {} {
          r := Report(SeenTwice);
          return;
        }
        if !(be <= top.be) {
          r := Report(OtherBytes);
          return;
        }
      } else if be != top.be {
        r := Report(WrongBytes);
        return;
      }
      r := RecordBytes(a, be, misaligned);
    }

    /** Notes an error. */
    method Report(e: Error) returns (r: Verdict)
      modifies `errors
      ensures errors == old(errors) + [e] && r == Failed(e)
    {
      errors := errors + [e];
      return Failed(e);
    }

    /** The bytes are as expected. Seen bytes are recorded for misaligned accesses, which may take several
        simulator accesses. */
    method RecordBytes(a: Iss, be: set<nat>, misaligned: bool) returns (r: Verdict)
      requires Valid() && IssValid(a) && pending != [] && be == Lanes(a) && misaligned == Misaligned(pending[0].dut)
      requires !misaligned ==> be == pending[0].dut.be
      modifies this
      ensures Valid()
      ensures var recorded := old(entries)[0 := Entry(old(entries[0].dut), old(entries[0].covered) + [a])];
              var done := !misaligned || old(Seen(entries[0].covered)) + be == old(entries[0].dut.be);
              r == CheckData(recorded, a, done).verdict && entries == CheckData(recorded, a, done).pending
      ensures errors == old(errors) + (if r.Failed? then [r.error] else [])
    {
      var top, done := pending[0].dut, !misaligned;
      assert Represents(pending[0], entries[0]);
      SeenNext(entries[0].covered, a);
      if misaligned {
        pending := pending[0 := Pending(top, pending[0].beSpike + be)];
      }
      entries := entries[0 := Entry(entries[0].dut, entries[0].covered + [a])];
      if misaligned && pending[0].beSpike == top.be {
        done := true;
      }
      r := CompareData(a, done);
    }

    method CompareData(a: Iss, done: bool) returns (r: Verdict)
      requires Valid() && IssValid(a) && pending != []
      modifies this
      ensures Valid()
      ensures r == CheckData(old(entries), a, done).verdict && entries == CheckData(old(entries), a, done).pending
      ensures errors == old(errors) + (if r.Failed? then [r.error] else [])
    {
      var top := pending[0].dut;
      assert Represents(pending[0], entries[0]);
      if a.store || !top.error {
        var expected := ExpectedData(a);
        if expected != MaskedData(top.data, a.addr % 4, |a.bytes|) {
          r := Report(WrongData);
          return;
        }
      }
      var finished := done;
      if top.error && (top.misalignedFirst || top.misalignedSecond) {
        if top.misalignedFirst && 3 in top.be {
          if |pending| < 2 || !pending[1].dut.misalignedSecond {
            assert |entries| >= 2 ==> Represents(pending[1], entries[1]);
            r := Report(NoSecondHalf);
            return;
          }
          assert Represents(pending[1], entries[1]);
          if pending[1].dut.addr != NextWord(top.addr) {
            r := Report(WrongSecondHalf);
            return;
          }
          EraseFront();
        }
        finished := true;
      }
      if finished {
        EraseFront();
      }
      r := if top.error then BusError else Ok;
    }

    method EraseFront()
      requires Valid() && pending != []
      modifies `pending, `entries
      ensures Valid() && entries == old(entries)[1..]
    {
      ghost var pending0, entries0 := pending, entries;
      pending, entries := pending[1..], entries[1..];
      forall i: nat | i < |pending|
        ensures Represents(pending[i], entries[i])
      {
        assert Represents(pending0[i + 1], entries0[i + 1]);
      }
    }

    /** Drops the second half of a misaligned access whose first half saw an error, unless it should not
        have passed the protection check, whose result is `pmpOk`. */
    method MisalignedPmpFixup(pmpOk: bool)
      requires Valid()
      modifies this
      ensures Valid() && entries == Fixup(old(entries), pmpOk)
      ensures errors == old(errors) + (if FixupFails(old(entries), pmpOk) then [SecondNotPermitted] else [])
    {
      if |pending| != 0 {
        assert Represents(pending[0], entries[0]);
        if pending[0].dut.misalignedSecond && pending[0].dut.firstSawError {
          if !pmpOk {
            errors := errors + [SecondNotPermitted];
          } else {
            EraseFront();
          }
        }
      }
    }
  }

  predicate Represents(p: Pending, e: Entry) {
    p.dut == e.dut && (Misaligned(p.dut) ==> p.beSpike == Seen(e.covered))
  }

  lemma SeenNext(covered: seq<Iss>, a: Iss)
    ensures Seen(covered + [a]) == Seen(covered) + Lanes(a)
  {
    assert (covered + [a])[..|covered|] == covered;
  }

  predicate NeedsFixup(pending: seq<Entry>) {
    pending != [] && pending[0].dut.misalignedSecond && pending[0].dut.firstSawError
  }

  function Fixup(pending: seq<Entry>, pmpOk: bool): seq<Entry> {
    if NeedsFixup(pending) && pmpOk then pending[1..] else pending
  }

  predicate FixupFails(pending: seq<Entry>, pmpOk: bool) {
    NeedsFixup(pending) && !pmpOk
  }
}
