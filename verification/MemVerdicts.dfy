/** When a memory check passes, what it answers and what it leaves pending, said without the check. */
module MemVerdicts {
  import opened MemCheck

  /** The lanes of its word that the access touches. */
  predicate Touches(a: Iss, lane: nat) {
    a.addr % 4 <= lane < a.addr % 4 + |a.bytes|
  }

  /** The front access and this one have the same word and kind. */
  predicate SameWord(d: Dut, a: Iss) {
    a.addr / 4 * 4 == d.addr && a.store == d.store
  }

  /** Some simulator access matched earlier has touched the lane. */
  predicate Before(covered: seq<Iss>, lane: nat) {
    exists i :: 0 <= i < |covered| && Touches(covered[i], lane)
  }

  /** An aligned access is met in one go; a half of a misaligned one in parts, each lane once. */
  ghost predicate LanesFit(e: Entry, a: Iss) {
    if e.dut.misalignedFirst || e.dut.misalignedSecond then
      forall lane: nat :: Touches(a, lane) ==> lane in e.dut.be && !Before(e.covered, lane)
    else
      forall lane: nat :: Touches(a, lane) <==> lane in e.dut.be
  }

  /** Byte `i` of the access is in its lane of the word. */
  predicate ByteFits(d: Dut, a: Iss, i: nat)
    requires i < |a.bytes|
  {
    d.data / Pow256(a.addr % 4 + i) % 256 == a.bytes[i]
  }

  /** Nobody looks at what a failing load returns. */
  ghost predicate DataFits(d: Dut, a: Iss) {
    a.store || !d.error ==> forall i: nat :: i < |a.bytes| ==> ByteFits(d, a, i)
  }

  /** The first half of an access over a word boundary saw an error. */
  predicate CrossesWithError(d: Dut) {
    d.error && d.misalignedFirst && 3 in d.be
  }

  predicate SecondHalfThere(pending: seq<Entry>)
    requires pending != []
  {
    |pending| >= 2 && pending[1].dut.misalignedSecond && pending[1].dut.addr == (pending[0].dut.addr + 4) % 0x1_0000_0000
  }

  /** The access is the one the front of the queue is waiting for. */
  ghost predicate Expected(pending: seq<Entry>, a: Iss) {
    && pending != [] && SameWord(pending[0].dut, a) && LanesFit(pending[0], a) && DataFits(pending[0].dut, a)
    && (CrossesWithError(pending[0].dut) ==> SecondHalfThere(pending))
  }

  /** Nothing more will be matched to the front access after this one. */
  ghost predicate Completed(e: Entry, a: Iss) {
    || e.dut.error
    || !(e.dut.misalignedFirst || e.dut.misalignedSecond)
    || forall lane: nat :: lane in e.dut.be <==> Touches(a, lane) || Before(e.covered, lane)
  }

  lemma LanesAre(a: Iss, lane: nat)
    ensures lane in Lanes(a) <==> Touches(a, lane)
  {
  }

  lemma {:induction false} SeenBefore(covered: seq<Iss>, lane: nat)
    ensures lane in Seen(covered) <==> Before(covered, lane)
  {
    if covered != [] {
      var last := |covered| - 1;
      SeenBefore(covered[..last], lane);
      LanesAre(covered[last], lane);
    }
  }

  lemma LanesFitMeans(e: Entry, a: Iss)
    ensures LanesFit(e, a)
       <==> if Misaligned(e.dut) then Lanes(a) * Seen(e.covered) == {} && Lanes(a) <= e.dut.be else Lanes(a) == e.dut.be
  {
    forall lane: nat
      ensures lane in Lanes(a) <==> Touches(a, lane)
      ensures lane in Seen(e.covered) <==> Before(e.covered, lane)
    {
      LanesAre(a, lane);
      SeenBefore(e.covered, lane);
    }
    if Misaligned(e.dut) {
      assert LanesFit(e, a) <==> forall lane: nat :: lane in Lanes(a) ==> lane in e.dut.be && lane !in Seen(e.covered);
      if Lanes(a) * Seen(e.covered) == {} {
        forall lane: nat | lane in Lanes(a)
          ensures lane !in Seen(e.covered)
        {
          assert lane in Seen(e.covered) ==> lane in Lanes(a) * Seen(e.covered);
        }
      }
    }
  }

  lemma DataFitsMeans(d: Dut, a: Iss)
    requires IssValid(a)
    ensures DataFits(d, a) <==> !((a.store || !d.error) && !DataMatches(d, a))
  {
    WordsCompareBytes(d.data, a.addr % 4, a.bytes);
    forall i: nat | i < |a.bytes|
      ensures ByteFits(d, a, i) <==> DataByte(d.data, a.addr % 4 + i) == a.bytes[i]
    {
    }
    if forall i: nat :: i < |a.bytes| ==> ByteFits(d, a, i) {
      forall i: nat | i < |a.bytes|
        ensures DataByte(d.data, a.addr % 4 + i) == a.bytes[i]
      {
        assert ByteFits(d, a, i);
      }
    }
  }

  lemma CompletedMeans(e: Entry, a: Iss)
    requires !e.dut.error && Misaligned(e.dut)
    ensures Completed(e, a) <==> Seen(e.covered) + Lanes(a) == e.dut.be
  {
    forall lane: nat
      ensures lane in Lanes(a) <==> Touches(a, lane)
      ensures lane in Seen(e.covered) <==> Before(e.covered, lane)
    {
      LanesAre(a, lane);
      SeenBefore(e.covered, lane);
    }
    assert Completed(e, a) <==> forall lane: nat :: lane in e.dut.be <==> lane in Seen(e.covered) + Lanes(a);
  }

  /** The check passes exactly for the access the front of the queue is waiting for. */
  lemma CheckPasses(pending: seq<Entry>, a: Iss)
    requires IssValid(a)
    ensures !Check(pending, a).verdict.Failed? <==> Expected(pending, a)
  {
    if pending != [] {
      LanesFitMeans(pending[0], a);
      DataFitsMeans(pending[0].dut, a);
    }
  }

  /** A check that passes answers with a bus error if and only if the front access saw one. It drops that
      access once it is complete, with its second half if an error cut it short, and otherwise remembers
      what it matched. */
  lemma CheckAnswers(pending: seq<Entry>, a: Iss)
    requires IssValid(a) && Expected(pending, a)
    ensures var r := Check(pending, a);
            && r.verdict == (if pending[0].dut.error then BusError else Ok)
            && r.pending == if CrossesWithError(pending[0].dut) then pending[2..]
                            else if Completed(pending[0], a) then pending[1..]
                            else [Entry(pending[0].dut, pending[0].covered + [a])] + pending[1..]
  {
    var e := pending[0];
    CheckPasses(pending, a);
    if !e.dut.error && Misaligned(e.dut) {
      CompletedMeans(e, a);
    }
    var recorded := pending[0 := Entry(e.dut, e.covered + [a])];
    assert recorded == [Entry(e.dut, e.covered + [a])] + pending[1..];
    assert recorded[1..] == pending[1..] && (|pending| >= 2 ==> recorded[2..] == pending[2..]);
  }

  /** A check that fails takes nothing off the queue; at most it has noted the access at the front. */
  lemma CheckKeeps(pending: seq<Entry>, a: Iss)
    requires Check(pending, a).verdict.Failed?
    ensures var r := Check(pending, a).pending;
            r == pending || (pending != [] && r == [Entry(pending[0].dut, pending[0].covered + [a])] + pending[1..])
  {
  }

  /** Some lane of the access has been touched before. */
  ghost predicate Repeats(e: Entry, a: Iss) {
    exists lane: nat :: Touches(a, lane) && Before(e.covered, lane)
  }

  ghost predicate Outside(d: Dut, a: Iss) {
    exists lane: nat :: Touches(a, lane) && lane !in d.be
  }

  /** What a failing check reports: the first thing that is wrong, in this order. */
  ghost function FirstWrong(pending: seq<Entry>, a: Iss): Error {
    if pending == [] then NothingPending
    else
      var e := pending[0];
      if a.addr / 4 * 4 != e.dut.addr then WrongAddress
      else if a.store != e.dut.store then WrongKind
      else if (e.dut.misalignedFirst || e.dut.misalignedSecond) && Repeats(e, a) then SeenTwice
      else if (e.dut.misalignedFirst || e.dut.misalignedSecond) && Outside(e.dut, a) then OtherBytes
      else if !LanesFit(e, a) then WrongBytes
      else if !DataFits(e.dut, a) then WrongData
      else if |pending| >= 2 && pending[1].dut.misalignedSecond then WrongSecondHalf
      else NoSecondHalf
  }

  lemma RepeatsMeans(e: Entry, a: Iss)
    ensures Repeats(e, a) <==> Lanes(a) * Seen(e.covered) != {}
    ensures Outside(e.dut, a) <==> !(Lanes(a) <= e.dut.be)
  {
    forall lane: nat
      ensures lane in Lanes(a) <==> Touches(a, lane)
      ensures lane in Seen(e.covered) <==> Before(e.covered, lane)
    {
      LanesAre(a, lane);
      SeenBefore(e.covered, lane);
    }
    if lane: nat :| Touches(a, lane) && Before(e.covered, lane) {
      assert lane in Lanes(a) * Seen(e.covered);
    }
    if Lanes(a) * Seen(e.covered) != {} {
      var lane :| lane in Lanes(a) * Seen(e.covered);
      assert Touches(a, lane) && Before(e.covered, lane);
    }
    if !(Lanes(a) <= e.dut.be) {
      var lane :| lane in Lanes(a) && lane !in e.dut.be;
      assert Touches(a, lane) && lane !in e.dut.be;
    }
  }

  lemma CheckReports(pending: seq<Entry>, a: Iss)
    requires IssValid(a) && Check(pending, a).verdict.Failed?
    ensures Check(pending, a).verdict.error == FirstWrong(pending, a)
  {
    if pending != [] {
      RepeatsMeans(pending[0], a);
      LanesFitMeans(pending[0], a);
      DataFitsMeans(pending[0].dut, a);
    }
  }

  /** A second half whose first half saw an error is dropped if it passes the protection check, and is an
      error otherwise; nothing else happens. */
  lemma FixupExact(pending: seq<Entry>, pmpOk: bool)
    ensures Fixup(pending, pmpOk)
         == if pending != [] && pending[0].dut.misalignedSecond && pending[0].dut.firstSawError && pmpOk then pending[1..]
            else pending
    ensures FixupFails(pending, pmpOk)
       <==> pending != [] && pending[0].dut.misalignedSecond && pending[0].dut.firstSawError && !pmpOk
  {
  }
}
