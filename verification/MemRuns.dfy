/** What a run of memory checks without failures says about the accesses of the design under test. */
module MemRuns {
  import opened MemCheck

  /** Something the test bench does: report an access, check one of the simulator's, or drop the front
      access on a trap (`fixup` with the result of the protection check, or unconditionally). */
  datatype Event = Notify(d: Dut) | Access(a: Iss) | TrapFixup(pmpOk: bool) | Drop

  /** An access no longer pending: finished by a check, or dropped. */
  datatype Finished = Finished(entry: Entry, matched: bool)

  datatype State = State(pending: seq<Entry>, finished: seq<Finished>)

  /** The front access is finished by the check; one behind it is dropped. */
  function Mark(entries: seq<Entry>): seq<Finished> {
    seq(|entries|, i requires 0 <= i < |entries| => Finished(entries[i], i == 0))
  }

  function Step(s: State, e: Event): State {
    match e
    case Notify(d) => State(s.pending + [Entry(d, [])], s.finished)
    case Access(a) => State(Check(s.pending, a).pending, s.finished + Mark(Check(s.pending, a).finished))
    case TrapFixup(pmpOk) =>
      if NeedsFixup(s.pending) && pmpOk then DropFront(s) else s
    case Drop => if s.pending == [] then s else DropFront(s)
  }

  function DropFront(s: State): State
    requires s.pending != []
  {
    State(s.pending[1..], s.finished + [Finished(s.pending[0], false)])
  }

  function After(events: seq<Event>): State {
    if events == [] then State([], []) else Step(After(events[..|events| - 1]), events[|events| - 1])
  }

  /** Accesses are well formed and no check fails. */
  ghost predicate Passes(events: seq<Event>) {
    events == [] || (Passes(events[..|events| - 1]) && StepPasses(After(events[..|events| - 1]), events[|events| - 1]))
  }

  predicate StepPasses(s: State, e: Event) {
    e.Access? ==> IssValid(e.a) && !Check(s.pending, e.a).verdict.Failed?
  }

  // ---------------------------------------------------------------------------------------------
  // The invariant

  /** Simulator access `k` matched to an entry: same kind, same word, bytes the design accessed and no
      earlier one has covered, and the design's data unless it is a load that saw an error. */
  predicate Matches(e: Entry, k: nat)
    requires k < |e.covered|
  {
    var a := e.covered[k];
    && IssValid(a) && a.store == e.dut.store && a.addr - a.addr % 4 == e.dut.addr
    && Lanes(a) <= e.dut.be && Lanes(a) * Seen(e.covered[..k]) == {}
    && (a.store || !e.dut.error ==> DataMatches(e.dut, a))
  }

  ghost predicate EntryOk(e: Entry) {
    forall k: nat :: k < |e.covered| ==> Matches(e, k)
  }

  /** Only the front has been seen in part, and then not all of it. */
  ghost predicate PendingOk(pending: seq<Entry>) {
    && (forall i: nat :: 0 < i < |pending| ==> pending[i].covered == [])
    && (pending != [] ==> EntryOk(pending[0]))
    && (pending != [] && pending[0].covered != [] ==>
          Misaligned(pending[0].dut) && Seen(pending[0].covered) < pending[0].dut.be)
  }

  /** A finished access that saw no error is covered completely. */
  ghost predicate FinishedOk(f: Finished) {
    EntryOk(f.entry) && (f.matched && !f.entry.dut.error ==> Seen(f.entry.covered) == f.entry.dut.be)
  }

  ghost predicate Inv(s: State) {
    PendingOk(s.pending) && forall i: nat :: i < |s.finished| ==> FinishedOk(s.finished[i])
  }

  lemma MatchAdded(e: Entry, a: Iss)
    requires EntryOk(e) && IssValid(a) && a.store == e.dut.store && a.addr - a.addr % 4 == e.dut.addr
    requires Lanes(a) <= e.dut.be && Lanes(a) * Seen(e.covered) == {}
    requires a.store || !e.dut.error ==> DataMatches(e.dut, a)
    ensures EntryOk(Entry(e.dut, e.covered + [a]))
    ensures Seen(e.covered + [a]) == Seen(e.covered) + Lanes(a)
  {
    var e' := Entry(e.dut, e.covered + [a]);
    SeenNext(e.covered, a);
    forall k: nat | k < |e'.covered|
      ensures Matches(e', k)
    {
      if k < |e.covered| {
        assert Matches(e, k);
        assert e'.covered[..k] == e.covered[..k];
      } else {
        assert e'.covered[..k] == e.covered;
      }
    }
  }

  lemma EmptyOk(e: Entry)
    requires e.covered == []
    ensures EntryOk(e)
  {
  }

  lemma FrontDropped(pending: seq<Entry>)
    requires pending != [] && forall i: nat :: 0 < i < |pending| ==> pending[i].covered == []
    ensures PendingOk(pending[1..])
  {
    if |pending| > 1 {
      assert pending[1..][0] == pending[1];
      EmptyOk(pending[1]);
    }
  }

  /** A check that does not fail keeps the front a well-matched entry. */
  lemma CheckMatches(pending: seq<Entry>, a: Iss)
    requires PendingOk(pending) && IssValid(a) && !Check(pending, a).verdict.Failed?
    ensures pending != []
    ensures var recorded := Entry(pending[0].dut, pending[0].covered + [a]);
            && EntryOk(recorded) && Seen(recorded.covered) <= recorded.dut.be
            && (!Misaligned(recorded.dut) ==> Seen(recorded.covered) == recorded.dut.be)
  {
    var top := pending[0];
    if !Misaligned(top.dut) {
      assert top.covered == [];
    }
    MatchAdded(top, a);
  }

  lemma CheckKeepsPending(pending: seq<Entry>, a: Iss)
    requires PendingOk(pending) && IssValid(a) && !Check(pending, a).verdict.Failed?
    ensures PendingOk(Check(pending, a).pending)
    ensures forall i: nat :: i < |Check(pending, a).finished| ==> FinishedOk(Mark(Check(pending, a).finished)[i])
  {
    CheckMatches(pending, a);
    var e := Entry(pending[0].dut, pending[0].covered + [a]);
    var recorded := pending[0 := e];
    var out := Check(pending, a);
    SeenNext(pending[0].covered, a);
    if |out.finished| == 2 {
      assert out.pending == recorded[1..][1..];
      EmptyOk(recorded[1]);
      FrontDropped(recorded);
      FrontDropped(recorded[1..]);
    } else if |out.finished| == 1 {
      FrontDropped(recorded);
    }
  }

  lemma StepInv(s: State, e: Event)
    requires Inv(s) && StepPasses(s, e)
    ensures Inv(Step(s, e))
  {
    match e
    case Notify(d) =>
      EmptyOk(Entry(d, []));
      var pending := s.pending + [Entry(d, [])];
      assert forall i: nat :: 0 < i < |pending| ==> pending[i].covered == [];
    case Access(a) =>
      CheckKeepsPending(s.pending, a);
      var more := Mark(Check(s.pending, a).finished);
      forall i: nat | i < |s.finished + more|
        ensures FinishedOk((s.finished + more)[i])
      {
        if i >= |s.finished| {
          assert FinishedOk(more[i - |s.finished|]);
        }
      }
    case TrapFixup(pmpOk) =>
      if NeedsFixup(s.pending) && pmpOk {
        DropInv(s);
      }
    case Drop =>
      if s.pending != [] {
        DropInv(s);
      }
  }

  lemma DropInv(s: State)
    requires Inv(s) && s.pending != []
    ensures Inv(DropFront(s))
  {
    FrontDropped(s.pending);
    assert FinishedOk(Finished(s.pending[0], false));
  }

  /** The invariant holds after any run without failures. */
  lemma {:induction false} RunInv(events: seq<Event>)
    requires Passes(events)
    ensures Inv(After(events))
  {
    if events != [] {
      RunInv(events[..|events| - 1]);
      StepInv(After(events[..|events| - 1]), events[|events| - 1]);
    }
  }

  // ---------------------------------------------------------------------------------------------
  // What it means for the bytes

  /** A byte of the design's access agrees with the simulator access `k`. */
  predicate ByteAgrees(e: Entry, lane: nat, k: nat)
    requires k < |e.covered|
  {
    var a := e.covered[k];
    && lane in Lanes(a) && lane - a.addr % 4 < |a.bytes|
    && a.bytes[lane - a.addr % 4] == DataByte(e.dut.data, lane)
  }

  lemma {:induction false} SeenBy(covered: seq<Iss>, lane: nat) returns (k: nat)
    requires lane in Seen(covered)
    ensures k < |covered| && lane in Lanes(covered[k])
  {
    var last := |covered| - 1;
    if lane in Lanes(covered[last]) {
      k := last;
    } else {
      k := SeenBy(covered[..last], lane);
    }
  }

  lemma {:induction false} SeenIncludes(covered: seq<Iss>, lane: nat, k: nat)
    requires k < |covered| && lane in Lanes(covered[k])
    ensures lane in Seen(covered)
  {
    if k < |covered| - 1 {
      SeenIncludes(covered[..|covered| - 1], lane, k);
    }
  }

  /** No byte is covered twice. */
  lemma CoveredOnce(e: Entry, lane: nat, j: nat, k: nat)
    requires EntryOk(e) && j < k < |e.covered| && lane in Lanes(e.covered[j])
    ensures lane !in Lanes(e.covered[k])
  {
    assert Matches(e, k);
    SeenIncludes(e.covered[..k], lane, j);
  }

  /** Memory checks are sound: after any run without failures, every byte of every access of the design
      that finished without an error was checked against exactly one simulator access, of the same kind and
      to the same word, and had the same value. */
  lemma ChecksAreSound(events: seq<Event>, i: nat, lane: nat) returns (k: nat)
    requires Passes(events) && i < |After(events).finished|
    requires var f := After(events).finished[i]; f.matched && !f.entry.dut.error && lane in f.entry.dut.be
    ensures var e := After(events).finished[i].entry;
            && k < |e.covered| && ByteAgrees(e, lane, k)
            && e.covered[k].store == e.dut.store && e.covered[k].addr - e.covered[k].addr % 4 == e.dut.addr
            && forall j: nat :: j < |e.covered| && lane in Lanes(e.covered[j]) ==> j == k
  {
    RunInv(events);
    var e := After(events).finished[i].entry;
    assert FinishedOk(After(events).finished[i]);
    k := SeenBy(e.covered, lane);
    assert Matches(e, k);
    MatchedByte(e, lane, k);
    OnlyCover(e, lane, k);
  }

  lemma MatchedByte(e: Entry, lane: nat, k: nat)
    requires k < |e.covered| && Matches(e, k) && lane in Lanes(e.covered[k]) && !e.dut.error
    ensures ByteAgrees(e, lane, k)
  {
    var a := e.covered[k];
    WordsCompareBytes(e.dut.data, a.addr % 4, a.bytes);
    assert DataByte(e.dut.data, a.addr % 4 + (lane - a.addr % 4)) == a.bytes[lane - a.addr % 4];
  }

  lemma OnlyCover(e: Entry, lane: nat, k: nat)
    requires EntryOk(e) && k < |e.covered| && lane in Lanes(e.covered[k])
    ensures forall j: nat :: j < |e.covered| && lane in Lanes(e.covered[j]) ==> j == k
  {
    forall j: nat | j < |e.covered| && lane in Lanes(e.covered[j])
      ensures j == k
    {
      if j < k {
        CoveredOnce(e, lane, j, k);
      } else if k < j {
        CoveredOnce(e, lane, k, j);
      }
    }
  }

  // ---------------------------------------------------------------------------------------------
  // Nothing is lost

  function Notified(events: seq<Event>): seq<Dut> {
    if events == [] then []
    else Notified(events[..|events| - 1]) + (match events[|events| - 1] case Notify(d) => [d] case _ => [])
  }

  function Checked(events: seq<Event>): seq<Iss> {
    if events == [] then []
    else Checked(events[..|events| - 1]) + (match events[|events| - 1] case Access(a) => [a] case _ => [])
  }

  function Duts(entries: seq<Entry>): seq<Dut> {
    seq(|entries|, i requires 0 <= i < |entries| => entries[i].dut)
  }

  function Entries(finished: seq<Finished>): seq<Entry> {
    seq(|finished|, i requires 0 <= i < |finished| => finished[i].entry)
  }

  function Covers(entries: seq<Entry>): seq<Iss> {
    if entries == [] then [] else Covers(entries[..|entries| - 1]) + entries[|entries| - 1].covered
  }

  /** All entries in the order the design made the accesses. */
  function All(s: State): seq<Entry> {
    Entries(s.finished) + s.pending
  }

  lemma {:induction false} CoversAppend(x: seq<Entry>, y: seq<Entry>)
    ensures Covers(x + y) == Covers(x) + Covers(y)
  {
    if y == [] {
      assert x + y == x;
    } else {
      var last := |y| - 1;
      CoversAppend(x, y[..last]);
      assert (x + y)[..|x + y| - 1] == x + y[..last] && (x + y)[|x + y| - 1] == y[last];
      assert Covers(x + y) == (Covers(x) + Covers(y[..last])) + y[last].covered;
    }
  }

  lemma {:induction false} CoversNone(x: seq<Entry>)
    requires forall i: nat :: i < |x| ==> x[i].covered == []
    ensures Covers(x) == []
  {
    if x != [] {
      CoversNone(x[..|x| - 1]);
    }
  }

  /** A check only adds to the front entry, and splits the entries into finished and pending. */
  lemma CheckSplits(pending: seq<Entry>, a: Iss)
    requires PendingOk(pending) && IssValid(a) && !Check(pending, a).verdict.Failed?
    ensures pending != []
    ensures Check(pending, a).finished + Check(pending, a).pending
         == pending[0 := Entry(pending[0].dut, pending[0].covered + [a])]
  {
    CheckMatches(pending, a);
  }

  lemma MarkedEntries(finished: seq<Finished>, more: seq<Entry>)
    ensures Entries(finished + Mark(more)) == Entries(finished) + more
  {
  }

  lemma CheckAll(s: State, a: Iss)
    requires Inv(s) && IssValid(a) && !Check(s.pending, a).verdict.Failed?
    ensures s.pending != []
    ensures All(Step(s, Access(a))) == Entries(s.finished) + s.pending[0 := Entry(s.pending[0].dut, s.pending[0].covered + [a])]
  {
    CheckSplits(s.pending, a);
    var out := Check(s.pending, a);
    MarkedEntries(s.finished, out.finished);
    assert All(Step(s, Access(a))) == (Entries(s.finished) + out.finished) + out.pending;
  }

  lemma CheckCovers(done: seq<Entry>, pending: seq<Entry>, a: Iss)
    requires pending != [] && forall i: nat :: 0 < i < |pending| ==> pending[i].covered == []
    ensures Covers(done + pending[0 := Entry(pending[0].dut, pending[0].covered + [a])]) == Covers(done + pending) + [a]
    ensures Duts(done + pending[0 := Entry(pending[0].dut, pending[0].covered + [a])]) == Duts(done + pending)
  {
    var e := Entry(pending[0].dut, pending[0].covered + [a]);
    FrontCovers(done, pending);
    FrontCovers(done, pending[0 := e]);
  }

  /** Behind the front nothing is covered. */
  lemma FrontCovers(done: seq<Entry>, pending: seq<Entry>)
    requires pending != [] && forall i: nat :: 0 < i < |pending| ==> pending[i].covered == []
    ensures Covers(done + pending) == Covers(done) + pending[0].covered
  {
    CoversNone(pending[1..]);
    assert pending == [pending[0]] + pending[1..];
    CoversAppend([pending[0]], pending[1..]);
    CoversAppend(done, pending);
    OneCover(pending[0]);
  }

  lemma OneCover(e: Entry)
    ensures Covers([e]) == e.covered
  {
    assert [e][..0] == [];
  }

  lemma StepAll(s: State, e: Event)
    requires Inv(s) && StepPasses(s, e)
    ensures Duts(All(Step(s, e))) == Duts(All(s)) + (match e case Notify(d) => [d] case _ => [])
    ensures Covers(All(Step(s, e))) == Covers(All(s)) + (match e case Access(a) => [a] case _ => [])
  {
    match e
    case Notify(d) =>
      assert All(Step(s, e)) == All(s) + [Entry(d, [])];
      CoversAppend(All(s), [Entry(d, [])]);
      OneCover(Entry(d, []));
    case Access(a) =>
      CheckAll(s, a);
      CheckCovers(Entries(s.finished), s.pending, a);
    case TrapFixup(pmpOk) =>
      if NeedsFixup(s.pending) && pmpOk {
        DropAll(s);
      }
    case Drop =>
      if s.pending != [] {
        DropAll(s);
      }
  }

  lemma DropAll(s: State)
    requires s.pending != []
    ensures All(DropFront(s)) == All(s)
  {
    assert Entries(s.finished + [Finished(s.pending[0], false)]) == Entries(s.finished) + [s.pending[0]];
  }

  /** Nothing is lost, reordered or counted twice: finished and pending accesses together are the notified
      ones in order, and the simulator accesses matched to them are the checked ones in order. */
  lemma {:induction false} NothingLost(events: seq<Event>)
    requires Passes(events)
    ensures Duts(All(After(events))) == Notified(events) && Covers(All(After(events))) == Checked(events)
  {
    if events != [] {
      var before := events[..|events| - 1];
      NothingLost(before);
      RunInv(before);
      StepAll(After(before), events[|events| - 1]);
    }
  }
}
