/** The free list of address slots: a ring of slot numbers, with one grant and one free in a cycle. */
module FreeLists {
  import opened Options

  /** Ring positions wrap around. The ring size is a power of two, so the pointers do it by themselves. */
  function Wrap(n: nat, x: nat): (r: nat)
    requires x < 2 * n
    ensures r < n
  {
    if x < n then x else x - n
  }

  /** The free slots in the order they will be granted. */
  function Ring(list: seq<nat>, head: nat, count: nat): (r: seq<nat>)
    requires head < |list| && count <= |list|
    ensures |r| == count
  {
    seq(count, i requires 0 <= i < count => list[Wrap(|list|, head + i)])
  }

  /** A free is taken unless the ring is full or its last slot is granted in the same cycle. */
  predicate Takes(n: nat, ring: seq<nat>, granted: bool) {
    |ring| != n && !(granted && |ring| == 1)
  }

  /** What a cycle does to the ring: grants come off the front, frees go on the end. */
  function NextRing(n: nat, ring: seq<nat>, alloc: bool, free: Option<nat>): seq<nat> {
    var granted := alloc && ring != [];
    (if granted then ring[1..] else ring) + (if free.Some? && Takes(n, ring, granted) then [free.value] else [])
  }

  class FreeList {
    const list: array<nat>
    var head: nat
    var tail: nat
    var count: nat

    ghost predicate Valid()
      reads this, list
    {
      && list.Length > 0 && head < list.Length && tail < list.Length && count <= list.Length
      && tail == Wrap(list.Length, head + count)
    }

    ghost function Free(): seq<nat>
      requires Valid()
      reads this, list
    {
      Ring(list[..], head, count)
    }

    /** Reset: the managed slots, in order. */
    constructor (n: nat, base: nat)
      requires n > 0
      ensures Valid() && fresh(list) && list.Length == n && Free() == seq(n, i => base + i)
    {
      list := new nat[n](i => base + i);
      head, tail, count := 0, 0, n;
      new;
      forall i | 0 <= i < n
        ensures Free()[i] == base + i
      {
        assert list[..][Wrap(n, 0 + i)] == list[i];
      }
    }

    /** One clock cycle. All right-hand sides use the values before it. */
    method Cycle(alloc: bool, free: Option<nat>) returns (granted: bool, idx: nat)
      requires Valid()
      modifies this, list
      ensures Valid()
      ensures granted == (alloc && old(Free()) != []) && (granted ==> idx == old(Free())[0])
      ensures Free() == NextRing(list.Length, old(Free()), alloc, free)
    {
      ghost var ring := Free();
      assert count > 0 ==> ring[0] == list[Wrap(list.Length, head + 0)];
      var oldHead, oldTail, oldCount := head, tail, count;
      granted := alloc && oldCount != 0;
      idx := list[oldHead];
      if granted {
        head := if oldHead + 1 == list.Length then 0 else oldHead + 1;
        count := oldCount - 1;
      }
      if free.Some? && oldCount != list.Length {
        if !(granted && oldCount == 1) {
          list[oldTail] := free.value;
          tail := if oldTail + 1 == list.Length then 0 else oldTail + 1;
          count := if granted then oldCount else oldCount + 1;
        }
      }
      CycleDone(old(list[..]), list[..], oldHead, head, oldTail, tail, oldCount, count, alloc, free);
    }
  }

  /** A free is stored. */
  predicate Stored(n: nat, count: nat, granted: bool, free: Option<nat>) {
    free.Some? && count != n && !(granted && count == 1)
  }

  /** The pointers after a cycle. */
  lemma CyclePointers(n: nat, head: nat, head': nat, tail: nat, tail': nat, count: nat, count': nat, granted: bool, stored: bool)
    requires head < n && count <= n && tail == Wrap(n, head + count) && (granted ==> count > 0) && (stored ==> count < n)
    requires head' == if granted then Wrap(n, head + 1) else head
    requires tail' == if stored then Wrap(n, tail + 1) else tail
    requires count' == count - (if granted then 1 else 0) + (if stored then 1 else 0)
    ensures tail' == Wrap(n, head' + count')
  {
  }

  /** The ring and the pointers after a cycle. */
  lemma CycleDone(before: seq<nat>, after: seq<nat>, head: nat, head': nat, tail: nat, tail': nat, count: nat, count': nat,
                  alloc: bool, free: Option<nat>)
    requires |before| == |after| > 0 && head < |before| && count <= |before| && tail == Wrap(|before|, head + count)
    requires head' == if alloc && count != 0 then Wrap(|before|, head + 1) else head
    requires var stored := Stored(|before|, count, alloc && count != 0, free);
             && tail' == (if stored then Wrap(|before|, tail + 1) else tail)
             && count' == count - (if alloc && count != 0 then 1 else 0) + (if stored then 1 else 0)
             && after == if stored then before[tail := free.value] else before
    ensures tail' == Wrap(|before|, head' + count')
    ensures Ring(after, head', count') == NextRing(|before|, Ring(before, head, count), alloc, free)
  {
    CyclePointers(|before|, head, head', tail, tail', count, count', alloc && count != 0,
                  Stored(|before|, count, alloc && count != 0, free));
    CycleRing(before, after, head, head', count, alloc && count != 0, free);
  }

  /** The ring after a cycle, from the memory and the pointers. */
  lemma CycleRing(before: seq<nat>, after: seq<nat>, head: nat, head': nat, count: nat, granted: bool, free: Option<nat>)
    requires |before| == |after| > 0 && head < |before| && count <= |before| && (granted ==> count > 0)
    requires head' == if granted then Wrap(|before|, head + 1) else head
    requires after == if Stored(|before|, count, granted, free) then before[Wrap(|before|, head + count) := free.value]
                      else before
    ensures var stored := Stored(|before|, count, granted, free);
            var ring := Ring(before, head, count);
            Ring(after, head', count - (if granted then 1 else 0) + (if stored then 1 else 0))
              == (if granted then ring[1..] else ring) + (if stored then [free.value] else [])
  {
    var stored := Stored(|before|, count, granted, free);
    var ring := Ring(before, head, count);
    var count' := count - (if granted then 1 else 0) + (if stored then 1 else 0);
    var left := if granted then ring[1..] else ring;
    var ring' := left + (if stored then [free.value] else []);
    var shift := if granted then 1 else 0;
    forall i | 0 <= i < count'
      ensures Ring(after, head', count')[i] == ring'[i]
    {
      assert Wrap(|before|, head' + i) == Wrap(|before|, head + shift + i) || head + shift + i >= 2 * |before|;
    }
  }

  // ---------------------------------------------------------------------------------------------
  // Runs

  /** One cycle as a client sees it. */
  datatype Event = Event(alloc: bool, free: Option<nat>)

  /** The ring with what clients hold and what has been dropped. */
  datatype State = State(ring: seq<nat>, held: set<nat>, dropped: set<nat>)

  function Step(n: nat, s: State, e: Event): State {
    var granted := e.alloc && s.ring != [];
    var held := if e.free.Some? then s.held - {e.free.value} else s.held;
    State(NextRing(n, s.ring, e.alloc, e.free),
          if granted then held + {s.ring[0]} else held,
          if e.free.Some? && !Takes(n, s.ring, granted) then s.dropped + {e.free.value} else s.dropped)
  }

  function Reset(base: nat, n: nat): State {
    State(seq(n, i => base + i), {}, {})
  }

  function After(base: nat, n: nat, events: seq<Event>): State {
    if events == [] then Reset(base, n)
    else Step(n, After(base, n, events[..|events| - 1]), events[|events| - 1])
  }

  /** Clients free only slots they hold. */
  ghost predicate Proper(base: nat, n: nat, events: seq<Event>) {
    events == [] || (Proper(base, n, events[..|events| - 1])
      && Frees(After(base, n, events[..|events| - 1]), events[|events| - 1]))
  }

  predicate Frees(s: State, e: Event) {
    e.free.Some? ==> e.free.value in s.held
  }

  function Count(ring: seq<nat>, x: nat): nat {
    if ring == [] then 0 else (if ring[0] == x then 1 else 0) + Count(ring[1..], x)
  }

  /** In how many places slot `x` is. */
  function Places(s: State, x: nat): nat {
    Count(s.ring, x) + (if x in s.held then 1 else 0) + (if x in s.dropped then 1 else 0)
  }

  /** Every managed slot is in exactly one place, and no other slot is anywhere. */
  ghost predicate Partition(base: nat, n: nat, s: State) {
    forall x: nat :: Places(s, x) == if base <= x < base + n then 1 else 0
  }

  lemma {:induction false} CountAppend(ring: seq<nat>, y: nat, x: nat)
    ensures Count(ring + [y], x) == Count(ring, x) + (if x == y then 1 else 0)
  {
    if ring != [] {
      CountAppend(ring[1..], y, x);
      assert (ring + [y])[1..] == ring[1..] + [y];
    } else {
      assert (ring + [y])[1..] == [];
    }
  }

  /** A cycle leaves every slot in as many places as before. */
  lemma PlacesKept(base: nat, n: nat, s: State, e: Event, x: nat)
    requires Partition(base, n, s) && Frees(s, e)
    ensures Places(Step(n, s, e), x) == Places(s, x)
  {
    var granted := e.alloc && s.ring != [];
    var left := if granted then s.ring[1..] else s.ring;
    if granted {
      assert Places(s, s.ring[0]) <= 1;
    }
    if e.free.Some? {
      assert Places(s, e.free.value) <= 1;
      CountAppend(left, e.free.value, x);
    }
    assert left + [] == left;
  }

  lemma StepKeeps(base: nat, n: nat, s: State, e: Event)
    requires Partition(base, n, s) && Frees(s, e)
    ensures Partition(base, n, Step(n, s, e))
  {
    forall x: nat
      ensures Places(Step(n, s, e), x) == if base <= x < base + n then 1 else 0
    {
      PlacesKept(base, n, s, e, x);
    }
  }

  lemma {:induction false} CountRange(base: nat, n: nat, x: nat)
    ensures Count(seq(n, i => base + i), x) == if base <= x < base + n then 1 else 0
    decreases n
  {
    if n > 0 {
      CountRange(base + 1, n - 1, x);
      assert seq(n, i => base + i)[1..] == seq(n - 1, i => base + 1 + i);
    }
  }

  /** Over any run in which clients free only what they hold, every managed slot is free, held or dropped,
      and only one of these. */
  lemma {:induction false} RunKeeps(base: nat, n: nat, events: seq<Event>)
    requires Proper(base, n, events)
    ensures Partition(base, n, After(base, n, events))
  {
    if events == [] {
      forall x: nat
        ensures Places(Reset(base, n), x) == if base <= x < base + n then 1 else 0
      {
        CountRange(base, n, x);
      }
    } else {
      RunKeeps(base, n, events[..|events| - 1]);
      StepKeeps(base, n, After(base, n, events[..|events| - 1]), events[|events| - 1]);
    }
  }

  lemma {:induction false} Listed(ring: seq<nat>, x: nat)
    ensures Count(ring, x) > 0 <==> x in ring
  {
    if ring != [] {
      Listed(ring[1..], x);
      assert ring == [ring[0]] + ring[1..];
    }
  }

  /** The managed slots below `base + n` that are free, held or dropped. */
  function FreeBelow(s: State, base: nat, n: nat): nat {
    if n == 0 then 0 else FreeBelow(s, base, n - 1) + Count(s.ring, base + n - 1)
  }

  function KeptBelow(s: State, base: nat, n: nat): nat {
    if n == 0 then 0
    else KeptBelow(s, base, n - 1) + (if base + n - 1 in s.held + s.dropped then 1 else 0)
  }

  /** The pool is conserved: free slots and those held or dropped add up to all of them. */
  lemma {:induction false} Conserved(base: nat, n: nat, s: State, m: nat)
    requires Partition(base, n, s) && m <= n
    ensures FreeBelow(s, base, m) + KeptBelow(s, base, m) == m
  {
    if m > 0 {
      Conserved(base, n, s, m - 1);
      assert Places(s, base + m - 1) == 1;
    }
  }

  /** All entries of the ring are managed slots, so counting slot by slot counts the ring. */
  lemma {:induction false} RingCounted(ring: seq<nat>, base: nat, n: nat)
    requires forall i :: 0 <= i < |ring| ==> base <= ring[i] < base + n
    ensures CountBelow(ring, base, n) == |ring|
  {
    if ring == [] {
      CountNone(base, n);
    } else {
      RingCounted(ring[1..], base, n);
      CountFront(ring, base, n);
    }
  }

  function CountBelow(ring: seq<nat>, base: nat, n: nat): nat {
    if n == 0 then 0 else CountBelow(ring, base, n - 1) + Count(ring, base + n - 1)
  }

  lemma {:induction false} CountNone(base: nat, n: nat)
    ensures CountBelow([], base, n) == 0
  {
    if n > 0 {
      CountNone(base, n - 1);
    }
  }

  lemma {:induction false} CountFront(ring: seq<nat>, base: nat, n: nat)
    requires ring != []
    ensures CountBelow(ring, base, n) == CountBelow(ring[1..], base, n) + (if base <= ring[0] < base + n then 1 else 0)
  {
    if n > 0 {
      CountFront(ring, base, n - 1);
    }
  }

  lemma {:induction false} SameCount(s: State, base: nat, n: nat)
    ensures FreeBelow(s, base, n) == CountBelow(s.ring, base, n)
  {
    if n > 0 {
      SameCount(s, base, n - 1);
    }
  }

  lemma {:induction false} NothingKept(s: State, base: nat, n: nat, x: nat)
    requires KeptBelow(s, base, n) == 0 && base <= x < base + n
    ensures x !in s.held
  {
    if x < base + n - 1 {
      NothingKept(s, base, n - 1, x);
    }
  }

  /** The length of the ring is what is neither held nor dropped. */
  lemma RingLength(base: nat, n: nat, s: State)
    requires Partition(base, n, s)
    ensures |s.ring| + KeptBelow(s, base, n) == n
  {
    forall i | 0 <= i < |s.ring|
      ensures base <= s.ring[i] < base + n
    {
      Listed(s.ring, s.ring[i]);
      assert Places(s, s.ring[i]) > 0;
    }
    RingCounted(s.ring, base, n);
    SameCount(s, base, n);
    Conserved(base, n, s, n);
  }

  /** Safety: a slot that is granted is not held by anyone and has not been dropped, and the ring lacks
      exactly the slots held or dropped. */
  lemma GrantsAreSafe(base: nat, n: nat, events: seq<Event>)
    requires Proper(base, n, events) && After(base, n, events).ring != []
    ensures var s := After(base, n, events);
            && s.ring[0] !in s.held && s.ring[0] !in s.dropped && base <= s.ring[0] < base + n
            && |s.ring| + KeptBelow(s, base, n) == n
  {
    RunKeeps(base, n, events);
    var s := After(base, n, events);
    RingLength(base, n, s);
    assert Places(s, s.ring[0]) > 0;
  }

  /** A free is dropped exactly when the last free slot is granted in the same cycle: with a slot held the
      ring cannot be full. */
  lemma DropsExactly(base: nat, n: nat, events: seq<Event>, e: Event)
    requires Proper(base, n, events) && Frees(After(base, n, events), e) && e.free.Some?
    ensures var s := After(base, n, events);
            e.free.value in Step(n, s, e).dropped <==> e.alloc && |s.ring| == 1
  {
    RunKeeps(base, n, events);
    var s := After(base, n, events);
    RingLength(base, n, s);
    assert Places(s, e.free.value) == 1;
    if KeptBelow(s, base, n) == 0 {
      NothingKept(s, base, n, e.free.value);
    }
  }

  // ---------------------------------------------------------------------------------------------
  // First in, first out

  /** The slot granted in a cycle, if any. */
  function Grant(s: State, e: Event): seq<nat> {
    if e.alloc && |s.ring| > 0 then [s.ring[0]] else []
  }

  /** The slot freed in a cycle, unless the ring is full or its last slot is granted. */
  function Return(n: nat, s: State, e: Event): seq<nat> {
    if e.free.Some? && |s.ring| != n && !(e.alloc && |s.ring| == 1) then [e.free.value] else []
  }

  /** The slots granted in a run, in order. */
  function Grants(base: nat, n: nat, events: seq<Event>): seq<nat> {
    if events == [] then []
    else
      var before := events[..|events| - 1];
      Grants(base, n, before) + Grant(After(base, n, before), events[|events| - 1])
  }

  /** The slots that came back in a run, in order. */
  function Returns(base: nat, n: nat, events: seq<Event>): seq<nat> {
    if events == [] then []
    else
      var before := events[..|events| - 1];
      Returns(base, n, before) + Return(n, After(base, n, before), events[|events| - 1])
  }

  lemma CycleQueue(n: nat, s: State, e: Event)
    ensures s.ring + Return(n, s, e) == Grant(s, e) + Step(n, s, e).ring
  {
  }

  lemma QueueStep(grants: seq<nat>, ring: seq<nat>, start: seq<nat>, returned: seq<nat>, g: seq<nat>, ring': seq<nat>, r: seq<nat>)
    requires grants + ring == start + returned && ring + r == g + ring'
    ensures (grants + g) + ring' == start + (returned + r)
  {
    calc {
      (grants + g) + ring';
      grants + (g + ring');
      grants + (ring + r);
      (grants + ring) + r;
      (start + returned) + r;
      start + (returned + r);
    }
  }

  lemma {:induction false} QueueKept(base: nat, n: nat, events: seq<Event>)
    ensures Grants(base, n, events) + After(base, n, events).ring == Reset(base, n).ring + Returns(base, n, events)
  {
    if events == [] {
      assert Reset(base, n).ring + [] == Reset(base, n).ring;
    } else {
      var before, e := events[..|events| - 1], events[|events| - 1];
      QueueKept(base, n, before);
      var s := After(base, n, before);
      CycleQueue(n, s, e);
      QueueStep(Grants(base, n, before), s.ring, Reset(base, n).ring, Returns(base, n, before), Grant(s, e),
                Step(n, s, e).ring, Return(n, s, e));
    }
  }

  /** Slots are granted in the order in which they came: those of reset first, in order, then the freed
      ones as they were returned; what has not been granted is in the ring, in the same order. */
  lemma FirstInFirstOut(base: nat, n: nat, events: seq<Event>)
    ensures var queue := Grants(base, n, events) + After(base, n, events).ring;
            |queue| == n + |Returns(base, n, events)| && queue[n..] == Returns(base, n, events)
    ensures forall i :: 0 <= i < n ==> (Grants(base, n, events) + After(base, n, events).ring)[i] == base + i
  {
    QueueKept(base, n, events);
  }
}
