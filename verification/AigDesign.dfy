/** A flattened design as the AIGER writer sees it after sorting its cells into tables, what a run of it
    is, and which of its bits can be compiled at all. */
module AigDesign {

  datatype Bit = Zero | One | Unknown | Wire(id: nat)

  datatype FlipFlop = FlipFlop(q: Bit, d: Bit)

  /** An `$assert`, `$assume`, `$live` or `$fair` cell. */
  datatype Check = Check(a: Bit, en: Bit)

  /** The tables of the writer, fixed once the cells have been sorted into them. The order of the
      sequences is the iteration order of the source's pools and dictionaries. `tied` holds the output
      bits that are connected to a constant. */
  class Design {
    const nots: map<Bit, Bit>
    const ands: map<Bit, (Bit, Bit)>
    const aliases: map<Bit, Bit>
    const initstate: set<Bit>
    const tied: map<Bit, bool>
    const inputs: seq<Bit>
    const ffs: seq<FlipFlop>
    const init: map<Bit, bool>
    const outputs: seq<Bit>
    const asserts: seq<Check>
    const assumes: seq<Check>
    const lives: seq<Check>
    const fairs: seq<Check>
    /** The inputs and the flip-flop outputs. */
    const free: set<Bit>

    constructor (nots: map<Bit, Bit>, ands: map<Bit, (Bit, Bit)>, aliases: map<Bit, Bit>, initstate: set<Bit>,
                 tied: map<Bit, bool>, inputs: seq<Bit>, ffs: seq<FlipFlop>, init: map<Bit, bool>,
                 outputs: seq<Bit>, asserts: seq<Check>, assumes: seq<Check>, lives: seq<Check>, fairs: seq<Check>)
      ensures this.nots == nots && this.ands == ands && this.aliases == aliases && this.initstate == initstate
      ensures this.tied == tied && this.inputs == inputs && this.ffs == ffs && this.init == init
      ensures this.outputs == outputs && this.asserts == asserts && this.assumes == assumes
      ensures this.lives == lives && this.fairs == fairs
      ensures free == (set b | b in inputs) + (set f | f in ffs :: f.q)
    {
      this.nots, this.ands, this.aliases, this.initstate := nots, ands, aliases, initstate;
      this.tied, this.inputs, this.ffs, this.init := tied, inputs, ffs, init;
      this.outputs, this.asserts, this.assumes, this.lives, this.fairs := outputs, asserts, assumes, lives, fairs;
      this.free := (set b | b in inputs) + (set f | f in ffs :: f.q);
    }
  }

  /** Inputs and flip-flop outputs are distinct wires. */
  ghost predicate Wf(d: Design) {
    && d.free == (set b | b in d.inputs) + (set f | f in d.ffs :: f.q)
    && (forall i :: 0 <= i < |d.inputs| ==> d.inputs[i].Wire? && d.inputs[i] !in d.tied)
    && DistinctInputs(d, |d.inputs|)
    && (forall i :: 0 <= i < |d.ffs| ==> d.ffs[i].q.Wire? && d.ffs[i].q !in d.tied && d.ffs[i].q !in d.inputs)
    && DistinctQs(d, |d.ffs|)
    && (forall b :: b in d.tied ==> b.Wire?)
  }

  ghost predicate DistinctInputs(d: Design, n: nat)
    requires n <= |d.inputs|
  {
    n == 0 || (DistinctInputs(d, n - 1) && forall k :: 0 <= k < n - 1 ==> d.inputs[k] != d.inputs[n - 1])
  }

  ghost predicate DistinctQs(d: Design, n: nat)
    requires n <= |d.ffs|
  {
    n == 0 || (DistinctQs(d, n - 1) && forall k :: 0 <= k < n - 1 ==> d.ffs[k].q != d.ffs[n - 1].q)
  }

  lemma {:induction false} InputsDiffer(d: Design, n: nat, i: nat, j: nat)
    requires i < j < n <= |d.inputs| && DistinctInputs(d, n)
    ensures d.inputs[i] != d.inputs[j]
  {
    if j < n - 1 {
      InputsDiffer(d, n - 1, i, j);
    }
  }

  lemma {:induction false} QsDiffer(d: Design, n: nat, i: nat, j: nat)
    requires i < j < n <= |d.ffs| && DistinctQs(d, n)
    ensures d.ffs[i].q != d.ffs[j].q
  {
    if j < n - 1 {
      QsDiffer(d, n - 1, i, j);
    }
  }

  /** What drives a bit. */
  datatype Driver =
    | Constant(value: bool) | Free
    | Inverter(a: Bit) | Conjunction(a0: Bit, a1: Bit) | Alias(of: Bit) | InitState
    | Nothing

  function DriverOf(d: Design, b: Bit): Driver {
    if b in d.tied then Constant(d.tied[b])
    else if b == Zero then Constant(false)
    else if b == One then Constant(true)
    else if b in d.free then Free
    else if b in d.nots then Inverter(d.nots[b])
    else if b in d.ands then Conjunction(d.ands[b].0, d.ands[b].1)
    else if b in d.aliases then Alias(d.aliases[b])
    else if b in d.initstate then InitState
    else Nothing
  }

  // ---------------------------------------------------------------------------------------------
  // Runs

  /** The equation of one bit in one cycle; `first` in the first cycle. */
  predicate Holds(d: Design, v: Bit -> bool, first: bool, b: Bit) {
    match DriverOf(d, b)
    case Constant(c) => v(b) == c
    case Inverter(a) => v(b) == !v(a)
    case Conjunction(a0, a1) => v(b) == (v(a0) && v(a1))
    case Alias(a) => v(b) == v(a)
    case InitState => v(b) == first
    case Free => true
    case Nothing => true
  }

  predicate HoldsAt(d: Design, run: nat -> Bit -> bool, t: nat, b: Bit) {
    Holds(d, run(t), t == 0, b)
  }

  /** Flip-flop `k` takes over its data. */
  predicate Advances(d: Design, run: nat -> Bit -> bool, t: nat, k: nat)
    requires k < |d.ffs|
  {
    run(t + 1)(d.ffs[k].q) == run(t)(d.ffs[k].d)
  }

  predicate Initialised(d: Design, start: Bit -> bool, k: nat)
    requires k < |d.ffs|
  {
    d.ffs[k].q in d.init ==> start(d.ffs[k].q) == d.init[d.ffs[k].q]
  }

  /** A run over all time: the equations of the bits in `cone` hold in every cycle, flip-flops start as
      initialised and follow their data. */
  ghost predicate IsRun(d: Design, cone: set<Bit>, run: nat -> Bit -> bool) {
    && (forall t: nat, b :: b in cone ==> HoldsAt(d, run, t, b))
    && (forall k: nat :: k < |d.ffs| ==> Initialised(d, run(0), k))
    && (forall t: nat, k: nat :: k < |d.ffs| ==> Advances(d, run, t, k))
  }

  // ---------------------------------------------------------------------------------------------
  // Bits with a finite, fully driven cone

  ghost predicate Grounded(d: Design, b: Bit, n: nat)
    decreases n
  {
    match DriverOf(d, b)
    case Constant(_) => true
    case Free => true
    case Inverter(a) => n > 0 && Grounded(d, a, n - 1)
    case Conjunction(a0, a1) => n > 0 && Grounded(d, a0, n - 1) && Grounded(d, a1, n - 1)
    case Alias(a) => n > 0 && Grounded(d, a, n - 1)
    case InitState => true
    case Nothing => false
  }

  /** The bit has a finite, fully driven cone. */
  ghost predicate HasCone(d: Design, b: Bit) {
    exists n: nat :: Grounded(d, b, n)
  }

  ghost predicate ChecksHaveCones(d: Design, checks: seq<Check>) {
    forall c :: c in checks ==> HasCone(d, c.a) && HasCone(d, c.en)
  }

  /** Everything the file must contain can be translated. */
  ghost predicate Compilable(d: Design) {
    && (forall f :: f in d.ffs ==> HasCone(d, f.d))
    && (forall b :: b in d.outputs ==> HasCone(d, b))
    && ChecksHaveCones(d, d.asserts) && ChecksHaveCones(d, d.assumes)
    && ChecksHaveCones(d, d.lives) && ChecksHaveCones(d, d.fairs)
  }

  lemma {:induction false} GroundedMore(d: Design, b: Bit, m: nat, n: nat)
    requires m <= n && Grounded(d, b, m)
    ensures Grounded(d, b, n)
    decreases n
  {
    match DriverOf(d, b)
    case Inverter(a) => GroundedMore(d, a, m - 1, n - 1);
    case Conjunction(a0, a1) =>
      GroundedMore(d, a0, m - 1, n - 1);
      GroundedMore(d, a1, m - 1, n - 1);
    case Alias(a) => GroundedMore(d, a, m - 1, n - 1);
    case _ =>
  }

  /** Whatever a bit with a cone depends on has one too. */
  lemma ConeOfArguments(d: Design, b: Bit)
    requires HasCone(d, b)
    ensures match DriverOf(d, b)
            case Inverter(a) => HasCone(d, a)
            case Conjunction(a0, a1) => HasCone(d, a0) && HasCone(d, a1)
            case Alias(a) => HasCone(d, a)
            case Nothing => false
            case _ => true
  {
    var n: nat :| Grounded(d, b, n);
    match DriverOf(d, b)
    case Inverter(a) => assert Grounded(d, a, n - 1);
    case Conjunction(a0, a1) => assert Grounded(d, a0, n - 1) && Grounded(d, a1, n - 1);
    case Alias(a) => assert Grounded(d, a, n - 1);
    case _ =>
  }

  /** The argument the writer compiles next for `b`, when `done` already have a literal. */
  predicate HasNext(d: Design, b: Bit) {
    DriverOf(d, b).Inverter? || DriverOf(d, b).Conjunction? || DriverOf(d, b).Alias?
  }

  function Next(d: Design, done: set<Bit>, b: Bit): Bit
    requires HasNext(d, b)
  {
    match DriverOf(d, b)
    case Inverter(a) => a
    case Conjunction(a0, a1) => if a0 in done then a1 else a0
    case Alias(a) => a
  }

  /** Entry `k` of the stack has no literal and waits for the entry above it. */
  ghost predicate Waits(d: Design, done: set<Bit>, s: seq<Bit>, k: nat)
    requires k < |s| - 1
  {
    HasNext(d, s[k]) && s[k] !in done && Next(d, done, s[k]) == s[k + 1]
  }

  /** The bits being compiled: each waits for the next. */
  ghost predicate Trail(d: Design, done: set<Bit>, s: seq<Bit>) {
    forall k: nat {:trigger Waits(d, done, s, k)} :: k < |s| - 1 ==> Waits(d, done, s, k)
  }

  /** More literals elsewhere do not change the trail. */
  lemma TrailGrows(d: Design, done: set<Bit>, more: set<Bit>, s: seq<Bit>)
    requires Trail(d, done, s) && done <= more && forall b :: b in s ==> b !in more
    ensures Trail(d, more, s)
  {
    forall k: nat | k < |s| - 1
      ensures Waits(d, more, s, k)
    {
      assert Waits(d, done, s, k);
      assert s[k] in s && s[k + 1] in s;
    }
  }

  /** The last bit of the trail starts waiting for its next argument. */
  lemma TrailPush(d: Design, done: set<Bit>, s: seq<Bit>, last: Bit)
    requires |s| > 0 && s[|s| - 1] == last && Trail(d, done, s) && HasNext(d, last) && last !in done
    ensures Trail(d, done, s + [Next(d, done, last)])
  {
    var more := s + [Next(d, done, last)];
    forall k: nat | k < |more| - 1
      ensures Waits(d, done, more, k)
    {
      if k < |s| - 1 {
        assert Waits(d, done, s, k);
      }
    }
  }

  /** A bit that already waits on the trail can only wait for another bit that does. */
  lemma RepeatedNext(d: Design, done: set<Bit>, stack: seq<Bit>, bit: Bit)
    requires Trail(d, done, stack + [bit]) && bit in stack
    ensures HasNext(d, bit) && Next(d, done, bit) in stack + [bit]
  {
    var k :| 0 <= k < |stack| && stack[k] == bit;
    assert Waits(d, done, stack + [bit], k);
  }

  lemma RepeatedUngrounded(d: Design, done: set<Bit>, stack: seq<Bit>, bit: Bit)
    requires Trail(d, done, stack + [bit]) && bit in stack
    ensures !HasCone(d, bit)
  {
    var k :| 0 <= k < |stack| && stack[k] == bit;
    forall n: nat
      ensures !Grounded(d, bit, n)
    {
      LoopUngrounded(d, done, stack + [bit], k, k, n);
    }
  }

  /** A trail that closes on itself runs around a combinational loop, and no bit of it is grounded. */
  lemma {:induction false} LoopUngrounded(d: Design, done: set<Bit>, s: seq<Bit>, i: nat, k: nat, n: nat)
    requires Trail(d, done, s) && i <= k < |s| - 1 && s[i] == s[|s| - 1]
    ensures !Grounded(d, s[k], n)
    decreases n
  {
    assert Waits(d, done, s, k);
    if n > 0 {
      LoopUngrounded(d, done, s, i, if k + 1 == |s| - 1 then i else k + 1, n - 1);
    }
  }

  /** Once a trail repeats it keeps repeating, so its last bit has been seen before. */
  lemma {:induction false} Periodic(d: Design, done: set<Bit>, s: seq<Bit>, i: nat, j: nat, k: nat)
    requires Trail(d, done, s) && i < j <= k < |s| && s[i] == s[j]
    ensures s[k] == s[k - (j - i)]
    decreases k
  {
    if j < k {
      Periodic(d, done, s, i, j, k - 1);
      assert Waits(d, done, s, k - 1);
      assert Waits(d, done, s, k - 1 - (j - i));
    }
  }

  /** The bits that can wait for another one. */
  function Waiting(d: Design): set<Bit> {
    d.nots.Keys + d.ands.Keys + d.aliases.Keys
  }

  /** More entries than elements: some entry repeats. */
  lemma {:induction false} Pigeonhole(s: seq<Bit>, all: set<Bit>) returns (i: nat, j: nat)
    requires |s| > |all| && forall k :: 0 <= k < |s| ==> s[k] in all
    ensures i < j < |s| && s[i] == s[j]
    decreases |all|
  {
    var last := |s| - 1;
    if exists k :: 0 <= k < last && s[k] == s[last] {
      i :| 0 <= i < last && s[i] == s[last];
      j := last;
    } else {
      i, j := Pigeonhole(s[..last], all - {s[last]});
    }
  }

  /** A stack holding more bits than can wait has met the next bit before. */
  lemma LongTrailCloses(d: Design, done: set<Bit>, stack: seq<Bit>, bit: Bit)
    requires Trail(d, done, stack + [bit]) && |stack| > |Waiting(d)|
    ensures bit in stack
  {
    var s, n := stack + [bit], |stack|;
    forall k | 0 <= k < n
      ensures stack[k] in Waiting(d)
    {
      assert Waits(d, done, s, k);
    }
    var i, j := Pigeonhole(stack, Waiting(d));
    assert s[i] == s[j];
    Periodic(d, done, s, i, j, n);
    assert stack[n - (j - i)] == s[n];
  }

  /** A stack of more than `most` bits has met the next bit before. */
  ghost predicate LoopBound(d: Design, most: nat) {
    forall done, stack: seq<Bit>, bit {:trigger Trail(d, done, stack + [bit])} ::
      Trail(d, done, stack + [bit]) && |stack| > most ==> bit in stack
  }

  lemma BoundByWaiting(d: Design) returns (most: nat)
    ensures LoopBound(d, most)
  {
    most := |Waiting(d)|;
    forall done, stack: seq<Bit>, bit | Trail(d, done, stack + [bit]) && |stack| > most
      ensures bit in stack
    {
      LongTrailCloses(d, done, stack, bit);
    }
  }
}
