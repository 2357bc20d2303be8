/** The packed bit vector: words of 64 bits, least significant first. */
module BitVectors {
  import opened Words
  import opened Options

  const WORD := 64

  function One(n: nat): (r: seq<bool>)
    ensures |r| == n
  {
    seq(n, i => i == 0)
  }

  /** Word and bit number determine the position. */
  lemma SameBit(i: nat, j: nat)
    ensures i / WORD == j / WORD && i % WORD == j % WORD <==> i == j
  {
  }

  /** Enough words, and nothing set beyond the length. */
  ghost predicate Packed(inner: seq<seq<bool>>, len: nat) {
    && |inner| == (len + WORD - 1) / WORD
    && (forall w :: 0 <= w < |inner| ==> |inner[w]| == WORD)
    && forall w: nat, b: nat :: w < |inner| && b < WORD && w * WORD + b >= len ==> !inner[w][b]
  }

  ghost function Unpack(inner: seq<seq<bool>>, len: nat): (s: seq<bool>)
    requires Packed(inner, len)
    ensures |s| == len
  {
    seq(len, i requires 0 <= i < len => inner[i / WORD][i % WORD])
  }

  /** A bit in a word of its own. */
  lemma NewWord(inner: seq<seq<bool>>, len: nat, value: bool)
    requires Packed(inner, len) && len % WORD == 0
    ensures Packed(inner + [One(WORD)[0 := value]], len + 1)
    ensures Unpack(inner + [One(WORD)[0 := value]], len + 1) == Unpack(inner, len) + [value]
  {
  }

  /** A bit in the last word, which is clear from there on. */
  lemma LastWord(inner: seq<seq<bool>>, len: nat, value: bool)
    requires Packed(inner, len) && len % WORD != 0
    ensures var w := |inner| - 1;
            var inner' := inner[w := inner[w][len % WORD := value]];
            && w == len / WORD && !inner[w][len % WORD]
            && Packed(inner', len + 1) && Unpack(inner', len + 1) == Unpack(inner, len) + [value]
  {
    var w := |inner| - 1;
    var inner' := inner[w := inner[w][len % WORD := value]];
    forall i | 0 <= i < len + 1
      ensures Unpack(inner', len + 1)[i] == (Unpack(inner, len) + [value])[i]
    {
      SameBit(i, len);
    }
  }

  class BitVec {
    var len: nat
    var inner: seq<seq<bool>>

    ghost predicate Valid()
      reads this
    {
      Packed(inner, len)
    }

    ghost function Contents(): (s: seq<bool>)
      requires Valid()
      reads this
    {
      Unpack(inner, len)
    }

    constructor ()
      ensures Valid() && Contents() == []
    {
      len, inner := 0, [];
    }

    constructor FillZero(len: nat)
      ensures Valid() && Contents() == Zeros(len)
    {
      this.len := len;
      this.inner := seq((len + WORD - 1) / WORD, _ => Zeros(WORD));
      new;
      assert Contents() == Zeros(len);
    }

    /** The source panics unless `idx < len`. */
    method Set(idx: nat, value: bool)
      requires Valid() && idx < len
      modifies this
      ensures Valid() && Contents() == old(Contents())[idx := value]
    {
      var w, b := idx / WORD, idx % WORD;
      if value {
        inner := inner[w := Or(inner[w], Shl(One(WORD), b))];
      } else {
        inner := inner[w := And(inner[w], Not(Shl(One(WORD), b)))];
      }
      assert inner[w] == old(inner[w])[b := value];
      forall i | 0 <= i < len
        ensures Contents()[i] == old(Contents())[idx := value][i]
      {
        SameBit(i, idx);
      }
    }

    method Push(value: bool)
      requires Valid()
      modifies this
      ensures Valid() && Contents() == old(Contents()) + [value]
    {
      if len % WORD == 0 {
        NewWord(inner, len, value);
        inner := inner + [One(WORD)[0 := value]];
      } else {
        var w, b := |inner| - 1, len % WORD;
        LastWord(inner, len, value);
        assert Or(inner[w], Shl(One(WORD)[0 := value], b)) == inner[w][b := value];
        inner := inner[w := Or(inner[w], Shl(One(WORD)[0 := value], b))];
      }
      len := len + 1;
    }

    function Get(index: nat): (r: Option<bool>)
      requires Valid()
      reads this
      ensures r == if index < len then Some(Contents()[index]) else None
    {
      if index >= len then None
      else
        assert Shr(inner[index / WORD], index % WORD)[0] == inner[index / WORD][index % WORD];
        Some(Shr(inner[index / WORD], index % WORD)[0])
    }
  }

  /** Collecting an iterator gives back its bits. */
  method FromIter(bits: seq<bool>) returns (vec: BitVec)
    ensures fresh(vec) && vec.Valid() && vec.Contents() == bits
  {
    vec := new BitVec();
    for i := 0 to |bits|
      invariant fresh(vec) && vec.Valid() && vec.Contents() == bits[..i]
    {
      vec.Push(bits[i]);
    }
  }
}
