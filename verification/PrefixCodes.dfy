/** Kraft's inequality for arbitrary prefix codes, which makes the optimality of the Huffman lengths a
    statement about all of them. */
module PrefixCodes {
  import opened Bits
  import opened Options
  import opened CanonicalCode
  import opened HuffmanBuild

  /** A code word for some of the symbols. */
  type Code = seq<Option<Bitstring>>

  ghost predicate PrefixFreeCode(c: Code) {
    forall i, j :: 0 <= i < |c| && 0 <= j < |c| && i != j && c[i].Some? && c[j].Some? ==> !(c[i].value <= c[j].value)
  }

  ghost predicate WordsUpTo(c: Code, bound: nat) {
    forall i :: 0 <= i < |c| && c[i].Some? ==> |c[i].value| <= bound
  }

  /** The Kraft sum scaled by 2^bound. */
  ghost function Share(c: Code, bound: nat): nat
    requires WordsUpTo(c, bound)
  {
    if c == [] then 0
    else
      var k := |c| - 1;
      Share(c[..k], bound) + if c[k].Some? then Pow2(bound - |c[k].value|) else 0
  }

  /** The words that start with bit b, without it. */
  ghost function Half(c: Code, b: bool): (h: Code)
    ensures |h| == |c|
    ensures forall i :: 0 <= i < |c| ==>
      h[i] == if c[i].Some? && c[i].value != [] && c[i].value[0] == b then Some(c[i].value[1..]) else None
  {
    seq(|c|, i requires 0 <= i < |c| => if c[i].Some? && c[i].value != [] && c[i].value[0] == b
        then Some(c[i].value[1..]) else None)
  }

  lemma {:induction false} HalfPrefixFree(c: Code, b: bool)
    requires PrefixFreeCode(c)
    ensures PrefixFreeCode(Half(c, b))
  {
    var h := Half(c, b);
    forall i, j | 0 <= i < |h| && 0 <= j < |h| && i != j && h[i].Some? && h[j].Some?
      ensures !(h[i].value <= h[j].value)
    {
      var v, w := c[i].value, c[j].value;
      assert v == [b] + v[1..] && w == [b] + w[1..];
      assert !(v <= w);
    }
  }

  lemma {:induction false} HalfWords(c: Code, b: bool, bound: nat)
    requires WordsUpTo(c, bound) && bound > 0
    ensures WordsUpTo(Half(c, b), bound - 1)
  {
  }

  lemma {:induction false} HalfInit(c: Code, b: bool)
    requires c != []
    ensures Half(c, b)[..|c| - 1] == Half(c[..|c| - 1], b)
  {
  }

  ghost predicate NoEmptyWord(c: Code) {
    forall i :: 0 <= i < |c| && c[i].Some? ==> c[i].value != []
  }

  lemma {:induction false} HalvesShare(c: Code, bound: nat)
    requires WordsUpTo(c, bound) && bound > 0 && NoEmptyWord(c)
    ensures WordsUpTo(Half(c, false), bound - 1) && WordsUpTo(Half(c, true), bound - 1)
    ensures Share(c, bound) == Share(Half(c, false), bound - 1) + Share(Half(c, true), bound - 1)
    decreases |c|
  {
    hide Pow2, Half, WordsUpTo;
    HalfWords(c, false, bound);
    HalfWords(c, true, bound);
    if c != [] {
      var k := |c| - 1;
      InitWords(c, bound);
      HalvesShare(c[..k], bound);
      HalfInit(c, false);
      HalfInit(c, true);
    }
  }

  lemma {:induction false} InitWords(c: Code, bound: nat)
    requires WordsUpTo(c, bound) && c != []
    ensures WordsUpTo(c[..|c| - 1], bound)
  {
  }

  lemma {:induction false} NoWords(c: Code, bound: nat)
    requires WordsUpTo(c, bound) && forall i :: 0 <= i < |c| ==> c[i].None?
    ensures Share(c, bound) == 0
  {
    if c != [] {
      NoWords(c[..|c| - 1], bound);
    }
  }

  lemma {:induction false} OnlyWord(c: Code, e: nat, bound: nat)
    requires WordsUpTo(c, bound) && e < |c| && forall i :: 0 <= i < |c| && i != e ==> c[i].None?
    ensures Share(c, bound) <= Pow2(bound)
  {
    var k := |c| - 1;
    if e == k {
      NoWords(c[..k], bound);
      if c[k].Some? {
        Pow2Monotone(bound - |c[k].value|, bound);
      }
    } else {
      OnlyWord(c[..k], e, bound);
    }
  }

  /** Kraft's inequality. */
  lemma {:induction false} Kraft(c: Code, bound: nat)
    requires PrefixFreeCode(c) && WordsUpTo(c, bound)
    ensures Share(c, bound) <= Pow2(bound)
    decreases bound
  {
    if e :| 0 <= e < |c| && c[e] == Some([]) {
      forall i | 0 <= i < |c| && i != e
        ensures c[i].None?
      {
      }
      OnlyWord(c, e, bound);
    } else if bound == 0 {
      forall i | 0 <= i < |c|
        ensures c[i].None?
      {
        assert c[i] != Some([]);
      }
      NoWords(c, bound);
    } else {
      HalvesShare(c, bound);
      HalfPrefixFree(c, false);
      HalfPrefixFree(c, true);
      Kraft(Half(c, false), bound - 1);
      Kraft(Half(c, true), bound - 1);
    }
  }

  /** Word lengths, 0 for symbols without a word. */
  ghost function Lengths(c: Code): (l: seq<nat>)
    ensures |l| == |c| && forall i :: 0 <= i < |c| ==> l[i] == if c[i].Some? then |c[i].value| else 0
  {
    seq(|c|, i requires 0 <= i < |c| => if c[i].Some? then |c[i].value| else 0)
  }

  lemma {:induction false} LengthsShare(c: Code, bound: nat)
    requires WordsUpTo(c, bound)
    ensures KraftSum(Lengths(c), bound) <= Share(c, bound)
  {
    if c != [] {
      var k := |c| - 1;
      LengthsShare(c[..k], bound);
      assert Lengths(c)[..k] == Lengths(c[..k]);
    }
  }

  /** Every symbol that occurs has a word of at least one bit. */
  ghost predicate Encodes(t: seq<CtData>, c: Code) {
    |c| <= |t| && forall x :: 0 <= x < |c| && t[x].fc > 0 ==> c[x].Some? && c[x].value != []
  }

  /** Lengths that beat all lengths with a Kraft sum of at most 1 beat all prefix codes. */
  lemma {:induction false} ShortestOfAllCodes(t: seq<CtData>, lens: seq<nat>, c: Code, bound: nat)
    requires |lens| == |c| <= |t| && Shortest(t, lens) && PrefixFreeCode(c) && WordsUpTo(c, bound) && Encodes(t, c)
    ensures CodeBits(t, lens, |lens|) <= CodeBits(t, Lengths(c), |lens|)
  {
    hide KraftSum, CodeBits, Share, Pow2;
    Kraft(c, bound);
    LengthsShare(c, bound);
    assert BoundedLens(Lengths(c), bound) && UsedCoded(t, Lengths(c));
  }
}
