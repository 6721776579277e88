/** Canonical Huffman codes: the assignment of section 3.2.2 of RFC 1951, the reason it can be
    decoded, and the encoder's gen_codes. */
module CanonicalCode {
  import opened Bits
  import opened Options

  const MAX_BITS: nat := 15

  /** One element of a code tree. As in the C struct, the first member holds a frequency and later a
      code, the second one the father in the Huffman tree and later a code length. */
  datatype CtData = CtData(fc: nat, dl: nat)

  function Lens(tree: seq<CtData>): (lens: seq<nat>)
    ensures |lens| == |tree|
    ensures forall i :: 0 <= i < |tree| ==> lens[i] == tree[i].dl
  {
    seq(|tree|, i requires 0 <= i < |tree| => tree[i].dl)
  }

  /** Number of symbols with code length b. */
  function Count(lens: seq<nat>, b: nat): nat {
    if lens == [] then 0
    else Count(lens[..|lens| - 1], b) + if lens[|lens| - 1] == b then 1 else 0
  }

  /** Step 1 of the algorithm in section 3.2.2: length 0 stands for an unused symbol. */
  function BlCount(lens: seq<nat>, b: nat): nat {
    if b == 0 then 0 else Count(lens, b)
  }

  /** bl_count holds the number of codes of each length. */
  ghost predicate CountsOk(bl: seq<nat>, lens: seq<nat>) {
    |bl| == MAX_BITS + 1 && forall b :: 0 <= b <= MAX_BITS ==> bl[b] == BlCount(lens, b)
  }

  /** Step 2: the smallest code of each length. */
  function NextCode(lens: seq<nat>, b: nat): nat {
    if b == 0 then 0 else 2 * (NextCode(lens, b - 1) + BlCount(lens, b - 1))
  }

  /** Step 3: consecutive codes, in symbol order, within a length. */
  function Code(lens: seq<nat>, n: nat): nat
    requires n < |lens|
  {
    NextCode(lens, lens[n]) + Count(lens[..n], lens[n])
  }

  /** A symbol's code as transmitted, most-significant bit first. */
  function CodeWord(lens: seq<nat>, n: nat): (w: Bitstring)
    requires n < |lens|
    ensures |w| == lens[n]
  {
    ToBitsMsb(Code(lens, n), lens[n])
  }

  /** The Kraft sum scaled by 2^limit, over the used symbols no longer than limit. */
  function KraftSum(lens: seq<nat>, limit: nat): nat {
    if lens == [] then 0
    else
      var len := lens[|lens| - 1];
      KraftSum(lens[..|lens| - 1], limit) + if 0 < len <= limit then Pow2(limit - len) else 0
  }

  ghost predicate BoundedLens(lens: seq<nat>, limit: nat) {
    forall i :: 0 <= i < |lens| ==> lens[i] <= limit
  }

  /** Lengths for which a prefix code exists. */
  ghost predicate Prefixable(lens: seq<nat>, limit: nat) {
    BoundedLens(lens, limit) && KraftSum(lens, limit) <= Pow2(limit)
  }

  lemma {:induction false} PrefixableBounded(lens: seq<nat>, limit: nat)
    requires Prefixable(lens, limit)
    ensures BoundedLens(lens, limit)
  {
  }

  lemma {:induction false} KraftStep(lens: seq<nat>, b: nat)
    ensures KraftSum(lens, b + 1) == 2 * KraftSum(lens, b) + Count(lens, b + 1)
  {
    if lens != [] {
      var len := lens[|lens| - 1];
      KraftStep(lens[..|lens| - 1], b);
      if 0 < len <= b {
        assert Pow2(b + 1 - len) == 2 * Pow2(b - len);
      }
    }
  }

  lemma {:induction false} KraftZero(lens: seq<nat>)
    ensures KraftSum(lens, 0) == 0
  {
    if lens != [] {
      KraftZero(lens[..|lens| - 1]);
    }
  }

  /** The first code after those of length b is the Kraft sum up to length b. */
  lemma {:induction false} CodesUsed(lens: seq<nat>, b: nat)
    ensures NextCode(lens, b) + BlCount(lens, b) == KraftSum(lens, b)
  {
    if b == 0 {
      KraftZero(lens);
    } else {
      CodesUsed(lens, b - 1);
      KraftStep(lens, b - 1);
    }
  }

  lemma {:induction false} KraftAtShorter(lens: seq<nat>, b: nat, limit: nat)
    requires b <= limit && KraftSum(lens, limit) <= Pow2(limit)
    ensures KraftSum(lens, b) <= Pow2(b)
  {
    if b < limit {
      KraftStep(lens, limit - 1);
      KraftAtShorter(lens, b, limit - 1);
    }
  }

  lemma {:induction false} CountPrefix(lens: seq<nat>, n: nat, m: nat, b: nat)
    requires n <= m <= |lens|
    ensures Count(lens[..n], b) <= Count(lens[..m], b)
    ensures n < m && lens[n] == b ==> Count(lens[..n], b) < Count(lens[..m], b)
  {
    if n < m {
      CountPrefix(lens, n, m - 1, b);
      assert lens[..m][..m - 1] == lens[..m - 1];
    }
  }

  lemma {:induction false} CodeBelowNext(lens: seq<nat>, n: nat)
    requires n < |lens| && lens[n] > 0
    ensures Code(lens, n) < NextCode(lens, lens[n]) + BlCount(lens, lens[n])
  {
    CountPrefix(lens, n, |lens|, lens[n]);
    assert lens[..|lens|] == lens;
  }

  lemma {:induction false} CodeFits(lens: seq<nat>, limit: nat, n: nat)
    requires Prefixable(lens, limit) && n < |lens| && lens[n] > 0
    ensures Code(lens, n) < Pow2(lens[n])
  {
    CodeBelowNext(lens, n);
    CodesUsed(lens, lens[n]);
    KraftAtShorter(lens, lens[n], limit);
  }

  lemma {:induction false} LongerCodesAbove(lens: seq<nat>, b: nat, c: nat)
    requires b < c
    ensures NextCode(lens, c) >= Shl(NextCode(lens, b) + BlCount(lens, b), c - b)
  {
    if b + 1 < c {
      LongerCodesAbove(lens, b, c - 1);
    }
  }

  lemma {:induction false} ShrAtLeast(x: nat, y: nat, k: nat)
    requires x >= Shl(y, k)
    ensures Shr(x, k) >= y
  {
    if k > 0 {
      ShlEven(y, k);
      ShrAtLeast(x / 2, y, k - 1);
    }
  }

  /** No code word is a prefix of another symbol's. */
  lemma {:induction false} PrefixFree(lens: seq<nat>, limit: nat, n: nat, m: nat)
    requires Prefixable(lens, limit)
    requires n < |lens| && m < |lens| && n != m && lens[n] > 0 && lens[m] > 0
    ensures !(CodeWord(lens, n) <= CodeWord(lens, m))
  {
    if CodeWord(lens, n) <= CodeWord(lens, m) {
      var l, k: nat := lens[n], lens[m] - lens[n];
      CodeFits(lens, limit, n);
      CodeFits(lens, limit, m);
      ToBitsMsbPrefix(Code(lens, m), l, k);
      ShrBound(Code(lens, m), l, k);
      ToBitsMsbInjective(Code(lens, n), Shr(Code(lens, m), k), l);
      if k > 0 {
        CodeBelowNext(lens, n);
        LongerCodesAbove(lens, l, lens[m]);
        ShrAtLeast(Code(lens, m), NextCode(lens, l) + BlCount(lens, l), k);
      } else if n < m {
        CountPrefix(lens, n, m, l);
      } else {
        CountPrefix(lens, m, n, l);
      }
    }
  }

  /** Bit string w occurs in b at position pos. */
  predicate At(b: Bitstring, pos: nat, w: Bitstring) {
    pos + |w| <= |b| && b[pos..pos + |w|] == w
  }

  lemma {:induction false} AtSplit(b: Bitstring, pos: nat, v: Bitstring, w: Bitstring)
    ensures At(b, pos, v + w) <==> At(b, pos, v) && At(b, pos + |v|, w)
  {
    if At(b, pos, v + w) {
      assert b[pos..pos + |v|] == (v + w)[..|v|];
      assert b[pos + |v|..pos + |v| + |w|] == (v + w)[|v|..];
    }
    if At(b, pos, v) && At(b, pos + |v|, w) {
      assert b[pos..pos + |v + w|] == b[pos..pos + |v|] + b[pos + |v|..pos + |v| + |w|];
    }
  }

  lemma {:induction false} AtComparable(b: Bitstring, pos: nat, v: Bitstring, w: Bitstring)
    requires At(b, pos, v) && At(b, pos, w) && |v| <= |w|
    ensures v <= w
  {
    assert w[..|v|] == b[pos..pos + |v|];
  }

  /** The reference decoder's symbol lookup: the first symbol, from n on, whose code word is next. */
  function FindSymbol(lens: seq<nat>, b: Bitstring, pos: nat, n: nat): (r: Option<nat>)
    requires n <= |lens|
    ensures r.Some? ==> n <= r.value < |lens| && lens[r.value] > 0 && At(b, pos, CodeWord(lens, r.value))
    decreases |lens| - n
  {
    if n == |lens| then None
    else if lens[n] > 0 && At(b, pos, CodeWord(lens, n)) then Some(n)
    else FindSymbol(lens, b, pos, n + 1)
  }

  lemma {:induction false} FindSymbolFrom(lens: seq<nat>, limit: nat, b: Bitstring, pos: nat, s: nat, n: nat)
    requires Prefixable(lens, limit) && n <= s < |lens| && lens[s] > 0
    requires At(b, pos, CodeWord(lens, s))
    ensures FindSymbol(lens, b, pos, n) == Some(s)
    decreases s - n
  {
    if n < s {
      if lens[n] > 0 && At(b, pos, CodeWord(lens, n)) {
        PrefixFree(lens, limit, n, s);
        PrefixFree(lens, limit, s, n);
        if lens[n] <= lens[s] {
          AtComparable(b, pos, CodeWord(lens, n), CodeWord(lens, s));
        } else {
          AtComparable(b, pos, CodeWord(lens, s), CodeWord(lens, n));
        }
      }
      FindSymbolFrom(lens, limit, b, pos, s, n + 1);
    }
  }

  /** Every code word decodes to its own symbol, whatever bits follow it. */
  lemma {:induction false} CodeWordDecodes(lens: seq<nat>, limit: nat, b: Bitstring, pos: nat, s: nat)
    requires Prefixable(lens, limit) && s < |lens| && lens[s] > 0
    requires At(b, pos, CodeWord(lens, s))
    ensures FindSymbol(lens, b, pos, 0) == Some(s)
  {
    FindSymbolFrom(lens, limit, b, pos, s, 0);
  }

  lemma {:induction false} ToBitsMsbStep(v: nat, n: nat)
    ensures ToBitsMsb(v, n + 1) == [Shr(v, n) % 2 == 1] + ToBitsMsb(v, n)
  {
    if n > 0 {
      ToBitsMsbStep(v / 2, n - 1);
      assert ToBitsMsb(v, n + 1) == ToBitsMsb(v / 2, n) + [v % 2 == 1];
    }
  }

  /** The number whose least-significant-first bits are the low len bits of code, most significant first. */
  function Reversed(code: nat, len: nat): (r: nat)
    ensures r < Pow2(len)
  {
    var r := FromBits(ToBitsMsb(code, len));
    FromBitsBound(ToBitsMsb(code, len));
    r
  }

  lemma {:induction false} ReversedStep(code: nat, i: nat)
    ensures Reversed(code, i + 1) == Shr(code, i) % 2 + 2 * Reversed(code, i)
  {
    ToBitsMsbStep(code, i);
    assert ToBitsMsb(code, i + 1)[1..] == ToBitsMsb(code, i);
  }

  lemma {:induction false} OrLowBit(a: nat, bit: nat)
    requires bit <= 1
    ensures Or(2 * a, bit) == 2 * a + bit
  {
  }

  method BiReverse(code: nat, len: nat) returns (res: nat)
    requires 1 <= len <= 15
    ensures res == Reversed(code, len)
    ensures ToBits(res, len) == ToBitsMsb(code, len)
  {
    var rest, left := code, len;
    ghost var i := 0;
    res := 0;
    while true
      invariant 0 <= i == len - left < len
      invariant rest == Shr(code, i)
      invariant res == 2 * Reversed(code, i)
      decreases left
    {
      OrLowBit(Reversed(code, i), rest % 2);
      ReversedStep(code, i);
      res := Or(res, rest % 2);
      left := left - 1;
      if left <= 0 {
        break;
      }
      i := i + 1;
      ShrShr(code, i - 1, 1);
      rest := rest / 2;
      res := 2 * res;
    }
    ToFromBits(ToBitsMsb(code, len));
  }

  /** Codes are set for every symbol of non-zero length below upto; nothing else differs from was. */
  ghost predicate CodesSet(was: seq<CtData>, now: seq<CtData>, upto: nat, lens: seq<nat>)
    requires upto <= |lens| <= |was|
  {
    && |now| == |was|
    && forall n :: 0 <= n < |was| ==>
         now[n] == if n < upto && lens[n] > 0 then CtData(Reversed(Code(lens, n), lens[n]), lens[n])
                   else was[n]
  }

  lemma {:induction false} CodesSetNone(was: seq<CtData>, lens: seq<nat>)
    requires |lens| <= |was|
    ensures CodesSet(was, was, 0, lens)
  {
  }

  lemma {:induction false} CodesSetStep(was: seq<CtData>, now: seq<CtData>, n: nat, lens: seq<nat>)
    requires n < |lens| <= |was| && CodesSet(was, now, n, lens)
    ensures n < |now| == |was| && now[n] == was[n]
    ensures lens[n] == 0 ==> CodesSet(was, now, n + 1, lens)
    ensures lens[n] > 0 ==>
      CodesSet(was, now[n := CtData(Reversed(Code(lens, n), lens[n]), lens[n])], n + 1, lens)
  {
  }

  lemma {:induction false} NextCodeStep(lens: seq<nat>, bl: seq<nat>, bits: nat)
    requires CountsOk(bl, lens) && 1 <= bits <= MAX_BITS
    ensures NextCode(lens, bits) == (NextCode(lens, bits - 1) + bl[bits - 1]) * 2
  {
  }

  /** next_code after the first n symbols have drawn their codes. */
  ghost predicate Drawn(next: seq<nat>, lens: seq<nat>, n: nat) {
    |next| == MAX_BITS + 1 && n <= |lens|
    && forall b :: 1 <= b <= MAX_BITS ==> next[b] == NextCode(lens, b) + Count(lens[..n], b)
  }

  lemma {:induction false} DrawnStart(next: seq<nat>, lens: seq<nat>)
    requires |next| == MAX_BITS + 1 && forall b :: 0 <= b <= MAX_BITS ==> next[b] == NextCode(lens, b)
    ensures Drawn(next, lens, 0)
  {
  }

  method NextCodes(blCount: array<nat>, ghost lens: seq<nat>) returns (nextCode: array<nat>)
    requires blCount.Length == MAX_BITS + 1
    requires CountsOk(blCount[..], lens)
    ensures fresh(nextCode) && nextCode.Length == MAX_BITS + 1
    ensures Drawn(nextCode[..], lens, 0)
  {
    hide CountsOk, BlCount;
    nextCode := new nat[MAX_BITS + 1];
    nextCode[0] := 0;
    var code := 0;
    for bits := 1 to MAX_BITS + 1
      invariant code == NextCode(lens, bits - 1)
      invariant forall b :: 0 <= b < bits ==> nextCode[b] == NextCode(lens, b)
    {
      NextCodeStep(lens, blCount[..], bits);
      code := (code + blCount[bits - 1]) * 2;
      nextCode[bits] := code;
    }
    DrawnStart(nextCode[..], lens);
  }

  lemma {:induction false} DrawnStep(next: seq<nat>, lens: seq<nat>, n: nat)
    requires Drawn(next, lens, n) && n < |lens| && BoundedLens(lens, MAX_BITS)
    ensures lens[n] == 0 ==> Drawn(next, lens, n + 1)
    ensures lens[n] != 0 ==> lens[n] <= 15 < |next| && next[lens[n]] == Code(lens, n)
    ensures lens[n] != 0 ==> Drawn(next[lens[n] := next[lens[n]] + 1], lens, n + 1)
  {
    assert lens[..n + 1][..n] == lens[..n];
  }

  method GenCodes(tree: array<CtData>, maxCode: int, blCount: array<nat>)
    requires -1 <= maxCode < tree.Length
    requires blCount.Length == MAX_BITS + 1
    requires Prefixable(Lens(tree[..maxCode + 1]), MAX_BITS)
    requires CountsOk(blCount[..], Lens(tree[..maxCode + 1]))
    modifies tree
    ensures CodesSet(old(tree[..]), tree[..], maxCode + 1, old(Lens(tree[..maxCode + 1])))
  {
    hide *;
    ghost var was, lens := tree[..], Lens(tree[..maxCode + 1]);
    PrefixableBounded(lens, MAX_BITS);
    CodesSetNone(was, lens);
    var nextCode := NextCodes(blCount, lens);
    for n := 0 to maxCode + 1
      modifies tree, nextCode
      invariant Drawn(nextCode[..], lens, n)
      invariant CodesSet(was, tree[..], n, lens)
    {
      ghost var now, next := tree[..], nextCode[..];
      CodesSetStep(was, now, n, lens);
      DrawnStep(next, lens, n);
      var len := tree[n].dl;
      if len != 0 {
        var c := BiReverse(nextCode[len], len);
        nextCode[len] := nextCode[len] + 1;
        assert nextCode[..] == next[len := next[len] + 1];
        tree[n] := tree[n].(fc := c);
        assert tree[..] == now[n := CtData(c, len)];
      }
    }
  }

  /** The tree's first elements carry the canonical codes of the given lengths, ready to be sent. */
  ghost predicate CodedAs(tree: seq<CtData>, lens: seq<nat>) {
    forall i :: 0 <= i < |lens| && i < |tree| ==>
      tree[i].dl == lens[i] && (lens[i] > 0 ==> tree[i].fc == Reversed(Code(lens, i), lens[i]))
  }
}
