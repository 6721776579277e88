/** The fixed codes of section 3.2.6 of RFC 1951, as ct_init builds them. */
module StaticTrees {
  import opened Bits
  import opened CanonicalCode
  import opened Inflate

  lemma {:induction false} CountRepeat(v: nat, n: nat, b: nat)
    ensures Count(Repeat(v, n), b) == if v == b then n else 0
  {
    if n > 0 {
      assert Repeat(v, n)[..n - 1] == Repeat(v, n - 1);
      CountRepeat(v, n - 1, b);
    }
  }

  lemma {:induction false} CountConcat(p: seq<nat>, q: seq<nat>, b: nat)
    ensures Count(p + q, b) == Count(p, b) + Count(q, b)
  {
    if q == [] {
      assert p + q == p;
    } else {
      assert (p + q)[..|p + q| - 1] == p + q[..|q| - 1];
      CountConcat(p, q[..|q| - 1], b);
    }
  }

  lemma {:induction false} KraftRepeat(v: nat, n: nat, limit: nat)
    requires 0 < v <= limit
    ensures KraftSum(Repeat(v, n), limit) == n * Pow2(limit - v)
  {
    if n > 0 {
      assert Repeat(v, n)[..n - 1] == Repeat(v, n - 1);
      KraftRepeat(v, n - 1, limit);
      assert n * Pow2(limit - v) == (n - 1) * Pow2(limit - v) + Pow2(limit - v);
    }
  }

  lemma {:induction false} KraftConcat(p: seq<nat>, q: seq<nat>, limit: nat)
    ensures KraftSum(p + q, limit) == KraftSum(p, limit) + KraftSum(q, limit)
  {
    if q == [] {
      assert p + q == p;
    } else {
      assert (p + q)[..|p + q| - 1] == p + q[..|q| - 1];
      KraftConcat(p, q[..|q| - 1], limit);
    }
  }

  lemma {:induction false} SmallPowers()
    ensures Pow2(6) == 64 && Pow2(7) == 128 && Pow2(8) == 256 && Pow2(10) == 1024 && Pow2(15) == 32768
  {
  }

  lemma {:induction false} FixedKraft()
    ensures KraftSum(FIXED_LIT_LENS, MAX_BITS) == Pow2(MAX_BITS)
    ensures KraftSum(FIXED_DIST_LENS, MAX_BITS) == Pow2(MAX_BITS)
  {
    hide KraftSum, Pow2, Repeat;
    var a, b, c, d := Repeat(8, 144), Repeat(9, 112), Repeat(7, 24), Repeat(8, 8);
    KraftConcat(a + b + c, d, 15);
    KraftConcat(a + b, c, 15);
    KraftConcat(a, b, 15);
    KraftRepeat(8, 144, 15);
    KraftRepeat(9, 112, 15);
    KraftRepeat(7, 24, 15);
    KraftRepeat(8, 8, 15);
    KraftRepeat(5, 32, 15);
    SmallPowers();
  }

  lemma {:induction false} FixedPrefixable()
    ensures Prefixable(FIXED_LIT_LENS, MAX_BITS) && Prefixable(FIXED_DIST_LENS, MAX_BITS)
  {
    hide KraftSum, Pow2, Repeat;
    FixedKraft();
  }

  lemma {:induction false} FixedCount(b: nat)
    ensures Count(FIXED_LIT_LENS, b) == (if b == 7 then 24 else if b == 8 then 152 else if b == 9 then 112 else 0)
  {
    hide Count, Repeat;
    var p, q, r, s := Repeat(8, 144), Repeat(9, 112), Repeat(7, 24), Repeat(8, 8);
    CountConcat(p + q + r, s, b);
    CountConcat(p + q, r, b);
    CountConcat(p, q, b);
    CountRepeat(8, 144, b);
    CountRepeat(9, 112, b);
    CountRepeat(7, 24, b);
    CountRepeat(8, 8, b);
  }

  lemma {:induction false} NoShorter(v: nat, n: nat, b: nat)
    requires b <= v
    ensures NextCode(Repeat(v, n), b) == 0
  {
    if b > 0 {
      NoShorter(v, n, b - 1);
      CountRepeat(v, n, b - 1);
    }
  }

  lemma {:induction false} EqualLengthsCode(v: nat, n: nat, i: nat)
    requires i < n
    ensures Code(Repeat(v, n), i) == i
  {
    hide NextCode, Count;
    NoShorter(v, n, v);
    assert Repeat(v, n)[..i] == Repeat(v, i);
    CountRepeat(v, i, v);
  }

  /** Distance code n is n itself. */
  lemma {:induction false} FixedDistCode(n: nat)
    requires n < 32
    ensures Code(FIXED_DIST_LENS, n) == n
  {
    EqualLengthsCode(5, 32, n);
  }

  /** The first n static lengths are set. */
  ghost predicate LensSet(tree: seq<CtData>, n: nat) {
    |tree| == 288 && n <= 288 && forall i :: 0 <= i < n ==> tree[i].dl == FIXED_LIT_LENS[i]
  }

  lemma {:induction false} FixedLen(n: nat)
    requires n < 288
    ensures FIXED_LIT_LENS[n] == if n <= 143 then 8 else if n <= 255 then 9 else if n <= 279 then 7 else 8
  {
  }

  lemma {:induction false} LensSetStep(tree: seq<CtData>, n: nat, len: nat)
    requires LensSet(tree, n) && n < 288 && len == FIXED_LIT_LENS[n]
    ensures LensSet(tree[n := tree[n].(dl := len)], n + 1)
  {
  }

  /** Sets one range of equal lengths. */
  method SetRange(tree: array<CtData>, from: nat, last: nat, len: nat)
    requires from <= last + 1 <= 288 && LensSet(tree[..], from)
    requires forall i :: from <= i <= last ==> FIXED_LIT_LENS[i] == len
    modifies tree
    ensures LensSet(tree[..], last + 1)
  {
    hide LensSet;
    assert tree.Length == 288 by { LensSetSize(tree[..], from); }
    var n := from;
    while n <= last
      invariant from <= n <= last + 1 && LensSet(tree[..], n)
    {
      ghost var t := tree[..];
      LensSetStep(t, n, len);
      tree[n] := tree[n].(dl := len);
      assert tree[..] == t[n := t[n].(dl := len)];
      n := n + 1;
    }
  }

  lemma {:induction false} LensSetSize(tree: seq<CtData>, n: nat)
    requires LensSet(tree, n)
    ensures |tree| == 288
  {
  }

  lemma {:induction false} LensSetDone(tree: seq<CtData>)
    requires LensSet(tree, 288)
    ensures Lens(tree[..288]) == FIXED_LIT_LENS
  {
  }

  ghost predicate Zeroed(s: seq<nat>) {
    |s| == MAX_BITS + 1 && forall i :: 0 <= i < |s| ==> s[i] == 0
  }

  lemma {:induction false} FixedCounts(bl: seq<nat>)
    requires Zeroed(bl)
    ensures CountsOk(bl[7 := 24][8 := 152][9 := 112], FIXED_LIT_LENS)
  {
    hide Count, Repeat;
    forall b: nat | b <= MAX_BITS
      ensures bl[7 := 24][8 := 152][9 := 112][b] == BlCount(FIXED_LIT_LENS, b)
    {
      FixedCount(b);
    }
  }

  method InitStaticLengths(ltree: array<CtData>)
    requires ltree.Length == 288
    modifies ltree
    ensures LensSet(ltree[..], 288)
  {
    hide Repeat;
    forall n: nat | n < 288
      ensures FIXED_LIT_LENS[n] == if n <= 143 then 8 else if n <= 255 then 9 else if n <= 279 then 7 else 8
    {
      FixedLen(n);
    }
    assert LensSet(ltree[..], 0);
    SetRange(ltree, 0, 143, 8);
    SetRange(ltree, 144, 255, 9);
    SetRange(ltree, 256, 279, 7);
    SetRange(ltree, 280, 287, 8);
  }

  /** The static literal tree gets the fixed code, with the two symbols that do not exist included. */
  method InitStaticLiterals(ltree: array<CtData>, blCount: array<nat>)
    requires ltree.Length == 288 && Zeroed(blCount[..])
    modifies ltree, blCount
    ensures CodedAs(ltree[..], FIXED_LIT_LENS)
  {
    hide Zeroed, LensSet, CountsOk, CodedAs, CodesSet, Prefixable;
    ghost var bl := blCount[..];
    assert blCount.Length == MAX_BITS + 1 by { ZeroedSize(bl); }
    InitStaticLengths(ltree);
    blCount[7] := 279 - 255;
    blCount[8] := (143 + 1) + (287 - 279);
    blCount[9] := 255 - 143;
    assert blCount[..] == bl[7 := 24][8 := 152][9 := 112];
    FixedCounts(bl);
    FixedPrefixable();
    ghost var was := ltree[..];
    LensSetDone(was);
    assert ltree[..288] == was[..288];
    GenCodes(ltree, 287, blCount);
    AllCoded(was, ltree[..]);
  }

  lemma {:induction false} ZeroedSize(s: seq<nat>)
    requires Zeroed(s)
    ensures |s| == MAX_BITS + 1
  {
  }

  lemma {:induction false} AllCoded(was: seq<CtData>, now: seq<CtData>)
    requires |was| == 288 && LensSet(was, 288) && CodesSet(was, now, 288, FIXED_LIT_LENS)
    ensures CodedAs(now, FIXED_LIT_LENS)
  {
    hide Repeat;
  }

  lemma {:induction false} DistCodedStep(tree: seq<CtData>, n: nat)
    requires n < 30 && |tree| == 30 && CodedAs(tree[..n], FIXED_DIST_LENS)
    ensures var tree' := tree[n := CtData(Reversed(n, 5), 5)]; CodedAs(tree'[..n + 1], FIXED_DIST_LENS)
  {
    FixedDistCode(n);
    var tree' := tree[n := CtData(Reversed(n, 5), 5)];
    forall i | 0 <= i < n
      ensures tree'[..n + 1][i] == tree[..n][i]
    {
    }
  }

  /** The static distance tree. */
  method InitStaticDistances(dtree: array<CtData>)
    requires dtree.Length == 30
    modifies dtree
    ensures CodedAs(dtree[..], FIXED_DIST_LENS)
  {
    assert CodedAs(dtree[..][..0], FIXED_DIST_LENS);
    hide CodedAs;
    for n := 0 to 30
      invariant CodedAs(dtree[..][..n], FIXED_DIST_LENS)
    {
      ghost var t := dtree[..];
      DistCodedStep(t, n);
      var code := BiReverse(n, 5);
      dtree[n] := CtData(code, 5);
      assert dtree[..] == t[n := CtData(code, 5)];
    }
    assert dtree[..][..30] == dtree[..];
  }
}
