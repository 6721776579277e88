/** Handing out the longest lengths to the rarest symbols is the cheapest way to hand out given lengths. */
module CheapestLengths {
  import opened CanonicalCode
  import opened HuffmanTree
  import opened GenBitlen
  import opened TreeBuilder
  import opened HuffmanBuild

  /** The symbols with at least b bits. */
  ghost function AtLeast(l: seq<nat>, b: nat): (s: set<nat>)
    ensures forall x :: x in s <==> 0 <= x < |l| && l[x] >= b
  {
    set x: nat | x < |l| && l[x] >= b
  }

  /** Frequencies of the first n symbols added up once for every number of bits from b to top that they reach. */
  ghost function Layers(t: seq<CtData>, l: seq<nat>, b: nat, top: nat, n: nat): int
    requires n <= |t| && b <= top + 1
    decreases top + 1 - b
  {
    if b > top then 0 else SumIn(AtLeast(l, b), Freqs(t), n) + Layers(t, l, b + 1, top, n)
  }

  lemma {:induction false} NoLayers(t: seq<CtData>, l: seq<nat>, b: nat, top: nat)
    requires b <= top + 1
    ensures Layers(t, l, b, top, 0) == 0
    decreases top + 1 - b
  {
    if b <= top {
      NoLayers(t, l, b + 1, top);
    }
  }

  lemma {:induction false} OneMoreSymbol(t: seq<CtData>, l: seq<nat>, b: nat, top: nat, n: nat)
    requires n < |t| && n < |l| && l[n] <= top && b <= top + 1
    ensures Layers(t, l, b, top, n + 1) == Layers(t, l, b, top, n) + t[n].fc * (if l[n] >= b then l[n] - b + 1 else 0)
    decreases top + 1 - b
  {
    if b <= top {
      OneMoreSymbol(t, l, b + 1, top, n);
      if l[n] > b {
        assert t[n].fc * (l[n] - b + 1) == t[n].fc * (l[n] - b) + t[n].fc;
      }
    }
  }

  /** The bits of a code, counted layer by layer. */
  lemma {:induction false} BitsInLayers(t: seq<CtData>, l: seq<nat>, top: nat, n: nat)
    requires n <= |t| && n <= |l| && BoundedLens(l, top)
    ensures CodeBits(t, l, n) == Layers(t, l, 1, top, n)
  {
    hide Layers;
    if n == 0 {
      NoLayers(t, l, 1, top);
    } else {
      BitsInLayers(t, l, top, n - 1);
      OneMoreSymbol(t, l, 1, top, n - 1);
    }
  }

  ghost function Exactly(l: seq<nat>, b: nat): (s: set<nat>)
    ensures forall x :: x in s <==> 0 <= x < |l| && l[x] == b
  {
    set x: nat | x < |l| && l[x] == b
  }

  lemma {:induction false} CountIsCard(l: seq<nat>, b: nat)
    ensures |Exactly(l, b)| == Count(l, b)
  {
    if l == [] {
      assert Exactly(l, b) == {};
    } else {
      var k := |l| - 1;
      CountIsCard(l[..k], b);
      assert Exactly(l, b) == Exactly(l[..k], b) + if l[k] == b then {k} else {};
    }
  }

  lemma {:induction false} LayerCard(l: seq<nat>, b: nat)
    ensures |AtLeast(l, b)| == |AtLeast(l, b + 1)| + Count(l, b)
  {
    CountIsCard(l, b);
    assert AtLeast(l, b) == AtLeast(l, b + 1) + Exactly(l, b);
  }

  /** The same lengths for other symbols. */
  ghost predicate SameCounts(l: seq<nat>, l': seq<nat>) {
    forall b: nat :: b >= 1 ==> Count(l, b) == Count(l', b)
  }

  lemma {:induction false} SameCards(l: seq<nat>, l': seq<nat>, b: nat, top: nat)
    requires SameCounts(l, l') && BoundedLens(l, top) && BoundedLens(l', top) && 1 <= b <= top + 1
    ensures |AtLeast(l, b)| == |AtLeast(l', b)|
    decreases top + 1 - b
  {
    if b > top {
      assert AtLeast(l, b) == {} == AtLeast(l', b);
    } else {
      SameCards(l, l', b + 1, top);
      LayerCard(l, b);
      LayerCard(l', b);
    }
  }

  /** Of two sets of one size, the one with the smaller members has the smaller sum. */
  lemma {:induction false} SmallerSum(s: set<nat>, s': set<nat>, w: seq<int>, n: nat)
    requires n <= |w| && |s| == |s'|
    requires forall x, y :: x in s && x !in s' && y in s' && y !in s ==> x < n && y < n && w[x] <= w[y]
    ensures SumIn(s, w, n) <= SumIn(s', w, n)
    decreases |s - s'|
  {
    hide SumIn;
    SameDifference(s, s');
    if s - s' == {} {
      assert s' - s == {};
      assert s == s';
    } else {
      var x, y :| x in s - s' && y in s' - s;
      var r := s - {x} + {y};
      SumRemove(s, x, w, n);
      SumAdd(s - {x}, y, w, n);
      assert r - s' == (s - s') - {x} && s' - r == (s' - s) - {y};
      SmallerSum(r, s', w, n);
    }
  }

  lemma {:induction false} SameDifference(s: set<nat>, s': set<nat>)
    requires |s| == |s'|
    ensures |s - s'| == |s' - s| && (s - s' != {} ==> exists x, y :: x in s - s' && y in s' - s)
  {
    assert s == (s - s') + (s * s') && s' == (s' - s) + (s * s');
    if s - s' != {} {
      assert |s - s'| > 0;
      var x :| x in s - s';
      var y :| y in s' - s;
      assert x in s - s' && y in s' - s;
    }
  }

  lemma {:induction false} LayersLeast(t: seq<CtData>, l: seq<nat>, l': seq<nat>, b: nat, top: nat)
    requires |l| == |l'| <= |t| && Ranked(t, l) && SameCounts(l, l') && BoundedLens(l, top) && BoundedLens(l', top)
    requires (forall x :: 0 <= x < |l| ==> (l[x] > 0 <==> l'[x] > 0)) && 1 <= b <= top + 1
    ensures Layers(t, l, b, top, |l|) <= Layers(t, l', b, top, |l|)
    decreases top + 1 - b
  {
    hide Ranked, SameCounts, SumIn;
    if b <= top {
      LayersLeast(t, l, l', b + 1, top);
      SameCards(l, l', b, top);
      LayerLeast(t, l, l', b);
    }
  }

  lemma {:induction false} LayerLeast(t: seq<CtData>, l: seq<nat>, l': seq<nat>, b: nat)
    requires |l| == |l'| && Ranked(t, l) && b >= 1 && |AtLeast(l, b)| == |AtLeast(l', b)|
    requires forall x :: 0 <= x < |l| ==> (l[x] > 0 <==> l'[x] > 0)
    ensures SumIn(AtLeast(l, b), Freqs(t), |l|) <= SumIn(AtLeast(l', b), Freqs(t), |l|)
  {
    hide SumIn;
    SmallerSum(AtLeast(l, b), AtLeast(l', b), Freqs(t), |l|);
  }

  /** Lengths that never rise with the frequency cost no more than the same lengths handed out in any other way. */
  lemma {:induction false} RankedCheapest(t: seq<CtData>, l: seq<nat>, l': seq<nat>, top: nat)
    requires |l| == |l'| && Ranked(t, l) && SameCounts(l, l') && BoundedLens(l, top) && BoundedLens(l', top)
    requires forall x :: 0 <= x < |l| ==> (l[x] > 0 <==> l'[x] > 0)
    ensures CodeBits(t, l, |l|) <= CodeBits(t, l', |l|)
  {
    hide Layers, SameCounts, Ranked;
    assert |l| <= |t| by { RankedSize(t, l); }
    BitsInLayers(t, l, top, |l|);
    BitsInLayers(t, l', top, |l|);
    LayersLeast(t, l, l', 1, top);
  }

  lemma {:induction false} RankedSize(t: seq<CtData>, l: seq<nat>)
    requires Ranked(t, l)
    ensures |l| <= |t|
  {
  }

  /** build_tree gives the coded symbols their lengths in the cheapest way, whether or not lengths were repaired. */
  lemma {:induction false} CheapestForCounts(d: TreeDesc, t0: seq<CtData>, now: seq<CtData>, maxCode: nat,
                                             lens: seq<nat>, opt0: nat, stat0: nat, opt: nat, stat: nat, l: seq<nat>)
    requires TreeResult(d, t0, now, maxCode, lens, opt0, stat0, opt, stat)
    requires |l| == |lens| && SameCounts(lens, l) && forall x :: 0 <= x < |l| ==> (lens[x] > 0 <==> l[x] > 0)
    ensures |lens| <= |t0| && CodeBits(t0, lens, |lens|) <= CodeBits(t0, l, |lens|)
  {
    hide SameCounts, DescOk, LensStored, UsedCoded, LastUsed, KraftSum, CodedAs, Prefixable, OwnTotal, FixedTotal,
      Shortest, HuffmanTooDeep, ForcedShort, Ranked;
    NoneLonger(lens, l, d.maxLength);
    RankedCheapest(t0, lens, l, d.maxLength);
  }

  lemma {:induction false} CountedOnce(l: seq<nat>, x: nat)
    requires x < |l|
    ensures Count(l, l[x]) >= 1
  {
    if x < |l| - 1 {
      CountedOnce(l[..|l| - 1], x);
    }
  }

  lemma {:induction false} NoneLonger(l: seq<nat>, l': seq<nat>, top: nat)
    requires SameCounts(l, l') && BoundedLens(l, top)
    ensures BoundedLens(l', top)
  {
    forall x | 0 <= x < |l'|
      ensures l'[x] <= top
    {
      if l'[x] > top {
        CountedOnce(l', x);
        NoLonger(l, top, l'[x]);
      }
    }
  }
}
