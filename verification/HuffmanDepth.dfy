/** When build_tree finds a shortest code: whenever some shortest code keeps to the limit on lengths. */
module HuffmanDepth {
  import opened Bits
  import opened CanonicalCode
  import opened HuffmanTree
  import opened HuffmanOptimal
  import opened HuffmanHeight
  import opened BitLengths
  import opened GenBitlen
  import opened TreeInit
  import opened HuffmanBuild

  /** Lengths of a prefix code for the symbols that occur, none above the limit. */
  ghost predicate CodeWithin(t: seq<CtData>, elems: nat, l: seq<nat>, limit: nat) {
    |l| == elems <= |t| && BoundedLens(l, limit) && UsedCoded(t, l) && KraftSum(l, limit) <= Pow2(limit)
  }

  /** Some shortest code keeps to the limit. */
  ghost predicate ShortestFits(t: seq<CtData>, elems: nat, limit: nat) {
    exists l: seq<nat> :: CodeWithin(t, elems, l, limit) && Shortest(t, l)
  }

  /** The cost of a code for the symbols that occur, on the nodes of the tree. */
  lemma {:induction false} CodeCost(t: seq<CtData>, elems: nat, w: seq<nat>, l: seq<nat>, limit: nat)
    returns (l': seq<nat>)
    requires CodeWithin(t, elems, l, limit) && elems <= |w| && forall x :: 0 <= x < elems ==> w[x] == t[x].fc
    ensures |l'| == |w| && KraftOk(Used(t, elems), l', limit)
    ensures Cost(Used(t, elems), w, l') == CodeBits(t, l, elems)
  {
    hide KraftSum, SumIn, Pow2, CodeBits;
    var s := Used(t, elems);
    l' := l + seq(|w| - elems, _ => 0);
    CodeBitsIsCost(t, l, elems, w, l', elems);
    SumBeyond(s, Products(w, l'), elems, |w|);
    KraftAtLeast(l, l', s, limit, elems);
    assert l[..elems] == l;
    SumBeyond(s, Shares(l', limit), elems, |l'|);
  }

  /** The tree's own lengths, however long, as a code. */
  lemma {:induction false} OwnCode(t: seq<CtData>, elems: nat, w: seq<nat>, merges: seq<(nat, nat)>)
    returns (l: seq<nat>)
    requires elems <= |t| && elems <= |w| && forall x :: 0 <= x < elems ==> w[x] == t[x].fc
    requires Complete(Used(t, elems), elems, merges) && Greedy(Used(t, elems), elems, merges, w)
    ensures CodeWithin(t, elems, l, |merges| + 1) && elems + |merges| <= |w|
    ensures CodeBits(t, l, elems) == InnerWeight(w, elems, |merges|, 0)
  {
    hide KraftSum, SumIn, Pow2, CodeBits, Complete, Greedy, InnerWeight;
    var s, limit := Used(t, elems), |merges| + 1;
    GreedySize(s, elems, merges, w);
    var own := OwnLens(s, elems, merges, w);
    l := seq(elems, x requires 0 <= x < elems => if x in s then own[x] else 0);
    CodeBitsIsCost(t, l, elems, w, own, elems);
    SumBeyond(s, Products(w, own), elems, |w|);
    KraftIsSum(l, own, s, limit, elems);
    assert l[..elems] == l;
    SumBeyond(s, Shares(own, limit), elems, |own|);
  }

  /** If the tree is too deep, no code within the limit is a shortest one. */
  lemma {:induction false} DeepNoneFits(t: seq<CtData>, elems: nat, w: seq<nat>, merges: seq<(nat, nat)>, len: seq<nat>,
                                        limit: nat, l: seq<nat>)
    requires elems <= |t| && DeepTree(t, elems, w, merges, len, limit) && CodeWithin(t, elems, l, limit)
    ensures !Shortest(t, l)
  {
    hide KraftSum, SumIn, Pow2, CodeBits, Complete, Greedy, InnerWeight, LowFirst, Cost, KraftOk, ClampedLens, AtLimit;
    var s := Used(t, elems);
    var h :| LowFirst(s, elems, merges, w, h);
    if Shortest(t, l) {
      var own := OwnCode(t, elems, w, merges);
      var l' := CodeCost(t, elems, w, l, limit);
      HeightIsLeast(s, elems, merges, w, h, l', limit);
      LowHeights(s, elems, merges, w, h);
      CutOffHigh(s, elems, merges, h, len, limit);
    }
  }

  lemma {:induction false} LowHeights(leaves: set<nat>, elems: nat, merges: seq<(nat, nat)>, w: seq<nat>, h: seq<nat>)
    requires LowFirst(leaves, elems, merges, w, h)
    ensures Heights(leaves, elems, merges, h)
  {
  }

  /** The code that build_tree makes is a shortest one if and only if some shortest code keeps to the limit. */
  lemma {:induction false} ShortestExactly(d: TreeDesc, t0: seq<CtData>, now: seq<CtData>, maxCode: nat, lens: seq<nat>,
                                           opt0: nat, stat0: nat, opt: nat, stat: nat)
    requires TreeResult(d, t0, now, maxCode, lens, opt0, stat0, opt, stat)
    ensures |lens| <= |t0| && (Shortest(t0, lens) <==> ShortestFits(t0, d.elems, d.maxLength))
  {
    hide Shortest, DeepTree, ForcedShort, KraftSum, CodedAs, Prefixable, LensStored, UsedCoded, LastUsed, DescOk, U32,
      OwnTotal, FixedTotal, BoundedLens;
    assert CodeWithin(t0, d.elems, lens, d.maxLength);
    if ShortestFits(t0, d.elems, d.maxLength) && !Shortest(t0, lens) {
      var l :| CodeWithin(t0, d.elems, l, d.maxLength) && Shortest(t0, l);
      var w, merges, len :| DeepTree(t0, d.elems, w, merges, len, d.maxLength);
      DeepNoneFits(t0, d.elems, w, merges, len, d.maxLength, l);
    }
  }

  // --- Light frequencies ---

  lemma {:induction false} TotalIs(t: seq<CtData>, elems: nat, w: seq<nat>, n: nat)
    requires n <= elems <= |t| && elems <= |w| && forall x :: 0 <= x < elems ==> w[x] == t[x].fc
    ensures SumIn(Used(t, elems), w, n) == FreqTotal(t, n)
  {
    if n > 0 {
      TotalIs(t, elems, w, n - 1);
    }
  }

  /** A tree that is too deep weighs at least Fib(limit + 3). */
  lemma {:induction false} DeepIsHeavy(t: seq<CtData>, elems: nat, w: seq<nat>, merges: seq<(nat, nat)>, len: seq<nat>,
                                       limit: nat)
    requires elems <= |t| && DeepTree(t, elems, w, merges, len, limit)
    ensures FreqTotal(t, elems) >= Fib(limit + 3)
  {
    hide Alive, Fib, FreqTotal, MergesOk, Greedy, LowFirst, ClampedLens, AtLimit, SumIn;
    var leaves, root := Used(t, elems), elems + |merges| - 1;
    var h :| LowFirst(leaves, elems, merges, w, h);
    LowHeights(leaves, elems, merges, w, h);
    CutOffHigh(leaves, elems, merges, h, len, limit);
    HeightWeight(leaves, elems, merges, w, h, root);
    FibGrows(limit + 3, h[root] + 2);
    RootWeight(leaves, elems, merges, w, 0);
    NoneMerged(leaves, elems, merges);
    TotalIs(t, elems, w, elems);
    SumBeyond(leaves, w, elems, |w|);
  }

  /** Frequencies whose total is below Fib(limit + 3), which is 2584 for a limit of 15 bits and 55 for one of 7, get a
      shortest code. */
  lemma {:induction false} LightIsShortest(d: TreeDesc, t0: seq<CtData>, now: seq<CtData>, maxCode: nat, lens: seq<nat>,
                                           opt0: nat, stat0: nat, opt: nat, stat: nat)
    requires TreeResult(d, t0, now, maxCode, lens, opt0, stat0, opt, stat)
    requires d.elems <= |t0| && FreqTotal(t0, d.elems) < Fib(d.maxLength + 3)
    ensures |lens| <= |t0| && Shortest(t0, lens) && Fib(15 + 3) == 2584 && Fib(7 + 3) == 55
  {
    hide Fib, FreqTotal, Shortest, DeepTree, ForcedShort, KraftSum, CodedAs, Prefixable, LensStored, UsedCoded,
      LastUsed, DescOk, U32, OwnTotal, FixedTotal;
    FibValues();
    if HuffmanTooDeep(t0, d.elems, d.maxLength) {
      var w, merges, len :| DeepTree(t0, d.elems, w, merges, len, d.maxLength);
      DeepIsHeavy(t0, d.elems, w, merges, len, d.maxLength);
    }
  }
}
