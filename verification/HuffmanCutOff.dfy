/** Frequencies for which build_tree does not find a shortest code: the Fibonacci numbers, two more of them than the
    limit on lengths. */
module HuffmanCutOff {
  import opened CanonicalCode
  import opened HuffmanTree
  import opened HuffmanOptimal
  import opened HuffmanHeight
  import opened GenBitlen
  import opened TreeBuilder
  import opened TreeInit
  import opened HuffmanBuild
  import opened HuffmanDepth

  /** The first limit + 2 symbols occur as often as the Fibonacci numbers say, the others do not occur. */
  ghost predicate FibFreqs(t: seq<CtData>, elems: nat, limit: nat) {
    && limit >= 1 && limit + 2 <= elems <= |t|
    && forall x :: 0 <= x < elems ==> t[x].fc == if x < limit + 2 then Fib(x + 1) else 0
  }

  // --- The tree: a chain ---

  function Join(elems: nat, j: nat): (nat, nat) {
    if j == 0 then (0, 1) else (j + 1, elems + j - 1)
  }

  function Joins(elems: nat, limit: nat): (merges: seq<(nat, nat)>)
    ensures |merges| == limit + 1 && forall j :: 0 <= j < |merges| ==> merges[j] == Join(elems, j)
  {
    seq(limit + 1, j requires 0 <= j => Join(elems, j))
  }

  lemma {:induction false} FibPositive(n: nat)
    requires n >= 1
    ensures Fib(n) >= 1
  {
    FibGrows(1, n);
  }

  function Weight(elems: nat, limit: nat, x: nat): (w: nat)
    ensures x >= elems ==> w + 1 == Fib(x - elems + 4)
  {
    if x >= elems then FibPositive(x - elems + 4); Fib(x - elems + 4) - 1
    else if x < limit + 2 then Fib(x + 1)
    else 0
  }

  function Weights(elems: nat, limit: nat): (w: seq<nat>)
    ensures |w| == elems + limit + 1 && forall x :: 0 <= x < |w| ==> w[x] == Weight(elems, limit, x)
  {
    seq(elems + limit + 1, x requires 0 <= x => Weight(elems, limit, x))
  }

  function ChainHeights(elems: nat, limit: nat): (h: seq<nat>)
    ensures |h| == elems + limit + 1
    ensures forall x :: 0 <= x < |h| ==> h[x] == if x < elems then 0 else x - elems + 1
  {
    seq(elems + limit + 1, x requires 0 <= x => if x < elems then 0 else x - elems + 1)
  }

  /** Lengths in the chain, cut off at the limit. */
  function ChainLen(elems: nat, limit: nat, x: nat): nat {
    if x >= elems then (if x <= elems + limit then elems + limit - x else 0)
    else if x < 2 then limit
    else if x < limit + 2 then limit + 2 - x
    else 0
  }

  function ChainLens(elems: nat, limit: nat): (len: seq<nat>)
    ensures |len| == elems + limit + 1 && forall x :: 0 <= x < |len| ==> len[x] == ChainLen(elems, limit, x)
  {
    seq(elems + limit + 1, x requires 0 <= x => ChainLen(elems, limit, x))
  }

  function Below(n: nat): (s: set<nat>)
    ensures |s| == n && forall x :: x in s <==> 0 <= x < n
  {
    if n == 0 then {} else Below(n - 1) + {n - 1}
  }

  /** Live after j merges are the last node made and the symbols that have not had their turn. */
  predicate InChain(elems: nat, limit: nat, j: nat, x: nat) {
    if j == 0 then x < limit + 2 else x == elems + j - 1 || j + 1 <= x < limit + 2
  }

  lemma {:induction false} ChainAlive(elems: nat, limit: nat, j: nat, x: nat)
    requires limit >= 1 && limit + 2 <= elems && j <= limit + 1
    ensures x in Alive(Below(limit + 2), elems, Joins(elems, limit), j) <==> InChain(elems, limit, j, x)
  {
    hide Below;
    if j > 0 {
      ChainAlive(elems, limit, j - 1, x);
      assert Joins(elems, limit)[j - 1] == Join(elems, j - 1);
    }
  }

  lemma {:induction false} ChainComplete(elems: nat, limit: nat)
    requires limit >= 1 && limit + 2 <= elems
    ensures Complete(Below(limit + 2), elems, Joins(elems, limit))
  {
    hide Alive, Below;
    var leaves, merges := Below(limit + 2), Joins(elems, limit);
    forall j | 0 <= j < |merges|
      ensures MergeOk(leaves, elems, merges, j)
    {
      ChainAlive(elems, limit, j, merges[j].0);
      ChainAlive(elems, limit, j, merges[j].1);
    }
  }

  lemma {:induction false} ChainOrder(elems: nat, limit: nat, j: nat, x: nat)
    requires limit >= 1 && limit + 2 <= elems && j <= limit
    requires x in Alive(Below(limit + 2), elems, Joins(elems, limit), j)
    ensures x < elems + limit + 1
    ensures var w, h, n, m := Weights(elems, limit), ChainHeights(elems, limit), Join(elems, j).0, Join(elems, j).1;
      NotAbove(w, h, n, x) && (x != n ==> NotAbove(w, h, m, x))
  {
    hide Alive, Below, Fib, Joins;
    ChainAlive(elems, limit, j, x);
    FibSum(2);
    FibOne();
    FibPositive(j + 1);
    FibSum(j + 3);
    if x < elems {
      FibGrows(j + 2, Max(x + 1, j + 2));
      FibGrows(j + 3, Max(x + 1, j + 3));
      FibGrows(1, x + 1);
    }
  }

  lemma {:induction false} FibOne()
    ensures Fib(1) == 1 && Fib(2) == 1 && Fib(3) == 2 && Fib(4) == 3
  {
  }

  lemma {:induction false} ChainGreedy(elems: nat, limit: nat)
    requires limit >= 1 && limit + 2 <= elems
    ensures Greedy(Below(limit + 2), elems, Joins(elems, limit), Weights(elems, limit))
    ensures LowFirst(Below(limit + 2), elems, Joins(elems, limit), Weights(elems, limit), ChainHeights(elems, limit))
  {
    hide Alive, Below, Fib;
    var leaves, merges, w, h := Below(limit + 2), Joins(elems, limit), Weights(elems, limit), ChainHeights(elems,
    limit);
    forall j | 0 <= j < |merges|
      ensures GreedyAt(leaves, elems, merges, w, j) && LowAt(leaves, elems, merges, w, h, j)
      ensures HeightAt(elems, merges, h, j)
    {
      FibOne();
      FibSum(j + 4);
      assert merges[j] == Join(elems, j);
      forall x | x in Alive(leaves, elems, merges, j)
        ensures x < |w| && NotAbove(w, h, merges[j].0, x) && (x != merges[j].0 ==> NotAbove(w, h, merges[j].1, x))
      {
        ChainOrder(elems, limit, j, x);
      }
    }
    BelowIs(limit + 2);
  }

  lemma {:induction false} BelowIs(n: nat)
    ensures forall x :: x in Below(n) <==> 0 <= x < n
  {
  }

  lemma {:induction false} ChainDeep(elems: nat, limit: nat)
    requires limit >= 1 && limit + 2 <= elems
    ensures TooDeep(ChainLens(elems, limit), elems, Joins(elems, limit), limit)
  {
    var len, merges := ChainLens(elems, limit), Joins(elems, limit);
    forall j | 0 <= j < |merges|
      ensures SonsClamped(len, elems, merges, j, limit)
    {
      assert merges[j] == Join(elems, j);
    }
    assert len[elems] == limit;
  }

  lemma {:induction false} FibonacciDeep(t: seq<CtData>, elems: nat, limit: nat)
    requires FibFreqs(t, elems, limit)
    ensures DeepTree(t, elems, Weights(elems, limit), Joins(elems, limit), ChainLens(elems, limit), limit)
  {
    hide Fib, Alive, Greedy, LowFirst, Complete, TooDeep;
    assert Used(t, elems) == Below(limit + 2) by {
      UsedBelow(t, elems, limit);
    }
    ChainComplete(elems, limit);
    ChainGreedy(elems, limit);
    ChainDeep(elems, limit);
  }

  lemma {:induction false} UsedBelow(t: seq<CtData>, elems: nat, limit: nat)
    requires FibFreqs(t, elems, limit)
    ensures Used(t, elems) == Below(limit + 2)
  {
    hide Fib;
    forall x: nat | x < elems
      ensures x in Used(t, elems) <==> x in Below(limit + 2)
    {
      FibPositive(x + 1);
    }
  }

  /** For these frequencies the code that build_tree makes is not a shortest one. */
  lemma {:induction false} FibonacciCutOff(d: TreeDesc, t0: seq<CtData>, now: seq<CtData>, maxCode: nat, lens: seq<nat>,
                                           opt0: nat, stat0: nat, opt: nat, stat: nat)
    requires TreeResult(d, t0, now, maxCode, lens, opt0, stat0, opt, stat) && FibFreqs(t0, d.elems, d.maxLength)
    ensures |lens| <= |t0| && !Shortest(t0, lens)
  {
    hide Shortest, DeepTree, ForcedShort, KraftSum, CodedAs, Prefixable, LensStored, UsedCoded, LastUsed, DescOk,
      OwnTotal, FixedTotal, BoundedLens, HuffmanTooDeep;
    FibonacciDeep(t0, d.elems, d.maxLength);
    DeepNoneFits(t0, d.elems, Weights(d.elems, d.maxLength), Joins(d.elems, d.maxLength),
                 ChainLens(d.elems, d.maxLength), d.maxLength, lens);
  }
}
