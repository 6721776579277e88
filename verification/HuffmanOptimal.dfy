/** Greedy merging is optimal: no code lengths that satisfy Kraft's inequality, hence no prefix code,
    give a smaller total of frequency times length. */
module HuffmanOptimal {
  import opened Bits
  import opened HuffmanTree

  ghost function Products(w: seq<nat>, l: seq<nat>): (p: seq<int>)
    requires |w| == |l|
    ensures |p| == |w| && forall x :: 0 <= x < |w| ==> p[x] == w[x] * l[x]
  {
    seq(|w|, x requires 0 <= x < |w| => w[x] * l[x])
  }

  /** Total of weight times length over the nodes in s. */
  ghost function Cost(s: set<nat>, w: seq<nat>, l: seq<nat>): int
    requires |w| == |l|
  {
    SumIn(s, Products(w, l), |w|)
  }

  /** Lengths of some prefix code for the nodes in s: bounded, and with Kraft sum at most 1. */
  ghost predicate KraftOk(s: set<nat>, l: seq<nat>, bound: nat) {
    && (forall x :: x in s ==> x < |l| && l[x] <= bound)
    && SumIn(s, Shares(l, bound), |l|) <= Pow2(bound)
  }

  // --- Moving lengths around ---

  lemma {:induction false} SharesUpdate(l: seq<nat>, bound: nat, x: nat, e: nat)
    requires x < |l| && e <= bound
    ensures Shares(l[x := e], bound) == Shares(l, bound)[x := Pow2(bound - e)]
  {
  }

  lemma {:induction false} ProductsUpdate(w: seq<nat>, l: seq<nat>, x: nat, e: nat)
    requires x < |l| == |w|
    ensures Products(w, l[x := e]) == Products(w, l)[x := w[x] * e]
  {
  }

  lemma {:induction false} SetLength(s: set<nat>, w: seq<nat>, l: seq<nat>, bound: nat, x: nat, e: nat)
    requires |w| == |l| && x in s && x < |l| && l[x] <= bound && e <= bound
    ensures SumIn(s, Shares(l[x := e], bound), |l|)
         == SumIn(s, Shares(l, bound), |l|) - Pow2(bound - l[x]) + Pow2(bound - e)
    ensures Cost(s, w, l[x := e]) == Cost(s, w, l) - w[x] * l[x] + w[x] * e
  {
    SharesUpdate(l, bound, x, e);
    ProductsUpdate(w, l, x, e);
    SumUpdate(s, Shares(l, bound), x, Pow2(bound - e), |l|);
    SumUpdate(s, Products(w, l), x, w[x] * e, |l|);
  }

  /** Exchanging a short length of a heavy node with a long length of a light one. */
  lemma {:induction false} Exchange(s: set<nat>, w: seq<nat>, l: seq<nat>, bound: nat, a: nat, x: nat)
    requires |w| == |l| && KraftOk(s, l, bound) && a in s && x in s && a != x
    requires w[a] <= w[x] && l[a] <= l[x]
    ensures KraftOk(s, l[a := l[x]][x := l[a]], bound)
    ensures Cost(s, w, l[a := l[x]][x := l[a]]) <= Cost(s, w, l)
    ensures w[a] < w[x] && l[a] < l[x] ==> Cost(s, w, l[a := l[x]][x := l[a]]) < Cost(s, w, l)
  {
    hide Cost, Shares;
    SetLength(s, w, l, bound, a, l[x]);
    SetLength(s, w, l[a := l[x]], bound, x, l[a]);
    ExchangeGain(w[a], w[x], l[a], l[x]);
  }

  lemma {:induction false} ExchangeGain(wa: nat, wx: nat, la: nat, lx: nat)
    requires wa <= wx && la <= lx
    ensures wa * lx + wx * la <= wa * la + wx * lx
    ensures wa < wx && la < lx ==> wa * lx + wx * la < wa * la + wx * lx
  {
    assert (wx - wa) * (lx - la) >= 0;
    assert wa < wx && la < lx ==> (wx - wa) * (lx - la) > 0;
    assert (wx - wa) * (lx - la) == wx * lx - wx * la - wa * lx + wa * la;
  }

  lemma {:induction false} HalveShares(s: set<nat>, l: seq<nat>, bound: nat, n: nat)
    requires bound > 0 && n <= |l| && forall x :: x in s && x < n ==> l[x] < bound
    ensures SumIn(s, Shares(l, bound), n) == 2 * SumIn(s, Shares(l, bound - 1), n)
  {
    if n > 0 {
      HalveShares(s, l, bound, n - 1);
      if n - 1 in s {
        assert Pow2(bound - l[n - 1]) == 2 * Pow2(bound - 1 - l[n - 1]);
      }
    }
  }

  lemma {:induction false} TightenBound(s: set<nat>, l: seq<nat>, bound: nat)
    requires KraftOk(s, l, bound) && bound > 0 && forall x :: x in s ==> l[x] < bound
    ensures KraftOk(s, l, bound - 1)
  {
    HalveShares(s, l, bound, |l|);
    assert Pow2(bound) == 2 * Pow2(bound - 1);
  }

  /** A longest code without a partner can be shortened. */
  lemma {:induction false} ShortenLonely(s: set<nat>, w: seq<nat>, l: seq<nat>, bound: nat, x: nat)
    requires |w| == |l| && KraftOk(s, l, bound) && bound > 0
    requires x in s && l[x] == bound && forall y :: y in s && y != x ==> l[y] < bound
    ensures KraftOk(s, l[x := bound - 1], bound - 1)
    ensures Cost(s, w, l[x := bound - 1]) <= Cost(s, w, l)
  {
    hide Cost;
    SumRemove(s, x, Shares(l, bound), |l|);
    HalveShares(s - {x}, l, bound, |l|);
    assert Pow2(bound) == 2 * Pow2(bound - 1);
    assert Pow2(1) == 2 && Pow2(0) == 1;
    SetLength(s, w, l, bound, x, bound - 1);
    assert w[x] * (bound - 1) == w[x] * bound - w[x];
    TightenBound(s, l[x := bound - 1], bound);
  }

  lemma {:induction false} AnotherMember(s: set<nat>, x: nat) returns (y: nat)
    requires |s| >= 2 && x in s
    ensures y in s && y != x
  {
    assert |s - {x}| >= 1;
    y :| y in s - {x};
  }

  lemma {:induction false} NotBothZero(s: set<nat>, l: seq<nat>, x: nat, y: nat)
    requires KraftOk(s, l, 0) && x in s && y in s
    ensures x == y
  {
    if x != y {
      var w := Shares(l, 0);
      SumRemove(s, x, w, |l|);
      SumRemove(s - {x}, y, w, |l|);
      SumNonNegative(s - {x} - {y}, w, |l|);
    }
  }

  /** Lengths at least as good, and no longer, in which two nodes share the greatest length. */
  lemma {:induction false} TwoDeepest(s: set<nat>, w: seq<nat>, l: seq<nat>, bound: nat)
    returns (l': seq<nat>, top: nat, x: nat, y: nat)
    requires |w| == |l| && KraftOk(s, l, bound) && |s| >= 2
    ensures |l'| == |l| && KraftOk(s, l', top) && Cost(s, w, l') <= Cost(s, w, l)
    ensures x in s && y in s && x != y && l'[x] == l'[y] == top >= 1
    ensures forall z :: z in s ==> l'[z] <= l[z]
    decreases bound
  {
    hide Cost, Shares;
    if z :| z in s && l[z] == bound {
      if z' :| z' in s && z' != z && l[z'] == bound {
        if bound == 0 {
          NotBothZero(s, l, z, z');
        }
        l', top, x, y := l, bound, z, z';
      } else {
        var z'' := AnotherMember(s, z);
        ShortenLonely(s, w, l, bound, z);
        l', top, x, y := TwoDeepest(s, w, l[z := bound - 1], bound - 1);
      }
    } else {
      var z: nat :| z in s;
      TightenBound(s, l, bound);
      l', top, x, y := TwoDeepest(s, w, l, bound - 1);
    }
  }

  /** Lengths at least as good in which the two lightest nodes share the greatest length. */
  lemma {:induction false} LightestDeepest(s: set<nat>, w: seq<nat>, l: seq<nat>, bound: nat, a: nat, b: nat)
    returns (l': seq<nat>, top: nat)
    requires |w| == |l| && KraftOk(s, l, bound) && a in s && b in s && a != b
    requires forall x :: x in s ==> w[a] <= w[x] && (x != a ==> w[b] <= w[x])
    ensures |l'| == |l| && KraftOk(s, l', top) && Cost(s, w, l') <= Cost(s, w, l)
    ensures l'[a] == l'[b] == top >= 1
  {
    hide Cost, Shares;
    assert |s| >= 2 by {
      assert {a, b} <= s;
      SubsetCard({a, b}, s);
    }
    var x, y;
    l', top, x, y := TwoDeepest(s, w, l, bound);
    if y == a {
      x, y := y, x;
    }
    if x != a {
      Exchange(s, w, l', top, a, x);
      l' := l'[a := l'[x]][x := l'[a]];
    }
    assert l'[a] == l'[y] == top;
    if y != b {
      Exchange(s, w, l', top, b, y);
      l' := l'[b := l'[y]][y := l'[b]];
    }
  }

  lemma {:induction false} SubsetCard(t: set<nat>, s: set<nat>)
    requires t <= s
    ensures |t| <= |s|
  {
    assert s == t + (s - t);
  }

  // --- The two sides of the theorem ---

  /** Merge j joins the two lightest live nodes and the new node carries their weight. */
  ghost predicate GreedyAt(leaves: set<nat>, elems: nat, merges: seq<(nat, nat)>, w: seq<nat>, j: nat)
    requires j < |merges|
  {
    var n, m := merges[j].0, merges[j].1;
    && n < |w| && m < |w| && elems + j < |w|
    && w[elems + j] == w[n] + w[m]
    && forall x :: x in Alive(leaves, elems, merges, j) ==>
         x < |w| && w[n] <= w[x] && (x != n ==> w[m] <= w[x])
  }

  ghost predicate Greedy(leaves: set<nat>, elems: nat, merges: seq<(nat, nat)>, w: seq<nat>) {
    |w| >= elems + |merges| && forall j :: 0 <= j < |merges| ==> GreedyAt(leaves, elems, merges, w, j)
  }

  /** Total weight of the inner nodes created from merge k on. */
  ghost function InnerWeight(w: seq<nat>, elems: nat, total: nat, k: nat): nat
    requires k <= total && elems + total <= |w|
    decreases total - k
  {
    if k == total then 0 else w[elems + k] + InnerWeight(w, elems, total, k + 1)
  }

  /** Joining a and b under c, one shorter, keeps Kraft's inequality and saves the weight of c. */
  lemma {:induction false} JoinCost(s: set<nat>, w: seq<nat>, l: seq<nat>, top: nat, a: nat, b: nat, c: nat)
    requires |w| == |l| && KraftOk(s, l, top) && a in s && b in s && a != b && c !in s && c < |w|
    requires l[a] == l[b] == top >= 1 && w[c] == w[a] + w[b]
    ensures KraftOk(s - {a, b} + {c}, l[c := top - 1], top)
    ensures Cost(s - {a, b} + {c}, w, l[c := top - 1]) == Cost(s, w, l) - w[c]
  {
    var l' := l[c := top - 1];
    SumMerge(s, a, b, c, Shares(l', top), |l|);
    SumMerge(s, a, b, c, Products(w, l'), |l|);
    SumAgree(s, Shares(l, top), Shares(l', top), |l|);
    SumAgree(s, Products(w, l), Products(w, l'), |l|);
    assert Pow2(0) == 1 && Pow2(1) == 2;
    assert w[c] * (top - 1) == w[a] * top + w[b] * top - w[c];
  }

  /** Any lengths for the live nodes cost at least the inner nodes still to come. */
  lemma {:induction false} CostAtLeast(leaves: set<nat>, elems: nat, merges: seq<(nat, nat)>, w: seq<nat>, k: nat,
                                       l: seq<nat>, bound: nat)
    requires Complete(leaves, elems, merges) && Greedy(leaves, elems, merges, w) && k <= |merges|
    requires |l| == |w| && KraftOk(Alive(leaves, elems, merges, k), l, bound)
    ensures Cost(Alive(leaves, elems, merges, k), w, l) >= InnerWeight(w, elems, |merges|, k)
    decreases |merges| - k
  {
    var s := Alive(leaves, elems, merges, k);
    if k == |merges| {
      SumNonNegative(s, Products(w, l), |w|);
    } else {
      hide Cost, KraftOk;
      var a, b := merges[k].0, merges[k].1;
      MergeFacts(leaves, elems, merges, k);
      assert GreedyAt(leaves, elems, merges, w, k);
      var l', top := LightestDeepest(s, w, l, bound, a, b);
      JoinCost(s, w, l', top, a, b, elems + k);
      CostAtLeast(leaves, elems, merges, w, k + 1, l'[elems + k := top - 1], top);
    }
  }

  /** The tree's own lengths cost exactly the inner nodes, if nothing was cut off. */
  lemma {:induction false} CostOfTree(leaves: set<nat>, elems: nat, merges: seq<(nat, nat)>, w: seq<nat>, k: nat,
                                      len: seq<nat>, limit: nat)
    requires Complete(leaves, elems, merges) && Greedy(leaves, elems, merges, w) && k <= |merges|
    requires |len| == |w| && ClampedLens(len, elems, merges, limit)
    requires AtLimit(len, elems, |merges|, k, limit) == 0
    ensures Cost(Alive(leaves, elems, merges, k), w, len) == InnerWeight(w, elems, |merges|, k)
    decreases |merges| - k
  {
    if k == |merges| {
      OnlyRoot(leaves, elems, merges);
      SumSingle(elems + k - 1, Products(w, len), |w|);
    } else {
      hide Cost;
      CostOfTree(leaves, elems, merges, w, k + 1, len, limit);
      MergeFacts(leaves, elems, merges, k);
      assert GreedyAt(leaves, elems, merges, w, k);
      assert SonsClamped(len, elems, merges, k, limit);
      hide ClampedLens, Greedy, Complete;
      SplitCost(Alive(leaves, elems, merges, k), w, len, merges[k].0, merges[k].1, elems + k);
    }
  }

  lemma {:induction false} SplitCost(s: set<nat>, w: seq<nat>, len: seq<nat>, a: nat, b: nat, c: nat)
    requires |w| == |len| && a in s && b in s && a != b && c !in s && a < |w| && b < |w| && c < |w|
    requires len[a] == len[b] == len[c] + 1 && w[c] == w[a] + w[b]
    ensures Cost(s, w, len) == Cost(s - {a, b} + {c}, w, len) + w[c]
  {
    SumMerge(s, a, b, c, Products(w, len), |w|);
    assert w[a] * (len[c] + 1) + w[b] * (len[c] + 1) == w[c] * len[c] + w[c];
  }

  /** Huffman's theorem for the lengths of a greedy merge in which no length was cut off. */
  lemma {:induction false} HuffmanIsOptimal(leaves: set<nat>, elems: nat, merges: seq<(nat, nat)>, w: seq<nat>,
                                            len: seq<nat>, limit: nat, l: seq<nat>, bound: nat)
    requires Complete(leaves, elems, merges) && Greedy(leaves, elems, merges, w)
    requires |len| == |w| && ClampedLens(len, elems, merges, limit)
    requires AtLimit(len, elems, |merges|, 0, limit) == 0
    requires |l| == |w| && KraftOk(leaves, l, bound)
    ensures Cost(leaves, w, len) <= Cost(leaves, w, l)
  {
    CostOfTree(leaves, elems, merges, w, 0, len, limit);
    CostAtLeast(leaves, elems, merges, w, 0, l, bound);
  }

  /** In a tree that was not cut off the lighter of two leaves is at least as deep. */
  lemma {:induction false} LighterDeeper(leaves: set<nat>, elems: nat, merges: seq<(nat, nat)>, w: seq<nat>,
                                         len: seq<nat>, limit: nat, x: nat, y: nat)
    requires Complete(leaves, elems, merges) && Greedy(leaves, elems, merges, w)
    requires |len| == |w| && ClampedLens(len, elems, merges, limit)
    requires AtLimit(len, elems, |merges|, 0, limit) == 0
    requires x in leaves && y in leaves && x < |w| && y < |w| && w[x] < w[y]
    ensures len[x] >= len[y]
  {
    hide Cost, Greedy, AtLimit;
    if len[x] < len[y] {
      TreeKraft(leaves, elems, merges, len, limit);
      Exchange(leaves, w, len, limit, x, y);
      HuffmanIsOptimal(leaves, elems, merges, w, len, limit, len[x := len[y]][y := len[x]], limit);
    }
  }

  lemma {:induction false} TreeKraft(leaves: set<nat>, elems: nat, merges: seq<(nat, nat)>, len: seq<nat>, limit: nat)
    requires Complete(leaves, elems, merges) && ClampedLens(len, elems, merges, limit)
    requires AtLimit(len, elems, |merges|, 0, limit) == 0
    ensures KraftOk(leaves, len, limit)
  {
    hide AtLimit, Alive;
    KraftOfLeaves(leaves, elems, merges, len, limit);
    forall x | x in leaves
      ensures x < |len| && len[x] <= limit
    {
      var j := HasFather(leaves, elems, merges, x);
      assert SonsClamped(len, elems, merges, j, limit);
    }
  }
}
