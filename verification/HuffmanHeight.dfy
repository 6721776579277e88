/** How high a Huffman tree can be. A tree of height h weighs at least the Fibonacci number h + 2. And if equal weights
    are merged lower trees first, no tree of the same cost is lower: the tie breaker minimizes the worst case. */
module HuffmanHeight {
  import opened Bits
  import opened HuffmanTree
  import opened HuffmanOptimal

  function Fib(n: nat): nat {
    if n < 2 then n else Fib(n - 1) + Fib(n - 2)
  }

  lemma {:induction false} FibSum(n: nat)
    requires n >= 2
    ensures Fib(n) == Fib(n - 1) + Fib(n - 2)
  {
  }

  lemma {:induction false} FibGrows(m: nat, n: nat)
    requires m <= n
    ensures Fib(m) <= Fib(n)
    decreases n
  {
    if m < n {
      FibGrows(m, n - 1);
    }
  }

  function Max(a: nat, b: nat): nat {
    if a < b then b else a
  }

  /** Node elems + j is one higher than the higher of its sons. */
  ghost predicate HeightAt(elems: nat, merges: seq<(nat, nat)>, h: seq<nat>, j: nat)
    requires j < |merges|
  {
    var (n, m) := merges[j];
    n < |h| && m < |h| && elems + j < |h| && h[elems + j] == Max(h[n], h[m]) + 1
  }

  /** The heights of the trees below the nodes. */
  ghost predicate Heights(leaves: set<nat>, elems: nat, merges: seq<(nat, nat)>, h: seq<nat>) {
    && |h| >= elems + |merges| && (forall x :: x in leaves ==> x < |h| && h[x] == 0)
    && forall j :: 0 <= j < |merges| ==> HeightAt(elems, merges, h, j)
  }

  // --- Weights along the merges ---

  lemma {:induction false} GreedySize(leaves: set<nat>, elems: nat, merges: seq<(nat, nat)>, w: seq<nat>)
    requires Greedy(leaves, elems, merges, w)
    ensures |w| >= elems + |merges|
  {
  }

  lemma {:induction false} NextHeavier(leaves: set<nat>, elems: nat, merges: seq<(nat, nat)>, w: seq<nat>, j: nat)
    requires MergesOk(leaves, elems, merges) && Greedy(leaves, elems, merges, w) && j + 1 < |merges|
    ensures w[elems + j] <= w[elems + j + 1]
  {
    hide Alive;
    MergeFacts(leaves, elems, merges, j);
    MergeFacts(leaves, elems, merges, j + 1);
    assert GreedyAt(leaves, elems, merges, w, j) && GreedyAt(leaves, elems, merges, w, j + 1);
  }

  lemma {:induction false} LaterHeavier(leaves: set<nat>, elems: nat, merges: seq<(nat, nat)>, w: seq<nat>, i: nat,
                                        j: nat)
    requires MergesOk(leaves, elems, merges) && Greedy(leaves, elems, merges, w) && i <= j < |merges|
    ensures w[elems + i] <= w[elems + j]
  {
    hide Greedy, MergesOk;
    GreedySize(leaves, elems, merges, w);
    if i < j {
      LaterHeavier(leaves, elems, merges, w, i, j - 1);
      NextHeavier(leaves, elems, merges, w, j - 1);
    }
  }

  lemma {:induction false} LiveStep(leaves: set<nat>, elems: nat, merges: seq<(nat, nat)>, j: nat, b: nat)
    requires 1 <= j <= |merges| && b in Alive(leaves, elems, merges, j) && b < elems + j - 1
    ensures b in Alive(leaves, elems, merges, j - 1)
  {
  }

  /** A node live at j that existed at i was live then. */
  lemma {:induction false} LiveBefore(leaves: set<nat>, elems: nat, merges: seq<(nat, nat)>, i: nat, j: nat, b: nat)
    requires i <= j <= |merges| && b in Alive(leaves, elems, merges, j) && b < elems + i
    ensures b in Alive(leaves, elems, merges, i)
    decreases j
  {
    hide Alive;
    if i < j {
      LiveStep(leaves, elems, merges, j, b);
      LiveBefore(leaves, elems, merges, i, j - 1, b);
    }
  }

  /** What an inner node is joined with weighs no less than the sons of that node. */
  lemma {:induction false} SiblingHeavy(leaves: set<nat>, elems: nat, merges: seq<(nat, nat)>, w: seq<nat>, i: nat,
                                        j: nat, b: nat)
    requires MergesOk(leaves, elems, merges) && Greedy(leaves, elems, merges, w) && i < j < |merges|
    requires b in Alive(leaves, elems, merges, j) && b != elems + i
    ensures merges[i].0 < |w| && merges[i].1 < |w| && b < |w| && w[merges[i].0] <= w[merges[i].1] <= w[b]
  {
    hide Alive, MergesOk;
    assert GreedyAt(leaves, elems, merges, w, i);
    MergeFacts(leaves, elems, merges, i);
    AliveRange(leaves, elems, merges, j, b);
    if b > elems + i {
      LaterHeavier(leaves, elems, merges, w, i, b - elems);
    } else {
      LiveBefore(leaves, elems, merges, i, j, b);
      if IsSon(merges, i, b) {
        NeverAgain(leaves, elems, merges, i, j, b);
      }
    }
  }

  ghost predicate LeavesWeigh(leaves: set<nat>, w: seq<nat>) {
    forall y :: y in leaves ==> y < |w| && w[y] >= 1
  }

  /** A tree of height h weighs at least Fib(h + 2). */
  lemma {:induction false} HeightWeight(leaves: set<nat>, elems: nat, merges: seq<(nat, nat)>, w: seq<nat>, h: seq<nat>,
                                        x: nat)
    requires MergesOk(leaves, elems, merges) && Greedy(leaves, elems, merges, w) && Heights(leaves, elems, merges, h)
    requires LeavesWeigh(leaves, w) && (x in leaves || elems <= x < elems + |merges|)
    ensures x < |w| && x < |h| && w[x] >= Fib(h[x] + 2)
    decreases x
  {
    hide Alive;
    if elems <= x {
      var j := x - elems;
      MergeFacts(leaves, elems, merges, j);
      var n, m := merges[j].0, merges[j].1;
      AliveRange(leaves, elems, merges, j, n);
      AliveRange(leaves, elems, merges, j, m);
      assert GreedyAt(leaves, elems, merges, w, j) && HeightAt(elems, merges, h, j);
      HeightWeight(leaves, elems, merges, w, h, n);
      HeightWeight(leaves, elems, merges, w, h, m);
      if h[n] >= h[m] {
        HigherSon(leaves, elems, merges, w, h, j, n, m);
      } else {
        HigherSon(leaves, elems, merges, w, h, j, m, n);
      }
    }
  }

  /** The weight of a father, whose higher son is t and whose other son is s. */
  lemma {:induction false} HigherSon(leaves: set<nat>, elems: nat, merges: seq<(nat, nat)>, w: seq<nat>, h: seq<nat>,
                                     j: nat, t: nat, s: nat)
    requires MergesOk(leaves, elems, merges) && Greedy(leaves, elems, merges, w) && Heights(leaves, elems, merges, h)
    requires LeavesWeigh(leaves, w) && j < |merges| && t < elems + j && (t in leaves || elems <= t)
    requires s in Alive(leaves, elems, merges, j) && t != s && t < |w| && s < |w| && s < |h| && h[t] >= h[s]
    requires w[elems + j] == w[t] + w[s] && h[elems + j] == h[t] + 1
    requires w[t] >= Fib(h[t] + 2) && w[s] >= Fib(h[s] + 2)
    ensures w[elems + j] >= Fib(h[elems + j] + 2)
    decreases elems + j, 0
  {
    hide Alive, Fib;
    FibSum(h[t] + 3);
    if t < elems {
      FibGrows(1, h[s] + 2);
      FibGrows(1, 1);
    } else {
      var i := t - elems;
      SiblingHeavy(leaves, elems, merges, w, i, j, s);
      MergeFacts(leaves, elems, merges, i);
      AliveRange(leaves, elems, merges, i, merges[i].0);
      AliveRange(leaves, elems, merges, i, merges[i].1);
      assert HeightAt(elems, merges, h, i);
      var r := if h[merges[i].0] >= h[merges[i].1] then merges[i].0 else merges[i].1;
      HeightWeight(leaves, elems, merges, w, h, r);
    }
  }

  /** The weight of the root is that of all nodes alive at any time. */
  lemma {:induction false} RootWeight(leaves: set<nat>, elems: nat, merges: seq<(nat, nat)>, w: seq<nat>, k: nat)
    requires Complete(leaves, elems, merges) && Greedy(leaves, elems, merges, w) && k <= |merges|
    ensures SumIn(Alive(leaves, elems, merges, k), w, |w|) == w[elems + |merges| - 1]
    decreases |merges| - k
  {
    if k == |merges| {
      OnlyRoot(leaves, elems, merges);
      SumSingle(elems + k - 1, w, |w|);
    } else {
      RootWeight(leaves, elems, merges, w, k + 1);
      MergeFacts(leaves, elems, merges, k);
      assert GreedyAt(leaves, elems, merges, w, k);
      SumMerge(Alive(leaves, elems, merges, k), merges[k].0, merges[k].1, elems + k, w, |w|);
    }
  }

  // --- Lengths and heights ---

  /** The root is at least as high as any inner node, plus that node's length. */
  lemma {:induction false} RootHigh(leaves: set<nat>, elems: nat, merges: seq<(nat, nat)>, h: seq<nat>, len: seq<nat>,
                                    limit: nat, x: nat)
    requires Complete(leaves, elems, merges) && Heights(leaves, elems, merges, h)
    requires ClampedLens(len, elems, merges, limit) && elems <= x < elems + |merges|
    ensures h[elems + |merges| - 1] >= h[x] + len[x]
    decreases elems + |merges| - x
  {
    hide Alive;
    var root := elems + |merges| - 1;
    if x < root {
      var j := HasFather(leaves, elems, merges, x);
      RootHigh(leaves, elems, merges, h, len, limit, elems + j);
      assert SonsClamped(len, elems, merges, j, limit) && HeightAt(elems, merges, h, j);
    }
  }

  lemma {:induction false} SomeAtLimit(len: seq<nat>, elems: nat, total: nat, k: nat, limit: nat) returns (x: nat)
    requires k <= total && elems + total <= |len| && AtLimit(len, elems, total, k, limit) > 0
    ensures elems + k <= x < elems + total && len[x] == limit
    decreases total - k
  {
    if len[elems + k] == limit {
      x := elems + k;
    } else {
      x := SomeAtLimit(len, elems, total, k + 1, limit);
    }
  }

  /** If lengths were cut off, the tree is higher than the limit. */
  lemma {:induction false} CutOffHigh(leaves: set<nat>, elems: nat, merges: seq<(nat, nat)>, h: seq<nat>, len: seq<nat>,
                                      limit: nat)
    requires Complete(leaves, elems, merges) && Heights(leaves, elems, merges, h)
    requires ClampedLens(len, elems, merges, limit) && AtLimit(len, elems, |merges|, 0, limit) > 0
    ensures h[elems + |merges| - 1] > limit
  {
    hide Alive, Complete;
    var x := SomeAtLimit(len, elems, |merges|, 0, limit);
    RootHigh(leaves, elems, merges, h, len, limit, x);
    assert HeightAt(elems, merges, h, x - elems);
  }

  // --- Merging lower trees first ---

  /** Lighter, or equally heavy and not higher. */
  predicate NotAbove(w: seq<nat>, h: seq<nat>, x: nat, y: nat) {
    x < |w| && y < |w| && x < |h| && y < |h| && (w[x] < w[y] || (w[x] == w[y] && h[x] <= h[y]))
  }

  ghost predicate TwoFirst(s: set<nat>, w: seq<nat>, h: seq<nat>, a: nat, b: nat) {
    forall x :: x in s ==> NotAbove(w, h, a, x) && (x != a ==> NotAbove(w, h, b, x))
  }

  ghost predicate LowAt(leaves: set<nat>, elems: nat, merges: seq<(nat, nat)>, w: seq<nat>, h: seq<nat>, j: nat)
    requires j < |merges|
  {
    TwoFirst(Alive(leaves, elems, merges, j), w, h, merges[j].0, merges[j].1)
  }

  /** Of equally heavy trees lower ones are merged first. */
  ghost predicate LowFirst(leaves: set<nat>, elems: nat, merges: seq<(nat, nat)>, w: seq<nat>, h: seq<nat>) {
    Heights(leaves, elems, merges, h) && forall j :: 0 <= j < |merges| ==> LowAt(leaves, elems, merges, w, h, j)
  }

  ghost predicate Lowest(leaves: set<nat>, elems: nat, merges: seq<(nat, nat)>, w: seq<nat>) {
    exists h :: LowFirst(leaves, elems, merges, w, h)
  }

  /** Hanging the nodes of s at these lengths gives a tree no higher than top. */
  ghost predicate Ceiling(s: set<nat>, h: seq<nat>, l: seq<nat>, top: nat) {
    forall x :: x in s ==> x < |h| && x < |l| && h[x] + l[x] <= top
  }

  /** Cheaper than cost, or as cheap and no higher than top. */
  ghost predicate Better(s: set<nat>, w: seq<nat>, h: seq<nat>, l: seq<nat>, top: nat, cost: int)
    requires |w| == |l|
  {
    Cost(s, w, l) < cost || (Cost(s, w, l) == cost && Ceiling(s, h, l, top))
  }

  /** The length of x goes to a, which comes first. */
  lemma {:induction false} Sink(s: set<nat>, w: seq<nat>, h: seq<nat>, l: seq<nat>, bound: nat, a: nat, x: nat,
                                top: nat, cost: int)
    requires |w| == |l| && KraftOk(s, l, bound) && a in s && x in s && (a == x || NotAbove(w, h, a, x)) && l[a] <= l[x]
    requires Better(s, w, h, l, top, cost)
    ensures KraftOk(s, l[a := l[x]][x := l[a]], bound) && Better(s, w, h, l[a := l[x]][x := l[a]], top, cost)
  {
    hide Cost, Shares;
    if a == x {
      assert l[a := l[x]][x := l[a]] == l;
    } else {
      Exchange(s, w, l, bound, a, x);
    }
  }

  /** Lengths in which the two first nodes share the greatest length: cheaper ones, or as cheap and no higher. */
  lemma {:induction false} FirstDeepest(s: set<nat>, w: seq<nat>, h: seq<nat>, l: seq<nat>, bound: nat, a: nat, b: nat,
                                        top: nat)
    returns (l': seq<nat>, longest: nat)
    requires |w| == |l| && KraftOk(s, l, bound) && a in s && b in s && a != b && TwoFirst(s, w, h, a, b)
    requires Ceiling(s, h, l, top)
    ensures |l'| == |l| && KraftOk(s, l', longest) && l'[a] == l'[b] == longest >= 1
    ensures Better(s, w, h, l', top, Cost(s, w, l))
  {
    hide Cost, Shares;
    assert |s| >= 2 by {
      assert {a, b} <= s;
      SubsetCard({a, b}, s);
    }
    var x, y;
    l', longest, x, y := TwoDeepest(s, w, l, bound);
    if y == a {
      x, y := y, x;
    }
    Sink(s, w, h, l', longest, a, x, top, Cost(s, w, l));
    l' := l'[a := l'[x]][x := l'[a]];
    Sink(s, w, h, l', longest, b, y, top, Cost(s, w, l));
    l' := l'[b := l'[y]][y := l'[b]];
  }

  /** Any lengths for the live nodes that cost no more than the inner nodes still to come hang some live node so low
      that the whole is as high as the root. */
  lemma {:induction false} NoLower(leaves: set<nat>, elems: nat, merges: seq<(nat, nat)>, w: seq<nat>, h: seq<nat>,
                                   k: nat, l: seq<nat>, bound: nat, top: nat)
    requires Complete(leaves, elems, merges) && Greedy(leaves, elems, merges, w) && k <= |merges|
    requires LowFirst(leaves, elems, merges, w, h) && |l| == |w|
    requires KraftOk(Alive(leaves, elems, merges, k), l, bound) && Ceiling(Alive(leaves, elems, merges, k), h, l, top)
    requires Cost(Alive(leaves, elems, merges, k), w, l) <= InnerWeight(w, elems, |merges|, k)
    ensures h[elems + |merges| - 1] <= top
    decreases |merges| - k
  {
    hide Cost, KraftOk, Shares, Greedy, Complete;
    GreedySize(leaves, elems, merges, w);
    var s, root := Alive(leaves, elems, merges, k), elems + |merges| - 1;
    if k == |merges| {
      OnlyRoot(leaves, elems, merges);
      assert root in s;
    } else {
      JoinLow(leaves, elems, merges, w, h, k, l, bound, top);
      var l', longest :| |l'| == |w| && StillLow(leaves, elems, merges, w, h, k, l', longest, top);
      NoLower(leaves, elems, merges, w, h, k + 1, l', longest, top);
    }
  }

  /** Lengths for the nodes live at k + 1, as good as they have to be. */
  ghost predicate StillLow(leaves: set<nat>, elems: nat, merges: seq<(nat, nat)>, w: seq<nat>, h: seq<nat>, k: nat,
                         l: seq<nat>, bound: nat, top: nat)
    requires k < |merges| && |l| == |w| >= elems + |merges|
  {
    var s := Alive(leaves, elems, merges, k + 1);
    KraftOk(s, l, bound) && Ceiling(s, h, l, top) && Cost(s, w, l) <= InnerWeight(w, elems, |merges|, k + 1)
  }

  lemma {:induction false} JoinLow(leaves: set<nat>, elems: nat, merges: seq<(nat, nat)>, w: seq<nat>, h: seq<nat>,
                                   k: nat, l: seq<nat>, bound: nat, top: nat)
    requires Complete(leaves, elems, merges) && Greedy(leaves, elems, merges, w) && k < |merges|
    requires LowFirst(leaves, elems, merges, w, h) && |l| == |w|
    requires KraftOk(Alive(leaves, elems, merges, k), l, bound) && Ceiling(Alive(leaves, elems, merges, k), h, l, top)
    requires Cost(Alive(leaves, elems, merges, k), w, l) <= InnerWeight(w, elems, |merges|, k)
    ensures |w| >= elems + |merges|
    ensures exists l': seq<nat>, longest: nat ::
      |l'| == |w| && StillLow(leaves, elems, merges, w, h, k, l', longest, top)
  {
    hide Cost, KraftOk, Shares, Alive;
    var s, a, b, c := Alive(leaves, elems, merges, k), merges[k].0, merges[k].1, elems + k;
    MergeFacts(leaves, elems, merges, k);
    assert GreedyAt(leaves, elems, merges, w, k) && LowAt(leaves, elems, merges, w, h, k);
    assert HeightAt(elems, merges, h, k);
    var l1, longest := FirstDeepest(s, w, h, l, bound, a, b, top);
    CostAtLeast(leaves, elems, merges, w, k, l1, longest);
    JoinCost(s, w, l1, longest, a, b, c);
    assert StillLow(leaves, elems, merges, w, h, k, l1[c := longest - 1], longest, top);
  }

  /** Every code of least cost has a word at least as long as the tree is high. */
  lemma {:induction false} HeightIsLeast(leaves: set<nat>, elems: nat, merges: seq<(nat, nat)>, w: seq<nat>,
                                         h: seq<nat>, l: seq<nat>, bound: nat)
    requires Complete(leaves, elems, merges) && Greedy(leaves, elems, merges, w)
    requires LowFirst(leaves, elems, merges, w, h)
    requires |l| == |w| && KraftOk(leaves, l, bound) && Cost(leaves, w, l) <= InnerWeight(w, elems, |merges|, 0)
    ensures h[elems + |merges| - 1] <= bound
  {
    hide Cost, Shares, Greedy;
    assert Alive(leaves, elems, merges, 0) == leaves;
    NoLower(leaves, elems, merges, w, h, 0, l, bound, bound);
  }

  // --- The lengths of a tree of any height ---

  ghost predicate LensAt(len: seq<nat>, elems: nat, merges: seq<(nat, nat)>, j: nat)
    requires j < |merges|
  {
    SonsClamped(len, elems, merges, j, |merges| + 1) && len[elems + j] < |merges| - j
  }

  /** The lengths of the sons of merge k and of later ones are set. */
  ghost predicate LensFrom(len: seq<nat>, elems: nat, merges: seq<(nat, nat)>, k: nat) {
    && |merges| >= 1 && |len| >= elems + |merges| && len[elems + |merges| - 1] == 0
    && forall j :: k <= j < |merges| ==> LensAt(len, elems, merges, j)
  }

  lemma {:induction false} LensSet(leaves: set<nat>, elems: nat, merges: seq<(nat, nat)>, size: nat, k: nat)
    returns (len: seq<nat>)
    requires Complete(leaves, elems, merges) && size >= elems + |merges| && k <= |merges|
    ensures |len| == size && LensFrom(len, elems, merges, k)
    decreases |merges| - k
  {
    hide Alive;
    if k == |merges| {
      len := seq(size, _ => 0);
    } else {
      var before := LensSet(leaves, elems, merges, size, k + 1);
      LensOne(leaves, elems, merges, before, k);
      var d := before[elems + k] + 1;
      len := before[merges[k].0 := d][merges[k].1 := d];
    }
  }

  lemma {:induction false} LensOne(leaves: set<nat>, elems: nat, merges: seq<(nat, nat)>, len: seq<nat>, k: nat)
    requires Complete(leaves, elems, merges) && k < |merges| && LensFrom(len, elems, merges, k + 1)
    ensures merges[k].0 < |len| && merges[k].1 < |len|
    ensures LensFrom(len[merges[k].0 := len[elems + k] + 1][merges[k].1 := len[elems + k] + 1], elems, merges, k)
  {
    hide Alive;
    MergeFacts(leaves, elems, merges, k);
    var n, m, d := merges[k].0, merges[k].1, len[elems + k] + 1;
    var len' := len[n := d][m := d];
    if k + 1 < |merges| {
      var f := HasFather(leaves, elems, merges, elems + k);
      assert LensAt(len, elems, merges, f);
    }
    forall j | k <= j < |merges|
      ensures LensAt(len', elems, merges, j)
    {
      MergeFacts(leaves, elems, merges, j);
      if j > k {
        assert LensAt(len, elems, merges, j);
        if IsSon(merges, j, n) {
          OneFather(leaves, elems, merges, k, j, n);
        }
        if IsSon(merges, j, m) {
          OneFather(leaves, elems, merges, k, j, m);
        }
      }
    }
  }

  lemma {:induction false} NoneAtLimit(len: seq<nat>, elems: nat, merges: seq<(nat, nat)>, k: nat)
    requires LensFrom(len, elems, merges, 0) && k <= |merges|
    ensures AtLimit(len, elems, |merges|, k, |merges| + 1) == 0
    decreases |merges| - k
  {
    if k < |merges| {
      NoneAtLimit(len, elems, merges, k + 1);
      assert LensAt(len, elems, merges, k);
    }
  }

  lemma {:induction false} Clamped(len: seq<nat>, elems: nat, merges: seq<(nat, nat)>)
    requires LensFrom(len, elems, merges, 0)
    ensures ClampedLens(len, elems, merges, |merges| + 1)
  {
    var limit := |merges| + 1;
    forall j | 0 <= j < |merges|
      ensures SonsClamped(len, elems, merges, j, limit)
    {
      assert LensAt(len, elems, merges, j);
    }
  }

  /** The lengths of the tree itself, none of them cut off, cost exactly the inner nodes. */
  lemma {:induction false} OwnLens(leaves: set<nat>, elems: nat, merges: seq<(nat, nat)>, w: seq<nat>)
    returns (len: seq<nat>)
    requires Complete(leaves, elems, merges) && Greedy(leaves, elems, merges, w)
    ensures |len| == |w| && Cost(leaves, w, len) == InnerWeight(w, elems, |merges|, 0)
    ensures SumIn(leaves, Shares(len, |merges| + 1), |len|) == Pow2(|merges| + 1)
    ensures forall x :: x in leaves ==> x < |len| && 1 <= len[x] <= |merges| + 1
  {
    hide Cost, Greedy, Shares, SumIn, Alive, InnerWeight;
    GreedySize(leaves, elems, merges, w);
    len := LensSet(leaves, elems, merges, |w|, 0);
    NoneAtLimit(len, elems, merges, 0);
    Clamped(len, elems, merges);
    assert Alive(leaves, elems, merges, 0) == leaves by {
      NoneMerged(leaves, elems, merges);
    }
    CostOfTree(leaves, elems, merges, w, 0, len, |merges| + 1);
    KraftOfLeaves(leaves, elems, merges, len, |merges| + 1);
    forall x | x in leaves
      ensures x < |len| && 1 <= len[x] <= |merges| + 1
    {
      var j := HasFather(leaves, elems, merges, x);
      assert LensAt(len, elems, merges, j);
    }
  }

  lemma {:induction false} NoneMerged(leaves: set<nat>, elems: nat, merges: seq<(nat, nat)>)
    ensures Alive(leaves, elems, merges, 0) == leaves
  {
  }

  /** No tree this light is higher than 22, so that its height fits in a byte. */
  lemma {:induction false} HeightFits(leaves: set<nat>, elems: nat, merges: seq<(nat, nat)>, w: seq<nat>, h: seq<nat>,
                                      x: nat)
    requires MergesOk(leaves, elems, merges) && Greedy(leaves, elems, merges, w) && Heights(leaves, elems, merges, h)
    requires LeavesWeigh(leaves, w) && (x in leaves || elems <= x < elems + |merges|)
    requires x < |w| && w[x] < 0x1_0000
    ensures x < |h| && h[x] <= 22
  {
    hide Fib, MergesOk, Greedy, Heights, LeavesWeigh;
    HeightWeight(leaves, elems, merges, w, h, x);
    if h[x] > 22 {
      FibGrows(25, h[x] + 2);
      FibValues();
    }
  }

  lemma {:induction false} FibValues()
    ensures Fib(10) == 55 && Fib(18) == 2584 && Fib(25) == 75025
  {
    assert Fib(7) == 13 && Fib(8) == 21 && Fib(9) == 34 && Fib(10) == 55;
    assert Fib(11) == 89 && Fib(12) == 144 && Fib(13) == 233 && Fib(14) == 377;
    assert Fib(15) == 610 && Fib(16) == 987 && Fib(17) == 1597 && Fib(18) == 2584;
    assert Fib(19) == 4181 && Fib(20) == 6765 && Fib(21) == 10946 && Fib(22) == 17711;
    assert Fib(23) == 28657 && Fib(24) == 46368;
  }

  /** The tree grows by one father, with its height. */
  lemma {:induction false} HeightsGrow(leaves: set<nat>, elems: nat, merges: seq<(nat, nat)>, h: seq<nat>, n: nat,
                                       m: nat)
    requires MergesOk(leaves, elems, merges) && Heights(leaves, elems, merges, h) && elems + |merges| < |h|
    requires n < elems + |merges| && m < elems + |merges|
    ensures Heights(leaves, elems, merges + [(n, m)], h[elems + |merges| := Max(h[n], h[m]) + 1])
  {
    hide Alive;
    var merges', h' := merges + [(n, m)], h[elems + |merges| := Max(h[n], h[m]) + 1];
    forall j | 0 <= j < |merges'|
      ensures HeightAt(elems, merges', h', j)
    {
      if j < |merges| {
        MergeFacts(leaves, elems, merges, j);
        assert HeightAt(elems, merges, h, j);
      }
    }
  }
}
