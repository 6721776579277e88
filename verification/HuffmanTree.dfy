/** The theory of Huffman's construction, independent of how it is carried out: a list of merges of two
    live nodes into a new one, the lengths it defines, their Kraft sum, and their optimality. */
module HuffmanTree {
  import opened Bits

  // --- Sums over sets of node numbers ---

  /** Sum of w over the members of s below n. */
  ghost function SumIn(s: set<nat>, w: seq<int>, n: nat): int
    requires n <= |w|
  {
    if n == 0 then 0 else SumIn(s, w, n - 1) + if n - 1 in s then w[n - 1] else 0
  }

  lemma {:induction false} SumAdd(s: set<nat>, x: nat, w: seq<int>, n: nat)
    requires n <= |w| && x !in s
    ensures SumIn(s + {x}, w, n) == SumIn(s, w, n) + if x < n then w[x] else 0
  {
    if n > 0 {
      SumAdd(s, x, w, n - 1);
    }
  }

  lemma {:induction false} SumRemove(s: set<nat>, x: nat, w: seq<int>, n: nat)
    requires n <= |w| && x in s && x < n
    ensures SumIn(s - {x}, w, n) == SumIn(s, w, n) - w[x]
  {
    assert (s - {x}) + {x} == s;
    SumAdd(s - {x}, x, w, n);
  }

  /** Replacing two members by a third. */
  lemma {:induction false} SumMerge(s: set<nat>, a: nat, b: nat, c: nat, w: seq<int>, n: nat)
    requires n <= |w| && a in s && b in s && a != b && c !in s && a < n && b < n && c < n
    ensures SumIn(s - {a, b} + {c}, w, n) == SumIn(s, w, n) - w[a] - w[b] + w[c]
  {
    SumRemove(s, a, w, n);
    SumRemove(s - {a}, b, w, n);
    assert s - {a} - {b} == s - {a, b};
    SumAdd(s - {a, b}, c, w, n);
  }

  lemma {:induction false} SumAgree(s: set<nat>, w: seq<int>, w': seq<int>, n: nat)
    requires n <= |w| && n <= |w'|
    requires forall x :: x in s && x < n ==> w[x] == w'[x]
    ensures SumIn(s, w, n) == SumIn(s, w', n)
  {
    if n > 0 {
      SumAgree(s, w, w', n - 1);
    }
  }

  lemma {:induction false} SumUpdate(s: set<nat>, w: seq<int>, x: nat, v: int, n: nat)
    requires n <= |w| && x in s && x < n
    ensures SumIn(s, w[x := v], n) == SumIn(s, w, n) - w[x] + v
  {
    SumRemove(s, x, w, n);
    SumRemove(s, x, w[x := v], n);
    SumAgree(s - {x}, w, w[x := v], n);
  }

  lemma {:induction false} SumEmpty(w: seq<int>, n: nat)
    requires n <= |w|
    ensures SumIn({}, w, n) == 0
  {
    if n > 0 {
      SumEmpty(w, n - 1);
    }
  }

  lemma {:induction false} SumSingle(x: nat, w: seq<int>, n: nat)
    requires n <= |w| && x < n
    ensures SumIn({x}, w, n) == w[x]
  {
    SumEmpty(w, n);
    SumAdd({}, x, w, n);
    assert {} + {x} == {x};
  }

  lemma {:induction false} SumNonNegative(s: set<nat>, w: seq<int>, n: nat)
    requires n <= |w| && forall x :: x in s && x < n ==> w[x] >= 0
    ensures SumIn(s, w, n) >= 0
  {
    if n > 0 {
      SumNonNegative(s, w, n - 1);
    }
  }

  // --- Merges ---

  /** The node created by merge j is elems + j; each merge makes it the father of two live nodes. */
  ghost function Alive(leaves: set<nat>, elems: nat, merges: seq<(nat, nat)>, k: nat): set<nat>
    requires k <= |merges|
  {
    if k == 0 then leaves
    else Alive(leaves, elems, merges, k - 1) - {merges[k - 1].0, merges[k - 1].1} + {elems + k - 1}
  }

  ghost predicate MergeOk(leaves: set<nat>, elems: nat, merges: seq<(nat, nat)>, j: nat)
    requires j < |merges|
  {
    var (n, m) := merges[j];
    n != m && n in Alive(leaves, elems, merges, j) && m in Alive(leaves, elems, merges, j)
  }

  ghost predicate MergesOk(leaves: set<nat>, elems: nat, merges: seq<(nat, nat)>) {
    && (forall x :: x in leaves ==> x < elems)
    && (forall j :: 0 <= j < |merges| ==> MergeOk(leaves, elems, merges, j))
  }

  /** Everything has been merged into one tree with at least two leaves. */
  ghost predicate Complete(leaves: set<nat>, elems: nat, merges: seq<(nat, nat)>) {
    MergesOk(leaves, elems, merges) && |leaves| == |merges| + 1 >= 2
  }

  lemma {:induction false} AliveRange(leaves: set<nat>, elems: nat, merges: seq<(nat, nat)>, k: nat, x: nat)
    requires MergesOk(leaves, elems, merges) && k <= |merges| && x in Alive(leaves, elems, merges, k)
    ensures x < elems + k && (x < elems ==> x in leaves)
  {
    if k > 0 && x != elems + k - 1 {
      AliveRange(leaves, elems, merges, k - 1, x);
    }
  }

  lemma {:induction false} AliveCard(leaves: set<nat>, elems: nat, merges: seq<(nat, nat)>, k: nat)
    requires MergesOk(leaves, elems, merges) && k <= |merges|
    ensures |Alive(leaves, elems, merges, k)| == |leaves| - k
  {
    hide MergesOk;
    if k > 0 {
      AliveCard(leaves, elems, merges, k - 1);
      MergeFacts(leaves, elems, merges, k - 1);
      CardMerge(Alive(leaves, elems, merges, k - 1), merges[k - 1].0, merges[k - 1].1, elems + k - 1);
    }
  }

  lemma {:induction false} NewNode(leaves: set<nat>, elems: nat, merges: seq<(nat, nat)>, k: nat)
    requires MergesOk(leaves, elems, merges) && k <= |merges|
    ensures elems + k !in Alive(leaves, elems, merges, k)
  {
    if elems + k in Alive(leaves, elems, merges, k) {
      AliveRange(leaves, elems, merges, k, elems + k);
    }
  }

  lemma {:induction false} MergeFacts(leaves: set<nat>, elems: nat, merges: seq<(nat, nat)>, k: nat)
    requires MergesOk(leaves, elems, merges) && k < |merges|
    ensures var a, n, m := Alive(leaves, elems, merges, k), merges[k].0, merges[k].1;
      && n != m && n in a && m in a && elems + k !in a
      && n < elems + k && m < elems + k
      && Alive(leaves, elems, merges, k + 1) == a - {n, m} + {elems + k}
  {
    assert MergeOk(leaves, elems, merges, k);
    NewNode(leaves, elems, merges, k);
    AliveRange(leaves, elems, merges, k, merges[k].0);
    AliveRange(leaves, elems, merges, k, merges[k].1);
  }

  lemma {:induction false} CardMerge(s: set<nat>, a: nat, b: nat, c: nat)
    requires a in s && b in s && a != b && c !in s
    ensures |s - {a, b} + {c}| == |s| - 1
  {
    assert |s - {a}| == |s| - 1;
    assert |(s - {a}) - {b}| == |s| - 2;
    assert (s - {a}) - {b} == s - {a, b};
  }

  predicate IsSon(merges: seq<(nat, nat)>, j: nat, x: nat)
    requires j < |merges|
  {
    x == merges[j].0 || x == merges[j].1
  }

  /** A merged node never comes back. */
  lemma {:induction false} NeverAgain(leaves: set<nat>, elems: nat, merges: seq<(nat, nat)>, j: nat, k: nat, x: nat)
    requires MergesOk(leaves, elems, merges) && j < k <= |merges| && IsSon(merges, j, x)
    ensures x !in Alive(leaves, elems, merges, k)
  {
    assert MergeOk(leaves, elems, merges, j);
    AliveRange(leaves, elems, merges, j, x);
    if j + 1 < k {
      NeverAgain(leaves, elems, merges, j, k - 1, x);
    }
  }

  /** No node has two fathers. */
  lemma {:induction false} OneFather(leaves: set<nat>, elems: nat, merges: seq<(nat, nat)>, i: nat, j: nat, x: nat)
    requires MergesOk(leaves, elems, merges) && i < |merges| && j < |merges|
    requires IsSon(merges, i, x) && IsSon(merges, j, x)
    ensures i == j
  {
    if i < j {
      assert MergeOk(leaves, elems, merges, j);
      NeverAgain(leaves, elems, merges, i, j, x);
    } else if j < i {
      assert MergeOk(leaves, elems, merges, i);
      NeverAgain(leaves, elems, merges, j, i, x);
    }
  }

  /** A node that is live at k but not at k' was merged in between. */
  lemma {:induction false} Consumed(leaves: set<nat>, elems: nat, merges: seq<(nat, nat)>, k: nat, k': nat, x: nat)
    returns (j: nat)
    requires MergesOk(leaves, elems, merges) && k < k' <= |merges|
    requires x in Alive(leaves, elems, merges, k) && x !in Alive(leaves, elems, merges, k')
    ensures k <= j < k' && IsSon(merges, j, x)
  {
    if x in Alive(leaves, elems, merges, k' - 1) {
      j := k' - 1;
    } else {
      j := Consumed(leaves, elems, merges, k, k' - 1, x);
    }
  }

  lemma {:induction false} OnlyRoot(leaves: set<nat>, elems: nat, merges: seq<(nat, nat)>)
    requires Complete(leaves, elems, merges)
    ensures Alive(leaves, elems, merges, |merges|) == {elems + |merges| - 1}
  {
    var k := |merges|;
    AliveCard(leaves, elems, merges, k);
    var a, root := Alive(leaves, elems, merges, k), elems + k - 1;
    assert root in a;
    assert |a - {root}| == 0;
    assert a == (a - {root}) + {root};
  }

  /** Every node but the root has a father, created after it. */
  lemma {:induction false} HasFather(leaves: set<nat>, elems: nat, merges: seq<(nat, nat)>, x: nat) returns (j: nat)
    requires Complete(leaves, elems, merges)
    requires x in leaves || elems <= x < elems + |merges| - 1
    ensures j < |merges| && IsSon(merges, j, x) && (x >= elems ==> x < elems + j)
  {
    OnlyRoot(leaves, elems, merges);
    if x in leaves {
      j := Consumed(leaves, elems, merges, 0, |merges|, x);
    } else {
      j := Consumed(leaves, elems, merges, x - elems + 1, |merges|, x);
    }
  }

  // --- Lengths cut off at a limit ---

  /** Every son is one longer than its father, but no longer than the limit; the root has length 0. */
  ghost predicate ClampedLens(len: seq<nat>, elems: nat, merges: seq<(nat, nat)>, limit: nat) {
    && |merges| >= 1 && |len| >= elems + |merges|
    && len[elems + |merges| - 1] == 0
    && (forall j :: 0 <= j < |merges| ==> SonsClamped(len, elems, merges, j, limit))
  }

  ghost predicate SonsClamped(len: seq<nat>, elems: nat, merges: seq<(nat, nat)>, j: nat, limit: nat)
    requires j < |merges|
  {
    var (n, m) := merges[j];
    && elems + j < |len| && n < |len| && m < |len|
    && len[elems + j] <= limit
    && len[n] == len[m] == if len[elems + j] + 1 > limit then limit else len[elems + j] + 1
  }

  /** 2^(limit - length) for every node no longer than the limit. */
  ghost function Shares(len: seq<nat>, limit: nat): (w: seq<int>)
    ensures |w| == |len|
    ensures forall x :: 0 <= x < |len| ==> w[x] == if len[x] <= limit then Pow2(limit - len[x]) else 0
  {
    seq(|len|, x requires 0 <= x < |len| => if len[x] <= limit then Pow2(limit - len[x]) else 0)
  }

  /** How many of the inner nodes from merge k on sit at the limit, so that their sons overflow. */
  ghost function AtLimit(len: seq<nat>, elems: nat, total: nat, k: nat, limit: nat): nat
    requires k <= total && elems + total <= |len|
    decreases total - k
  {
    if k == total then 0
    else (if len[elems + k] == limit then 1 else 0) + AtLimit(len, elems, total, k + 1, limit)
  }

  lemma {:induction false} KraftOfAlive(leaves: set<nat>, elems: nat, merges: seq<(nat, nat)>, len: seq<nat>,
                                        limit: nat, k: nat)
    requires Complete(leaves, elems, merges) && ClampedLens(len, elems, merges, limit) && k <= |merges|
    ensures SumIn(Alive(leaves, elems, merges, k), Shares(len, limit), |len|)
         == Pow2(limit) + AtLimit(len, elems, |merges|, k, limit)
    decreases |merges| - k
  {
    var w := Shares(len, limit);
    if k == |merges| {
      OnlyRoot(leaves, elems, merges);
      SumSingle(elems + k - 1, w, |len|);
    } else {
      KraftOfAlive(leaves, elems, merges, len, limit, k + 1);
      MergeFacts(leaves, elems, merges, k);
      assert SonsClamped(len, elems, merges, k, limit);
      var n, m, c := merges[k].0, merges[k].1, elems + k;
      SumMerge(Alive(leaves, elems, merges, k), n, m, c, w, |len|);
      if len[c] < limit {
        assert Pow2(limit - len[c]) == 2 * Pow2(limit - len[n]);
      }
    }
  }

  /** The Kraft sum of the cut off lengths exceeds 1 by one share for each inner node at the limit. */
  lemma {:induction false} KraftOfLeaves(leaves: set<nat>, elems: nat, merges: seq<(nat, nat)>, len: seq<nat>,
                                         limit: nat)
    requires Complete(leaves, elems, merges) && ClampedLens(len, elems, merges, limit)
    ensures SumIn(leaves, Shares(len, limit), |len|) == Pow2(limit) + AtLimit(len, elems, |merges|, 0, limit)
  {
    KraftOfAlive(leaves, elems, merges, len, limit, 0);
  }

  /** 1 for every node at the limit. */
  ghost function LimitMarks(len: seq<nat>, limit: nat): (w: seq<int>)
    ensures |w| == |len|
    ensures forall x :: 0 <= x < |len| ==> w[x] == if len[x] == limit then 1 else 0
  {
    seq(|len|, x requires 0 <= x < |len| => if len[x] == limit then 1 else 0)
  }

  /** If inner nodes sit at the limit, more live nodes than those do. */
  lemma {:induction false} LimitOfAlive(leaves: set<nat>, elems: nat, merges: seq<(nat, nat)>, len: seq<nat>,
                                        limit: nat, k: nat)
    requires Complete(leaves, elems, merges) && ClampedLens(len, elems, merges, limit) && k <= |merges| && limit >= 1
    ensures var marks, inner := SumIn(Alive(leaves, elems, merges, k), LimitMarks(len, limit), |len|),
                                AtLimit(len, elems, |merges|, k, limit);
      0 <= inner <= marks && (inner > 0 ==> inner < marks)
    decreases |merges| - k
  {
    var w := LimitMarks(len, limit);
    if k == |merges| {
      OnlyRoot(leaves, elems, merges);
      SumSingle(elems + k - 1, w, |len|);
    } else {
      LimitOfAlive(leaves, elems, merges, len, limit, k + 1);
      MergeFacts(leaves, elems, merges, k);
      assert SonsClamped(len, elems, merges, k, limit);
      var a, n, m, c := Alive(leaves, elems, merges, k), merges[k].0, merges[k].1, elems + k;
      SumMerge(a, n, m, c, w, |len|);
      SumRemove(a - {n, m} + {c}, c, w, |len|);
      SumNonNegative(a - {n, m} + {c} - {c}, w, |len|);
    }
  }

  lemma {:induction false} LimitOfLeaves(leaves: set<nat>, elems: nat, merges: seq<(nat, nat)>, len: seq<nat>,
                                         limit: nat)
    requires Complete(leaves, elems, merges) && ClampedLens(len, elems, merges, limit) && limit >= 1
    ensures AtLimit(len, elems, |merges|, 0, limit) > 0 ==>
      AtLimit(len, elems, |merges|, 0, limit) < SumIn(leaves, LimitMarks(len, limit), |len|)
  {
    LimitOfAlive(leaves, elems, merges, len, limit, 0);
  }
}
