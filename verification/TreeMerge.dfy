/** The main loop of build_tree: the two least frequent nodes leave the heap, go to the far end of the same
    array, and their father enters the heap. */
module TreeMerge {
  import opened Bits
  import opened CanonicalCode
  import opened HuffmanHeap
  import opened HuffmanTree
  import opened HuffmanOptimal
  import opened HuffmanHeight
  import opened GenBitlen

  /** A call's constants: frequencies as given, the used symbols, their number of elements and total frequency. */
  datatype Job = Job(t0: seq<CtData>, leaves: set<nat>, elems: nat, total: nat)

  /** Nodes already taken off the heap, stored from the end of the array downwards. */
  ghost predicate OutOk(h: seq<nat>, merges: seq<(nat, nat)>) {
    && 2 * |merges| <= |h|
    && forall j :: 0 <= j < |merges| ==> h[|h| - 1 - 2 * j] == merges[j].0 && h[|h| - 2 - 2 * j] == merges[j].1
  }

  ghost predicate DadOk(t: seq<CtData>, elems: nat, merges: seq<(nat, nat)>, j: nat)
    requires j < |merges|
  {
    var n, m := merges[j].0, merges[j].1;
    n < |t| && m < |t| && t[n].dl == elems + j && t[m].dl == elems + j
  }

  ghost predicate DadsOk(t: seq<CtData>, elems: nat, merges: seq<(nat, nat)>) {
    forall j :: 0 <= j < |merges| ==> DadOk(t, elems, merges, j)
  }

  ghost predicate LeavesKept(job: Job, t: seq<CtData>) {
    && job.elems <= |t| == |job.t0|
    && (forall x :: 0 <= x < job.elems ==> t[x].fc == job.t0[x].fc)
    && (forall x :: 0 <= x < job.elems && x !in job.leaves ==> t[x] == job.t0[x])
    && forall x :: x in job.leaves ==> x < job.elems && t[x].fc >= 1
  }

  ghost predicate HeapOk(t: seq<CtData>, depth: seq<nat>, h: seq<nat>, len: nat, live: set<nat>) {
    && InHeap(h, len, t, depth) && HeapFrom(h, len, 1, t, depth)
    && Nodes(h, len) == multiset(live)
  }

  ghost predicate MergeInv(job: Job, t: seq<CtData>, depth: seq<nat>, h: seq<nat>, len: nat, merges: seq<(nat, nat)>) {
    && MergesOk(job.leaves, job.elems, merges)
    && |job.leaves| == len + |merges| <= job.elems && len >= 1
    && |h| >= 2 * job.elems + 1 && |t| >= 2 * job.elems && |depth| >= |t|
    && HeapOk(t, depth, h, len, Alive(job.leaves, job.elems, merges, |merges|))
    && OutOk(h, merges) && DadsOk(t, job.elems, merges)
    && Greedy(job.leaves, job.elems, merges, Freqs(t)) && LowFirst(job.leaves, job.elems, merges, Freqs(t), depth)
    && LeavesKept(job, t)
    && SumIn(Alive(job.leaves, job.elems, merges, |merges|), Freqs(t), |t|) == job.total
  }

  // --- The heap parts of one iteration ---

  lemma {:induction false} DropNodes(h: seq<nat>, len: nat)
    requires 2 <= len < |h|
    ensures Nodes(h[1 := h[len]], len - 1) == Nodes(h, len) - multiset{h[1]}
  {
    var u := h[1..len + 1];
    var h' := h[1 := h[len]];
    assert u == [h[1]] + h[2..len] + [h[len]];
    assert h'[1..len] == [h[len]] + h[2..len];
  }

  lemma {:induction false} ReplaceNodes(h: seq<nat>, len: nat, c: nat)
    requires 1 <= len < |h|
    ensures Nodes(h[1 := c], len) == Nodes(h, len) - multiset{h[1]} + multiset{c}
  {
    assert h[1..len + 1] == [h[1]] + h[2..len + 1];
    assert h[1 := c][1..len + 1] == [c] + h[2..len + 1];
  }

  lemma {:induction false} DropRoot(h: seq<nat>, len: nat, t: seq<CtData>, depth: seq<nat>)
    requires InHeap(h, len, t, depth) && HeapFrom(h, len, 1, t, depth) && len >= 2
    ensures InHeap(h[1 := h[len]], len - 1, t, depth) && HeapFrom(h[1 := h[len]], len - 1, 2, t, depth)
  {
  }

  lemma {:induction false} LiveNodes(h: seq<nat>, len: nat, live: set<nat>, i: nat)
    requires len < |h| && Nodes(h, len) == multiset(live) && 1 <= i <= len
    ensures h[i] in live
  {
    assert h[1..len + 1][i - 1] == h[i];
    assert h[i] in Nodes(h, len);
  }

  lemma {:induction false} NodeIndex(h: seq<nat>, len: nat, live: set<nat>, x: nat) returns (i: nat)
    requires len < |h| && Nodes(h, len) == multiset(live) && x in live
    ensures 1 <= i <= len && h[i] == x
  {
    assert x in Nodes(h, len);
    var k :| 0 <= k < |h[1..len + 1]| && h[1..len + 1][k] == x;
    i := k + 1;
  }

  /** The root of the heap has the least frequency of all live nodes, and is the lowest of the least frequent. */
  lemma {:induction false} LeastFrequent(t: seq<CtData>, depth: seq<nat>, h: seq<nat>, len: nat, live: set<nat>)
    requires HeapOk(t, depth, h, len, live) && len >= 1
    ensures h[1] in live && h[1] < |t|
    ensures forall x :: x in live ==> x < |t| && NotAbove(Freqs(t), depth, h[1], x)
  {
    LiveNodes(h, len, live, 1);
    forall x | x in live
      ensures x < |t| && NotAbove(Freqs(t), depth, h[1], x)
    {
      var i := NodeIndex(h, len, live, x);
      RootSmallest(h, len, i, t, depth);
    }
  }

  /** h2 is the heap h without its root top. */
  ghost predicate Taken(t: seq<CtData>, depth: seq<nat>, h: seq<nat>, len: nat, live: set<nat>, top: nat,
                        h2: seq<nat>) {
    && 2 <= len < |h| && top == h[1] && top in live
    && HeapOk(t, depth, h2, len - 1, live - {top})
    && |h2| == |h| && h2[len + 1..] == h[len + 1..]
  }

  /** PQREMOVE. */
  method RemoveSmallest(heap: array<nat>, heapLen: nat, tree: array<CtData>, depth: array<nat>, ghost live: set<nat>)
    returns (top: nat)
    requires heap != depth && heapLen >= 2 && HeapOk(tree[..], depth[..], heap[..], heapLen, live)
    modifies heap
    ensures Taken(tree[..], depth[..], old(heap[..]), heapLen, live, top, heap[..])
  {
    ghost var h, t, d := heap[..], tree[..], depth[..];
    top := heap[1];
    LiveNodes(h, heapLen, live, 1);
    DropRoot(h, heapLen, t, d);
    DropNodes(h, heapLen);
    heap[1] := heap[heapLen];
    ghost var h1 := h[1 := h[heapLen]];
    assert heap[..] == h1;
    hide InHeap, HeapFrom, Nodes;
    PqDownHeap(heap, heapLen - 1, tree, depth, 1);
    assert multiset(live) - multiset{top} == multiset(live - {top});
    assert heap[..][heapLen + 1..] == heap[..][heapLen..][1..];
    assert h1[heapLen + 1..] == h1[heapLen..][1..];
  }

  // --- A new father ---

  /** The tree after node c became the father of n and m. */
  ghost function WithFather(t: seq<CtData>, n: nat, m: nat, c: nat): (t': seq<CtData>)
    requires n < |t| && m < |t| && c < |t| && n != m && n != c && m != c
    ensures |t'| == |t|
    ensures forall x :: 0 <= x < |t| && x != n && x != m && x != c ==> t'[x] == t[x]
    ensures t'[n] == CtData(t[n].fc, c) && t'[m] == CtData(t[m].fc, c)
    ensures t'[c] == CtData(t[n].fc + t[m].fc, t[c].dl)
  {
    t[c := CtData(t[n].fc + t[m].fc, t[c].dl)][n := CtData(t[n].fc, c)][m := CtData(t[m].fc, c)]
  }

  lemma {:induction false} FatherInHeap(t: seq<CtData>, depth: seq<nat>, h: seq<nat>, len: nat, live: set<nat>,
                                        t': seq<CtData>, depth': seq<nat>, h': seq<nat>, c: nat)
    requires HeapOk(t, depth, h, len, live) && len >= 1 && c !in live && c < |t|
    requires |t'| == |t| && |depth'| == |depth| >= |t| && |h'| == |h|
    requires forall x :: 0 <= x < |t| && x != c ==> t'[x].fc == t[x].fc && depth'[x] == depth[x]
    requires forall i :: 2 <= i <= len ==> h'[i] == h[i]
    requires h'[1] == c
    ensures InHeap(h', len, t', depth') && HeapFrom(h', len, 2, t', depth')
    ensures Nodes(h', len) == multiset(live - {h[1]} + {c})
  {
    LiveNodes(h, len, live, 1);
    forall i | 2 <= i <= len
      ensures h[i] != c
    {
      LiveNodes(h, len, live, i);
    }
    ReplaceNodes(h, len, c);
    assert h'[1..len + 1] == h[1 := c][1..len + 1];
    assert multiset(live) - multiset{h[1]} + multiset{c} == multiset(live - {h[1]} + {c});
  }

  lemma {:induction false} AlivePrefix(leaves: set<nat>, elems: nat, merges: seq<(nat, nat)>, x: (nat, nat), k: nat)
    requires k <= |merges|
    ensures Alive(leaves, elems, merges + [x], k) == Alive(leaves, elems, merges, k)
  {
    if k > 0 {
      AlivePrefix(leaves, elems, merges, x, k - 1);
    }
  }

  lemma {:induction false} MergesGrow(leaves: set<nat>, elems: nat, merges: seq<(nat, nat)>, n: nat, m: nat)
    requires MergesOk(leaves, elems, merges) && n != m
    requires n in Alive(leaves, elems, merges, |merges|) && m in Alive(leaves, elems, merges, |merges|)
    ensures MergesOk(leaves, elems, merges + [(n, m)])
    ensures Alive(leaves, elems, merges + [(n, m)], |merges| + 1)
         == Alive(leaves, elems, merges, |merges|) - {n, m} + {elems + |merges|}
  {
    var merges' := merges + [(n, m)];
    AlivePrefix(leaves, elems, merges, (n, m), |merges|);
    forall j | 0 <= j < |merges'|
      ensures MergeOk(leaves, elems, merges', j)
    {
      AlivePrefix(leaves, elems, merges, (n, m), j);
      if j < |merges| {
        assert MergeOk(leaves, elems, merges, j);
      }
    }
  }

  lemma {:induction false} GreedyGrows(leaves: set<nat>, elems: nat, merges: seq<(nat, nat)>, w: seq<nat>, w': seq<nat>,
                                       n: nat, m: nat)
    requires MergesOk(leaves, elems, merges) && Greedy(leaves, elems, merges, w) && elems + |merges| < |w| == |w'|
    requires forall x :: 0 <= x < |w| && x != elems + |merges| ==> w'[x] == w[x]
    requires n < elems + |merges| && m < elems + |merges| && w'[elems + |merges|] == w[n] + w[m]
    requires forall x :: x in Alive(leaves, elems, merges, |merges|) ==>
      x < |w| && w[n] <= w[x] && (x != n ==> w[m] <= w[x])
    ensures Greedy(leaves, elems, merges + [(n, m)], w')
  {
    var merges' := merges + [(n, m)];
    forall j | 0 <= j < |merges'|
      ensures GreedyAt(leaves, elems, merges', w', j)
    {
      AlivePrefix(leaves, elems, merges, (n, m), j);
      forall x | x in Alive(leaves, elems, merges, j)
        ensures x < elems + |merges|
      {
        AliveRange(leaves, elems, merges, j, x);
      }
      if j < |merges| {
        assert GreedyAt(leaves, elems, merges, w, j);
        MergeFacts(leaves, elems, merges, j);
      }
    }
  }

  /** The heights after node c became the father of n and m. */
  function WithHeight(depth: seq<nat>, n: nat, m: nat, c: nat): (depth': seq<nat>)
    requires n < |depth| && m < |depth| && c < |depth|
    ensures |depth'| == |depth|
  {
    depth[c := Max(depth[n], depth[m]) + 1]
  }

  lemma {:induction false} LowGrows(leaves: set<nat>, elems: nat, merges: seq<(nat, nat)>, w: seq<nat>, w': seq<nat>,
                                    h: seq<nat>, n: nat, m: nat)
    requires MergesOk(leaves, elems, merges) && LowFirst(leaves, elems, merges, w, h)
    requires elems + |merges| < |w| == |w'| <= |h| && n < elems + |merges| && m < elems + |merges|
    requires forall x :: 0 <= x < |w| && x != elems + |merges| ==> w'[x] == w[x]
    requires TwoFirst(Alive(leaves, elems, merges, |merges|), w, h, n, m)
    ensures LowFirst(leaves, elems, merges + [(n, m)], w', WithHeight(h, n, m, elems + |merges|))
  {
    var merges', h' := merges + [(n, m)], WithHeight(h, n, m, elems + |merges|);
    HeightsGrow(leaves, elems, merges, h, n, m);
    forall j | 0 <= j < |merges'|
      ensures LowAt(leaves, elems, merges', w', h', j)
    {
      AlivePrefix(leaves, elems, merges, (n, m), j);
      forall x | x in Alive(leaves, elems, merges, j)
        ensures x < elems + |merges|
      {
        AliveRange(leaves, elems, merges, j, x);
      }
      if j < |merges| {
        assert LowAt(leaves, elems, merges, w, h, j);
        MergeFacts(leaves, elems, merges, j);
      }
    }
  }

  lemma {:induction false} DadsGrow(leaves: set<nat>, elems: nat, merges: seq<(nat, nat)>, t: seq<CtData>, n: nat,
                                    m: nat)
    requires MergesOk(leaves, elems, merges) && DadsOk(t, elems, merges) && elems + |merges| < |t| && n != m
    requires n in Alive(leaves, elems, merges, |merges|) && m in Alive(leaves, elems, merges, |merges|)
    requires n < elems + |merges| && m < elems + |merges|
    ensures DadsOk(WithFather(t, n, m, elems + |merges|), elems, merges + [(n, m)])
  {
    var t', merges' := WithFather(t, n, m, elems + |merges|), merges + [(n, m)];
    forall j | 0 <= j < |merges'|
      ensures DadOk(t', elems, merges', j)
    {
      if j < |merges| {
        assert DadOk(t, elems, merges, j);
        MergeFacts(leaves, elems, merges, j);
        NeverAgain(leaves, elems, merges, j, |merges|, merges[j].0);
        NeverAgain(leaves, elems, merges, j, |merges|, merges[j].1);
      }
    }
  }

  lemma {:induction false} OutGrows(h: seq<nat>, h': seq<nat>, merges: seq<(nat, nat)>, n: nat, m: nat, len: nat)
    requires OutOk(h, merges) && |h'| == |h| && len < |h| - 2 * |merges| - 2
    requires h'[len + 1..] == h[|h| - 2 * |merges| - 1 := n][|h| - 2 * |merges| - 2 := m][len + 1..]
    ensures OutOk(h', merges + [(n, m)])
  {
    var top := |h| - 2 * |merges|;
    var g := h[top - 1 := n][top - 2 := m];
    var merges' := merges + [(n, m)];
    forall j | 0 <= j < |merges'|
      ensures h'[|h| - 1 - 2 * j] == merges'[j].0 && h'[|h| - 2 - 2 * j] == merges'[j].1
    {
      var a, b := |h| - 1 - 2 * j, |h| - 2 - 2 * j;
      assert h'[a] == h'[len + 1..][a - len - 1] == g[a];
      assert h'[b] == h'[len + 1..][b - len - 1] == g[b];
    }
  }

  lemma {:induction false} WeightKept(live: set<nat>, t: seq<CtData>, n: nat, m: nat, c: nat)
    requires n in live && m in live && n != m && c !in live && n < |t| && m < |t| && c < |t|
    ensures SumIn(live - {n, m} + {c}, Freqs(WithFather(t, n, m, c)), |t|) == SumIn(live, Freqs(t), |t|)
    ensures t[n].fc + t[m].fc <= SumIn(live, Freqs(t), |t|)
  {
    var w, w' := Freqs(t), Freqs(WithFather(t, n, m, c));
    SumAgree(live, w, w', |t|);
    SumMerge(live, n, m, c, w', |t|);
    SumRemove(live, n, w, |t|);
    SumRemove(live - {n}, m, w, |t|);
    SumNonNegative(live - {n} - {m}, w, |t|);
  }

  // --- One iteration ---

  ghost function Live(job: Job, merges: seq<(nat, nat)>): set<nat> {
    Alive(job.leaves, job.elems, merges, |merges|)
  }

  /** The two nodes taken off the heap are the least frequent live ones and among those the lowest, older than the
      new father. */
  ghost predicate TwoLeast(t: seq<CtData>, depth: seq<nat>, live: set<nat>, n: nat, m: nat, c: nat) {
    && n in live && m in live && n != m && c !in live && n < c && m < c < |t| <= |depth|
    && TwoFirst(live, Freqs(t), depth, n, m)
  }

  lemma {:induction false} PickTwo(job: Job, t: seq<CtData>, depth: seq<nat>, h: seq<nat>, len: nat,
                                   merges: seq<(nat, nat)>, h2: seq<nat>)
    requires MergeInv(job, t, depth, h, len, merges) && len >= 2
    requires HeapOk(t, depth, h2, len - 1, Live(job, merges) - {h[1]})
    ensures TwoLeast(t, depth, Live(job, merges), h[1], h2[1], job.elems + |merges|)
  {
    assert |h2| > 1;
    hide HeapOk, OutOk, DadsOk, Greedy, LowFirst, LeavesKept, SumIn;
    LeastFrequent(t, depth, h, len, Live(job, merges));
    LeastFrequent(t, depth, h2, len - 1, Live(job, merges) - {h[1]});
    NewNode(job.leaves, job.elems, merges, |merges|);
    AliveRange(job.leaves, job.elems, merges, |merges|, h[1]);
    AliveRange(job.leaves, job.elems, merges, |merges|, h2[1]);
  }

  lemma {:induction false} LeavesStillKept(job: Job, t: seq<CtData>, n: nat, m: nat, c: nat, live: set<nat>)
    requires LeavesKept(job, t) && n in live && m in live && n != m && n < c && m < c < |t| && c >= job.elems
    requires forall x :: x in live && x < job.elems ==> x in job.leaves
    ensures LeavesKept(job, WithFather(t, n, m, c))
  {
  }

  lemma {:induction false} MergeStepTree(job: Job, t: seq<CtData>, depth: seq<nat>, h: seq<nat>, len: nat,
                                         merges: seq<(nat, nat)>, n: nat, m: nat)
    requires MergeInv(job, t, depth, h, len, merges) && len >= 2
    requires TwoLeast(t, depth, Live(job, merges), n, m, job.elems + |merges|)
    ensures var t', merges' := WithFather(t, n, m, job.elems + |merges|), merges + [(n, m)];
      && LowFirst(job.leaves, job.elems, merges', Freqs(t'), WithHeight(depth, n, m, job.elems + |merges|))
      && MergesOk(job.leaves, job.elems, merges')
      && Live(job, merges') == Live(job, merges) - {n, m} + {job.elems + |merges|}
      && DadsOk(t', job.elems, merges') && Greedy(job.leaves, job.elems, merges', Freqs(t'))
      && LeavesKept(job, t') && SumIn(Live(job, merges'), Freqs(t'), |t'|) == job.total
      && t[n].fc + t[m].fc <= job.total
  {
    hide MergesOk, Alive;
    hide HeapOk, OutOk, SumIn;
    var c := job.elems + |merges|;
    var t' := WithFather(t, n, m, c);
    MergesGrow(job.leaves, job.elems, merges, n, m);
    DadsGrow(job.leaves, job.elems, merges, t, n, m);
    GreedyGrows(job.leaves, job.elems, merges, Freqs(t), Freqs(t'), n, m);
    LowGrows(job.leaves, job.elems, merges, Freqs(t), Freqs(t'), depth, n, m);
    forall x | x in Live(job, merges) && x < job.elems
      ensures x in job.leaves
    {
      AliveRange(job.leaves, job.elems, merges, |merges|, x);
    }
    hide DadsOk, Greedy, LowFirst, TwoFirst;
    LeavesStillKept(job, t, n, m, c, Live(job, merges));
    WeightKept(Live(job, merges), t, n, m, c);
  }

  lemma {:induction false} OutKept(h: seq<nat>, h': seq<nat>, merges: seq<(nat, nat)>, len: nat)
    requires OutOk(h, merges) && |h'| == |h| && len < |h| - 2 * |merges| && h'[len + 1..] == h[len + 1..]
    ensures OutOk(h', merges)
  {
    forall j | 0 <= j < |merges|
      ensures h'[|h| - 1 - 2 * j] == merges[j].0 && h'[|h| - 2 - 2 * j] == merges[j].1
    {
      var a, b := |h| - 1 - 2 * j, |h| - 2 - 2 * j;
      assert h'[a] == h'[len + 1..][a - len - 1] == h[a];
      assert h'[b] == h'[len + 1..][b - len - 1] == h[b];
    }
  }

  /** The live heap and the nodes taken off it never meet. */
  lemma {:induction false} RegionsApart(job: Job, t: seq<CtData>, depth: seq<nat>, h: seq<nat>, len: nat,
                                        merges: seq<(nat, nat)>)
    requires MergeInv(job, t, depth, h, len, merges)
    ensures len + 1 < |h| - 2 * |merges|
    ensures job.elems + |merges| < 2 * job.elems <= |t| <= |depth|
  {
  }

  lemma {:induction false} MergeStep(job: Job, t: seq<CtData>, depth: seq<nat>, h: seq<nat>, len: nat,
                                     merges: seq<(nat, nat)>, n: nat, m: nat, h2: seq<nat>, t': seq<CtData>,
                                     depth': seq<nat>, h5: seq<nat>)
    requires MergeInv(job, t, depth, h, len, merges) && len >= 2 && |h2| == |h|
    requires TwoLeast(t, depth, Live(job, merges), n, m, job.elems + |merges|)
    requires t' == WithFather(t, n, m, job.elems + |merges|)
    requires depth' == WithHeight(depth, n, m, job.elems + |merges|)
    requires h2[len + 1..] == h[len + 1..] && |h5| == |h|
    requires h5[len..] == h2[|h| - 2 * |merges| - 1 := n][|h| - 2 * |merges| - 2 := m][len..]
    requires HeapOk(t', depth', h5, len - 1, Live(job, merges) - {n} - {m} + {job.elems + |merges|})
    ensures MergeInv(job, t', depth', h5, len - 1, merges + [(n, m)])
    ensures t[n].fc + t[m].fc <= job.total
  {
    hide HeapOk, OutOk, SumIn, DadsOk, Greedy, LowFirst, LeavesKept, MergesOk, WithHeight, TwoFirst;
    RegionsApart(job, t, depth, h, len, merges);
    MergeStepTree(job, t, depth, h, len, merges, n, m);
    OutKept(h, h2, merges, len);
    OutGrows(h2, h5, merges, n, m, len - 1);
    assert Live(job, merges) - {n} - {m} == Live(job, merges) - {n, m};
  }

  /** What the second half of the loop body needs: n is gone from the heap, m is its root, node is new. */
  ghost predicate CanJoin(t: seq<CtData>, depth: seq<nat>, h: seq<nat>, len: nat, heapMax: nat, live: set<nat>,
                          n: nat, m: nat, node: nat) {
    && len >= 1 && |depth| >= |t|
    && HeapOk(t, depth, h, len, live) && m == h[1] && n !in live && node !in live
    && len + 2 < heapMax <= |h| && n != m && n < node && m < node < |t|
    && t[n].fc + t[m].fc < TWO16 && depth[n] < 255 && depth[m] < 255
  }

  /** What it achieves: both nodes in the output region, their father in the heap. */
  ghost predicate Joined(t: seq<CtData>, depth: seq<nat>, h: seq<nat>, len: nat, heapMax: nat, live: set<nat>, n: nat,
                         m: nat, node: nat, t': seq<CtData>, depth': seq<nat>, h': seq<nat>) {
    && n < |t| && m < |t| && node < |t| <= |depth| && n != m && n != node && m != node
    && t' == WithFather(t, n, m, node) && depth' == WithHeight(depth, n, m, node)
    && HeapOk(t', depth', h', len, live - {m} + {node})
    && len + 2 < heapMax <= |h| == |h'|
    && h'[len + 1..] == h[heapMax - 1 := n][heapMax - 2 := m][len + 1..]
  }

  /** Second half of the loop body. */
  method InsertFather(heap: array<nat>, heapLen: nat, heapMax: nat, tree: array<CtData>, depth: array<nat>,
                      node: nat, n: nat, m: nat, ghost live: set<nat>)
    requires heap != depth && CanJoin(tree[..], depth[..], heap[..], heapLen, heapMax, live, n, m, node)
    modifies heap, tree, depth
    ensures Joined(old(tree[..]), old(depth[..]), old(heap[..]), heapLen, heapMax, live, n, m, node,
                   tree[..], depth[..], heap[..])
  {
    hide HeapOk, HeapFrom, Nodes, InHeap, Sifted;
    ghost var h, t, d := heap[..], tree[..], depth[..];
    heap[heapMax - 1] := n;
    heap[heapMax - 2] := m;
    heap[1] := node;
    ghost var g := h[heapMax - 1 := n][heapMax - 2 := m];
    ghost var h4 := heap[..];
    assert h4 == g[1 := node];
    tree[node] := tree[node].(fc := (tree[n].fc + tree[m].fc) % TWO16);
    tree[n] := tree[n].(dl := node);
    tree[m] := tree[m].(dl := node);
    assert tree[..] == WithFather(t, n, m, node);
    depth[node] := ((if depth[n] >= depth[m] then depth[n] else depth[m]) + 1) % 256;
    ghost var t', d' := tree[..], depth[..];
    assert d' == WithHeight(d, n, m, node);
    FatherInHeap(t, d, h, heapLen, live, t', d', h4, node);
    PqDownHeap(heap, heapLen, tree, depth, 1);
    SiftedHeap(t', d', h4, heap[..], heapLen, live - {m} + {node});
    assert g[heapLen + 1..] == h4[heapLen + 1..];
  }

  lemma {:induction false} ReadyToJoin(job: Job, t: seq<CtData>, depth: seq<nat>, h: seq<nat>, len: nat,
                                       merges: seq<(nat, nat)>, n: nat, h2: seq<nat>)
    requires MergeInv(job, t, depth, h, len, merges) && len >= 2 && job.total < TWO16
    requires Taken(t, depth, h, len, Live(job, merges), n, h2)
    ensures |h2| > 1
    ensures CanJoin(t, depth, h2, len - 1, |h| - 2 * |merges|, Live(job, merges) - {n}, n, h2[1], job.elems + |merges|)
  {
    hide MergeInv, HeapOk, Live;
    assert |h2| > 1;
    RegionsApart(job, t, depth, h, len, merges);
    PickTwo(job, t, depth, h, len, merges, h2);
    SmallSum(job, t, depth, h, len, merges, n, h2[1]);
    LowNode(job, t, depth, h, len, merges, n);
    LowNode(job, t, depth, h, len, merges, h2[1]);
  }

  /** No tree is as high as the byte for its height could hold. */
  lemma {:induction false} LowNode(job: Job, t: seq<CtData>, depth: seq<nat>, h: seq<nat>, len: nat,
                                   merges: seq<(nat, nat)>, x: nat)
    requires MergeInv(job, t, depth, h, len, merges) && x in Live(job, merges) && x < |t| && t[x].fc < TWO16
    ensures x < |depth| && depth[x] < 255
  {
    hide HeapOk, OutOk, DadsOk, Greedy, Heights, SumIn, MergesOk;
    AliveRange(job.leaves, job.elems, merges, |merges|, x);
    HeightFits(job.leaves, job.elems, merges, Freqs(t), depth, x);
  }

  lemma {:induction false} AfterJoin(job: Job, t: seq<CtData>, depth: seq<nat>, h: seq<nat>, len: nat,
                                     merges: seq<(nat, nat)>, n: nat, m: nat, h2: seq<nat>, t': seq<CtData>,
                                     depth': seq<nat>, h5: seq<nat>)
    requires MergeInv(job, t, depth, h, len, merges) && len >= 2
    requires Taken(t, depth, h, len, Live(job, merges), n, h2) && |h2| > 1 && m == h2[1]
    requires Joined(t, depth, h2, len - 1, |h| - 2 * |merges|, Live(job, merges) - {n}, n, m, job.elems + |merges|,
                    t', depth', h5)
    ensures MergeInv(job, t', depth', h5, len - 1, merges + [(n, m)])
  {
    hide MergeInv, HeapOk, Live, WithFather, WithHeight, TwoFirst;
    RegionsApart(job, t, depth, h, len, merges);
    PickTwo(job, t, depth, h, len, merges, h2);
    MergeStep(job, t, depth, h, len, merges, n, m, h2, t', depth', h5);
  }

  /** Body of the merge loop. */
  method MergeTwo(heap: array<nat>, heapLen: nat, heapMax: nat, tree: array<CtData>, depth: array<nat>, node: nat,
                  ghost job: Job, ghost merges: seq<(nat, nat)>)
    returns (ghost n: nat, ghost m: nat)
    requires heap != depth && heapLen >= 2 && job.total < TWO16
    requires MergeInv(job, tree[..], depth[..], heap[..], heapLen, merges)
    requires node == job.elems + |merges| && heapMax == heap.Length - 2 * |merges|
    modifies heap, tree, depth
    ensures MergeInv(job, tree[..], depth[..], heap[..], heapLen - 1, merges + [(n, m)])
  {
    hide MergeInv, HeapOk, Live, Taken, CanJoin, Joined;
    ghost var h, t, d, live := heap[..], tree[..], depth[..], Live(job, merges);
    MergeHeap(job, t, d, h, heapLen, merges);
    var least := RemoveSmallest(heap, heapLen, tree, depth, live);
    ghost var h2 := heap[..];
    ReadyToJoin(job, t, d, h, heapLen, merges, least, h2);
    var next := heap[1];
    InsertFather(heap, heapLen - 1, heapMax, tree, depth, node, least, next, live - {least});
    AfterJoin(job, t, d, h, heapLen, merges, least, next, h2, tree[..], depth[..], heap[..]);
    n, m := least, next;
  }

  lemma {:induction false} SmallSum(job: Job, t: seq<CtData>, depth: seq<nat>, h: seq<nat>, len: nat,
                                    merges: seq<(nat, nat)>, n: nat, m: nat)
    requires MergeInv(job, t, depth, h, len, merges) && len >= 2
    requires TwoLeast(t, depth, Live(job, merges), n, m, job.elems + |merges|)
    ensures n < |t| && m < |t| && t[n].fc + t[m].fc <= job.total
  {
    hide MergeInv;
    MergeStepTree(job, t, depth, h, len, merges, n, m);
  }

  lemma {:induction false} MergeHeap(job: Job, t: seq<CtData>, depth: seq<nat>, h: seq<nat>, len: nat,
                                     merges: seq<(nat, nat)>)
    requires MergeInv(job, t, depth, h, len, merges)
    ensures HeapOk(t, depth, h, len, Live(job, merges)) && |depth| >= |t|
  {
  }

  lemma {:induction false} SiftedHeap(t: seq<CtData>, depth: seq<nat>, h: seq<nat>, h': seq<nat>, len: nat,
                                      live: set<nat>)
    requires Sifted(h, h', len, 1, t, depth) && len < |h| && Nodes(h, len) == multiset(live)
    ensures HeapOk(t, depth, h', len, live)
    ensures |h'| == |h| && h'[len + 1..] == h[len + 1..]
  {
  }
}
