/** The priority queue of build_tree: node numbers in a binary heap that starts at index 1, ordered by
    frequency and, among equal frequencies, by subtree depth. */
module HuffmanHeap {
  import opened CanonicalCode

  /** SMALLER: node n may stay above node m. */
  predicate Le(t: seq<CtData>, depth: seq<nat>, n: nat, m: nat)
    requires n < |t| && m < |t| && n < |depth| && m < |depth|
  {
    t[n].fc < t[m].fc || (t[n].fc == t[m].fc && depth[n] <= depth[m])
  }

  ghost predicate InHeap(h: seq<nat>, len: nat, t: seq<CtData>, depth: seq<nat>) {
    && len < |h|
    && forall i :: 1 <= i <= len ==> h[i] < |t| && h[i] < |depth|
  }

  /** The heap property for all fathers from index k on. */
  ghost predicate HeapFrom(h: seq<nat>, len: nat, k: nat, t: seq<CtData>, depth: seq<nat>)
    requires InHeap(h, len, t, depth)
  {
    forall i :: 2 <= i <= len && k <= i / 2 ==> Le(t, depth, h[i / 2], h[i])
  }

  /** The heap property from index k0 on except below the hole at k, whose sons are not below k's father. */
  ghost predicate HeapExcept(h: seq<nat>, len: nat, k0: nat, k: nat, t: seq<CtData>, depth: seq<nat>)
    requires InHeap(h, len, t, depth)
  {
    && 1 <= k0 <= k <= len
    && (forall i :: 2 <= i <= len && k0 <= i / 2 != k ==> Le(t, depth, h[i / 2], h[i]))
    && (k0 <= k / 2 ==> forall i :: 2 <= i <= len && i / 2 == k ==> Le(t, depth, h[k / 2], h[i]))
  }

  /** The node at index j may be put above the sons of index k. */
  ghost predicate AboveSons(h: seq<nat>, len: nat, k: nat, j: nat, t: seq<CtData>, depth: seq<nat>)
    requires InHeap(h, len, t, depth) && 1 <= j <= len
  {
    forall i :: 2 <= i <= len && i / 2 == k ==> Le(t, depth, h[j], h[i])
  }

  /** The nodes in the heap. */
  ghost function Nodes(h: seq<nat>, len: nat): multiset<nat>
    requires len < |h|
  {
    multiset(h[1..len + 1])
  }

  lemma {:induction false} SwapNodes(h: seq<nat>, len: nat, k: nat, j: nat)
    requires 1 <= k <= len < |h| && 1 <= j <= len
    ensures Nodes(h[k := h[j]][j := h[k]], len) == Nodes(h, len)
  {
    var u := h[1..len + 1];
    assert h[k := h[j]][j := h[k]][1..len + 1] == u[k - 1 := u[j - 1]][j - 1 := u[k - 1]];
  }

  /** Moving the hole down to its smallest son j. */
  lemma {:induction false} SiftStep(h: seq<nat>, len: nat, k0: nat, k: nat, j: nat, t: seq<CtData>, depth: seq<nat>)
    requires InHeap(h, len, t, depth) && HeapExcept(h, len, k0, k, t, depth)
    requires j / 2 == k && j <= len && 2 <= j
    requires Le(t, depth, h[j], h[k])
    requires AboveSons(h, len, k, j, t, depth)
    ensures var h' := h[k := h[j]][j := h[k]];
      InHeap(h', len, t, depth) && HeapExcept(h', len, k0, j, t, depth)
  {
    var h' := h[k := h[j]][j := h[k]];
    forall i | 2 <= i <= len && k0 <= i / 2 != j
      ensures Le(t, depth, h'[i / 2], h'[i])
    {
      if i == k {
        assert h'[i / 2] == h[k / 2] && h'[i] == h[j];
      } else if i / 2 == k {
        assert h'[i / 2] == h[j];
      } else {
        assert h'[i / 2] == h[i / 2] && h'[i] == h[i];
      }
    }
    forall i | 2 <= i <= len && i / 2 == j
      ensures Le(t, depth, h'[j / 2], h'[i])
    {
      assert Le(t, depth, h[i / 2], h[i]);
    }
  }

  lemma {:induction false} SiftDone(h: seq<nat>, len: nat, k0: nat, k: nat, t: seq<CtData>, depth: seq<nat>)
    requires InHeap(h, len, t, depth) && HeapExcept(h, len, k0, k, t, depth) && 1 <= k <= len
    requires AboveSons(h, len, k, k, t, depth)
    ensures HeapFrom(h, len, k0, t, depth)
  {
  }

  /** The smallest son of k is not above its sibling. */
  lemma {:induction false} SmallestSon(h: seq<nat>, len: nat, k: nat, j: nat, t: seq<CtData>, depth: seq<nat>)
    requires InHeap(h, len, t, depth) && 1 <= k && 2 * k <= len
    requires j == if 2 * k < len && Le(t, depth, h[2 * k + 1], h[2 * k]) then 2 * k + 1 else 2 * k
    ensures AboveSons(h, len, k, j, t, depth)
  {
    forall i | 2 <= i <= len && i / 2 == k
      ensures Le(t, depth, h[j], h[i])
    {
      assert i == 2 * k || i == 2 * k + 1;
    }
  }

  predicate Smaller(tree: array<CtData>, depth: array<nat>, n: nat, m: nat)
    requires n < tree.Length && m < tree.Length && n < depth.Length && m < depth.Length
    reads tree, depth
    ensures Smaller(tree, depth, n, m) == Le(tree[..], depth[..], n, m)
  {
    tree[n].fc < tree[m].fc || (tree[n].fc == tree[m].fc && depth[n] <= depth[m])
  }

  /** State of the sift: h, the heap with the sifted node in the hole at k, rearranges h0. */
  ghost predicate Sifting(h0: seq<nat>, h: seq<nat>, len: nat, k0: nat, k: nat, t: seq<CtData>, depth: seq<nat>) {
    && InHeap(h, len, t, depth) && HeapExcept(h, len, k0, k, t, depth)
    && |h| == |h0| && Nodes(h, len) == Nodes(h0, len) && h[len + 1..] == h0[len + 1..]
  }

  /** The outcome: h rearranges h0 into a heap. */
  ghost predicate Sifted(h0: seq<nat>, h: seq<nat>, len: nat, k0: nat, t: seq<CtData>, depth: seq<nat>) {
    && InHeap(h, len, t, depth) && HeapFrom(h, len, k0, t, depth)
    && |h| == |h0| && Nodes(h, len) == Nodes(h0, len) && h[len + 1..] == h0[len + 1..]
  }

  lemma {:induction false} SiftingFacts(h0: seq<nat>, h: seq<nat>, len: nat, k0: nat, k: nat, t: seq<CtData>,
                                        depth: seq<nat>)
    requires Sifting(h0, h, len, k0, k, t, depth)
    ensures 1 <= k <= len < |h| == |h0| && InHeap(h, len, t, depth)
  {
  }

  /** The smallest son j of the hole, and what becomes of the sift there. */
  method SmallestOfSons(heap: array<nat>, heapLen: nat, tree: array<CtData>, depth: array<nat>, k: nat, v: nat,
                        ghost h0: seq<nat>, ghost h: seq<nat>, ghost k0: nat) returns (j: nat)
    requires Sifting(h0, h, heapLen, k0, k, tree[..], depth[..]) && 2 * k <= heapLen
    requires heap.Length == |h| && heap[..][k := v] == h
    ensures k < j <= heapLen && heap[j] == h[j] < tree.Length && h[j] < depth.Length
    ensures v < tree.Length && v < depth.Length && v == h[k]
    ensures if Smaller(tree, depth, v, h[j])
      then Sifted(h0, h, heapLen, k0, tree[..], depth[..])
      else Sifting(h0, h[k := h[j]][j := v], heapLen, k0, j, tree[..], depth[..])
  {
    hide HeapExcept, HeapFrom, Nodes;
    SiftingFacts(h0, h, heapLen, k0, k, tree[..], depth[..]);
    assert v == h[k] && forall i :: 1 <= i <= heapLen && i != k ==> heap[i] == h[i];
    j := 2 * k;
    if j < heapLen && Smaller(tree, depth, heap[j + 1], heap[j]) {
      j := j + 1;
    }
    SmallestSon(h, heapLen, k, j, tree[..], depth[..]);
    if Smaller(tree, depth, v, h[j]) {
      SonsAbove(h, heapLen, k, j, tree[..], depth[..]);
      SiftDone(h, heapLen, k0, k, tree[..], depth[..]);
    } else {
      NotSmaller(h[k], h[j], tree[..], depth[..]);
      SiftStep(h, heapLen, k0, k, j, tree[..], depth[..]);
      SwapNodes(h, heapLen, k, j);
    }
  }

  method PqDownHeap(heap: array<nat>, heapLen: nat, tree: array<CtData>, depth: array<nat>, start: nat)
    requires heap != depth
    requires InHeap(heap[..], heapLen, tree[..], depth[..]) && 1 <= start <= heapLen
    requires HeapFrom(heap[..], heapLen, start + 1, tree[..], depth[..])
    modifies heap
    ensures Sifted(old(heap[..]), heap[..], heapLen, start, tree[..], depth[..])
  {
    ghost var t, d, h0 := tree[..], depth[..], heap[..];
    HoleAtStart(h0, heapLen, start, t, d);
    hide Sifting, Sifted, InHeap, HeapFrom, HeapExcept;
    var k := start;
    var v := heap[k];
    ghost var h := heap[..];
    var done := false;
    while 2 * k <= heapLen
      invariant tree[..] == t && depth[..] == d
      invariant 1 <= k <= heapLen < heap.Length == |h| && heap[..][k := v] == h
      invariant Sifting(h0, h, heapLen, start, k, t, d)
      decreases heapLen - k
    {
      var j := SmallestOfSons(heap, heapLen, tree, depth, k, v, h0, h, start);
      if Smaller(tree, depth, v, heap[j]) {
        done := true;
        break;
      }
      h := h[k := h[j]][j := v];
      heap[k] := heap[j];
      k := j;
      assert heap[..][k := v] == h;
    }
    if !done {
      NoSons(h0, h, heapLen, start, k, t, d);
    }
    heap[k] := v;
    assert heap[..] == h;
  }

  lemma {:induction false} NoSons(h0: seq<nat>, h: seq<nat>, len: nat, k0: nat, k: nat, t: seq<CtData>, depth: seq<nat>)
    requires Sifting(h0, h, len, k0, k, t, depth) && 2 * k > len
    ensures Sifted(h0, h, len, k0, t, depth)
  {
  }

  lemma {:induction false} NotSmaller(n: nat, m: nat, t: seq<CtData>, depth: seq<nat>)
    requires n < |t| && m < |t| && n < |depth| && m < |depth| && !Le(t, depth, n, m)
    ensures Le(t, depth, m, n)
  {
  }

  lemma {:induction false} HoleAtStart(h: seq<nat>, len: nat, k0: nat, t: seq<CtData>, depth: seq<nat>)
    requires InHeap(h, len, t, depth) && 1 <= k0 <= len && HeapFrom(h, len, k0 + 1, t, depth)
    ensures Sifting(h, h, len, k0, k0, t, depth)
  {
  }

  lemma {:induction false} SonsAbove(h: seq<nat>, len: nat, k: nat, j: nat, t: seq<CtData>, depth: seq<nat>)
    requires InHeap(h, len, t, depth) && 1 <= k <= len && 1 <= j <= len
    requires Le(t, depth, h[k], h[j])
    requires AboveSons(h, len, k, j, t, depth)
    ensures AboveSons(h, len, k, k, t, depth)
  {
  }

  /** The root of a heap is not above any other node. */
  lemma {:induction false} RootSmallest(h: seq<nat>, len: nat, i: nat, t: seq<CtData>, depth: seq<nat>)
    requires InHeap(h, len, t, depth) && HeapFrom(h, len, 1, t, depth) && 1 <= i <= len
    ensures Le(t, depth, h[1], h[i])
  {
    if i > 1 {
      RootSmallest(h, len, i / 2, t, depth);
    }
  }
}
