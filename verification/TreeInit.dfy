/** The first loops of build_tree: the used symbols enter the heap array, at least two codes are forced to
    exist, and the array is made a heap. */
module TreeInit {
  import opened Bits
  import opened CanonicalCode
  import opened HuffmanHeap
  import opened BitLengths
  import opened GenBitlen

  /** Symbols below n with a non-zero frequency. */
  ghost function Used(t: seq<CtData>, n: nat): (s: set<nat>)
    requires n <= |t|
    ensures forall x :: x in s <==> 0 <= x < n && t[x].fc != 0
  {
    set x: nat | x < n && t[x].fc != 0
  }

  /** max_code is the largest used symbol, -1 if there is none. */
  ghost predicate IsMaxCode(s: set<nat>, maxCode: int) {
    if s == {} then maxCode == -1
    else 0 <= maxCode && maxCode in s && forall x :: x in s ==> x <= maxCode
  }

  ghost predicate SameFreqs(t0: seq<CtData>, t: seq<CtData>, n: nat) {
    && n <= |t| == |t0|
    && (forall x :: 0 <= x < |t| ==> t[x].fc == t0[x].fc)
    && (forall x :: 0 <= x < n && t0[x].fc == 0 ==> t[x].dl == 0)
  }

  /** The heap array holds the used symbols below n; unused ones have length 0. */
  ghost predicate Filled(t0: seq<CtData>, t: seq<CtData>, h: seq<nat>, len: nat, maxCode: int, n: nat) {
    && SameFreqs(t0, t, n)
    && len <= n && len < |h| && Nodes(h, len) == multiset(Used(t0, n)) && |Used(t0, n)| == len
    && IsMaxCode(Used(t0, n), maxCode)
  }

  /** The used symbols are trees of height 0. */
  ghost predicate Flat(t: seq<CtData>, depth: seq<nat>, n: nat)
    requires n <= |t|
  {
    n <= |depth| && forall x :: x in Used(t, n) ==> depth[x] == 0
  }

  lemma {:induction false} AddNode(h: seq<nat>, len: nat, s: set<nat>, x: nat)
    requires len + 1 < |h| && Nodes(h, len) == multiset(s) && x !in s && |s| == len
    ensures Nodes(h[len + 1 := x], len + 1) == multiset(s + {x}) && |s + {x}| == len + 1
  {
    assert h[len + 1 := x][1..len + 2] == h[1..len + 1] + [x];
    assert multiset(s) + multiset{x} == multiset(s + {x});
  }

  lemma {:induction false} FilledStep(t0: seq<CtData>, t: seq<CtData>, h: seq<nat>, len: nat, maxCode: int, n: nat)
    requires Filled(t0, t, h, len, maxCode, n) && n < |t0| && n + 1 < |h|
    ensures t[n].fc == t0[n].fc
    ensures t[n].fc != 0 ==> Filled(t0, t, h[len + 1 := n], len + 1, n, n + 1)
    ensures t[n].fc == 0 ==> Filled(t0, t[n := t[n].(dl := 0)], h, len, maxCode, n + 1)
  {
    if t[n].fc != 0 {
      assert Used(t0, n + 1) == Used(t0, n) + {n};
      AddNode(h, len, Used(t0, n), n);
    } else {
      assert Used(t0, n + 1) == Used(t0, n);
    }
  }

  method FillHeap(tree: array<CtData>, heap: array<nat>, depth: array<nat>, elems: nat)
    returns (heapLen: nat, maxCode: int)
    requires elems < heap.Length && elems <= tree.Length <= depth.Length && heap != depth
    modifies tree, heap, depth
    ensures Filled(old(tree[..]), tree[..], heap[..], heapLen, maxCode, elems)
    ensures Flat(old(tree[..]), depth[..], elems)
  {
    hide Filled;
    ghost var t0 := tree[..];
    FilledStart(t0, heap[..]);
    heapLen, maxCode := 0, -1;
    for n := 0 to elems
      invariant heapLen <= n && Filled(t0, tree[..], heap[..], heapLen, maxCode, n) && Flat(t0, depth[..], n)
    {
      ghost var t, h := tree[..], heap[..];
      FilledStep(t0, t, h, heapLen, maxCode, n);
      FilledLength(t0, t, h, heapLen, maxCode, n);
      if tree[n].fc != 0 {
        depth[n] := 0;
        assert heap[..] == h && tree[..] == t;
        heapLen := heapLen + 1;
        heap[heapLen] := n;
        maxCode := n;
        assert heap[..] == h[heapLen := n] && tree[..] == t;
      } else {
        tree[n] := tree[n].(dl := 0);
        assert tree[..] == t[n := t[n].(dl := 0)] && heap[..] == h;
      }
    }
  }

  lemma {:induction false} FilledStart(t0: seq<CtData>, h: seq<nat>)
    requires |h| > 0
    ensures Filled(t0, t0, h, 0, -1, 0)
  {
    assert Used(t0, 0) == {};
    assert h[1..1] == [];
  }

  lemma {:induction false} FilledLength(t0: seq<CtData>, t: seq<CtData>, h: seq<nat>, len: nat, maxCode: int, n: nat)
    requires Filled(t0, t, h, len, maxCode, n)
    ensures len <= n && |t| == |t0| && -1 <= maxCode < n && (len > 0 ==> maxCode >= 0)
    ensures len == 0 <==> maxCode == -1
  {
    if len == 0 {
      assert Used(t0, n) == {};
    }
  }

  // --- At least two codes ---

  /** The frequencies after the symbols fs, in order, were given frequency 1. */
  ghost function Force(t: seq<CtData>, fs: seq<nat>): (t': seq<CtData>)
    requires forall i :: 0 <= i < |fs| ==> fs[i] < |t|
    ensures |t'| == |t|
  {
    if fs == [] then t
    else
      var t1 := Force(t, fs[..|fs| - 1]);
      t1[fs[|fs| - 1] := t1[fs[|fs| - 1]].(fc := 1)]
  }

  ghost function FixedSum(d: TreeDesc, fs: seq<nat>): nat
    requires d.fixed.Some? ==> forall i :: 0 <= i < |fs| ==> fs[i] < |d.fixed.value|
  {
    if fs == [] || d.fixed.None? then 0
    else FixedSum(d, fs[..|fs| - 1]) + d.fixed.value[fs[|fs| - 1]]
  }

  /** The symbol forced next. */
  function NextForced(maxCode: int): nat
    requires maxCode >= -1
  {
    if maxCode < 2 then maxCode + 1 else 0
  }

  /** Forced symbols were unused and have small numbers. */
  ghost predicate ForcedOk(d: TreeDesc, t0: seq<CtData>, fs: seq<nat>) {
    && DescOk(d) && |t0| >= d.elems
    && (forall i :: 0 <= i < |fs| ==> fs[i] < 3 && t0[fs[i]].fc == 0)
    && (forall i, j :: 0 <= i < j < |fs| ==> fs[i] != fs[j])
  }

  ghost predicate ForceInv(d: TreeDesc, t0: seq<CtData>, fs: seq<nat>, t: seq<CtData>, h: seq<nat>, len: nat,
                           maxCode: int, opt0: int, stat0: int, opt: nat, stat: nat)
  {
    && ForcedOk(d, t0, fs) && (fs != [] ==> len <= 2) && d.elems + 1 < |h|
    && Filled(Force(t0, fs), t, h, len, maxCode, d.elems)
    && opt == U32(opt0 - |fs|) && stat == U32(stat0 - FixedSum(d, fs))
  }

  lemma {:induction false} NextIsUnused(t0: seq<CtData>, n: nat, len: nat, maxCode: int)
    requires 3 <= n <= |t0| && |Used(t0, n)| == len < 2 && IsMaxCode(Used(t0, n), maxCode)
    ensures maxCode >= -1 && NextForced(maxCode) < 3 && t0[NextForced(maxCode)].fc == 0
    ensures IsMaxCode(Used(t0, n) + {NextForced(maxCode)}, if maxCode < 2 then maxCode + 1 else maxCode)
  {
    var s, x := Used(t0, n), NextForced(maxCode);
    if s != {} && maxCode >= 2 {
      assert |s - {maxCode}| == 0;
      assert s == (s - {maxCode}) + {maxCode};
    }
    assert x !in s;
  }

  lemma {:induction false} ForceOne(t0: seq<CtData>, fs: seq<nat>, x: nat)
    requires forall i :: 0 <= i < |fs| ==> fs[i] < |t0|
    requires x < |t0|
    ensures Force(t0, fs + [x]) == Force(t0, fs)[x := Force(t0, fs)[x].(fc := 1)]
  {
    assert (fs + [x])[..|fs|] == fs;
  }

  lemma {:induction false} ForceFreq(t0: seq<CtData>, fs: seq<nat>, x: nat)
    requires forall i :: 0 <= i < |fs| ==> fs[i] < |t0|
    requires x < |t0|
    ensures Force(t0, fs)[x].fc == if x in fs then 1 else t0[x].fc
  {
    if fs != [] {
      ForceFreq(t0, fs[..|fs| - 1], x);
      assert fs == fs[..|fs| - 1] + [fs[|fs| - 1]];
    }
  }

  lemma {:induction false} ForceFill(d: TreeDesc, t1: seq<CtData>, t: seq<CtData>, h: seq<nat>, len: nat, maxCode: int)
    requires 3 <= d.elems && d.elems + 1 < |h| && len < 2 && Filled(t1, t, h, len, maxCode, d.elems)
    ensures maxCode >= -1
    ensures var x := NextForced(maxCode);
      && x < 3 && x < |t| && t1[x].fc == 0
      && Filled(t1[x := t1[x].(fc := 1)], t[x := t[x].(fc := 1)], h[len + 1 := x], len + 1,
                if maxCode < 2 then maxCode + 1 else maxCode, d.elems)
  {
    hide Used;
    NextIsUnused(t1, d.elems, len, maxCode);
    var x := NextForced(maxCode);
    var t1' := t1[x := t1[x].(fc := 1)];
    assert Used(t1', d.elems) == Used(t1, d.elems) + {x};
    AddNode(h, len, Used(t1, d.elems), x);
  }

  lemma {:induction false} FixedSumOne(d: TreeDesc, fs: seq<nat>, x: nat)
    requires d.fixed.Some? ==> x < |d.fixed.value| && forall i :: 0 <= i < |fs| ==> fs[i] < |d.fixed.value|
    ensures FixedSum(d, fs + [x]) == FixedSum(d, fs) + if d.fixed.Some? then d.fixed.value[x] else 0
  {
    assert (fs + [x])[..|fs|] == fs;
  }

  lemma {:induction false} ForceStep(d: TreeDesc, t0: seq<CtData>, fs: seq<nat>, t: seq<CtData>, h: seq<nat>, len: nat,
                                     maxCode: int, opt0: int, stat0: int, opt: nat, stat: nat)
    requires ForceInv(d, t0, fs, t, h, len, maxCode, opt0, stat0, opt, stat) && len < 2
    ensures maxCode >= -1 && (d.fixed.Some? ==> 3 <= |d.fixed.value|) && len + 1 < |h| && |t| == |t0|
    ensures var x := NextForced(maxCode);
      && x < 3 && x < |t|
      && ForceInv(d, t0, fs + [x], t[x := t[x].(fc := 1)], h[len + 1 := x], len + 1,
                  if maxCode < 2 then maxCode + 1 else maxCode, opt0, stat0,
                  U32(opt - 1), if d.fixed.Some? then U32(stat - d.fixed.value[x]) else stat)
  {
    hide U32, Filled;
    ForceFill(d, Force(t0, fs), t, h, len, maxCode);
    FilledLength(Force(t0, fs), t, h, len, maxCode, d.elems);
    var x := NextForced(maxCode);
    ForceOne(t0, fs, x);
    ForceFreq(t0, fs, x);
    FixedSumOne(d, fs, x);
    U32Add(opt0 - |fs|, -1);
    if d.fixed.Some? {
      var drop: int := d.fixed.value[x];
      U32Add(stat0 - FixedSum(d, fs), 0 - drop);
    }
  }

  method AddForced(tree: array<CtData>, heap: array<nat>, depth: array<nat>, heapLen: nat, x: nat)
    requires heapLen < heap.Length && x < tree.Length <= depth.Length && heap != depth
    modifies tree, heap, depth
    ensures heap[..] == old(heap[..])[heapLen := x]
    ensures tree[..] == old(tree[..])[x := old(tree[x]).(fc := 1)] && depth[..] == old(depth[..])[x := 0]
  {
    depth[x] := 0;
    assert tree[..] == old(tree[..]) && heap[..] == old(heap[..]);
    heap[heapLen] := x;
    tree[x] := tree[x].(fc := 1);
  }

  method ForceTwoCodes(tree: array<CtData>, heap: array<nat>, depth: array<nat>, d: TreeDesc, heapLen0: nat,
                       maxCode0: int, optLen0: nat, staticLen0: nat, ghost t0: seq<CtData>)
    returns (heapLen: nat, maxCode: nat, optLen: nat, staticLen: nat, ghost fs: seq<nat>)
    requires DescOk(d) && Filled(t0, tree[..], heap[..], heapLen0, maxCode0, d.elems)
    requires d.elems + 1 < heap.Length && tree.Length <= depth.Length && heap != depth
    requires optLen0 < TWO32 && staticLen0 < TWO32 && d.elems <= |t0| && Flat(t0, depth[..], d.elems)
    modifies tree, heap, depth
    ensures heapLen >= 2 && FlatForced(t0, fs, depth[..], d.elems)
    ensures ForceInv(d, t0, fs, tree[..], heap[..], heapLen, maxCode, optLen0, staticLen0, optLen, staticLen)
  {
    hide ForceInv, DescOk, Filled, U32;
    ForceStart(d, t0, tree[..], heap[..], heapLen0, maxCode0, optLen0, staticLen0);
    var top: int := maxCode0;
    heapLen, optLen, staticLen, fs := heapLen0, optLen0, staticLen0, [];
    while heapLen < 2
      invariant ForceInv(d, t0, fs, tree[..], heap[..], heapLen, top, optLen0, staticLen0, optLen, staticLen)
      invariant FlatForced(t0, fs, depth[..], d.elems)
      decreases 2 - heapLen
    {
      ghost var t, h := tree[..], heap[..];
      ForceStep(d, t0, fs, t, h, heapLen, top, optLen0, staticLen0, optLen, staticLen);
      var new_;
      if top < 2 {
        top := top + 1;
        new_ := top;
      } else {
        new_ := 0;
      }
      heapLen := heapLen + 1;
      FlatMore(t0, fs, depth[..], d.elems, new_);
      AddForced(tree, heap, depth, heapLen, new_);
      optLen := U32(optLen - 1);
      if d.fixed.Some? {
        staticLen := U32(staticLen - d.fixed.value[new_]);
      }
      fs := fs + [new_];
    }
    ForceEnd(d, t0, fs, tree[..], heap[..], heapLen, top, optLen0, staticLen0, optLen, staticLen);
    maxCode := top;
  }

  /** The same once the symbols fs were given frequency 1. */
  ghost predicate FlatForced(t0: seq<CtData>, fs: seq<nat>, depth: seq<nat>, n: nat) {
    n <= |t0| && (forall i :: 0 <= i < |fs| ==> fs[i] < |t0|) && Flat(Force(t0, fs), depth, n)
  }

  lemma {:induction false} FlatMore(t0: seq<CtData>, fs: seq<nat>, depth: seq<nat>, n: nat, x: nat)
    requires FlatForced(t0, fs, depth, n) && x < |t0| && x < |depth|
    ensures FlatForced(t0, fs + [x], depth[x := 0], n)
  {
    ForceOne(t0, fs, x);
  }

  lemma {:induction false} ForceStart(d: TreeDesc, t0: seq<CtData>, t: seq<CtData>, h: seq<nat>, len: nat, maxCode: int,
                                      opt0: nat, stat0: nat)
    requires DescOk(d) && Filled(t0, t, h, len, maxCode, d.elems) && d.elems + 1 < |h| && opt0 < TWO32 && stat0 < TWO32
    ensures ForceInv(d, t0, [], t, h, len, maxCode, opt0, stat0, opt0, stat0)
  {
  }

  lemma {:induction false} ForceEnd(d: TreeDesc, t0: seq<CtData>, fs: seq<nat>, t: seq<CtData>, h: seq<nat>, len: nat,
                                    maxCode: int, opt0: int, stat0: int, opt: nat, stat: nat)
    requires ForceInv(d, t0, fs, t, h, len, maxCode, opt0, stat0, opt, stat) && len >= 2
    ensures 0 <= maxCode < d.elems
  {
    FilledLength(Force(t0, fs), t, h, len, maxCode, d.elems);
  }

  // --- Making the array a heap ---

  method Heapify(heap: array<nat>, heapLen: nat, tree: array<CtData>, depth: array<nat>)
    requires heap != depth && InHeap(heap[..], heapLen, tree[..], depth[..])
    modifies heap
    ensures InHeap(heap[..], heapLen, tree[..], depth[..])
    ensures HeapFrom(heap[..], heapLen, 1, tree[..], depth[..])
    ensures Nodes(heap[..], heapLen) == old(Nodes(heap[..], heapLen))
  {
    hide InHeap, HeapFrom, Nodes;
    ghost var h0, t, d := heap[..], tree[..], depth[..];
    NoFathers(h0, heapLen, t, d);
    var n := heapLen / 2;
    while n >= 1
      invariant 0 <= n <= heapLen && heapLen < heap.Length && tree[..] == t && depth[..] == d
      invariant InHeap(heap[..], heapLen, t, d) && HeapFrom(heap[..], heapLen, n + 1, t, d)
      invariant Nodes(heap[..], heapLen) == Nodes(h0, heapLen)
    {
      PqDownHeap(heap, heapLen, tree, depth, n);
      n := n - 1;
    }
  }

  lemma {:induction false} NoFathers(h: seq<nat>, len: nat, t: seq<CtData>, depth: seq<nat>)
    requires InHeap(h, len, t, depth)
    ensures len < |h| && HeapFrom(h, len, len / 2 + 1, t, depth)
  {
  }
}
