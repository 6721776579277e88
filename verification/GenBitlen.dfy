/** The imperative side of gen_bitlen: three loops over the shared heap array, the tree and bl_count. */
module GenBitlen {
  import opened Bits
  import opened Options
  import opened CanonicalCode
  import opened HuffmanTree
  import opened BitLengths

  /** tree_desc, without the tree itself. */
  datatype TreeDesc = TreeDesc(elems: nat, maxLength: nat, extraBits: seq<nat>, extraBase: nat,
                               fixed: Option<seq<nat>>)

  ghost predicate DescOk(d: TreeDesc) {
    && 3 <= d.elems && 1 <= d.maxLength <= MAX_BITS && d.elems <= Pow2(d.maxLength)
    && d.extraBase + |d.extraBits| >= d.elems
    && (d.fixed.Some? ==> |d.fixed.value| >= d.elems)
    && XBits(d, 0) == 0 && XBits(d, 1) == 0 && XBits(d, 2) == 0
  }

  function XBits(d: TreeDesc, n: nat): nat
    requires d.extraBase + |d.extraBits| >= d.elems && n < d.elems
  {
    if n >= d.extraBase then d.extraBits[n - d.extraBase] else 0
  }

  ghost function Extras(d: TreeDesc): (xs: seq<nat>)
    requires DescOk(d)
    ensures |xs| == d.elems && forall n :: 0 <= n < d.elems ==> xs[n] == XBits(d, n)
  {
    seq(d.elems, n requires 0 <= n < d.elems => XBits(d, n))
  }

  ghost function Freqs(t: seq<CtData>): (f: seq<nat>)
    ensures |f| == |t| && forall x :: 0 <= x < |t| ==> f[x] == t[x].fc
  {
    seq(|t|, x requires 0 <= x < |t| => t[x].fc)
  }

  /** The part of the heap array above heap_max lists the root and then all sons, in visiting order. */
  ghost predicate OrderOk(heap: seq<nat>, heapMax: nat, elems: nat, merges: seq<(nat, nat)>) {
    && |merges| >= 1 && |heap| == heapMax + 1 + 2 * |merges|
    && heap[heapMax] == elems + |merges| - 1
    && forall p :: 0 <= p < 2 * |merges| ==> heap[heapMax + 1 + p] == Son(merges, p)
  }

  ghost predicate LeavesUpTo(leaves: set<nat>, maxCode: nat) {
    forall x :: x in leaves ==> x <= maxCode
  }

  ghost function OwnTotal(d: TreeDesc, freq: seq<nat>, lens: seq<nat>): nat
    requires DescOk(d) && |lens| == d.elems <= |freq|
  {
    OwnPrice(freq, lens, Extras(d), d.elems)
  }

  ghost function FixedTotal(d: TreeDesc, freq: seq<nat>, lens: seq<nat>): nat
    requires DescOk(d) && |lens| == d.elems <= |freq|
  {
    if d.fixed.Some? then FixedPrice(freq, lens, d.fixed.value, Extras(d), d.elems) else 0
  }

  /** The ghost context of one call: the tree as it was and how it was built. */
  datatype Context = Context(was: seq<CtData>, leaves: set<nat>, merges: seq<(nat, nat)>, opt0: int, stat0: int)

  ghost predicate ContextOk(c: Context, d: TreeDesc) {
    && DescOk(d) && Complete(c.leaves, d.elems, c.merges) && FathersSet(c.was, d.elems, c.merges)
    && d.elems + |c.merges| <= |c.was|
  }

  ghost predicate PassInv(c: Context, d: TreeDesc, now: seq<CtData>, bl: seq<nat>, lens: seq<nat>,
                          overflow: nat, opt: nat, stat: nat, p: nat)
  {
    && ContextOk(c, d) && p <= 2 * |c.merges|
    && PassState(c.was, now, lens, c.leaves, d.elems, c.merges, d.maxLength, p)
    && CountsOk(bl, lens)
    && overflow == OverflowAt(Lens(now), d.elems, |c.merges|, p, d.maxLength)
    && opt == U32(c.opt0 + OwnTotal(d, Freqs(c.was), lens))
    && stat == U32(c.stat0 + FixedTotal(d, Freqs(c.was), lens))
  }

  lemma {:induction false} TotalsSet(d: TreeDesc, freq: seq<nat>, lens: seq<nat>, x: nat, b: nat, opt0: int, stat0: int)
    requires DescOk(d) && |lens| == d.elems <= |freq| && x < d.elems && lens[x] == 0 && b > 0
    ensures U32(opt0 + OwnTotal(d, freq, lens[x := b]))
         == U32(U32(opt0 + OwnTotal(d, freq, lens)) + freq[x] * (b + XBits(d, x)))
    ensures U32(stat0 + FixedTotal(d, freq, lens[x := b]))
         == if d.fixed.Some?
            then U32(U32(stat0 + FixedTotal(d, freq, lens)) + freq[x] * (d.fixed.value[x] + XBits(d, x)))
            else U32(stat0 + FixedTotal(d, freq, lens))
  {
    hide U32, OwnPrice, FixedPrice;
    OwnPriceSet(freq, lens, Extras(d), x, b, d.elems);
    U32Add(opt0 + OwnTotal(d, freq, lens), freq[x] * (b + XBits(d, x)));
    if d.fixed.Some? {
      FixedPriceSet(freq, lens, d.fixed.value, Extras(d), x, b, d.elems);
      U32Add(stat0 + FixedTotal(d, freq, lens), freq[x] * (d.fixed.value[x] + XBits(d, x)));
    }
  }

  lemma {:induction false} PassInvReads(c: Context, d: TreeDesc, now: seq<CtData>, bl: seq<nat>, lens: seq<nat>,
                                        overflow: nat, opt: nat, stat: nat, p: nat)
    requires p < 2 * |c.merges| && PassInv(c, d, now, bl, lens, overflow, opt, stat, p)
    ensures var x, f := Son(c.merges, p), d.elems + MergeAt(|c.merges|, p);
      && |lens| == d.elems && |bl| == MAX_BITS + 1 && DescOk(d)
      && x < |now| == |c.was| && f < |now| && now[x].dl == f && now[x].fc == c.was[x].fc && now[f].dl <= d.maxLength
      && (x < d.elems ==> lens[x] == 0 && x in c.leaves)
      && x < f
  {
    hide Son, MergeAt, Complete, FathersSet, OverflowAt, OwnTotal, FixedTotal;
    PassReads(c.was, now, lens, c.leaves, d.elems, c.merges, d.maxLength, p);
    SonBelowFather(c.leaves, d.elems, c.merges, p);
  }

  lemma {:induction false} SonBelowFather(leaves: set<nat>, elems: nat, merges: seq<(nat, nat)>, p: nat)
    requires Complete(leaves, elems, merges) && p < 2 * |merges|
    ensures Son(merges, p) < elems + MergeAt(|merges|, p)
  {
    MergeFacts(leaves, elems, merges, MergeAt(|merges|, p));
  }

  /** One iteration of the first loop keeps the invariant, for inner nodes and for leaves. */
  lemma {:induction false} PassInvStep(c: Context, d: TreeDesc, now: seq<CtData>, bl: seq<nat>, lens: seq<nat>,
                                       overflow: nat, opt: nat, stat: nat, p: nat, x: nat, f: nat, bits: nat)
    requires p < 2 * |c.merges| && PassInv(c, d, now, bl, lens, overflow, opt, stat, p)
    requires x == Son(c.merges, p) && f == d.elems + MergeAt(|c.merges|, p) && x < |now| && f < |now|
    requires |lens| == d.elems && |bl| == MAX_BITS + 1 && |now| == |c.was| && DescOk(d)
    requires bits == Clamp(now[f].dl + 1, d.maxLength)
    ensures 1 <= bits <= MAX_BITS
    ensures var now' := now[x := now[x].(dl := bits)];
      var overflow' := if now[f].dl + 1 > d.maxLength then overflow + 1 else overflow;
      && (x >= d.elems ==> PassInv(c, d, now', bl, lens, overflow', opt, stat, p + 1))
      && (x < d.elems ==>
            PassInv(c, d, now', bl[bits := bl[bits] + 1], lens[x := bits], overflow',
                    U32(opt + now[x].fc * (bits + XBits(d, x))),
                    if d.fixed.Some? then U32(stat + now[x].fc * (d.fixed.value[x] + XBits(d, x))) else stat,
                    p + 1))
  {
    hide Son, MergeAt, Complete, FathersSet, OverflowAt, OwnTotal, FixedTotal, PassState, CountsOk, U32, Lens;
    PassInvReads(c, d, now, bl, lens, overflow, opt, stat, p);
    PassStep(c.was, now, lens, c.leaves, d.elems, c.merges, d.maxLength, p, x, bits);
    OverflowStep(Lens(now), d.elems, |c.merges|, p, d.maxLength, x, bits);
    LensSet(now, x, bits);
    if x < d.elems {
      CountsOkSet(bl, lens, x, bits);
      TotalsSet(d, Freqs(c.was), lens, x, bits, c.opt0, c.stat0);
    }
  }

  lemma {:induction false} LensSet(t: seq<CtData>, x: nat, b: nat)
    requires x < |t|
    ensures Lens(t[x := t[x].(dl := b)]) == Lens(t)[x := b]
  {
  }

  method ZeroCounts(blCount: array<nat>)
    modifies blCount
    ensures forall i :: 0 <= i < blCount.Length ==> blCount[i] == 0
  {
    for b := 0 to blCount.Length
      invariant forall i :: 0 <= i < b ==> blCount[i] == 0
    {
      blCount[b] := 0;
    }
  }

  /** Body of the first loop: the length of one node and, for a leaf, its contribution to the sizes. */
  method VisitNode(tree: array<CtData>, blCount: array<nat>, d: TreeDesc, maxCode: nat, n: nat,
                   overflow0: nat, optLen0: nat, staticLen0: nat, ghost c: Context, ghost lens0: seq<nat>, ghost p: nat)
    returns (overflow: nat, optLen: nat, staticLen: nat, ghost lens: seq<nat>)
    requires p < 2 * |c.merges| && n == Son(c.merges, p)
    requires PassInv(c, d, tree[..], blCount[..], lens0, overflow0, optLen0, staticLen0, p)
    requires maxCode < d.elems && LeavesUpTo(c.leaves, maxCode)
    modifies tree, blCount
    ensures PassInv(c, d, tree[..], blCount[..], lens, overflow, optLen, staticLen, p + 1)
  {
    hide PassInv, Son, MergeAt, U32;
    ghost var now, bl := tree[..], blCount[..];
    overflow, optLen, staticLen, lens := overflow0, optLen0, staticLen0, lens0;
    PassInvReads(c, d, now, bl, lens, overflow, optLen, staticLen, p);
    var f := tree[n].dl;
    var bits := tree[f].dl + 1;
    PassInvStep(c, d, now, bl, lens, overflow, optLen, staticLen, p, n, f, Clamp(bits, d.maxLength));
    if bits > d.maxLength {
      bits := d.maxLength;
      overflow := overflow + 1;
    }
    tree[n] := tree[n].(dl := bits);
    assert tree[..] == now[n := now[n].(dl := bits)];
    if n > maxCode {
      return;
    }
    blCount[bits] := blCount[bits] + 1;
    assert blCount[..] == bl[bits := bl[bits] + 1];
    lens := lens[n := bits];
    var xbits := XBits(d, n);
    var freq := tree[n].fc;
    optLen := U32(optLen + freq * (bits + xbits));
    if d.fixed.Some? {
      staticLen := U32(staticLen + freq * (d.fixed.value[n] + xbits));
    }
  }

  /** First loop of gen_bitlen: a length for every node, cut off at the limit, and the sizes so far. */
  method FirstPass(tree: array<CtData>, heap: array<nat>, heapMax: nat, blCount: array<nat>, d: TreeDesc, maxCode: nat,
                   optLen0: nat, staticLen0: nat, ghost c: Context)
    returns (overflow: nat, optLen: nat, staticLen: nat, ghost lens: seq<nat>)
    requires ContextOk(c, d) && tree[..] == c.was && c.opt0 == optLen0 && c.stat0 == staticLen0
    requires optLen0 < TWO32 && staticLen0 < TWO32
    requires OrderOk(heap[..], heapMax, d.elems, c.merges)
    requires maxCode < d.elems && LeavesUpTo(c.leaves, maxCode)
    requires blCount.Length == MAX_BITS + 1 && heap != blCount
    modifies tree, blCount
    ensures PassInv(c, d, tree[..], blCount[..], lens, overflow, optLen, staticLen, 2 * |c.merges|)
  {
    hide PassInv, ContextOk, Son, MergeAt, OrderOk;
    ghost var order := heap[..];
    OrderRoot(order, heapMax, d, c);
    ZeroCounts(blCount);
    var root := heap[heapMax];
    lens := seq(d.elems, x => 0);
    PassInvStart(c, d, blCount[..], root);
    tree[root] := tree[root].(dl := 0);
    assert tree[..] == c.was[root := c.was[root].(dl := 0)];
    overflow, optLen, staticLen := 0, optLen0, staticLen0;
    for h := heapMax + 1 to heap.Length
      invariant heap[..] == order
      invariant PassInv(c, d, tree[..], blCount[..], lens, overflow, optLen, staticLen, h - heapMax - 1)
    {
      ghost var p := h - heapMax - 1;
      OrderSon(order, heapMax, d, c, p);
      assert heap[h] == order[heapMax + 1 + p];
      overflow, optLen, staticLen, lens :=
        VisitNode(tree, blCount, d, maxCode, heap[h], overflow, optLen, staticLen, c, lens, p);
    }
  }

  lemma {:induction false} OrderRoot(heap: seq<nat>, heapMax: nat, d: TreeDesc, c: Context)
    requires ContextOk(c, d) && OrderOk(heap, heapMax, d.elems, c.merges)
    ensures |c.merges| >= 1 && |heap| == heapMax + 1 + 2 * |c.merges|
    ensures heap[heapMax] == d.elems + |c.merges| - 1 < |c.was|
  {
  }

  lemma {:induction false} OrderSon(heap: seq<nat>, heapMax: nat, d: TreeDesc, c: Context, p: nat)
    requires OrderOk(heap, heapMax, d.elems, c.merges) && p < 2 * |c.merges|
    ensures heapMax + 1 + p < |heap| && heap[heapMax + 1 + p] == Son(c.merges, p)
  {
  }

  lemma {:induction false} PassInvStart(c: Context, d: TreeDesc, bl: seq<nat>, root: nat)
    requires ContextOk(c, d) && 0 <= c.opt0 < TWO32 && 0 <= c.stat0 < TWO32
    requires |bl| == MAX_BITS + 1 && forall i :: 0 <= i <= MAX_BITS ==> bl[i] == 0
    requires root == d.elems + |c.merges| - 1
    ensures PassInv(c, d, c.was[root := c.was[root].(dl := 0)], bl, seq(d.elems, x => 0), 0, c.opt0, c.stat0, 0)
  {
    var lens := seq(d.elems, x => 0);
    PassStart(c.was, c.leaves, d.elems, c.merges, d.maxLength);
    ZeroLens(lens, |lens|, Freqs(c.was), Extras(d), if d.fixed.Some? then d.fixed.value else lens);
    assert lens[..|lens|] == lens;
  }

  lemma {:induction false} ZeroLens(lens: seq<nat>, n: nat, freq: seq<nat>, extra: seq<nat>, fixed: seq<nat>)
    requires n <= |lens| <= |freq| && |lens| <= |extra| && |lens| <= |fixed|
    requires forall i :: 0 <= i < |lens| ==> lens[i] == 0
    ensures OwnPrice(freq, lens, extra, n) == 0 && FixedPrice(freq, lens, fixed, extra, n) == 0
    ensures forall b: nat {:trigger BlCount(lens[..n], b)} :: BlCount(lens[..n], b) == 0
  {
    if n > 0 {
      ZeroLens(lens, n - 1, freq, extra, fixed);
      forall b: nat
        ensures BlCount(lens[..n], b) == 0
      {
        assert lens[..n][..n - 1] == lens[..n - 1];
        assert BlCount(lens[..n - 1], b) == 0;
      }
    }
  }
}
