/** build_tree: from frequencies to code lengths and codes. */
module TreeBuilder {
  import opened Bits
  import opened CanonicalCode
  import opened HuffmanTree
  import opened BitLengths
  import opened GenBitlen
  import opened LengthRepair
  import opened LengthReassign

  // --- gen_bitlen as a whole ---

  /** What gen_bitlen promises: within the limit, complete, counted and priced exactly. */
  ghost predicate LengthsSet(c: Context, d: TreeDesc, now: seq<CtData>, bl: seq<nat>, lens: seq<nat>, opt: nat,
                             stat: nat) {
    && ContextOk(c, d)
    && LeafLens(lens, now, c.leaves, d.elems, d.maxLength)
    && CountsOk(bl, lens) && KraftSum(lens, d.maxLength) == Pow2(d.maxLength)
    && opt == U32(c.opt0 + OwnTotal(d, Freqs(c.was), lens))
    && stat == U32(c.stat0 + FixedTotal(d, Freqs(c.was), lens))
    && KeptOutsideTree(c, d, now)
  }

  /** Frequencies are kept, and unused symbols entirely. */
  ghost predicate KeptOutsideTree(c: Context, d: TreeDesc, now: seq<CtData>) {
    && |now| == |c.was|
    && (forall x :: 0 <= x < |now| ==> now[x].fc == c.was[x].fc)
    && (forall x :: 0 <= x < |now| && x < d.elems && x !in c.leaves ==> now[x] == c.was[x])
  }

  /** Nothing overflowed: the lengths are those of the tree. */
  ghost predicate Unclamped(c: Context, d: TreeDesc, now: seq<CtData>) {
    && d.elems + |c.merges| <= |now|
    && ClampedLens(Lens(now), d.elems, c.merges, d.maxLength)
    && AtLimit(Lens(now), d.elems, |c.merges|, 0, d.maxLength) == 0
  }

  /** The tree is too deep: some inner node sits at the limit, so that its sons had to be cut off. */
  ghost predicate TooDeep(len: seq<nat>, elems: nat, merges: seq<(nat, nat)>, limit: nat) {
    elems + |merges| <= |len| && ClampedLens(len, elems, merges, limit) && AtLimit(len, elems, |merges|, 0, limit) > 0
  }

  ghost predicate Overflowed(c: Context, d: TreeDesc) {
    exists len :: |len| == |c.was| && TooDeep(len, d.elems, c.merges, d.maxLength)
  }

  /** The parts of the first pass's result. */
  lemma {:induction false} PassParts(c: Context, d: TreeDesc, now: seq<CtData>, bl: seq<nat>, lens: seq<nat>,
                                     overflow: nat, opt: nat, stat: nat)
    requires PassInv(c, d, now, bl, lens, overflow, opt, stat, 2 * |c.merges|)
    ensures ContextOk(c, d) && CountsOk(bl, lens) && d.elems + |c.merges| <= |now| && 1 <= d.maxLength <= MAX_BITS
    ensures LeafLens(lens, now, c.leaves, d.elems, d.maxLength)
    ensures ClampedLens(Lens(now), d.elems, c.merges, d.maxLength)
    ensures overflow == 2 * AtLimit(Lens(now), d.elems, |c.merges|, 0, d.maxLength)
    ensures opt == U32(c.opt0 + OwnTotal(d, Freqs(c.was), lens))
    ensures stat == U32(c.stat0 + FixedTotal(d, Freqs(c.was), lens))
  {
    hide U32, OwnTotal, FixedTotal, AtLimit, ClampedLens, FathersSet, CountsOk;
    PassEnd(c.was, now, lens, c.leaves, d.elems, c.merges, d.maxLength);
  }

  /** Their Kraft sum and counts. */
  lemma {:induction false} PassCounts(c: Context, d: TreeDesc, now: seq<CtData>, bl: seq<nat>, lens: seq<nat>)
    requires ContextOk(c, d) && CountsOk(bl, lens)
    requires LeafLens(lens, now, c.leaves, d.elems, d.maxLength)
    requires d.elems + |c.merges| <= |now| && ClampedLens(Lens(now), d.elems, c.merges, d.maxLength)
    ensures var inner := AtLimit(Lens(now), d.elems, |c.merges|, 0, d.maxLength);
      && KraftSum(lens, d.maxLength) == CountKraft(bl, d.maxLength) == Pow2(d.maxLength) + inner
      && (inner > 0 ==> bl[d.maxLength] > inner)
    ensures CountTotal(bl, d.maxLength) == LeavesBefore(c.merges, d.elems, 2 * |c.merges|) <= Pow2(d.maxLength)
    ensures EmptyAbove(bl, d.maxLength)
  {
    hide AtLimit, ClampedLens, FathersSet, Complete, KraftSum, CountTotal, LeavesBefore;
    OverflowKraft(now, lens, c.leaves, d.elems, c.merges, d.maxLength);
    CountKraftIs(bl, lens, d.maxLength);
    TotalIsLeaves(bl, lens, now, c.leaves, d.elems, c.merges, d.maxLength);
    forall b | d.maxLength < b <= MAX_BITS
      ensures bl[b] == 0
    {
      NoLonger(lens, d.maxLength, b);
    }
  }

  ghost predicate EmptyAbove(bl: seq<nat>, limit: nat) {
    |bl| == MAX_BITS + 1 && bl[0] == 0 && forall b :: limit < b <= MAX_BITS ==> bl[b] == 0
  }

  lemma {:induction false} AfterFirstPass(c: Context, d: TreeDesc, now: seq<CtData>, bl: seq<nat>, lens: seq<nat>,
                                          overflow: nat, opt: nat, stat: nat)
    requires PassInv(c, d, now, bl, lens, overflow, opt, stat, 2 * |c.merges|)
    ensures |bl| == MAX_BITS + 1 && 1 <= d.maxLength <= MAX_BITS && EmptyAbove(bl, d.maxLength)
    ensures overflow == 0 ==> LengthsSet(c, d, now, bl, lens, opt, stat) && Unclamped(c, d, now)
    ensures overflow > 0 ==> RepairInv(bl, bl, d.maxLength, overflow) && Overflowed(c, d)
    ensures CountTotal(bl, d.maxLength) == LeavesBefore(c.merges, d.elems, 2 * |c.merges|)
  {
    hide PassInv, U32, OwnTotal, FixedTotal, AtLimit, ClampedLens, ContextOk, LeafLens, KraftSum, CountTotal,
      LeavesBefore, CountKraft, Pow2, KeptOutsideTree, Lens;
    PassKeeps(c, d, now, bl, lens, overflow, opt, stat);
    PassParts(c, d, now, bl, lens, overflow, opt, stat);
    PassCounts(c, d, now, bl, lens);
    PassSize(c, d, now, bl, lens, overflow, opt, stat);
    assert overflow > 0 ==> TooDeep(Lens(now), d.elems, c.merges, d.maxLength);
  }

  lemma {:induction false} PassSize(c: Context, d: TreeDesc, now: seq<CtData>, bl: seq<nat>, lens: seq<nat>,
                                    overflow: nat, opt: nat, stat: nat)
    requires PassInv(c, d, now, bl, lens, overflow, opt, stat, 2 * |c.merges|)
    ensures |Lens(now)| == |now| == |c.was|
  {
  }

  lemma {:induction false} NoLonger(lens: seq<nat>, limit: nat, b: nat)
    requires BoundedLens(lens, limit) && b > limit
    ensures Count(lens, b) == 0
  {
    if lens != [] {
      NoLonger(lens[..|lens| - 1], limit, b);
    }
  }

  lemma {:induction false} PassKeeps(c: Context, d: TreeDesc, now: seq<CtData>, bl: seq<nat>, lens: seq<nat>,
                                     overflow: nat, opt: nat, stat: nat)
    requires PassInv(c, d, now, bl, lens, overflow, opt, stat, 2 * |c.merges|)
    ensures KeptOutsideTree(c, d, now)
  {
    forall x | 0 <= x < |now| && x < d.elems && x !in c.leaves
      ensures x !in Visited(c.merges, 2 * |c.merges|)
    {
      if x in Visited(c.merges, 2 * |c.merges|) {
        var q := VisitedAt(c.merges, 2 * |c.merges|, x);
        NotYetVisited(c.leaves, d.elems, c.merges, q);
      }
    }
  }

  lemma {:induction false} FixedPriceAgree(freq: seq<nat>, a: seq<nat>, b: seq<nat>, fixed: seq<nat>, extra: seq<nat>,
                                           n: nat)
    requires n <= |freq| && n <= |a| && n <= |b| && n <= |extra| && n <= |fixed|
    requires forall i :: 0 <= i < n ==> (a[i] > 0 <==> b[i] > 0)
    ensures FixedPrice(freq, a, fixed, extra, n) == FixedPrice(freq, b, fixed, extra, n)
  {
    if n > 0 {
      FixedPriceAgree(freq, a, b, fixed, extra, n - 1);
    }
  }

  /** What the second loop needs from the first pass and the repaired counts. */
  lemma {:induction false} BeforeReassign(c: Context, d: TreeDesc, now: seq<CtData>, bl0: seq<nat>, bl: seq<nat>,
                                          lens: seq<nat>, overflow: nat, opt: nat, stat: nat)
    requires PassInv(c, d, now, bl0, lens, overflow, opt, stat, 2 * |c.merges|)
    requires 1 <= d.maxLength <= MAX_BITS && EmptyAbove(bl0, d.maxLength) && RepairInv(bl0, bl, d.maxLength, 0)
    ensures RedoInv(c, d, now, now, bl, lens, seq(d.elems, x => 0), opt, 2 * |c.merges|, d.maxLength, bl[d.maxLength])
  {
    hide PassInv, U32, OwnTotal, FixedTotal, AtLimit, ClampedLens, ContextOk, LeafLens, KraftSum, CountTotal,
      LeavesBefore, CountKraft, Pow2, RedoInv;
    PassKeeps(c, d, now, bl0, lens, overflow, opt, stat);
    PassParts(c, d, now, bl0, lens, overflow, opt, stat);
    PassCounts(c, d, now, bl0, lens);
    RedoStart(c, d, now, bl, lens, opt);
  }

  lemma {:induction false} AfterReassign(c: Context, d: TreeDesc, mid: seq<CtData>, now: seq<CtData>, bl0: seq<nat>,
                                         bl: seq<nat>, lens0: seq<nat>, lens: seq<nat>, done: seq<nat>,
                                         overflow: nat, opt0: nat, opt: nat, stat: nat, p: nat)
    requires PassInv(c, d, mid, bl0, lens0, overflow, opt0, stat, 2 * |c.merges|)
    requires RepairInv(bl0, bl, d.maxLength, 0)
    requires RedoInv(c, d, mid, now, bl, lens, done, opt, p, 0, 0)
    ensures LengthsSet(c, d, now, bl, lens, opt, stat) && RankOrder(lens, d.elems, c.merges)
  {
    hide PassInv, U32, OwnTotal, FixedTotal, AtLimit, ClampedLens, ContextOk, LeafLens, KraftSum, CountTotal,
      LeavesBefore, CountKraft, Pow2, OnlyLeafLens, KeptOutsideTree, Redone, LevelCounts, Falling;
    RedoRank(c, d, mid, now, bl, lens, done, opt, p);
    PassParts(c, d, mid, bl0, lens0, overflow, opt0, stat);
    RedoEnd(c, d, mid, now, bl, lens, done, opt, p);
    CountKraftIs(bl, lens, d.maxLength);
    SameFixedTotal(c, d, mid, now, lens0, lens);
    PassKeeps(c, d, mid, bl0, lens0, overflow, opt0, stat);
    StillKept(c, d, mid, now);
  }

  lemma {:induction false} StillKept(c: Context, d: TreeDesc, mid: seq<CtData>, now: seq<CtData>)
    requires KeptOutsideTree(c, d, mid) && OnlyLeafLens(c, mid, now)
    ensures KeptOutsideTree(c, d, now)
  {
  }

  lemma {:induction false} SameFixedTotal(c: Context, d: TreeDesc, mid: seq<CtData>, now: seq<CtData>, lens0: seq<nat>,
                                          lens: seq<nat>)
    requires ContextOk(c, d)
    requires LeafLens(lens0, mid, c.leaves, d.elems, d.maxLength) && LeafLens(lens, now, c.leaves, d.elems, d.maxLength)
    ensures d.elems <= |Freqs(c.was)| && FixedTotal(d, Freqs(c.was), lens) == FixedTotal(d, Freqs(c.was), lens0)
  {
    if d.fixed.Some? {
      FixedPriceAgree(Freqs(c.was), lens, lens0, d.fixed.value, Extras(d), d.elems);
    }
  }

  /** gen_bitlen. */
  method GenerateLengths(tree: array<CtData>, heap: array<nat>, heapMax: nat, blCount: array<nat>, d: TreeDesc,
                         maxCode: nat, optLen0: nat, staticLen0: nat, ghost c: Context)
    returns (optLen: nat, staticLen: nat, ghost lens: seq<nat>)
    requires ContextOk(c, d) && tree[..] == c.was && c.opt0 == optLen0 && c.stat0 == staticLen0
    requires optLen0 < TWO32 && staticLen0 < TWO32
    requires OrderOk(heap[..], heapMax, d.elems, c.merges)
    requires maxCode < d.elems && LeavesUpTo(c.leaves, maxCode)
    requires blCount.Length == MAX_BITS + 1 && heap != blCount
    modifies tree, blCount
    ensures LengthsSet(c, d, tree[..], blCount[..], lens, optLen, staticLen)
    ensures Unclamped(c, d, tree[..]) || (Overflowed(c, d) && RankOrder(lens, d.elems, c.merges))
  {
    hide ContextOk, OrderOk, LeavesUpTo, PassInv, LengthsSet, Unclamped, Overflowed, RepairInv, RedoInv, EmptyAbove,
      Pow2, RankOrder;
    ghost var order := heap[..];
    var over;
    over, optLen, staticLen, lens := FirstPass(tree, heap, heapMax, blCount, d, maxCode, optLen0, staticLen0, c);
    ghost var mid, bl0 := tree[..], blCount[..];
    AfterFirstPass(c, d, mid, bl0, lens, over, optLen, staticLen);
    if over == 0 {
      return;
    }
    RepairOverflow(blCount, d.maxLength, over);
    ghost var bl := blCount[..];
    BeforeReassign(c, d, mid, bl0, bl, lens, over, optLen, staticLen);
    ghost var opt0, lens0 := optLen, lens;
    ghost var done, p;
    assert heap[..] == order;
    optLen, lens, done, p := ReassignLengths(tree, heap, heapMax, blCount, d, maxCode, optLen, c, lens);
    assert blCount[..] == bl;
    AfterReassign(c, d, mid, tree[..], bl0, bl, lens0, lens, done, over, opt0, optLen, staticLen, p);
  }
}
