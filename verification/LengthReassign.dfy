/** The last loop of gen_bitlen: lengths are handed out again, scanning the nodes from the least frequent. */
module LengthReassign {
  import opened CanonicalCode
  import opened BitLengths
  import opened GenBitlen
  import opened LengthRepair

  /** Leaves visited again hold their final length. */
  ghost predicate Redone(done: seq<nat>, lens: seq<nat>, leaves: set<nat>, merges: seq<(nat, nat)>, p: nat) {
    && p <= 2 * |merges| && |done| == |lens|
    && forall x :: 0 <= x < |lens| ==> done[x] == if x in leaves && x !in Visited(merges, p) then lens[x] else 0
  }

  /** All codes longer than bits are handed out, n of length bits are not yet. */
  ghost predicate LevelCounts(bl: seq<nat>, done: seq<nat>, bits: nat, n: nat) {
    && |bl| == MAX_BITS + 1 && bl[0] == 0
    && (bits == 0 ==> n == 0)
    && forall b :: 1 <= b <= MAX_BITS ==>
         Count(done, b) == if b > bits then bl[b] else if b == bits then bl[b] - n else 0
  }

  ghost function TotalBelow(bl: seq<nat>, bits: nat): nat
    requires bits < |bl|
  {
    if bits == 0 then 0 else CountTotal(bl, bits - 1)
  }

  /** Only the lengths of leaves differ between the trees mid and now. */
  ghost predicate OnlyLeafLens(c: Context, mid: seq<CtData>, now: seq<CtData>) {
    && |now| == |mid| == |c.was|
    && (forall x :: 0 <= x < |now| ==> now[x].fc == c.was[x].fc)
    && (forall x :: 0 <= x < |now| && x !in c.leaves ==> now[x] == mid[x])
  }

  /** Of the nodes from p on in visiting order, leaves have at least this many bits, later ones no fewer than earlier
      ones. */
  ghost predicate Falling(lens: seq<nat>, elems: nat, merges: seq<(nat, nat)>, p: nat, bits: nat) {
    && |lens| == elems
    && (forall q :: p <= q < 2 * |merges| && Son(merges, q) < elems ==> lens[Son(merges, q)] >= bits)
    && (forall q, r :: p <= q <= r < 2 * |merges| && Son(merges, q) < elems && Son(merges, r) < elems ==>
          lens[Son(merges, q)] <= lens[Son(merges, r)])
  }

  ghost predicate RedoInv(c: Context, d: TreeDesc, mid: seq<CtData>, now: seq<CtData>, bl: seq<nat>,
                          lens: seq<nat>, done: seq<nat>, opt: nat, p: nat, bits: nat, n: nat)
  {
    && ContextOk(c, d) && p <= 2 * |c.merges| && bits <= d.maxLength
    && LeafLens(lens, now, c.leaves, d.elems, d.maxLength)
    && Redone(done, lens, c.leaves, c.merges, p)
    && LevelCounts(bl, done, bits, n)
    && LeavesBefore(c.merges, d.elems, p) == n + TotalBelow(bl, bits)
    && Falling(lens, d.elems, c.merges, p, bits)
    && OnlyLeafLens(c, mid, now)
    && opt == U32(c.opt0 + OwnTotal(d, Freqs(c.was), lens))
  }

  lemma {:induction false} RedoStart(c: Context, d: TreeDesc, now: seq<CtData>, bl: seq<nat>, lens: seq<nat>, opt: nat)
    requires ContextOk(c, d) && |bl| == MAX_BITS + 1 && bl[0] == 0
    requires LeafLens(lens, now, c.leaves, d.elems, d.maxLength)
    requires CountTotal(bl, d.maxLength) == LeavesBefore(c.merges, d.elems, 2 * |c.merges|)
    requires forall b :: d.maxLength < b <= MAX_BITS ==> bl[b] == 0
    requires |now| == |c.was| && forall x :: 0 <= x < |now| ==> now[x].fc == c.was[x].fc
    requires opt == U32(c.opt0 + OwnTotal(d, Freqs(c.was), lens))
    ensures RedoInv(c, d, now, now, bl, lens, seq(d.elems, x => 0), opt, 2 * |c.merges|, d.maxLength, bl[d.maxLength])
  {
    hide U32, OwnTotal;
    var done := seq(d.elems, x => 0);
    forall b: nat | 1 <= b <= MAX_BITS
      ensures Count(done, b) == 0
    {
      ZeroCount(done, b);
    }
    forall x | 0 <= x < d.elems && x in c.leaves
      ensures x in Visited(c.merges, 2 * |c.merges|)
    {
      LeavesVisited(c.leaves, d.elems, c.merges, x);
    }
  }

  lemma {:induction false} ZeroCount(lens: seq<nat>, b: nat)
    requires b > 0 && forall i :: 0 <= i < |lens| ==> lens[i] == 0
    ensures Count(lens, b) == 0
  {
    if lens != [] {
      ZeroCount(lens[..|lens| - 1], b);
    }
  }

  lemma {:induction false} RedoNextLevel(c: Context, d: TreeDesc, mid: seq<CtData>, now: seq<CtData>, bl: seq<nat>,
                                         lens: seq<nat>, done: seq<nat>, opt: nat, p: nat, bits: nat)
    requires RedoInv(c, d, mid, now, bl, lens, done, opt, p, bits, 0) && bits > 0
    ensures RedoInv(c, d, mid, now, bl, lens, done, opt, p, bits - 1, bl[bits - 1])
  {
    hide U32, OwnTotal, LeafLens, Redone, OnlyLeafLens, LeavesBefore, Son;
  }

  /** Unfinished levels leave leaves to visit. */
  lemma {:induction false} RedoMore(c: Context, d: TreeDesc, mid: seq<CtData>, now: seq<CtData>, bl: seq<nat>,
                                    lens: seq<nat>, done: seq<nat>, opt: nat, p: nat, bits: nat, n: nat)
    requires RedoInv(c, d, mid, now, bl, lens, done, opt, p, bits, n) && n > 0
    ensures 1 <= p <= 2 * |c.merges| && 1 <= bits <= d.maxLength && DescOk(d)
    ensures Son(c.merges, p - 1) < |now| && |lens| == |done| == d.elems && |now| == |c.was|
    ensures Son(c.merges, p - 1) < d.elems ==>
      var x := Son(c.merges, p - 1); x in c.leaves && now[x].dl == lens[x] >= 1 && done[x] == 0
  {
    hide Falling, U32, OwnTotal;
    NotYetVisited(c.leaves, d.elems, c.merges, p - 1);
    assert Visited(c.merges, p) == Visited(c.merges, p - 1) + {Son(c.merges, p - 1)};
  }

  lemma {:induction false} RedoSkip(c: Context, d: TreeDesc, mid: seq<CtData>, now: seq<CtData>, bl: seq<nat>,
                                    lens: seq<nat>, done: seq<nat>, opt: nat, p: nat, bits: nat, n: nat)
    requires RedoInv(c, d, mid, now, bl, lens, done, opt, p, bits, n) && p > 0
    requires Son(c.merges, p - 1) >= d.elems
    ensures RedoInv(c, d, mid, now, bl, lens, done, opt, p - 1, bits, n)
  {
    hide U32, OwnTotal, LevelCounts, OnlyLeafLens, Son;
    FallingSkip(lens, d.elems, c.merges, p, bits);
    assert Visited(c.merges, p) == Visited(c.merges, p - 1) + {Son(c.merges, p - 1)};
  }

  lemma {:induction false} RedoTake(c: Context, d: TreeDesc, mid: seq<CtData>, now: seq<CtData>, bl: seq<nat>,
                                    lens: seq<nat>, done: seq<nat>, opt: nat, p: nat, bits: nat, n: nat, x: nat)
    requires RedoInv(c, d, mid, now, bl, lens, done, opt, p, bits, n) && n > 0 && p > 0 && DescOk(d) && bits >= 1
    requires x == Son(c.merges, p - 1) < d.elems && |lens| == |done| == d.elems && x < |now|
    requires x in c.leaves && lens[x] >= 1 && done[x] == 0 && now[x].dl == lens[x]
    ensures RedoInv(c, d, mid, now[x := now[x].(dl := bits)], bl, lens[x := bits], done[x := bits],
                    U32(opt + (bits - lens[x]) * now[x].fc), p - 1, bits, n - 1)
  {
    hide U32, OwnTotal, Son, Visited, LevelCounts, Redone, LeafLens, LeavesBefore, CountTotal, ContextOk, OnlyLeafLens,
      Falling;
    RedoTakeOrder(c, d, p, x);
    RedoTakeTree(c, mid, now, x, bits);
    assert now[x].fc == Freqs(c.was)[x] by { OnlyLeafFreq(c, mid, now, x); }
    RedoTakeTotals(d, Freqs(c.was), lens, x, bits, c.opt0);
    RedoTakeCounts(bl, done, bits, n, x);
    RedoTakeLens(lens, done, now, c.leaves, c.merges, d, p, x, bits);
    FallingTake(c, d, lens, p, x, bits);
  }

  lemma {:induction false} FallingSkip(lens: seq<nat>, elems: nat, merges: seq<(nat, nat)>, p: nat, bits: nat)
    requires Falling(lens, elems, merges, p, bits) && 1 <= p <= 2 * |merges| && Son(merges, p - 1) >= elems
    ensures Falling(lens, elems, merges, p - 1, bits)
  {
    hide Son;
  }

  lemma {:induction false} FallingTake(c: Context, d: TreeDesc, lens: seq<nat>, p: nat, x: nat, bits: nat)
    requires ContextOk(c, d) && Falling(lens, d.elems, c.merges, p, bits) && 1 <= p <= 2 * |c.merges|
    requires x == Son(c.merges, p - 1) < d.elems && x < |lens|
    ensures Falling(lens[x := bits], d.elems, c.merges, p - 1, bits)
  {
    hide Son;
    forall q | p <= q < 2 * |c.merges|
      ensures Son(c.merges, q) != x
    {
      SonsDiffer(c.leaves, d.elems, c.merges, p - 1, q);
    }
  }

  lemma {:induction false} RedoTakeOrder(c: Context, d: TreeDesc, p: nat, x: nat)
    requires ContextOk(c, d) && 1 <= p <= 2 * |c.merges| && x == Son(c.merges, p - 1) < d.elems
    ensures Visited(c.merges, p) == Visited(c.merges, p - 1) + {x} && x !in Visited(c.merges, p - 1)
    ensures LeavesBefore(c.merges, d.elems, p) == LeavesBefore(c.merges, d.elems, p - 1) + 1
    ensures d.elems <= |c.was|
  {
    NotYetVisited(c.leaves, d.elems, c.merges, p - 1);
  }

  lemma {:induction false} RedoTakeTree(c: Context, mid: seq<CtData>, now: seq<CtData>, x: nat, bits: nat)
    requires OnlyLeafLens(c, mid, now) && x in c.leaves && x < |now|
    ensures OnlyLeafLens(c, mid, now[x := now[x].(dl := bits)])
  {
  }

  lemma {:induction false} OnlyLeafFreq(c: Context, mid: seq<CtData>, now: seq<CtData>, x: nat)
    requires OnlyLeafLens(c, mid, now) && x < |now|
    ensures |now| == |c.was| && now[x].fc == c.was[x].fc
  {
  }

  lemma {:induction false} RedoTakeTotals(d: TreeDesc, freq: seq<nat>, lens: seq<nat>, x: nat, b: nat, opt0: int)
    requires DescOk(d) && |lens| == d.elems <= |freq| && x < d.elems && lens[x] > 0 && b > 0
    ensures U32(opt0 + OwnTotal(d, freq, lens[x := b]))
         == U32(U32(opt0 + OwnTotal(d, freq, lens)) + (b - lens[x]) * freq[x])
  {
    hide U32, OwnPrice, Price;
    OwnPriceSet(freq, lens, Extras(d), x, b, d.elems);
    PriceChange(freq[x], b, lens[x], Extras(d)[x]);
    U32Add(opt0 + OwnTotal(d, freq, lens), (b - lens[x]) * freq[x]);
  }

  lemma {:induction false} PriceChange(f: nat, b: nat, l: nat, e: nat)
    ensures Price(f, b, e) - Price(f, l, e) == (b - l) * f
  {
  }

  lemma {:induction false} RedoTakeCounts(bl: seq<nat>, done: seq<nat>, bits: nat, n: nat, x: nat)
    requires LevelCounts(bl, done, bits, n) && n > 0 && x < |done| && done[x] == 0 && bits >= 1
    ensures LevelCounts(bl, done[x := bits], bits, n - 1)
  {
    var done' := done[x := bits];
    forall b | 1 <= b <= MAX_BITS
      ensures Count(done', b) == if b > bits then bl[b] else if b == bits then bl[b] - (n - 1) else 0
    {
      CountSet(done, x, bits, b);
    }
  }

  lemma {:induction false} RedoTakeLens(lens: seq<nat>, done: seq<nat>, now: seq<CtData>, leaves: set<nat>,
                                        merges: seq<(nat, nat)>, d: TreeDesc, p: nat, x: nat, bits: nat)
    requires 1 <= p <= 2 * |merges| && LeafLens(lens, now, leaves, d.elems, d.maxLength)
    requires Redone(done, lens, leaves, merges, p)
    requires Visited(merges, p) == Visited(merges, p - 1) + {x} && x !in Visited(merges, p - 1)
    requires x in leaves && x < d.elems && 1 <= bits <= d.maxLength
    ensures LeafLens(lens[x := bits], now[x := now[x].(dl := bits)], leaves, d.elems, d.maxLength)
    ensures Redone(done[x := bits], lens[x := bits], leaves, merges, p - 1)
  {
    hide Visited;
  }

  lemma {:induction false} NoLeafBefore(merges: seq<(nat, nat)>, elems: nat, p: nat, x: nat)
    requires p <= 2 * |merges| && LeavesBefore(merges, elems, p) == 0 && x in Visited(merges, p)
    ensures x >= elems
  {
    if x != Son(merges, p - 1) {
      NoLeafBefore(merges, elems, p - 1, x);
    }
  }

  /** Along the order of visits lengths never fall, so that they never rise with the frequency. */
  ghost predicate RankOrder(lens: seq<nat>, elems: nat, merges: seq<(nat, nat)>) {
    Falling(lens, elems, merges, 0, 0)
  }

  lemma {:induction false} RedoRank(c: Context, d: TreeDesc, mid: seq<CtData>, now: seq<CtData>, bl: seq<nat>,
                                    lens: seq<nat>, done: seq<nat>, opt: nat, p: nat)
    requires RedoInv(c, d, mid, now, bl, lens, done, opt, p, 0, 0)
    ensures RankOrder(lens, d.elems, c.merges)
  {
    hide Son, U32, OwnTotal, LeafLens, Redone, LevelCounts, OnlyLeafLens, LeavesBefore;
    forall q | 0 <= q < 2 * |c.merges| && Son(c.merges, q) < d.elems
      ensures q >= p
    {
      if q < p {
        SonVisited(c.merges, q, p);
        NoLeafBefore(c.merges, d.elems, p, Son(c.merges, q));
      }
    }
  }

  /** When all levels are done, bl_count again counts the lengths. */
  lemma {:induction false} RedoEnd(c: Context, d: TreeDesc, mid: seq<CtData>, now: seq<CtData>, bl: seq<nat>,
                                   lens: seq<nat>, done: seq<nat>, opt: nat, p: nat)
    requires RedoInv(c, d, mid, now, bl, lens, done, opt, p, 0, 0)
    ensures CountsOk(bl, lens)
  {
    forall x | 0 <= x < d.elems && x in c.leaves
      ensures x !in Visited(c.merges, p)
    {
      if x in Visited(c.merges, p) {
        NoLeafBefore(c.merges, d.elems, p, x);
      }
    }
    assert done == lens;
  }

  /** Hands out bl_count[bits] lengths for each number of bits, scanning the nodes in increasing frequency. */
  method ReassignLengths(tree: array<CtData>, heap: array<nat>, heapMax: nat, blCount: array<nat>, d: TreeDesc,
                         maxCode: nat, optLen0: nat, ghost c: Context, ghost lens0: seq<nat>)
    returns (optLen: nat, ghost lens: seq<nat>, ghost done: seq<nat>, ghost p: nat)
    requires |blCount[..]| == MAX_BITS + 1 && d.maxLength <= MAX_BITS
    requires RedoInv(c, d, tree[..], tree[..], blCount[..], lens0, seq(d.elems, x => 0), optLen0, 2 * |c.merges|,
                     d.maxLength, blCount[..][d.maxLength])
    requires OrderOk(heap[..], heapMax, d.elems, c.merges) && LeavesUpTo(c.leaves, maxCode) && maxCode < d.elems
    modifies tree
    ensures RedoInv(c, d, old(tree[..]), tree[..], blCount[..], lens, done, optLen, p, 0, 0)
  {
    hide RedoInv, OrderOk, Son, LeavesUpTo, U32;
    ghost var mid, order, bl := tree[..], heap[..], blCount[..];
    OrderLength(order, heapMax, d, c);
    optLen, lens, done, p := optLen0, lens0, seq(d.elems, x => 0), 2 * |c.merges|;
    var h := heap.Length;
    var bits := d.maxLength;
    while bits != 0
      invariant 0 <= bits <= d.maxLength && h == heapMax + 1 + p && p <= 2 * |c.merges|
      invariant heap[..] == order && blCount[..] == bl
      invariant RedoInv(c, d, mid, tree[..], bl, lens, done, optLen, p, bits, bl[bits])
    {
      var n := blCount[bits];
      while n != 0
        invariant 0 <= n && h == heapMax + 1 + p && p <= 2 * |c.merges|
        invariant heap[..] == order && blCount[..] == bl
        invariant RedoInv(c, d, mid, tree[..], bl, lens, done, optLen, p, bits, n)
        decreases p
      {
        ghost var now := tree[..];
        RedoMore(c, d, mid, now, bl, lens, done, optLen, p, bits, n);
        OrderSon(order, heapMax, d, c, p - 1);
        h := h - 1;
        p := p - 1;
        var m := heap[h];
        assert m == order[heapMax + 1 + p];
        if m > maxCode {
          NotALeaf(c.leaves, maxCode, m);
          RedoSkip(c, d, mid, now, bl, lens, done, optLen, p + 1, bits, n);
          continue;
        }
        RedoTake(c, d, mid, now, bl, lens, done, optLen, p + 1, bits, n, m);
        if tree[m].dl != bits {
          optLen := U32(optLen + (bits - tree[m].dl) * tree[m].fc);
          tree[m] := tree[m].(dl := bits);
        } else {
          RedoSame(c, d, mid, now, bl, lens, done, optLen, p + 1, bits, n, m);
        }
        assert tree[..] == now[m := now[m].(dl := bits)];
        lens, done := lens[m := bits], done[m := bits];
        n := n - 1;
      }
      RedoNextLevel(c, d, mid, tree[..], bl, lens, done, optLen, p, bits);
      bits := bits - 1;
    }
    RedoLevelZero(c, d, mid, tree[..], bl, lens, done, optLen, p);
  }

  lemma {:induction false} NotALeaf(leaves: set<nat>, maxCode: nat, m: nat)
    requires LeavesUpTo(leaves, maxCode) && m > maxCode
    ensures m !in leaves
  {
  }

  lemma {:induction false} OrderLength(heap: seq<nat>, heapMax: nat, d: TreeDesc, c: Context)
    requires OrderOk(heap, heapMax, d.elems, c.merges)
    ensures |heap| == heapMax + 1 + 2 * |c.merges|
  {
  }

  /** A leaf whose length does not change costs nothing. */
  lemma {:induction false} RedoSame(c: Context, d: TreeDesc, mid: seq<CtData>, now: seq<CtData>, bl: seq<nat>,
                                    lens: seq<nat>, done: seq<nat>, opt: nat, p: nat, bits: nat, n: nat, x: nat)
    requires RedoInv(c, d, mid, now, bl, lens, done, opt, p, bits, n) && x < |lens| && x < |now| && lens[x] == bits
    ensures U32(opt + (bits - lens[x]) * now[x].fc) == opt
  {
    hide OwnTotal, LeafLens, Redone, LevelCounts, LeavesBefore, OnlyLeafLens;
    assert (bits - lens[x]) * now[x].fc == 0;
  }

  lemma {:induction false} RedoLevelZero(c: Context, d: TreeDesc, mid: seq<CtData>, now: seq<CtData>, bl: seq<nat>,
                                         lens: seq<nat>, done: seq<nat>, opt: nat, p: nat)
    requires |bl| == MAX_BITS + 1 && RedoInv(c, d, mid, now, bl, lens, done, opt, p, 0, bl[0])
    ensures RedoInv(c, d, mid, now, bl, lens, done, opt, p, 0, 0)
  {
    hide OwnTotal, LeafLens, Redone, LeavesBefore, OnlyLeafLens, U32;
  }
}
