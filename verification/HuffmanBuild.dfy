/** build_tree as a whole. */
module HuffmanBuild {
  import opened Bits
  import opened CanonicalCode
  import opened HuffmanHeap
  import opened HuffmanTree
  import opened HuffmanOptimal
  import opened HuffmanHeight
  import opened BitLengths
  import opened GenBitlen
  import opened LengthReassign
  import opened LengthRank
  import opened TreeBuilder
  import opened TreeMerge
  import opened TreeInit

  // --- From the filled array to the first merge ---

  /** Sum of the frequencies of the first n symbols. */
  ghost function FreqTotal(t: seq<CtData>, n: nat): nat
    requires n <= |t|
  {
    if n == 0 then 0 else FreqTotal(t, n - 1) + t[n - 1].fc
  }

  lemma {:induction false} FreqTotalIsSum(t: seq<CtData>, t': seq<CtData>, elems: nat, n: nat)
    requires n <= elems <= |t| == |t'| && forall x :: 0 <= x < |t| ==> t'[x].fc == t[x].fc
    ensures SumIn(Used(t, elems), Freqs(t'), n) == FreqTotal(t, n)
  {
    if n > 0 {
      FreqTotalIsSum(t, t', elems, n - 1);
    }
  }

  lemma {:induction false} FreqTotalSet(t: seq<CtData>, x: nat, n: nat)
    requires n <= |t| && x < |t| && t[x].fc == 0
    ensures FreqTotal(t[x := t[x].(fc := 1)], n) <= FreqTotal(t, n) + 1
  {
    if n > 0 {
      if x == n - 1 {
        FreqTotalAgree(t, t[x := t[x].(fc := 1)], n - 1);
      } else {
        FreqTotalSet(t, x, n - 1);
      }
    }
  }

  lemma {:induction false} FreqTotalAgree(t: seq<CtData>, t': seq<CtData>, n: nat)
    requires n <= |t| && n <= |t'| && forall i :: 0 <= i < n ==> t'[i].fc == t[i].fc
    ensures FreqTotal(t', n) == FreqTotal(t, n)
  {
    if n > 0 {
      FreqTotalAgree(t, t', n - 1);
    }
  }

  lemma {:induction false} ForceTotal(t0: seq<CtData>, fs: seq<nat>, n: nat)
    requires n <= |t0| && (forall i :: 0 <= i < |fs| ==> fs[i] < |t0| && t0[fs[i]].fc == 0)
    requires forall i, j :: 0 <= i < j < |fs| ==> fs[i] != fs[j]
    ensures FreqTotal(Force(t0, fs), n) <= FreqTotal(t0, n) + |fs|
  {
    if fs != [] {
      var gs, x := fs[..|fs| - 1], fs[|fs| - 1];
      ForceTotal(t0, gs, n);
      ForceFreq(t0, gs, x);
      FreqTotalSet(Force(t0, gs), x, n);
    }
  }

  lemma {:induction false} FilledInHeap(t1: seq<CtData>, t: seq<CtData>, depth: seq<nat>, h: seq<nat>, len: nat,
                                        maxCode: int, elems: nat)
    requires Filled(t1, t, h, len, maxCode, elems) && |depth| >= |t|
    ensures InHeap(h, len, t, depth)
  {
    forall i | 1 <= i <= len
      ensures h[i] < |t|
    {
      LiveNodes(h, len, Used(t1, elems), i);
    }
  }

  lemma {:induction false} SmallUse(leaves: set<nat>, fs: seq<nat>, len: nat)
    requires |leaves| == len && (fs != [] ==> len <= 2)
    requires (forall i :: 0 <= i < |fs| ==> fs[i] in leaves) && forall i, j :: 0 <= i < j < |fs| ==> fs[i] != fs[j]
    ensures |fs| <= 2
  {
    if |fs| > 2 {
      assert {fs[0], fs[1], fs[2]} <= leaves;
      SubsetCard({fs[0], fs[1], fs[2]}, leaves);
    }
  }

  /** The job given to the merge loop. */
  ghost function StartJob(t: seq<CtData>, leaves: set<nat>, elems: nat): Job {
    Job(t, leaves, elems, if SumIn(leaves, Freqs(t), |t|) < 0 then 0 else SumIn(leaves, Freqs(t), |t|))
  }

  lemma {:induction false} StartTotal(d: TreeDesc, t0: seq<CtData>, fs: seq<nat>, t: seq<CtData>, h: seq<nat>, len: nat,
                                      maxCode: int, opt0: int, stat0: int, opt: nat, stat: nat)
    requires ForceInv(d, t0, fs, t, h, len, maxCode, opt0, stat0, opt, stat) && len >= 2
    requires FreqTotal(t0, d.elems) + 2 < TWO16
    ensures var leaves := Used(Force(t0, fs), d.elems);
      SumIn(leaves, Freqs(t), |t|) == StartJob(t, leaves, d.elems).total < TWO16
  {
    hide U32, FixedSum, Nodes;
    var t1 := Force(t0, fs);
    var leaves := Used(t1, d.elems);
    forall i | 0 <= i < |fs|
      ensures fs[i] in leaves
    {
      ForceFreq(t0, fs, fs[i]);
    }
    SmallUse(leaves, fs, len);
    ForceTotal(t0, fs, d.elems);
    FreqTotalIsSum(t1, t, d.elems, d.elems);
    SumBeyond(leaves, Freqs(t), d.elems, |t|);
  }

  lemma {:induction false} StartMerge(d: TreeDesc, t1: seq<CtData>, t: seq<CtData>, depth: seq<nat>, h: seq<nat>,
                                      h': seq<nat>, len: nat, maxCode: int)
    requires Filled(t1, t, h, len, maxCode, d.elems) && len >= 2 && |h'| == |h| >= 2 * d.elems + 1
    requires |t| >= 2 * d.elems && |depth| >= |t|
    requires InHeap(h', len, t, depth) && HeapFrom(h', len, 1, t, depth) && Nodes(h', len) == Nodes(h, len)
    requires SumIn(Used(t1, d.elems), Freqs(t), |t|) >= 0 && Flat(t1, depth, d.elems)
    ensures MergeInv(StartJob(t, Used(t1, d.elems), d.elems), t, depth, h', len, [])
  {
    hide SumIn, InHeap, HeapFrom, Nodes;
  }

  // --- From the last merge to the lengths ---

  lemma {:induction false} MergeDone(job: Job, t: seq<CtData>, depth: seq<nat>, h: seq<nat>, merges: seq<(nat, nat)>)
    requires MergeInv(job, t, depth, h, 1, merges) && |merges| >= 1
    ensures Complete(job.leaves, job.elems, merges) && 2 * |merges| < |h|
    ensures h[1] == job.elems + |merges| - 1
    ensures OutOk(h, merges) && DadsOk(t, job.elems, merges)
  {
    hide OutOk, DadsOk, Greedy, LowFirst, LeavesKept, SumIn;
    LiveNodes(h, 1, Live(job, merges), 1);
    OnlyRoot(job.leaves, job.elems, merges);
  }

  lemma {:induction false} OrderDone(h: seq<nat>, h': seq<nat>, elems: nat, merges: seq<(nat, nat)>)
    requires OutOk(h, merges) && |merges| >= 1 && 2 * |merges| < |h|
    requires h' == h[|h| - 2 * |merges| - 1 := elems + |merges| - 1]
    ensures OrderOk(h', |h| - 2 * |merges| - 1, elems, merges)
  {
    var top := |h| - 2 * |merges| - 1;
    forall p | 0 <= p < 2 * |merges|
      ensures h'[top + 1 + p] == Son(merges, p)
    {
      var j := MergeAt(|merges|, p);
      assert h[|h| - 1 - 2 * j] == merges[j].0 && h[|h| - 2 - 2 * j] == merges[j].1;
      if p % 2 == 0 {
        assert top + 1 + p == |h| - 2 - 2 * j;
      } else {
        assert top + 1 + p == |h| - 1 - 2 * j;
      }
    }
  }

  lemma {:induction false} FathersDone(t: seq<CtData>, elems: nat, merges: seq<(nat, nat)>)
    requires DadsOk(t, elems, merges) && |t| >= elems + |merges|
    ensures FathersSet(t, elems, merges)
  {
    forall p | 0 <= p < 2 * |merges|
      ensures Son(merges, p) < |t| && t[Son(merges, p)].dl == elems + MergeAt(|merges|, p)
    {
      assert DadOk(t, elems, merges, MergeAt(|merges|, p));
    }
  }

  /** Everything gen_bitlen asks for. */
  lemma {:induction false} ReadyForLengths(d: TreeDesc, job: Job, t: seq<CtData>, depth: seq<nat>, h: seq<nat>,
                                           merges: seq<(nat, nat)>, opt: nat, stat: nat)
    requires DescOk(d) && job.elems == d.elems
    requires MergeInv(job, t, depth, h, 1, merges) && |merges| >= 1
    ensures 2 * |merges| < |h| && h[1] == d.elems + |merges| - 1
    ensures ContextOk(Context(t, job.leaves, merges, opt, stat), d)
    ensures OrderOk(h[|h| - 2 * |merges| - 1 := h[1]], |h| - 2 * |merges| - 1, d.elems, merges)
  {
    hide MergeInv, Complete, OutOk, DadsOk, OrderOk, FathersSet;
    MergeDone(job, t, depth, h, merges);
    RegionsApart(job, t, depth, h, 1, merges);
    FathersDone(t, d.elems, merges);
    OrderDone(h, h[|h| - 2 * |merges| - 1 := h[1]], d.elems, merges);
  }

  /** The merge loop: a complete tree, its nodes listed above heap_max. */
  method MergeAll(heap: array<nat>, heapLen0: nat, tree: array<CtData>, depth: array<nat>, d: TreeDesc,
                  ghost job: Job, ghost opt: nat, ghost stat: nat)
    returns (heapMax: nat, ghost merges: seq<(nat, nat)>)
    requires heap != depth && heapLen0 >= 2 && job.total < TWO16 && DescOk(d) && job.elems == d.elems
    requires MergeInv(job, tree[..], depth[..], heap[..], heapLen0, [])
    modifies heap, tree, depth
    ensures |merges| >= 1 && ContextOk(Context(tree[..], job.leaves, merges, opt, stat), d)
    ensures OrderOk(heap[..], heapMax, d.elems, merges)
    ensures Merged(job, tree[..], merges)
  {
    hide MergeInv, ContextOk, OrderOk, DescOk, Merged;
    var heapLen := heapLen0;
    heapMax := heap.Length;
    var node := d.elems;
    merges := [];
    while true
      invariant heapLen >= 2 && heapMax == heap.Length - 2 * |merges| && node == d.elems + |merges|
      invariant MergeInv(job, tree[..], depth[..], heap[..], heapLen, merges)
      decreases heapLen
    {
      RegionsApart(job, tree[..], depth[..], heap[..], heapLen, merges);
      ghost var n, m := MergeTwo(heap, heapLen, heapMax, tree, depth, node, job, merges);
      merges := merges + [(n, m)];
      heapLen, heapMax, node := heapLen - 1, heapMax - 2, node + 1;
      if heapLen < 2 {
        break;
      }
    }
    ReadyForLengths(d, job, tree[..], depth[..], heap[..], merges, opt, stat);
    MergedFacts(job, tree[..], depth[..], heap[..], merges);
    ghost var h := heap[..];
    heapMax := heapMax - 1;
    heap[heapMax] := heap[1];
    assert heap[..] == h[heapMax := h[1]];
  }

  /** The tree came about by greedy merging, lower trees first; the symbols themselves are as they were. */
  ghost predicate Merged(job: Job, t: seq<CtData>, merges: seq<(nat, nat)>) {
    && Greedy(job.leaves, job.elems, merges, Freqs(t)) && Lowest(job.leaves, job.elems, merges, Freqs(t))
    && LeavesKept(job, t)
  }

  lemma {:induction false} MergedFacts(job: Job, t: seq<CtData>, depth: seq<nat>, h: seq<nat>, merges: seq<(nat, nat)>)
    requires MergeInv(job, t, depth, h, 1, merges)
    ensures Merged(job, t, merges)
  {
  }

  // --- Sizes in terms of the real frequencies ---

  lemma {:induction false} OwnPriceForce(freq: seq<nat>, x: nat, lens: seq<nat>, extra: seq<nat>, n: nat)
    requires n <= |freq| && n <= |lens| && n <= |extra| && x < |freq| && freq[x] == 0
    ensures OwnPrice(freq[x := 1], lens, extra, n)
         == OwnPrice(freq, lens, extra, n) + if x < n && lens[x] > 0 then lens[x] + extra[x] else 0
  {
    if n > 0 {
      OwnPriceForce(freq, x, lens, extra, n - 1);
    }
  }

  lemma {:induction false} FixedPriceForce(freq: seq<nat>, x: nat, lens: seq<nat>, fixed: seq<nat>, extra: seq<nat>,
                                           n: nat)
    requires n <= |freq| && n <= |lens| && n <= |extra| && n <= |fixed| && x < |freq| && freq[x] == 0
    ensures FixedPrice(freq[x := 1], lens, fixed, extra, n)
         == FixedPrice(freq, lens, fixed, extra, n) + if x < n && lens[x] > 0 then fixed[x] + extra[x] else 0
  {
    if n > 0 {
      FixedPriceForce(freq, x, lens, fixed, extra, n - 1);
    }
  }

  ghost predicate OneBitEach(lens: seq<nat>, fs: seq<nat>) {
    forall i :: 0 <= i < |fs| ==> fs[i] < |lens| && lens[fs[i]] == 1
  }

  lemma {:induction false} ForcedTotals(d: TreeDesc, t0: seq<CtData>, fs: seq<nat>, lens: seq<nat>)
    requires ForcedOk(d, t0, fs) && |lens| == d.elems && OneBitEach(lens, fs)
    ensures OwnTotal(d, Freqs(Force(t0, fs)), lens) == OwnTotal(d, Freqs(t0), lens) + |fs|
    ensures FixedTotal(d, Freqs(Force(t0, fs)), lens) == FixedTotal(d, Freqs(t0), lens) + FixedSum(d, fs)
  {
    hide OwnTotal, FixedTotal;
    if fs != [] {
      var gs, x := fs[..|fs| - 1], fs[|fs| - 1];
      assert fs == gs + [x];
      assert forall i :: 0 <= i < |gs| ==> gs[i] == fs[i];
      ForcedTotals(d, t0, gs, lens);
      ForceFreq(t0, gs, x);
      ForceOneTotals(d, Force(t0, gs), x, lens);
      FixedSumOne(d, gs, x);
    }
  }

  lemma {:induction false} ForceOneTotals(d: TreeDesc, t: seq<CtData>, x: nat, lens: seq<nat>)
    requires DescOk(d) && |lens| == d.elems <= |t| && x < 3 && t[x].fc == 0 && lens[x] == 1
    ensures var t' := t[x := t[x].(fc := 1)];
      && OwnTotal(d, Freqs(t'), lens) == OwnTotal(d, Freqs(t), lens) + 1
      && FixedTotal(d, Freqs(t'), lens) == FixedTotal(d, Freqs(t), lens) + if d.fixed.Some? then d.fixed.value[x] else 0
  {
    hide OwnPrice, FixedPrice;
    var freq := Freqs(t);
    assert Freqs(t[x := t[x].(fc := 1)]) == freq[x := 1];
    OwnPriceForce(freq, x, lens, Extras(d), d.elems);
    if d.fixed.Some? {
      FixedPriceForce(freq, x, lens, d.fixed.value, Extras(d), d.elems);
    }
  }

  lemma {:induction false} OwnPriceAgree(a: seq<nat>, b: seq<nat>, lens: seq<nat>, extra: seq<nat>, n: nat)
    requires n <= |a| && n <= |b| && n <= |lens| && n <= |extra| && forall i :: 0 <= i < n ==> a[i] == b[i]
    ensures OwnPrice(a, lens, extra, n) == OwnPrice(b, lens, extra, n)
  {
    if n > 0 {
      OwnPriceAgree(a, b, lens, extra, n - 1);
    }
  }

  lemma {:induction false} FixedPriceFreqAgree(a: seq<nat>, b: seq<nat>, lens: seq<nat>, fixed: seq<nat>,
                                               extra: seq<nat>, n: nat)
    requires n <= |a| && n <= |b| && n <= |lens| && n <= |extra| && n <= |fixed|
    requires forall i :: 0 <= i < n ==> a[i] == b[i]
    ensures FixedPrice(a, lens, fixed, extra, n) == FixedPrice(b, lens, fixed, extra, n)
  {
    if n > 0 {
      FixedPriceFreqAgree(a, b, lens, fixed, extra, n - 1);
    }
  }

  lemma {:induction false} PairOf(s: set<nat>) returns (a: nat, b: nat)
    requires |s| == 2
    ensures a != b && s == {a, b}
  {
    a :| a in s;
    b := AnotherMember(s, a);
    assert |s - {a}| == 1;
    assert |s - {a} - {b}| == 0;
    assert s == (s - {a} - {b}) + {a, b};
  }

  lemma {:induction false} KraftOfPair(lens: seq<nat>, a: nat, b: nat, limit: nat)
    requires a < |lens| && b < |lens| && a != b && 1 <= lens[a] <= limit && 1 <= lens[b] <= limit
    requires forall x :: 0 <= x < |lens| && x != a && x != b ==> lens[x] == 0
    ensures KraftSum(lens, limit) == Pow2(limit - lens[a]) + Pow2(limit - lens[b])
  {
    assert lens[..|lens|] == lens;
    KraftIsSum(lens, lens, {a, b}, limit, |lens|);
    SumSingle(a, Shares(lens, limit), |lens|);
    assert {a} + {b} == {a, b};
    SumAdd({a}, b, Shares(lens, limit), |lens|);
  }

  /** Two codes that fill the code space have one bit each. */
  lemma {:induction false} TwoLeaves(lens: seq<nat>, now: seq<CtData>, leaves: set<nat>, elems: nat, limit: nat)
    requires LeafLens(lens, now, leaves, elems, limit) && KraftSum(lens, limit) == Pow2(limit)
    requires |leaves| == 2 && forall x :: x in leaves ==> x < elems
    ensures forall x :: x in leaves ==> lens[x] == 1
  {
    hide KraftSum, Pow2;
    var a, b := PairOf(leaves);
    KraftOfPair(lens, a, b, limit);
    HalvesOnly(limit, lens[a], lens[b]);
    HalvesOnly(limit, lens[b], lens[a]);
  }

  lemma {:induction false} HalvesOnly(limit: nat, a: nat, b: nat)
    requires 1 <= a <= limit && 1 <= b <= limit && Pow2(limit - a) + Pow2(limit - b) == Pow2(limit)
    ensures a == 1
  {
    Pow2Monotone(limit - b, limit - 1);
    if a > 1 {
      Pow2Monotone(limit - a, limit - 2);
    }
  }

  // --- The result ---

  ghost predicate LensStored(now: seq<CtData>, lens: seq<nat>) {
    |lens| <= |now| && forall x :: 0 <= x < |lens| ==> now[x].dl == lens[x]
  }

  /** Every symbol that occurs has a code. */
  ghost predicate UsedCoded(t0: seq<CtData>, lens: seq<nat>) {
    |lens| <= |t0| && forall x :: 0 <= x < |lens| && t0[x].fc > 0 ==> lens[x] > 0
  }

  ghost predicate LastUsed(lens: seq<nat>, maxCode: nat) {
    && maxCode < |lens| && lens[maxCode] > 0
    && forall x :: maxCode < x < |lens| ==> lens[x] == 0
  }

  /** The number of bits that the codes take for the symbols counted in t. */
  ghost function CodeBits(t: seq<CtData>, l: seq<nat>, n: nat): nat
    requires n <= |t| && n <= |l|
  {
    if n == 0 then 0 else CodeBits(t, l, n - 1) + t[n - 1].fc * l[n - 1]
  }

  /** No lengths of any prefix code for the symbols that occur, however long, take fewer bits. */
  ghost predicate Shortest(t: seq<CtData>, lens: seq<nat>)
    requires |lens| <= |t|
  {
    forall l: seq<nat>, bound: nat ::
      |l| == |lens| && BoundedLens(l, bound) && UsedCoded(t, l) && KraftSum(l, bound) <= Pow2(bound)
      ==> CodeBits(t, lens, |lens|) <= CodeBits(t, l, |lens|)
  }

  lemma {:induction false} CodeBitsMonotone(t: seq<CtData>, a: seq<nat>, b: seq<nat>, n: nat)
    requires n <= |t| && n <= |a| && n <= |b| && forall x :: 0 <= x < n && t[x].fc > 0 ==> a[x] <= b[x]
    ensures CodeBits(t, a, n) <= CodeBits(t, b, n)
  {
    if n > 0 {
      CodeBitsMonotone(t, a, b, n - 1);
      if t[n - 1].fc > 0 {
        MulMono(t[n - 1].fc, a[n - 1], b[n - 1]);
      }
    }
  }

  lemma {:induction false} CodeBitsIsCost(t: seq<CtData>, l: seq<nat>, elems: nat, w: seq<nat>, l': seq<nat>, n: nat)
    requires n <= elems <= |t| && n <= |l| && |w| == |l'| && n <= |w|
    requires forall x :: 0 <= x < n ==> w[x] == t[x].fc && (x in Used(t, elems) ==> l'[x] == l[x])
    ensures CodeBits(t, l, n) == SumIn(Used(t, elems), Products(w, l'), n)
  {
    if n > 0 {
      CodeBitsIsCost(t, l, elems, w, l', n - 1);
    }
  }

  lemma {:induction false} KraftAtLeast(l: seq<nat>, l': seq<nat>, s: set<nat>, bound: nat, n: nat)
    requires n <= |l| && n <= |l'| && forall x :: 0 <= x < n && x in s ==> l'[x] == l[x] && 1 <= l[x] <= bound
    ensures SumIn(s, Shares(l', bound), n) <= KraftSum(l[..n], bound)
  {
    if n > 0 {
      assert l[..n][..n - 1] == l[..n - 1];
      KraftAtLeast(l, l', s, bound, n - 1);
    }
  }

  /** Merging the two least frequent nodes again and again, lower ones first, makes these merges, and with them a tree
      that is too deep. */
  ghost predicate DeepTree(t: seq<CtData>, elems: nat, w: seq<nat>, merges: seq<(nat, nat)>, len: seq<nat>, limit: nat)
    requires elems <= |t|
  {
    && elems <= |w| == |len| && (forall x :: 0 <= x < elems ==> w[x] == t[x].fc)
    && Complete(Used(t, elems), elems, merges) && Greedy(Used(t, elems), elems, merges, w)
    && Lowest(Used(t, elems), elems, merges, w) && TooDeep(len, elems, merges, limit)
  }

  /** The frequencies lead to a Huffman tree deeper than the limit. */
  ghost predicate HuffmanTooDeep(t: seq<CtData>, elems: nat, limit: nat)
    requires elems <= |t|
  {
    exists w, merges, len :: DeepTree(t, elems, w, merges, len, limit)
  }

  /** When codes had to be forced, no code is longer than one bit. */
  ghost predicate ForcedShort(t: seq<CtData>, elems: nat, lens: seq<nat>)
    requires elems <= |t|
  {
    |Used(t, elems)| < 2 ==> BoundedLens(lens, 1)
  }

  /** No symbol has a shorter code than a more frequent one. */
  ghost predicate Ranked(t: seq<CtData>, lens: seq<nat>) {
    && |lens| <= |t|
    && forall x, y :: 0 <= x < |lens| && 0 <= y < |lens| && lens[x] > 0 && lens[y] > 0 && t[x].fc < t[y].fc ==>
         lens[x] >= lens[y]
  }

  /** What build_tree promises about the tree, of which t0 gave the frequencies, and about the sizes. */
  ghost predicate TreeResult(d: TreeDesc, t0: seq<CtData>, now: seq<CtData>, maxCode: nat, lens: seq<nat>,
                             opt0: nat, stat0: nat, opt: nat, stat: nat)
  {
    && DescOk(d) && |lens| == d.elems <= |t0| == |now|
    && LensStored(now, lens) && UsedCoded(t0, lens) && LastUsed(lens, maxCode)
    && BoundedLens(lens, d.maxLength) && KraftSum(lens, d.maxLength) == Pow2(d.maxLength)
    && CodedAs(now, lens[..maxCode + 1]) && Prefixable(lens[..maxCode + 1], MAX_BITS)
    && opt == U32(opt0 + OwnTotal(d, Freqs(t0), lens))
    && stat == U32(stat0 + FixedTotal(d, Freqs(t0), lens))
    && (Shortest(t0, lens) || HuffmanTooDeep(t0, d.elems, d.maxLength)) && ForcedShort(t0, d.elems, lens)
    && Ranked(t0, lens)
  }

  /** The facts about the call that connect its stages: t0 given, t filled and forced, tm merged. */
  ghost predicate Stages(d: TreeDesc, t0: seq<CtData>, fs: seq<nat>, t: seq<CtData>, h: seq<nat>, len: nat,
                         maxCode: nat, tm: seq<CtData>, merges: seq<(nat, nat)>, opt0: nat, stat0: nat, opt: nat,
                         stat: nat)
  {
    && ForceInv(d, t0, fs, t, h, len, maxCode, opt0, stat0, opt, stat) && len >= 2
    && |t| == |t0| && Merged(StartJob(t, Used(Force(t0, fs), d.elems), d.elems), tm, merges)
  }

  lemma {:induction false} StageLens(d: TreeDesc, t0: seq<CtData>, fs: seq<nat>, t: seq<CtData>, h: seq<nat>, len: nat,
                                     maxCode: nat, tm: seq<CtData>, merges: seq<(nat, nat)>, opt0: nat, stat0: nat,
                                     opt: nat, stat: nat, now: seq<CtData>, bl: seq<nat>, lens: seq<nat>, opt': nat,
                                     stat': nat)
    requires Stages(d, t0, fs, t, h, len, maxCode, tm, merges, opt0, stat0, opt, stat)
    requires LengthsSet(Context(tm, Used(Force(t0, fs), d.elems), merges, opt, stat), d, now, bl, lens, opt', stat')
    ensures |lens| == d.elems <= |t0| == |now| && DescOk(d)
    ensures LensStored(now, lens) && UsedCoded(t0, lens) && LastUsed(lens, maxCode) && BoundedLens(lens, d.maxLength)
    ensures fs != [] ==> OneBitEach(lens, fs) && BoundedLens(lens, 1)
  {
    hide U32, OwnTotal, FixedTotal, Nodes, KraftSum, Pow2, Greedy, Lowest, CountsOk, ContextOk;
    var t1 := Force(t0, fs);
    forall x: nat | x < d.elems
      ensures t1[x].fc == if x in fs then 1 else t0[x].fc
    {
      ForceFreq(t0, fs, x);
    }
    var leaves := Used(t1, d.elems);
    if fs != [] {
      TwoLeaves(lens, now, leaves, d.elems, d.maxLength);
    }
  }

  lemma {:induction false} StageUsed(d: TreeDesc, t0: seq<CtData>, fs: seq<nat>, t: seq<CtData>, h: seq<nat>, len: nat,
                                     maxCode: nat, tm: seq<CtData>, merges: seq<(nat, nat)>, opt0: nat, stat0: nat,
                                     opt: nat, stat: nat, lens: seq<nat>)
    requires Stages(d, t0, fs, t, h, len, maxCode, tm, merges, opt0, stat0, opt, stat) && d.elems <= |t0|
    requires fs != [] ==> BoundedLens(lens, 1)
    ensures ForcedShort(t0, d.elems, lens)
  {
    hide U32, Nodes, Merged, IsMaxCode, BoundedLens, SameFreqs;
  }

  lemma {:induction false} StageTotals(d: TreeDesc, t0: seq<CtData>, fs: seq<nat>, t: seq<CtData>, h: seq<nat>,
                                       len: nat, maxCode: nat, tm: seq<CtData>, merges: seq<(nat, nat)>, opt0: nat,
                                       stat0: nat, opt: nat, stat: nat, lens: seq<nat>)
    requires Stages(d, t0, fs, t, h, len, maxCode, tm, merges, opt0, stat0, opt, stat)
    requires DescOk(d) && |lens| == d.elems <= |t0| && (fs != [] ==> OneBitEach(lens, fs)) && d.elems <= |tm|
    ensures U32(opt + OwnTotal(d, Freqs(tm), lens)) == U32(opt0 + OwnTotal(d, Freqs(t0), lens))
    ensures U32(stat + FixedTotal(d, Freqs(tm), lens)) == U32(stat0 + FixedTotal(d, Freqs(t0), lens))
  {
    hide U32, OwnPrice, FixedPrice, Greedy, Lowest, Nodes, IsMaxCode;
    var t1 := Force(t0, fs);
    assert forall x :: 0 <= x < d.elems ==> Freqs(tm)[x] == Freqs(t1)[x];
    OwnPriceAgree(Freqs(tm), Freqs(t1), lens, Extras(d), d.elems);
    if d.fixed.Some? {
      FixedPriceFreqAgree(Freqs(tm), Freqs(t1), lens, d.fixed.value, Extras(d), d.elems);
    }
    ForcedTotals(d, t0, fs, lens);
    U32Add(opt0 - |fs|, OwnTotal(d, Freqs(tm), lens));
    U32Add(stat0 - FixedSum(d, fs), FixedTotal(d, Freqs(tm), lens));
  }

  lemma {:induction false} TrailingZeros(lens: seq<nat>, m: nat, b: nat, limit: nat)
    requires m <= |lens| && b > 0 && forall i :: m <= i < |lens| ==> lens[i] == 0
    ensures Count(lens[..m], b) == Count(lens, b) && KraftSum(lens[..m], limit) == KraftSum(lens, limit)
  {
    if m < |lens| {
      var k := |lens| - 1;
      assert lens[..k][..m] == lens[..m];
      TrailingZeros(lens[..k], m, b, limit);
    } else {
      assert lens[..m] == lens;
    }
  }

  lemma {:induction false} KraftWiden(lens: seq<nat>, limit: nat, wide: nat)
    requires BoundedLens(lens, limit) && limit <= wide && KraftSum(lens, limit) == Pow2(limit)
    ensures KraftSum(lens, wide) == Pow2(wide)
  {
    if limit < wide {
      KraftWiden(lens, limit, wide - 1);
      KraftStep(lens, wide - 1);
      NoLonger(lens, limit, wide);
    }
  }

  /** Everything gen_codes asks for. */
  lemma {:induction false} ReadyForCodes(lens: seq<nat>, maxCode: nat, limit: nat, bl: seq<nat>)
    requires BoundedLens(lens, limit) && limit <= MAX_BITS && KraftSum(lens, limit) == Pow2(limit)
    requires LastUsed(lens, maxCode) && CountsOk(bl, lens)
    ensures Prefixable(lens[..maxCode + 1], MAX_BITS)
    ensures CountsOk(bl, lens[..maxCode + 1])
  {
    hide KraftSum, Count, Pow2;
    KraftWiden(lens, limit, MAX_BITS);
    TrailingZeros(lens, maxCode + 1, 1, MAX_BITS);
    forall b: nat | b <= MAX_BITS
      ensures BlCount(lens[..maxCode + 1], b) == BlCount(lens, b)
    {
      if b > 0 {
        TrailingZeros(lens, maxCode + 1, b, MAX_BITS);
      }
    }
  }

  lemma {:induction false} CodesDone(was: seq<CtData>, now: seq<CtData>, lens: seq<nat>, maxCode: nat)
    requires LensStored(was, lens) && maxCode < |lens| && CodesSet(was, now, maxCode + 1, lens[..maxCode + 1])
    ensures LensStored(now, lens) && CodedAs(now, lens[..maxCode + 1])
  {
  }

  /** The first half: from frequencies to a complete tree. */
  method GrowTree(tree: array<CtData>, heap: array<nat>, depth: array<nat>, d: TreeDesc, optLen0: nat, staticLen0: nat)
    returns (maxCode: nat, heapMax: nat, optLen: nat, staticLen: nat,
             ghost fs: seq<nat>, ghost t: seq<CtData>, ghost h: seq<nat>, ghost len: nat, ghost merges: seq<(nat, nat)>)
    requires DescOk(d) && heap != depth && optLen0 < TWO32 && staticLen0 < TWO32
    requires 2 * d.elems <= tree.Length <= depth.Length && 2 * d.elems + 1 <= heap.Length
    requires FreqTotal(tree[..], d.elems) + 2 < TWO16
    modifies tree, heap, depth
    ensures Stages(d, old(tree[..]), fs, t, h, len, maxCode, tree[..], merges, optLen0, staticLen0, optLen, staticLen)
    ensures |merges| >= 1 && optLen < TWO32 && staticLen < TWO32 && ForcedOk(d, old(tree[..]), fs)
    ensures ContextOk(Context(tree[..], Used(Force(old(tree[..]), fs), d.elems), merges, optLen, staticLen), d)
    ensures OrderOk(heap[..], heapMax, d.elems, merges)
    ensures maxCode < d.elems && LeavesUpTo(Used(Force(old(tree[..]), fs), d.elems), maxCode)
    ensures forall i :: 0 <= i < |fs| ==> fs[i] < tree.Length
  {
    ghost var t0 := tree[..];
    assert d.elems >= 3;
    hide DescOk, Filled, ForceInv, InHeap, HeapFrom, Nodes, MergeInv, ContextOk, OrderOk, Merged, LeavesUpTo, Stages,
      ForcedOk;
    var n, top := FillHeap(tree, heap, depth, d.elems);
    var heapLen;
    heapLen, maxCode, optLen, staticLen, fs := ForceTwoCodes(tree, heap, depth, d, n, top, optLen0, staticLen0, t0);
    t, h, len := tree[..], heap[..], heapLen;
    ForceFacts(d, t0, fs, t, h, heapLen, maxCode, optLen0, staticLen0, optLen, staticLen);
    ghost var t1 := Force(t0, fs);
    FilledInHeap(t1, t, depth[..], h, heapLen, maxCode, d.elems);
    StartTotal(d, t0, fs, t, h, heapLen, maxCode, optLen0, staticLen0, optLen, staticLen);
    Heapify(heap, heapLen, tree, depth);
    StartMerge(d, t1, t, depth[..], h, heap[..], heapLen, maxCode);
    ghost var job := StartJob(t, Used(t1, d.elems), d.elems);
    heapMax, merges := MergeAll(heap, heapLen, tree, depth, d, job, optLen, staticLen);
    StagesMade(d, t0, fs, t, h, heapLen, maxCode, tree[..], merges, optLen0, staticLen0, optLen, staticLen);
  }

  lemma {:induction false} ForceFacts(d: TreeDesc, t0: seq<CtData>, fs: seq<nat>, t: seq<CtData>, h: seq<nat>, len: nat,
                                      maxCode: nat, opt0: int, stat0: int, opt: nat, stat: nat)
    requires ForceInv(d, t0, fs, t, h, len, maxCode, opt0, stat0, opt, stat)
    ensures ForcedOk(d, t0, fs) && (forall i :: 0 <= i < |fs| ==> fs[i] < |t0|)
    ensures Filled(Force(t0, fs), t, h, len, maxCode, d.elems) && |t| == |t0| && d.elems <= |t0|
    ensures LeavesUpTo(Used(Force(t0, fs), d.elems), maxCode) && maxCode < d.elems
    ensures opt < TWO32 && stat < TWO32
  {
    FilledLength(Force(t0, fs), t, h, len, maxCode, d.elems);
  }

  lemma {:induction false} StagesMade(d: TreeDesc, t0: seq<CtData>, fs: seq<nat>, t: seq<CtData>, h: seq<nat>, len: nat,
                                      maxCode: nat, tm: seq<CtData>, merges: seq<(nat, nat)>, opt0: nat, stat0: nat,
                                      opt: nat, stat: nat)
    requires ForceInv(d, t0, fs, t, h, len, maxCode, opt0, stat0, opt, stat) && len >= 2 && |t| == |t0|
    requires forall i :: 0 <= i < |fs| ==> fs[i] < |t0|
    requires d.elems <= |t0| && Merged(StartJob(t, Used(Force(t0, fs), d.elems), d.elems), tm, merges)
    ensures Stages(d, t0, fs, t, h, len, maxCode, tm, merges, opt0, stat0, opt, stat)
  {
    hide ForceInv, Merged;
  }

  lemma {:induction false} LengthsSetFacts(c: Context, d: TreeDesc, now: seq<CtData>, bl: seq<nat>, lens: seq<nat>,
                                           opt: nat, stat: nat)
    requires LengthsSet(c, d, now, bl, lens, opt, stat)
    ensures CountsOk(bl, lens) && KraftSum(lens, d.maxLength) == Pow2(d.maxLength) && d.maxLength <= MAX_BITS
    ensures DescOk(d) && |lens| == d.elems <= |c.was|
    ensures opt == U32(c.opt0 + OwnTotal(d, Freqs(c.was), lens))
    ensures stat == U32(c.stat0 + FixedTotal(d, Freqs(c.was), lens))
  {
  }

  lemma {:induction false} PrefixLens(t: seq<CtData>, lens: seq<nat>, maxCode: nat)
    requires LensStored(t, lens) && maxCode < |lens|
    ensures maxCode < |t| && Lens(t[..maxCode + 1]) == lens[..maxCode + 1]
  {
  }

  /** The second half up to the lengths. */
  method SizeTree(tree: array<CtData>, heap: array<nat>, depth: array<nat>, blCount: array<nat>, d: TreeDesc,
                  optLen0: nat, staticLen0: nat)
    returns (maxCode: nat, optLen: nat, staticLen: nat, ghost lens: seq<nat>)
    requires DescOk(d) && heap != depth && heap != blCount && depth != blCount && optLen0 < TWO32 && staticLen0 < TWO32
    requires 2 * d.elems <= tree.Length <= depth.Length && 2 * d.elems + 1 <= heap.Length
    requires blCount.Length == MAX_BITS + 1
    requires FreqTotal(tree[..], d.elems) + 2 < TWO16
    modifies tree, heap, depth, blCount
    ensures Sized(d, old(tree[..]), tree[..], blCount[..], maxCode, lens, optLen0, staticLen0, optLen, staticLen)
  {
    hide DescOk, ContextOk, OrderOk, LeavesUpTo, Stages, ForcedOk, LengthsSet, Unclamped, Sized;
    ghost var t0 := tree[..];
    var heapMax, opt, stat;
    ghost var fs, t, h, len, merges;
    maxCode, heapMax, opt, stat, fs, t, h, len, merges := GrowTree(tree, heap, depth, d, optLen0, staticLen0);
    ghost var tm := tree[..];
    ghost var c := Context(tm, Used(Force(t0, fs), d.elems), merges, opt, stat);
    optLen, staticLen, lens := GenerateLengths(tree, heap, heapMax, blCount, d, maxCode, opt, stat, c);
    SizedMade(d, t0, fs, t, h, len, maxCode, tm, merges, optLen0, staticLen0, opt, stat,
              tree[..], blCount[..], lens, optLen, staticLen);
  }

  lemma {:induction false} SizedMade(d: TreeDesc, t0: seq<CtData>, fs: seq<nat>, t: seq<CtData>, h: seq<nat>, len: nat,
                                     maxCode: nat, tm: seq<CtData>, merges: seq<(nat, nat)>, opt0: nat, stat0: nat,
                                     opt: nat, stat: nat, now: seq<CtData>, bl: seq<nat>, lens: seq<nat>, opt': nat,
                                     stat': nat)
    requires Stages(d, t0, fs, t, h, len, maxCode, tm, merges, opt0, stat0, opt, stat) && ForcedOk(d, t0, fs)
    requires d.elems <= |t0| && forall i :: 0 <= i < |fs| ==> fs[i] < |t0|
    requires LengthsSet(Context(tm, Used(Force(t0, fs), d.elems), merges, opt, stat), d, now, bl, lens, opt', stat')
    requires Unclamped(Context(tm, Used(Force(t0, fs), d.elems), merges, opt, stat), d, now)
          || (Overflowed(Context(tm, Used(Force(t0, fs), d.elems), merges, opt, stat), d)
              && RankOrder(lens, d.elems, merges))
    ensures Sized(d, t0, now, bl, maxCode, lens, opt0, stat0, opt', stat')
  {
    hide *;
    var c := Context(tm, Used(Force(t0, fs), d.elems), merges, opt, stat);
    StageLens(d, t0, fs, t, h, len, maxCode, tm, merges, opt0, stat0, opt, stat, now, bl, lens, opt', stat');
    LengthsSetFacts(c, d, now, bl, lens, opt', stat');
    StageTotals(d, t0, fs, t, h, len, maxCode, tm, merges, opt0, stat0, opt, stat, lens);
    StageUsed(d, t0, fs, t, h, len, maxCode, tm, merges, opt0, stat0, opt, stat, lens);
    ShortestMade(d, t0, fs, t, h, len, maxCode, tm, merges, opt0, stat0, opt, stat, now, bl, lens, opt', stat');
    RankedMade(d, t0, fs, t, h, len, maxCode, tm, merges, opt0, stat0, opt, stat, now, bl, lens, opt', stat');
    SizedIs(d, t0, now, bl, maxCode, lens, opt0, stat0, opt', stat');
  }

  lemma {:induction false} StageFreqs(d: TreeDesc, t0: seq<CtData>, fs: seq<nat>, t: seq<CtData>, h: seq<nat>, len: nat,
                                      maxCode: nat, tm: seq<CtData>, merges: seq<(nat, nat)>, opt0: nat, stat0: nat,
                                      opt: nat, stat: nat)
    requires Stages(d, t0, fs, t, h, len, maxCode, tm, merges, opt0, stat0, opt, stat) && d.elems <= |tm|
    ensures ForcedOk(d, t0, fs) && d.elems <= |t0|
    ensures forall x :: 0 <= x < d.elems ==> tm[x].fc == Force(t0, fs)[x].fc
    ensures Greedy(Used(Force(t0, fs), d.elems), d.elems, merges, Freqs(tm))
    ensures Lowest(Used(Force(t0, fs), d.elems), d.elems, merges, Freqs(tm))
  {
    hide U32, Greedy, Lowest, Nodes, IsMaxCode;
  }

  /** Huffman's theorem for the given frequencies. */
  lemma {:induction false} HuffmanShortest(t0: seq<CtData>, elems: nat, tm: seq<CtData>, now: seq<CtData>,
                                           merges: seq<(nat, nat)>, limit: nat, lens: seq<nat>, l: seq<nat>, bound: nat)
    requires elems <= |t0| && elems <= |tm| == |now| && |lens| == |l| == elems && elems + |merges| <= |now|
    requires forall x :: 0 <= x < elems ==> tm[x].fc == t0[x].fc
    requires Complete(Used(t0, elems), elems, merges) && Greedy(Used(t0, elems), elems, merges, Freqs(tm))
    requires ClampedLens(Lens(now), elems, merges, limit) && AtLimit(Lens(now), elems, |merges|, 0, limit) == 0
    requires LeafLens(lens, now, Used(t0, elems), elems, limit)
    requires BoundedLens(l, bound) && UsedCoded(t0, l) && KraftSum(l, bound) <= Pow2(bound)
    ensures CodeBits(t0, lens, elems) <= CodeBits(t0, l, elems)
  {
    hide KraftSum, Complete, Greedy, ClampedLens, AtLimit, SumIn, Pow2;
    var s, w, len := Used(t0, elems), Freqs(tm), Lens(now);
    var l' := l + seq(|tm| - elems, _ => 0);
    CodeBitsIsCost(t0, lens, elems, w, len, elems);
    CodeBitsIsCost(t0, l, elems, w, l', elems);
    SumBeyond(s, Products(w, len), elems, |w|);
    SumBeyond(s, Products(w, l'), elems, |w|);
    KraftAtLeast(l, l', s, bound, elems);
    assert l[..elems] == l;
    SumBeyond(s, Shares(l', bound), elems, |l'|);
    HuffmanIsOptimal(s, elems, merges, w, len, limit, l', bound);
  }

  lemma {:induction false} ShortestMade(d: TreeDesc, t0: seq<CtData>, fs: seq<nat>, t: seq<CtData>, h: seq<nat>,
                                        len: nat, maxCode: nat, tm: seq<CtData>, merges: seq<(nat, nat)>, opt0: nat,
                                        stat0: nat, opt: nat, stat: nat, now: seq<CtData>, bl: seq<nat>, lens: seq<nat>,
                                        opt': nat, stat': nat)
    requires Stages(d, t0, fs, t, h, len, maxCode, tm, merges, opt0, stat0, opt, stat) && ForcedOk(d, t0, fs)
    requires LengthsSet(Context(tm, Used(Force(t0, fs), d.elems), merges, opt, stat), d, now, bl, lens, opt', stat')
    requires Unclamped(Context(tm, Used(Force(t0, fs), d.elems), merges, opt, stat), d, now)
          || Overflowed(Context(tm, Used(Force(t0, fs), d.elems), merges, opt, stat), d)
    requires |lens| <= |t0| && (fs != [] ==> BoundedLens(lens, 1))
    ensures Shortest(t0, lens) || HuffmanTooDeep(t0, d.elems, d.maxLength)
  {
    hide Stages, U32, OwnTotal, FixedTotal, KraftSum, CountsOk, Greedy, Complete, ClampedLens, AtLimit, CodeBits, Count,
      Pow2, UsedCoded, TooDeep, Lowest;
    StageFreqs(d, t0, fs, t, h, len, maxCode, tm, merges, opt0, stat0, opt, stat);
    var c := Context(tm, Used(Force(t0, fs), d.elems), merges, opt, stat);
    if fs != [] || Unclamped(c, d, now) {
      forall l: seq<nat>, bound: nat | |l| == |lens| && BoundedLens(l, bound) && UsedCoded(t0, l)
        && KraftSum(l, bound) <= Pow2(bound)
        ensures CodeBits(t0, lens, |lens|) <= CodeBits(t0, l, |lens|)
      {
        if fs == [] {
          HuffmanShortest(t0, d.elems, tm, now, merges, d.maxLength, lens, l, bound);
        } else {
          OneBitShortest(t0, lens, l);
        }
      }
    } else {
      var deep :| |deep| == |c.was| && TooDeep(deep, d.elems, c.merges, d.maxLength);
      assert DeepTree(t0, d.elems, Freqs(tm), merges, deep, d.maxLength);
    }
  }

  lemma {:induction false} RankedMade(d: TreeDesc, t0: seq<CtData>, fs: seq<nat>, t: seq<CtData>, h: seq<nat>, len: nat,
                                      maxCode: nat, tm: seq<CtData>, merges: seq<(nat, nat)>, opt0: nat, stat0: nat,
                                      opt: nat, stat: nat, now: seq<CtData>, bl: seq<nat>, lens: seq<nat>, opt': nat,
                                      stat': nat)
    requires Stages(d, t0, fs, t, h, len, maxCode, tm, merges, opt0, stat0, opt, stat) && ForcedOk(d, t0, fs)
    requires LengthsSet(Context(tm, Used(Force(t0, fs), d.elems), merges, opt, stat), d, now, bl, lens, opt', stat')
    requires Unclamped(Context(tm, Used(Force(t0, fs), d.elems), merges, opt, stat), d, now)
          || RankOrder(lens, d.elems, merges)
    requires |lens| <= |t0| && (fs != [] ==> BoundedLens(lens, 1))
    ensures Ranked(t0, lens)
  {
    hide Stages, U32, OwnTotal, FixedTotal, KraftSum, CountsOk, Greedy, Complete, ClampedLens, AtLimit, Count, Pow2,
      Lowest, Falling;
    StageFreqs(d, t0, fs, t, h, len, maxCode, tm, merges, opt0, stat0, opt, stat);
    var c, leaves := Context(tm, Used(Force(t0, fs), d.elems), merges, opt, stat), Used(Force(t0, fs), d.elems);
    if fs == [] {
      forall x, y | 0 <= x < |lens| && 0 <= y < |lens| && lens[x] > 0 && lens[y] > 0 && t0[x].fc < t0[y].fc
        ensures lens[x] >= lens[y]
      {
        if Unclamped(c, d, now) {
          LighterDeeper(leaves, d.elems, merges, Freqs(tm), Lens(now), d.maxLength, x, y);
        } else {
          RarerLonger(leaves, d.elems, merges, Freqs(tm), lens, x, y);
        }
      }
    }
  }

  lemma {:induction false} OneBitShortest(t0: seq<CtData>, lens: seq<nat>, l: seq<nat>)
    requires |l| == |lens| <= |t0| && BoundedLens(lens, 1) && UsedCoded(t0, l)
    ensures CodeBits(t0, lens, |lens|) <= CodeBits(t0, l, |lens|)
  {
    CodeBitsMonotone(t0, lens, l, |lens|);
  }

  /** Lengths decided, codes not yet. */
  ghost predicate Sized(d: TreeDesc, t0: seq<CtData>, now: seq<CtData>, bl: seq<nat>, maxCode: nat, lens: seq<nat>,
                        opt0: nat, stat0: nat, opt: nat, stat: nat)
  {
    && DescOk(d) && |lens| == d.elems <= |t0| == |now|
    && LensStored(now, lens) && UsedCoded(t0, lens) && LastUsed(lens, maxCode)
    && BoundedLens(lens, d.maxLength) && KraftSum(lens, d.maxLength) == Pow2(d.maxLength) && CountsOk(bl, lens)
    && opt == U32(opt0 + OwnTotal(d, Freqs(t0), lens))
    && stat == U32(stat0 + FixedTotal(d, Freqs(t0), lens))
    && (Shortest(t0, lens) || HuffmanTooDeep(t0, d.elems, d.maxLength)) && ForcedShort(t0, d.elems, lens)
    && Ranked(t0, lens)
  }

  lemma {:induction false} SizedIs(d: TreeDesc, t0: seq<CtData>, now: seq<CtData>, bl: seq<nat>, maxCode: nat,
                                   lens: seq<nat>, opt0: nat, stat0: nat, opt: nat, stat: nat)
    requires DescOk(d) && |lens| == d.elems <= |t0| == |now|
    requires LensStored(now, lens) && UsedCoded(t0, lens) && LastUsed(lens, maxCode)
    requires BoundedLens(lens, d.maxLength) && KraftSum(lens, d.maxLength) == Pow2(d.maxLength) && CountsOk(bl, lens)
    requires opt == U32(opt0 + OwnTotal(d, Freqs(t0), lens))
    requires stat == U32(stat0 + FixedTotal(d, Freqs(t0), lens))
    requires (Shortest(t0, lens) || HuffmanTooDeep(t0, d.elems, d.maxLength)) && ForcedShort(t0, d.elems, lens)
    requires Ranked(t0, lens)
    ensures Sized(d, t0, now, bl, maxCode, lens, opt0, stat0, opt, stat)
  {
    hide DescOk, LensStored, UsedCoded, LastUsed, BoundedLens, KraftSum, CountsOk, U32, OwnTotal, FixedTotal, Shortest,
      ForcedShort, HuffmanTooDeep, Ranked;
  }

  lemma {:induction false} ReadyToCode(d: TreeDesc, t0: seq<CtData>, now: seq<CtData>, bl: seq<nat>, maxCode: nat,
                                       lens: seq<nat>, opt0: nat, stat0: nat, opt: nat, stat: nat)
    requires Sized(d, t0, now, bl, maxCode, lens, opt0, stat0, opt, stat)
    ensures maxCode < |lens| <= |now|
    ensures Prefixable(lens[..maxCode + 1], MAX_BITS) && CountsOk(bl, lens[..maxCode + 1])
    ensures Lens(now[..maxCode + 1]) == lens[..maxCode + 1]
  {
    hide U32, OwnTotal, FixedTotal, KraftSum, Prefixable, CountsOk, Shortest, ForcedShort, Ranked;
    ReadyForCodes(lens, maxCode, d.maxLength, bl);
    PrefixLens(now, lens, maxCode);
  }

  lemma {:induction false} ResultMade(d: TreeDesc, t0: seq<CtData>, mid: seq<CtData>, now: seq<CtData>, bl: seq<nat>,
                                      maxCode: nat, lens: seq<nat>, opt0: nat, stat0: nat, opt: nat, stat: nat)
    requires Sized(d, t0, mid, bl, maxCode, lens, opt0, stat0, opt, stat)
    requires maxCode < |lens| && CodesSet(mid, now, maxCode + 1, lens[..maxCode + 1])
    requires Prefixable(lens[..maxCode + 1], MAX_BITS)
    ensures TreeResult(d, t0, now, maxCode, lens, opt0, stat0, opt, stat)
  {
    hide U32, OwnTotal, FixedTotal, KraftSum, Prefixable, CountsOk, CodedAs, LensStored, Shortest, ForcedShort, Ranked;
    CodesDone(mid, now, lens, maxCode);
  }

  /** build_tree. */
  method BuildTree(tree: array<CtData>, heap: array<nat>, depth: array<nat>, blCount: array<nat>, d: TreeDesc,
                   optLen0: nat, staticLen0: nat)
    returns (maxCode: nat, optLen: nat, staticLen: nat, ghost lens: seq<nat>)
    requires DescOk(d) && heap != depth && heap != blCount && depth != blCount && optLen0 < TWO32 && staticLen0 < TWO32
    requires 2 * d.elems <= tree.Length <= depth.Length && 2 * d.elems + 1 <= heap.Length
    requires blCount.Length == MAX_BITS + 1
    requires FreqTotal(tree[..], d.elems) + 2 < TWO16
    modifies tree, heap, depth, blCount
    ensures TreeResult(d, old(tree[..]), tree[..], maxCode, lens, optLen0, staticLen0, optLen, staticLen)
  {
    hide DescOk, Sized, Prefixable, CountsOk, CodesSet, TreeResult, Lens;
    ghost var t0 := tree[..];
    maxCode, optLen, staticLen, lens := SizeTree(tree, heap, depth, blCount, d, optLen0, staticLen0);
    ghost var mid, bl := tree[..], blCount[..];
    ReadyToCode(d, t0, mid, bl, maxCode, lens, optLen0, staticLen0, optLen, staticLen);
    assert tree[..maxCode + 1] == mid[..maxCode + 1];
    GenCodes(tree, maxCode, blCount);
    ResultMade(d, t0, mid, tree[..], bl, maxCode, lens, optLen0, staticLen0, optLen, staticLen);
  }
}
