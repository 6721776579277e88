/** The three trees of a block: what flush_block builds before it decides how to encode the block. */
module BlockTrees {
  import opened Bits
  import opened CanonicalCode
  import opened Inflate
  import opened Tokens
  import opened Tables
  import opened TreeRle
  import opened DynamicBlock
  import opened BitLengths
  import opened GenBitlen
  import opened HuffmanBuild
  import opened TreeInit
  import opened BlockCost
  import opened BlockSender

  // --- Every symbol that occurs has a code ---

  lemma {:induction false} LitOccurs(ts: seq<Token>, i: nat)
    requires AllInRange(ts) && i < |ts|
    ensures LitFreqs(ts)[LitSymbol(ts[i])] > 0
  {
    hide LitSymbol;
    if i < |ts| - 1 {
      LitOccurs(ts[..|ts| - 1], i);
    }
  }

  lemma {:induction false} EndOccurs(ts: seq<Token>)
    requires AllInRange(ts)
    ensures LitFreqs(ts)[END_BLOCK] > 0
  {
    if ts != [] {
      EndOccurs(ts[..|ts| - 1]);
    }
  }

  lemma {:induction false} DistOccurs(ts: seq<Token>, i: nat)
    requires AllInRange(ts) && i < |ts| && ts[i].Match?
    ensures DistFreqs(ts)[DistCode(ts[i].distance)] > 0
  {
    if i < |ts| - 1 {
      DistOccurs(ts[..|ts| - 1], i);
    }
  }

  /** Symbols with non-zero frequency have codes, the last of them at most. */
  ghost predicate Coded(f: seq<nat>, lens: seq<nat>, last: nat) {
    && |f| == |lens| && last < |lens| && lens[last] > 0
    && (forall s :: 0 <= s < |f| && f[s] > 0 ==> lens[s] > 0)
    && (forall s :: last < s < |f| ==> lens[s] == 0)
  }

  lemma {:induction false} ResultCoded(d: TreeDesc, t0: seq<CtData>, now: seq<CtData>, last: nat, lens: seq<nat>,
                                       opt0: nat, stat0: nat, opt: nat, stat: nat, f: seq<nat>)
    requires TreeResult(d, t0, now, last, lens, opt0, stat0, opt, stat) && HoldsFreqs(t0, f) && |f| == d.elems
    ensures Coded(f, lens, last)
    ensures BoundedLens(lens, d.maxLength) && CodedAs(now, lens[..last + 1]) && Prefixable(lens[..last + 1], MAX_BITS)
    ensures |lens| == d.elems <= |now| == |t0| && LensStored(now, lens)
  {
    hide U32, OwnTotal, FixedTotal, KraftSum, Shortest, DescOk;
  }

  lemma {:induction false} CodesCover(ts: seq<Token>, ll: seq<nat>, lmax: nat, dl: seq<nat>, dmax: nat)
    requires AllInRange(ts) && Coded(LitFreqs(ts), ll, lmax) && Coded(DistFreqs(ts), dl, dmax)
    ensures lmax >= END_BLOCK && CoversAll(ll[..lmax + 1], dl[..dmax + 1], ts)
  {
    hide LitFreqs, DistFreqs, LitSymbol;
    EndOccurs(ts);
    forall i | 0 <= i < |ts|
      ensures Covers(ll[..lmax + 1], dl[..dmax + 1], ts[i])
    {
      LitOccurs(ts, i);
      if ts[i].Match? {
        DistOccurs(ts, i);
      }
    }
  }

  // --- Sizes ---

  /** The price of a tree's symbols in terms of the frequencies alone. */
  lemma {:induction false} ResultPrices(d: TreeDesc, t0: seq<CtData>, now: seq<CtData>, last: nat, lens: seq<nat>,
                                        opt0: nat, stat0: nat, opt: nat, stat: nat, f: seq<nat>)
    requires TreeResult(d, t0, now, last, lens, opt0, stat0, opt, stat) && HoldsFreqs(t0, f) && |f| == d.elems
    ensures DescOk(d) && |lens| == d.elems && opt == U32(opt0 + OwnPrice(f, lens, Extras(d), d.elems))
    ensures stat == U32(stat0 + if d.fixed.Some? then FixedPrice(f, lens, d.fixed.value, Extras(d), d.elems) else 0)
  {
    hide U32, OwnPrice, FixedPrice, KraftSum, Shortest, Prefixable, CodedAs;
    OwnPriceAgree(Freqs(t0), f, lens, Extras(d), d.elems);
    if d.fixed.Some? {
      FixedPriceFreqAgree(Freqs(t0), f, lens, d.fixed.value, Extras(d), d.elems);
    }
  }

  lemma {:induction false} U32Small(x: nat)
    requires x < TWO32
    ensures U32(x) == x
  {
  }

  lemma {:induction false} ExtrasBound()
    requires DescOk(L_DESC) && DescOk(D_DESC) && DescOk(BL_DESC)
    ensures forall s :: 0 <= s < 286 ==> Extras(L_DESC)[s] <= 5
    ensures forall s :: 0 <= s < 30 ==> Extras(D_DESC)[s] <= 13
    ensures forall s :: 0 <= s < 19 ==> Extras(BL_DESC)[s] == ExtraWidth(s) <= 7
  {
    forall s | 0 <= s < 286
      ensures Extras(L_DESC)[s] <= 5
    {
      if s >= 257 {
        ExtraLengthBits(s - 257);
      }
    }
    forall s | 0 <= s < 30
      ensures Extras(D_DESC)[s] <= 13
    {
      ExtraDistBits(s);
    }
    forall s | 0 <= s < 19
      ensures Extras(BL_DESC)[s] == ExtraWidth(s) <= 7
    {
      ExtraBlBits(s);
    }
  }

  lemma {:induction false} LitPriceBound(ts: seq<Token>, ll: seq<nat>)
    requires AllInRange(ts) && |ll| == L_CODES && BoundedLens(ll, 15) && DescOk(L_DESC) && DescOk(D_DESC)
    requires DescOk(BL_DESC)
    ensures OwnPrice(LitFreqs(ts), ll, Extras(L_DESC), L_CODES) <= 20 * (|ts| + 1)
  {
    hide DescOk, LitFreqs, OwnPrice;
    ExtrasBound();
    OwnPriceBound(LitFreqs(ts), ll, Extras(L_DESC), L_CODES, 20);
    assert LitFreqs(ts)[..L_CODES] == LitFreqs(ts);
    LitFreqsSum(ts);
  }

  lemma {:induction false} DistPriceBound(ts: seq<Token>, dl: seq<nat>)
    requires AllInRange(ts) && |dl| == D_CODES && BoundedLens(dl, 15) && DescOk(L_DESC) && DescOk(D_DESC)
    requires DescOk(BL_DESC)
    ensures OwnPrice(DistFreqs(ts), dl, Extras(D_DESC), D_CODES) <= 28 * |ts|
  {
    hide DescOk, DistFreqs, OwnPrice;
    ExtrasBound();
    OwnPriceBound(DistFreqs(ts), dl, Extras(D_DESC), D_CODES, 28);
    assert DistFreqs(ts)[..D_CODES] == DistFreqs(ts);
    DistFreqsSum(ts);
  }

  /** After the first two trees, opt_len is exactly the size of the data under the new codes. */
  lemma {:induction false} OwnDataSize(ts: seq<Token>, ll: seq<nat>, lmax: nat, dl: seq<nat>, dmax: nat, opt1: nat,
                                       opt2: nat)
    requires AllInRange(ts) && |ts| < 0x8000 && Coded(LitFreqs(ts), ll, lmax) && Coded(DistFreqs(ts), dl, dmax)
    requires BoundedLens(ll, 15) && BoundedLens(dl, 15) && DescOk(L_DESC) && DescOk(D_DESC) && DescOk(BL_DESC)
    requires opt1 == U32(0 + OwnPrice(LitFreqs(ts), ll, Extras(L_DESC), L_CODES))
    requires opt2 == U32(opt1 + OwnPrice(DistFreqs(ts), dl, Extras(D_DESC), D_CODES))
    ensures CoversAll(ll[..lmax + 1], dl[..dmax + 1], ts)
    ensures opt2 == |DataBits(ll[..lmax + 1], dl[..dmax + 1], ts)| < 0x200000
  {
    hide DescOk, DistFreqs, LitFreqs, OwnPrice, DataBits, CoversAll, U32, BoundedLens;
    var lit, dist := ll[..lmax + 1], dl[..dmax + 1];
    CodesCover(ts, ll, lmax, dl, dmax);
    ExtrasAre();
    LitPriceBound(ts, ll);
    DistPriceBound(ts, dl);
    U32Small(OwnPrice(LitFreqs(ts), ll, Extras(L_DESC), L_CODES));
    U32Small(opt1 + OwnPrice(DistFreqs(ts), dl, Extras(D_DESC), D_CODES));
    DataSize(lit, dist, ll, dl, Extras(L_DESC), Extras(D_DESC), ts);
  }

  // --- The fixed codes ---

  lemma {:induction false} FixedCover(ts: seq<Token>)
    requires AllInRange(ts)
    ensures CoversAll(FIXED_LIT_LENS, FIXED_DIST_LENS, ts)
  {
    hide Repeat;
    FixedPositive();
    forall i | 0 <= i < |ts|
      ensures Covers(FIXED_LIT_LENS, FIXED_DIST_LENS, ts[i])
    {
    }
  }

  lemma {:induction false} FixedPositive()
    ensures |FIXED_LIT_LENS| == 288 && |FIXED_DIST_LENS| == 32
    ensures BoundedLens(FIXED_LIT_LENS, 15) && BoundedLens(FIXED_DIST_LENS, 15)
    ensures forall i :: 0 <= i < 288 ==> FIXED_LIT_LENS[i] > 0
    ensures forall i :: 0 <= i < 32 ==> FIXED_DIST_LENS[i] > 0
  {
  }

  /** static_len is exactly the size of the data under the fixed codes. */
  lemma {:induction false} FixedDataSize(ts: seq<Token>, ll: seq<nat>, lmax: nat, dl: seq<nat>, dmax: nat, stat1: nat,
                                         stat2: nat)
    requires AllInRange(ts) && |ts| < 0x8000 && Coded(LitFreqs(ts), ll, lmax) && Coded(DistFreqs(ts), dl, dmax)
    requires DescOk(L_DESC) && DescOk(D_DESC) && DescOk(BL_DESC)
    requires stat1 == U32(0 + FixedPrice(LitFreqs(ts), ll, FIXED_LIT_LENS, Extras(L_DESC), L_CODES))
    requires stat2 == U32(stat1 + FixedPrice(DistFreqs(ts), dl, FIXED_DIST_LENS, Extras(D_DESC), D_CODES))
    ensures CoversAll(FIXED_LIT_LENS, FIXED_DIST_LENS, ts)
    ensures stat2 == |DataBits(FIXED_LIT_LENS, FIXED_DIST_LENS, ts)| < 0x200000
  {
    hide DescOk, DistFreqs, LitFreqs, OwnPrice, FixedPrice, DataBits, CoversAll, U32, Repeat;
    var lit, dist := FIXED_LIT_LENS, FIXED_DIST_LENS;
    FixedCover(ts);
    FixedPositive();
    FixedIsOwn(LitFreqs(ts), ll, lit, Extras(L_DESC), L_CODES);
    FixedIsOwn(DistFreqs(ts), dl, dist, Extras(D_DESC), D_CODES);
    ExtrasAre();
    ExtrasBound();
    OwnPriceBound(LitFreqs(ts), lit, Extras(L_DESC), L_CODES, 20);
    assert LitFreqs(ts)[..L_CODES] == LitFreqs(ts);
    LitFreqsSum(ts);
    OwnPriceBound(DistFreqs(ts), dist, Extras(D_DESC), D_CODES, 28);
    assert DistFreqs(ts)[..D_CODES] == DistFreqs(ts);
    DistFreqsSum(ts);
    U32Small(OwnPrice(LitFreqs(ts), lit, Extras(L_DESC), L_CODES));
    U32Small(stat1 + OwnPrice(DistFreqs(ts), dist, Extras(D_DESC), D_CODES));
    DataSize(lit, dist, lit, dist, Extras(L_DESC), Extras(D_DESC), ts);
  }

  // --- The bit length tree ---

  lemma {:induction false} NextCodeTrailing(lens: seq<nat>, m: nat, b: nat)
    requires m <= |lens| && forall i :: m <= i < |lens| ==> lens[i] == 0
    ensures NextCode(lens[..m], b) == NextCode(lens, b)
  {
    if b > 0 {
      NextCodeTrailing(lens, m, b - 1);
      if b > 1 {
        TrailingZeros(lens, m, b - 1, 0);
      }
    }
  }

  /** Unused symbols at the end do not change the codes. */
  lemma {:induction false} CodedFull(now: seq<CtData>, lens: seq<nat>, m: nat)
    requires m <= |lens| && (forall i :: m <= i < |lens| ==> lens[i] == 0)
    requires CodedAs(now, lens[..m]) && LensStored(now, lens)
    ensures CodedAs(now, lens)
  {
    hide NextCode, Count;
    forall i | 0 <= i < |lens| && i < |now|
      ensures now[i].dl == lens[i] && (lens[i] > 0 ==> now[i].fc == Reversed(Code(lens, i), lens[i]))
    {
      if lens[i] > 0 {
        NextCodeTrailing(lens, m, lens[i]);
        assert lens[..m][..i] == lens[..i];
        assert Code(lens[..m], i) == Code(lens, i);
      }
    }
  }

  lemma {:induction false} ScannedFreqs(t0: seq<CtData>, t1: seq<CtData>, t2: seq<CtData>, p: seq<RleOp>, q: seq<RleOp>)
    requires Tallied(t0, t1, p) && Tallied(t1, t2, q) && OpsOk(p + q) && |t0| >= BL_CODES
    requires HoldsFreqs(t0, Repeat(0, BL_CODES))
    ensures HoldsFreqs(t2, OpFreqs(p + q))
  {
    hide Tally, OpFreqs;
    forall s | 0 <= s < BL_CODES
      ensures t2[s].fc == OpFreqs(p + q)[s]
    {
      TallyConcat(p, q, s);
      OpFreqsTally(p + q, s);
    }
  }

  lemma {:induction false} OpOccurs(ops: seq<RleOp>, i: nat)
    requires OpsOk(ops) && i < |ops|
    ensures OpFreqs(ops)[Sym(ops[i])] > 0
  {
    if i < |ops| - 1 {
      OpOccurs(ops[..|ops| - 1], i);
    }
  }

  lemma {:induction false} OpsCovered(ops: seq<RleOp>, cl: seq<nat>, last: nat)
    requires OpsOk(ops) && Coded(OpFreqs(ops), cl, last)
    ensures CoversOps(cl, ops)
  {
    hide OpFreqs;
    forall i | 0 <= i < |ops|
      ensures cl[Sym(ops[i])] > 0
    {
      OpOccurs(ops, i);
    }
  }

  lemma {:induction false} OpsParts(cl: seq<nat>, p: seq<RleOp>, q: seq<RleOp>)
    requires CoversOps(cl, p + q)
    ensures CoversOps(cl, p) && CoversOps(cl, q)
  {
    assert p + q + [] == p + q;
    CoversParts(cl, p, q, []);
  }

  /** The size of the coded trees. */
  lemma {:induction false} TreesSize(ops: seq<RleOp>, cl: seq<nat>, last: nat, opt2: nat, opt3: nat)
    requires OpsOk(ops) && |ops| <= 316 && Coded(OpFreqs(ops), cl, last) && BoundedLens(cl, 7)
    requires DescOk(L_DESC) && DescOk(D_DESC) && DescOk(BL_DESC) && opt2 < 0x200000
    requires opt3 == U32(opt2 + OwnPrice(OpFreqs(ops), cl, Extras(BL_DESC), BL_CODES))
    ensures CoversOps(cl, ops) && |cl| == BL_CODES
    ensures opt3 == opt2 + |OpsBits(cl, ops)| < 0x210000
  {
    hide DescOk, OpFreqs, OwnPrice, OpsBits, U32;
    OpsCovered(ops, cl, last);
    ExtrasBound();
    OpsSize(cl, ops, Extras(BL_DESC));
    OwnPriceBound(OpFreqs(ops), cl, Extras(BL_DESC), BL_CODES, 14);
    assert OpFreqs(ops)[..BL_CODES] == OpFreqs(ops);
    OpFreqsSum(ops);
    U32Small(opt2 + OwnPrice(OpFreqs(ops), cl, Extras(BL_DESC), BL_CODES));
  }

  // --- Building the trees of the data ---

  /** A tree of codes for the frequencies f. */
  ghost predicate CodeTree(f: seq<nat>, t: seq<CtData>, lens: seq<nat>, last: nat, limit: nat) {
    && Coded(f, lens, last) && BoundedLens(lens, limit) && LensStored(t, lens)
    && CodedAs(t, lens[..last + 1]) && Prefixable(lens[..last + 1], MAX_BITS)
  }

  ghost predicate AllLiterals(ts: seq<Token>) {
    forall i :: 0 <= i < |ts| ==> ts[i].Literal?
  }

  /** Without matches the distance codes are forced ones, of one bit. */
  ghost predicate DistForced(ts: seq<Token>, dist: seq<nat>) {
    AllLiterals(ts) ==> BoundedLens(dist, 1) && dist != [] && dist[|dist| - 1] > 0
  }

  lemma {:induction false} NoDistances(ts: seq<Token>)
    requires AllInRange(ts) && AllLiterals(ts)
    ensures forall s :: 0 <= s < D_CODES ==> DistFreqs(ts)[s] == 0
  {
    if ts != [] {
      NoDistances(ts[..|ts| - 1]);
    }
  }

  lemma {:induction false} DistForcedMade(ts: seq<Token>, dt0: seq<CtData>, dt: seq<CtData>, dl: seq<nat>, dmax: nat,
                                          opt1: nat, stat1: nat, opt2: nat, stat2: nat)
    requires AllInRange(ts) && HoldsFreqs(dt0, DistFreqs(ts))
    requires TreeResult(D_DESC, dt0, dt, dmax, dl, opt1, stat1, opt2, stat2)
    ensures dmax < |dl| && DistForced(ts, dl[..dmax + 1])
  {
    hide DescOk, LensStored, UsedCoded, KraftSum, CodedAs, Prefixable, U32, OwnTotal, FixedTotal, Shortest,
      HuffmanTooDeep, DistFreqs;
    assert D_DESC.elems == D_CODES;
    if AllLiterals(ts) {
      NoDistances(ts);
      assert Used(dt0, D_CODES) == {};
    }
  }

  /** Codes for the data are there, and both its sizes are known. */
  ghost predicate DataTrees(ts: seq<Token>, lt: seq<CtData>, dt: seq<CtData>, ll: seq<nat>, lmax: nat, dl: seq<nat>,
                            dmax: nat, opt: nat, stat: nat)
  {
    && AllInRange(ts)
    && CodeTree(LitFreqs(ts), lt, ll, lmax, 15) && CodeTree(DistFreqs(ts), dt, dl, dmax, 15)
    && CoversAll(ll[..lmax + 1], dl[..dmax + 1], ts) && opt == |DataBits(ll[..lmax + 1], dl[..dmax + 1], ts)| < 0x200000
    && CoversAll(FIXED_LIT_LENS, FIXED_DIST_LENS, ts)
    && stat == |DataBits(FIXED_LIT_LENS, FIXED_DIST_LENS, ts)| < 0x200000
    && DistForced(ts, dl[..dmax + 1])
  }

  lemma {:induction false} TreeMade(d: TreeDesc, t0: seq<CtData>, now: seq<CtData>, last: nat, lens: seq<nat>,
                                    opt0: nat, stat0: nat, opt: nat, stat: nat, f: seq<nat>)
    requires TreeResult(d, t0, now, last, lens, opt0, stat0, opt, stat) && HoldsFreqs(t0, f) && |f| == d.elems
    ensures CodeTree(f, now, lens, last, d.maxLength)
    ensures opt < TWO32 && stat < TWO32
  {
    hide TreeResult, Coded, Prefixable, BoundedLens, LensStored, CodedAs;
    ResultCoded(d, t0, now, last, lens, opt0, stat0, opt, stat, f);
    ResultPrices(d, t0, now, last, lens, opt0, stat0, opt, stat, f);
  }

  lemma {:induction false} DataTreesMade(ts: seq<Token>, lt0: seq<CtData>, lt: seq<CtData>, dt0: seq<CtData>,
                                         dt: seq<CtData>, ll: seq<nat>, lmax: nat, dl: seq<nat>, dmax: nat,
                                         opt1: nat, stat1: nat, opt2: nat, stat2: nat)
    requires AllInRange(ts) && |ts| < 0x8000 && HoldsFreqs(lt0, LitFreqs(ts)) && HoldsFreqs(dt0, DistFreqs(ts))
    requires TreeResult(L_DESC, lt0, lt, lmax, ll, 0, 0, opt1, stat1)
    requires TreeResult(D_DESC, dt0, dt, dmax, dl, opt1, stat1, opt2, stat2)
    ensures DataTrees(ts, lt, dt, ll, lmax, dl, dmax, opt2, stat2)
  {
    hide TreeResult, Coded, Prefixable, LensStored, CodedAs, HoldsFreqs, LitFreqs, DistFreqs, OwnPrice, FixedPrice,
      CoversAll, DataBits, U32, DescOk, DistForced;
    DescsOk();
    TreeMade(L_DESC, lt0, lt, lmax, ll, 0, 0, opt1, stat1, LitFreqs(ts));
    TreeMade(D_DESC, dt0, dt, dmax, dl, opt1, stat1, opt2, stat2, DistFreqs(ts));
    ResultPrices(L_DESC, lt0, lt, lmax, ll, 0, 0, opt1, stat1, LitFreqs(ts));
    ResultPrices(D_DESC, dt0, dt, dmax, dl, opt1, stat1, opt2, stat2, DistFreqs(ts));
    OwnDataSize(ts, ll, lmax, dl, dmax, opt1, opt2);
    FixedDataSize(ts, ll, lmax, dl, dmax, stat1, stat2);
    DistForcedMade(ts, dt0, dt, dl, dmax, opt1, stat1, opt2, stat2);
  }

  lemma {:induction false} TotalsFit(ts: seq<Token>, lt: seq<CtData>, dt: seq<CtData>)
    requires AllInRange(ts) && |ts| < 0x8000 && HoldsFreqs(lt, LitFreqs(ts)) && HoldsFreqs(dt, DistFreqs(ts))
    ensures |lt| >= L_CODES && |dt| >= D_CODES
    ensures FreqTotal(lt, L_CODES) + 2 < TWO16 && FreqTotal(dt, D_CODES) + 2 < TWO16
  {
    hide LitFreqs, DistFreqs, FreqTotal;
    HeldTotal(lt, LitFreqs(ts), L_CODES);
    HeldTotal(dt, DistFreqs(ts), D_CODES);
    assert LitFreqs(ts)[..L_CODES] == LitFreqs(ts);
    assert DistFreqs(ts)[..D_CODES] == DistFreqs(ts);
    LitFreqsSum(ts);
    DistFreqsSum(ts);
  }

  method BuildDataTrees(ltree: array<CtData>, dtree: array<CtData>, heap: array<nat>, depth: array<nat>,
                        blCount: array<nat>, ghost ts: seq<Token>)
    returns (lmax: nat, dmax: nat, opt: nat, stat: nat, ghost ll: seq<nat>, ghost dl: seq<nat>)
    requires AllInRange(ts) && |ts| < 0x8000 && HoldsFreqs(ltree[..], LitFreqs(ts))
    requires HoldsFreqs(dtree[..], DistFreqs(ts))
    requires ltree != dtree && heap != depth && heap != blCount && depth != blCount
    requires ltree.Length == 573 && dtree.Length == 61 && heap.Length == 573 && depth.Length == 573
    requires blCount.Length == MAX_BITS + 1
    modifies ltree, dtree, heap, depth, blCount
    ensures DataTrees(ts, ltree[..], dtree[..], ll, lmax, dl, dmax, opt, stat)
  {
    hide HoldsFreqs, LitFreqs, DistFreqs, TreeResult, DescOk, FreqTotal, DataTrees, CodeTree;
    ghost var lt0, dt0 := ltree[..], dtree[..];
    DescsOk();
    TotalsFit(ts, lt0, dt0);
    lmax, opt, stat, ll := BuildTree(ltree, heap, depth, blCount, L_DESC, 0, 0);
    ghost var lt, opt1, stat1 := ltree[..], opt, stat;
    TreeMade(L_DESC, lt0, lt, lmax, ll, 0, 0, opt1, stat1, LitFreqs(ts));
    assert dtree[..] == dt0;
    dmax, opt, stat, dl := BuildTree(dtree, heap, depth, blCount, D_DESC, opt, stat);
    assert ltree[..] == lt;
    DataTreesMade(ts, lt0, lt, dt0, dtree[..], ll, lmax, dl, dmax, opt1, stat1, opt, stat);
  }

  // --- Building the bit length tree ---

  /** Everything flush_block needs to choose and send an encoding: both sizes, less the 3-bit block
      header, are exactly those of the blocks that would be sent. */
  ghost predicate Built(ts: seq<Token>, lt: seq<CtData>, dt: seq<CtData>, bt: seq<CtData>, lit: seq<nat>,
                        dist: seq<nat>, cl: seq<nat>, n: nat, opt: nat, stat: nat)
  {
    && Sendable(lt, dt, bt, lit, dist, cl, n) && DynamicOk(lit, dist, cl, n, ts)
    && Codes(lt, lit, 286) && Codes(dt, dist, 30)
    && opt == |DynamicBits(lit, dist, cl, n, ts)| < 0x220000
    && CoversAll(FIXED_LIT_LENS, FIXED_DIST_LENS, ts)
    && stat == |DataBits(FIXED_LIT_LENS, FIXED_DIST_LENS, ts)| < 0x220000
    && DistForced(ts, dist)
  }

  /** The lengths of a tree as scan_tree sees them. */
  lemma {:induction false} TreeScanned(f: seq<nat>, t: seq<CtData>, lens: seq<nat>, last: nat)
    requires CodeTree(f, t, lens, last, 15) && |lens| < |t|
    ensures last + 1 < |t| && Lens(t[..last + 1]) == lens[..last + 1] && BoundedLens(lens[..last + 1], 15)
    ensures var t' := t[last + 1 := t[last + 1].(dl := GUARD)];
      Guarded(t', lens[..last + 1]) && Codes(t', lens[..last + 1], |t|)
  {
    hide Prefixable, KraftSum, Code;
    var t', pre := t[last + 1 := t[last + 1].(dl := GUARD)], lens[..last + 1];
    assert Lens(t[..last + 1]) == pre;
    assert t'[..last + 1] == t[..last + 1];
  }

  lemma {:induction false} RleSmall(lit: seq<nat>, dist: seq<nat>)
    requires BoundedLens(lit, 15) && BoundedLens(dist, 15) && |lit| <= 286 && |dist| <= 30
    ensures OpsOk(Rle(lit) + Rle(dist)) && |Rle(lit) + Rle(dist)| <= 316
    ensures OpsOk(Rle(lit)) && OpsOk(Rle(dist))
  {
    hide Rle, BoundedLens;
    RleExpands([], lit);
    RleExpands([], dist);
  }

  lemma {:induction false} OpsTotalFits(bt: seq<CtData>, ops: seq<RleOp>)
    requires OpsOk(ops) && HoldsFreqs(bt, OpFreqs(ops)) && |ops| <= 316
    ensures |bt| >= BL_CODES && FreqTotal(bt, BL_CODES) + 2 < TWO16
  {
    hide OpFreqs, FreqTotal;
    HeldTotal(bt, OpFreqs(ops), BL_CODES);
    assert OpFreqs(ops)[..BL_CODES] == OpFreqs(ops);
    OpFreqsSum(ops);
  }

  /** The codes for the trees, once the bit length tree is built. */
  lemma {:induction false} BlTreeMade(bt0: seq<CtData>, bt: seq<CtData>, last: nat, cl: seq<nat>, ops: seq<RleOp>,
                                      opt2: nat, stat2: nat, opt3: nat, stat3: nat)
    requires OpsOk(ops) && |ops| <= 316 && HoldsFreqs(bt0, OpFreqs(ops)) && opt2 < 0x200000 && stat2 < TWO32
    requires TreeResult(BL_DESC, bt0, bt, last, cl, opt2, stat2, opt3, stat3)
    ensures |cl| == 19 && BoundedLens(cl, 7) && LensStored(bt, cl) && CodedAs(bt, cl) && Prefixable(cl, MAX_BITS)
    ensures |bt| >= 19
    ensures CoversOps(cl, ops) && opt3 == opt2 + |OpsBits(cl, ops)| < 0x210000 && stat3 == stat2
  {
    hide TreeResult, HoldsFreqs, OpFreqs, OwnPrice, OpsBits, U32, DescOk, Coded, Prefixable, LensStored, CodedAs,
      BoundedLens, CoversOps;
    DescsOk();
    ResultCoded(BL_DESC, bt0, bt, last, cl, opt2, stat2, opt3, stat3, OpFreqs(ops));
    ResultPrices(BL_DESC, bt0, bt, last, cl, opt2, stat2, opt3, stat3, OpFreqs(ops));
    TreesSize(ops, cl, last, opt2, opt3);
    CodedEnds(OpFreqs(ops), cl, last);
    CodedFull(bt, cl, last + 1);
    BlKraft(bt0, bt, last, cl, opt2, stat2, opt3, stat3);
    U32Small(stat2);
  }

  lemma {:induction false} CodedEnds(f: seq<nat>, lens: seq<nat>, last: nat)
    requires Coded(f, lens, last)
    ensures last < |lens| && forall i :: last + 1 <= i < |lens| ==> lens[i] == 0
  {
  }

  lemma {:induction false} BlKraft(bt0: seq<CtData>, bt: seq<CtData>, last: nat, cl: seq<nat>, opt2: nat, stat2: nat,
                                   opt3: nat, stat3: nat)
    requires TreeResult(BL_DESC, bt0, bt, last, cl, opt2, stat2, opt3, stat3)
    ensures Prefixable(cl, MAX_BITS)
  {
    hide U32, OwnTotal, FixedTotal, KraftSum, Shortest, DescOk, Pow2;
    KraftWiden(cl, 7, 15);
  }

  /** One more symbol at the end of the order is unused. */
  lemma {:induction false} UnsentMore(cl: seq<nat>, n: nat)
    requires Unsent(cl, n) && 1 <= n <= 19
    ensures |CL_ORDER| == 19 && CL_ORDER[n - 1] < 19 && (cl[CL_ORDER[n - 1]] == 0 ==> Unsent(cl, n - 1))
  {
    hide CL_ORDER, RANK;
    RankInverse(n - 1);
    if cl[CL_ORDER[n - 1]] == 0 {
      forall s: nat | s < 19 && RANK[s] >= n - 1
        ensures cl[s] == 0
      {
        RankInverse(s);
      }
    }
  }

  lemma {:induction false} AllSent(cl: seq<nat>)
    requires |cl| == 19
    ensures Unsent(cl, 19)
  {
    hide CL_ORDER, RANK;
    RankInverse(0);
    forall s: nat | s < 19
      ensures RANK[s] < 19
    {
      RankInverse(s);
    }
  }

  lemma {:induction false} OnlyZeros(acc: seq<nat>, ops: seq<RleOp>)
    requires (forall i :: 0 <= i < |acc| ==> acc[i] == 0) && ApplyOps(acc, ops).Some?
    requires forall i :: 0 <= i < |ops| && ops[i].Len? ==> ops[i].len == 0
    ensures forall i :: 0 <= i < |ApplyOps(acc, ops).value| ==> ApplyOps(acc, ops).value[i] == 0
  {
    if ops != [] {
      OnlyZeros(acc, ops[..|ops| - 1]);
    }
  }

  /** A used symbol's length is coded as itself at least once, and that symbol of the code length
      alphabet stands after the first three in the order. */
  lemma {:induction false} FourOrMore(lens: seq<nat>, cl: seq<nat>, last: nat)
    requires BoundedLens(lens, 15) && last < |lens| && lens[last] > 0 && CoversOps(cl, Rle(lens))
    ensures !Unsent(cl, 3)
  {
    hide Rle, ApplyOps, BoundedLens, CL_ORDER;
    RleExpands([], lens);
    assert ([] + lens)[last] > 0;
    var ops := Rle(lens);
    if forall i :: 0 <= i < |ops| && ops[i].Len? ==> ops[i].len == 0 {
      OnlyZeros([], ops);
    } else {
      var i :| 0 <= i < |ops| && ops[i].Len? && ops[i].len > 0;
      assert OpOk(ops[i]);
      LateRank(ops[i].len);
    }
  }

  lemma {:induction false} LateRank(len: nat)
    requires 1 <= len <= 15
    ensures RANK[len] >= 4
  {
  }

  /** Index of the last bit length code to send. */
  method LastToSend(blTree: array<CtData>, ghost cl: seq<nat>) returns (maxBlindex: nat)
    requires |cl| == 19 && LensStored(blTree[..], cl) && !Unsent(cl, 3)
    ensures 3 <= maxBlindex <= 18 && Unsent(cl, maxBlindex + 1) && !Unsent(cl, maxBlindex)
  {
    hide CL_ORDER, RANK, Unsent;
    AllSent(cl);
    maxBlindex := 18;
    while maxBlindex >= 3
      invariant 2 <= maxBlindex <= 18 && Unsent(cl, maxBlindex + 1)
    {
      UnsentMore(cl, maxBlindex + 1);
      if blTree[CL_ORDER[maxBlindex]].dl != 0 {
        StillSent(cl, maxBlindex);
        break;
      }
      maxBlindex := maxBlindex - 1;
    }
  }

  lemma {:induction false} StillSent(cl: seq<nat>, n: nat)
    requires |cl| == 19 && n < 19 && |CL_ORDER| == 19 && CL_ORDER[n] < 19 && cl[CL_ORDER[n]] != 0
    ensures !Unsent(cl, n)
  {
    hide CL_ORDER, RANK;
    RankInverse(n);
  }

  /** The size of a dynamic block is the sum of its parts. */
  lemma {:induction false} DynamicSize(lit: seq<nat>, dist: seq<nat>, cl: seq<nat>, n: nat, ts: seq<Token>, opt2: nat,
                                       opt3: nat)
    requires DynamicOk(lit, dist, cl, n, ts) && OpsOk(Rle(lit) + Rle(dist)) && |cl| == 19
    requires opt2 == |DataBits(lit, dist, ts)| && opt3 == opt2 + |OpsBits(cl, Rle(lit) + Rle(dist))|
    ensures opt3 + 3 * n + 14 == |DynamicBits(lit, dist, cl, n, ts)|
  {
    hide Rle, OpsBits, DataBits, CountBits, ClBits, CoversAll, Prefixable, BoundedLens, Unsent;
    CoversOk(cl, Rle(lit));
    CoversOk(cl, Rle(dist));
    OpsBitsConcat(cl, Rle(lit), Rle(dist));
  }

  lemma {:induction false} BuiltMade(ts: seq<Token>, lt: seq<CtData>, dt: seq<CtData>, bt: seq<CtData>,
                                     ll: seq<nat>, lmax: nat, dl: seq<nat>, dmax: nat, cl: seq<nat>, n: nat,
                                     lt2: seq<CtData>, dt2: seq<CtData>, opt2: nat, opt3: nat, stat: nat)
    requires DataTrees(ts, lt, dt, ll, lmax, dl, dmax, opt2, stat) && |lt| == 573 && |dt| == 61
    requires lmax + 1 < |lt| && lt2 == lt[lmax + 1 := lt[lmax + 1].(dl := GUARD)]
    requires dmax + 1 < |dt| && dt2 == dt[dmax + 1 := dt[dmax + 1].(dl := GUARD)]
    requires lmax < |ll| && dmax < |dl| && OpsOk(Rle(ll[..lmax + 1]) + Rle(dl[..dmax + 1]))
    requires CoversOps(cl, Rle(ll[..lmax + 1]) + Rle(dl[..dmax + 1]))
    requires |cl| == 19 && BoundedLens(cl, 7) && CodedAs(bt, cl) && Prefixable(cl, MAX_BITS) && |bt| >= 19
    requires opt3 == opt2 + |OpsBits(cl, Rle(ll[..lmax + 1]) + Rle(dl[..dmax + 1]))| < 0x210000
    requires 4 <= n <= 19 && Unsent(cl, n)
    ensures Built(ts, lt2, dt2, bt, ll[..lmax + 1], dl[..dmax + 1], cl, n, opt3 + 3 * n + 14, stat)
  {
    hide Rle, OpsBits, DataBits, DynamicBits, CoversAll, CoversOps, OpsOk, Prefixable, BoundedLens, Unsent, LitFreqs,
      DistFreqs, CodedAs, Guarded, Codes, LensStored, DistForced;
    var lit, dist := ll[..lmax + 1], dl[..dmax + 1];
    CodesCover(ts, ll, lmax, dl, dmax);
    TreeScanned(LitFreqs(ts), lt, ll, lmax);
    TreeScanned(DistFreqs(ts), dt, dl, dmax);
    OpsParts(cl, Rle(lit), Rle(dist));
    CodesMade(bt, cl, 19);
    CodesFacts(lt2, lit, |lt|);
    CodesFacts(dt2, dist, |dt|);
    CodesMade(lt2, lit, 286);
    CodesMade(dt2, dist, 30);
    DynamicSize(lit, dist, cl, n, ts, opt2, opt3);
  }

  lemma {:induction false} CodesMade(t: seq<CtData>, lens: seq<nat>, size: nat)
    requires CodedAs(t, lens) && Prefixable(lens, MAX_BITS) && |t| >= size
    ensures Codes(t, lens, size)
  {
  }

  method BuildBlTree(ltree: array<CtData>, dtree: array<CtData>, blTree: array<CtData>, heap: array<nat>,
                     depth: array<nat>, blCount: array<nat>, lmax: nat, dmax: nat, optLen: nat, staticLen: nat,
                     ghost ts: seq<Token>, ghost ll: seq<nat>, ghost dl: seq<nat>)
    returns (maxBlindex: nat, opt: nat, stat: nat, ghost cl: seq<nat>)
    requires DataTrees(ts, ltree[..], dtree[..], ll, lmax, dl, dmax, optLen, staticLen)
    requires HoldsFreqs(blTree[..], Repeat(0, BL_CODES))
    requires ltree != dtree && ltree != blTree && dtree != blTree && heap != depth && heap != blCount
    requires depth != blCount
    requires ltree.Length == 573 && dtree.Length == 61 && blTree.Length == 39
    requires heap.Length == 573 && depth.Length == 573 && blCount.Length == MAX_BITS + 1
    modifies ltree, dtree, blTree, heap, depth, blCount
    ensures lmax < |ll| && dmax < |dl|
    ensures Built(ts, ltree[..], dtree[..], blTree[..], ll[..lmax + 1], dl[..dmax + 1], cl, maxBlindex + 1, opt, stat)
  {
    hide DataTrees, HoldsFreqs, TreeResult, Built, DescOk, FreqTotal, OpFreqs, Tallied, Rle, OpsOk, CoversOps, OpsBits,
      LensStored, CodedAs, Prefixable, BoundedLens, Unsent, Repeat;
    ghost var lt, dt, bt0 := ltree[..], dtree[..], blTree[..];
    DataTreesScanned(ts, lt, dt, ll, lmax, dl, dmax, optLen, staticLen);
    ghost var lit, dist := ll[..lmax + 1], dl[..dmax + 1];
    assert ltree[..lmax + 1] == lt[..lmax + 1];
    ScanTree(ltree, lmax, blTree);
    ghost var bt1, lt2 := blTree[..], ltree[..];
    assert dtree[..] == dt;
    assert dtree[..dmax + 1] == dt[..dmax + 1];
    ScanTree(dtree, dmax, blTree);
    ghost var bt2, dt2 := blTree[..], dtree[..];
    assert ltree[..] == lt2;
    ghost var ops := Rle(lit) + Rle(dist);
    RleSmall(lit, dist);
    ScannedFreqs(bt0, bt1, bt2, Rle(lit), Rle(dist));
    OpsTotalFits(bt2, ops);
    DescsOk();
    var last;
    last, opt, stat, cl := BuildTree(blTree, heap, depth, blCount, BL_DESC, optLen, staticLen);
    assert ltree[..] == lt2 && dtree[..] == dt2;
    BlTreeMade(bt2, blTree[..], last, cl, ops, optLen, staticLen, opt, stat);
    OpsParts(cl, Rle(lit), Rle(dist));
    FourOrMore(lit, cl, lmax);
    maxBlindex := LastToSend(blTree, cl);
    BuiltMade(ts, lt, dt, blTree[..], ll, lmax, dl, dmax, cl, maxBlindex + 1, lt2, dt2, optLen, opt, staticLen);
    opt := opt + 3 * (maxBlindex + 1) + 5 + 5 + 4;
  }

  lemma {:induction false} DataTreesScanned(ts: seq<Token>, lt: seq<CtData>, dt: seq<CtData>, ll: seq<nat>, lmax: nat,
                                            dl: seq<nat>, dmax: nat, opt: nat, stat: nat)
    requires DataTrees(ts, lt, dt, ll, lmax, dl, dmax, opt, stat) && |lt| == 573 && |dt| == 61
    ensures lmax < |ll| == 286 && dmax < |dl| == 30 && ll[lmax] > 0 && opt < 0x200000 && stat < 0x200000
    ensures Lens(lt[..lmax + 1]) == ll[..lmax + 1] && BoundedLens(ll[..lmax + 1], 15)
    ensures Lens(dt[..dmax + 1]) == dl[..dmax + 1] && BoundedLens(dl[..dmax + 1], 15)
  {
    hide DataBits, CoversAll, Prefixable, LitFreqs, DistFreqs, CodedAs, LensStored, BoundedLens, DistForced;
    TreeScanned(LitFreqs(ts), lt, ll, lmax);
    TreeScanned(DistFreqs(ts), dt, dl, dmax);
  }
}
