/** Frequencies of the symbols of a block, and the number of bits that its codes will take. */
module BlockCost {
  import opened Bits
  import opened Options
  import opened CanonicalCode
  import opened Inflate
  import opened Tokens
  import opened Tables
  import opened TreeRle
  import opened BitLengths
  import opened GenBitlen
  import opened HuffmanBuild

  const L_CODES: nat := 286
  const D_CODES: nat := 30
  const BL_CODES: nat := 19

  const L_DESC := TreeDesc(L_CODES, 15, EXTRA_LBITS, 257, Some(FIXED_LIT_LENS))
  const D_DESC := TreeDesc(D_CODES, 15, EXTRA_DBITS, 0, Some(FIXED_DIST_LENS))
  const BL_DESC := TreeDesc(BL_CODES, 7, EXTRA_BLBITS, 0, None)

  lemma {:induction false} DescsOk()
    ensures DescOk(L_DESC) && DescOk(D_DESC) && DescOk(BL_DESC)
  {
    hide Repeat;
    assert Pow2(7) == 128;
    assert Pow2(15) == 32768;
  }

  // --- Frequencies ---

  function Bumped(freq: seq<nat>, s: nat): (r: seq<nat>)
    requires s < |freq|
    ensures |r| == |freq|
  {
    freq[s := freq[s] + 1]
  }

  /** How often each literal/length symbol occurs; the end of the block occurs once. */
  ghost function LitFreqs(ts: seq<Token>): (f: seq<nat>)
    requires AllInRange(ts)
    ensures |f| == L_CODES
  {
    if ts == [] then Repeat(0, L_CODES)[END_BLOCK := 1]
    else Bumped(LitFreqs(ts[..|ts| - 1]), LitSymbol(ts[|ts| - 1]))
  }

  ghost function DistFreqs(ts: seq<Token>): (f: seq<nat>)
    requires AllInRange(ts)
    ensures |f| == D_CODES
  {
    if ts == [] then Repeat(0, D_CODES)
    else
      var f, t := DistFreqs(ts[..|ts| - 1]), ts[|ts| - 1];
      if t.Match? then Bumped(f, DistCode(t.distance)) else f
  }

  lemma {:induction false} FreqsMore(ts: seq<Token>, t: Token)
    requires AllInRange(ts) && InRange(t)
    ensures AllInRange(ts + [t]) && LitFreqs(ts + [t]) == Bumped(LitFreqs(ts), LitSymbol(t))
    ensures DistFreqs(ts + [t]) == if t.Match? then Bumped(DistFreqs(ts), DistCode(t.distance)) else DistFreqs(ts)
  {
    assert (ts + [t])[..|ts|] == ts;
  }

  function Sum(f: seq<nat>): nat {
    if f == [] then 0 else Sum(f[..|f| - 1]) + f[|f| - 1]
  }

  lemma {:induction false} SumBumped(f: seq<nat>, s: nat)
    requires s < |f|
    ensures Sum(Bumped(f, s)) == Sum(f) + 1
  {
    var k := |f| - 1;
    if s < k {
      assert Bumped(f, s)[..k] == Bumped(f[..k], s);
      SumBumped(f[..k], s);
    } else {
      assert Bumped(f, s)[..k] == f[..k];
    }
  }

  lemma {:induction false} SumZeros(n: nat)
    ensures Sum(Repeat(0, n)) == 0
  {
    if n > 0 {
      assert Repeat<nat>(0, n)[..n - 1] == Repeat<nat>(0, n - 1);
      SumZeros(n - 1);
    }
  }

  /** One symbol of each token, and the end of the block. */
  lemma {:induction false} LitFreqsSum(ts: seq<Token>)
    requires AllInRange(ts)
    ensures Sum(LitFreqs(ts)) == |ts| + 1
  {
    hide Sum, LitSymbol;
    if ts == [] {
      SumZeros(L_CODES);
      SumBumped(Repeat(0, L_CODES), END_BLOCK);
    } else {
      LitFreqsSum(ts[..|ts| - 1]);
      SumBumped(LitFreqs(ts[..|ts| - 1]), LitSymbol(ts[|ts| - 1]));
    }
  }

  lemma {:induction false} DistFreqsSum(ts: seq<Token>)
    requires AllInRange(ts)
    ensures Sum(DistFreqs(ts)) <= |ts|
  {
    hide Sum;
    if ts == [] {
      SumZeros(D_CODES);
    } else {
      DistFreqsSum(ts[..|ts| - 1]);
      if ts[|ts| - 1].Match? {
        SumBumped(DistFreqs(ts[..|ts| - 1]), DistCode(ts[|ts| - 1].distance));
      }
    }
  }

  /** The first elements of the tree hold these frequencies. */
  ghost predicate HoldsFreqs(tree: seq<CtData>, f: seq<nat>) {
    |f| <= |tree| && forall s :: 0 <= s < |f| ==> tree[s].fc == f[s]
  }

  lemma {:induction false} HoldsBumped(tree: seq<CtData>, f: seq<nat>, s: nat)
    requires HoldsFreqs(tree, f) && s < |f|
    ensures s < |tree| && HoldsFreqs(tree[s := tree[s].(fc := tree[s].fc + 1)], Bumped(f, s))
  {
  }

  lemma {:induction false} HeldTotal(tree: seq<CtData>, f: seq<nat>, n: nat)
    requires HoldsFreqs(tree, f) && n <= |f|
    ensures FreqTotal(tree, n) == Sum(f[..n])
  {
    if n > 0 {
      assert f[..n][..n - 1] == f[..n - 1];
      HeldTotal(tree, f, n - 1);
    }
  }

  // --- Size of the data ---

  lemma {:induction false} OwnPriceBumped(freq: seq<nat>, s: nat, lens: seq<nat>, extra: seq<nat>, n: nat)
    requires n <= |freq| && n <= |lens| && n <= |extra| && s < |freq|
    ensures OwnPrice(Bumped(freq, s), lens, extra, n)
         == OwnPrice(freq, lens, extra, n) + if s < n && lens[s] > 0 then lens[s] + extra[s] else 0
  {
    if n > 0 {
      OwnPriceBumped(freq, s, lens, extra, n - 1);
      if s == n - 1 {
        PriceOneMore(freq[s], lens[s], extra[s]);
      }
    }
  }

  lemma {:induction false} PriceOneMore(f: nat, len: nat, extra: nat)
    ensures Price(f + 1, len, extra) == Price(f, len, extra) + len + extra
  {
  }

  lemma {:induction false} OwnPriceNone(n: nat, m: nat, lens: seq<nat>, extra: seq<nat>)
    requires n <= m && n <= |lens| && n <= |extra|
    ensures OwnPrice(Repeat(0, m), lens, extra, n) == 0
  {
    if n > 0 {
      OwnPriceNone(n - 1, m, lens, extra);
    }
  }

  /** Codes for all symbols of the tokens, given as prefixes of length vectors over the whole alphabets. */
  ghost predicate SizesOk(lit: seq<nat>, dist: seq<nat>, ll: seq<nat>, dl: seq<nat>, ts: seq<Token>) {
    && CoversAll(lit, dist, ts)
    && (forall s :: 0 <= s < |lit| && s < |ll| ==> ll[s] == lit[s]) && |ll| >= L_CODES
    && (forall c :: 0 <= c < |dist| && c < |dl| ==> dl[c] == dist[c]) && |dl| >= D_CODES
  }

  /** Extra bits of the two alphabets. */
  ghost predicate ExtrasOk(lx: seq<nat>, dx: seq<nat>) {
    && |lx| >= L_CODES && |dx| >= D_CODES
    && (forall s :: 0 <= s < L_CODES ==> lx[s] == if s < 257 then 0 else LengthExtra(s - 257))
    && (forall c :: 0 <= c < D_CODES ==> dx[c] == DistExtra(c))
  }

  lemma {:induction false} TokenSize(lit: seq<nat>, dist: seq<nat>, ll: seq<nat>, dl: seq<nat>, lx: seq<nat>,
                                     dx: seq<nat>, t: Token)
    requires ExtrasOk(lx, dx) && SizesOk(lit, dist, ll, dl, [t])
    requires Covers(lit, dist, t)
    ensures var s := LitSymbol(t);
      && ll[s] > 0 && (t.Match? ==> dl[DistCode(t.distance)] > 0)
      && |TokenBits(lit, dist, t)| == ll[s] + lx[s]
           + if t.Match? then dl[DistCode(t.distance)] + dx[DistCode(t.distance)] else 0
  {
  }

  /** The codes of the data take exactly the price of the frequencies. */
  lemma {:induction false} DataSize(lit: seq<nat>, dist: seq<nat>, ll: seq<nat>, dl: seq<nat>, lx: seq<nat>,
                                    dx: seq<nat>, ts: seq<Token>)
    requires ExtrasOk(lx, dx) && SizesOk(lit, dist, ll, dl, ts) && AllInRange(ts)
    ensures |DataBits(lit, dist, ts)|
         == OwnPrice(LitFreqs(ts), ll, lx, L_CODES) + OwnPrice(DistFreqs(ts), dl, dx, D_CODES)
  {
    hide OwnPrice, LitSymbol, TokenBits, Covers, CodeWord;
    if ts == [] {
      OwnPriceNone(L_CODES, L_CODES, ll, lx);
      OwnPriceNone(D_CODES, D_CODES, dl, dx);
      OwnPriceBumped(Repeat(0, L_CODES), END_BLOCK, ll, lx, L_CODES);
    } else {
      var init, t := ts[..|ts| - 1], ts[|ts| - 1];
      DataSize(lit, dist, ll, dl, lx, dx, init);
      TokenSize(lit, dist, ll, dl, lx, dx, t);
      OwnPriceBumped(LitFreqs(init), LitSymbol(t), ll, lx, L_CODES);
      if t.Match? {
        OwnPriceBumped(DistFreqs(init), DistCode(t.distance), dl, dx, D_CODES);
      }
    }
  }

  lemma {:induction false} FixedIsOwn(freq: seq<nat>, lens: seq<nat>, fixed: seq<nat>, extra: seq<nat>, n: nat)
    requires n <= |freq| && n <= |lens| && n <= |fixed| && n <= |extra|
    requires forall i :: 0 <= i < n ==> fixed[i] > 0 && (freq[i] > 0 ==> lens[i] > 0)
    ensures FixedPrice(freq, lens, fixed, extra, n) == OwnPrice(freq, fixed, extra, n)
  {
    if n > 0 {
      FixedIsOwn(freq, lens, fixed, extra, n - 1);
      if freq[n - 1] == 0 {
        PriceNone(fixed[n - 1], extra[n - 1]);
      }
    }
  }

  lemma {:induction false} PriceNone(len: nat, extra: nat)
    ensures Price(0, len, extra) == 0
  {
  }

  lemma {:induction false} ExtrasAre()
    requires DescOk(L_DESC) && DescOk(D_DESC)
    ensures ExtrasOk(Extras(L_DESC), Extras(D_DESC))
  {
    forall s | 0 <= s < L_CODES
      ensures Extras(L_DESC)[s] == if s < 257 then 0 else LengthExtra(s - 257)
    {
      if s >= 257 {
        ExtraLengthBits(s - 257);
      }
    }
    forall c | 0 <= c < D_CODES
      ensures Extras(D_DESC)[c] == DistExtra(c)
    {
      ExtraDistBits(c);
    }
  }

  // --- Size of the coded trees ---

  function OpFreqs(ops: seq<RleOp>): (f: seq<nat>)
    requires forall i :: 0 <= i < |ops| ==> OpOk(ops[i])
    ensures |f| == BL_CODES
  {
    if ops == [] then Repeat(0, BL_CODES) else Bumped(OpFreqs(ops[..|ops| - 1]), Sym(ops[|ops| - 1]))
  }

  lemma {:induction false} OpFreqsTally(ops: seq<RleOp>, s: nat)
    requires OpsOk(ops) && s < BL_CODES
    ensures OpFreqs(ops)[s] == Tally(ops, s)
  {
    if ops != [] {
      OpFreqsTally(ops[..|ops| - 1], s);
    }
  }

  lemma {:induction false} OpFreqsSum(ops: seq<RleOp>)
    requires OpsOk(ops)
    ensures Sum(OpFreqs(ops)) == |ops|
  {
    hide Sum;
    if ops == [] {
      SumZeros(BL_CODES);
    } else {
      OpFreqsSum(ops[..|ops| - 1]);
      SumBumped(OpFreqs(ops[..|ops| - 1]), Sym(ops[|ops| - 1]));
    }
  }

  lemma {:induction false} ExtraBlBits(s: nat)
    requires s < BL_CODES
    ensures EXTRA_BLBITS[s] == ExtraWidth(s)
  {
  }

  /** The codes of the trees take exactly the price of the symbols counted by scan_tree. */
  lemma {:induction false} OpsSize(cl: seq<nat>, ops: seq<RleOp>, extra: seq<nat>)
    requires CoversOps(cl, ops) && |cl| == BL_CODES && OpsOk(ops)
    requires |extra| == BL_CODES && forall s :: 0 <= s < BL_CODES ==> extra[s] == ExtraWidth(s)
    ensures |OpsBits(cl, ops)| == OwnPrice(OpFreqs(ops), cl, extra, BL_CODES)
  {
    hide OwnPrice, OpBits;
    if ops == [] {
      OwnPriceNone(BL_CODES, BL_CODES, cl, extra);
    } else {
      var init, op := ops[..|ops| - 1], ops[|ops| - 1];
      OpsSize(cl, init, extra);
      OwnPriceBumped(OpFreqs(init), Sym(op), cl, extra, BL_CODES);
    }
  }

  // --- No total reaches 2^32 ---

  lemma {:induction false} OwnPriceBound(freq: seq<nat>, lens: seq<nat>, extra: seq<nat>, n: nat, most: nat)
    requires n <= |freq| && n <= |lens| && n <= |extra| && forall i :: 0 <= i < n ==> lens[i] + extra[i] <= most
    ensures OwnPrice(freq, lens, extra, n) <= Sum(freq[..n]) * most
  {
    if n > 0 {
      assert freq[..n][..n - 1] == freq[..n - 1];
      OwnPriceBound(freq, lens, extra, n - 1, most);
      PriceBound(freq[n - 1], lens[n - 1], extra[n - 1], most, Sum(freq[..n - 1]));
    }
  }

  lemma {:induction false} PriceBound(f: nat, len: nat, extra: nat, most: nat, before: nat)
    requires len + extra <= most
    ensures before * most + Price(f, len, extra) <= (before + f) * most
  {
    assert f * (len + extra) <= f * most;
    assert (before + f) * most == before * most + f * most;
  }
}
