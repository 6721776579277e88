/** The state of the block coder between blocks, and its two operations: ct_tally and flush_block. */
module BlockCoder {
  import opened Bits
  import opened Options
  import opened CanonicalCode
  import opened Inflate
  import opened Tokens
  import opened Tables
  import opened TokenLog
  import opened TreeRle
  import opened DynamicBlock
  import opened StaticTrees
  import opened BlockCost
  import opened BlockSender
  import opened BlockTrees
  import opened Blocks
  import W = BitWriter

  /** The token that ct_tally records: a literal when the distance is 0. */
  function TokenOf(dist: nat, lc: nat): (t: Token)
    requires dist == 0 ==> lc < 256
  {
    if dist == 0 then Literal(lc) else Match(lc + MIN_MATCH, dist)
  }

  ghost predicate FreqsOk(ts: seq<Token>, lt: seq<CtData>, dt: seq<CtData>, bt: seq<CtData>) {
    AllInRange(ts) && HoldsFreqs(lt, LitFreqs(ts)) && HoldsFreqs(dt, DistFreqs(ts))
      && HoldsFreqs(bt, Repeat(0, BL_CODES))
  }

  lemma {:induction false} FreqsTallied(ts: seq<Token>, t: Token, lt: seq<CtData>, dt: seq<CtData>, bt: seq<CtData>)
    requires FreqsOk(ts, lt, dt, bt) && InRange(t)
    ensures var s := LitSymbol(t);
      && s < 286 <= |lt| && (t.Match? ==> DistCode(t.distance) < 30) && 30 <= |dt|
      && FreqsOk(ts + [t], lt[s := lt[s].(fc := lt[s].fc + 1)],
                 if t.Match? then dt[DistCode(t.distance) :=
                     dt[DistCode(t.distance)].(fc := dt[DistCode(t.distance)].fc + 1)] else dt, bt)
  {
    hide HoldsFreqs, LitFreqs, DistFreqs, LitSymbol;
    FreqsMore(ts, t);
    HoldsBumped(lt, LitFreqs(ts), LitSymbol(t));
    HoldsSize(lt, LitFreqs(ts));
    HoldsSize(dt, DistFreqs(ts));
    if t.Match? {
      HoldsBumped(dt, DistFreqs(ts), DistCode(t.distance));
    }
  }

  lemma {:induction false} HoldsSize(t: seq<CtData>, f: seq<nat>)
    requires HoldsFreqs(t, f)
    ensures |f| <= |t|
  {
  }

  /** Bits that the first n distance codes may take, at five bits each. */
  function DistEstimate(t: seq<CtData>, n: nat): nat
    requires n <= 30 <= |t|
  {
    if n == 0 then 0 else DistEstimate(t, n - 1) + t[n - 1].fc * (5 + EXTRA_DBITS[n - 1])
  }

  /** An upper bound for the compressed length. */
  method OutLength(t: array<CtData>, lastLit: nat) returns (n: nat)
    requires t.Length >= 30
    ensures n == (lastLit * 8 + DistEstimate(t[..], 30)) / 8
  {
    n := lastLit * 8;
    for dcode := 0 to 30
      invariant n == lastLit * 8 + DistEstimate(t[..], dcode)
    {
      n := n + t[dcode].fc * (5 + EXTRA_DBITS[dcode]);
    }
    n := n / 8;
  }

  /** Every 4096 tokens: few matches, yet an estimated output of less than half the input. */
  predicate WorthEnding(lastLit: nat, lastDist: nat, t: seq<CtData>, inLength: int)
    requires |t| >= 30
  {
    lastLit % 0x1000 == 0 && lastDist < lastLit / 2 && (lastLit * 8 + DistEstimate(t, 30)) / 8 < inLength / 2
  }


  class Coder {
    const litBufsize: nat
    const distBufsize: nat
    const dynLtree: array<CtData>
    const dynDtree: array<CtData>
    const blTree: array<CtData>
    const staticLtree: array<CtData>
    const staticDtree: array<CtData>
    const heap: array<nat>
    const depth: array<nat>
    const blCount: array<nat>
    const lBuf: array<nat>
    const dBuf: array<nat>
    const flagBuf: array<nat>
    const tables: CodeTables
    var lastLit: nat
    var lastDist: nat
    var lastFlags: nat
    var flags: nat
    var flagBit: nat
    ghost var tokens: seq<Token>

    ghost predicate Shape() {
      && 8 <= litBufsize <= 0x8000 && litBufsize % 8 == 0 && 1 <= distBufsize
      && dynLtree.Length == 573 && dynDtree.Length == 61 && blTree.Length == 39 && staticLtree.Length == 288
      && staticDtree.Length == 30
      && heap.Length == 573 && depth.Length == 573 && blCount.Length == MAX_BITS + 1
      && lBuf.Length >= litBufsize && dBuf.Length >= distBufsize && flagBuf.Length == litBufsize / 8
      && dynLtree != dynDtree && dynLtree != blTree && dynDtree != blTree
      && staticLtree != dynLtree && staticLtree != dynDtree && staticLtree != blTree
      && staticDtree != dynLtree && staticDtree != dynDtree && staticDtree != blTree && staticDtree != staticLtree
      && heap != depth && heap != blCount && depth != blCount
      && lBuf != dBuf && lBuf != flagBuf && dBuf != flagBuf
      && lBuf != heap && lBuf != depth && lBuf != blCount && dBuf != heap && dBuf != depth && dBuf != blCount
      && flagBuf != heap && flagBuf != depth && flagBuf != blCount
    }

    /** An array that is none of the coder's. */
    ghost predicate Apart(o: object) {
      && o != dynLtree && o != dynDtree && o != blTree && o != staticLtree && o != staticDtree
      && o != heap && o != depth && o != blCount && o != lBuf && o != dBuf && o != flagBuf
    }

    ghost predicate StaticsOk()
      reads staticLtree, staticDtree
    {
      CodedAs(staticLtree[..], FIXED_LIT_LENS) && CodedAs(staticDtree[..], FIXED_DIST_LENS)
    }

    ghost predicate LogOk()
      reads this, lBuf, dBuf, flagBuf
    {
      Logged(tokens, lBuf[..], dBuf[..], flagBuf[..], lastLit, lastDist, lastFlags, flags, flagBit)
    }

    ghost predicate Valid()
      reads this, dynLtree, dynDtree, blTree, staticLtree, staticDtree, lBuf, dBuf, flagBuf
    {
      && Shape() && TablesOk(tables) && StaticsOk() && LogOk()
      && FreqsOk(tokens, dynLtree[..], dynDtree[..], blTree[..])
      && lastLit < litBufsize && lastDist <= distBufsize
    }

    /** There is room for another token: the last one did not ask for a flush. */
    ghost predicate HasRoom()
      reads this
    {
      lastLit + 1 < litBufsize && lastDist < distBufsize
    }

    /** ct_init. */
    constructor (litBufsize: nat, distBufsize: nat, lBufSize: nat)
      requires 8 <= litBufsize <= 0x8000 && litBufsize % 8 == 0 && 1 <= distBufsize && litBufsize <= lBufSize
      ensures Valid() && tokens == [] && HasRoom()
      ensures fresh(dynLtree) && fresh(dynDtree) && fresh(blTree) && fresh(staticLtree) && fresh(staticDtree)
      ensures fresh(heap)
      ensures fresh(depth) && fresh(blCount) && fresh(lBuf) && fresh(dBuf) && fresh(flagBuf)
      ensures this.litBufsize == litBufsize && this.distBufsize == distBufsize
    {
      hide TablesOk, CodedAs, Logged, FreqsOk, FIXED_LIT_LENS, FIXED_DIST_LENS;
      var x := MakeTables();
      var sl, sd, counts := MakeStatics();
      this.litBufsize, this.distBufsize, tables := litBufsize, distBufsize, x;
      blCount, staticLtree, staticDtree := counts, sl, sd;
      dynLtree, dynDtree, blTree := new CtData[573](_ => CtData(0, 0)), new CtData[61](_ => CtData(0, 0)),
        new CtData[39](_ => CtData(0, 0));
      heap, depth := new nat[573], new nat[573];
      lBuf, dBuf, flagBuf := new nat[lBufSize], new nat[distBufsize], new nat[litBufsize / 8];
      new;
      InitBlock();
    }

    /** init_block. */
    method InitBlock()
      requires Shape() && TablesOk(tables) && StaticsOk()
      modifies this, dynLtree, dynDtree, blTree
      ensures Valid() && tokens == [] && HasRoom()
    {
      hide TablesOk, StaticsOk, FreqsOk, Logged;
      ClearFreqs(dynLtree, 286);
      dynLtree[END_BLOCK] := dynLtree[END_BLOCK].(fc := 1);
      ClearFreqs(dynDtree, 30);
      ClearFreqs(blTree, 19);
      lastLit, lastDist, lastFlags, flags, flagBit := 0, 0, 0, 0, 1;
      tokens := [];
      NoTokens(dynLtree[..], dynDtree[..], blTree[..]);
      LoggedEmpty(lBuf[..], dBuf[..], flagBuf[..]);
    }

    /** The frequencies of a token's symbols. */
    method Count(dist: nat, lc: nat, ghost t: Token)
      requires Shape() && TablesOk(tables) && FreqsOk(tokens, dynLtree[..], dynDtree[..], blTree[..])
      requires lc < 256 && dist <= 0x8000 && t == TokenOf(dist, lc)
      modifies dynLtree, dynDtree
      ensures FreqsOk(tokens + [t], dynLtree[..], dynDtree[..], blTree[..])
    {
      hide FreqsOk, TablesOk, LitSymbol, DistInCode, LengthInCode;
      ghost var lt, dt, bt := dynLtree[..], dynDtree[..], blTree[..];
      FreqsTallied(tokens, t, lt, dt, bt);
      SymbolOf(tables, t);
      if dist == 0 {
        dynLtree[lc] := dynLtree[lc].(fc := dynLtree[lc].fc + 1);
        assert dynLtree[..] == lt[lc := lt[lc].(fc := lt[lc].fc + 1)];
      } else {
        var s, c := tables.lengthCode[lc] + 257, DCode(tables.distCode, dist - 1);
        dynLtree[s] := dynLtree[s].(fc := dynLtree[s].fc + 1);
        dynDtree[c] := dynDtree[c].(fc := dynDtree[c].fc + 1);
        assert dynLtree[..] == lt[s := lt[s].(fc := lt[s].fc + 1)];
        assert dynDtree[..] == dt[c := dt[c].(fc := dt[c].fc + 1)];
      }
      assert blTree[..] == bt;
    }

    /** The buffers of a token. */
    method Record(dist: nat, lc: nat, ghost t: Token)
      requires Shape() && LogOk() && lastLit + 1 < litBufsize && lastDist < distBufsize
      requires lc < 256 && dist <= 0x8000 && t == TokenOf(dist, lc)
      modifies this, lBuf, dBuf, flagBuf
      ensures LogOk() && tokens == old(tokens) + [t]
      ensures lastLit == old(lastLit) + 1 && lastDist <= old(lastDist) + 1
    {
      hide Logged, Or, HalfLogged;
      ghost var lb, db, fb := lBuf[..], dBuf[..], flagBuf[..];
      LogRoom(tokens, lb, db, fb, lastLit, lastDist, lastFlags, flags, flagBit, litBufsize);
      HalfWay(tokens, dist, lc, lb, db, fb, lastLit, lastDist, lastFlags, flags, flagBit);
      lBuf[lastLit] := lc;
      assert lBuf[..] == lb[lastLit := lc] && dBuf[..] == db && flagBuf[..] == fb;
      ghost var lb' := lBuf[..];
      lastLit := lastLit + 1;
      if dist != 0 {
        var d: nat := dist - 1;
        dBuf[lastDist] := d;
        assert dBuf[..] == db[lastDist := d] && lBuf[..] == lb' && flagBuf[..] == fb;
        lastDist := lastDist + 1;
        flags := Or(flags, flagBit);
      }
      tokens := tokens + [t];
      SaveFlags();
    }

    /** Outputs the flags if they fill a byte. */
    method SaveFlags()
      requires Shape() && lastFlags < flagBuf.Length
      requires HalfLogged(tokens, lBuf[..], dBuf[..], flagBuf[..], lastLit, lastDist, lastFlags, flags, flagBit)
      modifies `lastFlags, `flags, `flagBit, flagBuf
      ensures LogOk()
    {
      hide Logged;
      ghost var lb, db, fb := lBuf[..], dBuf[..], flagBuf[..];
      flagBit := flagBit * 2 % 256;
      if lastLit % 8 == 0 {
        flagBuf[lastFlags] := flags;
        assert flagBuf[..] == fb[lastFlags := flags] && lBuf[..] == lb && dBuf[..] == db;
        lastFlags := lastFlags + 1;
        flags := 0;
        flagBit := 1;
      }
    }

    /** ct_tally: saves a match or a literal, and tells whether the block must be flushed. */
    method Tally(dist: nat, lc: nat, strstart: nat, blockStart: int) returns (full: bool)
      requires Valid() && HasRoom() && lc < 256 && dist <= 0x8000
      modifies this, dynLtree, dynDtree, lBuf, dBuf, flagBuf
      ensures Valid() && tokens == old(tokens) + [TokenOf(dist, lc)]
      ensures !full ==> HasRoom()
      ensures dynDtree.Length >= 30
           && (full <==> lastLit == litBufsize - 1 || lastDist == distBufsize
                         || WorthEnding(lastLit, lastDist, dynDtree[..], strstart - blockStart))
    {
      hide TablesOk, StaticsOk, FreqsOk, LogOk, DistEstimate;
      ghost var t := TokenOf(dist, lc);
      Count(dist, lc, t);
      Record(dist, lc, t);
      if lastLit % 0x1000 == 0 {
        var outLength := OutLength(dynDtree, lastLit);
        var inLength: int := strstart - blockStart;
        if lastDist < lastLit / 2 && outLength < inLength / 2 {
          return true;
        }
      }
      return lastLit == litBufsize - 1 || lastDist == distBufsize;
    }

    /** The first part of flush_block: saves the last flags and builds the trees. */
    method Prepare() returns (lmax: nat, dmax: nat, maxBlindex: nat, opt: nat, stat: nat,
                              ghost lit: seq<nat>, ghost dist: seq<nat>, ghost cl: seq<nat>)
      requires Valid()
      modifies dynLtree, dynDtree, blTree, heap, depth, blCount, flagBuf
      ensures StaticsOk() && Readable(tokens, lBuf[..], dBuf[..], flagBuf[..]) && lastLit == |tokens|
      ensures Built(tokens, dynLtree[..], dynDtree[..], blTree[..], lit, dist, cl, maxBlindex + 1, opt, stat)
      ensures |lit| == lmax + 1 && |dist| == dmax + 1
    {
      hide TablesOk, FreqsOk, Logged, Readable, DataTrees, Built, CodedAs, HoldsFreqs;
      ghost var ll, dl;
      ghost var lb, db, fb, lt, dt, bt, sl, sd :=
        lBuf[..], dBuf[..], flagBuf[..], dynLtree[..], dynDtree[..], blTree[..], staticLtree[..], staticDtree[..];
      LogRoom(tokens, lb, db, fb, lastLit, lastDist, lastFlags, flags, flagBit, litBufsize);
      FreqsFacts(tokens, lt, dt, bt);
      Closed(tokens, lb, db, fb, lastLit, lastDist, lastFlags, flags, flagBit);
      LogSize(tokens, lb, db, fb, lastLit, lastDist, lastFlags, flags, flagBit);
      flagBuf[lastFlags] := flags;
      ghost var fb' := flagBuf[..];
      assert fb' == fb[lastFlags := flags];
      assert dynLtree[..] == lt && dynDtree[..] == dt;
      lmax, dmax, opt, stat, ll, dl := BuildDataTrees(dynLtree, dynDtree, heap, depth, blCount, tokens);
      assert blTree[..] == bt;
      maxBlindex, opt, stat, cl := BuildBlTree(dynLtree, dynDtree, blTree, heap, depth, blCount, lmax, dmax, opt, stat,
          tokens, ll, dl);
      lit, dist := ll[..lmax + 1], dl[..dmax + 1];
      assert lBuf[..] == lb && dBuf[..] == db && flagBuf[..] == fb';
      assert staticLtree[..] == sl && staticDtree[..] == sd;
    }

    /** Sends the tokens in the encoding that looks shortest. */
    method SendChosen(w: W.Writer, window: array<byte>, blockStart: int, strstart: nat, final: bool,
                        lmax: nat, dmax: nat, maxBlindex: nat, opt: nat, stat: nat,
                        ghost lit: seq<nat>, ghost dist: seq<nat>, ghost cl: seq<nat>)
      returns (ghost x: Block)
      requires Shape() && TablesOk(tables) && StaticsOk() && w.Valid() && Apart(w.outbuf) && window != w.outbuf
      requires Readable(tokens, lBuf[..], dBuf[..], flagBuf[..]) && lastLit == |tokens|
      requires Built(tokens, dynLtree[..], dynDtree[..], blTree[..], lit, dist, cl, maxBlindex + 1, opt, stat)
      requires |lit| == lmax + 1 && |dist| == dmax + 1
      requires blockStart <= strstart <= window.Length && (blockStart >= 0 ==> strstart - blockStart < TWO16)
      modifies w, w.outbuf
      ensures w.Valid() && BlockOk(x)
      ensures Chosen(x, tokens, lit, dist, cl, maxBlindex + 1, StoredBytes(window[..], blockStart, strstart))
      ensures w.Stream() == old(w.Stream()) + BlockBits(x, final, |old(w.Stream())|)
    {
      hide W.Writer.Stream, W.Writer.Valid, Built, Readable, Chosen, BlockBits, TablesOk, DataBits, DynamicBits,
        DynamicOk, CoversAll, Shape, Apart, StaticsOk, DistForced;
      ghost var n := maxBlindex + 1;
      BuiltSizes(tokens, dynLtree[..], dynDtree[..], blTree[..], lit, dist, cl, n, opt, stat);
      var optLenb := (opt + 3 + 7) / 8;
      var staticLenb := (stat + 3 + 7) / 8;
      if staticLenb <= optLenb {
        optLenb := staticLenb;
      }
      ghost var stored := StoredBytes(window[..], blockStart, strstart);
      if strstart - blockStart + 4 <= optLenb && blockStart >= 0 {
        x := Stored(window[blockStart..strstart]);
        SendStored(w, window, blockStart, strstart - blockStart, final);
      } else if staticLenb == optLenb {
        x := Static(tokens);
        SendStatic(w, final);
      } else {
        x := Dynamic(lit, dist, cl, n, tokens);
        SendDynamic(w, final, lmax, dmax, maxBlindex, opt, stat, lit, dist, cl);
      }
      ChosenIs(x, tokens, lit, dist, cl, n, stored);
    }

    /** flush_block: sends the tokens recorded since the last call. The bytes they stand for are still in
        the window unless blockStart is negative. */
    method FlushBlock(w: W.Writer, window: array<byte>, blockStart: int, strstart: nat, final: bool)
      returns (ghost x: Block, ghost lit: seq<nat>, ghost dist: seq<nat>, ghost cl: seq<nat>, ghost n: nat)
      requires Valid() && w.Valid() && Apart(w.outbuf) && Apart(window) && window != w.outbuf
      requires blockStart <= strstart <= window.Length && (blockStart >= 0 ==> strstart - blockStart < TWO16)
      modifies this, dynLtree, dynDtree, blTree, heap, depth, blCount, flagBuf, w, w.outbuf
      ensures Valid() && w.Valid() && tokens == [] && HasRoom()
      ensures Chosen(x, old(tokens), lit, dist, cl, n, StoredBytes(window[..], blockStart, strstart)) && BlockOk(x)
      ensures w.Stream() == Flushed(old(w.Stream()), x, final)
      ensures final ==> w.biValid == 0
    {
      hide W.Writer.Stream, W.Writer.Valid, Built, Readable, Logged, FreqsOk, Chosen, BlockBits, TablesOk, W.PadTo8,
        BlockOk, Shape;
      assert Shape();
      var lmax, dmax, maxBlindex, opt, stat;
      lmax, dmax, maxBlindex, opt, stat, lit, dist, cl := Prepare();
      n := maxBlindex + 1;
      x := SendChosen(w, window, blockStart, strstart, final, lmax, dmax, maxBlindex, opt, stat, lit, dist, cl);
      InitBlock();
      if final {
        w.BiWindup();
      }
    }

    method SendStatic(w: W.Writer, final: bool)
      requires Shape() && TablesOk(tables) && StaticsOk() && w.Valid() && Apart(w.outbuf)
      requires Readable(tokens, lBuf[..], dBuf[..], flagBuf[..]) && lastLit == |tokens|
      requires CoversAll(FIXED_LIT_LENS, FIXED_DIST_LENS, tokens)
      modifies w, w.outbuf
      ensures w.Valid() && w.Stream() == old(w.Stream()) + BlockBits(Static(tokens), final, |old(w.Stream())|)
    {
      hide W.Writer.Valid, W.Writer.Stream, HeaderBits, DataBits, CoversAll, Readable, TablesOk, CodedAs, Prefixable,
        Codes, FIXED_LIT_LENS, FIXED_DIST_LENS;
      ghost var before, sl, sd, lb, db, fb := w.Stream(), staticLtree[..], staticDtree[..], lBuf[..], dBuf[..],
        flagBuf[..];
      FixedPrefixable();
      CodesMade(sl, FIXED_LIT_LENS, 286);
      CodesMade(sd, FIXED_DIST_LENS, 30);
      SendHeader(w, 1, final);
      assert staticLtree[..] == sl && staticDtree[..] == sd && lBuf[..] == lb && dBuf[..] == db && flagBuf[..] == fb;
      CompressBlock(w, staticLtree, staticDtree, tables, lBuf, dBuf, flagBuf, lastLit, FIXED_LIT_LENS, FIXED_DIST_LENS,
          tokens);
      BlockParts(before, Static(tokens), final, 1);
    }

    method SendDynamic(w: W.Writer, final: bool, lmax: nat, dmax: nat, maxBlindex: nat, opt: nat, stat: nat,
                       ghost lit: seq<nat>, ghost dist: seq<nat>, ghost cl: seq<nat>)
      requires Shape() && TablesOk(tables) && w.Valid() && Apart(w.outbuf)
      requires Readable(tokens, lBuf[..], dBuf[..], flagBuf[..]) && lastLit == |tokens|
      requires Built(tokens, dynLtree[..], dynDtree[..], blTree[..], lit, dist, cl, maxBlindex + 1, opt, stat)
      requires DynamicOk(lit, dist, cl, maxBlindex + 1, tokens)
      requires |lit| == lmax + 1 && |dist| == dmax + 1
      modifies w, w.outbuf
      ensures w.Valid()
      ensures w.Stream() == old(w.Stream()) + BlockBits(Dynamic(lit, dist, cl, maxBlindex + 1, tokens), final,
          |old(w.Stream())|)
    {
      hide W.Writer.Valid, W.Writer.Stream, HeaderBits, DataBits, CoversAll, Readable, TablesOk, Codes, Built, Sendable,
        DynamicOk, Rle, OpsOk, TreesBits;
      ghost var before, lt, dt, bt, lb, db, fb := w.Stream(), dynLtree[..], dynDtree[..], blTree[..], lBuf[..],
        dBuf[..], flagBuf[..];
      BuiltSizes(tokens, lt, dt, bt, lit, dist, cl, maxBlindex + 1, opt, stat);
      SendHeader(w, 2, final);
      assert dynLtree[..] == lt && dynDtree[..] == dt && blTree[..] == bt;
      ghost var stream := w.Stream();
      SendAllTrees(w, dynLtree, dynDtree, blTree, lmax + 1, dmax + 1, maxBlindex + 1, lit, dist, cl);
      assert dynLtree[..] == lt && dynDtree[..] == dt && lBuf[..] == lb && dBuf[..] == db && flagBuf[..] == fb;
      CompressBlock(w, dynLtree, dynDtree, tables, lBuf, dBuf, flagBuf, lastLit, lit, dist, tokens);
      Assoc(stream, TreesBits(lit, dist, cl, maxBlindex + 1), DataBits(lit, dist, tokens));
      BlockParts(before, Dynamic(lit, dist, cl, maxBlindex + 1, tokens), final, 2);
    }
  }

  ghost function StoredBytes(window: seq<byte>, blockStart: int, strstart: nat): Option<seq<byte>>
    requires blockStart <= strstart <= |window|
  {
    if blockStart >= 0 then Some(window[blockStart..strstart]) else None
  }

  /** The stream after a block; after the last one the byte is completed. */
  ghost function Flushed(before: Bitstring, x: Block, final: bool): Bitstring
    requires BlockOk(x)
  {
    var after := before + BlockBits(x, final, |before|);
    if final then after + W.PadTo8(|after|) else after
  }

  // --- Choosing an encoding ---

  /** Whole bytes that a block takes, header included, when it starts on a byte boundary. */
  function Bytes(bits: nat): nat {
    (bits + 3 + 7) / 8
  }

  /** The choice: stored if its bytes, without those for the block header, are no more than the whole bytes of the
      other two, and are still there; else dynamic only if that takes fewer whole bytes than static. BlockChoice
      says when the block is the shortest. */
  ghost predicate Chosen(x: Block, ts: seq<Token>, lit: seq<nat>, dist: seq<nat>, cl: seq<nat>, n: nat,
                         stored: Option<seq<byte>>) {
    && DynamicOk(lit, dist, cl, n, ts) && CoversAll(FIXED_LIT_LENS, FIXED_DIST_LENS, ts) && DistForced(ts, dist)
    && var own, fixed := Bytes(|DynamicBits(lit, dist, cl, n, ts)|),
         Bytes(|DataBits(FIXED_LIT_LENS, FIXED_DIST_LENS, ts)|);
       if stored.Some? && |stored.value| + 4 <= own && |stored.value| + 4 <= fixed then x == Stored(stored.value)
       else if fixed <= own then x == Static(ts)
       else x == Dynamic(lit, dist, cl, n, ts)
  }

  lemma {:induction false} ChosenIs(x: Block, ts: seq<Token>, lit: seq<nat>, dist: seq<nat>, cl: seq<nat>, n: nat,
                                    stored: Option<seq<byte>>)
    requires DynamicOk(lit, dist, cl, n, ts) && CoversAll(FIXED_LIT_LENS, FIXED_DIST_LENS, ts) && DistForced(ts, dist)
    requires var own, fixed := Bytes(|DynamicBits(lit, dist, cl, n, ts)|),
      Bytes(|DataBits(FIXED_LIT_LENS, FIXED_DIST_LENS, ts)|);
      if stored.Some? && |stored.value| + 4 <= own && |stored.value| + 4 <= fixed then x == Stored(stored.value)
      else if fixed <= own then x == Static(ts)
      else x == Dynamic(lit, dist, cl, n, ts)
    requires x.Stored? ==> |x.bytes| < TWO16
    ensures Chosen(x, ts, lit, dist, cl, n, stored) && BlockOk(x)
  {
    hide DynamicOk, CoversAll, DynamicBits, DataBits, DistForced;
  }

  lemma {:induction false} FreqsFacts(ts: seq<Token>, lt: seq<CtData>, dt: seq<CtData>, bt: seq<CtData>)
    requires FreqsOk(ts, lt, dt, bt)
    ensures AllInRange(ts) && HoldsFreqs(lt, LitFreqs(ts)) && HoldsFreqs(dt, DistFreqs(ts))
    ensures HoldsFreqs(bt, Repeat(0, BL_CODES))
  {
  }

  lemma {:induction false} LogSize(ts: seq<Token>, lb: seq<nat>, db: seq<nat>, fb: seq<nat>,
                                   lastLit: nat, lastDist: nat, lastFlags: nat, flags: nat, flagBit: nat)
    requires Logged(ts, lb, db, fb, lastLit, lastDist, lastFlags, flags, flagBit)
    ensures lastLit == |ts|
  {
  }

  /** What the choice is made from. */
  lemma {:induction false} BuiltSizes(ts: seq<Token>, lt: seq<CtData>, dt: seq<CtData>, bt: seq<CtData>, lit: seq<nat>,
                                      dist: seq<nat>, cl: seq<nat>, n: nat, opt: nat, stat: nat)
    requires Built(ts, lt, dt, bt, lit, dist, cl, n, opt, stat)
    ensures DynamicOk(lit, dist, cl, n, ts) && CoversAll(FIXED_LIT_LENS, FIXED_DIST_LENS, ts)
    ensures CoversAll(lit, dist, ts)
    ensures DistForced(ts, dist)
    ensures opt == |DynamicBits(lit, dist, cl, n, ts)| && stat == |DataBits(FIXED_LIT_LENS, FIXED_DIST_LENS, ts)|
    ensures Sendable(lt, dt, bt, lit, dist, cl, n) && Codes(lt, lit, 286) && Codes(dt, dist, 30)
    ensures 257 <= |lit| && 1 <= |dist| && 4 <= n <= 19 && |cl| == 19 && OpsOk(Rle(lit)) && OpsOk(Rle(dist))
  {
    hide DynamicBits, DataBits, CoversAll, Codes, Rle, OpsOk, Prefixable, BoundedLens, Unsent, Guarded;
    SendableOps(lt, dt, bt, lit, dist, cl, n);
  }

  /** A block's header followed by its body. */
  lemma {:induction false} BlockParts(before: Bitstring, x: Block, final: bool, kind: nat)
    requires BlockOk(x) && kind == Kind(x)
    ensures (before + HeaderBits(kind, final)) + BodyBits(x, |before + HeaderBits(kind, final)|)
      == before + BlockBits(x, final, |before|)
  {
    hide BodyBits, BlockOk;
    Assoc(before, HeaderBits(kind, final), BodyBits(x, |before| + 3));
  }

  method SendHeader(w: W.Writer, kind: nat, final: bool)
    requires w.Valid() && kind <= 2
    modifies w, w.outbuf
    ensures w.Valid() && w.Stream() == old(w.Stream()) + HeaderBits(kind, final)
  {
    hide W.Writer.Valid, W.Writer.Stream, Pow2, ToBits;
    HeaderFits();
    w.SendBits(2 * kind + if final then 1 else 0, 3);
  }

  lemma {:induction false} HeaderFits()
    ensures Pow2(3) == 8
  {
  }

  lemma {:induction false} StoredParts(stream: Bitstring, bytes: seq<byte>)
    requires |bytes| < TWO16
    ensures stream + W.PadTo8(|stream|) + (ToBits(|bytes|, 16) + ToBits(TWO16 - 1 - |bytes|, 16)) + BytesToBits(bytes)
         == stream + StoredBits(bytes, |stream|)
  {
    hide ToBits, BytesToBits, W.PadTo8;
    var pad, lens, data := W.PadTo8(|stream|), ToBits(|bytes|, 16) + ToBits(TWO16 - 1 - |bytes|, 16),
    BytesToBits(bytes);
    Assoc(stream, pad, lens);
    Assoc(stream, pad + lens, data);
  }

  method SendStored(w: W.Writer, buf: array<byte>, from: nat, len: nat, final: bool)
    requires w.Valid() && buf != w.outbuf && from + len <= buf.Length && len < TWO16
    modifies w, w.outbuf
    ensures w.Valid() && w.Stream() == old(w.Stream()) + BlockBits(Stored(buf[from..from + len]), final,
        |old(w.Stream())|)
  {
    hide W.Writer.Valid, W.Writer.Stream, ToBits, BytesToBits, W.PadTo8, HeaderBits, StoredBits;
    ghost var before, bytes := w.Stream(), buf[from..from + len];
    SendHeader(w, 0, final);
    ghost var stream := w.Stream();
    w.CopyBlock(buf, from, len, true);
    assert buf[from..from + len] == bytes;
    StoredParts(stream, bytes);
    BlockParts(before, Stored(bytes), final, 0);
  }

  /** The log, except that its flags may have to be saved. */
  ghost predicate HalfLogged(ts: seq<Token>, lb: seq<nat>, db: seq<nat>, fb: seq<nat>,
                             lastLit: nat, lastDist: nat, lastFlags: nat, flags: nat, flagBit: nat)
  {
    lastFlags < |fb|
    && if lastLit % 8 == 0 then Logged(ts, lb, db, fb[lastFlags := flags], lastLit, lastDist, lastFlags + 1, 0, 1)
       else Logged(ts, lb, db, fb, lastLit, lastDist, lastFlags, flags, flagBit * 2 % 256)
  }

  lemma {:induction false} HalfWay(ts: seq<Token>, dist: nat, lc: nat, lb: seq<nat>, db: seq<nat>, fb: seq<nat>,
                                   lastLit: nat, lastDist: nat, lastFlags: nat, flags: nat, flagBit: nat)
    requires Logged(ts, lb, db, fb, lastLit, lastDist, lastFlags, flags, flagBit)
    requires lc < 256 && dist <= 0x8000 && lastLit < |lb| && lastDist < |db| && lastFlags < |fb|
    ensures dist == 0 ==>
      HalfLogged(ts + [TokenOf(dist, lc)], lb[lastLit := lc], db, fb, lastLit + 1, lastDist, lastFlags, flags, flagBit)
    ensures dist > 0 ==>
      HalfLogged(ts + [TokenOf(dist, lc)], lb[lastLit := lc], db[lastDist := dist - 1], fb, lastLit + 1, lastDist + 1,
                 lastFlags, Or(flags, flagBit), flagBit)
  {
    hide Logged, Or;
    LoggedMore(ts, TokenOf(dist, lc), lb, db, fb, lastLit, lastDist, lastFlags, flags, flagBit);
  }

  lemma {:induction false} LogRoom(ts: seq<Token>, lb: seq<nat>, db: seq<nat>, fb: seq<nat>,
                                   lastLit: nat, lastDist: nat, lastFlags: nat, flags: nat, flagBit: nat, size: nat)
    requires Logged(ts, lb, db, fb, lastLit, lastDist, lastFlags, flags, flagBit)
    requires lastLit < size && size % 8 == 0 && |fb| == size / 8
    ensures lastFlags < |fb|
  {
  }

  lemma {:induction false} SymbolOf(x: CodeTables, t: Token)
    requires TablesOk(x) && InRange(t)
    ensures |x.lengthCode| == 256 && |x.distCode| == 512
    ensures t.Literal? ==> LitSymbol(t) == t.value
    ensures t.Match? ==> LitSymbol(t) == x.lengthCode[t.length - 3] + 257
    ensures t.Match? ==> DCode(x.distCode, t.distance - 1) == DistCode(t.distance) < 30
  {
    hide TablesOk;
    if t.Match? {
      LengthLookup(x, t.length);
      DistLookup(x, t.distance);
    } else {
      LengthLookup(x, 3);
      DistLookup(x, 1);
    }
  }

  method MakeTables() returns (x: CodeTables)
    ensures TablesOk(x)
  {
    hide TablesOk, LengthTableOk, DistTableOk;
    var lengthCode, baseLength, distCode, baseDist := new nat[256], new nat[29], new nat[512], new nat[30];
    InitLengths(lengthCode, baseLength);
    ghost var lc, bl := lengthCode[..], baseLength[..];
    InitDists(distCode, baseDist);
    assert lengthCode[..] == lc && baseLength[..] == bl;
    x := CodeTables(lengthCode[..], baseLength[..], distCode[..], baseDist[..]);
    TablesMade(x);
  }

  method MakeStatics() returns (sl: array<CtData>, sd: array<CtData>, counts: array<nat>)
    ensures fresh(sl) && fresh(sd) && fresh(counts) && sl.Length == 288 && sd.Length == 30
    ensures counts.Length == MAX_BITS + 1 && sl != sd
    ensures CodedAs(sl[..], FIXED_LIT_LENS) && CodedAs(sd[..], FIXED_DIST_LENS)
  {
    hide CodedAs, FIXED_LIT_LENS, FIXED_DIST_LENS;
    counts := new nat[MAX_BITS + 1](_ => 0);
    sl, sd := new CtData[288](_ => CtData(0, 0)), new CtData[30](_ => CtData(0, 0));
    InitStaticLiterals(sl, counts);
    ghost var slits := sl[..];
    InitStaticDistances(sd);
    assert sl[..] == slits;
  }

  lemma {:induction false} TablesMade(x: CodeTables)
    requires LengthTableOk(x.lengthCode, x.baseLength) && DistTableOk(x.distCode, x.baseDist)
    ensures TablesOk(x)
  {
  }

  method ClearFreqs(tree: array<CtData>, n: nat)
    requires n <= tree.Length
    modifies tree
    ensures forall i :: 0 <= i < n ==> tree[i].fc == 0
  {
    for i := 0 to n
      invariant forall k :: 0 <= k < i ==> tree[k].fc == 0
    {
      tree[i] := tree[i].(fc := 0);
    }
  }

  lemma {:induction false} NoTokens(lt: seq<CtData>, dt: seq<CtData>, bt: seq<CtData>)
    requires |lt| >= 286 && (forall i :: 0 <= i < 286 ==> lt[i].fc == if i == END_BLOCK then 1 else 0)
    requires |dt| >= 30 && forall i :: 0 <= i < 30 ==> dt[i].fc == 0
    requires |bt| >= 19 && forall i :: 0 <= i < 19 ==> bt[i].fc == 0
    ensures FreqsOk([], lt, dt, bt)
  {
  }
}
