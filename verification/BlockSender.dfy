/** compress_block and send_all_trees: the bits of a block's tokens and of its trees. */
module BlockSender {
  import opened Bits
  import opened CanonicalCode
  import opened Inflate
  import opened Tokens
  import opened Tables
  import opened TokenLog
  import opened TreeRle
  import opened DynamicBlock
  import W = BitWriter

  /** The tables computed once by ct_init. */
  datatype CodeTables = CodeTables(lengthCode: seq<nat>, baseLength: seq<nat>, distCode: seq<nat>, baseDist: seq<nat>)

  ghost predicate TablesOk(x: CodeTables) {
    LengthTableOk(x.lengthCode, x.baseLength) && DistTableOk(x.distCode, x.baseDist)
  }

  /** What compress_block finds for a length. */
  lemma {:induction false} LengthLookup(x: CodeTables, length: nat)
    requires TablesOk(x) && MIN_MATCH <= length <= MAX_MATCH
    ensures var c := LengthCode(length);
      && |x.lengthCode| == 256 && |x.baseLength| == 29 && c < 29
      && x.lengthCode[length - MIN_MATCH] == c && EXTRA_LBITS[c] == LengthExtra(c) <= 5
      && length - LengthBase(c) < Pow2(LengthExtra(c))
      && (LengthExtra(c) > 0 ==> length - MIN_MATCH - x.baseLength[c] == length - LengthBase(c))
  {
    hide Pow2, LengthBase;
    ExtraLengthBits(LengthCode(length));
  }

  lemma {:induction false} DistLookup(x: CodeTables, distance: nat)
    requires TablesOk(x) && 1 <= distance <= 0x8000
    ensures var c := DistCode(distance);
      && |x.distCode| == 512 && |x.baseDist| == 30 && c < 30
      && DCode(x.distCode, distance - 1) == c && EXTRA_DBITS[c] == DistExtra(c) <= 13
      && 0 <= distance - DistBase(c) < Pow2(DistExtra(c))
      && distance - 1 - x.baseDist[c] == distance - DistBase(c)
  {
    hide Pow2, DistBase;
    ExtraDistBits(DistCode(distance));
  }

  /** The two halves of a match's bits. */
  ghost function LengthPart(lit: seq<nat>, dist: seq<nat>, t: Token): (v: Bitstring)
    requires Covers(lit, dist, t) && t.Match?
  {
    LengthBits(lit, t.length)
  }

  ghost function DistPart(lit: seq<nat>, dist: seq<nat>, t: Token): (v: Bitstring)
    requires Covers(lit, dist, t) && t.Match?
  {
    DistBits(dist, t.distance)
  }

  /** Codes that a tree holds. */
  ghost predicate Codes(tree: seq<CtData>, lens: seq<nat>, size: nat) {
    CodedAs(tree, lens) && Prefixable(lens, MAX_BITS) && |tree| >= size
  }

  lemma {:induction false} CodesFacts(tree: seq<CtData>, lens: seq<nat>, size: nat)
    requires Codes(tree, lens, size)
    ensures CodedAs(tree, lens) && Prefixable(lens, MAX_BITS) && |tree| >= size
  {
  }

  method SendLength(w: W.Writer, ltree: array<CtData>, x: CodeTables, lc: nat, ghost lit: seq<nat>,
                    ghost dist: seq<nat>, ghost t: Token)
    requires w.Valid() && TablesOk(x) && Codes(ltree[..], lit, 286) && Covers(lit, dist, t) && t.Match?
    requires t.length == lc + 3
    modifies w, w.outbuf
    ensures w.Valid() && w.Stream() == old(w.Stream()) + LengthPart(lit, dist, t)
  {
    hide *;
    ghost var before := w.Stream();
    CodesFacts(ltree[..], lit, 286);
    LengthParts(x, lit, dist, t, before);
    var code := x.lengthCode[lc];
    w.SendCode(ltree, code + 257, lit);
    var extra := EXTRA_LBITS[code];
    if extra != 0 {
      w.SendBits(lc - x.baseLength[code], extra);
    }
  }

  lemma {:induction false} LengthParts(x: CodeTables, lit: seq<nat>, dist: seq<nat>, t: Token, before: Bitstring)
    requires TablesOk(x) && Covers(lit, dist, t) && t.Match?
    ensures 3 <= t.length <= 258 && |x.lengthCode| == 256 && |x.baseLength| == 29 && |EXTRA_LBITS| == 29
    ensures var c := x.lengthCode[t.length - 3];
      && c < 29 && 257 + c < |lit| && lit[257 + c] > 0
      && before + LengthPart(lit, dist, t) ==
           (if EXTRA_LBITS[c] == 0 then before + CodeWord(lit, 257 + c)
            else before + CodeWord(lit, 257 + c) + ToBits(t.length - LengthBase(c), EXTRA_LBITS[c]))
      && EXTRA_LBITS[c] <= 5
      && (EXTRA_LBITS[c] != 0 ==>
            0 <= t.length - 3 - x.baseLength[c] == t.length - LengthBase(c) < Pow2(EXTRA_LBITS[c]))
  {
    hide Pow2, LengthBase, CodeWord, ToBits, TablesOk;
    LengthLookup(x, t.length);
    var c := LengthCode(t.length);
    if LengthExtra(c) == 0 {
      NoBits(t.length - LengthBase(c));
    } else {
      Assoc(before, CodeWord(lit, 257 + c), ToBits(t.length - LengthBase(c), LengthExtra(c)));
    }
  }

  lemma {:induction false} NoBits(v: nat)
    ensures ToBits(v, 0) == []
  {
  }

  method SendDistance(w: W.Writer, dtree: array<CtData>, x: CodeTables, d: nat, ghost lit: seq<nat>,
                      ghost dist: seq<nat>, ghost t: Token)
    requires w.Valid() && TablesOk(x) && Codes(dtree[..], dist, 30) && Covers(lit, dist, t) && t.Match?
    requires t.distance == d + 1
    modifies w, w.outbuf
    ensures w.Valid() && w.Stream() == old(w.Stream()) + DistPart(lit, dist, t)
  {
    hide *;
    ghost var before := w.Stream();
    CodesFacts(dtree[..], dist, 30);
    DistParts(x, lit, dist, t, before);
    var code := DCode(x.distCode, d);
    w.SendCode(dtree, code, dist);
    var extra := EXTRA_DBITS[code];
    if extra != 0 {
      w.SendBits(d - x.baseDist[code], extra);
    }
  }

  lemma {:induction false} DistParts(x: CodeTables, lit: seq<nat>, dist: seq<nat>, t: Token, before: Bitstring)
    requires TablesOk(x) && Covers(lit, dist, t) && t.Match?
    ensures 1 <= t.distance <= 0x8000 && |x.distCode| == 512 && |x.baseDist| == 30 && |EXTRA_DBITS| == 30
    ensures var c := DCode(x.distCode, t.distance - 1);
      && c < 30 && c < |dist| && dist[c] > 0
      && before + DistPart(lit, dist, t) ==
           (if EXTRA_DBITS[c] == 0 then before + CodeWord(dist, c)
            else before + CodeWord(dist, c) + ToBits(t.distance - DistBase(c), EXTRA_DBITS[c]))
      && EXTRA_DBITS[c] <= 13
      && 0 <= t.distance - 1 - x.baseDist[c] == t.distance - DistBase(c) < Pow2(EXTRA_DBITS[c])
  {
    hide Pow2, DistBase, CodeWord, ToBits, TablesOk;
    DistLookup(x, t.distance);
    var c := DistCode(t.distance);
    if DistExtra(c) == 0 {
      NoBits(t.distance - DistBase(c));
    } else {
      Assoc(before, CodeWord(dist, c), ToBits(t.distance - DistBase(c), DistExtra(c)));
    }
  }

  /** compress_block has sent the first lx tokens. */
  ghost predicate Compressing(ts: seq<Token>, lx: nat, dx: nat, fx: nat, flag: nat, flagBuf: seq<nat>,
                              lit: seq<nat>, dist: seq<nat>, start: Bitstring, stream: Bitstring)
  {
    && lx <= |ts| && dx == NumMatches(ts[..lx]) && fx == (lx + 7) / 8 <= |flagBuf|
    && (lx % 8 != 0 ==> flag == Shr(flagBuf[lx / 8], lx % 8))
    && CoversAll(lit, dist, ts) && CoversAll(lit, dist, ts[..lx])
    && stream == start + TokensBits(lit, dist, ts[..lx])
  }

  lemma {:induction false} CompressStart(ts: seq<Token>, flagBuf: seq<nat>, lit: seq<nat>, dist: seq<nat>,
                                         start: Bitstring)
    requires CoversAll(lit, dist, ts)
    ensures Compressing(ts, 0, 0, 0, 0, flagBuf, lit, dist, start, start)
  {
    assert ts[..0] == [];
    assert start + [] == start;
  }

  lemma {:induction false} CompressEnd(ts: seq<Token>, dx: nat, fx: nat, flag: nat, flagBuf: seq<nat>,
                                       lit: seq<nat>, dist: seq<nat>, start: Bitstring, stream: Bitstring)
    requires Compressing(ts, |ts|, dx, fx, flag, flagBuf, lit, dist, start, stream)
    ensures CoversAll(lit, dist, ts) && 256 < |lit| && lit[256] > 0
    ensures stream + CodeWord(lit, 256) == start + DataBits(lit, dist, ts)
  {
    assert ts[..|ts|] == ts;
    Assoc(start, TokensBits(lit, dist, ts), CodeWord(lit, 256));
  }

  /** The token about to be sent, with the flags loaded. */
  lemma {:induction false} CompressNext(ts: seq<Token>, lx: nat, dx: nat, fx: nat, flag: nat, lBuf: seq<nat>,
                                        dBuf: seq<nat>, flagBuf: seq<nat>, lit: seq<nat>, dist: seq<nat>,
                                        start: Bitstring, stream: Bitstring)
    requires Compressing(ts, lx, dx, fx, flag, flagBuf, lit, dist, start, stream) && lx < |ts|
    requires Readable(ts, lBuf, dBuf, flagBuf)
    ensures var t := ts[lx];
      && lx < |lBuf| && lx / 8 < |flagBuf| && Covers(lit, dist, t)
      && (lx % 8 == 0 ==> fx == lx / 8 < |flagBuf|)
      && (lx % 8 != 0 ==> fx == lx / 8 + 1 && flag == Shr(flagBuf[lx / 8], lx % 8))
      && (t.Match? <==> Shr(flagBuf[lx / 8], lx % 8) % 2 == 1)
      && (t.Literal? ==>
            && t.value == lBuf[lx] && t.value < |lit| && lit[t.value] > 0
            && TokenBits(lit, dist, t) == CodeWord(lit, t.value))
      && (t.Match? ==> t.length == lBuf[lx] + 3 && dx < |dBuf| && t.distance == dBuf[dx] + 1)
      && (t.Match? ==> TokenBits(lit, dist, t) == LengthPart(lit, dist, t) + DistPart(lit, dist, t))
      && Compressing(ts, lx + 1, if t.Match? then dx + 1 else dx, lx / 8 + 1, Shr(flagBuf[lx / 8], lx % 8) / 2, flagBuf,
                     lit, dist, start, stream + TokenBits(lit, dist, t))
  {
    hide Covers, CodeWord, NumMatches, Readable, LengthBits, DistBits;
    var t := ts[lx];
    ReadToken(ts, lBuf, dBuf, flagBuf, lx);
    CoversFacts(lit, dist, t);
    FlagShift(flagBuf[lx / 8], lx % 8);
    assert ts[..lx + 1] == ts[..lx] + [t];
    assert ts[..lx + 1][..lx] == ts[..lx];
    Assoc(start, TokensBits(lit, dist, ts[..lx]), TokenBits(lit, dist, t));
  }

  lemma {:induction false} FlagShift(x: nat, k: nat)
    ensures Shr(x, k) / 2 == Shr(x, k + 1)
  {
    ShrShr(x, k, 1);
    assert Shr(Shr(x, k), 1) == Shr(x, k) / 2;
  }

  lemma {:induction false} CoversFacts(lit: seq<nat>, dist: seq<nat>, t: Token)
    requires Covers(lit, dist, t)
    ensures InRange(t) && (t.Literal? ==> t.value < |lit| && lit[t.value] > 0)
  {
  }

  ghost predicate LogApart(w: W.Writer, lBuf: array<nat>, dBuf: array<nat>, flagBuf: array<nat>) {
    var o: object := w.outbuf;
    o != lBuf && o != dBuf && o != flagBuf
  }

  method CompressBlock(w: W.Writer, ltree: array<CtData>, dtree: array<CtData>, x: CodeTables,
                       lBuf: array<nat>, dBuf: array<nat>, flagBuf: array<nat>, lastLit: nat,
                       ghost lit: seq<nat>, ghost dist: seq<nat>, ghost ts: seq<Token>)
    requires w.Valid() && TablesOk(x) && LogApart(w, lBuf, dBuf, flagBuf)
    requires w.outbuf as object != ltree && w.outbuf as object != dtree
    requires Codes(ltree[..], lit, 286) && Codes(dtree[..], dist, 30) && CoversAll(lit, dist, ts)
    requires Readable(ts, lBuf[..], dBuf[..], flagBuf[..]) && lastLit == |ts|
    modifies w, w.outbuf
    ensures w.Valid() && w.Stream() == old(w.Stream()) + DataBits(lit, dist, ts)
  {
    hide W.Writer.Valid, W.Writer.Stream, TablesOk, Codes, CoversAll, Readable, Compressing, TokensBits, DataBits,
      TokenBits, Covers, CodedAs, Prefixable, Shr, LengthPart, DistPart, CodeWord;
    ghost var start, lb, db, fb, lt, dt := w.Stream(), lBuf[..], dBuf[..], flagBuf[..], ltree[..], dtree[..];
    CodesFacts(lt, lit, 286);
    var lx, dx, fx, flag := 0, 0, 0, 0;
    CompressStart(ts, fb, lit, dist, start);
    while lx < lastLit
      invariant w.Valid() && lBuf[..] == lb && dBuf[..] == db && flagBuf[..] == fb && ltree[..] == lt && dtree[..] == dt
      invariant lx <= lastLit && Compressing(ts, lx, dx, fx, flag, fb, lit, dist, start, w.Stream())
    {
      ghost var t, stream := ts[lx], w.Stream();
      CompressNext(ts, lx, dx, fx, flag, lb, db, fb, lit, dist, start, stream);
      if lx % 8 == 0 {
        flag := flagBuf[fx];
        fx := fx + 1;
      }
      ShrNone(fb[lx / 8]);
      var lc := lBuf[lx];
      lx := lx + 1;
      if flag % 2 == 0 {
        w.SendCode(ltree, lc, lit);
      } else {
        SendLength(w, ltree, x, lc, lit, dist, t);
        var d := dBuf[dx];
        dx := dx + 1;
        SendDistance(w, dtree, x, d, lit, dist, t);
        Assoc(stream, LengthPart(lit, dist, t), DistPart(lit, dist, t));
      }
      flag := flag / 2;
    }
    CompressEnd(ts, dx, fx, flag, fb, lit, dist, start, w.Stream());
    w.SendCode(ltree, 256, lit);
  }

  lemma {:induction false} ShrNone(x: nat)
    ensures Shr(x, 0) == x
  {
  }

  /** A tree whose lengths scan_tree has guarded. */
  ghost predicate Guarded(tree: seq<CtData>, lens: seq<nat>) {
    && 1 <= |lens| < |tree| && tree[|lens|].dl == GUARD && Lens(tree[..|lens|]) == lens && BoundedLens(lens, 15)
  }

  /** Everything send_all_trees needs to know. */
  ghost predicate Sendable(lt: seq<CtData>, dt: seq<CtData>, bt: seq<CtData>, lit: seq<nat>, dist: seq<nat>,
                           cl: seq<nat>, n: nat) {
    && 257 <= |lit| <= 286 && 1 <= |dist| <= 30 && 4 <= n <= 19 && |cl| == 19 && BoundedLens(cl, 7) && |bt| >= 19
    && Guarded(lt, lit) && Guarded(dt, dist)
    && Codes(bt, cl, 19) && CoversOps(cl, Rle(lit)) && CoversOps(cl, Rle(dist))
  }

  lemma {:induction false} SendableOps(lt: seq<CtData>, dt: seq<CtData>, bt: seq<CtData>, lit: seq<nat>, dist: seq<nat>,
                                       cl: seq<nat>, n: nat)
    requires Sendable(lt, dt, bt, lit, dist, cl, n)
    ensures 257 <= |lit| <= 286 && 1 <= |dist| <= 30 && 4 <= n <= 19 && |cl| == 19 && |bt| >= 19
    ensures OpsOk(Rle(lit)) && OpsOk(Rle(dist))
  {
  }

  lemma {:induction false} ClLenOk(lt: seq<CtData>, dt: seq<CtData>, bt: seq<CtData>, lit: seq<nat>, dist: seq<nat>,
                                   cl: seq<nat>, n: nat, k: nat)
    requires Sendable(lt, dt, bt, lit, dist, cl, n) && k < n
    ensures |CL_ORDER| == 19 && CL_ORDER[k] < 19 == |cl| && CL_ORDER[k] < |bt|
    ensures bt[CL_ORDER[k]].dl == cl[CL_ORDER[k]] < Pow2(3)
    ensures ClBits(cl, k + 1) == ClBits(cl, k) + ToBits(cl[CL_ORDER[k]], 3)
  {
    hide ToBits, Prefixable, Guarded, CoversOps, Rle;
    RankInverse(k);
    assert Pow2(3) == 8;
  }

  method SendClLengths(w: W.Writer, blTree: array<CtData>, n: nat, ghost lt: seq<CtData>, ghost dt: seq<CtData>,
                       ghost lit: seq<nat>, ghost dist: seq<nat>, ghost cl: seq<nat>)
    requires w.Valid() && Sendable(lt, dt, blTree[..], lit, dist, cl, n) && w.outbuf as object != blTree
    requires n <= 19 && |cl| == 19
    modifies w, w.outbuf
    ensures w.Valid() && w.Stream() == old(w.Stream()) + ClBits(cl, n)
  {
    hide ClBits;
    hide W.Writer.Valid, W.Writer.Stream, Sendable, ToBits, CL_ORDER, Pow2;
    ghost var start, bt := w.Stream(), blTree[..];
    var rank := 0;
    assert start + ClBits(cl, 0) == start;
    while rank < n
      invariant w.Valid() && rank <= n && blTree[..] == bt
      invariant w.Stream() == start + ClBits(cl, rank)
    {
      ClLenOk(lt, dt, bt, lit, dist, cl, n, rank);
      Assoc(start, ClBits(cl, rank), ToBits(cl[CL_ORDER[rank]], 3));
      w.SendBits(blTree[CL_ORDER[rank]].dl, 3);
      rank := rank + 1;
    }
  }

  method SendCounts(w: W.Writer, lcodes: nat, dcodes: nat, blcodes: nat)
    requires w.Valid() && 257 <= lcodes <= 286 && 1 <= dcodes <= 30 && 4 <= blcodes <= 19
    modifies w, w.outbuf
    ensures w.Valid() && w.Stream() == old(w.Stream()) + CountBits(lcodes, dcodes, blcodes)
  {
    hide W.Writer.Valid, W.Writer.Stream, ToBits, Pow2;
    ghost var start := w.Stream();
    FieldPowers();
    w.SendBits(lcodes - 257, 5);
    w.SendBits(dcodes - 1, 5);
    w.SendBits(blcodes - 4, 4);
    ghost var a, b, c := ToBits(lcodes - 257, 5), ToBits(dcodes - 1, 5), ToBits(blcodes - 4, 4);
    Assoc(start, a, b);
    Assoc(start, a + b, c);
  }

  lemma {:induction false} FourParts(s: Bitstring, a: Bitstring, b: Bitstring, c: Bitstring, d: Bitstring)
    ensures (((s + a) + b) + c) + d == s + (((a + b) + c) + d)
  {
    Assoc(s, a, b);
    Assoc(s, a + b, c);
    Assoc(s, a + b + c, d);
  }

  method SendAllTrees(w: W.Writer, ltree: array<CtData>, dtree: array<CtData>, blTree: array<CtData>,
                      lcodes: nat, dcodes: nat, blcodes: nat, ghost lit: seq<nat>, ghost dist: seq<nat>,
                      ghost cl: seq<nat>)
    requires w.Valid() && Sendable(ltree[..], dtree[..], blTree[..], lit, dist, cl, blcodes) && OpsOk(Rle(lit))
    requires OpsOk(Rle(dist))
    requires lcodes == |lit| && dcodes == |dist| && 257 <= lcodes && 1 <= dcodes && 4 <= blcodes <= 19 && |cl| == 19
    requires w.outbuf as object != ltree && w.outbuf as object != dtree && w.outbuf as object != blTree
    modifies w, w.outbuf
    ensures w.Valid() && w.Stream() == old(w.Stream()) + TreesBits(lit, dist, cl, blcodes)
  {
    hide W.Writer.Valid, W.Writer.Stream, Sendable, Rle, OpsOk, OpsBits, ClBits, CountBits, CodedAs, Prefixable,
      BoundedLens, CoversOps, Lens, Guarded, Codes;
    ghost var start, lt, dt, bt := w.Stream(), ltree[..], dtree[..], blTree[..];
    SendableOps(lt, dt, bt, lit, dist, cl, blcodes);
    SendCounts(w, lcodes, dcodes, blcodes);
    SendClLengths(w, blTree, blcodes, lt, dt, lit, dist, cl);
    SendableParts(lt, dt, bt, lit, dist, cl, blcodes);
    assert ltree[..lcodes] == lt[..lcodes];
    SendTree(w, ltree, lcodes - 1, blTree, cl);
    assert dtree[..dcodes] == dt[..dcodes];
    SendTree(w, dtree, dcodes - 1, blTree, cl);
    FourParts(start, CountBits(lcodes, dcodes, blcodes), ClBits(cl, blcodes), OpsBits(cl, Rle(lit)),
        OpsBits(cl, Rle(dist)));
  }

  lemma {:induction false} SendableParts(lt: seq<CtData>, dt: seq<CtData>, bt: seq<CtData>, lit: seq<nat>,
                                         dist: seq<nat>, cl: seq<nat>, n: nat)
    requires Sendable(lt, dt, bt, lit, dist, cl, n)
    ensures |lit| < |lt| && lt[|lit|].dl == GUARD && Lens(lt[..|lit|]) == lit && BoundedLens(lit, 15)
    ensures |dist| < |dt| && dt[|dist|].dl == GUARD && Lens(dt[..|dist|]) == dist && BoundedLens(dist, 15)
    ensures CodedAs(bt, cl) && Prefixable(cl, MAX_BITS) && CoversOps(cl, Rle(lit)) && CoversOps(cl, Rle(dist))
  {
  }
}
