/** A block with codes of its own: its bits, and the reason the decoder understands them. */
module DynamicBlock {
  import opened Bits
  import opened Options
  import opened CanonicalCode
  import opened Inflate
  import opened Tokens
  import opened TreeRle

  // --- The code lengths of the code length alphabet, in the order of section 3.2.7 ---

  /** Position of a symbol in the order. */
  const RANK: seq<nat> := [3, 17, 15, 13, 11, 9, 7, 5, 4, 6, 8, 10, 12, 14, 16, 18, 0, 1, 2]

  lemma {:induction false} RankInverse(k: nat)
    requires k < 19
    ensures |CL_ORDER| == |RANK| == 19
    ensures CL_ORDER[k] < 19 && RANK[CL_ORDER[k]] == k
    ensures RANK[k] < 19 && CL_ORDER[RANK[k]] == k
  {
  }

  ghost function ClBits(cl: seq<nat>, n: nat): (w: Bitstring)
    requires |cl| == 19 && n <= 19
    ensures |w| == 3 * n
  {
    if n == 0 then [] else
    RankInverse(n - 1);
    ClBits(cl, n - 1) + ToBits(cl[CL_ORDER[n - 1]], 3)
  }

  /** Symbols of the code length alphabet from rank n on are unused. */
  ghost predicate Unsent(cl: seq<nat>, n: nat) {
    |cl| == 19 && forall s :: 0 <= s < 19 && RANK[s] >= n ==> cl[s] == 0
  }

  /** The lengths of the first k symbols in the order have been read. */
  ghost predicate PartlyRead(cl: seq<nat>, acc: seq<nat>, k: nat) {
    |cl| == |acc| == 19 && forall s :: 0 <= s < 19 ==> acc[s] == if RANK[s] < k then cl[s] else 0
  }

  lemma {:induction false} PartlyReadStep(cl: seq<nat>, acc: seq<nat>, k: nat)
    requires PartlyRead(cl, acc, k) && k < 19
    ensures CL_ORDER[k] < 19 && PartlyRead(cl, acc[CL_ORDER[k] := cl[CL_ORDER[k]]], k + 1)
  {
    hide *;
    RankInverse(k);
    PartlyReadAt(cl, acc, k, k);
    var acc' := acc[CL_ORDER[k] := cl[CL_ORDER[k]]];
    forall s: nat | s < 19
      ensures acc'[s] == if RANK[s] < k + 1 then cl[s] else 0
    {
      PartlyReadAt(cl, acc, k, s);
      RankInverse(s);
    }
    PartlyReadFrom(cl, acc', k + 1);
  }

  lemma {:induction false} PartlyReadAt(cl: seq<nat>, acc: seq<nat>, k: nat, s: nat)
    requires PartlyRead(cl, acc, k) && s < 19
    ensures |cl| == |acc| == 19 && |RANK| == 19 && acc[s] == if RANK[s] < k then cl[s] else 0
  {
  }

  lemma {:induction false} PartlyReadFrom(cl: seq<nat>, acc: seq<nat>, k: nat)
    requires |cl| == |acc| == 19 && |RANK| == 19
    requires forall s :: 0 <= s < 19 ==> acc[s] == if RANK[s] < k then cl[s] else 0
    ensures PartlyRead(cl, acc, k)
  {
  }

  lemma {:induction false} ClField(b: Bitstring, pos: nat, cl: seq<nat>, n: nat, k: nat)
    requires |cl| == 19 && k < n <= 19 && BoundedLens(cl, 7) && At(b, pos, ClBits(cl, n))
    ensures CL_ORDER[k] < 19 && ReadBits(b, pos + 3 * k, 3) == Some(cl[CL_ORDER[k]])
  {
    hide At, ToBits, ReadBits, Pow2;
    RankInverse(n - 1);
    AtSplit(b, pos, ClBits(cl, n - 1), ToBits(cl[CL_ORDER[n - 1]], 3));
    if k == n - 1 {
      EightIsPow2();
      ReadField(b, pos + 3 * k, cl[CL_ORDER[k]], 3);
    } else {
      ClField(b, pos, cl, n - 1, k);
    }
  }

  lemma {:induction false} EightIsPow2()
    ensures Pow2(3) == 8
  {
  }

  lemma {:induction false} ClDecode(b: Bitstring, pos: nat, cl: seq<nat>, n: nat, k: nat, acc: seq<nat>)
    requires BoundedLens(cl, 7) && Unsent(cl, n) && k <= n <= 19 && At(b, pos, ClBits(cl, n)) && PartlyRead(cl, acc, k)
    ensures InflateClLens(b, pos + 3 * k, k, n, acc) == Some(cl)
    decreases n - k
  {
    hide At, ClBits, ReadBits;
    if k == n {
      assert acc == cl;
    } else {
      ClField(b, pos, cl, n, k);
      PartlyReadStep(cl, acc, k);
      ClDecode(b, pos, cl, n, k + 1, acc[CL_ORDER[k] := cl[CL_ORDER[k]]]);
    }
  }

  lemma {:induction false} NothingRead(cl: seq<nat>)
    requires |cl| == 19
    ensures PartlyRead(cl, Repeat(0, 19), 0)
  {
  }

  // --- The block ---

  /** The codes can be transmitted and cover the tokens and the coded trees. */
  ghost predicate DynamicOk(lit: seq<nat>, dist: seq<nat>, cl: seq<nat>, n: nat, ts: seq<Token>) {
    && 257 <= |lit| <= 286 && 1 <= |dist| <= 30 && 4 <= n <= 19
    && BoundedLens(lit, 15) && BoundedLens(dist, 15) && BoundedLens(cl, 7)
    && Prefixable(lit, MAX_BITS) && Prefixable(dist, MAX_BITS) && Prefixable(cl, MAX_BITS)
    && Unsent(cl, n) && CoversOps(cl, Rle(lit)) && CoversOps(cl, Rle(dist)) && CoversAll(lit, dist, ts)
  }

  ghost function CountBits(lit: nat, dist: nat, n: nat): (w: Bitstring)
    requires lit >= 257 && dist >= 1 && n >= 4
    ensures |w| == 14
  {
    (ToBits(lit - 257, 5) + ToBits(dist - 1, 5)) + ToBits(n - 4, 4)
  }

  /** What send_all_trees emits. */
  ghost function TreesBits(lit: seq<nat>, dist: seq<nat>, cl: seq<nat>, n: nat): (w: Bitstring)
    requires |lit| >= 257 && |dist| >= 1 && 4 <= n <= 19 && |cl| == 19
    requires OpsOk(Rle(lit)) && OpsOk(Rle(dist))
  {
    ((CountBits(|lit|, |dist|, n) + ClBits(cl, n)) + OpsBits(cl, Rle(lit))) + OpsBits(cl, Rle(dist))
  }

  ghost function DynamicBits(lit: seq<nat>, dist: seq<nat>, cl: seq<nat>, n: nat, ts: seq<Token>): (w: Bitstring)
    requires DynamicOk(lit, dist, cl, n, ts)
  {
    TreesBits(lit, dist, cl, n) + DataBits(lit, dist, ts)
  }

  lemma {:induction false} CountsDecode(b: Bitstring, pos: nat, lit: nat, dist: nat, n: nat)
    requires 257 <= lit <= 286 && 1 <= dist <= 30 && 4 <= n <= 19
    requires At(b, pos, CountBits(lit, dist, n))
    ensures ReadBits(b, pos, 5) == Some(lit - 257) && ReadBits(b, pos + 5, 5) == Some(dist - 1)
    ensures ReadBits(b, pos + 10, 4) == Some(n - 4)
  {
    hide At, ToBits, ReadBits, Pow2;
    var x, y, z := ToBits(lit - 257, 5), ToBits(dist - 1, 5), ToBits(n - 4, 4);
    AtSplit(b, pos, x + y, z);
    AtSplit(b, pos, x, y);
    FieldPowers();
    ReadField(b, pos, lit - 257, 5);
    ReadField(b, pos + 5, dist - 1, 5);
    ReadField(b, pos + 10, n - 4, 4);
  }

  lemma {:induction false} FieldPowers()
    ensures Pow2(4) == 16 && Pow2(5) == 32
  {
  }

  lemma {:induction false} LensDecode(b: Bitstring, pos: nat, lit: seq<nat>, dist: seq<nat>, cl: seq<nat>)
    requires BoundedLens(lit, 15) && BoundedLens(dist, 15) && Prefixable(cl, MAX_BITS)
    requires CoversOps(cl, Rle(lit)) && CoversOps(cl, Rle(dist)) && |lit| >= 1 && |dist| >= 1
    requires At(b, pos, OpsBits(cl, Rle(lit)) + OpsBits(cl, Rle(dist)))
    ensures InflateLens(b, pos, [], |lit| + |dist|, cl)
         == Some((pos + |OpsBits(cl, Rle(lit))| + |OpsBits(cl, Rle(dist))|, lit + dist))
  {
    hide At, OpsBits, Rle, InflateLens, Prefixable, BoundedLens;
    RleExpands([], lit);
    assert [] + lit == lit;
    RleExpands(lit, dist);
    var p, q := Rle(lit), Rle(dist);
    ApplyConcat([], p, q);
    OpsBitsConcat(cl, p, q);
    BothCovered(cl, p, q);
    OpsDecode(b, pos, [], |lit| + |dist|, cl, p + q);
    var end := pos + |OpsBits(cl, p)| + |OpsBits(cl, q)|;
    LensComplete(b, end, lit + dist, |lit| + |dist|, cl);
  }

  lemma {:induction false} BothCovered(cl: seq<nat>, p: seq<RleOp>, q: seq<RleOp>)
    requires CoversOps(cl, p) && CoversOps(cl, q)
    ensures CoversOps(cl, p + q)
  {
  }

  lemma {:induction false} LensComplete(b: Bitstring, pos: nat, acc: seq<nat>, total: nat, cl: seq<nat>)
    requires |acc| == total
    ensures InflateLens(b, pos, acc, total, cl) == Some((pos, acc))
  {
  }

  /** A dynamic block decodes to the bytes its tokens stand for. */
  lemma {:induction false} DynamicDecodes(b: Bitstring, pos: nat, out: seq<byte>, lit: seq<nat>, dist: seq<nat>,
                                          cl: seq<nat>, n: nat, ts: seq<Token>)
    requires DynamicOk(lit, dist, cl, n, ts) && Expand(out, ts).Some?
    requires At(b, pos, DynamicBits(lit, dist, cl, n, ts))
    ensures InflateDynamic(b, pos, out)
         == Some((pos + |DynamicBits(lit, dist, cl, n, ts)|, Expand(out, ts).value))
  {
    hide At, CountBits, ClBits, OpsBits, DataBits, Rle, InflateLens, InflateClLens, InflateData, Prefixable,
      BoundedLens, CoversOps, CoversAll, Unsent, ReadBits, Expand;
    CoversOk(cl, Rle(lit));
    CoversOk(cl, Rle(dist));
    var counts, cls := CountBits(|lit|, |dist|, n), ClBits(cl, n);
    var lits, dists, data := OpsBits(cl, Rle(lit)), OpsBits(cl, Rle(dist)), DataBits(lit, dist, ts);
    AtSplit(b, pos, TreesBits(lit, dist, cl, n), data);
    assert TreesBits(lit, dist, cl, n) == (counts + cls) + (lits + dists) by {
      Assoc(counts + cls, lits, dists);
    }
    AtSplit(b, pos, counts + cls, lits + dists);
    AtSplit(b, pos, counts, cls);
    CountsDecode(b, pos, |lit|, |dist|, n);
    NothingRead(cl);
    ClDecode(b, pos + 14, cl, n, 0, Repeat(0, 19));
    LensDecode(b, pos + 14 + 3 * n, lit, dist, cl);
    assert (lit + dist)[..|lit|] == lit && (lit + dist)[|lit|..] == dist;
    DataDecodes(b, pos + |TreesBits(lit, dist, cl, n)|, out, lit, dist, ts);
  }
}
