/** When the block that flush_block chooses is the shortest one, by how much it can miss that, and an input on which
    it does. */
module BlockChoice {
  import opened Bits
  import opened Options
  import opened CanonicalCode
  import opened Inflate
  import opened Tokens
  import opened TreeRle
  import opened DynamicBlock
  import opened Blocks
  import opened BlockTrees
  import opened BlockCoder

  // --- Sizes ---

  /** Bits that a stored block wastes on alignment when its header starts at bit pos. */
  function PadBits(pos: nat): nat {
    (8 - (pos + 3) % 8) % 8
  }

  function StoredSize(n: nat, pos: nat): nat {
    3 + PadBits(pos) + 32 + 8 * n
  }

  lemma {:induction false} StoredLength(bytes: seq<byte>, final: bool, pos: nat)
    requires |bytes| < TWO16
    ensures BlockOk(Stored(bytes)) && |BlockBits(Stored(bytes), final, pos)| == StoredSize(|bytes|, pos)
  {
    hide ToBits;
  }

  lemma {:induction false} StaticLength(ts: seq<Token>, final: bool, pos: nat)
    requires CoversAll(FIXED_LIT_LENS, FIXED_DIST_LENS, ts)
    ensures BlockOk(Static(ts))
    ensures |BlockBits(Static(ts), final, pos)| == 3 + |DataBits(FIXED_LIT_LENS, FIXED_DIST_LENS, ts)|
  {
    hide CoversAll, DataBits;
  }

  lemma {:induction false} DynamicLength(lit: seq<nat>, dist: seq<nat>, cl: seq<nat>, n: nat, ts: seq<Token>,
                                         final: bool, pos: nat)
    requires DynamicOk(lit, dist, cl, n, ts)
    ensures BlockOk(Dynamic(lit, dist, cl, n, ts))
    ensures |BlockBits(Dynamic(lit, dist, cl, n, ts), final, pos)| == 3 + |DynamicBits(lit, dist, cl, n, ts)|
  {
    hide DynamicOk, DynamicBits;
  }

  // --- The choice ---

  /** The choice on sizes alone: bits of the dynamic and of the static body, and the bytes to store if any. */
  predicate StoredChosen(own: nat, fixed: nat, stored: Option<nat>) {
    stored.Some? && stored.value + 4 <= Bytes(own) && stored.value + 4 <= Bytes(fixed)
  }

  /** The sizes for which the choice is right: a stored block must really be no longer, header and alignment included,
      and a static one no longer than the dynamic one although whole bytes were compared. */
  predicate ChoiceRight(own: nat, fixed: nat, stored: Option<nat>, pos: nat) {
    if StoredChosen(own, fixed, stored)
    then stored.value * 8 + 32 + PadBits(pos) <= own && stored.value * 8 + 32 + PadBits(pos) <= fixed
    else fixed <= own || Bytes(own) < Bytes(fixed)
  }

  /** The bits of the block chosen. */
  function ChosenSize(own: nat, fixed: nat, stored: Option<nat>, pos: nat): nat {
    if StoredChosen(own, fixed, stored) then StoredSize(stored.value, pos)
    else if Bytes(fixed) <= Bytes(own) then 3 + fixed
    else 3 + own
  }

  /** The bits of the shortest block. */
  function LeastSize(own: nat, fixed: nat, stored: Option<nat>, pos: nat): nat {
    var least := 3 + if fixed <= own then fixed else own;
    if stored.Some? && StoredSize(stored.value, pos) < least then StoredSize(stored.value, pos) else least
  }

  lemma {:induction false} SizesCompare(own: nat, fixed: nat, stored: Option<nat>, pos: nat)
    ensures var c, m := ChosenSize(own, fixed, stored, pos), LeastSize(own, fixed, stored, pos);
      && m <= c && (c == m <==> ChoiceRight(own, fixed, stored, pos))
      && c - m <= (if StoredChosen(own, fixed, stored) then 10 + PadBits(pos)
                   else if Bytes(fixed) <= Bytes(own) then 7
                   else 0)
  {
  }

  function SizeOf(stored: Option<seq<byte>>): Option<nat> {
    if stored.Some? then Some(|stored.value|) else None
  }

  /** The block x takes no more bits at pos than any of the three that could be sent. */
  ghost predicate IsShortest(x: Block, ts: seq<Token>, lit: seq<nat>, dist: seq<nat>, cl: seq<nat>, n: nat,
                             stored: Option<seq<byte>>, final: bool, pos: nat)
  {
    && BlockOk(x) && BlockOk(Static(ts)) && BlockOk(Dynamic(lit, dist, cl, n, ts))
    && |BlockBits(x, final, pos)| <= |BlockBits(Static(ts), final, pos)|
    && |BlockBits(x, final, pos)| <= |BlockBits(Dynamic(lit, dist, cl, n, ts), final, pos)|
    && (stored.Some? && |stored.value| < TWO16 ==>
          |BlockBits(x, final, pos)| <= |BlockBits(Stored(stored.value), final, pos)|)
  }

  /** The block that flush_block sends is the shortest if and only if the sizes allow it, and otherwise at most 17 bits
      longer: 10 bits and the alignment if it is stored, 7 bits if it is static, none if it is dynamic. */
  lemma {:induction false} ShortestSent(x: Block, ts: seq<Token>, lit: seq<nat>, dist: seq<nat>, cl: seq<nat>, n: nat,
                                        stored: Option<seq<byte>>, final: bool, pos: nat)
    requires Chosen(x, ts, lit, dist, cl, n, stored) && (stored.Some? ==> |stored.value| < TWO16)
    ensures DynamicOk(lit, dist, cl, n, ts) && CoversAll(FIXED_LIT_LENS, FIXED_DIST_LENS, ts) && BlockOk(x)
    ensures var own, fixed := |DynamicBits(lit, dist, cl, n, ts)|, |DataBits(FIXED_LIT_LENS, FIXED_DIST_LENS, ts)|;
      var least := LeastSize(own, fixed, SizeOf(stored), pos);
      && (IsShortest(x, ts, lit, dist, cl, n, stored, final, pos) <==> ChoiceRight(own, fixed, SizeOf(stored), pos))
      && least <= |BlockBits(x, final, pos)|
      && |BlockBits(x, final, pos)| <= least + (if x.Stored? then 10 + PadBits(pos) else if x.Static? then 7 else 0)
  {
    hide DynamicOk, CoversAll, DataBits, DynamicBits, BlockBits, DistForced, BlockOk, Bytes, PadBits;
    var own, fixed := |DynamicBits(lit, dist, cl, n, ts)|, |DataBits(FIXED_LIT_LENS, FIXED_DIST_LENS, ts)|;
    if stored.Some? {
      StoredLength(stored.value, final, pos);
    }
    StaticLength(ts, final, pos);
    DynamicLength(lit, dist, cl, n, ts, final, pos);
    SizesCompare(own, fixed, SizeOf(stored), pos);
  }

  // --- An input for which it is not ---

  /** Fifteen different bytes whose fixed codes have nine bits. */
  const FIFTEEN: seq<byte> := [0x90, 0x91, 0x92, 0x93, 0x94, 0x95, 0x96, 0x97, 0x98, 0x99, 0x9a, 0x9b, 0x9c, 0x9d, 0x9e]

  function Literals(s: seq<byte>): seq<Token> {
    seq(|s|, i requires 0 <= i < |s| => Literal(s[i]))
  }

  lemma {:induction false} Fifteen()
    ensures |FIFTEEN| == 15 && forall i :: 0 <= i < 15 ==> FIFTEEN[i] == 144 + i
  {
  }

  function LitSum(lit: seq<nat>, k: nat): nat
    requires 144 + k <= |lit|
  {
    if k == 0 then 0 else LitSum(lit, k - 1) + lit[143 + k]
  }

  lemma {:induction false} LiteralBits(lit: seq<nat>, dist: seq<nat>, k: nat)
    requires k <= 15 && CoversAll(lit, dist, Literals(FIFTEEN)) && 159 <= |lit|
    ensures |Literals(FIFTEEN)| == 15 && CoversAll(lit, dist, Literals(FIFTEEN)[..k])
    ensures |TokensBits(lit, dist, Literals(FIFTEEN)[..k])| == LitSum(lit, k)
  {
    hide FIFTEEN, Covers;
    Fifteen();
    var ts := Literals(FIFTEEN);
    if k > 0 {
      LiteralBits(lit, dist, k - 1);
      assert ts[..k][..k - 1] == ts[..k - 1] && ts[..k][k - 1] == ts[k - 1] == Literal(143 + k);
    }
  }

  lemma {:induction false} DataLength(lit: seq<nat>, dist: seq<nat>)
    requires CoversAll(lit, dist, Literals(FIFTEEN)) && 257 <= |lit|
    ensures |DataBits(lit, dist, Literals(FIFTEEN))| == LitSum(lit, 15) + lit[256]
  {
    hide FIFTEEN, TokensBits, CoversAll;
    LiteralBits(lit, dist, 15);
    assert Literals(FIFTEEN)[..15] == Literals(FIFTEEN);
  }

  lemma {:induction false} FixedSum(k: nat)
    requires k <= 15
    ensures LitSum(FIXED_LIT_LENS, k) == 9 * k
  {
    hide FIXED_LIT_LENS;
    FixedLens();
    if k > 0 {
      FixedSum(k - 1);
    }
  }

  lemma {:induction false} FixedLens()
    ensures |FIXED_LIT_LENS| == 288 && FIXED_LIT_LENS[256] == 7
    ensures forall i :: 144 <= i < 256 ==> FIXED_LIT_LENS[i] == 9
  {
  }

  function Lack(len: int): int {
    5 - len
  }

  /** What the sixteen symbols lack of five bits each. */
  function Slack(lit: seq<nat>, n: nat): int
    requires n <= |lit|
  {
    if n == 0 then 0
    else Slack(lit, n - 1) + if 144 <= n - 1 < 159 || n - 1 == 256 then Lack(lit[n - 1]) else 0
  }

  lemma {:induction false} SlackIs(lit: seq<nat>, n: nat)
    requires n <= |lit| && |lit| >= 257
    ensures Slack(lit, n) == (if n <= 144 then 0
                              else if n <= 159 then 5 * (n - 144) - LitSum(lit, n - 144)
                              else 75 - LitSum(lit, 15))
                             + if n <= 256 then 0 else Lack(lit[256])
  {
    if n > 0 {
      SlackIs(lit, n - 1);
    }
  }

  lemma {:induction false} Tangent(len: nat)
    requires 1 <= len <= 15
    ensures 2048 * (5 - len) <= Pow2(15 - len)
  {
    hide Pow2;
    Pow2Small();
    if len <= 4 {
      assert len == 1 || len == 2 || len == 3 || len == 4;
    }
  }

  lemma {:induction false} Pow2Small()
    ensures Pow2(14) == 16384 && Pow2(13) == 8192 && Pow2(12) == 4096 && Pow2(11) == 2048
  {
  }

  lemma {:induction false} KraftSlack(lit: seq<nat>, n: nat)
    requires n <= |lit| && BoundedLens(lit, 15)
    requires forall s :: 144 <= s < 159 && s < |lit| ==> lit[s] > 0
    requires 256 < |lit| ==> lit[256] > 0
    ensures 2048 * Slack(lit, n) <= KraftSum(lit[..n], 15)
  {
    hide Pow2;
    if n > 0 {
      KraftSlack(lit, n - 1);
      assert lit[..n][..n - 1] == lit[..n - 1];
      if lit[n - 1] > 0 {
        Tangent(lit[n - 1]);
      }
    }
  }

  /** No code for sixteen symbols takes fewer than four bits for each on average. */
  lemma {:induction false} DataAtLeast(lit: seq<nat>, dist: seq<nat>)
    requires CoversAll(lit, dist, Literals(FIFTEEN)) && Prefixable(lit, 15) && 257 <= |lit|
    ensures |DataBits(lit, dist, Literals(FIFTEEN))| >= 64
  {
    hide FIFTEEN, DataBits, Pow2, KraftSum, Slack, LitSum;
    Fifteen();
    forall s | 144 <= s < 159
      ensures lit[s] > 0
    {
      assert Literals(FIFTEEN)[s - 144] == Literal(s);
      assert Covers(lit, dist, Literals(FIFTEEN)[s - 144]);
    }
    DataLength(lit, dist);
    KraftSlack(lit, |lit|);
    SlackIs(lit, |lit|);
    assert lit[..|lit|] == lit;
    Pow2Fifteen();
  }

  lemma {:induction false} Pow2Fifteen()
    ensures Pow2(15) == 32768
  {
    Pow2Small();
    assert Pow2(15) == 2 * Pow2(14);
  }

  /** No coded tree takes fewer than 8 bits for every 138 lengths. */
  lemma {:induction false} OpsDense(cl: seq<nat>, acc: seq<nat>, ops: seq<RleOp>)
    requires CoversOps(cl, ops) && ApplyOps(acc, ops).Some?
    ensures 8 * (|ApplyOps(acc, ops).value| - |acc|) <= 138 * |OpsBits(cl, ops)|
  {
    if ops != [] {
      var k := |ops| - 1;
      assert CoversOps(cl, ops[..k]);
      OpsDense(cl, acc, ops[..k]);
      var op := ops[k];
      assert OpOk(op) && cl[Sym(op)] > 0;
    }
  }

  lemma {:induction false} TreeAtLeast(cl: seq<nat>, lens: seq<nat>)
    requires CoversOps(cl, Rle(lens)) && BoundedLens(lens, 15)
    ensures 8 * |lens| <= 138 * |OpsBits(cl, Rle(lens))|
  {
    hide Rle, CoversOps, OpsBits, ApplyOps;
    RleExpands([], lens);
    assert [] + lens == lens;
    OpsDense(cl, [], Rle(lens));
  }

  lemma {:induction false} LenKept(acc: seq<nat>, ops: seq<RleOp>, i: nat)
    requires i < |ops| && ops[i].Len? && ApplyOps(acc, ops).Some?
    ensures ops[i].len in ApplyOps(acc, ops).value
  {
    if i < |ops| - 1 {
      LenKept(acc, ops[..|ops| - 1], i);
    }
  }

  /** A forced distance code makes the length 1 occur, which is sent last but one. */
  lemma {:induction false} ForcedRank(dist: seq<nat>, cl: seq<nat>, n: nat)
    requires BoundedLens(dist, 1) && dist != [] && dist[|dist| - 1] > 0 && CoversOps(cl, Rle(dist)) && Unsent(cl, n)
    ensures n >= 18
  {
    hide Rle, ApplyOps, CL_ORDER;
    RleExpands([], dist);
    assert [] + dist == dist;
    var ops := Rle(dist);
    if forall i :: 0 <= i < |ops| && ops[i].Len? ==> ops[i].len == 0 {
      OnlyZeros([], ops);
    } else {
      var i :| 0 <= i < |ops| && ops[i].Len? && ops[i].len > 0;
      LenKept([], ops, i);
      assert ops[i].len == 1 && cl[Sym(ops[i])] > 0;
      assert RANK[1] == 17;
    }
  }

  /** Whatever codes are built for these literals, the dynamic block takes at least 148 bits. */
  lemma {:induction false} DynamicAtLeast(lit: seq<nat>, dist: seq<nat>, cl: seq<nat>, n: nat)
    requires DynamicOk(lit, dist, cl, n, Literals(FIFTEEN)) && DistForced(Literals(FIFTEEN), dist)
    ensures |DynamicBits(lit, dist, cl, n, Literals(FIFTEEN))| >= 148
  {
    hide FIFTEEN, DataBits, CountBits, ClBits, OpsBits, Rle, CoversAll, Prefixable, CoversOps, Unsent, BoundedLens,
      Literals;
    LiteralsOnly();
    CoversOk(cl, Rle(lit));
    CoversOk(cl, Rle(dist));
    WideBounded(dist);
    ForcedRank(dist, cl, n);
    DataAtLeast(lit, dist);
    TreeAtLeast(cl, lit);
    TreeAtLeast(cl, dist);
  }

  lemma {:induction false} WideBounded(dist: seq<nat>)
    requires BoundedLens(dist, 1)
    ensures BoundedLens(dist, 15)
  {
  }

  lemma {:induction false} LiteralsOnly()
    ensures AllLiterals(Literals(FIFTEEN))
  {
  }

  /** The block that holds these fifteen bytes as literals is stored, whatever codes were built for them, and this is
      longer than the static block: by 15 bits at the start of a stream, by as much as the bound allows anywhere. */
  lemma {:induction false} StoredTooLong(x: Block, lit: seq<nat>, dist: seq<nat>, cl: seq<nat>, n: nat, final: bool,
                                         pos: nat)
    requires Chosen(x, Literals(FIFTEEN), lit, dist, cl, n, Some(FIFTEEN))
    ensures x == Stored(FIFTEEN) && BlockOk(x) && BlockOk(Static(Literals(FIFTEEN)))
    ensures |BlockBits(x, final, pos)| == 155 + PadBits(pos)
    ensures |BlockBits(Static(Literals(FIFTEEN)), final, pos)| == 145
    ensures !IsShortest(x, Literals(FIFTEEN), lit, dist, cl, n, Some(FIFTEEN), final, pos)
    ensures PadBits(0) == 5
  {
    hide FIFTEEN, DataBits, DynamicBits, DynamicOk, CoversAll, DistForced, BlockBits, BlockOk, Literals;
    var ts := Literals(FIFTEEN);
    Fifteen();
    FixedLens();
    DataLength(FIXED_LIT_LENS, FIXED_DIST_LENS);
    FixedSum(15);
    DynamicAtLeast(lit, dist, cl, n);
    StoredLength(FIFTEEN, final, pos);
    StaticLength(ts, final, pos);
  }
}
