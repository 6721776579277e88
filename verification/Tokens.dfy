/** What the match finder hands to the block coder: literals and (length, distance) pairs, their
    meaning as bytes, their bits under a pair of codes, and the decoding of those bits. */
module Tokens {
  import opened Bits
  import opened Options
  import opened CanonicalCode
  import opened Inflate

  const MIN_MATCH: nat := 3
  const MAX_MATCH: nat := 258

  predicate InRange(t: Token) {
    t.Match? ==> MIN_MATCH <= t.length <= MAX_MATCH && 1 <= t.distance <= 0x8000
  }

  predicate AllInRange(ts: seq<Token>) {
    forall i :: 0 <= i < |ts| ==> InRange(ts[i])
  }

  /** The bytes obtained by applying the tokens, in order, after out. */
  function Expand(out: seq<byte>, ts: seq<Token>): (r: Option<seq<byte>>) {
    if ts == [] then Some(out)
    else
      match Expand(out, ts[..|ts| - 1])
      case None => None
      case Some(o) => Step(o, ts[|ts| - 1])
  }

  lemma {:induction false} ExpandOne(out: seq<byte>, ts: seq<Token>, t: Token)
    requires Expand(out, ts).Some?
    ensures Expand(out, ts + [t]) == Step(Expand(out, ts).value, t)
  {
    assert (ts + [t])[..|ts|] == ts;
  }

  // --- Length and distance codes ---

  /** Code c stands for match length l. The last code has no range: it is length 258 alone. */
  predicate LengthInCode(l: nat, c: nat) {
    && c <= 28
    && (c == 28 <==> l == MAX_MATCH)
    && LengthBase(c) <= l < LengthBase(c) + Pow2(LengthExtra(c))
  }

  predicate DistInCode(d: nat, c: nat) {
    c < 30 && DistBase(c) <= d < DistBase(c) + Pow2(DistExtra(c))
  }

  lemma {:induction false} LengthCodeBelow(l: nat, c: nat) returns (r: nat)
    requires c < 28 && MIN_MATCH <= l < LengthBase(c) + Pow2(LengthExtra(c)) && l != MAX_MATCH
    ensures LengthInCode(l, r) && r <= c
  {
    if LengthBase(c) <= l {
      r := c;
    } else {
      r := LengthCodeBelow(l, c - 1);
    }
  }

  lemma {:induction false} LengthCodeExists(l: nat)
    requires MIN_MATCH <= l <= MAX_MATCH
    ensures exists c: nat :: LengthInCode(l, c)
  {
    RfcLengthTable();
    if l == MAX_MATCH {
      assert LengthInCode(l, 28);
    } else {
      assert Pow2(LengthExtra(27)) == 32;
      var c := LengthCodeBelow(l, 27);
    }
  }

  lemma {:induction false} DistCodeBelow(d: nat, c: nat) returns (r: nat)
    requires c < 30 && 1 <= d < DistBase(c) + Pow2(DistExtra(c))
    ensures DistInCode(d, r) && r <= c
  {
    if DistBase(c) <= d {
      r := c;
    } else {
      r := DistCodeBelow(d, c - 1);
    }
  }

  lemma {:induction false} DistCodeExists(d: nat)
    requires 1 <= d <= 0x8000
    ensures exists c: nat :: DistInCode(d, c)
  {
    RfcDistTable();
    assert Pow2(DistExtra(29)) == 0x2000;
    var c := DistCodeBelow(d, 29);
  }

  lemma {:induction false} LengthBaseMonotone(c: nat, c': nat)
    requires c < c' < 28
    ensures LengthBase(c) + Pow2(LengthExtra(c)) <= LengthBase(c')
  {
    if c + 1 < c' {
      LengthBaseMonotone(c, c' - 1);
    }
  }

  lemma {:induction false} DistBaseMonotone(c: nat, c': nat)
    requires c < c'
    ensures DistBase(c) + Pow2(DistExtra(c)) <= DistBase(c')
  {
    if c + 1 < c' {
      DistBaseMonotone(c, c' - 1);
    }
  }

  lemma {:induction false} LengthCodeUnique(l: nat, c: nat, c': nat)
    requires LengthInCode(l, c) && LengthInCode(l, c')
    ensures c == c'
  {
    if c < c' < 28 {
      LengthBaseMonotone(c, c');
    } else if c' < c < 28 {
      LengthBaseMonotone(c', c);
    }
  }

  lemma {:induction false} DistCodeUnique(d: nat, c: nat, c': nat)
    requires DistInCode(d, c) && DistInCode(d, c')
    ensures c == c'
  {
    if c < c' {
      DistBaseMonotone(c, c');
    } else if c' < c {
      DistBaseMonotone(c', c);
    }
  }

  ghost function LengthCode(l: nat): (c: nat)
    requires MIN_MATCH <= l <= MAX_MATCH
    ensures LengthInCode(l, c)
  {
    LengthCodeExists(l);
    var c: nat :| LengthInCode(l, c);
    c
  }

  ghost function DistCode(d: nat): (c: nat)
    requires 1 <= d <= 0x8000
    ensures DistInCode(d, c)
  {
    DistCodeExists(d);
    var c: nat :| DistInCode(d, c);
    c
  }

  // --- Bits of tokens ---

  /** The literal/length symbol of a token. */
  ghost function LitSymbol(t: Token): (s: nat)
    requires InRange(t)
    ensures s < 286 && s != END_BLOCK
  {
    match t
    case Literal(x) => x
    case Match(length, _) => 257 + LengthCode(length)
  }

  /** The codes have a word for every symbol the token needs. */
  ghost predicate Covers(lit: seq<nat>, dist: seq<nat>, t: Token) {
    && InRange(t)
    && LitSymbol(t) < |lit| && lit[LitSymbol(t)] > 0
    && (t.Match? ==> DistCode(t.distance) < |dist| && dist[DistCode(t.distance)] > 0)
  }

  ghost predicate CoversAll(lit: seq<nat>, dist: seq<nat>, ts: seq<Token>) {
    && END_BLOCK < |lit| && lit[END_BLOCK] > 0
    && forall i :: 0 <= i < |ts| ==> Covers(lit, dist, ts[i])
  }

  /** A length: its code, then its extra bits. */
  ghost function LengthBits(lit: seq<nat>, length: nat): (w: Bitstring)
    requires MIN_MATCH <= length <= MAX_MATCH && 257 + LengthCode(length) < |lit|
    ensures |w| == lit[257 + LengthCode(length)] + LengthExtra(LengthCode(length))
  {
    var c := LengthCode(length);
    CodeWord(lit, 257 + c) + ToBits(length - LengthBase(c), LengthExtra(c))
  }

  /** A distance: its code, then its extra bits. */
  ghost function DistBits(dist: seq<nat>, distance: nat): (w: Bitstring)
    requires 1 <= distance <= 0x8000 && DistCode(distance) < |dist|
    ensures |w| == dist[DistCode(distance)] + DistExtra(DistCode(distance))
  {
    var c := DistCode(distance);
    CodeWord(dist, c) + ToBits(distance - DistBase(c), DistExtra(c))
  }

  /** Section 3.2.5: a literal's code, or a length with its extra bits followed by a distance with its. */
  ghost function TokenBits(lit: seq<nat>, dist: seq<nat>, t: Token): (w: Bitstring)
    requires Covers(lit, dist, t)
  {
    match t
    case Literal(x) => CodeWord(lit, x)
    case Match(length, distance) => LengthBits(lit, length) + DistBits(dist, distance)
  }

  ghost function TokensBits(lit: seq<nat>, dist: seq<nat>, ts: seq<Token>): (w: Bitstring)
    requires CoversAll(lit, dist, ts)
  {
    if ts == [] then []
    else TokensBits(lit, dist, ts[..|ts| - 1]) + TokenBits(lit, dist, ts[|ts| - 1])
  }

  /** The compressed data of a block. */
  ghost function DataBits(lit: seq<nat>, dist: seq<nat>, ts: seq<Token>): (w: Bitstring)
    requires CoversAll(lit, dist, ts)
  {
    TokensBits(lit, dist, ts) + CodeWord(lit, END_BLOCK)
  }

  lemma {:induction false} ReadField(b: Bitstring, pos: nat, v: nat, n: nat)
    requires v < Pow2(n) && At(b, pos, ToBits(v, n))
    ensures ReadBits(b, pos, n) == Some(v)
  {
    FromToBits(v, n);
    LowNoop(v, n);
  }

  lemma {:induction false} DistDecodes(b: Bitstring, pos: nat, dist: seq<nat>, distance: nat)
    requires Prefixable(dist, MAX_BITS) && 1 <= distance <= 0x8000
    requires DistCode(distance) < |dist| && dist[DistCode(distance)] > 0
    requires At(b, pos, DistBits(dist, distance))
    ensures DecodeDistance(b, pos, dist) == Some((pos + |DistBits(dist, distance)|, distance))
  {
    hide CodeWord, Prefixable, FindSymbol;
    var d := DistCode(distance);
    AtSplit(b, pos, CodeWord(dist, d), ToBits(distance - DistBase(d), DistExtra(d)));
    CodeWordDecodes(dist, MAX_BITS, b, pos, d);
    ReadField(b, pos + dist[d], distance - DistBase(d), DistExtra(d));
  }

  lemma {:induction false} LengthDecodes(b: Bitstring, pos: nat, lit: seq<nat>, length: nat)
    requires Prefixable(lit, MAX_BITS) && MIN_MATCH <= length <= MAX_MATCH
    requires 257 + LengthCode(length) < |lit| && lit[257 + LengthCode(length)] > 0
    requires At(b, pos, LengthBits(lit, length))
    ensures var c := LengthCode(length);
      && FindSymbol(lit, b, pos, 0) == Some(257 + c)
      && ReadBits(b, pos + lit[257 + c], LengthExtra(c)) == Some(length - LengthBase(c))
  {
    hide CodeWord, Prefixable, FindSymbol;
    var c := LengthCode(length);
    AtSplit(b, pos, CodeWord(lit, 257 + c), ToBits(length - LengthBase(c), LengthExtra(c)));
    CodeWordDecodes(lit, MAX_BITS, b, pos, 257 + c);
    ReadField(b, pos + lit[257 + c], length - LengthBase(c), LengthExtra(c));
  }

  lemma {:induction false} TokenDecodes(b: Bitstring, pos: nat, lit: seq<nat>, dist: seq<nat>, t: Token)
    requires Prefixable(lit, MAX_BITS) && Prefixable(dist, MAX_BITS)
    requires Covers(lit, dist, t)
    requires At(b, pos, TokenBits(lit, dist, t))
    ensures DecodeItem(b, pos, lit, dist) == Some((pos + |TokenBits(lit, dist, t)|, Data(t)))
  {
    hide CodeWord, Prefixable, FindSymbol, At, DistBits, LengthBits, ReadBits, LengthBase, LengthExtra, DecodeDistance;
    if t.Literal? {
      CodeWordDecodes(lit, MAX_BITS, b, pos, t.value);
    } else {
      AtSplit(b, pos, LengthBits(lit, t.length), DistBits(dist, t.distance));
      LengthDecodes(b, pos, lit, t.length);
      DistDecodes(b, pos + |LengthBits(lit, t.length)|, dist, t.distance);
    }
  }

  /** Decoding the bits of tokens applies the tokens. */
  lemma {:induction false} TokensDecode(b: Bitstring, pos: nat, out: seq<byte>, lit: seq<nat>, dist: seq<nat>,
                                        ts: seq<Token>)
    requires Prefixable(lit, MAX_BITS) && Prefixable(dist, MAX_BITS)
    requires CoversAll(lit, dist, ts) && Expand(out, ts).Some?
    requires At(b, pos, TokensBits(lit, dist, ts))
    ensures InflateData(b, pos, out, lit, dist)
         == InflateData(b, pos + |TokensBits(lit, dist, ts)|, Expand(out, ts).value, lit, dist)
  {
    hide TokenBits, Prefixable, At, DecodeItem, Covers;
    if ts != [] {
      var init, t := ts[..|ts| - 1], ts[|ts| - 1];
      var w := TokensBits(lit, dist, init);
      AtSplit(b, pos, w, TokenBits(lit, dist, t));
      TokensDecode(b, pos, out, lit, dist, init);
      TokenDecodes(b, pos + |w|, lit, dist, t);
    }
  }

  /** The data of a block decodes to the bytes its tokens stand for. */
  lemma {:induction false} DataDecodes(b: Bitstring, pos: nat, out: seq<byte>, lit: seq<nat>, dist: seq<nat>,
                                       ts: seq<Token>)
    requires Prefixable(lit, MAX_BITS) && Prefixable(dist, MAX_BITS)
    requires CoversAll(lit, dist, ts) && Expand(out, ts).Some?
    requires At(b, pos, DataBits(lit, dist, ts))
    ensures InflateData(b, pos, out, lit, dist)
         == Some((pos + |DataBits(lit, dist, ts)|, Expand(out, ts).value))
  {
    hide CodeWord, Prefixable, FindSymbol, At, TokensBits;
    var w := TokensBits(lit, dist, ts);
    AtSplit(b, pos, w, CodeWord(lit, END_BLOCK));
    TokensDecode(b, pos, out, lit, dist, ts);
    CodeWordDecodes(lit, MAX_BITS, b, pos + |w|, END_BLOCK);
  }
}
