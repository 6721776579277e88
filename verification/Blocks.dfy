/** The three kinds of block: their bits, and the reason the decoder gets the bytes back. */
module Blocks {
  import opened Bits
  import opened Options
  import opened CanonicalCode
  import opened Inflate
  import opened Tokens
  import opened DynamicBlock
  import opened StaticTrees
  import W = BitWriter

  datatype Block = Stored(bytes: seq<byte>)
                 | Static(tokens: seq<Token>)
                 | Dynamic(lit: seq<nat>, dist: seq<nat>, cl: seq<nat>, n: nat, tokens: seq<Token>)

  ghost predicate BlockOk(x: Block) {
    match x
    case Stored(bytes) => |bytes| < TWO16
    case Static(ts) => CoversAll(FIXED_LIT_LENS, FIXED_DIST_LENS, ts)
    case Dynamic(lit, dist, cl, n, ts) => DynamicOk(lit, dist, cl, n, ts)
  }

  /** The output after the block, when out precedes it. */
  ghost function BlockOut(out: seq<byte>, x: Block): Option<seq<byte>> {
    match x
    case Stored(bytes) => Some(out + bytes)
    case Static(ts) => Expand(out, ts)
    case Dynamic(_, _, _, _, ts) => Expand(out, ts)
  }

  function Kind(x: Block): (k: nat)
    ensures k <= 2
  {
    if x.Stored? then 0 else if x.Static? then 1 else 2
  }

  /** Number and complement of the bytes, then the bytes, all of it aligned. */
  ghost function StoredBits(bytes: seq<byte>, pos: nat): (w: Bitstring)
    requires |bytes| < TWO16
  {
    (W.PadTo8(pos) + (ToBits(|bytes|, 16) + ToBits(TWO16 - 1 - |bytes|, 16))) + BytesToBits(bytes)
  }

  ghost function BodyBits(x: Block, pos: nat): (w: Bitstring)
    requires BlockOk(x)
  {
    match x
    case Stored(bytes) => StoredBits(bytes, pos)
    case Static(ts) => DataBits(FIXED_LIT_LENS, FIXED_DIST_LENS, ts)
    case Dynamic(lit, dist, cl, n, ts) => DynamicBits(lit, dist, cl, n, ts)
  }

  function HeaderBits(kind: nat, final: bool): (w: Bitstring)
    ensures |w| == 3
  {
    ToBits(2 * kind + if final then 1 else 0, 3)
  }

  /** All bits of a block that starts at bit pos. */
  ghost function BlockBits(x: Block, final: bool, pos: nat): (w: Bitstring)
    requires BlockOk(x)
  {
    HeaderBits(Kind(x), final) + BodyBits(x, pos + 3)
  }

  lemma {:induction false} PadAligns(pos: nat)
    ensures Aligned(pos) == pos + |W.PadTo8(pos)|
  {
  }

  lemma {:induction false} BytesDecode(b: Bitstring, pos: nat, bytes: seq<byte>)
    requires At(b, pos, BytesToBits(bytes))
    ensures |BytesToBits(bytes)| == 8 * |bytes| && BytesAt(b, pos, |bytes|) == bytes
    decreases |bytes|
  {
    hide At, ToBits;
    if bytes != [] {
      assert bytes == [bytes[0]] + bytes[1..];
      BytesToBitsConcat([bytes[0]], bytes[1..]);
      assert BytesToBits([bytes[0]]) == ToBits(bytes[0], 8) by {
        assert [bytes[0]][..0] == [];
      }
      AtSplit(b, pos, ToBits(bytes[0], 8), BytesToBits(bytes[1..]));
      ByteField(b, pos, bytes[0]);
      BytesDecode(b, pos + 8, bytes[1..]);
    }
  }

  lemma {:induction false} ByteField(b: Bitstring, pos: nat, x: byte)
    requires At(b, pos, ToBits(x, 8))
    ensures pos + 8 <= |b| && FromBits(b[pos..pos + 8]) == x
  {
    Pow2Values();
    ReadField(b, pos, x, 8);
  }

  lemma {:induction false} StoredDecodes(b: Bitstring, pos: nat, out: seq<byte>, bytes: seq<byte>)
    requires |bytes| < TWO16 && At(b, pos, StoredBits(bytes, pos))
    ensures InflateStored(b, pos, out) == Some((pos + |StoredBits(bytes, pos)|, out + bytes))
  {
    hide At, ToBits, Pow2, ReadBits, BytesToBits, BytesAt, W.PadTo8;
    var pad, lens := W.PadTo8(pos), ToBits(|bytes|, 16) + ToBits(TWO16 - 1 - |bytes|, 16);
    AtSplit(b, pos, pad + lens, BytesToBits(bytes));
    AtSplit(b, pos, pad, lens);
    AtSplit(b, pos + |pad|, ToBits(|bytes|, 16), ToBits(TWO16 - 1 - |bytes|, 16));
    PadAligns(pos);
    Pow2Values();
    ReadField(b, pos + |pad|, |bytes|, 16);
    ReadField(b, pos + |pad| + 16, TWO16 - 1 - |bytes|, 16);
    BytesDecode(b, pos + |pad| + 32, bytes);
    AtFits(b, pos + |pad| + 32, BytesToBits(bytes));
  }

  lemma {:induction false} AtFits(b: Bitstring, pos: nat, w: Bitstring)
    requires At(b, pos, w)
    ensures pos + |w| <= |b|
  {
  }

  lemma {:induction false} HeaderDecodes(b: Bitstring, pos: nat, kind: nat, final: bool)
    requires kind <= 2 && At(b, pos, HeaderBits(kind, final))
    ensures ReadBits(b, pos, 1) == Some(if final then 1 else 0) && ReadBits(b, pos + 1, 2) == Some(kind)
  {
    var f := if final then 1 else 0;
    ToBitsConcat(f, 1, kind, 2);
    assert Shl(kind, 1) == 2 * kind;
    assert Pow2(1) == 2 && Pow2(2) == 4;
    hide At, ToBits, Pow2, ReadBits;
    AtSplit(b, pos, ToBits(f, 1), ToBits(kind, 2));
    ReadField(b, pos, f, 1);
    ReadField(b, pos + 1, kind, 2);
  }

  lemma {:induction false} BodyDecodes(b: Bitstring, pos: nat, out: seq<byte>, x: Block)
    requires BlockOk(x) && BlockOut(out, x).Some? && At(b, pos, BodyBits(x, pos))
    ensures var r := Some((pos + |BodyBits(x, pos)|, BlockOut(out, x).value));
      match x
      case Stored(_) => InflateStored(b, pos, out) == r
      case Static(_) => InflateData(b, pos, out, FIXED_LIT_LENS, FIXED_DIST_LENS) == r
      case Dynamic(_, _, _, _, _) => InflateDynamic(b, pos, out) == r
  {
    hide At, StoredBits, DataBits, DynamicBits, InflateStored, InflateData, InflateDynamic, Expand, CoversAll,
      DynamicOk, Prefixable, Repeat;
    match x
    case Stored(bytes) => StoredDecodes(b, pos, out, bytes);
    case Static(ts) =>
      FixedPrefixable();
      DataDecodes(b, pos, out, FIXED_LIT_LENS, FIXED_DIST_LENS, ts);
    case Dynamic(lit, dist, cl, n, ts) => DynamicDecodes(b, pos, out, lit, dist, cl, n, ts);
  }

  /** A block of any kind, wherever it starts, decodes to its bytes. */
  lemma {:induction false} BlockDecodes(b: Bitstring, pos: nat, out: seq<byte>, x: Block, final: bool)
    requires BlockOk(x) && BlockOut(out, x).Some? && At(b, pos, BlockBits(x, final, pos))
    ensures InflateFrom(b, pos, out) ==
      if final then Some((pos + |BlockBits(x, final, pos)|, BlockOut(out, x).value))
      else InflateFrom(b, pos + |BlockBits(x, final, pos)|, BlockOut(out, x).value)
  {
    hide At, BodyBits, HeaderBits, BlockOut, BlockOk, InflateStored, InflateData, InflateDynamic, ReadBits;
    AtSplit(b, pos, HeaderBits(Kind(x), final), BodyBits(x, pos + 3));
    HeaderDecodes(b, pos, Kind(x), final);
    BodyDecodes(b, pos + 3, out, x);
  }

  // --- Whole streams ---

  /** However the stream goes on after d, decoding it has produced out when it reaches the end of d. */
  ghost predicate Decoded(d: Bitstring, out: seq<byte>) {
    forall b: Bitstring :: d <= b ==> InflateAll(b) == InflateFrom(b, |d|, out)
  }

  /** Whatever follows d, the stream ends with d and decodes to out. */
  ghost predicate Complete(d: Bitstring, out: seq<byte>) {
    forall b: Bitstring :: d <= b ==> InflateAll(b) == Some((|d|, out))
  }

  lemma {:induction false} DecodedEmpty()
    ensures Decoded([], [])
  {
  }

  lemma {:induction false} DecodedMore(d: Bitstring, out: seq<byte>, x: Block, final: bool)
    requires Decoded(d, out) && BlockOk(x) && BlockOut(out, x).Some?
    ensures var d' := d + BlockBits(x, final, |d|);
      if final then Complete(d', BlockOut(out, x).value) else Decoded(d', BlockOut(out, x).value)
  {
    hide BlockBits, BlockOut, BlockOk, InflateFrom;
    var d' := d + BlockBits(x, final, |d|);
    forall b: Bitstring | d' <= b
      ensures InflateAll(b)
           == if final then Some((|d'|, BlockOut(out, x).value)) else InflateFrom(b, |d'|, BlockOut(out, x).value)
    {
      PrefixAt(d, BlockBits(x, final, |d|), b);
      BlockDecodes(b, |d|, out, x, final);
    }
  }

  lemma {:induction false} PrefixAt(d: Bitstring, w: Bitstring, b: Bitstring)
    requires d + w <= b
    ensures d <= b && At(b, |d|, w)
  {
    assert b[..|d + w|] == d + w;
    assert b[..|d|] == (d + w)[..|d|] == d;
    assert b[|d|..|d| + |w|] == (d + w)[|d|..] == w;
  }
}
