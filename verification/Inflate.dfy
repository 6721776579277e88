/** A reference decompressor that follows RFC 1951 and nothing else: bit positions instead of state,
    symbol lookup by searching for the code word. The encoder is judged against it. */
module Inflate {
  import opened Bits
  import opened Options
  import opened CanonicalCode

  // Section 3.2.5: number of extra bits after each length or distance code, and the first length or
  // distance of the code. The ranges of consecutive codes follow each other, except that length 258
  // has a code of its own. RfcLengthTable and RfcDistTable list the values.
  function LengthExtra(c: nat): nat {
    if c < 8 || c >= 28 then 0 else (c - 4) / 4
  }

  function LengthBase(c: nat): nat {
    if c == 0 then 3 else if c >= 28 then 258 else LengthBase(c - 1) + Pow2(LengthExtra(c - 1))
  }

  function DistExtra(c: nat): nat {
    if c < 2 then 0 else (c - 2) / 2
  }

  function DistBase(c: nat): nat {
    if c == 0 then 1 else DistBase(c - 1) + Pow2(DistExtra(c - 1))
  }

  lemma {:induction false} RfcLengthTable()
    ensures LengthBase(0) == 3 && LengthBase(1) == 4 && LengthBase(2) == 5 && LengthBase(3) == 6 && LengthBase(4) == 7
    ensures LengthBase(5) == 8 && LengthBase(6) == 9 && LengthBase(7) == 10 && LengthBase(8) == 11
    ensures LengthBase(9) == 13
    ensures LengthBase(10) == 15 && LengthBase(11) == 17 && LengthBase(12) == 19 && LengthBase(13) == 23
    ensures LengthBase(14) == 27
    ensures LengthBase(15) == 31 && LengthBase(16) == 35 && LengthBase(17) == 43 && LengthBase(18) == 51
    ensures LengthBase(19) == 59
    ensures LengthBase(20) == 67 && LengthBase(21) == 83 && LengthBase(22) == 99 && LengthBase(23) == 115
    ensures LengthBase(24) == 131
    ensures LengthBase(25) == 163 && LengthBase(26) == 195 && LengthBase(27) == 227 && LengthBase(28) == 258
  {
  }

  lemma {:induction false} RfcDistTable()
    ensures DistBase(0) == 1 && DistBase(1) == 2 && DistBase(2) == 3 && DistBase(3) == 4 && DistBase(4) == 5
    ensures DistBase(5) == 7 && DistBase(6) == 9 && DistBase(7) == 13 && DistBase(8) == 17 && DistBase(9) == 25
    ensures DistBase(10) == 33 && DistBase(11) == 49 && DistBase(12) == 65 && DistBase(13) == 97 && DistBase(14) == 129
    ensures DistBase(15) == 193 && DistBase(16) == 257 && DistBase(17) == 385 && DistBase(18) == 513
    ensures DistBase(19) == 769
    ensures DistBase(20) == 1025 && DistBase(21) == 1537 && DistBase(22) == 2049 && DistBase(23) == 3073
    ensures DistBase(24) == 4097
    ensures DistBase(25) == 6145 && DistBase(26) == 8193 && DistBase(27) == 12289 && DistBase(28) == 16385
    ensures DistBase(29) == 24577
  {
  }

  // Section 3.2.7: order in which the code lengths of the code length alphabet are sent.
  const CL_ORDER: seq<nat> := [16, 17, 18, 0, 8, 7, 9, 6, 10, 5, 11, 4, 12, 3, 13, 2, 14, 1, 15]

  const END_BLOCK: nat := 256

  function Repeat<T>(x: T, n: nat): (s: seq<T>)
    ensures |s| == n
    ensures forall i :: 0 <= i < n ==> s[i] == x
  {
    seq(n, i => x)
  }

  // Section 3.2.6: the fixed code lengths.
  const FIXED_LIT_LENS: seq<nat> := Repeat(8, 144) + Repeat(9, 112) + Repeat(7, 24) + Repeat(8, 8)
  const FIXED_DIST_LENS: seq<nat> := Repeat(5, 32)

  function ReadBits(b: Bitstring, pos: nat, n: nat): (r: Option<nat>)
    ensures r.Some? <==> pos + n <= |b|
  {
    if pos + n <= |b| then Some(FromBits(b[pos..pos + n])) else None
  }

  /** length bytes copied from distance bytes back; source and copy may overlap. */
  function Copy(out: seq<byte>, distance: nat, length: nat): (r: seq<byte>)
    requires 1 <= distance <= |out|
    ensures |r| == |out| + length && out <= r
    decreases length
  {
    if length == 0 then out else Copy(out + [out[|out| - distance]], distance, length - 1)
  }

  datatype Token = Literal(value: byte) | Match(length: nat, distance: nat)

  /** The bytes after one more token; none if a match reaches back beyond the first byte. */
  function Step(out: seq<byte>, t: Token): (r: Option<seq<byte>>) {
    match t
    case Literal(x) => Some(out + [x])
    case Match(length, distance) =>
      if 1 <= distance <= |out| then Some(Copy(out, distance, length)) else None
  }

  /** A distance: its code, then its extra bits. */
  function DecodeDistance(b: Bitstring, pos: nat, dist: seq<nat>): (r: Option<(nat, nat)>)
    ensures r.Some? ==> pos < r.value.0 <= |b|
  {
    match FindSymbol(dist, b, pos, 0)
    case None => None
    case Some(d) =>
      if d >= 30 then None
      else match ReadBits(b, pos + dist[d], DistExtra(d))
        case None => None
        case Some(y) => Some((pos + dist[d] + DistExtra(d), DistBase(d) + y))
  }

  /** The next literal or match, or the end-of-block mark. */
  datatype Item = Data(token: Token) | EndOfBlock

  function DecodeItem(b: Bitstring, pos: nat, lit: seq<nat>, dist: seq<nat>): (r: Option<(nat, Item)>)
    ensures r.Some? ==> pos < r.value.0 <= |b|
  {
    match FindSymbol(lit, b, pos, 0)
    case None => None
    case Some(s) =>
      var p := pos + lit[s];
      if s < END_BLOCK then Some((p, Data(Literal(s))))
      else if s == END_BLOCK then Some((p, EndOfBlock))
      else if s > 285 then None
      else match ReadBits(b, p, LengthExtra(s - 257))
        case None => None
        case Some(x) =>
          match DecodeDistance(b, p + LengthExtra(s - 257), dist)
          case None => None
          case Some((q, distance)) => Some((q, Data(Match(LengthBase(s - 257) + x, distance))))
  }

  /** The compressed data of one block, up to and including the end-of-block symbol. */
  function InflateData(b: Bitstring, pos: nat, out: seq<byte>, lit: seq<nat>, dist: seq<nat>)
    : (r: Option<(nat, seq<byte>)>)
    ensures r.Some? ==> pos < r.value.0 <= |b|
    decreases |b| - pos
  {
    match DecodeItem(b, pos, lit, dist)
    case None => None
    case Some((p, EndOfBlock)) => Some((p, out))
    case Some((p, Data(t))) =>
      match Step(out, t)
      case None => None
      case Some(o) => InflateData(b, p, o, lit, dist)
  }

  /** Section 3.2.7: a symbol of the code length alphabet with its extra bits, that is a length or a
      repetition of the previous length or of zero. */
  datatype RleOp = Len(len: nat) | Again(n: nat) | Zeros(n: nat) | ManyZeros(n: nat)

  function ApplyOp(acc: seq<nat>, op: RleOp): (r: Option<seq<nat>>) {
    match op
    case Len(len) => Some(acc + [len])
    case Again(n) => if acc == [] then None else Some(acc + Repeat(acc[|acc| - 1], n))
    case Zeros(n) => Some(acc + Repeat(0, n))
    case ManyZeros(n) => Some(acc + Repeat(0, n))
  }

  function DecodeOp(b: Bitstring, pos: nat, cl: seq<nat>): (r: Option<(nat, RleOp)>)
    ensures r.Some? ==> pos < r.value.0 <= |b|
  {
    match FindSymbol(cl, b, pos, 0)
    case None => None
    case Some(s) =>
      var p := pos + cl[s];
      if s < 16 then Some((p, Len(s)))
      else if s > 18 then None
      else
        var width := if s == 16 then 2 else if s == 17 then 3 else 7;
        match ReadBits(b, p, width)
        case None => None
        case Some(x) =>
          Some((p + width, if s == 16 then Again(3 + x) else if s == 17 then Zeros(3 + x) else ManyZeros(11 + x)))
  }

  /** The run-length coded lengths, up to total of them. */
  function InflateLens(b: Bitstring, pos: nat, acc: seq<nat>, total: nat, cl: seq<nat>)
    : (r: Option<(nat, seq<nat>)>)
    ensures r.Some? ==> pos <= r.value.0 && |r.value.1| == total
    decreases |b| - pos
  {
    if |acc| == total then Some((pos, acc))
    else if |acc| > total then None
    else match DecodeOp(b, pos, cl)
      case None => None
      case Some((p, op)) =>
        match ApplyOp(acc, op)
        case None => None
        case Some(a) => InflateLens(b, p, a, total, cl)
  }

  /** The 3-bit lengths of the code length alphabet, from rank k on. */
  function InflateClLens(b: Bitstring, pos: nat, k: nat, count: nat, cl: seq<nat>): (r: Option<seq<nat>>)
    requires |cl| == 19 && k <= count <= 19
    ensures r.Some? ==> |r.value| == 19
    decreases count - k
  {
    if k == count then Some(cl)
    else match ReadBits(b, pos, 3)
      case None => None
      case Some(x) => InflateClLens(b, pos + 3, k + 1, count, cl[CL_ORDER[k] := x])
  }

  function InflateDynamic(b: Bitstring, pos: nat, out: seq<byte>): (r: Option<(nat, seq<byte>)>)
    ensures r.Some? ==> pos < r.value.0
  {
    match (ReadBits(b, pos, 5), ReadBits(b, pos + 5, 5), ReadBits(b, pos + 10, 4))
    case (Some(hlit), Some(hdist), Some(hclen)) =>
      if hclen + 4 > 19 then None
      else (
        match InflateClLens(b, pos + 14, 0, hclen + 4, Repeat(0, 19))
        case None => None
        case Some(cl) =>
          match InflateLens(b, pos + 14 + 3 * (hclen + 4), [], hlit + 257 + hdist + 1, cl)
          case None => None
          case Some((p, lens)) => InflateData(b, p, out, lens[..hlit + 257], lens[hlit + 257..])
      )
    case _ => None
  }

  function Aligned(pos: nat): (p: nat)
    ensures pos <= p < pos + 8 && p % 8 == 0
  {
    (pos + 7) / 8 * 8
  }

  /** Section 3.2.4: bytes copied verbatim, preceded by their number and its complement. */
  function InflateStored(b: Bitstring, pos: nat, out: seq<byte>): (r: Option<(nat, seq<byte>)>)
    ensures r.Some? ==> pos < r.value.0
  {
    var p := Aligned(pos);
    match (ReadBits(b, p, 16), ReadBits(b, p + 16, 16))
    case (Some(len), Some(nlen)) =>
      if len + nlen != TWO16 - 1 || p + 32 + 8 * len > |b| then None
      else Some((p + 32 + 8 * len, out + BytesAt(b, p + 32, len)))
    case _ => None
  }

  function BytesAt(b: Bitstring, pos: nat, n: nat): (s: seq<byte>)
    requires pos + 8 * n <= |b|
    ensures |s| == n
    decreases n
  {
    if n == 0 then []
    else
      var w := b[pos..pos + 8];
      FromBitsBound(w);
      Pow2Values();
      [FromBits(w)] + BytesAt(b, pos + 8, n - 1)
  }

  /** Section 3.2.3: all blocks from pos on, the last one marked by its first bit; where it ends, and the output. */
  function InflateFrom(b: Bitstring, pos: nat, out: seq<byte>): (r: Option<(nat, seq<byte>)>)
    decreases |b| - pos
  {
    match (ReadBits(b, pos, 1), ReadBits(b, pos + 1, 2))
    case (Some(final), Some(btype)) =>
      var block := if btype == 0 then InflateStored(b, pos + 3, out)
                   else if btype == 1 then InflateData(b, pos + 3, out, FIXED_LIT_LENS, FIXED_DIST_LENS)
                   else if btype == 2 then InflateDynamic(b, pos + 3, out)
                   else None;
      if block.None? then None
      else if final == 1 then block
      else InflateFrom(b, block.value.0, block.value.1)
    case _ => None
  }

  /** Decompression of a stream at the start of b. */
  function InflateAll(b: Bitstring): Option<(nat, seq<byte>)> {
    InflateFrom(b, 0, [])
  }
}
