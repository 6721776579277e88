/** zip: a whole gzip member, read back by a reference reader that follows section 2.3 of RFC 1952. */
module Gzip {
  import opened Bits
  import opened Options
  import opened CanonicalCode
  import opened Inflate
  import opened Tokens
  import opened BitLengths
  import opened Matcher
  import opened SlidingWindow
  import opened Blocks
  import opened BlockCoder
  import opened Emission
  import opened Deflate
  import W = BitWriter

  /** The reference reader: magic number, method deflate, no optional fields, then the deflate stream, filled up to a
      whole byte, the complemented checksum and the size modulo 2^32, and nothing more. */
  function Gunzip(step: (nat, byte) -> nat, f: seq<byte>): Option<seq<byte>> {
    if |f| < 18 || f[..4] != [0x1f, 0x8b, 8, 0] then None
    else
      match InflateAll(BytesToBits(f[10..]))
      case None => None
      case Some((end, out)) =>
        var n := 10 + (end + 7) / 8;
        if |f| == n + 8 && f[n..n + 4] == W.LeBytes(TWO32 - 1 - Crc(step, TWO32 - 1, out), 4)
           && f[n + 4..] == W.LeBytes(U32(|out|), 4)
        then Some(out) else None
  }

  ghost predicate IsHeader(h: seq<byte>) {
    |h| == 10 && h[..4] == [0x1f, 0x8b, 8, 0]
  }

  /** Bytes can be read back from their bits. */
  lemma {:induction false} SameBytes(c: seq<byte>, h: seq<byte>, rest: Bitstring)
    requires BytesToBits(c) == BytesToBits(h) + rest
    ensures |h| <= |c| && c[..|h|] == h && BytesToBits(c[|h|..]) == rest
  {
    hide BytesToBits, BytesAt, At;
    var b, n := BytesToBits(c), |h|;
    PrefixAt([], BytesToBits(h), b) by {
      assert [] + BytesToBits(h) == BytesToBits(h);
    }
    BytesDecode(b, 0, h);
    assert c == c[..n] + c[n..];
    BytesToBitsConcat(c[..n], c[n..]);
    PrefixAt([], BytesToBits(c[..n]), b) by {
      assert [] + BytesToBits(c[..n]) == BytesToBits(c[..n]);
    }
    BytesDecode(b, 0, c[..n]);
    assert rest == b[8 * n..] == BytesToBits(c[n..]);
  }

  /** A file made of a header, a complete deflate stream padded to bytes, and the right trailer is read back. */
  lemma {:induction false} ReadBack(step: (nat, byte) -> nat, h: seq<byte>, d: Bitstring, c: seq<byte>, out: seq<byte>)
    requires IsHeader(h) && Complete(d, out)
    requires BytesToBits(c) == (BytesToBits(h) + d) + W.PadTo8(|BytesToBits(h) + d|)
    ensures Gunzip(step, c + W.LeBytes(TWO32 - 1 - Crc(step, TWO32 - 1, out), 4) + W.LeBytes(U32(|out|), 4))
      == Some(out)
  {
    hide BytesToBits, W.LeBytes, W.PadTo8, Crc, U32, InflateAll;
    var pad := W.PadTo8(|BytesToBits(h) + d|);
    Assoc(BytesToBits(h), d, pad);
    SameBytes(c, h, d + pad);
    var x, y := W.LeBytes(TWO32 - 1 - Crc(step, TWO32 - 1, out), 4), W.LeBytes(U32(|out|), 4);
    var f, n := c + x + y, |c|;
    assert f[10..] == c[10..] + (x + y);
    BytesToBitsConcat(c[10..], x + y);
    assert d <= (d + pad) + BytesToBits(x + y);
    StreamBytes(c, h, d);
    assert f[..4] == c[..10][..4];
    assert f[n..n + 4] == x && f[n + 4..] == y;
  }

  /** The stream is followed by less than a byte of padding. */
  lemma {:induction false} StreamBytes(c: seq<byte>, h: seq<byte>, d: Bitstring)
    requires BytesToBits(c) == (BytesToBits(h) + d) + W.PadTo8(|BytesToBits(h) + d|)
    ensures |c| == |h| + (|d| + 7) / 8
  {
    hide W.PadTo8, ToBits;
  }

  method PutHeader(w: W.Writer, slow: bool)
    requires w.Valid() && w.biValid == 0 && w.Contents() == []
    modifies w, w.outbuf
    ensures w.Valid() && w.biValid == 0 && IsHeader(w.Contents())
  {
    w.Put32(0x00088b1f);
    w.Put32(0);
    var deflateFlags := 0x300;
    if slow {
      deflateFlags := Or(deflateFlags, 2);
    }
    w.Put16(deflateFlags);
  }

  /** Everything that the main loop works on. */
  ghost predicate Prepared(coder: Coder, win: Window, src: Source, input: seq<byte>)
    reads coder, coder.dynLtree, coder.dynDtree, coder.blTree, coder.staticLtree, coder.staticDtree, coder.lBuf,
      coder.dBuf, coder.flagBuf, win, win.window, win.head, win.prev, src
  {
    && coder.Valid() && coder.HasRoom() && coder.tokens == []
    && src.Valid() && win.Valid(src.taken, 0) && (win.lookahead > 0 ==> win.Keyed(0))
    && (win.lookahead > MAX_MATCH || win.eofile)
    && src.failed == (win.eofile && src.rest != []) && src.taken + src.rest == input
    && win.strstart == 0 && win.off == 0 && win.blockStart == 0
    && coder.Apart(win.window) && coder.Apart(win.head) && coder.Apart(win.prev)
  }

  /** ct_init and lm_init. */
  method Prepare(src: Source, p: Params, litBufsize: nat, distBufsize: nat, lBufSize: nat)
    returns (coder: Coder, win: Window)
    requires p.Ok() && src.Valid() && src.taken == [] && !src.failed
    requires 8 <= litBufsize <= 0x8000 && litBufsize % 8 == 0 && 1 <= distBufsize && litBufsize <= lBufSize
    modifies src
    ensures Prepared(coder, win, src, old(src.rest))
    ensures fresh(win) && fresh(win.window) && fresh(win.head) && fresh(win.prev) && fresh(coder)
    ensures fresh(coder.dynLtree) && fresh(coder.dynDtree) && fresh(coder.blTree) && fresh(coder.staticLtree)
    ensures fresh(coder.staticDtree)
    ensures fresh(coder.heap) && fresh(coder.depth) && fresh(coder.blCount) && fresh(coder.lBuf) && fresh(coder.dBuf)
    ensures fresh(coder.flagBuf)
  {
    hide Coder.Valid, Source.Valid, Window.Valid, Window.Keyed;
    coder := new Coder(litBufsize, distBufsize, lBufSize);
    win := new Window(p);
    win.Init(src);
  }

  /** The main loop can start after the header. */
  method Launch(w: W.Writer, src: Source, coder: Coder, win: Window, ghost input: seq<byte>) returns (z: Deflater)
    requires w.Valid() && w.biValid == 0 && Prepared(coder, win, src, input)
    requires coder.Apart(w.outbuf) && win.window != w.outbuf && w.outbuf as object != win.head
    requires w.outbuf as object != win.prev
    ensures fresh(z) && z.w == w && z.src == src && z.coder == coder && z.win == win
    ensures z.Running(input, false, MIN_MATCH - 1) && z.before == BytesToBits(w.Contents())
  {
    hide Coder.Valid, Source.Valid, Window.Valid, Window.Keyed, Deflater.Running, Emitted, BytesToBits, ToBits;
    AlignedStream(w.Contents());
    z := new Deflater(win, coder, w, src, BytesToBits(w.Contents()));
    assert z.before + z.sent == z.before;
    EmittedNone(src.taken, win.p.MaxDist());
    Launched(z, input);
  }

  lemma {:induction false} Launched(z: Deflater, input: seq<byte>)
    requires z.Apart() && z.Streams() && z.CoderOk() && z.coder.HasRoom() && z.coder.tokens == [] && z.sent == []
    requires z.src.Valid() && z.win.Valid(z.src.taken, 0) && (z.win.lookahead > 0 ==> z.win.Keyed(0))
    requires z.win.lookahead > MAX_MATCH || z.win.eofile
    requires z.src.failed == (z.win.eofile && z.src.rest != []) && z.src.taken + z.src.rest == input
    requires z.win.strstart == 0 && z.win.off == 0 && z.win.blockStart == 0
    requires z.log == [] && Emitted([], [], z.win.p.MaxDist(), z.src.taken, 0, 0, [])
    ensures z.Running(input, false, MIN_MATCH - 1)
  {
    hide Deflater.Apart, Deflater.Streams, Deflater.CoderOk, Window.Valid, Window.Keyed, Source.Valid, Emitted, U32,
      MatchOk;
  }

  lemma {:induction false} AlignedStream(c: seq<byte>)
    ensures BytesToBits(c) + ToBits(0, 0) == BytesToBits(c)
  {
  }

  /** zip: for every input, every way in which reads split it and every choice of parameters, the reference
      reader gets back the bytes that were read, and these are the whole input unless a read failed. */
  method Zip(input: seq<byte>, step: (nat, byte) -> nat, p: Params, outbufsiz: nat, unaligned16: bool,
             optimized32: bool, litBufsize: nat, distBufsize: nat, inbufsiz: nat, slow: bool)
    returns (w: W.Writer, src: Source)
    requires p.Ok() && outbufsiz >= 8
    requires 8 <= litBufsize <= 0x8000 && litBufsize % 8 == 0 && 1 <= distBufsize && litBufsize <= inbufsiz
    ensures Gunzip(step, w.written) == Some(src.taken)
    ensures src.taken <= input && (!src.failed ==> src.taken == input)
  {
    hide Gunzip, IsHeader, Prepared, Deflater.Running, Complete, Composed, W.Writer.Valid, W.Writer.Contents,
      W.Writer.Stream, W.LeBytes, W.PadTo8, Crc, U32, BytesToBits;
    w := new W.Writer(outbufsiz, unaligned16, optimized32);
    src := new Source(input, step);
    PutHeader(w, slow);
    var coder, win := Prepare(src, p, litBufsize, distBufsize, inbufsiz);
    FlushAligned(w);
    ghost var h := w.Contents();
    var z := Launch(w, src, coder, win, input);
    ghost var d, last;
    d, last := z.Run(input);
    ghost var c := w.Contents();
    WholeBytes(w);
    ReadBack(step, h, d, c, src.taken);
    PutTrailer(w, src.crc, src.isize);
  }

  lemma {:induction false} WholeBytes(w: W.Writer)
    requires w.Valid() && w.biValid == 0
    ensures w.Stream() == BytesToBits(w.Contents())
  {
    AlignedStream(w.Contents());
  }

  method FlushAligned(w: W.Writer)
    requires w.Valid() && w.biValid == 0
    modifies w`outcnt, w`written
    ensures w.Valid() && w.Contents() == old(w.Contents())
  {
    if w.optimized32 {
      w.FlushOutbuf();
    }
  }

  method PutTrailer(w: W.Writer, crc: nat, isize: nat)
    requires w.Valid() && crc < TWO32 && isize < TWO32
    modifies w`outcnt, w`written, w.outbuf
    ensures w.written == old(w.Contents()) + W.LeBytes(TWO32 - 1 - crc, 4) + W.LeBytes(isize, 4)
  {
    hide W.LeBytes;
    w.Put32(TWO32 - 1 - crc);
    w.Put32(isize);
    w.FlushOutbuf();
  }
}
