/** The output side of gzip: a byte buffer that is handed to the file when it fills,
    fed by a 32-bit accumulator of not yet complete bytes. */
module BitWriter {
  import opened Bits
  import opened CanonicalCode

  /** The k low bytes of v, least-significant byte first. */
  function LeBytes(v: nat, k: nat): (s: seq<byte>)
    ensures |s| == k
  {
    if k == 0 then [] else [v % 256] + LeBytes(v / 256, k - 1)
  }

  lemma {:induction false} LeBytesBits(v: nat, k: nat)
    ensures BytesToBits(LeBytes(v, k)) == ToBits(v, 8 * k)
  {
    if k > 0 {
      var lo, hi := v % 256, v / 256;
      ByteParts(v);
      assert [lo][..0] == [];
      assert BytesToBits([lo]) == ToBits(lo, 8);
      BytesToBitsConcat([lo], LeBytes(hi, k - 1));
      LeBytesBits(hi, k - 1);
      ToBitsSplit(v, 8, 8 * (k - 1));
    }
  }

  lemma {:induction false} TwoBytes(v: nat)
    requires v < TWO16
    ensures LeBytes(v, 2) == [v % 256, v / 256]
  {
  }

  lemma {:induction false} FourBytes(v: nat)
    ensures LeBytes(v, 4) == [v % 256] + ([v / 256 % 256] + LeBytes(v / 256 / 256, 2))
  {
    var a := v / 256;
    assert LeBytes(a, 3) == [a % 256] + LeBytes(a / 256, 2);
  }

  lemma {:induction false} Halves(n: nat)
    ensures n % TWO16 % 256 == n % 256 && n % TWO16 / 256 == n / 256 % 256 && n / 256 / 256 == n / TWO16
  {
  }

  lemma {:induction false} LeBytes4(n: nat)
    requires n < TWO32
    ensures LeBytes(n, 4) == LeBytes(n % TWO16, 2) + LeBytes(n / TWO16, 2)
  {
    hide LeBytes;
    Halves(n);
    FourBytes(n);
    TwoBytes(n % TWO16);
  }

  /** Zero bits up to the next byte boundary. */
  function PadTo8(n: nat): (b: Bitstring)
    ensures |b| < 8 && (n + |b|) % 8 == 0
  {
    seq((8 - n % 8) % 8, i => false)
  }

  /** Or-ing a left-shifted value into the 32-bit accumulator is addition modulo the word size. */
  lemma {:induction false} OrShifted(buf: nat, valid: nat, value: nat)
    requires valid <= 32 && buf < Pow2(valid)
    ensures Or(buf, Low(Shl(value, valid), 32)) == Low(buf + Shl(value, valid), 32) < TWO32
  {
    hide Shl, Low, Or;
    LowBound(buf + Shl(value, valid), 32);
    Pow2Values();
    LowField(buf, value, valid, 32 - valid);
    LowField(0, value, valid, 32 - valid);
    OrDisjoint(buf, Low(value, 32 - valid), valid);
  }

  /** A value sent across a word boundary fills the word and leaves its high bits over. */
  lemma {:induction false} SpillBits(buf: nat, valid: nat, value: nat, length: nat)
    requires valid < 32 && buf < Pow2(valid)
    requires valid + length >= 32 && value < Pow2(length)
    ensures Shr(value, 32 - valid) < Pow2(valid + length - 32)
    ensures ToBits(buf, valid) + ToBits(value, length)
         == ToBits(Low(buf + Shl(value, valid), 32), 32)
            + ToBits(Shr(value, 32 - valid), valid + length - 32)
  {
    hide ToBits, Shl, Low, Shr;
    var x, cut := buf + Shl(value, valid), 32 - valid;
    ToBitsConcat(buf, valid, value, length);
    ToBitsSplit(x, 32, length - cut);
    ToBitsLow(x, 32);
    ShrField(buf, value, valid, cut);
    ShrBound(value, length - cut, cut);
  }

  /** The same on the whole stream: the full word leaves as four bytes. */
  lemma {:induction false} SpillStream(done: seq<byte>, buf: nat, valid: nat, value: nat, length: nat, word: nat)
    requires word == Low(buf + Shl(value, valid), 32)
    requires valid < 32 && buf < Pow2(valid)
    requires valid + length >= 32 && value < Pow2(length)
    ensures Shr(value, 32 - valid) < Pow2(valid + length - 32)
    ensures BytesToBits(done + LeBytes(word, 4)) + ToBits(Shr(value, 32 - valid), valid + length - 32)
         == (BytesToBits(done) + ToBits(buf, valid)) + ToBits(value, length)
  {
    hide ToBits, Shl, Low, Shr, LeBytes, BytesToBits;
    SpillBits(buf, valid, value, length);
    LeBytesBits(word, 4);
    BytesToBitsConcat(done, LeBytes(word, 4));
    Regroup(BytesToBits(done), ToBits(buf, valid), ToBits(value, length),
            ToBits(word, 32), ToBits(Shr(value, 32 - valid), valid + length - 32));
  }

  lemma {:induction false} Regroup(a: Bitstring, b: Bitstring, c: Bitstring, d: Bitstring, e: Bitstring)
    requires b + c == d + e
    ensures (a + b) + c == (a + d) + e
  {
    Assoc(a, b, c);
    Assoc(a, d, e);
  }

  /** A value that fits is appended above the occupied bits. */
  lemma {:induction false} NoSpill(pre: Bitstring, buf: nat, valid: nat, value: nat, length: nat)
    requires valid + length < 32 && buf < Pow2(valid) && value < Pow2(length)
    ensures Low(buf + Shl(value, valid), 32) == buf + Shl(value, valid) < Pow2(valid + length)
    ensures (pre + ToBits(buf, valid)) + ToBits(value, length)
         == pre + ToBits(buf + Shl(value, valid), valid + length)
  {
    hide ToBits, Shl, Low;
    ToBitsConcat(buf, valid, value, length);
    Assoc(pre, ToBits(buf, valid), ToBits(value, length));
    ShlBound(value, length, valid);
    Pow2Monotone(valid + length, 32);
    LowNoop(buf + Shl(value, valid), 32);
  }

  class Writer {
    const size: nat            // OUTBUFSIZ
    const unaligned16: bool    // BB_UNALIGNED_MEMACCESS_OK && BB_LITTLE_ENDIAN
    const optimized32: bool    // OPTIMIZED_PUT_32BIT
    const outbuf: array<byte>
    var outcnt: nat
    var biBuf: nat
    var biValid: nat
    var written: seq<byte>     // what xwrite has received so far

    ghost predicate Valid()
      reads this
    {
      && size >= 8 && outbuf.Length == size
      && outcnt < size
      && biValid < 32
      && biBuf < Pow2(biValid)
    }

    /** All complete bytes produced so far. */
    ghost function Contents(): (s: seq<byte>)
      requires Valid()
      reads this, outbuf
    {
      written + outbuf[..outcnt]
    }

    /** All bits produced so far. */
    ghost function Stream(): (b: Bitstring)
      requires Valid()
      reads this, outbuf
      ensures |b| == 8 * |Contents()| + biValid
    {
      BytesToBits(Contents()) + ToBits(biBuf, biValid)
    }

    constructor (size: nat, unaligned16: bool, optimized32: bool)
      requires size >= 8
      ensures Valid() && fresh(outbuf) && Contents() == [] && Stream() == []
      ensures biValid == 0
    {
      this.size, this.unaligned16, this.optimized32 := size, unaligned16, optimized32;
      outbuf := new byte[size];
      outcnt, biBuf, biValid, written := 0, 0, 0, [];
    }

    method FlushOutbuf()
      requires size >= 8 && outbuf.Length == size && outcnt <= size
      modifies this`outcnt, this`written
      ensures outcnt == 0
      ensures written + outbuf[..outcnt] == old(written + outbuf[..outcnt]) == written
    {
      assert written + outbuf[..0] == written;
      if outcnt == 0 {
        return;
      }
      written := written + outbuf[..outcnt];
      outcnt := 0;
      assert written + outbuf[..0] == written;
    }

    method Put8(c: nat)
      requires Valid()
      modifies this`outcnt, this`written, outbuf
      ensures Valid()
      ensures Contents() == old(Contents()) + [c % 256]
    {
      outbuf[outcnt] := c % 256;
      outcnt := outcnt + 1;
      assert outbuf[..outcnt] == old(outbuf[..outcnt]) + [c % 256];
      if outcnt == size {
        FlushOutbuf();
      }
    }

    method Put16(w: nat)
      requires Valid()
      requires w < TWO16
      modifies this`outcnt, this`written, outbuf
      ensures Valid()
      ensures Contents() == old(Contents()) + LeBytes(w, 2)
    {
      assert LeBytes(w, 2) == [w % 256, w / 256];
      var dst := outcnt;
      if unaligned16 {
        if dst < size - 2 {
          outbuf[dst], outbuf[dst + 1] := w % 256, w / 256;   // one 16-bit store
          outcnt := dst + 2;
          assert outbuf[..outcnt] == old(outbuf[..outcnt]) + [w % 256, w / 256];
          return;
        }
        outbuf[dst] := w % 256;
        outcnt := dst + 1;
      } else {
        outbuf[dst] := w % 256;
        if dst < size - 2 {
          outbuf[dst + 1] := w / 256;
          outcnt := dst + 2;
          assert outbuf[..outcnt] == old(outbuf[..outcnt]) + [w % 256, w / 256];
          return;
        }
        outcnt := dst + 1;
      }
      assert outbuf[..outcnt] == old(outbuf[..outcnt]) + [w % 256];
      assert written + outbuf[..outcnt] == old(Contents()) + [w % 256];
      if outcnt == size {
        FlushOutbuf();
      }
      Put8(w / 256);
      assert [w % 256] + [w / 256] == [w % 256, w / 256];
    }

    method Put32(n: nat)
      requires Valid()
      requires n < TWO32
      modifies this`outcnt, this`written, outbuf
      ensures Valid()
      ensures Contents() == old(Contents()) + LeBytes(n, 4)
    {
      ghost var lo, hi := n % TWO16, n / TWO16;
      LeBytes4(n);
      if optimized32 {
        var dst := outcnt;
        if dst < size - 4 {
          var b := LeBytes(n, 4);
          outbuf[dst], outbuf[dst + 1], outbuf[dst + 2], outbuf[dst + 3] := b[0], b[1], b[2], b[3];
          outcnt := dst + 4;
          assert outbuf[..outcnt] == old(outbuf[..outcnt]) + b;
          return;
        }
      }
      Put16(n % TWO16);
      Put16(n / TWO16);
    }

    /** Appends the low `length` bits of a value, least-significant bit first. */
    method SendBits(value: nat, length: nat)
      requires Valid()
      requires length <= 16 && value < Pow2(length)
      modifies this, outbuf
      ensures Valid()
      ensures Stream() == old(Stream()) + ToBits(value, length)
    {
      hide ToBits, BytesToBits, Shl, Shr, Low, Or, LeBytes, Pow2;
      ghost var target := Stream() + ToBits(value, length);
      var newBuf := Or(biBuf, Low(Shl(value, biValid), 32));
      var newLength := length + biValid;
      OrShifted(biBuf, biValid, value);
      if newLength >= 32 {
        var rest := Shr(value, 32 - biValid);
        SpillStream(Contents(), biBuf, biValid, value, length, newBuf);
        Put32(newBuf);
        newBuf := rest;
        newLength := newLength - 32;
        assert BytesToBits(Contents()) + ToBits(newBuf, newLength) == target;
      } else {
        NoSpill(BytesToBits(Contents()), biBuf, biValid, value, length);
        assert BytesToBits(Contents()) + ToBits(newBuf, newLength) == target;
      }
      biBuf := newBuf;
      biValid := newLength;
      assert Stream() == target;
    }

    /** Sends the code word of a symbol. */
    method SendCode(tree: array<CtData>, c: nat, ghost lens: seq<nat>)
      requires Valid()
      requires CodedAs(tree[..], lens) && Prefixable(lens, MAX_BITS)
      requires c < |lens| && c < tree.Length && lens[c] > 0
      modifies this, outbuf
      ensures Valid()
      ensures Stream() == old(Stream()) + CodeWord(lens, c)
    {
      hide Stream, Code, Prefixable, ToBits, Valid;
      assert BoundedLens(lens, MAX_BITS) by { PrefixableBounded(lens, MAX_BITS); }
      assert tree[c] == tree[..][c];
      ToFromBits(CodeWord(lens, c));
      SendBits(tree[c].fc, tree[c].dl);
    }

    /** Completes the current byte with zero bits. */
    method BiWindup()
      requires Valid()
      modifies this, outbuf
      ensures Valid() && biValid == 0
      ensures Stream() == BytesToBits(Contents()) == old(Stream()) + PadTo8(|old(Stream())|)
    {
      ghost var before := BytesToBits(Contents());
      ghost var k := 0;
      var bits := biBuf;
      var cnt: int := biValid;
      while cnt > 0
        invariant Valid() && biBuf == old(biBuf) && biValid == old(biValid)
        invariant cnt == biValid - 8 * k > -8
        invariant bits == Shr(biBuf, 8 * k)
        invariant BytesToBits(Contents()) == before + ToBits(biBuf, 8 * k)
      {
        WindupStep(before, Contents(), biBuf, 8 * k, bits);
        Put8(bits);
        bits := bits / 256;
        cnt := cnt - 8;
        k := k + 1;
      }
      WindupPad(before, biBuf, biValid, 8 * k);
      biBuf := 0;
      biValid := 0;
    }

    /** Emits the bytes of a stored block after aligning the stream, optionally preceded by their
        count and its one's complement. */
    method CopyBlock(buf: array<byte>, from: nat, len: nat, header: bool)
      requires Valid()
      requires buf != outbuf && from + len <= buf.Length
      requires header ==> len < TWO16
      modifies this, outbuf
      ensures Valid() && biValid == 0
      ensures Stream() == old(Stream()) + PadTo8(|old(Stream())|)
        + (if header then ToBits(len, 16) + ToBits(TWO16 - 1 - len, 16) else [])
        + BytesToBits(buf[from..from + len])
    {
      ghost var head: Bitstring := [];
      BiWindup();
      ghost var aligned := Stream();
      if header {
        head := ToBits(len, 16) + ToBits(TWO16 - 1 - len, 16);
        var v := Or(len % TWO16, Low(Shl(TWO32 - 1 - len, 16), 32));
        StoredLength(len, v);
        BytesToBitsConcat(Contents(), LeBytes(v, 4));
        Put32(v);
      }
      assert BytesToBits(Contents()) == aligned + head;
      CopyBytes(buf, from, len);
      if outcnt % 4 != 0 && optimized32 {
        FlushOutbuf();
      }
    }

    method CopyBytes(buf: array<byte>, from: nat, len: nat)
      requires Valid() && biValid == 0
      requires buf != outbuf && from + len <= buf.Length
      modifies this`outcnt, this`written, outbuf
      ensures Valid()
      ensures BytesToBits(Contents()) == old(BytesToBits(Contents())) + BytesToBits(buf[from..from + len])
    {
      ghost var start := Contents();
      var i := 0;
      while i < len
        invariant i <= len
        invariant Valid()
        invariant Contents() == start + buf[from..from + i]
      {
        ghost var done := buf[from..from + i];
        assert buf[from..from + i + 1] == done + [buf[from + i]];
        assert (start + done) + [buf[from + i]] == start + (done + [buf[from + i]]);
        Put8(buf[from + i]);
        i := i + 1;
      }
      BytesToBitsConcat(start, buf[from..from + len]);
    }
  }

  lemma {:induction false} WindupStep(before: Bitstring, done: seq<byte>, buf: nat, j: nat, bits: nat)
    requires bits == Shr(buf, j)
    requires BytesToBits(done) == before + ToBits(buf, j)
    ensures BytesToBits(done + [bits % 256]) == before + ToBits(buf, j + 8)
    ensures bits / 256 == Shr(buf, j + 8)
  {
    hide ToBits, BytesToBits, Shr, Low;
    BytesToBitsOne(done, bits % 256);
    ByteParts(bits);
    ToBitsSplit(buf, j, 8);
    ShrShr(buf, j, 8);
    Assoc(before, ToBits(buf, j), ToBits(bits, 8));
  }

  lemma {:induction false} PadLength(n: nat, valid: nat, j: nat)
    requires n % 8 == 0 && valid <= j < valid + 8 && j % 8 == 0
    ensures j - valid == (8 - (n + valid) % 8) % 8
  {
  }

  lemma {:induction false} WindupPad(before: Bitstring, buf: nat, valid: nat, j: nat)
    requires |before| % 8 == 0 && buf < Pow2(valid)
    requires valid <= j < valid + 8 && j % 8 == 0
    ensures before + ToBits(buf, j) == (before + ToBits(buf, valid)) + PadTo8(|before + ToBits(buf, valid)|)
  {
    hide ToBits;
    ToBitsSplit(buf, valid, j - valid);
    ShrBound(buf, 0, valid);
    ToBitsZero(j - valid);
    Assoc(before, ToBits(buf, valid), ToBits(0, j - valid));
    PadLength(|before|, valid, j);
  }

  lemma {:induction false} StoredLength(len: nat, v: nat)
    requires len < TWO16
    requires v == Or(len % TWO16, Low(Shl(TWO32 - 1 - len, 16), 32))
    ensures v < TWO32
    ensures BytesToBits(LeBytes(v, 4)) == ToBits(len, 16) + ToBits(TWO16 - 1 - len, 16)
  {
    hide ToBits, Shl, Low, Or, LeBytes, BytesToBits;
    Pow2Values();
    StoredWord(len, TWO32 - 1 - len, TWO16 - 1 - len, 16, v);
    LeBytesBits(v, 4);
  }

  lemma {:induction false} StoredWord(len: nat, inv: nat, low: nat, k: nat, v: nat)
    requires k == 16 && len < Pow2(k) && Pow2(k) == TWO16
    requires inv % TWO16 == low
    requires v == Or(len, Low(Shl(inv, k), 32))
    ensures v < TWO32
    ensures ToBits(v, 2 * k) == ToBits(len, k) + ToBits(low, k)
  {
    hide ToBits, Shl, Low, Or;
    OrShifted(len, k, inv);
    LowField(len, inv, k, k);
    LowMod(inv, k);
    ToBitsConcat(len, k, low, k);
  }
}
