/** Fixed-size unsigned fields in memory. */
module LittleEndian {
  import opened Bits
  import W = BitWriter

  const TWO64: nat := 0x1_0000_0000_0000_0000

  function FromLe(s: seq<byte>): nat {
    if s == [] then 0 else s[0] + 256 * FromLe(s[1..])
  }

  function Pow256(k: nat): nat {
    if k == 0 then 1 else 256 * Pow256(k - 1)
  }

  lemma {:induction false} FieldBack(v: nat, k: nat)
    requires v < Pow256(k)
    ensures FromLe(W.LeBytes(v, k)) == v
  {
    if k > 0 {
      var s := W.LeBytes(v, k);
      assert s[1..] == W.LeBytes(v / 256, k - 1);
      FieldBack(v / 256, k - 1);
    }
  }

  lemma {:induction false} BytesBack(s: seq<byte>)
    ensures W.LeBytes(FromLe(s), |s|) == s
  {
    if s != [] {
      BytesBack(s[1..]);
      assert FromLe(s) % 256 == s[0] && FromLe(s) / 256 == FromLe(s[1..]);
    }
  }

  lemma {:induction false} FieldBound(s: seq<byte>)
    ensures FromLe(s) < Pow256(|s|)
  {
    if s != [] {
      FieldBound(s[1..]);
    }
  }

  lemma {:induction false} FieldSizes()
    ensures Pow256(4) == TWO32 && Pow256(8) == TWO64
  {
  }

  // --- Byte order ---

  function Rev<T>(s: seq<T>): (r: seq<T>)
    ensures |r| == |s|
  {
    if s == [] then [] else Rev(s[1..]) + [s[0]]
  }

  /** __builtin_bswap64. */
  function Bswap64(a: nat): nat {
    FromLe(Rev(W.LeBytes(a, 8)))
  }

  /** The bits of bytes in the order in which a prefix trie reads them: each byte most-significant bit first. */
  function BigBits(s: seq<byte>): (b: Bitstring)
    ensures |b| == 8 * |s|
  {
    if s == [] then [] else BigBits(s[..|s| - 1]) + ToBitsMsb(s[|s| - 1], 8)
  }

  lemma {:induction false} MsbSplit(v: nat, m: nat, n: nat)
    ensures ToBitsMsb(v, m + n) == ToBitsMsb(Shr(v, n), m) + ToBitsMsb(Low(v, n), n)
  {
    if n > 0 {
      MsbSplit(v / 2, m, n - 1);
      assert Low(v, n) / 2 == Low(v / 2, n - 1) && Low(v, n) % 2 == v % 2;
      Assoc(ToBitsMsb(Shr(v, n), m), ToBitsMsb(Low(v / 2, n - 1), n - 1), [v % 2 == 1]);
    } else {
      assert ToBitsMsb(Shr(v, 0), m) + [] == ToBitsMsb(v, m);
    }
  }

  lemma {:induction false} ByteSplit(v: nat)
    ensures Shr(v, 8) == v / 256 && Low(v, 8) == v % 256
  {
    Pow2Values();
    ShrDiv(v, 8);
    LowMod(v, 8);
  }

  lemma {:induction false} BigEndianBits(v: nat, k: nat)
    ensures BigBits(Rev(W.LeBytes(v, k))) == ToBitsMsb(v, 8 * k)
  {
    hide ToBitsMsb, Shr, Low;
    if k > 0 {
      var s := W.LeBytes(v, k);
      assert s[1..] == W.LeBytes(v / 256, k - 1);
      var r := Rev(s[1..]);
      assert Rev(s) == r + [v % 256];
      assert (r + [v % 256])[..|r|] == r;
      BigEndianBits(v / 256, k - 1);
      ByteSplit(v);
      MsbSplit(v, 8 * (k - 1), 8);
    } else {
      assert ToBitsMsb(v, 0) == [];
    }
  }

  /** The swapped value lies in memory most-significant byte first, so a trie reads the address from its top bit. */
  lemma {:induction false} SwappedBits(a: nat)
    ensures BigBits(W.LeBytes(Bswap64(a), 8)) == ToBitsMsb(a, 64)
  {
    hide BigBits, Rev, FromLe, W.LeBytes;
    BytesBack(Rev(W.LeBytes(a, 8)));
    BigEndianBits(a, 8);
  }
}
