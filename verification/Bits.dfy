/** Bit strings, the numbers they denote and C's bitwise operators on naturals.
    A bit string is read in transmission order; section 3.1.1 of RFC 1951 packs
    numbers least-significant bit first and Huffman codes most-significant bit first. */
module Bits {
  type byte = x: int | 0 <= x < 256

  type Bitstring = seq<bool>

  const TWO16: nat := 0x1_0000
  const TWO32: nat := 0x1_0000_0000

  function Pow2(n: nat): (r: nat)
    ensures r >= 1
  {
    if n == 0 then 1 else 2 * Pow2(n - 1)
  }

  lemma {:induction false} Pow2Monotone(m: nat, n: nat)
    requires m <= n
    ensures Pow2(m) <= Pow2(n)
  {
    if m < n {
      Pow2Monotone(m, n - 1);
    }
  }

  lemma {:induction false} Pow2Add(m: nat, n: nat)
    ensures Pow2(m + n) == Pow2(m) * Pow2(n)
  {
    if n > 0 {
      Pow2Add(m, n - 1);
      assert Pow2(m) * (2 * Pow2(n - 1)) == 2 * (Pow2(m) * Pow2(n - 1));
    }
  }

  lemma {:induction false} Pow2Values()
    ensures Pow2(1) == 2 && Pow2(2) == 4 && Pow2(3) == 8 && Pow2(4) == 16 && Pow2(5) == 32
    ensures Pow2(7) == 128 && Pow2(8) == 256 && Pow2(13) == 0x2000
    ensures Pow2(15) == 0x8000 && Pow2(16) == TWO16
    ensures Pow2(32) == TWO32
  {
    assert Pow2(8) == 256;
    assert Pow2(16) == 256 * Pow2(8);
    assert Pow2(24) == 256 * Pow2(16);
    assert Pow2(32) == 256 * Pow2(24);
  }

  /** Left shift, right shift and low-bits mask of unbounded naturals. */
  function Shl(v: nat, k: nat): nat {
    if k == 0 then v else 2 * Shl(v, k - 1)
  }

  function Shr(v: nat, k: nat): nat {
    if k == 0 then v else Shr(v / 2, k - 1)
  }

  function Low(v: nat, k: nat): nat {
    if k == 0 then 0 else v % 2 + 2 * Low(v / 2, k - 1)
  }

  lemma {:induction false} LowBound(v: nat, k: nat)
    ensures Low(v, k) < Pow2(k) && Low(v, k) <= v
  {
    if k > 0 {
      LowBound(v / 2, k - 1);
    }
  }

  lemma {:induction false} LowNoop(v: nat, k: nat)
    requires v < Pow2(k)
    ensures Low(v, k) == v
  {
    if k > 0 {
      LowNoop(v / 2, k - 1);
    }
  }

  /** A number is its low bits plus its high bits put back in place. */
  lemma {:induction false} LowHigh(v: nat, k: nat)
    ensures v == Low(v, k) + Shl(Shr(v, k), k)
  {
    if k > 0 {
      LowHigh(v / 2, k - 1);
    }
  }

  lemma {:induction false} LowMod(v: nat, k: nat)
    ensures Low(v, k) == v % Pow2(k)
  {
    if k > 0 {
      LowMod(v / 2, k - 1);
      HalfMod(v, Pow2(k - 1));
    }
  }

  lemma {:induction false} ShrDiv(v: nat, k: nat)
    ensures Shr(v, k) == v / Pow2(k)
  {
    if k > 0 {
      ShrDiv(v / 2, k - 1);
      HalfMod(v, Pow2(k - 1));
    }
  }

  lemma {:induction false} ShrShr(v: nat, j: nat, k: nat)
    ensures Shr(Shr(v, j), k) == Shr(v, j + k)
  {
    if j > 0 {
      ShrShr(v / 2, j - 1, k);
    }
  }

  lemma {:induction false} ShlBound(v: nat, m: nat, k: nat)
    requires v < Pow2(m)
    ensures Shl(v, k) <= Pow2(m + k) - Pow2(k)
  {
    if k > 0 {
      ShlBound(v, m, k - 1);
    }
  }

  lemma {:induction false} ShlIsPow2(k: nat)
    ensures Shl(1, k) == Pow2(k)
  {
    if k > 0 {
      ShlIsPow2(k - 1);
    }
  }

  lemma {:induction false} ShlEven(v: nat, k: nat)
    requires k > 0
    ensures Shl(v, k) % 2 == 0 && Shl(v, k) / 2 == Shl(v, k - 1)
  {
  }

  lemma {:induction false} ShrBound(v: nat, m: nat, k: nat)
    requires v < Pow2(m + k)
    ensures Shr(v, k) < Pow2(m)
  {
    if k > 0 {
      ShrBound(v / 2, m, k - 1);
    }
  }

  /** Shifting a field out from under a higher one. */
  lemma {:induction false} ShrField(a: nat, b: nat, k: nat, c: nat)
    requires a < Pow2(k)
    ensures Shr(a + Shl(b, k), k + c) == Shr(b, c)
  {
    if k > 0 {
      ShlEven(b, k);
      ShrField(a / 2, b, k - 1, c);
      assert (a + Shl(b, k)) / 2 == a / 2 + Shl(b, k - 1);
    }
  }

  /** Masking a number made of two fields masks the higher field. */
  lemma {:induction false} LowField(a: nat, b: nat, k: nat, c: nat)
    requires a < Pow2(k)
    ensures Low(a + Shl(b, k), k + c) == a + Shl(Low(b, c), k)
  {
    if k > 0 {
      ShlEven(b, k);
      ShlEven(Low(b, c), k);
      LowField(a / 2, b, k - 1, c);
      assert (a + Shl(b, k)) / 2 == a / 2 + Shl(b, k - 1);
      assert (a + Shl(b, k)) % 2 == a % 2;
    }
  }

  lemma {:induction false} HalfMod(v: nat, p: nat)
    requires p >= 1
    ensures v % (2 * p) == v % 2 + 2 * ((v / 2) % p)
    ensures v / (2 * p) == (v / 2) / p
  {
    var q := (v / 2) / p;
    var r := (v / 2) % p;
    assert v / 2 == q * p + r;
    assert v == q * (2 * p) + (v % 2 + 2 * r);
    ModUnique(v, 2 * p, q, v % 2 + 2 * r);
  }

  lemma {:induction false} ModUnique(v: int, d: int, q: int, r: int)
    requires 0 <= r < d && v == q * d + r
    ensures v % d == r && v / d == q
  {
    var q', r' := v / d, v % d;
    DivModParts(v, d);
    if q > q' {
      MulMono(d, q' + 1, q);
    } else if q < q' {
      MulMono(d, q + 1, q');
    }
  }

  lemma {:induction false} DivModParts(v: int, d: int)
    requires d >= 1
    ensures v == (v / d) * d + v % d && 0 <= v % d < d
  {
  }

  lemma {:induction false} MulMono(d: int, x: int, y: int)
    requires d >= 0 && x <= y
    ensures x * d <= y * d
  {
    assert (y - x) * d >= 0;
    assert (y - x) * d == y * d - x * d;
  }

  /** The low n bits of v, least-significant first. */
  function ToBits(v: nat, n: nat): (b: Bitstring)
    ensures |b| == n
  {
    if n == 0 then [] else [v % 2 == 1] + ToBits(v / 2, n - 1)
  }

  /** The number whose least-significant-first bits are b. */
  function FromBits(b: Bitstring): nat {
    if b == [] then 0 else (if b[0] then 1 else 0) + 2 * FromBits(b[1..])
  }

  /** The low n bits of v, most-significant first. */
  function ToBitsMsb(v: nat, n: nat): (b: Bitstring)
    ensures |b| == n
  {
    if n == 0 then [] else ToBitsMsb(v / 2, n - 1) + [v % 2 == 1]
  }

  /** Bits of a byte sequence, each byte least-significant bit first. */
  function BytesToBits(s: seq<byte>): (b: Bitstring)
    ensures |b| == 8 * |s|
  {
    if s == [] then [] else BytesToBits(s[..|s| - 1]) + ToBits(s[|s| - 1], 8)
  }

  lemma {:induction false} FromToBits(v: nat, n: nat)
    ensures FromBits(ToBits(v, n)) == Low(v, n)
  {
    if n > 0 {
      FromToBits(v / 2, n - 1);
      assert ToBits(v, n)[1..] == ToBits(v / 2, n - 1);
    }
  }

  lemma {:induction false} FromBitsBound(b: Bitstring)
    ensures FromBits(b) < Pow2(|b|)
  {
    if b != [] {
      FromBitsBound(b[1..]);
    }
  }

  lemma {:induction false} ToFromBits(b: Bitstring)
    ensures ToBits(FromBits(b), |b|) == b
  {
    if b != [] {
      ToFromBits(b[1..]);
      assert b == [b[0]] + b[1..];
    }
  }

  /** Concatenating two fields is adding the second one shifted by the width of the first. */
  lemma {:induction false} ToBitsConcat(v: nat, m: nat, w: nat, n: nat)
    requires v < Pow2(m)
    ensures ToBits(v, m) + ToBits(w, n) == ToBits(v + Shl(w, m), m + n)
  {
    if m == 0 {
      assert ToBits(v, m) + ToBits(w, n) == ToBits(w, n);
    } else {
      ShlEven(w, m);
      var x := v + Shl(w, m);
      assert x % 2 == v % 2 && x / 2 == v / 2 + Shl(w, m - 1);
      ToBitsConcat(v / 2, m - 1, w, n);
      ConsConcat(v % 2 == 1, ToBits(v / 2, m - 1), ToBits(w, n));
    }
  }

  lemma {:induction false} ConsConcat(x: bool, s: Bitstring, t: Bitstring)
    ensures ([x] + s) + t == [x] + (s + t)
  {
  }

  /** A field splits at any bit position. */
  lemma {:induction false} ToBitsSplit(v: nat, m: nat, n: nat)
    ensures ToBits(v, m + n) == ToBits(v, m) + ToBits(Shr(v, m), n)
  {
    if m == 0 {
      assert ToBits(v, 0) + ToBits(v, n) == ToBits(v, n);
    } else {
      ToBitsSplit(v / 2, m - 1, n);
      ConsConcat(v % 2 == 1, ToBits(v / 2, m - 1), ToBits(Shr(v / 2, m - 1), n));
    }
  }

  /** Only the low n bits of a value matter to an n-bit field. */
  lemma {:induction false} ToBitsLow(v: nat, n: nat)
    ensures ToBits(Low(v, n), n) == ToBits(v, n)
  {
    if n > 0 {
      ToBitsLow(v / 2, n - 1);
    }
  }

  /** Masking and shifting by a byte are remainder and quotient by 256. */
  lemma {:induction false} ByteParts(v: nat)
    ensures Low(v, 8) == v % 256 && Shr(v, 8) == v / 256
    ensures ToBits(v % 256, 8) == ToBits(v, 8)
  {
    assert Pow2(8) == 256 by { Pow2Values(); }
    LowMod(v, 8);
    ShrDiv(v, 8);
    ToBitsLow(v, 8);
  }

  lemma {:induction false} ToBitsZero(n: nat)
    ensures ToBits(0, n) == seq(n, i => false)
  {
    if n > 0 {
      ToBitsZero(n - 1);
      assert [false] + seq(n - 1, i => false) == seq(n, i => false);
    }
  }

  /** Reading the high part of a most-significant-first field drops its low bits. */
  lemma {:induction false} ToBitsMsbPrefix(v: nat, m: nat, n: nat)
    ensures ToBitsMsb(v, m + n)[..m] == ToBitsMsb(Shr(v, n), m)
  {
    if n > 0 {
      ToBitsMsbPrefix(v / 2, m, n - 1);
      assert ToBitsMsb(v, m + n)[..m] == ToBitsMsb(v / 2, m + n - 1)[..m];
    }
  }

  lemma {:induction false} ToBitsMsbInjective(v: nat, w: nat, n: nat)
    requires v < Pow2(n) && w < Pow2(n)
    requires ToBitsMsb(v, n) == ToBitsMsb(w, n)
    ensures v == w
  {
    if n > 0 {
      var a, b := ToBitsMsb(v, n), ToBitsMsb(w, n);
      assert a[..n - 1] == ToBitsMsb(v / 2, n - 1);
      assert b[..n - 1] == ToBitsMsb(w / 2, n - 1);
      assert a[n - 1] == (v % 2 == 1) && b[n - 1] == (w % 2 == 1);
      ToBitsMsbInjective(v / 2, w / 2, n - 1);
    }
  }

  lemma {:induction false} BytesToBitsOne(s: seq<byte>, x: byte)
    ensures BytesToBits(s + [x]) == BytesToBits(s) + ToBits(x, 8)
  {
    assert (s + [x])[..|s|] == s;
  }

  lemma {:induction false} BytesToBitsConcat(s: seq<byte>, t: seq<byte>)
    ensures BytesToBits(s + t) == BytesToBits(s) + BytesToBits(t)
  {
    hide ToBits, BytesToBits;
    if t == [] {
      assert s + t == s;
      assert BytesToBits(t) == [];
    } else {
      var n := |t| - 1;
      var u, x := t[..n], t[n];
      assert t == u + [x] && s + t == (s + u) + [x];
      BytesToBitsConcat(s, u);
      BytesToBitsOne(s + u, x);
      BytesToBitsOne(u, x);
      Assoc(BytesToBits(s), BytesToBits(u), ToBits(x, 8));
    }
  }

  lemma {:induction false} Assoc<T>(a: seq<T>, b: seq<T>, c: seq<T>)
    ensures (a + b) + c == a + (b + c)
  {
  }

  /** Bitwise or and exclusive or of naturals. */
  function Or(a: nat, b: nat): (r: nat)
    decreases a + b
  {
    if a == 0 then b else if b == 0 then a
    else (if a % 2 == 1 || b % 2 == 1 then 1 else 0) + 2 * Or(a / 2, b / 2)
  }

  function Xor(a: nat, b: nat): (r: nat)
    decreases a + b
  {
    if a == 0 then b else if b == 0 then a
    else (if a % 2 != b % 2 then 1 else 0) + 2 * Xor(a / 2, b / 2)
  }

  /** Or-ing in a field above the occupied bits is addition. */
  lemma {:induction false} OrDisjoint(a: nat, b: nat, k: nat)
    requires a < Pow2(k)
    ensures Or(a, Shl(b, k)) == a + Shl(b, k)
  {
    if a != 0 && Shl(b, k) != 0 {
      ShlEven(b, k);
      OrDisjoint(a / 2, b, k - 1);
    }
  }

  lemma {:induction false} XorLow(a: nat, b: nat, k: nat)
    ensures Low(Xor(a, b), k) == Xor(Low(a, k), Low(b, k))
    decreases k
  {
    if k > 0 {
      var la, lb := Low(a, k), Low(b, k);
      assert la % 2 == a % 2 && la / 2 == Low(a / 2, k - 1);
      assert lb % 2 == b % 2 && lb / 2 == Low(b / 2, k - 1);
      XorStep(a, b);
      XorStep(la, lb);
      XorLow(a / 2, b / 2, k - 1);
    }
  }

  lemma {:induction false} XorStep(a: nat, b: nat)
    ensures Xor(a, b) % 2 == (if a % 2 != b % 2 then 1 else 0)
    ensures Xor(a, b) / 2 == Xor(a / 2, b / 2)
  {
    if a == 0 {
      assert Xor(a / 2, b / 2) == b / 2;
    } else if b == 0 {
      assert Xor(a / 2, b / 2) == a / 2;
    } else {
      var bit, rest := if a % 2 != b % 2 then 1 else 0, Xor(a / 2, b / 2);
      assert Xor(a, b) == bit + 2 * rest;
    }
  }

  /** Exclusive or with a common operand is injective. */
  lemma {:induction false} XorInjective(a: nat, b: nat, c: nat)
    requires Xor(a, b) == Xor(a, c)
    ensures b == c
    decreases a + b + c
  {
    XorStep(a, b);
    XorStep(a, c);
    if a != 0 || b != 0 || c != 0 {
      XorInjective(a / 2, b / 2, c / 2);
    }
  }
}
