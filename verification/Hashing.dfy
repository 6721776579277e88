/** The rolling hash of the match finder: after three updates it depends on three bytes only, and it
    tells the third byte apart when the first two are known. */
module Hashing {
  import opened Bits

  /** H_SHIFT and HASH_BITS. */
  datatype HashSize = HashSize(shift: nat, bits: nat)

  /** What the code relies on. */
  predicate HashOk(z: HashSize) {
    3 * z.shift >= z.bits >= 8
  }

  /** UPDATE_HASH. */
  function Update(z: HashSize, h: nat, c: byte): (r: nat) {
    Low(Xor(Shl(h, z.shift), c), z.bits)
  }

  function Hash3(z: HashSize, a: byte, b: byte, c: byte): nat {
    Update(z, Update(z, Update(z, 0, a), b), c)
  }

  lemma {:induction false} UpdateBound(z: HashSize, h: nat, c: byte)
    ensures Update(z, h, c) < Pow2(z.bits)
  {
    LowBound(Xor(Shl(h, z.shift), c), z.bits);
  }

  lemma {:induction false} LowLow(v: nat, m: nat, k: nat)
    requires m <= k
    ensures Low(Low(v, k), m) == Low(v, m)
  {
    if m > 0 {
      LowLow(v / 2, m - 1, k - 1);
      assert Low(v, k) == v % 2 + 2 * Low(v / 2, k - 1);
    }
  }

  lemma {:induction false} LowShl(v: nat, s: nat, m: nat)
    ensures Low(Shl(v, s), m + s) == Shl(Low(v, m), s)
  {
    if s > 0 {
      ShlEven(v, s);
      LowShl(v, s - 1, m);
    }
  }

  /** Agreement on the low m bits becomes agreement on m + shift of them. */
  lemma {:induction false} UpdateAgrees(z: HashSize, p: nat, q: nat, c: byte, m: nat, k: nat)
    requires Low(p, m) == Low(q, m) && k <= m + z.shift && k <= z.bits
    ensures Low(Update(z, p, c), k) == Low(Update(z, q, c), k)
  {
    hide Low, Shl, Xor;
    var x, y := Shl(p, z.shift), Shl(q, z.shift);
    LowLow(Xor(x, c), k, z.bits);
    LowLow(Xor(y, c), k, z.bits);
    XorLow(x, c, k);
    XorLow(y, c, k);
    LowShl(p, z.shift, m);
    LowShl(q, z.shift, m);
    LowLow(x, k, m + z.shift);
    LowLow(y, k, m + z.shift);
  }

  function Min(a: nat, b: nat): nat {
    if a <= b then a else b
  }

  /** The oldest byte, and all before it, no longer take part in the hash key. */
  lemma {:induction false} HashForgets(z: HashSize, x: nat, a: byte, b: byte, c: byte)
    requires HashOk(z)
    ensures Update(z, Update(z, Update(z, x, a), b), c) == Hash3(z, a, b, c)
  {
    hide Update, Low, Shl;
    var s, n := z.shift, z.bits;
    var p, q := Update(z, x, a), Update(z, 0, a);
    LowNone(x);
    LowNone(0);
    UpdateAgrees(z, x, 0, a, 0, Min(s, n));
    UpdateAgrees(z, p, q, b, Min(s, n), Min(2 * s, n));
    var p', q' := Update(z, p, b), Update(z, q, b);
    UpdateAgrees(z, p', q', c, Min(2 * s, n), n);
    UpdateBound(z, p', c);
    UpdateBound(z, q', c);
    LowNoop(Update(z, p', c), n);
    LowNoop(Update(z, q', c), n);
  }

  lemma {:induction false} LowNone(v: nat)
    ensures Low(v, 0) == 0
  {
  }

  /** Equal keys and equal first two bytes mean equal third bytes. */
  lemma {:induction false} ThirdByte(z: HashSize, a: byte, b: byte, c: byte, c': byte)
    requires HashOk(z) && Hash3(z, a, b, c) == Hash3(z, a, b, c')
    ensures c == c'
  {
    hide Low, Shl, Xor, Pow2;
    var x := Shl(Update(z, Update(z, 0, a), b), z.shift);
    XorLow(x, c, z.bits);
    XorLow(x, c', z.bits);
    Pow2Monotone(8, z.bits);
    Pow2Values();
    LowNoop(c, z.bits);
    LowNoop(c', z.bits);
    XorInjective(Low(x, z.bits), c, c');
  }

  /** The key is primed with the two bytes a and b: one more byte completes it. */
  ghost predicate Primed(z: HashSize, h: nat, a: byte, b: byte) {
    exists x: nat :: h == Update(z, Update(z, x, a), b)
  }

  lemma {:induction false} PrimedUpdate(z: HashSize, h: nat, a: byte, b: byte, c: byte)
    requires HashOk(z) && Primed(z, h, a, b)
    ensures Update(z, h, c) == Hash3(z, a, b, c) < Pow2(z.bits)
    ensures Primed(z, Update(z, h, c), b, c)
  {
    hide Update, Pow2;
    var x: nat :| h == Update(z, Update(z, x, a), b);
    HashForgets(z, x, a, b, c);
    UpdateBound(z, h, c);
    assert Update(z, h, c) == Update(z, Update(z, Update(z, x, a), b), c);
  }
}
