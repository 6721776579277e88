/** The lookup tables that ct_init computes: from match lengths and distances to their codes. */
module Tables {
  import opened Bits
  import opened Inflate
  import opened Tokens

  const EXTRA_LBITS: seq<nat> := [0, 0, 0, 0, 0, 0, 0, 0, 1, 1, 1, 1, 2, 2, 2, 2, 3, 3, 3, 3, 4, 4, 4, 4, 5, 5, 5, 5, 0]
  const EXTRA_DBITS: seq<nat> := [0, 0, 0, 0, 1, 1, 2, 2, 3, 3, 4, 4, 5, 5, 6, 6, 7, 7, 8, 8, 9, 9, 10, 10, 11, 11, 12,
      12, 13, 13]
  const EXTRA_BLBITS: seq<nat> := [0, 0, 0, 0, 0, 0, 0, 0, 0, 0, 0, 0, 0, 0, 0, 0, 2, 3, 7]

  lemma {:induction false} ExtraLengthBits(c: nat)
    requires c < 29
    ensures EXTRA_LBITS[c] == LengthExtra(c) <= 5
  {
  }

  lemma {:induction false} ExtraDistBits(c: nat)
    requires c < 30
    ensures EXTRA_DBITS[c] == DistExtra(c) <= 13
  {
  }

  // --- Lengths ---

  /** The first normalized length, that is length less 3, of a code; the place after the last one is 256. */
  function LengthStart(c: nat): nat {
    if c == 0 then 0 else LengthStart(c - 1) + Pow2(LengthExtra(c - 1))
  }

  lemma {:induction false} LengthStartIs(c: nat)
    requires c < 28
    ensures LengthBase(c) == LengthStart(c) + 3
  {
    if c > 0 {
      LengthStartIs(c - 1);
    }
  }

  lemma {:induction false} LengthStart28()
    ensures LengthStart(28) == 256
  {
    RfcLengthTable();
    LengthStartIs(27);
    assert Pow2(5) == 32;
  }

  lemma {:induction false} LengthStartMonotone(c: nat, c': nat)
    requires c <= c'
    ensures LengthStart(c) <= LengthStart(c')
  {
    if c < c' {
      LengthStartMonotone(c, c' - 1);
    }
  }

  ghost predicate LengthSlot(k: nat, c: nat) {
    c < 28 && LengthStart(c) <= k < LengthStart(c + 1)
  }

  ghost predicate LengthsFilled(codes: seq<nat>, bases: seq<nat>, upto: nat, c: nat) {
    && |codes| == 256 && |bases| == 29 && upto <= 256 && c <= 28
    && (forall k :: 0 <= k < upto ==> LengthSlot(k, codes[k]))
    && (forall i :: 0 <= i < c ==> bases[i] == LengthStart(i))
  }

  /** What the coder relies on. The base of the last code, which has no extra bits, is not used. */
  ghost predicate LengthTableOk(codes: seq<nat>, bases: seq<nat>) {
    && |codes| == 256 && |bases| == 29
    && (forall l :: MIN_MATCH <= l <= MAX_MATCH ==> codes[l - MIN_MATCH] == LengthCode(l))
    && (forall c :: 0 <= c < 28 ==> bases[c] + MIN_MATCH == LengthBase(c))
  }

  lemma {:induction false} SlotCode(l: nat, c: nat)
    requires MIN_MATCH <= l < MAX_MATCH && LengthSlot(l - 3, c)
    ensures c == LengthCode(l)
  {
    hide Pow2;
    LengthStartIs(c);
    LengthCodeUnique(l, c, LengthCode(l));
  }

  lemma {:induction false} LengthsDone(codes: seq<nat>, bases: seq<nat>)
    requires LengthsFilled(codes, bases, 256, 28)
    ensures LengthTableOk(codes[255 := 28], bases)
  {
    hide LengthSlot, Pow2, LengthBase, LengthStart, LengthInCode;
    var codes' := codes[255 := 28];
    forall l | MIN_MATCH <= l <= MAX_MATCH
      ensures codes'[l - MIN_MATCH] == LengthCode(l)
    {
      if l < MAX_MATCH {
        SlotCode(l, codes[l - MIN_MATCH]);
      } else {
        Code258();
      }
    }
    forall c | 0 <= c < 28
      ensures bases[c] + MIN_MATCH == LengthBase(c)
    {
      LengthStartIs(c);
    }
  }

  lemma {:induction false} Code258()
    ensures LengthCode(MAX_MATCH) == 28
  {
  }

  /** The mapping from lengths to length codes. */
  method InitLengths(codes: array<nat>, bases: array<nat>)
    requires codes.Length == 256 && bases.Length == 29 && codes != bases
    modifies codes, bases
    ensures LengthTableOk(codes[..], bases[..])
  {
    hide LengthsFilled, LengthTableOk, LengthStart, Pow2, LengthExtra;
    var length, code := 0, 0;
    LengthsStart(codes[..], bases[..]);
    while code < 28
      invariant code <= 28 && length == LengthStart(code)
      invariant LengthsFilled(codes[..], bases[..], length, code)
    {
      LengthsRoom(code);
      ghost var cs, bs := codes[..], bases[..];
      bases[code] := length;
      assert bases[..] == bs[code := length];
      assert codes[..] == cs;
      LengthsBase(cs, bs, length, code);
      ghost var bs' := bases[..];
      for n := 0 to Shl(1, EXTRA_LBITS[code])
        invariant length == LengthStart(code) + n
        invariant bases[..] == bs' && LengthsFilled(codes[..], bs', length, code + 1)
      {
        ghost var cs' := codes[..];
        LengthsStep(cs', bs', length, code);
        codes[length] := code;
        assert codes[..] == cs'[length := code];
        length := length + 1;
      }
      code := code + 1;
    }
    LengthStart28();
    ghost var cs := codes[..];
    LengthsDone(cs, bases[..]);
    ghost var bs := bases[..];
    codes[length - 1] := code;
    assert codes[..] == cs[255 := 28];
    assert bases[..] == bs;
  }

  lemma {:induction false} LengthsStart(codes: seq<nat>, bases: seq<nat>)
    requires |codes| == 256 && |bases| == 29
    ensures LengthsFilled(codes, bases, 0, 0) && LengthStart(0) == 0
  {
  }

  lemma {:induction false} NextLengthStart(c: nat)
    ensures LengthStart(c + 1) == LengthStart(c) + Pow2(LengthExtra(c))
  {
  }

  lemma {:induction false} LengthsRoom(c: nat)
    requires c < 28
    ensures EXTRA_LBITS[c] == LengthExtra(c)
    ensures LengthStart(c) + Shl(1, EXTRA_LBITS[c]) == LengthStart(c + 1) <= 256
  {
    hide *;
    NextLengthStart(c);
    ExtraLengthBits(c);
    ShlIsPow2(LengthExtra(c));
    LengthStart28();
    LengthStartMonotone(c + 1, 28);
  }

  lemma {:induction false} LengthsBase(codes: seq<nat>, bases: seq<nat>, upto: nat, c: nat)
    requires LengthsFilled(codes, bases, upto, c) && c < 28 && upto == LengthStart(c)
    ensures LengthsFilled(codes, bases[c := upto], upto, c + 1)
  {
  }

  lemma {:induction false} LengthsStep(codes: seq<nat>, bases: seq<nat>, upto: nat, c: nat)
    requires LengthsFilled(codes, bases, upto, c + 1) && LengthSlot(upto, c)
    ensures upto < |codes| && LengthsFilled(codes[upto := c], bases, upto + 1, c + 1)
  {
    LengthsRoom(c);
  }

  // --- Distances ---

  ghost predicate DistSlot(d: nat, c: nat) {
    c < 30 && DistBase(c) <= d + 1 < DistBase(c + 1)
  }

  /** Code c covers all the distances d, counted from 0, with d / 128 == j. */
  ghost predicate HighSlot(j: nat, c: nat) {
    c < 30 && DistBase(c) <= 128 * j + 1 && 128 * j + 129 <= DistBase(c + 1)
  }

  /** First multiple of 128 of the codes from 16 on. */
  function HighStart(c: nat): nat {
    if c <= 16 then 2 else HighStart(c - 1) + Pow2(DistExtra(c - 1) - 7)
  }

  lemma {:induction false} Pow2By128(e: nat)
    ensures Pow2(e + 7) == 128 * Pow2(e)
  {
    if e > 0 {
      Pow2By128(e - 1);
    } else {
      assert Pow2(7) == 128;
    }
  }

  lemma {:induction false} HighStartIs(c: nat)
    requires 16 <= c
    ensures DistBase(c) == 128 * HighStart(c) + 1
  {
    if c == 16 {
      RfcDistTable();
    } else {
      HighStartIs(c - 1);
      Pow2By128(DistExtra(c - 1) - 7);
    }
  }

  lemma {:induction false} DistEnds()
    ensures DistBase(0) == 1 && DistBase(16) == 257 && DistBase(30) == 0x8001 && HighStart(30) == 256
  {
    RfcDistTable();
    assert Pow2(13) == 0x2000;
    assert DistExtra(29) == 13;
    assert DistBase(30) == DistBase(29) + Pow2(DistExtra(29));
    HighStartIs(30);
  }

  lemma {:induction false} HighStartMonotone(c: nat, c': nat)
    requires 16 <= c <= c'
    ensures HighStart(c) <= HighStart(c')
  {
    if c < c' {
      HighStartMonotone(c, c' - 1);
    }
  }

  ghost predicate DistsFilled(codes: seq<nat>, bases: seq<nat>, low: nat, high: nat, c: nat) {
    && |codes| == 512 && |bases| == 30 && low <= 256 && 2 <= high <= 256 && c <= 30
    && (forall d :: 0 <= d < low ==> DistSlot(d, codes[d]))
    && (forall i :: 256 + 2 <= i < 256 + high ==> HighSlot(i - 256, codes[i]))
    && (forall i :: 0 <= i < c ==> bases[i] + 1 == DistBase(i))
  }

  /** D_CODE: the code of a distance, counted from 0. */
  function DCode(codes: seq<nat>, d: nat): nat
    requires |codes| == 512 && d < 0x8000
  {
    if d < 256 then codes[d] else codes[256 + d / 128]
  }

  ghost predicate DistTableOk(codes: seq<nat>, bases: seq<nat>) {
    && |codes| == 512 && |bases| == 30
    && (forall d :: 0 <= d < 0x8000 ==> DCode(codes, d) == DistCode(d + 1))
    && (forall c :: 0 <= c < 30 ==> bases[c] + 1 == DistBase(c))
  }

  lemma {:induction false} DistSlotCode(d: nat, c: nat)
    requires d < 0x8000 && DistSlot(d, c)
    ensures c == DistCode(d + 1)
  {
    hide Pow2;
    DistCodeUnique(d + 1, c, DistCode(d + 1));
  }

  lemma {:induction false} HighSlotCovers(d: nat, c: nat)
    requires HighSlot(d / 128, c)
    ensures DistSlot(d, c)
  {
  }

  lemma {:induction false} DistsDone(codes: seq<nat>, bases: seq<nat>)
    requires DistsFilled(codes, bases, 256, 256, 30)
    ensures DistTableOk(codes, bases)
  {
    hide DistSlot, HighSlot, DistBase, Pow2, DistInCode;
    forall d | 0 <= d < 0x8000
      ensures DCode(codes, d) == DistCode(d + 1)
    {
      if d >= 256 {
        HighSlotCovers(d, codes[256 + d / 128]);
      }
      DistSlotCode(d, DCode(codes, d));
    }
  }

  lemma {:induction false} DistsStart(codes: seq<nat>, bases: seq<nat>)
    requires |codes| == 512 && |bases| == 30
    ensures DistsFilled(codes, bases, 0, 2, 0)
  {
  }

  lemma {:induction false} NextDistBase(c: nat)
    ensures DistBase(c + 1) == DistBase(c) + Pow2(DistExtra(c))
  {
  }

  lemma {:induction false} DistsRoom(c: nat)
    requires c < 16
    ensures Shl(1, EXTRA_DBITS[c]) == Pow2(DistExtra(c))
    ensures DistBase(c + 1) == DistBase(c) + Pow2(DistExtra(c)) <= 257
  {
    hide *;
    NextDistBase(c);
    ExtraDistBits(c);
    ShlIsPow2(DistExtra(c));
    DistEnds();
    if c < 15 {
      DistBaseMonotone(c + 1, 16);
    }
  }

  lemma {:induction false} HighExtra(c: nat)
    requires 16 <= c < 30
    ensures 7 <= EXTRA_DBITS[c] == DistExtra(c)
  {
  }

  lemma {:induction false} NextHighStart(c: nat)
    requires c >= 16
    ensures HighStart(c + 1) == HighStart(c) + Pow2(DistExtra(c) - 7)
  {
  }

  lemma {:induction false} HighRoom(c: nat)
    requires 16 <= c < 30
    ensures EXTRA_DBITS[c] >= 7
    ensures HighStart(c) + Shl(1, EXTRA_DBITS[c] - 7) == HighStart(c + 1) <= 256
    ensures DistBase(c) == 128 * HighStart(c) + 1 && DistBase(c + 1) == 128 * HighStart(c + 1) + 1
  {
    hide *;
    NextHighStart(c);
    HighExtra(c);
    ShlIsPow2(DistExtra(c) - 7);
    DistEnds();
    HighStartMonotone(c + 1, 30);
    HighStartIs(c);
    HighStartIs(c + 1);
  }

  lemma {:induction false} DistsBase(codes: seq<nat>, bases: seq<nat>, low: nat, high: nat, c: nat, base: nat)
    requires DistsFilled(codes, bases, low, high, c) && c < 30 && base + 1 == DistBase(c)
    ensures DistsFilled(codes, bases[c := base], low, high, c + 1)
  {
  }

  lemma {:induction false} DistsStep(codes: seq<nat>, bases: seq<nat>, low: nat, c: nat)
    requires DistsFilled(codes, bases, low, 2, c + 1) && DistSlot(low, c) && c < 16
    ensures low < 256 && DistsFilled(codes[low := c], bases, low + 1, 2, c + 1)
  {
    hide DistBase;
    DistsRoom(c);
  }

  lemma {:induction false} HighStep(codes: seq<nat>, bases: seq<nat>, high: nat, c: nat)
    requires DistsFilled(codes, bases, 256, high, c + 1) && 16 <= c < 30 && HighStart(c) <= high < HighStart(c + 1)
    ensures high < 256 && DistsFilled(codes[256 + high := c], bases, 256, high + 1, c + 1)
  {
    hide DistBase;
    HighRoom(c);
  }

  method InitLowDists(codes: array<nat>, bases: array<nat>)
    requires codes.Length == 512 && bases.Length == 30 && codes != bases
    modifies codes, bases
    ensures DistsFilled(codes[..], bases[..], 256, 2, 16)
  {
    hide DistsFilled, DistTableOk, DistBase, Pow2, DistExtra, HighStart;
    DistsStart(codes[..], bases[..]);
    DistEnds();
    var dist, code := 0, 0;
    while code < 16
      invariant code <= 16 && dist + 1 == DistBase(code)
      invariant DistsFilled(codes[..], bases[..], dist, 2, code)
    {
      DistsRoom(code);
      ghost var cs, bs := codes[..], bases[..];
      DistsBase(cs, bs, dist, 2, code, dist);
      bases[code] := dist;
      assert bases[..] == bs[code := dist];
      assert codes[..] == cs;
      ghost var bs' := bases[..];
      for n := 0 to Shl(1, EXTRA_DBITS[code])
        invariant dist + 1 == DistBase(code) + n
        invariant bases[..] == bs' && DistsFilled(codes[..], bs', dist, 2, code + 1)
      {
        ghost var cs' := codes[..];
        DistsStep(cs', bs', dist, code);
        codes[dist] := code;
        assert codes[..] == cs'[dist := code];
        dist := dist + 1;
      }
      code := code + 1;
    }
  }

  /** The mapping from distances to distance codes; from the second loop on distances are divided by 128. */
  method InitDists(codes: array<nat>, bases: array<nat>)
    requires codes.Length == 512 && bases.Length == 30 && codes != bases
    modifies codes, bases
    ensures DistTableOk(codes[..], bases[..])
  {
    hide DistsFilled, DistTableOk, DistBase, Pow2, DistExtra, HighStart;
    InitLowDists(codes, bases);
    DistEnds();
    HighStartIs(16);
    var dist, code := 2, 16;
    while code < 30
      invariant 16 <= code <= 30 && dist == HighStart(code)
      invariant DistsFilled(codes[..], bases[..], 256, dist, code)
    {
      HighRoom(code);
      ghost var cs, bs := codes[..], bases[..];
      DistsBase(cs, bs, 256, dist, code, 128 * dist);
      bases[code] := 128 * dist;
      assert bases[..] == bs[code := 128 * dist];
      assert codes[..] == cs;
      ghost var bs' := bases[..];
      for n := 0 to Shl(1, EXTRA_DBITS[code] - 7)
        invariant dist == HighStart(code) + n
        invariant bases[..] == bs' && DistsFilled(codes[..], bs', 256, dist, code + 1)
      {
        ghost var cs' := codes[..];
        HighStep(cs', bs', dist, code);
        codes[256 + dist] := code;
        assert codes[..] == cs'[256 + dist := code];
        dist := dist + 1;
      }
      code := code + 1;
    }
    DistsDone(codes[..], bases[..]);
  }
}
