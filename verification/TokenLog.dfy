/** The buffers in which ct_tally keeps the tokens of a block until it is flushed: literals and lengths,
    distances, and one flag bit per token that tells which is which. */
module TokenLog {
  import opened Bits
  import opened Inflate
  import opened Tokens

  // --- Single bits of a byte ---

  predicate Bit(x: nat, k: nat) {
    Shr(x, k) % 2 == 1
  }

  lemma {:induction false} ShrPlus(x: nat, k: nat, i: nat)
    requires i <= k
    ensures Shr(x + Pow2(k), i) == Shr(x, i) + Pow2(k - i)
  {
    if i > 0 {
      assert (x + Pow2(k)) / 2 == x / 2 + Pow2(k - 1);
      ShrPlus(x / 2, k - 1, i - 1);
    }
  }

  /** Adding the next higher bit sets that bit only. */
  lemma {:induction false} BitAdded(x: nat, k: nat, i: nat)
    requires x < Pow2(k) && i <= k
    ensures Bit(x + Pow2(k), i) == (i == k || Bit(x, i))
  {
    ShrPlus(x, k, i);
    if i == k {
      ShrBound(x, 0, k);
    }
  }

  lemma {:induction false} BitClear(x: nat, k: nat)
    requires x < Pow2(k)
    ensures !Bit(x, k)
  {
    ShrBound(x, 0, k);
  }

  // --- The log as a sequence of tokens ---

  /** What l_buf holds for a token. */
  function LitOrLength(t: Token): nat
    requires InRange(t)
  {
    match t
    case Literal(x) => x
    case Match(length, _) => length - MIN_MATCH
  }

  function NumMatches(ts: seq<Token>): nat {
    if ts == [] then 0 else NumMatches(ts[..|ts| - 1]) + if ts[|ts| - 1].Match? then 1 else 0
  }

  lemma {:induction false} NumMatchesBound(ts: seq<Token>)
    ensures NumMatches(ts) <= |ts|
  {
    if ts != [] {
      NumMatchesBound(ts[..|ts| - 1]);
    }
  }

  lemma {:induction false} NumMatchesPrefix(ts: seq<Token>, i: nat)
    requires i < |ts|
    ensures NumMatches(ts[..i]) + (if ts[i].Match? then 1 else 0) <= NumMatches(ts)
  {
    if i < |ts| - 1 {
      assert ts[..|ts| - 1][..i] == ts[..i];
      NumMatchesPrefix(ts[..|ts| - 1], i);
    }
  }

  ghost predicate LitsStored(ts: seq<Token>, lBuf: seq<nat>) {
    |ts| <= |lBuf| && AllInRange(ts) && forall i :: 0 <= i < |ts| ==> lBuf[i] == LitOrLength(ts[i])
  }

  ghost predicate DistStored(ts: seq<Token>, dBuf: seq<nat>, i: nat)
    requires i < |ts|
  {
    ts[i].Match? ==> NumMatches(ts[..i]) < |dBuf| && dBuf[NumMatches(ts[..i])] + 1 == ts[i].distance
  }

  ghost predicate DistsStored(ts: seq<Token>, dBuf: seq<nat>) {
    forall i :: 0 <= i < |ts| ==> DistStored(ts, dBuf, i)
  }

  /** The flags of the tokens from index from on, as bits of one byte. */
  ghost predicate FlagByte(ts: seq<Token>, from: nat, x: nat) {
    forall i :: from <= i < |ts| && i < from + 8 ==> Bit(x, i - from) == ts[i].Match?
  }

  ghost predicate FlagsStored(ts: seq<Token>, flagBuf: seq<nat>, n: nat) {
    n <= |flagBuf| && forall j :: 0 <= j < n ==> FlagByte(ts, 8 * j, flagBuf[j])
  }

  /** The buffers hold the tokens; complete flag bytes are in flag_buf, the last ones still in flags. */
  ghost predicate Logged(ts: seq<Token>, lBuf: seq<nat>, dBuf: seq<nat>, flagBuf: seq<nat>,
                         lastLit: nat, lastDist: nat, lastFlags: nat, flags: nat, flagBit: nat)
  {
    && lastLit == |ts| && lastDist == NumMatches(ts) && lastFlags == |ts| / 8
    && LitsStored(ts, lBuf) && DistsStored(ts, dBuf) && FlagsStored(ts, flagBuf, lastFlags)
    && FlagByte(ts, 8 * lastFlags, flags) && flags < Pow2(|ts| % 8) && flagBit == Pow2(|ts| % 8)
  }

  /** All flag bytes are in flag_buf: the log can be read. */
  ghost predicate Readable(ts: seq<Token>, lBuf: seq<nat>, dBuf: seq<nat>, flagBuf: seq<nat>) {
    LitsStored(ts, lBuf) && DistsStored(ts, dBuf) && FlagsStored(ts, flagBuf, (|ts| + 7) / 8)
  }

  lemma {:induction false} LoggedEmpty(lBuf: seq<nat>, dBuf: seq<nat>, flagBuf: seq<nat>)
    ensures Logged([], lBuf, dBuf, flagBuf, 0, 0, 0, 0, 1)
  {
  }

  lemma {:induction false} StoredMore(ts: seq<Token>, t: Token, lBuf: seq<nat>, dBuf: seq<nat>)
    requires LitsStored(ts, lBuf) && DistsStored(ts, dBuf) && |ts| < |lBuf| && InRange(t)
    requires t.Match? ==> NumMatches(ts) < |dBuf|
    ensures LitsStored(ts + [t], lBuf[|ts| := LitOrLength(t)])
    ensures NumMatches(ts + [t]) == NumMatches(ts) + if t.Match? then 1 else 0
    ensures DistsStored(ts + [t], if t.Match? then dBuf[NumMatches(ts) := t.distance - 1] else dBuf)
  {
    var ts' := ts + [t];
    assert ts'[..|ts|] == ts;
    var dBuf' := if t.Match? then dBuf[NumMatches(ts) := t.distance - 1] else dBuf;
    forall i | 0 <= i < |ts'|
      ensures DistStored(ts', dBuf', i)
    {
      if i < |ts| {
        assert ts'[..i] == ts[..i];
        NumMatchesPrefix(ts, i);
        assert DistStored(ts, dBuf, i);
      }
    }
  }

  lemma {:induction false} FlagMore(ts: seq<Token>, t: Token, flags: nat)
    requires FlagByte(ts, |ts| / 8 * 8, flags) && flags < Pow2(|ts| % 8)
    ensures var flags' := if t.Match? then flags + Pow2(|ts| % 8) else flags;
      FlagByte(ts + [t], |ts| / 8 * 8, flags') && flags' < Pow2(|ts| % 8 + 1)
  {
    var from, k := |ts| / 8 * 8, |ts| % 8;
    var ts', flags' := ts + [t], if t.Match? then flags + Pow2(k) else flags;
    forall i | from <= i < |ts'| && i < from + 8
      ensures Bit(flags', i - from) == ts'[i].Match?
    {
      if i == |ts| {
        BitClear(flags, k);
      }
      BitAdded(flags, k, i - from);
    }
  }

  lemma {:induction false} FlagsStoredMore(ts: seq<Token>, t: Token, flagBuf: seq<nat>, n: nat)
    requires FlagsStored(ts, flagBuf, n) && 8 * n <= |ts|
    ensures FlagsStored(ts + [t], flagBuf, n)
  {
    var ts' := ts + [t];
    forall j | 0 <= j < n
      ensures FlagByte(ts', 8 * j, flagBuf[j])
    {
      assert FlagByte(ts, 8 * j, flagBuf[j]);
      assert forall i :: 0 <= i < |ts| ==> ts'[i] == ts[i];
    }
  }

  lemma {:induction false} FlagsStoredNext(ts: seq<Token>, flagBuf: seq<nat>, n: nat, flags: nat)
    requires FlagsStored(ts, flagBuf, n) && n < |flagBuf| && FlagByte(ts, 8 * n, flags)
    ensures FlagsStored(ts, flagBuf[n := flags], n + 1)
  {
  }

  /** The log after one more token, as ct_tally writes it. */
  lemma {:induction false} LoggedMore(ts: seq<Token>, t: Token, lBuf: seq<nat>, dBuf: seq<nat>, flagBuf: seq<nat>,
                                      lastLit: nat, lastDist: nat, lastFlags: nat, flags: nat, flagBit: nat)
    requires Logged(ts, lBuf, dBuf, flagBuf, lastLit, lastDist, lastFlags, flags, flagBit)
    requires InRange(t) && lastLit < |lBuf| && (t.Match? ==> lastDist < |dBuf|) && lastFlags < |flagBuf|
    ensures flagBit < 256 && Or(flags, flagBit) == flags + flagBit
    ensures var lBuf' := lBuf[lastLit := LitOrLength(t)];
      var dBuf' := if t.Match? then dBuf[lastDist := t.distance - 1] else dBuf;
      var lastDist' := if t.Match? then lastDist + 1 else lastDist;
      var flags' := if t.Match? then flags + flagBit else flags;
      if (lastLit + 1) % 8 == 0
      then Logged(ts + [t], lBuf', dBuf', flagBuf[lastFlags := flags'], lastLit + 1, lastDist', lastFlags + 1, 0, 1)
      else Logged(ts + [t], lBuf', dBuf', flagBuf, lastLit + 1, lastDist', lastFlags, flags', flagBit * 2 % 256)
  {
    hide LitsStored, DistsStored, FlagsStored, FlagByte, NumMatches, Or, Shl, LitOrLength;
    var k, n := |ts| % 8, |ts| / 8;
    var flags' := if t.Match? then flags + flagBit else flags;
    BytePowers(k);
    OrDisjoint(flags, 1, k);
    ShlIsPow2(k);
    StoredMore(ts, t, lBuf, dBuf);
    FlagMore(ts, t, flags);
    FlagsStoredMore(ts, t, flagBuf, n);
    if k == 7 {
      FlagsStoredNext(ts + [t], flagBuf, n, flags');
      FlagByteNone(ts + [t], |ts| + 1);
    }
  }

  lemma {:induction false} FlagByteNone(ts: seq<Token>, from: nat)
    requires from >= |ts|
    ensures FlagByte(ts, from, 0)
  {
  }

  lemma {:induction false} BytePowers(k: nat)
    requires k < 8
    ensures Pow2(k) <= 128 && Pow2(0) == 1 && Pow2(k + 1) == 2 * Pow2(k)
  {
    Pow2Monotone(k, 7);
    assert Pow2(7) == 128;
  }

  /** Saving the incomplete flag byte makes the log readable. */
  lemma {:induction false} Closed(ts: seq<Token>, lBuf: seq<nat>, dBuf: seq<nat>, flagBuf: seq<nat>,
                                  lastLit: nat, lastDist: nat, lastFlags: nat, flags: nat, flagBit: nat)
    requires Logged(ts, lBuf, dBuf, flagBuf, lastLit, lastDist, lastFlags, flags, flagBit) && lastFlags < |flagBuf|
    ensures Readable(ts, lBuf, dBuf, flagBuf[lastFlags := flags])
  {
    hide LitsStored, DistsStored, FlagByte, NumMatches, Pow2;
    FlagsStoredNext(ts, flagBuf, lastFlags, flags);
  }

  /** Reading token i back. */
  lemma {:induction false} ReadToken(ts: seq<Token>, lBuf: seq<nat>, dBuf: seq<nat>, flagBuf: seq<nat>, i: nat)
    requires Readable(ts, lBuf, dBuf, flagBuf) && i < |ts|
    ensures InRange(ts[i]) && i < |lBuf| && lBuf[i] == LitOrLength(ts[i])
    ensures i / 8 < |flagBuf| && (Shr(flagBuf[i / 8], i % 8) % 2 == 1) == ts[i].Match?
    ensures ts[i].Match? ==> NumMatches(ts[..i]) < |dBuf| && dBuf[NumMatches(ts[..i])] + 1 == ts[i].distance
    ensures NumMatches(ts[..i + 1]) == NumMatches(ts[..i]) + if ts[i].Match? then 1 else 0
  {
    hide NumMatches, LitOrLength;
    assert FlagByte(ts, 8 * (i / 8), flagBuf[i / 8]);
    assert DistStored(ts, dBuf, i);
    NumMatchesNext(ts, i);
  }

  lemma {:induction false} NumMatchesNext(ts: seq<Token>, i: nat)
    requires i < |ts|
    ensures NumMatches(ts[..i + 1]) == NumMatches(ts[..i]) + if ts[i].Match? then 1 else 0
  {
    assert ts[..i + 1][..i] == ts[..i];
  }
}
