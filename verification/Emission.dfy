/** What has been sent and recorded so far, as bytes of the input. */
module Emission {
  import opened Bits
  import opened Options
  import opened Inflate
  import opened Tokens
  import opened DynamicBlock
  import opened Blocks
  import opened BlockCoder
  import W = BitWriter

  /** The len bytes at pos are those dist bytes before, which is not farther than reach. */
  ghost predicate MatchOk(data: seq<byte>, pos: nat, dist: nat, len: nat, reach: nat) {
    && 1 <= dist <= pos && dist <= reach && len <= MAX_MATCH && pos + len <= |data|
    && forall i :: pos <= i < pos + len ==> data[i] == data[i - dist]
  }

  lemma {:induction false} CopyIsData(data: seq<byte>, pos: nat, dist: nat, len: nat)
    requires 1 <= dist <= pos && pos + len <= |data| && forall i :: pos <= i < pos + len ==> data[i] == data[i - dist]
    ensures Copy(data[..pos], dist, len) == data[..pos + len]
    decreases len
  {
    if len > 0 {
      assert data[..pos + 1] == data[..pos] + [data[pos]];
      CopyIsData(data, pos + 1, dist, len - 1);
    }
  }

  /** A block that was sent, and the tokens it was made from. */
  datatype Sent = Sent(block: Block, tokens: seq<Token>)

  ghost predicate SentOk(x: Sent) {
    BlockOk(x.block) && (x.block.Stored? || x.block.tokens == x.tokens)
  }

  ghost predicate AllSent(log: seq<Sent>) {
    forall i :: 0 <= i < |log| ==> SentOk(log[i])
  }

  /** The bits of blocks none of which is the last. */
  ghost function SentBits(log: seq<Sent>): Bitstring
    requires AllSent(log)
  {
    if log == [] then []
    else
      var d := SentBits(log[..|log| - 1]);
      d + BlockBits(log[|log| - 1].block, false, |d|)
  }

  function AllTokens(log: seq<Sent>): seq<Token> {
    if log == [] then [] else AllTokens(log[..|log| - 1]) + log[|log| - 1].tokens
  }

  lemma {:induction false} SentOneMore(log: seq<Sent>, x: Sent)
    requires AllSent(log) && SentOk(x)
    ensures AllSent(log + [x]) && AllTokens(log + [x]) == AllTokens(log) + x.tokens
    ensures SentBits(log + [x]) == SentBits(log) + BlockBits(x.block, false, |SentBits(log)|)
  {
    hide SentOk, BlockBits;
    assert (log + [x])[..|log|] == log;
  }

  /** No match reaches back farther than reach. */
  ghost predicate Near(ts: seq<Token>, reach: nat) {
    forall i :: 0 <= i < |ts| && ts[i].Match? ==> 1 <= ts[i].distance <= reach
  }

  /** The blocks sent decode to the first base bytes, and the tokens recorded since extend them to upto. */
  ghost predicate Emitted(d: Bitstring, log: seq<Sent>, reach: nat, data: seq<byte>, base: int, upto: int,
                          ts: seq<Token>) {
    && 0 <= base <= upto <= |data| && Decoded(d, data[..base]) && Expand(data[..base], ts) == Some(data[..upto])
    && AllSent(log) && d == SentBits(log)
    && Expand([], AllTokens(log)) == Some(data[..base]) && Near(AllTokens(log) + ts, reach)
  }

  /** A whole stream: the blocks it is made of, and what all their tokens stand for. */
  ghost predicate Composed(d: Bitstring, log: seq<Sent>, last: Sent, reach: nat, data: seq<byte>) {
    && AllSent(log) && SentOk(last) && d == SentBits(log) + BlockBits(last.block, true, |SentBits(log)|)
    && Expand([], AllTokens(log) + last.tokens) == Some(data) && Near(AllTokens(log) + last.tokens, reach)
  }

  lemma {:induction false} ExpandBoth(out: seq<byte>, a: seq<Token>, b: seq<Token>)
    requires Expand(out, a).Some?
    ensures Expand(out, a + b) == Expand(Expand(out, a).value, b)
  {
    if b == [] {
      assert a + b == a;
    } else {
      assert (a + b)[..|a + b| - 1] == a + b[..|b| - 1];
      ExpandBoth(out, a, b[..|b| - 1]);
    }
  }

  lemma {:induction false} NearMore(a: seq<Token>, ts: seq<Token>, t: Token, reach: nat)
    requires Near(a + ts, reach) && (t.Match? ==> 1 <= t.distance <= reach)
    ensures Near(a + (ts + [t]), reach)
  {
    assert a + (ts + [t]) == (a + ts) + [t];
  }

  lemma {:induction false} EmittedNone(data: seq<byte>, reach: nat)
    ensures Emitted([], [], reach, data, 0, 0, [])
  {
    hide Decoded;
    DecodedEmpty();
    assert data[..0] == [];
  }

  lemma {:induction false} EmitLiteral(d: Bitstring, log: seq<Sent>, reach: nat, data: seq<byte>, base: int, upto: int,
                                       ts: seq<Token>)
    requires Emitted(d, log, reach, data, base, upto, ts) && upto < |data|
    ensures Emitted(d, log, reach, data, base, upto + 1, ts + [Literal(data[upto])])
  {
    hide Decoded, Near, AllSent, SentBits, AllTokens;
    ExpandOne(data[..base], ts, Literal(data[upto]));
    NearMore(AllTokens(log), ts, Literal(data[upto]), reach);
    assert data[..upto + 1] == data[..upto] + [data[upto]];
  }

  lemma {:induction false} EmitMatch(d: Bitstring, log: seq<Sent>, reach: nat, data: seq<byte>, base: int, upto: int,
                                     ts: seq<Token>, dist: nat, len: nat)
    requires Emitted(d, log, reach, data, base, upto, ts) && MatchOk(data, upto, dist, len, reach)
    ensures Emitted(d, log, reach, data, base, upto + len, ts + [Match(len, dist)])
  {
    hide Decoded, Near, AllSent, SentBits, AllTokens;
    ExpandOne(data[..base], ts, Match(len, dist));
    NearMore(AllTokens(log), ts, Match(len, dist), reach);
    CopyIsData(data, upto, dist, len);
  }

  lemma {:induction false} EmittedGrows(d: Bitstring, log: seq<Sent>, reach: nat, data: seq<byte>, data': seq<byte>,
                                        base: int, upto: int, ts: seq<Token>)
    requires Emitted(d, log, reach, data, base, upto, ts) && data <= data'
    ensures Emitted(d, log, reach, data', base, upto, ts)
  {
    hide Decoded, Expand, Near, AllSent, SentBits, AllTokens;
    assert data'[..base] == data[..base] && data'[..upto] == data[..upto];
  }

  lemma {:induction false} MatchGrows(data: seq<byte>, data': seq<byte>, pos: nat, dist: nat, len: nat, reach: nat)
    requires MatchOk(data, pos, dist, len, reach) && data <= data'
    ensures MatchOk(data', pos, dist, len, reach)
  {
  }

  lemma {:induction false} ChosenCases(x: Block, ts: seq<Token>, lit: seq<nat>, dist: seq<nat>, cl: seq<nat>, n: nat,
                                       stored: Option<seq<byte>>)
    requires Chosen(x, ts, lit, dist, cl, n, stored)
    ensures if x.Stored? then stored == Some(x.bytes) else x.tokens == ts
  {
    hide DynamicOk, CoversAll, DataBits, DynamicBits, Bytes;
  }

  /** Whatever encoding is chosen, the block stands for the same bytes. */
  lemma {:induction false} ChosenOut(d: Bitstring, log: seq<Sent>, reach: nat, data: seq<byte>, base: int, upto: int,
                                     ts: seq<Token>, x: Block, lit: seq<nat>, dist: seq<nat>, cl: seq<nat>, n: nat,
                                     stored: Option<seq<byte>>)
    requires Emitted(d, log, reach, data, base, upto, ts) && Chosen(x, ts, lit, dist, cl, n, stored)
    requires stored.Some? ==> stored.value == data[base..upto]
    ensures BlockOut(data[..base], x) == Some(data[..upto]) && (BlockOk(x) ==> SentOk(Sent(x, ts)))
  {
    hide Decoded, Expand, Chosen, Near, AllSent, SentBits, AllTokens, BlockOk;
    ChosenCases(x, ts, lit, dist, cl, n, stored);
    assert data[..upto] == data[..base] + data[base..upto];
  }

  lemma {:induction false} FlushEmitted(d: Bitstring, log: seq<Sent>, reach: nat, data: seq<byte>, base: int, upto: int,
                                        ts: seq<Token>, x: Block, lit: seq<nat>, dist: seq<nat>, cl: seq<nat>, n: nat,
                                        stored: Option<seq<byte>>)
    requires Emitted(d, log, reach, data, base, upto, ts) && Chosen(x, ts, lit, dist, cl, n, stored) && BlockOk(x)
    requires stored.Some? ==> stored.value == data[base..upto]
    ensures Emitted(d + BlockBits(x, false, |d|), log + [Sent(x, ts)], reach, data, upto, upto, [])
    ensures AllTokens(log + [Sent(x, ts)]) == AllTokens(log) + ts
  {
    hide Chosen, Decoded, BlockBits, BlockOk, BlockOut, Near, AllSent, SentBits, AllTokens, SentOk;
    ChosenOut(d, log, reach, data, base, upto, ts, x, lit, dist, cl, n, stored);
    DecodedMore(d, data[..base], x, false);
    SentOneMore(log, Sent(x, ts));
    ExpandBoth([], AllTokens(log), ts);
    assert (AllTokens(log) + ts) + [] == AllTokens(log) + ts;
    NothingExpands(data[..upto]);
  }

  lemma {:induction false} NothingExpands(out: seq<byte>)
    ensures Expand(out, []) == Some(out)
  {
  }

  lemma {:induction false} LastFlush(d: Bitstring, log: seq<Sent>, reach: nat, data: seq<byte>, base: int, upto: int,
                                     ts: seq<Token>, x: Block, lit: seq<nat>, dist: seq<nat>, cl: seq<nat>, n: nat,
                                     stored: Option<seq<byte>>)
    requires Emitted(d, log, reach, data, base, upto, ts) && Chosen(x, ts, lit, dist, cl, n, stored) && BlockOk(x)
    requires stored.Some? ==> stored.value == data[base..upto]
    ensures Complete(d + BlockBits(x, true, |d|), data[..upto])
    ensures Composed(d + BlockBits(x, true, |d|), log, Sent(x, ts), reach, data[..upto])
  {
    hide Chosen, Decoded, Complete, BlockBits, BlockOk, BlockOut, Near, AllSent, SentBits, AllTokens, SentOk;
    ChosenOut(d, log, reach, data, base, upto, ts, x, lit, dist, cl, n, stored);
    DecodedMore(d, data[..base], x, true);
    ExpandBoth([], AllTokens(log), ts);
  }

  lemma {:induction false} PadSame(a: nat, b: nat)
    requires a % 8 == b % 8
    ensures W.PadTo8(a) == W.PadTo8(b)
  {
  }

  lemma {:induction false} BodySame(x: Block, a: nat, b: nat)
    requires BlockOk(x) && a % 8 == b % 8
    ensures BodyBits(x, a) == BodyBits(x, b)
  {
    hide W.PadTo8, DataBits, DynamicBits, BytesToBits, ToBits, CoversAll, DynamicOk;
    PadSame(a, b);
  }

  /** Blocks start at the same bit of a byte in the file as in the deflate stream, since whole bytes precede it. */
  lemma {:induction false} SameAlignment(x: Block, final: bool, p: Bitstring, d: Bitstring)
    requires BlockOk(x) && |p| % 8 == 0
    ensures BlockBits(x, final, |p + d|) == BlockBits(x, final, |d|)
  {
    hide BlockOk, HeaderBits, BodyBits;
    assert |p + d| == |p| + |d|;
    BodySame(x, |p + d| + 3, |d| + 3);
  }
}
