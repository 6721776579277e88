/** deflate: lazy matching over the whole input, and the stream it produces. */
module Deflate {
  import opened Bits
  import opened Inflate
  import opened Tokens
  import opened BitLengths
  import opened Chains
  import opened Matcher
  import opened SlidingWindow
  import opened Blocks
  import opened BlockCoder
  import opened Emission
  import W = BitWriter

  /** A match found at strstart, cut off at the lookahead, is a match in the input. */
  lemma {:induction false} NewMatch(p: Params, w: seq<byte>, data: seq<byte>, off: nat, strstart: nat, lookahead: nat,
                                    prevLength: nat, start0: nat, best: nat, start: nat, len: nat)
    requires p.Ok() && Holds(w, data, off, strstart + lookahead) && strstart < TWO32
    requires Found(p, w, strstart, prevLength, start0, best, start) && prevLength < len <= best && len <= lookahead
    ensures MatchOk(data, off + strstart, U32(strstart - start), len, p.MaxDist())
  {
    var dist := strstart - start;
    assert U32(dist) == dist;
    forall i | off + strstart <= i < off + strstart + len
      ensures data[i] == data[i - dist]
    {
      var j := start + (i - off - strstart);
      assert w[j] == w[strstart + (j - start)];
      assert w[j] == data[off + j];
      assert w[i - off] == data[i];
    }
  }

  lemma {:induction false} HeadIsCandidate(p: Params, w: seq<byte>, q: nat, strstart: nat)
    requires p.Ok() && LinkOk(p.z, w, q, strstart) && q != 0 && strstart - q <= p.MaxDist()
    ensures Candidate(p, w, q, strstart)
  {
  }

  lemma {:induction false} FoundPositive(p: Params, w: seq<byte>, strstart: nat, prevLength: nat, start0: nat,
                                         best: nat, start: nat)
    requires Found(p, w, strstart, prevLength, start0, best, start)
    ensures best >= prevLength
  {
  }

  lemma {:induction false} DictLinks(p: Params, w: seq<byte>, head: seq<nat>, prev: seq<nat>, top: nat)
    requires Dict(p, w, head, prev, top)
    ensures LinksOk(p.z, w, prev, p.wsize, top)
  {
  }

  /** Whether the chain is searched at all. */
  predicate Searches(p: Params, hashHead: nat, s: nat, length: nat)
    requires p.Ok()
  {
    hashHead != 0 && length < p.maxLazy && s - hashHead <= p.MaxDist()
  }

  /** A match cut off at the lookahead; one of three bytes that is too distant is ignored. */
  function Usable(p: Params, best: nat, lookahead: nat, dist: nat): nat {
    var len := if best > lookahead then lookahead else best;
    if len == MIN_MATCH && dist > p.tooFar then len - 1 else len
  }

  /** The search walked the chain, or there was none. */
  ghost predicate LookedUp(p: Params, w: seq<byte>, prev: seq<nat>, hashHead: nat, s: nat, lookahead: nat, length: nat,
                           start0: nat, matchLength: nat, start: nat)
  {
    p.Ok() && if Searches(p, hashHead, s, length)
      then exists best :: WalkedTo(p, w, prev, hashHead, s, length, start0, best, start)
                          && matchLength == Usable(p, best, lookahead, U32(s - start))
      else matchLength == MIN_MATCH - 1 && start == start0
  }

  /** The same from before the string at s was inserted. */
  ghost predicate LookedAt(p: Params, w: seq<byte>, s: nat, h: nat, head: seq<nat>, prev: seq<nat>, lookahead: nat,
                           length: nat, start0: nat, matchLength: nat, start: nat)
  {
    exists h', head', prev', hashHead ::
      && StringInserted(p, w, s, h, h', head, head', prev, prev', hashHead)
      && LookedUp(p, w, prev', hashHead, s, lookahead, length, start0, matchLength, start)
  }

  lemma {:induction false} LookedFrom(p: Params, w: seq<byte>, s: nat, h: nat, h': nat, head: seq<nat>, head': seq<nat>,
                                      prev: seq<nat>, prev': seq<nat>, hashHead: nat, lookahead: nat, length: nat,
                                      start0: nat, matchLength: nat, start: nat)
    requires StringInserted(p, w, s, h, h', head, head', prev, prev', hashHead)
    requires LookedUp(p, w, prev', hashHead, s, lookahead, length, start0, matchLength, start)
    ensures LookedAt(p, w, s, h, head, prev, lookahead, length, start0, matchLength, start)
  {
    hide StringInserted, LookedUp;
  }

  ghost predicate WalkedTo(p: Params, w: seq<byte>, prev: seq<nat>, hashHead: nat, s: nat, length: nat, start0: nat,
                           best: nat, start: nat)
    requires p.Ok()
  {
    && Found(p, w, s, length, start0, best, start)
    && (best >= p.niceMatch
        || NoneBetter(w, s, best, Walk(prev, p.wsize, Limit(p, s), hashHead, ChainLength(p, length))))
  }

  lemma {:induction false} LookedNowhere(p: Params, w: seq<byte>, prev: seq<nat>, hashHead: nat, s: nat, lookahead: nat,
                                         length: nat, start0: nat)
    requires p.Ok()
    ensures !Searches(p, hashHead, s, length) ==>
      LookedUp(p, w, prev, hashHead, s, lookahead, length, start0, MIN_MATCH - 1, start0)
  {
  }

  lemma {:induction false} LookedSomewhere(p: Params, w: seq<byte>, prev: seq<nat>, hashHead: nat, s: nat,
                                           lookahead: nat, length: nat, start0: nat, best: nat, start: nat)
    requires p.Ok() && Searches(p, hashHead, s, length)
    requires WalkedTo(p, w, prev, hashHead, s, length, start0, best, start)
    ensures LookedUp(p, w, prev, hashHead, s, lookahead, length, start0, Usable(p, best, lookahead, U32(s - start)),
        start)
  {
    hide WalkedTo;
  }

  /** The bytes of the block are still in the window. */
  lemma {:induction false} BlockInWindow(w: seq<byte>, data: seq<byte>, off: nat, n: nat, block: int, strstart: nat)
    requires Holds(w, data, off, n) && block <= strstart <= n
    ensures StoredBytes(w, block, strstart).Some? ==>
      0 <= off + block <= off + strstart <= |data| && StoredBytes(w, block, strstart).value
        == data[off + block..off + strstart]
  {
    if block >= 0 {
      assert w[block..strstart] == data[off + block..off + strstart];
    }
  }

  class Deflater {
    const win: Window
    const coder: Coder
    const w: W.Writer
    const src: Source
    ghost const before: Bitstring   // what precedes the deflate stream
    ghost var sent: Bitstring       // the deflate stream so far
    ghost var log: seq<Sent>        // the blocks it is made of

    constructor (win: Window, coder: Coder, w: W.Writer, src: Source, ghost before: Bitstring)
      ensures this.win == win && this.coder == coder && this.w == w && this.src == src && this.before == before
      ensures sent == [] && log == []
    {
      this.win, this.coder, this.w, this.src, this.before := win, coder, w, src, before;
      sent, log := [], [];
    }

    /** All tokens so far, in blocks sent and since. */
    ghost function Recorded(): seq<Token>
      reads this, coder
    {
      AllTokens(log) + coder.tokens
    }

    ghost predicate Apart() {
      && coder.Apart(w.outbuf) && coder.Apart(win.window) && coder.Apart(win.head) && coder.Apart(win.prev)
      && win.window != w.outbuf && w.outbuf as object != win.head && w.outbuf as object != win.prev
      && |before| % 8 == 0
    }

    ghost predicate Streams()
      reads this, w, w.outbuf
    {
      w.Valid() && w.Stream() == before + sent
    }

    ghost predicate CoderOk()
      reads coder, coder.dynLtree, coder.dynDtree, coder.blTree, coder.staticLtree, coder.staticDtree, coder.lBuf,
        coder.dBuf, coder.flagBuf
    {
      coder.Valid()
    }

    /** Where the window stands between two steps. */
    ghost predicate InWindow(top: nat)
      reads win, win.window, win.head, win.prev, src
    {
      && src.Valid() && win.Valid(src.taken, top) && win.Keyed(top)
      && (win.lookahead > MAX_MATCH || win.eofile) && src.failed == (win.eofile && src.rest != [])
    }

    /** Between two rounds of the main loop, of which the input is what the source held at the start. */
    ghost predicate Running(input: seq<byte>, available: bool, matchLength: nat)
      reads this, win, win.window, win.head, win.prev, src, w, w.outbuf,
        coder, coder.dynLtree, coder.dynDtree, coder.blTree, coder.staticLtree, coder.staticDtree, coder.lBuf,
        coder.dBuf, coder.flagBuf
    {
      && Apart() && Streams() && CoderOk() && coder.HasRoom()
      && src.Valid() && win.Valid(src.taken, win.strstart) && (win.lookahead > 0 ==> win.Keyed(win.strstart))
      && (win.lookahead > MAX_MATCH || win.eofile) && src.failed == (win.eofile && src.rest != [])
      && src.taken + src.rest == input
      && matchLength >= 1 && (if available then win.strstart >= 1 else matchLength == MIN_MATCH - 1)
      && Deferred(src.taken, win.off + win.strstart - 1, U32(win.strstart - 1 - win.matchStart), matchLength,
           win.p.MaxDist())
      && Emitted(sent, log, win.p.MaxDist(), src.taken, win.off + win.blockStart,
           win.off + win.strstart - (if available then 1 else 0), coder.tokens)
    }

    /** One round of the main loop, except for the reading. */
    method Round(available: bool, matchLength: nat, ghost input: seq<byte>)
      returns (available': bool, matchLength': nat, ghost found: nat)
      requires Running(input, available, matchLength) && win.lookahead > 0
      modifies `sent, `log, win`lookahead, win`prevLength, win`strstart, win`insH, win`blockStart, win`matchStart,
        win.head, win.prev, coder, coder.dynLtree, coder.dynDtree, coder.blTree, coder.heap, coder.depth, coder.blCount,
        coder.lBuf, coder.dBuf, coder.flagBuf, w, w.outbuf
      ensures Apart() && Streams() && CoderOk() && coder.HasRoom() && src.Valid()
      ensures win.Valid(src.taken, win.strstart) && win.Keyed(win.strstart) && (win.eofile || win.lookahead >= 2)
      ensures win.strstart >= 1
      ensures matchLength' >= 1 && (if available' then win.strstart >= 1 else matchLength' == MIN_MATCH - 1)
      ensures win.lookahead < old(win.lookahead) && src.taken + src.rest == input
      ensures src.failed == (win.eofile && src.rest != [])
      ensures Deferred(src.taken, win.off + win.strstart - 1, U32(win.strstart - 1 - win.matchStart), matchLength',
          win.p.MaxDist())
      ensures Emitted(sent, log, win.p.MaxDist(), src.taken, win.off + win.blockStart,
          win.off + win.strstart - (if available' then 1 else 0), coder.tokens)
      ensures LookedAt(win.p, win.window[..], old(win.strstart), old(win.insH), old(win.head[..]), old(win.prev[..]),
                       old(win.lookahead), matchLength, old(win.matchStart), found, win.matchStart)
      ensures if matchLength >= MIN_MATCH && found <= matchLength
        then !available' && Recorded() == old(Recorded() + [Match(matchLength, U32(win.strstart - 1 - win.matchStart))])
        else available' && matchLength' == found
             && Recorded() == old(Recorded() + LiteralIf(available, src.taken, win.off + win.strstart - 1))
    {
      hide Coder.Valid, Source.Valid, W.Writer.Valid, W.Writer.Stream, Holds, Dict, Ready, U32, Emitted, Pow2, MatchOk,
        StringInserted, LookedUp, LookedAt, AllTokens;
      var length, prevMatch;
      ghost var hashHead;
      length, prevMatch, hashHead := FindMatch(matchLength);
      found := length;
      if win.prevLength >= MIN_MATCH && length <= win.prevLength {
        TakeMatch(prevMatch);
        available', matchLength' := false, MIN_MATCH - 1;
      } else if available {
        TakeLiteral();
        available', matchLength' := true, length;
      } else {
        win.strstart := win.strstart + 1;
        win.lookahead := win.lookahead - 1;
        available', matchLength' := true, length;
        assert AllTokens(log) + coder.tokens + [] == AllTokens(log) + coder.tokens;
      }
    }

    /** Makes sure that there is enough lookahead, except at the end of the input. */
    method Refill(available: bool, matchLength: nat, ghost input: seq<byte>)
      requires Apart() && Streams() && CoderOk() && coder.HasRoom()
      requires src.Valid() && win.Valid(src.taken, win.strstart) && win.Keyed(win.strstart)
      requires (win.eofile || win.lookahead >= 2) && win.strstart >= 1
      requires matchLength >= 1 && (if available then win.strstart >= 1 else matchLength == MIN_MATCH - 1)
      requires Deferred(src.taken, win.off + win.strstart - 1, U32(win.strstart - 1 - win.matchStart), matchLength,
          win.p.MaxDist())
      requires Emitted(sent, log, win.p.MaxDist(), src.taken, win.off + win.blockStart,
          win.off + win.strstart - (if available then 1 else 0), coder.tokens)
      requires src.failed == (win.eofile && src.rest != []) && src.taken + src.rest == input
      modifies win`matchStart, win`strstart, win`blockStart, win`off, win`lookahead, win`eofile, win.window, win.head,
        win.prev, src
      ensures Running(input, available, matchLength)
      ensures win.lookahead + |src.rest| == old(win.lookahead + |src.rest|)
    {
      hide Coder.Valid, Source.Valid, W.Writer.Valid, W.Writer.Stream, Holds, Dict, Ready, U32, Emitted, Pow2, MatchOk;
      ghost var data, pos, start, match_: nat := src.taken, win.off + win.strstart, win.strstart, win.matchStart;
      ghost var dist := U32((start as int) - 1 - match_);
      ghost var base, upto := win.off + win.blockStart, pos - (if available then 1 else 0);
      win.FillIfNeeded(src);
      EmittedGrows(sent, log, win.p.MaxDist(), data, src.taken, base, upto, coder.tokens);
      OneBefore(start, match_, win.strstart, win.matchStart);
      if matchLength >= MIN_MATCH {
        MatchGrows(data, src.taken, pos - 1, dist, matchLength, win.p.MaxDist());
      }
    }

    /** The last block: the rest of the input. */
    method Finish(available: bool, ghost matchLength: nat, ghost input: seq<byte>)
      returns (ghost deflated: Bitstring, ghost last: Sent)
      requires Running(input, available, matchLength) && win.lookahead == 0
      modifies this, coder, coder.dynLtree, coder.dynDtree, coder.blTree, coder.heap, coder.depth, coder.blCount,
        coder.lBuf, coder.dBuf, coder.flagBuf, w, w.outbuf
      ensures w.Valid() && w.biValid == 0 && Complete(deflated, src.taken)
      ensures Composed(deflated, log, last, win.p.MaxDist(), src.taken)
      ensures w.Stream() == (before + deflated) + W.PadTo8(|before + deflated|)
      ensures src.Valid() && src.taken + src.rest == input && src.failed == (src.rest != [])
    {
      hide Coder.Valid, Source.Valid, W.Writer.Valid, W.Writer.Stream, Holds, Dict, Ready, U32, Emitted, Pow2, MatchOk,
        Chosen, BlockBits, BlockOk, Complete, Composed, AllTokens, Deferred;
      ghost var data, bytes, base, upto := src.taken, win.window[..], win.off + win.blockStart, win.off + win.strstart;
      WindowEnd(bytes, data, win.off, win.strstart);
      TallyLast(available);
      ghost var ts, d := coder.tokens, sent;
      EmittedRange(d, log, win.p.MaxDist(), data, base, upto, ts);
      BlockInWindow(bytes, data, win.off, win.strstart, win.blockStart, win.strstart);
      ghost var x, lit, dist, cl, n;
      x, lit, dist, cl, n := coder.FlushBlock(w, win.window, win.blockStart, win.strstart, true);
      LastFlush(d, log, win.p.MaxDist(), data, base, upto, ts, x, lit, dist, cl, n,
          StoredBytes(bytes, win.blockStart, win.strstart));
      SameAlignment(x, true, before, d);
      deflated, last := d + BlockBits(x, true, |d|), Sent(x, ts);
      Assoc(before, d, BlockBits(x, true, |d|));
      assert data[..upto] == data;
    }

    /** The last byte, if no match covers it. */
    method TallyLast(available: bool)
      requires Apart() && CoderOk() && coder.HasRoom() && win.lookahead == 0 && (available ==> win.strstart >= 1)
      requires Holds(win.window[..], src.taken, win.off, win.strstart) && win.strstart <= win.window.Length
      requires Emitted(sent, log, win.p.MaxDist(), src.taken, win.off + win.blockStart,
                       win.off + win.strstart - (if available then 1 else 0), coder.tokens)
      modifies coder, coder.dynLtree, coder.dynDtree, coder.lBuf, coder.dBuf, coder.flagBuf
      ensures CoderOk()
      ensures Emitted(sent, log, win.p.MaxDist(), src.taken, win.off + win.blockStart, win.off + win.strstart,
          coder.tokens)
    {
      hide Coder.Valid, Holds, Emitted, AllTokens;
      if available {
        ghost var data, ts := src.taken, coder.tokens;
        WindowByte(win.window[..], data, win.off, win.strstart, win.strstart - 1);
        var full := coder.Tally(0, win.window[win.strstart - 1], win.strstart, win.blockStart);
        EmitLiteral(sent, log, win.p.MaxDist(), data, win.off + win.blockStart, win.off + win.strstart - 1, ts);
      }
    }

    /** deflate: whatever the input and however the reads split it, the stream decompresses to the bytes
        read, and these are the whole input unless a read failed. */
    method Run(ghost input: seq<byte>) returns (ghost deflated: Bitstring, ghost last: Sent)
      requires Running(input, false, MIN_MATCH - 1)
      modifies this, win, win.window, win.head, win.prev, src, w, w.outbuf,
        coder, coder.dynLtree, coder.dynDtree, coder.blTree, coder.heap, coder.depth, coder.blCount, coder.lBuf,
        coder.dBuf, coder.flagBuf
      ensures w.Valid() && w.biValid == 0 && Complete(deflated, src.taken)
      ensures Composed(deflated, log, last, win.p.MaxDist(), src.taken)
      ensures w.Stream() == (before + deflated) + W.PadTo8(|before + deflated|)
      ensures src.Valid() && src.taken <= input && (!src.failed ==> src.taken == input)
    {
      hide Running;
      var matchAvailable, matchLength: nat := false, MIN_MATCH - 1;
      while win.lookahead != 0
        invariant Running(input, matchAvailable, matchLength)
        decreases win.lookahead + |src.rest|
      {
        ghost var found;
        matchAvailable, matchLength, found := Round(matchAvailable, matchLength, input);
        Refill(matchAvailable, matchLength, input);
      }
      deflated, last := Finish(matchAvailable, matchLength, input);
    }

    /** Inserts the string at strstart and finds the longest match, discarding those not longer than the
        previous one. */
    method FindMatch(length: nat) returns (matchLength: nat, prevMatch: nat, ghost hashHead: nat)
      requires InWindow(win.strstart) && win.lookahead >= 1 && 1 <= length
      modifies win`insH, win`prevLength, win`matchStart, win.head, win.prev
      ensures InWindow(win.strstart + 1)
      ensures win.prevLength == length && prevMatch == old(win.matchStart) && matchLength >= 1
      ensures matchLength > length ==> Deferred(src.taken, win.off + win.strstart, U32(win.strstart - win.matchStart),
                                                 matchLength, win.p.MaxDist())
      ensures StringInserted(win.p, win.window[..], win.strstart, old(win.insH), win.insH, old(win.head[..]),
                             win.head[..], old(win.prev[..]), win.prev[..], hashHead)
      ensures LookedUp(win.p, win.window[..], win.prev[..], hashHead, win.strstart, win.lookahead, length, prevMatch,
                       matchLength, win.matchStart)
      ensures LookedAt(win.p, win.window[..], win.strstart, old(win.insH), old(win.head[..]), old(win.prev[..]),
                       win.lookahead, length, prevMatch, matchLength, win.matchStart)
    {
      hide Holds, Dict, Ready, LinkOk, Pow2, U32, Found, Candidate, LinksOk, MatchOk, StringInserted, LookedUp,
        LookedAt, NoneBetter, Walk;
      var s := win.strstart;
      ghost var insH, heads, links := win.insH, win.head[..], win.prev[..];
      var chainHead := win.InsertString(s);
      hashHead := chainHead;
      LookedNowhere(win.p, win.window[..], win.prev[..], hashHead, s, win.lookahead, length, win.matchStart);
      win.prevLength := length;
      prevMatch := win.matchStart;
      matchLength := MIN_MATCH - 1;
      if chainHead != 0 && length < win.p.maxLazy && s - chainHead <= win.p.MaxDist() {
        HeadIsCandidate(win.p, win.window[..], hashHead, s);
        DictLinks(win.p, win.window[..], win.head[..], win.prev[..], s + 1);
        var best, start := LongestMatch(win.p, win.window, win.prev, chainHead, s, length, win.matchStart);
        win.matchStart := start;
        matchLength := best;
        FoundPositive(win.p, win.window[..], s, length, prevMatch, best, start);
        if matchLength > win.lookahead {
          matchLength := win.lookahead;
        }
        if matchLength > length {
          NewMatch(win.p, win.window[..], src.taken, win.off, s, win.lookahead, length, prevMatch, best, start,
              matchLength);
        }
        if matchLength == MIN_MATCH && U32(s - win.matchStart) > win.p.tooFar {
          matchLength := matchLength - 1;
        }
        LookedSomewhere(win.p, win.window[..], win.prev[..], hashHead, s, win.lookahead, length, prevMatch, best,
            start);
      }
      LookedFrom(win.p, win.window[..], s, insH, win.insH, heads, win.head[..], links, win.prev[..], hashHead,
                 win.lookahead, length, prevMatch, matchLength, win.matchStart);
    }

    /** Inserts all strings up to the end of the previous match; those at strstart - 1 and strstart are
        already in the dictionary. */
    method SkipMatch()
      requires InWindow(win.strstart + 1) && 3 <= win.prevLength <= MAX_MATCH && win.prevLength <= win.lookahead + 1
      modifies win`lookahead, win`prevLength, win`strstart, win`insH, win.head, win.prev
      ensures win.Valid(src.taken, win.strstart) && win.Keyed(win.strstart)
      ensures win.strstart == old(win.strstart + win.prevLength) - 1
      ensures win.strstart + win.lookahead == old(win.strstart + win.lookahead)
    {
      hide StringInserted, Holds, Dict, Ready, LinkOk, Pow2;
      ghost var s, n := win.strstart, win.prevLength;
      win.lookahead := win.lookahead - (win.prevLength - 1);
      win.prevLength := win.prevLength - 2;
      while true
        invariant 1 <= win.prevLength && win.strstart + win.prevLength == s + n - 2
        invariant win.lookahead == old(win.lookahead) - (n - 1)
        invariant win.DictOk(win.strstart + 1) && win.Keyed(win.strstart + 1)
        decreases win.prevLength
      {
        win.strstart := win.strstart + 1;
        var hashHead := win.InsertString(win.strstart);
        win.prevLength := win.prevLength - 1;
        if win.prevLength == 0 {
          break;
        }
      }
      win.strstart := win.strstart + 1;
    }

    /** The previous match was not improved: it is taken. */
    method TakeMatch(prevMatch: nat)
      requires Apart() && Streams() && CoderOk() && coder.HasRoom() && InWindow(win.strstart + 1)
      requires win.prevLength >= MIN_MATCH && win.strstart >= 1
      requires Deferred(src.taken, win.off + win.strstart - 1, U32(win.strstart - 1 - prevMatch), win.prevLength,
          win.p.MaxDist())
      requires Emitted(sent, log, win.p.MaxDist(), src.taken, win.off + win.blockStart, win.off + win.strstart - 1,
          coder.tokens)
      modifies `sent, `log, win`lookahead, win`prevLength, win`strstart, win`insH, win`blockStart, win.head, win.prev,
        coder, coder.dynLtree, coder.dynDtree, coder.blTree, coder.heap, coder.depth, coder.blCount,
        coder.lBuf, coder.dBuf, coder.flagBuf, w, w.outbuf
      ensures Streams() && CoderOk() && coder.HasRoom()
      ensures win.Valid(src.taken, win.strstart) && win.Keyed(win.strstart) && (win.eofile || win.lookahead >= 2)
      ensures win.strstart + win.lookahead == old(win.strstart + win.lookahead) && win.strstart > old(win.strstart)
      ensures Recorded() == old(Recorded() + [Match(win.prevLength, U32(win.strstart - 1 - prevMatch))])
      ensures Emitted(sent, log, win.p.MaxDist(), src.taken, win.off + win.blockStart, win.off + win.strstart,
          coder.tokens)
    {
      hide Coder.Valid, Source.Valid, W.Writer.Valid, W.Writer.Stream, Holds, Dict, Ready, U32, Emitted, Pow2,
        AllTokens;
      ghost var ts, data := coder.tokens, src.taken;
      var dist, len := U32(win.strstart - 1 - prevMatch), win.prevLength;
      MatchFits(data, win.off + win.strstart - 1, dist, len, win.p.MaxDist());
      var full := coder.Tally(dist, len - MIN_MATCH, win.strstart, win.blockStart);
      EmitMatch(sent, log, win.p.MaxDist(), data, win.off + win.blockStart, win.off + win.strstart - 1, ts, dist, len);
      TokenAppended(AllTokens(log), ts, Match(len, dist));
      WindowEnd(win.window[..], data, win.off, win.strstart + win.lookahead);
      SkipMatch();
      if full {
        Flush();
      }
    }

    /** The byte before strstart is recorded as a literal. */
    method TallyLiteral()
      requires Apart() && Streams() && CoderOk() && coder.HasRoom() && InWindow(win.strstart + 1)
      requires win.strstart >= 1 && win.lookahead >= 1
      requires Emitted(sent, log, win.p.MaxDist(), src.taken, win.off + win.blockStart, win.off + win.strstart - 1,
          coder.tokens)
      modifies `sent, `log, win`blockStart,
        coder, coder.dynLtree, coder.dynDtree, coder.blTree, coder.heap, coder.depth, coder.blCount,
        coder.lBuf, coder.dBuf, coder.flagBuf, w, w.outbuf
      ensures Streams() && CoderOk() && coder.HasRoom() && InWindow(win.strstart + 1)
      ensures Recorded() == old(Recorded() + [LiteralAt(src.taken, win.off + win.strstart - 1)])
      ensures Emitted(sent, log, win.p.MaxDist(), src.taken, win.off + win.blockStart, win.off + win.strstart,
          coder.tokens)
    {
      hide Coder.Valid, Source.Valid, W.Writer.Valid, W.Writer.Stream, Holds, Dict, Ready, U32, Emitted, Pow2,
        AllTokens;
      ghost var ts, data := coder.tokens, src.taken;
      var c := win.window[win.strstart - 1];
      WindowByte(win.window[..], data, win.off, win.strstart + win.lookahead, win.strstart - 1);
      var full := coder.Tally(0, c, win.strstart, win.blockStart);
      EmitLiteral(sent, log, win.p.MaxDist(), data, win.off + win.blockStart, win.off + win.strstart - 1, ts);
      TokenAppended(AllTokens(log), ts, Literal(c));
      assert InWindow(win.strstart + 1);
      if full {
        Flush();
      }
    }

    /** The byte before strstart is taken as a literal. */
    method TakeLiteral()
      requires Apart() && Streams() && CoderOk() && coder.HasRoom() && InWindow(win.strstart + 1)
      requires win.strstart >= 1 && win.lookahead >= 1
      requires Emitted(sent, log, win.p.MaxDist(), src.taken, win.off + win.blockStart, win.off + win.strstart - 1,
          coder.tokens)
      modifies `sent, `log, win`lookahead, win`strstart, win`blockStart,
        coder, coder.dynLtree, coder.dynDtree, coder.blTree, coder.heap, coder.depth, coder.blCount,
        coder.lBuf, coder.dBuf, coder.flagBuf, w, w.outbuf
      ensures Streams() && CoderOk() && coder.HasRoom()
      ensures win.Valid(src.taken, win.strstart) && win.Keyed(win.strstart) && (win.eofile || win.lookahead >= 2)
      ensures win.strstart == old(win.strstart) + 1 && win.lookahead == old(win.lookahead) - 1
      ensures Recorded() == old(Recorded() + [LiteralAt(src.taken, win.off + win.strstart - 1)])
      ensures Emitted(sent, log, win.p.MaxDist(), src.taken, win.off + win.blockStart, win.off + win.strstart - 1,
          coder.tokens)
    {
      hide Coder.Valid, Source.Valid, W.Writer.Valid, W.Writer.Stream, Holds, Dict, Ready, Emitted, Pow2;
      TallyLiteral();
      win.strstart := win.strstart + 1;
      win.lookahead := win.lookahead - 1;
    }

    /** Sends the block that ends at strstart. */
    method Flush()
      requires Apart() && Streams() && CoderOk() && win.strstart < TWO16 && win.strstart <= win.window.Length
      requires Holds(win.window[..], src.taken, win.off, win.strstart + win.lookahead)
      requires Emitted(sent, log, win.p.MaxDist(), src.taken, win.off + win.blockStart, win.off + win.strstart,
          coder.tokens)
      modifies `sent, `log, win`blockStart, coder, coder.dynLtree, coder.dynDtree, coder.blTree, coder.heap,
        coder.depth, coder.blCount, coder.flagBuf, w, w.outbuf
      ensures Streams() && CoderOk() && coder.HasRoom() && win.blockStart == win.strstart
      ensures Recorded() == old(Recorded())
      ensures Emitted(sent, log, win.p.MaxDist(), src.taken, win.off + win.blockStart, win.off + win.strstart,
          coder.tokens)
    {
      hide W.Writer.Valid, W.Writer.Stream, Coder.Valid, Holds, Emitted, Chosen, BlockBits, BlockOk, AllTokens;
      ghost var ts, d, bytes := coder.tokens, sent, win.window[..];
      ghost var base := win.off + win.blockStart;
      EmittedRange(d, log, win.p.MaxDist(), src.taken, base, win.off + win.strstart, ts);
      BlockInWindow(bytes, src.taken, win.off, win.strstart + win.lookahead, win.blockStart, win.strstart);
      ghost var x, lit, dist, cl, n;
      x, lit, dist, cl, n := coder.FlushBlock(w, win.window, win.blockStart, win.strstart, false);
      FlushEmitted(d, log, win.p.MaxDist(), src.taken, base, win.off + win.strstart, ts, x, lit, dist, cl, n,
          StoredBytes(bytes, win.blockStart, win.strstart));
      SameAlignment(x, false, before, d);
      sent, log := d + BlockBits(x, false, |d|), log + [Sent(x, ts)];
      Assoc(before, d, BlockBits(x, false, |d|));
      win.blockStart := win.strstart;
    }
  }

  lemma {:induction false} TokenAppended(past: seq<Token>, ts: seq<Token>, t: Token)
    ensures past + (ts + [t]) == (past + ts) + [t]
  {
  }

  /** The byte at i as a token. */
  function LiteralAt(data: seq<byte>, i: int): Token {
    Literal(if 0 <= i < |data| then data[i] else 0)
  }

  function LiteralIf(available: bool, data: seq<byte>, i: int): seq<Token> {
    if available then [LiteralAt(data, i)] else []
  }

  /** A match of at least three bytes that is still to be decided on starts at pos. */
  ghost predicate Deferred(data: seq<byte>, pos: int, dist: nat, len: nat, reach: nat) {
    len >= MIN_MATCH ==> pos >= 0 && MatchOk(data, pos, dist, len, reach)
  }

  lemma {:induction false} MatchFits(data: seq<byte>, pos: nat, dist: nat, len: nat, reach: nat)
    requires MatchOk(data, pos, dist, len, reach)
    ensures 1 <= dist <= reach && len <= MAX_MATCH && pos + len <= |data|
  {
  }

  lemma {:induction false} WindowEnd(w: seq<byte>, data: seq<byte>, off: nat, n: nat)
    requires Holds(w, data, off, n)
    ensures off + n == |data|
  {
  }

  lemma {:induction false} WindowByte(w: seq<byte>, data: seq<byte>, off: nat, n: nat, i: nat)
    requires Holds(w, data, off, n) && i < n
    ensures i < |w| && off + i < |data| && w[i] == data[off + i]
  {
  }

  lemma {:induction false} OneBefore(start: nat, m: nat, start': nat, m': nat)
    requires U32(start' - m') == U32(start - m)
    ensures U32(start' - 1 - m') == U32(start - 1 - m)
  {
    U32Add(start - m, -1);
    U32Add(start' - m', -1);
  }

  lemma {:induction false} EmittedRange(d: Bitstring, log: seq<Sent>, reach: nat, data: seq<byte>, base: int, upto: int,
                                        ts: seq<Token>)
    requires Emitted(d, log, reach, data, base, upto, ts)
    ensures 0 <= base <= upto <= |data|
  {
  }
}
