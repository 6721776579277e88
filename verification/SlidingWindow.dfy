/** The sliding window over the input, its dictionary, and fill_window. */
module SlidingWindow {
  import opened Bits
  import opened Tokens
  import opened BitLengths
  import opened Hashing
  import opened Chains
  import opened Matcher

  /** The checksum register after some bytes, for any rule that says how one byte changes it. */
  function Crc(step: (nat, byte) -> nat, c: nat, s: seq<byte>): (r: nat)
    ensures c < TWO32 ==> r < TWO32
  {
    if s == [] then c else U32(step(Crc(step, c, s[..|s| - 1]), s[|s| - 1]))
  }

  lemma {:induction false} CrcConcat(step: (nat, byte) -> nat, c: nat, s: seq<byte>, t: seq<byte>)
    ensures Crc(step, c, s + t) == Crc(step, Crc(step, c, s), t)
  {
    if t == [] {
      assert s + t == s;
    } else {
      var k := |t| - 1;
      assert (s + t)[..|s + t| - 1] == s + t[..k];
      CrcConcat(step, c, s, t[..k]);
    }
  }

  /** The input file. A read delivers any number of bytes up to the size asked for; nothing at all means
      the end of the file or an error. Checksum and size are kept as bytes arrive. */
  class Source {
    const step: (nat, byte) -> nat
    var rest: seq<byte>
    var crc: nat
    var isize: nat
    ghost var taken: seq<byte>
    ghost var failed: bool

    ghost predicate Valid()
      reads this
    {
      crc == Crc(step, TWO32 - 1, taken) && isize == U32(|taken|)
    }

    constructor (input: seq<byte>, step: (nat, byte) -> nat)
      ensures Valid() && rest == input && taken == [] && !failed && this.step == step
    {
      this.step, rest, crc, isize, taken, failed := step, input, TWO32 - 1, 0, [], false;
    }

    /** file_read. */
    method Read(size: nat) returns (chunk: seq<byte>)
      requires Valid() && size >= 1
      modifies this
      ensures Valid() && |chunk| <= size && old(rest) == chunk + rest && taken == old(taken) + chunk
      ensures failed == (old(failed) || (chunk == [] && rest != []))
    {
      hide Crc, U32;
      var n :| 0 <= n <= size && n <= |rest|;
      chunk := rest[..n];
      rest := rest[n..];
      CrcConcat(step, TWO32 - 1, taken, chunk);
      U32Add(|taken|, |chunk|);
      taken := taken + chunk;
      failed := failed || (chunk == [] && rest != []);
      crc := Crc(step, crc, chunk);
      isize := U32(isize + |chunk|);
    }
  }

  /** The first n bytes of the window are the data from off on, which end there. */
  ghost predicate Holds(w: seq<byte>, data: seq<byte>, off: nat, n: nat) {
    n <= |w| && off + n == |data| && forall i :: 0 <= i < n ==> w[i] == data[off + i]
  }

  /** All positions below top are in the dictionary. */
  ghost predicate Dict(p: Params, w: seq<byte>, head: seq<nat>, prev: seq<nat>, top: nat) {
    p.Ok() && top + 2 <= |w| && ChainsOk(p.z, w, head, prev, p.wsize, top)
  }

  /** The key is primed for the string at top. */
  ghost predicate Ready(p: Params, w: seq<byte>, insH: nat, top: nat) {
    top + 2 <= |w| && Primed(p.z, insH, w[top], w[top + 1])
  }

  lemma {:induction false} DictInserted(p: Params, w: seq<byte>, head: seq<nat>, prev: seq<nat>, insH: nat, s: nat)
    requires Dict(p, w, head, prev, s) && Ready(p, w, insH, s) && s + 3 <= |w|
    ensures var h := Update(p.z, insH, w[s + 2]);
      && h == HashAt(p.z, w, s) && h < |head| && |head| == Pow2(p.z.bits) && s % p.wsize < |prev|
      && LinkOk(p.z, w, head[h], s)
      && Dict(p, w, head[h := s], prev[s % p.wsize := head[h]], s + 1) && Ready(p, w, h, s + 1)
  {
    hide ChainsOk, Primed, Hash3, Update, LinkOk, Pow2;
    PrimedUpdate(p.z, insH, w[s], w[s + 1], w[s + 2]);
    Inserted(p.z, w, head, prev, p.wsize, s);
    ChainsSize(p.z, w, head, prev, p.wsize, s);
  }

  lemma {:induction false} ChainsSize(z: HashSize, w: seq<byte>, head: seq<nat>, prev: seq<nat>, wsize: nat, top: nat)
    requires ChainsOk(z, w, head, prev, wsize, top)
    ensures |head| == Pow2(z.bits) && |prev| == wsize
  {
  }

  lemma {:induction false} HoldsMore(w: seq<byte>, w': seq<byte>, data: seq<byte>, off: nat, n: nat, chunk: seq<byte>)
    requires Holds(w, data, off, n) && |w'| == |w| && n + |chunk| <= |w|
    requires forall i :: 0 <= i < n ==> w'[i] == w[i]
    requires forall i :: 0 <= i < |chunk| ==> w'[n + i] == chunk[i]
    ensures Holds(w', data + chunk, off, n + |chunk|)
  {
    forall i | 0 <= i < n + |chunk|
      ensures w'[i] == (data + chunk)[off + i]
    {
      if i >= n {
        assert w'[n + (i - n)] == chunk[i - n];
      }
    }
  }

  /** Bytes read behind those at n do not matter to the dictionary, nor to the key if it does not depend on them. */
  lemma {:induction false} DictRead(p: Params, w: seq<byte>, w': seq<byte>, head: seq<nat>, prev: seq<nat>, top: nat,
                                    n: nat)
    requires Dict(p, w, head, prev, top) && |w'| == |w| && n <= |w| && (n >= top + 2 || top == 0)
    requires forall i :: 0 <= i < n ==> w'[i] == w[i]
    ensures Dict(p, w', head, prev, top)
  {
    hide ChainsOk;
    BytesRead(p.z, w, w', head, prev, p.wsize, top);
  }

  lemma {:induction false} ReadyRead(p: Params, w: seq<byte>, w': seq<byte>, insH: nat, top: nat, n: nat)
    requires Ready(p, w, insH, top) && |w'| == |w| && top + 2 <= n <= |w| && forall i :: 0 <= i < n ==> w'[i] == w[i]
    ensures Ready(p, w', insH, top)
  {
  }

  /** The upper half of the window, copied to the lower one. */
  ghost predicate HalfMoved(w: seq<byte>, w': seq<byte>, wsize: nat) {
    |w'| == |w| >= 2 * wsize && forall i :: wsize <= i < 2 * wsize ==> w'[i - wsize] == w[i]
  }

  lemma {:induction false} HoldsMoved(w: seq<byte>, w': seq<byte>, data: seq<byte>, off: nat, n: nat, wsize: nat)
    requires Holds(w, data, off, n) && wsize <= n <= 2 * wsize && HalfMoved(w, w', wsize)
    ensures Holds(w', data, off + wsize, n - wsize)
  {
    forall i | 0 <= i < n - wsize
      ensures w'[i] == data[off + wsize + i]
    {
      assert w'[i + wsize - wsize] == w[i + wsize];
    }
  }

  lemma {:induction false} DictMoved(p: Params, w: seq<byte>, w': seq<byte>, head: seq<nat>, head': seq<nat>,
                                     prev: seq<nat>, prev': seq<nat>, insH: nat, top: nat)
    requires Dict(p, w, head, prev, top) && Ready(p, w, insH, top) && HalfMoved(w, w', p.wsize)
    requires p.wsize <= top <= 2 * p.wsize - 2
    requires AllMoved(head, head', p.wsize, |head|) && AllMoved(prev, prev', p.wsize, |prev|)
    ensures Dict(p, w', head', prev', top - p.wsize) && Ready(p, w', insH, top - p.wsize)
  {
    hide ChainsOk, Primed, AllMoved;
    ChainsMoved(p.z, w, w', head, head', prev, prev', p.wsize, top);
    assert w'[top - p.wsize] == w[top] && w'[top + 1 - p.wsize] == w[top + 1];
  }

  /** memcpy of the upper half to the lower half. */
  method MoveBytes(window: array<byte>, wsize: nat)
    requires 2 * wsize <= window.Length
    modifies window
    ensures HalfMoved(old(window[..]), window[..], wsize)
  {
    for n := 0 to wsize
      invariant forall i :: wsize <= i < wsize + n ==> window[i - wsize] == old(window[i])
      invariant forall i :: n <= i < window.Length ==> window[i] == old(window[i])
    {
      window[n] := window[wsize + n];
    }
  }

  /** Moves the positions in head or prev. */
  method MovePositions(a: array<nat>, wsize: nat)
    modifies a
    ensures AllMoved(old(a[..]), a[..], wsize, a.Length)
  {
    ghost var was := a[..];
    assert AllMoved(was, a[..], wsize, 0);
    hide AllMoved;
    for n := 0 to a.Length
      invariant AllMoved(was, a[..], wsize, n)
    {
      ghost var now := a[..];
      MovedStep(was, now, wsize, n);
      var m := a[n];
      a[n] := if m >= wsize then m - wsize else 0;
      assert a[..] == now[n := Moved(m, wsize)];
    }
  }

  method CopyIn(window: array<byte>, at: nat, chunk: seq<byte>)
    requires at + |chunk| <= window.Length
    modifies window
    ensures forall i :: 0 <= i < at ==> window[i] == old(window[i])
    ensures forall i :: 0 <= i < |chunk| ==> window[at + i] == chunk[i]
  {
    for n := 0 to |chunk|
      invariant forall i :: 0 <= i < at ==> window[i] == old(window[i])
      invariant forall i :: 0 <= i < n ==> window[at + i] == chunk[i]
    {
      window[at + n] := chunk[n];
    }
  }

  /** INSERT_STRING: the head of the chain becomes the string, linked to the head before. */
  ghost predicate StringInserted(p: Params, w: seq<byte>, s: nat, h: nat, h': nat, head: seq<nat>, head': seq<nat>,
                                 prev: seq<nat>, prev': seq<nat>, matchHead: nat)
  {
    && s + 2 < |w| && p.wsize > 0 && s % p.wsize < |prev| && h' == Update(p.z, h, w[s + 2]) < |head|
    && matchHead == head[h'] && head' == head[h' := s] && prev' == prev[s % p.wsize := matchHead]
  }


  class Window {
    const p: Params
    const window: array<byte>
    const head: array<nat>
    const prev: array<nat>
    var insH: nat
    var strstart: nat
    var lookahead: nat
    var matchStart: nat
    var prevLength: nat
    var blockStart: int
    var eofile: bool
    ghost var off: nat

    ghost predicate Shape() {
      && p.Ok() && window.Length == 2 * p.wsize + MAX_MATCH && head.Length == Pow2(p.z.bits) && prev.Length == p.wsize
      && head != prev
      && window as object != head && window as object != prev
    }

    /** The window holds the bytes read so far, and all strings before top are in the dictionary. */
    ghost predicate Valid(data: seq<byte>, top: nat)
      reads this, window, head, prev
    {
      && Shape() && strstart + lookahead <= 2 * p.wsize && (eofile ==> strstart + lookahead <= 2 * p.wsize - 2)
      && Holds(window[..], data, off, strstart + lookahead)
      && DictOk(top)
    }

    ghost predicate DictOk(top: nat)
      reads this, window, head, prev
    {
      Shape() && Dict(p, window[..], head[..], prev[..], top)
    }

    ghost predicate Keyed(top: nat)
      reads this, window
    {
      Ready(p, window[..], insH, top)
    }

    constructor (p: Params)
      requires p.Ok()
      ensures Shape() && fresh(window) && fresh(head) && fresh(prev) && this.p == p
      ensures strstart == 0 && lookahead == 0 && matchStart == 0 && blockStart == 0 && !eofile && off == 0 && insH == 0
    {
      this.p := p;
      window, head, prev := new byte[2 * p.wsize + MAX_MATCH], new nat[Pow2(p.z.bits)], new nat[p.wsize];
      insH, strstart, lookahead, matchStart, prevLength, blockStart, eofile, off := 0, 0, 0, 0, 0, 0, false, 0;
    }

    /** lm_init. */
    method Init(src: Source)
      requires src.Valid() && Shape() && src.taken == [] && !src.failed
      requires strstart == 0 && lookahead == 0 && matchStart == 0 && blockStart == 0 && !eofile && off == 0 && insH == 0
      modifies this, window, head, prev, src
      ensures src.Valid() && Valid(src.taken, strstart) && (lookahead > 0 ==> Keyed(strstart))
      ensures lookahead >= MIN_LOOKAHEAD || eofile
      ensures strstart == 0 && off == 0 && blockStart == 0
      ensures src.failed == (eofile && src.rest != []) && src.taken + src.rest == old(src.rest)
    {
      hide Holds, Dict, Ready, Crc, U32, Update;
      ClearHeads(head);
      NoDict(p, window[..], head[..], prev[..]);
      NothingHeld(window[..]);
      ghost var input := src.rest;
      ReadMore(src, 2 * p.wsize);
      assert [] + input == input;
      if eofile {
        lookahead := 0;
        return;
      }
      FillIfNeeded(src);
      insH := Update(p.z, insH, window[0]);
      insH := Update(p.z, insH, window[1]);
      FirstKey(p, window[..], insH);
    }

    /** INSERT_STRING. */
    method InsertString(s: nat) returns (matchHead: nat)
      requires DictOk(s) && Keyed(s) && s + 3 <= window.Length
      modifies `insH, head, prev
      ensures DictOk(s + 1) && Keyed(s + 1) && LinkOk(p.z, window[..], matchHead, s)
      ensures StringInserted(p, window[..], s, old(insH), insH, old(head[..]), head[..], old(prev[..]), prev[..],
          matchHead)
    {
      hide Holds, Dict, Ready, LinkOk, Update, Pow2, HashAt;
      ghost var w, hs, ps := window[..], head[..], prev[..];
      DictInserted(p, w, hs, ps, insH, s);
      insH := Update(p.z, insH, window[s + 2]);
      matchHead := head[insH];
      prev[s % p.wsize] := matchHead;
      head[insH] := s;
      assert head[..] == hs[insH := s] && prev[..] == ps[s % p.wsize := matchHead] && window[..] == w;
    }

    /** Moves the upper half of the window to the lower one. */
    method Slide(ghost data: seq<byte>)
      requires Valid(data, strstart) && Keyed(strstart) && p.wsize <= strstart && lookahead >= 2 && !eofile
      modifies `matchStart, `strstart, `blockStart, `off, window, head, prev
      ensures Valid(data, strstart) && Keyed(strstart) && strstart == old(strstart) - p.wsize
      ensures off == old(off) + p.wsize
      ensures blockStart == old(blockStart) - p.wsize && matchStart == U32(old(matchStart) - p.wsize)
    {
      hide Holds, Dict, Ready, AllMoved, Pow2, HalfMoved, U32;
      ghost var w, hs, ps := window[..], head[..], prev[..];
      MoveBytes(window, p.wsize);
      ghost var w' := window[..];
      matchStart := U32(matchStart - p.wsize);
      strstart := strstart - p.wsize;
      blockStart := blockStart - p.wsize;
      assert head[..] == hs;
      MovePositions(head, p.wsize);
      assert prev[..] == ps;
      ghost var hs' := head[..];
      MovePositions(prev, p.wsize);
      assert head[..] == hs' && window[..] == w';
      off := off + p.wsize;
      HoldsMoved(w, w', data, old(off), strstart + p.wsize + lookahead, p.wsize);
      DictMoved(p, w, w', hs, hs', ps, prev[..], insH, strstart + p.wsize);
    }

    /** Reads bytes behind the lookahead. */
    method ReadMore(src: Source, more: nat)
      requires src.Valid() && Valid(src.taken, strstart) && !eofile && more == 2 * p.wsize - lookahead - strstart >= 2
      requires lookahead >= 2 || strstart == 0
      modifies `lookahead, `eofile, window, src
      ensures src.Valid() && Valid(src.taken, strstart) && (old(lookahead >= 2 && Keyed(strstart)) ==> Keyed(strstart))
      ensures Progress(old(src.rest), src.rest, old(src.taken), src.taken, old(src.failed), src.failed, old(lookahead),
          lookahead, eofile)
    {
      hide Holds, Dict, Ready, Pow2, Crc, U32;
      ghost var w, hs, ps, data := window[..], head[..], prev[..], src.taken;
      var chunk := src.Read(more);
      Assoc(data, chunk, src.rest);
      if chunk == [] {
        eofile := true;
        assert src.taken == data;
      } else {
        CopyIn(window, strstart + lookahead, chunk);
        ghost var w' := window[..];
        assert head[..] == hs && prev[..] == ps;
        HoldsMore(w, w', data, off, strstart + lookahead, chunk);
        DictRead(p, w, w', hs, ps, strstart, strstart + lookahead);
        if lookahead >= 2 && old(Keyed(strstart)) {
          ReadyRead(p, w, w', insH, strstart, strstart + lookahead);
        }
        lookahead := lookahead + |chunk|;
      }
    }

    /** fill_window, called before the end of the input has been seen. */
    method FillWindow(src: Source)
      requires src.Valid() && Valid(src.taken, strstart) && !eofile && lookahead < MIN_LOOKAHEAD
      requires strstart == 0 || (lookahead >= 2 && Keyed(strstart))
      modifies `matchStart, `strstart, `blockStart, `off, `lookahead, `eofile, window, head, prev, src
      ensures src.Valid() && Valid(src.taken, strstart) && (old(strstart) == 0 ==> strstart == 0)
      ensures old(strstart) > 0 ==> strstart > 0 && Keyed(strstart)
      ensures Moves(old(strstart), strstart, old(off), off, old(blockStart), blockStart, old(matchStart), matchStart)
      ensures Progress(old(src.rest), src.rest, old(src.taken), src.taken, old(src.failed), src.failed, old(lookahead),
          lookahead, eofile)
    {
      hide Holds, Dict, Ready, Pow2, U32, Progress, Crc;
      var more := 2 * p.wsize - lookahead - strstart;
      ghost var start, ms := strstart, matchStart;
      if strstart >= p.wsize + p.MaxDist() {
        Slide(src.taken);
        U32Moved(start, ms, p.wsize);
        more := more + p.wsize;
      }
      ReadMore(src, more);
    }

    /** fill_window_if_needed. */
    method FillIfNeeded(src: Source)
      requires src.Valid() && Valid(src.taken, strstart) && src.failed == (eofile && src.rest != [])
      requires strstart == 0 || (Keyed(strstart) && (eofile || lookahead >= 2))
      modifies `matchStart, `strstart, `blockStart, `off, `lookahead, `eofile, window, head, prev, src
      ensures src.Valid() && Valid(src.taken, strstart) && (lookahead >= MIN_LOOKAHEAD || eofile)
      ensures (old(strstart) == 0 ==> strstart == 0) && (old(strstart) > 0 ==> strstart > 0 && Keyed(strstart))
      ensures Moves(old(strstart), strstart, old(off), off, old(blockStart), blockStart, old(matchStart), matchStart)
      ensures src.failed == (eofile && src.rest != []) && src.taken + src.rest == old(src.taken + src.rest)
      ensures old(src.taken) <= src.taken
      ensures lookahead + |src.rest| == old(lookahead + |src.rest|) && lookahead >= old(lookahead)
      ensures old(eofile) ==> eofile
    {
      hide Valid, Keyed, U32, Crc;
      ghost var total := src.taken + src.rest;
      while lookahead < MIN_LOOKAHEAD && !eofile
        invariant src.Valid() && Valid(src.taken, strstart) && src.failed == (eofile && src.rest != [])
        invariant old(strstart) == 0 ==> strstart == 0
        invariant old(strstart) > 0 ==> strstart > 0 && Keyed(strstart) && (eofile || lookahead >= 2)
        invariant Moves(old(strstart), strstart, old(off), off, old(blockStart), blockStart, old(matchStart),
            matchStart)
        invariant src.taken + src.rest == total && old(src.taken) <= src.taken && (old(eofile) ==> eofile)
        invariant lookahead + |src.rest| == old(lookahead + |src.rest|) && lookahead >= old(lookahead)
        decreases !eofile, |src.rest|
      {
        ghost var taken := src.taken;
        FillWindow(src);
        PrefixTrans(old(src.taken), taken, src.taken);
      }
    }
  }

  lemma {:induction false} PrefixTrans(a: seq<byte>, b: seq<byte>, c: seq<byte>)
    requires a <= b <= c
    ensures a <= c
  {
  }

  method ClearHeads(head: array<nat>)
    modifies head
    ensures forall h :: 0 <= h < head.Length ==> head[h] == 0
  {
    for n := 0 to head.Length
      invariant forall h :: 0 <= h < n ==> head[h] == 0
    {
      head[n] := 0;
    }
  }

  lemma {:induction false} NoDict(p: Params, w: seq<byte>, head: seq<nat>, prev: seq<nat>)
    requires p.Ok() && 2 <= |w| && |head| == Pow2(p.z.bits) && |prev| == p.wsize
    requires forall h :: 0 <= h < |head| ==> head[h] == 0
    ensures Dict(p, w, head, prev, 0)
  {
    NoChains(p.z, w, head, prev, p.wsize);
  }

  lemma {:induction false} NothingHeld(w: seq<byte>)
    ensures Holds(w, [], 0, 0)
  {
  }

  lemma {:induction false} FirstKey(p: Params, w: seq<byte>, h: nat)
    requires 2 <= |w| && h == Update(p.z, Update(p.z, 0, w[0]), w[1])
    ensures Ready(p, w, h, 0)
  {
    hide Update;
  }

  lemma {:induction false} U32Moved(start: nat, m: nat, wsize: nat)
    requires wsize <= start
    ensures U32(start - wsize - U32(m - wsize)) == U32(start - m)
  {
    var q := (m - wsize) / TWO32;
    DivModParts(m - wsize, TWO32);
    var r := (start - m) % TWO32;
    DivModParts(start - m, TWO32);
    ModUnique(start - wsize - U32(m - wsize), TWO32, (start - m) / TWO32 + q, r);
  }

  /** What reading does to the input: either some bytes arrive, or the end is noted. */
  ghost predicate Progress(rest: seq<byte>, rest': seq<byte>, taken: seq<byte>, taken': seq<byte>, failed: bool,
                           failed': bool, lookahead: nat, lookahead': nat, eof: bool)
  {
    && taken + rest == taken' + rest' && taken <= taken' && lookahead + |rest| == lookahead' + |rest'|
    && (if eof then rest' == rest && failed' == (failed || rest != []) else |rest'| < |rest| && failed' == failed)
  }

  /** The window has moved by a multiple of its size: nothing has changed but the origin. */
  ghost predicate Moves(start: nat, start': nat, off: nat, off': nat, block: int, block': int, match_: nat,
                        match': nat) {
    off + start == off' + start' && off + block == off' + block' && U32(start' - match') == U32(start - match_)
  }
}
