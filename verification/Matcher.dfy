/** The sliding window and the search for earlier occurrences of the string that starts at strstart. */
module Matcher {
  import opened Bits
  import opened Tokens
  import opened Hashing
  import opened Chains

  const MIN_LOOKAHEAD: nat := MAX_MATCH + MIN_MATCH + 1

  /** The strings of n bytes at p and at q are equal. */
  ghost predicate Same(w: seq<byte>, p: nat, q: nat, n: nat) {
    p + n <= |w| && q + n <= |w| && forall i :: p <= i < p + n ==> w[i] == w[q + (i - p)]
  }

  lemma {:induction false} SameMore(w: seq<byte>, p: nat, q: nat, n: nat)
    requires Same(w, p, q, n) && p + n < |w| && q + n < |w| && w[p + n] == w[q + n]
    ensures Same(w, p, q, n + 1)
  {
  }

  lemma {:induction false} SameLess(w: seq<byte>, p: nat, q: nat, n: nat, m: nat)
    requires Same(w, p, q, n) && m <= n
    ensures Same(w, p, q, m)
  {
  }

  /** Compile-time and level parameters of the match finder. */
  datatype Params = Params(z: HashSize, wsize: nat, maxChain: nat, maxLazy: nat, goodMatch: nat, niceMatch: nat,
      tooFar: nat) {
    predicate Ok() {
      && HashOk(z) && MIN_LOOKAHEAD < wsize <= 0x8000
      && maxChain >= 4 && MIN_MATCH <= maxLazy <= MAX_MATCH && niceMatch <= MAX_MATCH
    }

    /** MAX_DIST. */
    function MaxDist(): nat {
      if wsize < MIN_LOOKAHEAD then 0 else wsize - MIN_LOOKAHEAD
    }
  }

  /** Three equal bytes: two compared, the third equal because the keys are. */
  lemma {:induction false} ThreeSame(z: HashSize, w: seq<byte>, p: nat, q: nat)
    requires HashOk(z) && p + 2 < |w| && q + 2 < |w| && HashAt(z, w, p) == HashAt(z, w, q)
    requires w[p] == w[q] && w[p + 1] == w[q + 1]
    ensures Same(w, p, q, 3)
  {
    hide Hash3;
    ThirdByte(z, w[p], w[p + 1], w[p + 2], w[q + 2]);
  }

  /** The window agrees at the two places up to byte i, or differs there for the first time. */
  ghost predicate Compared(w: seq<byte>, cur: nat, strstart: nat, i: nat, same: bool) {
    && cur + i < |w| && strstart + i < |w|
    && if same then Same(w, cur, strstart, i + 1) else Same(w, cur, strstart, i) && w[cur + i] != w[strstart + i]
  }

  method EightBytes(window: array<byte>, cur: nat, strstart: nat, from: nat) returns (i: nat, same: bool)
    requires cur <= strstart && strstart + from + 8 < window.Length && Compared(window[..], cur, strstart, from, true)
    ensures if same then i == from + 8 else from < i <= from + 8
    ensures Compared(window[..], cur, strstart, i, same)
  {
    hide Same;
    ghost var w := window[..];
    same := true;
    i := from;
    while i < from + 8 && same
      invariant from <= i <= from + 8 && (!same ==> from < i) && Compared(w, cur, strstart, i, same)
      decreases from + 8 - i
    {
      i := i + 1;
      same := window[cur + i] == window[strstart + i];
      if same {
        SameMore(w, cur, strstart, i);
      }
    }
  }

  /** The comparison loop: eight bytes between two tests of the limit. */
  method MatchLength(window: array<byte>, cur: nat, strstart: nat) returns (len: nat)
    requires cur <= strstart && strstart + MAX_MATCH < window.Length && Same(window[..], cur, strstart, 3)
    ensures 3 <= len <= MAX_MATCH && Same(window[..], cur, strstart, len)
    ensures len < MAX_MATCH ==> window[cur + len] != window[strstart + len]
  {
    hide Same;
    ghost var w := window[..];
    ghost var r := 0;
    var i, same := 2, true;
    while true
      invariant i == 2 + 8 * r && r < 32 && Compared(w, cur, strstart, i, true)
      decreases 32 - r
    {
      i, same := EightBytes(window, cur, strstart, i);
      r := r + 1;
      if !same || i >= MAX_MATCH {
        break;
      }
    }
    if same {
      SameLess(w, cur, strstart, i + 1, i);
    }
    len := i;
  }

  /** An earlier string within reach whose key is that of the current one. */
  ghost predicate Candidate(p: Params, w: seq<byte>, cur: nat, strstart: nat) {
    p.Ok() && 1 <= cur < strstart <= cur + p.MaxDist() && HashAt(p.z, w, cur) == HashAt(p.z, w, strstart)
  }

  /** Either nothing longer than prevLength was found, or start is a true match of length best within reach. */
  ghost predicate Found(p: Params, w: seq<byte>, strstart: nat, prevLength: nat, start0: nat, best: nat, start: nat) {
    || (best == prevLength && start == start0)
    || (prevLength < best <= MAX_MATCH && p.Ok() && 1 <= start < strstart <= start + p.MaxDist()
         && Same(w, start, strstart, best))
  }

  lemma {:induction false} NextCandidate(p: Params, w: seq<byte>, prev: seq<nat>, cur: nat, strstart: nat)
    requires Candidate(p, w, cur, strstart) && LinksOk(p.z, w, prev, p.wsize, strstart + 1)
    ensures cur % p.wsize < |prev|
    ensures var q := prev[cur % p.wsize];
      q > (if strstart > p.MaxDist() then strstart - p.MaxDist() else 0) ==> q < cur && Candidate(p, w, q, strstart)
  {
    hide HashAt;
    assert Linked(cur, strstart + 1, p.wsize);
    assert LinkOk(p.z, w, prev[cur % p.wsize], cur);
  }

  lemma {:induction false} CandidateSame(p: Params, w: seq<byte>, cur: nat, strstart: nat)
    requires Candidate(p, w, cur, strstart) && strstart + 2 < |w| && w[cur] == w[strstart]
    requires w[cur + 1] == w[strstart + 1]
    ensures Same(w, cur, strstart, 3)
  {
    hide HashAt, Same;
    ThreeSame(p.z, w, cur, strstart);
  }

  lemma {:induction false} CandidateRange(p: Params, w: seq<byte>, cur: nat, strstart: nat)
    requires Candidate(p, w, cur, strstart)
    ensures p.Ok() && 1 <= cur < strstart <= cur + p.MaxDist()
  {
  }

  /** The strings on the chain from cur on that are within reach, at most chain of them. */
  function Walk(prev: seq<nat>, wsize: nat, limit: nat, cur: nat, chain: nat): seq<nat>
    requires wsize > 0
    decreases chain
  {
    if chain == 0 then []
    else
      var next := if cur % wsize < |prev| then prev[cur % wsize] else 0;
      [cur] + if next <= limit then [] else Walk(prev, wsize, limit, next, chain - 1)
  }

  lemma {:induction false} WalkOn(prev: seq<nat>, wsize: nat, limit: nat, cur: nat, chain: nat, tried: seq<nat>,
                                  next: nat)
    requires wsize > 0 && chain >= 1 && cur % wsize < |prev| && next == prev[cur % wsize]
    ensures tried + Walk(prev, wsize, limit, cur, chain)
         == if next <= limit || chain == 1 then tried + [cur]
            else (tried + [cur]) + Walk(prev, wsize, limit, next, chain - 1)
  {
    var rest := if next <= limit then [] else Walk(prev, wsize, limit, next, chain - 1);
    assert Walk(prev, wsize, limit, cur, chain) == [cur] + rest;
    assert tried + ([cur] + rest) == (tried + [cur]) + rest;
  }

  /** None of these strings agrees with the one at strstart in more than best bytes. */
  ghost predicate NoneBetter(w: seq<byte>, strstart: nat, best: nat, tried: seq<nat>) {
    forall c :: c in tried ==> !Same(w, c, strstart, best + 1)
  }

  lemma {:induction false} NoneBetterMore(w: seq<byte>, strstart: nat, best: nat, tried: seq<nat>, best': nat, cur: nat)
    requires NoneBetter(w, strstart, best, tried) && best <= best' && !Same(w, cur, strstart, best' + 1)
    ensures NoneBetter(w, strstart, best', tried + [cur])
  {
    hide Same;
    forall c | c in tried
      ensures !Same(w, c, strstart, best' + 1)
    {
      if Same(w, c, strstart, best' + 1) {
        SameLess(w, c, strstart, best' + 1, best + 1);
      }
    }
  }

  lemma {:induction false} Differ(w: seq<byte>, p: nat, q: nat, i: nat, n: nat)
    requires i < n && p + i < |w| && q + i < |w| && w[p + i] != w[q + i]
    ensures !Same(w, p, q, n)
  {
  }

  /** How many walks there are still to take. */
  function ChainLength(p: Params, prevLength: nat): nat {
    if prevLength >= p.goodMatch then p.maxChain / 4 else p.maxChain
  }

  function Limit(p: Params, strstart: nat): nat
    requires p.Ok()
  {
    if strstart > p.MaxDist() then strstart - p.MaxDist() else 0
  }

  /** One candidate: a greater length if it is better than the best one so far. */
  method TryCandidate(p: Params, window: array<byte>, cur: nat, strstart: nat, bestLen: nat) returns (len: nat)
    requires 1 <= bestLen < MAX_MATCH && strstart + MAX_MATCH < window.Length && Candidate(p, window[..], cur, strstart)
    ensures bestLen <= len <= MAX_MATCH && (len > bestLen ==> Same(window[..], cur, strstart, len))
    ensures len < MAX_MATCH ==> !Same(window[..], cur, strstart, len + 1)
  {
    hide Candidate, Same;
    ghost var w := window[..];
    CandidateRange(p, w, cur, strstart);
    var scanEnd1, scanEnd := window[strstart + bestLen - 1], window[strstart + bestLen];
    if window[cur + bestLen] != scanEnd {
      Differ(w, cur, strstart, bestLen, bestLen + 1);
      return bestLen;
    }
    if window[cur + bestLen - 1] != scanEnd1 {
      Differ(w, cur, strstart, bestLen - 1, bestLen + 1);
      return bestLen;
    }
    if window[cur] != window[strstart] {
      Differ(w, cur, strstart, 0, bestLen + 1);
      return bestLen;
    }
    if window[cur + 1] != window[strstart + 1] {
      Differ(w, cur, strstart, 1, bestLen + 1);
      return bestLen;
    }
    CandidateSame(p, w, cur, strstart);
    len := MatchLength(window, cur, strstart);
    if len < MAX_MATCH {
      Differ(w, cur, strstart, len, len + 1);
      if len < bestLen {
        Differ(w, cur, strstart, len, bestLen + 1);
      }
    }
    if len < bestLen {
      len := bestLen;
    }
  }

  /** The search has tried some strings of the walk and goes on with cur. */
  ghost predicate Searching(p: Params, w: seq<byte>, links: seq<nat>, strstart: nat, prevLength: nat, start0: nat,
                            walk: seq<nat>, tried: seq<nat>, cur: nat, chain: nat, best: nat, start: nat)
  {
    && Candidate(p, w, cur, strstart) && LinksOk(p.z, w, links, p.wsize, strstart + 1) && chain >= 1
    && prevLength <= best < MAX_MATCH && Found(p, w, strstart, prevLength, start0, best, start)
    && NoneBetter(w, strstart, best, tried) && walk == tried + Walk(links, p.wsize, Limit(p, strstart), cur, chain)
  }

  lemma {:induction false} SearchStep(p: Params, w: seq<byte>, links: seq<nat>, strstart: nat, prevLength: nat,
                                      start0: nat, walk: seq<nat>, tried: seq<nat>, cur: nat, chain: nat, best: nat,
                                      start: nat, len: nat)
    requires Searching(p, w, links, strstart, prevLength, start0, walk, tried, cur, chain, best, start) && p.Ok()
    requires best <= len <= MAX_MATCH && (len > best ==> Same(w, cur, strstart, len))
    requires len < MAX_MATCH ==> !Same(w, cur, strstart, len + 1)
    ensures cur % p.wsize < |links|
    ensures Found(p, w, strstart, prevLength, start0, len, if len > best then cur else start)
    ensures len < MAX_MATCH ==>
      if links[cur % p.wsize] <= Limit(p, strstart) || chain == 1 then NoneBetter(w, strstart, len, walk)
      else links[cur % p.wsize] < cur
           && Searching(p, w, links, strstart, prevLength, start0, walk, tried + [cur], links[cur % p.wsize], chain - 1,
                        len, if len > best then cur else start)
  {
    hide Candidate, Same, LinksOk, NoneBetter, Found, Walk;
    if len > best {
      FoundBetter(p, w, strstart, prevLength, start0, len, cur);
    }
    NextCandidate(p, w, links, cur, strstart);
    WalkOn(links, p.wsize, Limit(p, strstart), cur, chain, tried, links[cur % p.wsize]);
    if len < MAX_MATCH {
      NoneBetterMore(w, strstart, best, tried, len, cur);
    }
  }

  /** longest_match: nothing longer than prevLength, or a true match within reach; no string on the walk agrees in
      more bytes, unless the match is so good that the walk was ended for it. */
  method LongestMatch(p: Params, window: array<byte>, prev: array<nat>, hashHead: nat, strstart: nat, prevLength: nat,
                      matchStart0: nat)
    returns (bestLen: nat, matchStart: nat)
    requires p.Ok() && 1 <= prevLength < MAX_MATCH && strstart + MAX_MATCH < window.Length
    requires Candidate(p, window[..], hashHead, strstart) && LinksOk(p.z, window[..], prev[..], p.wsize, strstart + 1)
    ensures Found(p, window[..], strstart, prevLength, matchStart0, bestLen, matchStart)
    ensures bestLen >= p.niceMatch
         || NoneBetter(window[..], strstart, bestLen, Walk(prev[..], p.wsize, Limit(p, strstart), hashHead,
              ChainLength(p, prevLength)))
  {
    hide Candidate, Same, LinksOk, NoneBetter, Found, Walk, Searching;
    ghost var w, links := window[..], prev[..];
    var chainLength: nat, cur: nat := p.maxChain, hashHead;
    bestLen, matchStart := prevLength, matchStart0;
    var limit := if strstart > p.MaxDist() then strstart - p.MaxDist() else 0;
    if prevLength >= p.goodMatch {
      chainLength := chainLength / 4;
    }
    ghost var walk, tried: seq<nat> := Walk(links, p.wsize, limit, cur, chainLength), [];
    SearchStart(p, w, links, strstart, prevLength, matchStart0, cur, chainLength);
    while true
      invariant Searching(p, w, links, strstart, prevLength, matchStart0, walk, tried, cur, chainLength, bestLen,
          matchStart)
      decreases cur
    {
      SearchFacts(p, w, links, strstart, prevLength, matchStart0, walk, tried, cur, chainLength, bestLen, matchStart);
      var len := TryCandidate(p, window, cur, strstart, bestLen);
      SearchStep(p, w, links, strstart, prevLength, matchStart0, walk, tried, cur, chainLength, bestLen, matchStart,
          len);
      tried := tried + [cur];
      if len > bestLen {
        matchStart, bestLen := cur, len;
        if len >= p.niceMatch {
          break;
        }
      }
      cur := prev[cur % p.wsize];
      if cur <= limit {
        break;
      }
      chainLength := chainLength - 1;
      if chainLength == 0 {
        break;
      }
    }
  }

  lemma {:induction false} SearchStart(p: Params, w: seq<byte>, links: seq<nat>, strstart: nat, prevLength: nat,
                                       start0: nat, cur: nat, chain: nat)
    requires Candidate(p, w, cur, strstart) && LinksOk(p.z, w, links, p.wsize, strstart + 1) && chain >= 1
    requires prevLength < MAX_MATCH
    ensures Searching(p, w, links, strstart, prevLength, start0, Walk(links, p.wsize, Limit(p, strstart), cur, chain),
                      [], cur, chain, prevLength, start0)
  {
    hide Walk, LinksOk;
  }

  lemma {:induction false} SearchFacts(p: Params, w: seq<byte>, links: seq<nat>, strstart: nat, prevLength: nat,
                                       start0: nat, walk: seq<nat>, tried: seq<nat>, cur: nat, chain: nat, best: nat,
                                       start: nat)
    requires Searching(p, w, links, strstart, prevLength, start0, walk, tried, cur, chain, best, start)
    ensures Candidate(p, w, cur, strstart) && prevLength <= best < MAX_MATCH && chain >= 1
  {
    hide Candidate, Same, LinksOk, NoneBetter, Found, Walk;
  }

  lemma {:induction false} FoundBetter(p: Params, w: seq<byte>, strstart: nat, prevLength: nat, start0: nat, len: nat,
                                       cur: nat)
    requires Candidate(p, w, cur, strstart) && prevLength < len <= MAX_MATCH && Same(w, cur, strstart, len)
    ensures Found(p, w, strstart, prevLength, start0, len, cur)
  {
  }
}
