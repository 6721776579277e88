/** The hash chains of the match finder: head[h] is the most recent position with key h, and prev links
    each of the last WSIZE positions to the one before it with the same key; 0 ends a chain. */
module Chains {
  import opened Bits
  import opened Hashing

  ghost function HashAt(z: HashSize, w: seq<byte>, p: nat): nat {
    if p + 2 < |w| then Hash3(z, w[p], w[p + 1], w[p + 2]) else 0
  }

  ghost predicate HeadOk(z: HashSize, w: seq<byte>, q: nat, h: nat, top: nat) {
    q == 0 || (q < top && HashAt(z, w, q) == h)
  }

  ghost predicate LinkOk(z: HashSize, w: seq<byte>, q: nat, p: nat) {
    q == 0 || (q < p && HashAt(z, w, q) == HashAt(z, w, p))
  }

  ghost predicate HeadsOk(z: HashSize, w: seq<byte>, head: seq<nat>, top: nat) {
    |head| == Pow2(z.bits) && forall h :: 0 <= h < |head| ==> HeadOk(z, w, head[h], h, top)
  }

  /** Position p is inserted and its link has not been overwritten. */
  ghost predicate Linked(p: nat, top: nat, wsize: nat) {
    p < top <= p + wsize
  }

  ghost predicate LinksOk(z: HashSize, w: seq<byte>, prev: seq<nat>, wsize: nat, top: nat) {
    |prev| == wsize && wsize >= 1 && forall p: nat :: Linked(p, top, wsize) ==> LinkOk(z, w, prev[p % wsize], p)
  }

  /** All positions below top are in the dictionary. */
  ghost predicate ChainsOk(z: HashSize, w: seq<byte>, head: seq<nat>, prev: seq<nat>, wsize: nat, top: nat) {
    HeadsOk(z, w, head, top) && LinksOk(z, w, prev, wsize, top)
  }

  lemma {:induction false} NoChains(z: HashSize, w: seq<byte>, head: seq<nat>, prev: seq<nat>, wsize: nat)
    requires |head| == Pow2(z.bits) && |prev| == wsize >= 1 && forall h :: 0 <= h < |head| ==> head[h] == 0
    ensures ChainsOk(z, w, head, prev, wsize, 0)
  {
  }

  lemma {:induction false} SlotsApart(p: nat, s: nat, wsize: nat)
    requires p < s < p + wsize
    ensures p % wsize != s % wsize
  {
    if p % wsize == s % wsize {
      DivModParts(p, wsize);
      DivModParts(s, wsize);
      var a, b := p / wsize, s / wsize;
      assert s - p == wsize * (b - a);
      if b - a >= 1 {
        MulMono(wsize, 1, b - a);
      } else {
        MulMono(wsize, b - a, 0);
      }
    }
  }

  /** INSERT_STRING keeps the chains. */
  lemma {:induction false} Inserted(z: HashSize, w: seq<byte>, head: seq<nat>, prev: seq<nat>, wsize: nat, s: nat)
    requires ChainsOk(z, w, head, prev, wsize, s) && HashAt(z, w, s) < Pow2(z.bits)
    ensures var h := HashAt(z, w, s); var q := head[h];
      && s % wsize < |prev| && LinkOk(z, w, q, s)
      && ChainsOk(z, w, head[h := s], prev[s % wsize := q], wsize, s + 1)
  {
    hide HashAt, Pow2;
    var h := HashAt(z, w, s);
    var head', prev' := head[h := s], prev[s % wsize := head[h]];
    assert HeadOk(z, w, head[h], h, s);
    forall k | 0 <= k < |head'|
      ensures HeadOk(z, w, head'[k], k, s + 1)
    {
      assert HeadOk(z, w, head[k], k, s);
    }
    forall p: nat | Linked(p, s + 1, wsize)
      ensures LinkOk(z, w, prev'[p % wsize], p)
    {
      if p < s {
        SlotsApart(p, s, wsize);
        assert Linked(p, s, wsize);
      }
    }
  }

  lemma {:induction false} SameHash(z: HashSize, w: seq<byte>, w': seq<byte>, p: nat)
    requires |w| == |w'| && p + 2 < |w| && w[p] == w'[p] && w[p + 1] == w'[p + 1] && w[p + 2] == w'[p + 2]
    ensures HashAt(z, w', p) == HashAt(z, w, p)
  {
  }

  /** Bytes beyond those that the keys were computed from may change. */
  lemma {:induction false} BytesRead(z: HashSize, w: seq<byte>, w': seq<byte>, head: seq<nat>, prev: seq<nat>,
                                     wsize: nat, top: nat)
    requires ChainsOk(z, w, head, prev, wsize, top) && |w| == |w'| && top + 2 <= |w|
    requires top > 0 ==> forall i :: 0 <= i < top + 2 ==> w'[i] == w[i]
    ensures ChainsOk(z, w', head, prev, wsize, top)
  {
    hide HashAt;
    forall p: nat | p < top
      ensures HashAt(z, w', p) == HashAt(z, w, p)
    {
      SameHash(z, w, w', p);
    }
    forall h | 0 <= h < |head|
      ensures HeadOk(z, w', head[h], h, top)
    {
      assert HeadOk(z, w, head[h], h, top);
    }
    forall p: nat | Linked(p, top, wsize)
      ensures LinkOk(z, w', prev[p % wsize], p)
    {
      assert LinkOk(z, w, prev[p % wsize], p);
    }
  }

  // --- Moving the window ---

  function Moved(m: nat, wsize: nat): nat {
    if m >= wsize then m - wsize else 0
  }

  ghost predicate AllMoved(old_: seq<nat>, now: seq<nat>, wsize: nat, n: nat) {
    |now| == |old_| && n <= |now|
    && (forall i :: 0 <= i < n ==> now[i] == Moved(old_[i], wsize))
    && (forall i :: n <= i < |now| ==> now[i] == old_[i])
  }

  lemma {:induction false} MovedStep(old_: seq<nat>, now: seq<nat>, wsize: nat, n: nat)
    requires AllMoved(old_, now, wsize, n) && n < |now|
    ensures now[n] == old_[n] && AllMoved(old_, now[n := Moved(now[n], wsize)], wsize, n + 1)
  {
  }

  lemma {:induction false} HashMoved(z: HashSize, w: seq<byte>, w': seq<byte>, wsize: nat, p: nat, end: nat)
    requires |w| == |w'| && wsize <= end <= |w| && wsize <= p && p + 2 < end
    requires forall i :: wsize <= i < end ==> w'[i - wsize] == w[i]
    ensures HashAt(z, w', p - wsize) == HashAt(z, w, p)
  {
    assert w'[p - wsize] == w[p] && w'[p + 1 - wsize] == w[p + 1] && w'[p + 2 - wsize] == w[p + 2];
  }

  lemma {:induction false} SlotMoved(p: nat, wsize: nat)
    requires wsize >= 1
    ensures (p + wsize) % wsize == p % wsize
  {
    DivModParts(p, wsize);
    ModUnique(p + wsize, wsize, p / wsize + 1, p % wsize);
  }

  /** Sliding window, heads and links keeps the chains. */
  lemma {:induction false} ChainsMoved(z: HashSize, w: seq<byte>, w': seq<byte>, head: seq<nat>, head': seq<nat>,
                                       prev: seq<nat>, prev': seq<nat>, wsize: nat, top: nat)
    requires ChainsOk(z, w, head, prev, wsize, top) && |w| == |w'| && wsize <= top && top + 2 <= |w|
    requires forall i :: wsize <= i < top + 2 ==> w'[i - wsize] == w[i]
    requires AllMoved(head, head', wsize, |head|) && AllMoved(prev, prev', wsize, |prev|)
    ensures ChainsOk(z, w', head', prev', wsize, top - wsize)
  {
    hide HashAt;
    forall p: nat | wsize <= p < top
      ensures HashAt(z, w', p - wsize) == HashAt(z, w, p)
    {
      HashMoved(z, w, w', wsize, p, top + 2);
    }
    forall h | 0 <= h < |head'|
      ensures HeadOk(z, w', head'[h], h, top - wsize)
    {
      HeadMoved(z, w, w', head[h], h, wsize, top);
    }
    forall p: nat | Linked(p, top - wsize, wsize)
      ensures LinkOk(z, w', prev'[p % wsize], p)
    {
      SlotMoved(p, wsize);
      assert Linked(p + wsize, top, wsize);
      assert LinkOk(z, w, prev[p % wsize], p + wsize);
      LinkMoved(z, w, w', prev[p % wsize], p + wsize, wsize, top);
    }
  }

  lemma {:induction false} HeadMoved(z: HashSize, w: seq<byte>, w': seq<byte>, q: nat, h: nat, wsize: nat, top: nat)
    requires HeadOk(z, w, q, h, top) && wsize <= top
    requires forall p: nat {:trigger HashAt(z, w, p)} :: wsize <= p < top ==>
      HashAt(z, w', p - wsize) == HashAt(z, w, p)
    ensures HeadOk(z, w', Moved(q, wsize), h, top - wsize)
  {
  }

  lemma {:induction false} LinkMoved(z: HashSize, w: seq<byte>, w': seq<byte>, q: nat, p: nat, wsize: nat, top: nat)
    requires LinkOk(z, w, q, p) && wsize <= p < top
    requires forall p: nat {:trigger HashAt(z, w, p)} :: wsize <= p < top ==>
      HashAt(z, w', p - wsize) == HashAt(z, w, p)
    ensures LinkOk(z, w', Moved(q, wsize), p - wsize)
  {
  }
}
