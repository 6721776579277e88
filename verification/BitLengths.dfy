/** gen_bitlen: code lengths from a Huffman tree stored as fathers, the repair of lengths over the limit,
    and the running totals of the compressed size. */
module BitLengths {
  import opened Bits
  import opened CanonicalCode
  import opened HuffmanTree

  // --- The order in which nodes are visited: the last merge's sons first ---

  ghost function MergeAt(total: nat, p: nat): (j: nat)
    requires p < 2 * total
    ensures j < total
  {
    total - 1 - p / 2
  }

  ghost function Son(merges: seq<(nat, nat)>, p: nat): nat
    requires p < 2 * |merges|
  {
    if p % 2 == 0 then merges[MergeAt(|merges|, p)].1 else merges[MergeAt(|merges|, p)].0
  }

  ghost function Visited(merges: seq<(nat, nat)>, p: nat): set<nat>
    requires p <= 2 * |merges|
  {
    if p == 0 then {} else Visited(merges, p - 1) + {Son(merges, p - 1)}
  }

  lemma {:induction false} VisitedAt(merges: seq<(nat, nat)>, p: nat, x: nat) returns (q: nat)
    requires p <= 2 * |merges| && x in Visited(merges, p)
    ensures q < p && x == Son(merges, q)
  {
    if x == Son(merges, p - 1) {
      q := p - 1;
    } else {
      q := VisitedAt(merges, p - 1, x);
    }
  }

  lemma {:induction false} SonVisited(merges: seq<(nat, nat)>, q: nat, p: nat)
    requires q < p <= 2 * |merges|
    ensures Son(merges, q) in Visited(merges, p)
  {
    if q < p - 1 {
      SonVisited(merges, q, p - 1);
    }
  }

  lemma {:induction false} SonsDiffer(leaves: set<nat>, elems: nat, merges: seq<(nat, nat)>, p: nat, q: nat)
    requires MergesOk(leaves, elems, merges) && p < 2 * |merges| && q < 2 * |merges| && p != q
    ensures Son(merges, p) != Son(merges, q)
  {
    var i, j := MergeAt(|merges|, p), MergeAt(|merges|, q);
    if Son(merges, p) == Son(merges, q) {
      OneFather(leaves, elems, merges, i, j, Son(merges, p));
      MergeFacts(leaves, elems, merges, i);
    }
  }

  lemma {:induction false} NotYetVisited(leaves: set<nat>, elems: nat, merges: seq<(nat, nat)>, p: nat)
    requires Complete(leaves, elems, merges) && p < 2 * |merges|
    ensures Son(merges, p) !in Visited(merges, p)
    ensures Son(merges, p) != elems + |merges| - 1 && Son(merges, p) < elems + |merges|
    ensures Son(merges, p) < elems ==> Son(merges, p) in leaves
  {
    var j := MergeAt(|merges|, p);
    MergeFacts(leaves, elems, merges, j);
    AliveRange(leaves, elems, merges, j, Son(merges, p));
    OnlyRoot(leaves, elems, merges);
    NeverAgain(leaves, elems, merges, j, |merges|, Son(merges, p));
    if Son(merges, p) in Visited(merges, p) {
      var q := VisitedAt(merges, p, Son(merges, p));
      SonsDiffer(leaves, elems, merges, p, q);
    }
  }

  /** Fathers precede their sons. */
  lemma {:induction false} FatherVisited(leaves: set<nat>, elems: nat, merges: seq<(nat, nat)>, p: nat)
    requires Complete(leaves, elems, merges) && p < 2 * |merges|
    ensures var f := elems + MergeAt(|merges|, p);
      f == elems + |merges| - 1 || f in Visited(merges, p)
  {
    var f := elems + MergeAt(|merges|, p);
    if f != elems + |merges| - 1 {
      var j := HasFather(leaves, elems, merges, f);
      var q := 2 * (|merges| - 1 - j);
      assert MergeAt(|merges|, q) == j && MergeAt(|merges|, q + 1) == j && q + 1 < p;
      SonVisited(merges, q, p);
      SonVisited(merges, q + 1, p);
    }
  }

  lemma {:induction false} LeavesVisited(leaves: set<nat>, elems: nat, merges: seq<(nat, nat)>, x: nat)
    requires Complete(leaves, elems, merges) && x in leaves
    ensures x in Visited(merges, 2 * |merges|)
  {
    var j := HasFather(leaves, elems, merges, x);
    var q := 2 * (|merges| - 1 - j);
    assert MergeAt(|merges|, q) == j && MergeAt(|merges|, q + 1) == j;
    SonVisited(merges, q, 2 * |merges|);
    SonVisited(merges, q + 1, 2 * |merges|);
  }

  // --- First pass: lengths from fathers ---

  function Clamp(bits: nat, limit: nat): nat {
    if bits > limit then limit else bits
  }

  /** The tree as build_tree leaves it: every son holds the number of its father. */
  ghost predicate FathersSet(t: seq<CtData>, elems: nat, merges: seq<(nat, nat)>) {
    && |t| >= elems + |merges|
    && forall p :: 0 <= p < 2 * |merges| ==>
         Son(merges, p) < |t| && t[Son(merges, p)].dl == elems + MergeAt(|merges|, p)
  }

  /** State of the first pass after p visits. Visited nodes hold lengths, the others still their father. */
  ghost predicate PassState(was: seq<CtData>, now: seq<CtData>, lens: seq<nat>,
                            leaves: set<nat>, elems: nat, merges: seq<(nat, nat)>, limit: nat, p: nat)
    requires p <= 2 * |merges|
  {
    var root := elems + |merges| - 1;
    && |now| == |was| && 0 <= root < |now| && now[root] == was[root].(dl := 0)
    && (forall x :: 0 <= x < |now| && x != root && x !in Visited(merges, p) ==> now[x] == was[x])
    && (forall x :: 0 <= x < |now| ==> now[x].fc == was[x].fc)
    && (forall x :: 0 <= x < |now| && x in Visited(merges, p) ==> 1 <= now[x].dl <= limit)
    && (forall q :: 0 <= q < p ==> SonPassed(now, elems, merges, q, limit))
    && |lens| == elems
    && (forall x :: 0 <= x < elems ==> lens[x] == if x in leaves && x in Visited(merges, p) then now[x].dl else 0)
  }

  ghost predicate SonPassed(now: seq<CtData>, elems: nat, merges: seq<(nat, nat)>, q: nat, limit: nat)
    requires q < 2 * |merges|
  {
    var s, f := Son(merges, q), elems + MergeAt(|merges|, q);
    s < |now| && f < |now| && now[f].dl <= limit && now[s].dl == Clamp(now[f].dl + 1, limit)
  }

  lemma {:induction false} PassStart(was: seq<CtData>, leaves: set<nat>, elems: nat, merges: seq<(nat, nat)>,
                                     limit: nat)
    requires Complete(leaves, elems, merges) && FathersSet(was, elems, merges) && limit >= 1
    ensures var root := elems + |merges| - 1;
      PassState(was, was[root := was[root].(dl := 0)], seq(elems, x => 0), leaves, elems, merges, limit, 0)
  {
  }

  /** The node about to be visited still holds its father, which already holds its length. */
  lemma {:induction false} PassReads(was: seq<CtData>, now: seq<CtData>, lens: seq<nat>,
                                     leaves: set<nat>, elems: nat, merges: seq<(nat, nat)>, limit: nat, p: nat)
    requires Complete(leaves, elems, merges) && FathersSet(was, elems, merges)
    requires p < 2 * |merges| && PassState(was, now, lens, leaves, elems, merges, limit, p)
    ensures var x, f := Son(merges, p), elems + MergeAt(|merges|, p);
      && x < |now| && f < |now| && now[x].dl == f && now[f].dl <= limit
      && x !in Visited(merges, p) && x != elems + |merges| - 1
      && (x < elems ==> lens[x] == 0 && x in leaves)
  {
    hide Son, MergeAt, Visited, Complete;
    NotYetVisited(leaves, elems, merges, p);
    FatherVisited(leaves, elems, merges, p);
  }

  lemma {:induction false} PassStep(was: seq<CtData>, now: seq<CtData>, lens: seq<nat>,
                                    leaves: set<nat>, elems: nat, merges: seq<(nat, nat)>, limit: nat, p: nat,
                                    x: nat, bits: nat)
    requires Complete(leaves, elems, merges) && FathersSet(was, elems, merges) && limit >= 1
    requires p < 2 * |merges| && PassState(was, now, lens, leaves, elems, merges, limit, p)
    requires x == Son(merges, p) < |now| && elems + MergeAt(|merges|, p) < |now|
    requires bits == Clamp(now[elems + MergeAt(|merges|, p)].dl + 1, limit)
    ensures PassState(was, now[x := now[x].(dl := bits)], if x < elems then lens[x := bits] else lens,
                      leaves, elems, merges, limit, p + 1)
  {
    PassReads(was, now, lens, leaves, elems, merges, limit, p);
    assert Visited(merges, p + 1) == Visited(merges, p) + {x};
    var now' := now[x := now[x].(dl := bits)];
    forall q | 0 <= q < p + 1
      ensures SonPassed(now', elems, merges, q, limit)
    {
      hide PassState;
      SonStillPassed(was, now, lens, leaves, elems, merges, limit, p, q);
    }
    hide Son, MergeAt, Visited, Complete, FathersSet, SonPassed;
  }

  lemma {:induction false} SonStillPassed(was: seq<CtData>, now: seq<CtData>, lens: seq<nat>,
                                          leaves: set<nat>, elems: nat, merges: seq<(nat, nat)>, limit: nat, p: nat,
                                          q: nat)
    requires Complete(leaves, elems, merges)
    requires p < 2 * |merges| && PassState(was, now, lens, leaves, elems, merges, limit, p) && q <= p
    requires var x, f := Son(merges, p), elems + MergeAt(|merges|, p); x < |now| && now[f].dl <= limit
    ensures var x, f := Son(merges, p), elems + MergeAt(|merges|, p);
      SonPassed(now[x := now[x].(dl := Clamp(now[f].dl + 1, limit))], elems, merges, q, limit)
  {
    hide Son, MergeAt, Visited;
    var x, f := Son(merges, p), elems + MergeAt(|merges|, p);
    NotYetVisited(leaves, elems, merges, p);
    FatherVisited(leaves, elems, merges, p);
    if q < p {
      assert SonPassed(now, elems, merges, q, limit);
      SonsDiffer(leaves, elems, merges, p, q);
      FatherVisited(leaves, elems, merges, q);
      VisitedMonotone(merges, q, p);
    }
  }

  lemma {:induction false} VisitedMonotone(merges: seq<(nat, nat)>, p: nat, q: nat)
    requires p <= q <= 2 * |merges|
    ensures Visited(merges, p) <= Visited(merges, q)
  {
    if p < q {
      VisitedMonotone(merges, p, q - 1);
    }
  }

  // --- What the first pass has computed ---

  /** Lengths of the leaves, 0 for unused symbols. */
  ghost predicate LeafLens(lens: seq<nat>, now: seq<CtData>, leaves: set<nat>, elems: nat, limit: nat) {
    && |lens| == elems <= |now|
    && (forall x :: 0 <= x < elems ==> lens[x] == if x in leaves then now[x].dl else 0)
    && (forall x :: 0 <= x < elems && x in leaves ==> 1 <= lens[x] <= limit)
  }

  lemma {:induction false} PassEnd(was: seq<CtData>, now: seq<CtData>, lens: seq<nat>,
                                   leaves: set<nat>, elems: nat, merges: seq<(nat, nat)>, limit: nat)
    requires Complete(leaves, elems, merges)
    requires PassState(was, now, lens, leaves, elems, merges, limit, 2 * |merges|)
    ensures ClampedLens(Lens(now), elems, merges, limit)
    ensures LeafLens(lens, now, leaves, elems, limit)
  {
    forall j | 0 <= j < |merges|
      ensures SonsClamped(Lens(now), elems, merges, j, limit)
    {
      var q := 2 * (|merges| - 1 - j);
      assert MergeAt(|merges|, q) == j && MergeAt(|merges|, q + 1) == j;
      assert SonPassed(now, elems, merges, q, limit);
      assert SonPassed(now, elems, merges, q + 1, limit);
    }
    forall x | 0 <= x < elems && x in leaves
      ensures x in Visited(merges, 2 * |merges|)
    {
      LeavesVisited(leaves, elems, merges, x);
    }
    assert elems <= |now|;
  }

  lemma {:induction false} KraftIsSum(lens: seq<nat>, len: seq<nat>, leaves: set<nat>, limit: nat, n: nat)
    requires n <= |lens| <= |len|
    requires forall x :: 0 <= x < n ==> lens[x] == if x in leaves then len[x] else 0
    requires forall x :: 0 <= x < n && x in leaves ==> 1 <= len[x] <= limit
    ensures KraftSum(lens[..n], limit) == SumIn(leaves, Shares(len, limit), n)
    ensures limit >= 1 ==> Count(lens[..n], limit) == SumIn(leaves, LimitMarks(len, limit), n)
  {
    if n > 0 {
      assert lens[..n][..n - 1] == lens[..n - 1];
      KraftIsSum(lens, len, leaves, limit, n - 1);
    }
  }

  lemma {:induction false} SumBeyond(s: set<nat>, w: seq<int>, m: nat, n: nat)
    requires m <= n <= |w| && forall x :: x in s ==> x < m
    ensures SumIn(s, w, n) == SumIn(s, w, m)
  {
    if m < n {
      SumBeyond(s, w, m, n - 1);
    }
  }

  /** The Kraft sum of the cut off lengths is one more share than 1 for every two overflowing nodes, and
      more leaves than that sit at the limit. */
  lemma {:induction false} OverflowKraft(now: seq<CtData>, lens: seq<nat>, leaves: set<nat>, elems: nat,
                                         merges: seq<(nat, nat)>, limit: nat)
    requires Complete(leaves, elems, merges) && limit >= 1
    requires ClampedLens(Lens(now), elems, merges, limit) && LeafLens(lens, now, leaves, elems, limit)
    ensures KraftSum(lens, limit) == Pow2(limit) + AtLimit(Lens(now), elems, |merges|, 0, limit)
    ensures AtLimit(Lens(now), elems, |merges|, 0, limit) > 0 ==>
      AtLimit(Lens(now), elems, |merges|, 0, limit) < Count(lens, limit)
  {
    var len := Lens(now);
    assert lens[..elems] == lens;
    KraftIsSum(lens, len, leaves, limit, elems);
    SumBeyond(leaves, Shares(len, limit), elems, |len|);
    SumBeyond(leaves, LimitMarks(len, limit), elems, |len|);
    KraftOfLeaves(leaves, elems, merges, len, limit);
    LimitOfLeaves(leaves, elems, merges, len, limit);
  }

  // --- Running totals ---

  /** An unsigned 32-bit counter. */
  function U32(x: int): (r: nat)
    ensures r < TWO32
  {
    x % TWO32
  }

  lemma {:induction false} U32Add(x: int, d: int)
    ensures U32(U32(x) + d) == U32(x + d)
  {
    var q := x / TWO32;
    var q' := (x % TWO32 + d) / TWO32;
    ModUnique(x + d, TWO32, q + q', (x % TWO32 + d) % TWO32);
  }

  /** Bits spent on a symbol: its code and its extra bits, as often as it occurs. */
  function Price(freq: nat, len: nat, extra: nat): nat {
    freq * (len + extra)
  }

  /** Total price of the used symbols below n, at their own lengths and at the fixed lengths. */
  ghost function OwnPrice(freq: seq<nat>, lens: seq<nat>, extra: seq<nat>, n: nat): nat
    requires n <= |freq| && n <= |lens| && n <= |extra|
  {
    if n == 0 then 0
    else OwnPrice(freq, lens, extra, n - 1)
         + if lens[n - 1] > 0 then Price(freq[n - 1], lens[n - 1], extra[n - 1]) else 0
  }

  ghost function FixedPrice(freq: seq<nat>, lens: seq<nat>, fixed: seq<nat>, extra: seq<nat>, n: nat): nat
    requires n <= |freq| && n <= |lens| && n <= |extra| && n <= |fixed|
  {
    if n == 0 then 0
    else FixedPrice(freq, lens, fixed, extra, n - 1)
         + if lens[n - 1] > 0 then Price(freq[n - 1], fixed[n - 1], extra[n - 1]) else 0
  }

  lemma {:induction false} OwnPriceSet(freq: seq<nat>, lens: seq<nat>, extra: seq<nat>, x: nat, b: nat, n: nat)
    requires n <= |freq| && n <= |lens| && n <= |extra| && x < |lens|
    ensures OwnPrice(freq, lens[x := b], extra, n) ==
      if x >= n then OwnPrice(freq, lens, extra, n)
      else OwnPrice(freq, lens, extra, n)
           - (if lens[x] > 0 then Price(freq[x], lens[x], extra[x]) else 0)
           + (if b > 0 then Price(freq[x], b, extra[x]) else 0)
  {
    hide Price;
    if n > 0 {
      OwnPriceSet(freq, lens, extra, x, b, n - 1);
    }
  }

  lemma {:induction false} FixedPriceSet(freq: seq<nat>, lens: seq<nat>, fixed: seq<nat>, extra: seq<nat>, x: nat,
                                         b: nat, n: nat)
    requires n <= |freq| && n <= |lens| && n <= |extra| && n <= |fixed| && x < |lens| && b > 0
    ensures FixedPrice(freq, lens[x := b], fixed, extra, n) ==
      FixedPrice(freq, lens, fixed, extra, n)
      + if x < n && lens[x] == 0 then Price(freq[x], fixed[x], extra[x]) else 0
  {
    hide Price;
    if n > 0 {
      FixedPriceSet(freq, lens, fixed, extra, x, b, n - 1);
    }
  }

  lemma {:induction false} CountSet(lens: seq<nat>, x: nat, b: nat, c: nat)
    requires x < |lens|
    ensures Count(lens[x := b], c) == Count(lens, c) - (if lens[x] == c then 1 else 0) + (if b == c then 1 else 0)
  {
    var k := |lens| - 1;
    if x == k {
      assert lens[x := b][..k] == lens[..k];
    } else {
      assert lens[x := b][..k] == lens[..k][x := b];
      CountSet(lens[..k], x, b, c);
    }
  }

  lemma {:induction false} CountsOkSet(bl: seq<nat>, lens: seq<nat>, x: nat, b: nat)
    requires CountsOk(bl, lens) && x < |lens| && lens[x] == 0 && 1 <= b <= MAX_BITS
    ensures CountsOk(bl[b := bl[b] + 1], lens[x := b])
  {
    forall c: nat | c <= MAX_BITS
      ensures BlCount(lens[x := b], c) == BlCount(lens, c) + if c == b then 1 else 0
    {
      CountSet(lens, x, b, c);
    }
  }

  /** Sons of nodes at the limit among the first p visited nodes. */
  ghost function OverflowAt(len: seq<nat>, elems: nat, total: nat, p: nat, limit: nat): nat
    requires p <= 2 * total && elems + total <= |len|
  {
    2 * AtLimit(len, elems, total, total - p / 2, limit)
    + if p % 2 == 1 && len[elems + total - 1 - p / 2] == limit then 1 else 0
  }

  lemma {:induction false} AtLimitKept(len: seq<nat>, elems: nat, total: nat, k: nat, limit: nat, x: nat, v: nat)
    requires k <= total && elems + total <= |len| && x < |len| && x < elems + k
    ensures AtLimit(len[x := v], elems, total, k, limit) == AtLimit(len, elems, total, k, limit)
    decreases total - k
  {
    if k < total {
      AtLimitKept(len, elems, total, k + 1, limit, x, v);
    }
  }

  lemma {:induction false} OverflowStep(len: seq<nat>, elems: nat, total: nat, p: nat, limit: nat, x: nat, v: nat)
    requires p < 2 * total && elems + total <= |len| && x < elems + MergeAt(total, p)
    ensures OverflowAt(len[x := v], elems, total, p + 1, limit)
         == OverflowAt(len, elems, total, p, limit) + if len[elems + MergeAt(total, p)] == limit then 1 else 0
  {
    var i := p / 2;
    AtLimitKept(len, elems, total, total - i, limit, x, v);
    AtLimitKept(len, elems, total, total - 1 - i, limit, x, v);
    if p % 2 == 1 {
      assert (p + 1) / 2 == i + 1 && (p + 1) % 2 == 0;
    } else {
      assert (p + 1) / 2 == i && (p + 1) % 2 == 1;
    }
  }
}
