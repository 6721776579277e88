/** Lengths follow the frequencies: the order in which gen_bitlen hands them out again is that of the frequencies. */
module LengthRank {
  import opened HuffmanTree
  import opened HuffmanOptimal
  import opened BitLengths
  import opened LengthReassign

  lemma {:induction false} NextLighter(leaves: set<nat>, elems: nat, merges: seq<(nat, nat)>, w: seq<nat>, q: nat)
    requires Complete(leaves, elems, merges) && Greedy(leaves, elems, merges, w) && q + 1 < 2 * |merges|
    ensures Son(merges, q) < |w| && Son(merges, q + 1) < |w| && w[Son(merges, q + 1)] <= w[Son(merges, q)]
  {
    hide Alive;
    var j := MergeAt(|merges|, q);
    MergeFacts(leaves, elems, merges, j);
    assert GreedyAt(leaves, elems, merges, w, j);
    if q % 2 == 1 {
      assert MergeAt(|merges|, q + 1) == j - 1;
      MergeFacts(leaves, elems, merges, j - 1);
      assert GreedyAt(leaves, elems, merges, w, j - 1);
    }
  }

  /** Nodes are visited in decreasing frequency, and so scanned backwards in increasing frequency. */
  lemma {:induction false} VisitsLighter(leaves: set<nat>, elems: nat, merges: seq<(nat, nat)>, w: seq<nat>, q: nat,
                                         r: nat)
    requires Complete(leaves, elems, merges) && Greedy(leaves, elems, merges, w) && q <= r < 2 * |merges|
    ensures Son(merges, q) < |w| && Son(merges, r) < |w| && w[Son(merges, r)] <= w[Son(merges, q)]
    decreases r - q
  {
    hide Complete, Greedy, Son;
    if q < r {
      VisitsLighter(leaves, elems, merges, w, q, r - 1);
      NextLighter(leaves, elems, merges, w, r - 1);
    } else {
      SonWeighs(leaves, elems, merges, w, q);
    }
  }

  lemma {:induction false} SonWeighs(leaves: set<nat>, elems: nat, merges: seq<(nat, nat)>, w: seq<nat>, q: nat)
    requires Complete(leaves, elems, merges) && Greedy(leaves, elems, merges, w) && q < 2 * |merges|
    ensures Son(merges, q) < |w|
  {
    assert GreedyAt(leaves, elems, merges, w, MergeAt(|merges|, q));
  }

  /** After the repair no leaf is shorter than a more frequent one. */
  lemma {:induction false} RarerLonger(leaves: set<nat>, elems: nat, merges: seq<(nat, nat)>, w: seq<nat>,
                                       lens: seq<nat>, x: nat, y: nat)
    requires Complete(leaves, elems, merges) && Greedy(leaves, elems, merges, w) && RankOrder(lens, elems, merges)
    requires x in leaves && y in leaves && x < |w| && y < |w| && w[x] < w[y]
    ensures x < |lens| && y < |lens| && lens[x] >= lens[y]
  {
    hide Greedy, Son, Visited;
    LeavesVisited(leaves, elems, merges, x);
    LeavesVisited(leaves, elems, merges, y);
    var q := VisitedAt(merges, 2 * |merges|, x);
    var r := VisitedAt(merges, 2 * |merges|, y);
    if q <= r {
      VisitsLighter(leaves, elems, merges, w, q, r);
    }
  }
}
