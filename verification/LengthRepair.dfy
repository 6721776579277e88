/** The middle of gen_bitlen: moving leaves up in the counts until no length exceeds the limit. */
module LengthRepair {
  import opened Bits
  import opened CanonicalCode
  import opened HuffmanTree
  import opened BitLengths

  /** Kraft sum, scaled by 2^b, of the codes counted in bl up to length b. */
  ghost function CountKraft(bl: seq<nat>, b: nat): nat
    requires b < |bl|
  {
    if b == 0 then 0 else 2 * CountKraft(bl, b - 1) + bl[b]
  }

  ghost function CountTotal(bl: seq<nat>, b: nat): nat
    requires b < |bl|
  {
    if b == 0 then 0 else CountTotal(bl, b - 1) + bl[b]
  }

  lemma {:induction false} CountKraftIs(bl: seq<nat>, lens: seq<nat>, b: nat)
    requires CountsOk(bl, lens) && b <= MAX_BITS
    ensures CountKraft(bl, b) == KraftSum(lens, b)
  {
    if b == 0 {
      KraftZero(lens);
    } else {
      CountKraftIs(bl, lens, b - 1);
      KraftStep(lens, b - 1);
    }
  }

  lemma {:induction false} CountKraftAdd(bl: seq<nat>, x: nat, d: int, b: nat)
    requires b < |bl| && 1 <= x < |bl| && bl[x] + d >= 0
    ensures CountKraft(bl[x := bl[x] + d], b) == CountKraft(bl, b) + if x <= b then d * Pow2(b - x) else 0
    ensures CountTotal(bl[x := bl[x] + d], b) == CountTotal(bl, b) + if x <= b then d else 0
  {
    if b > 0 {
      CountKraftAdd(bl, x, d, b - 1);
      if x < b {
        DoubleProduct(d, Pow2(b - 1 - x), Pow2(b - x));
      } else if x == b {
        assert Pow2(0) == 1;
      }
    }
  }

  lemma {:induction false} DoubleProduct(d: int, p: nat, q: nat)
    requires q == 2 * p
    ensures d * q == 2 * (d * p)
  {
  }

  lemma {:induction false} CountTotalMonotone(bl: seq<nat>, b: nat, c: nat)
    requires b <= c < |bl|
    ensures CountTotal(bl, b) <= CountTotal(bl, c)
  {
    if b < c {
      CountTotalMonotone(bl, b, c - 1);
    }
  }

  // --- Moving leaves up ---

  ghost predicate RepairInv(bl0: seq<nat>, bl: seq<nat>, limit: nat, overflow: int) {
    && |bl| == |bl0| == MAX_BITS + 1 && 1 <= limit <= MAX_BITS && bl[0] == 0
    && overflow >= 0 && overflow % 2 == 0
    && CountKraft(bl, limit) == Pow2(limit) + overflow / 2
    && CountTotal(bl, limit) == CountTotal(bl0, limit) <= Pow2(limit)
    && bl[limit] > overflow / 2
    && forall b :: limit < b <= MAX_BITS ==> bl[b] == bl0[b]
  }

  /** No code has a length strictly between bits and the limit. */
  ghost predicate GapAbove(bl: seq<nat>, bits: nat, limit: nat) {
    limit < |bl| && forall b :: bits < b < limit ==> bl[b] == 0
  }

  lemma {:induction false} GapCounts(bl: seq<nat>, limit: nat, b: nat)
    requires b < limit < |bl| && bl[0] == 0 && GapAbove(bl, 0, limit)
    ensures CountKraft(bl, b) == CountTotal(bl, b) == 0
  {
    if b > 0 {
      GapCounts(bl, limit, b - 1);
    }
  }

  /** Some leaf is above the limit as long as there is overflow. */
  lemma {:induction false} SomeLeafAbove(bl0: seq<nat>, bl: seq<nat>, limit: nat, overflow: int, bits: nat)
    requires RepairInv(bl0, bl, limit, overflow) && overflow > 0 && GapAbove(bl, bits, limit)
    ensures bits >= 1
  {
    if bits == 0 {
      GapCounts(bl, limit, limit - 1);
    }
  }

  /** One leaf goes down from bits, an overflowing leaf becomes its brother. */
  ghost function MovedUp(bl: seq<nat>, bits: nat, limit: nat): seq<nat>
    requires bits < limit < |bl| && bl[bits] >= 1 && (bits + 1 < limit ==> bl[limit] >= 1)
  {
    var b1 := bl[bits := bl[bits] - 1];
    var b2 := b1[bits + 1 := b1[bits + 1] + 2];
    b2[limit := b2[limit] - 1]
  }

  lemma {:induction false} MoveUpKraft(bl: seq<nat>, bits: nat, limit: nat)
    requires 1 <= bits < limit < |bl| && bl[bits] >= 1 && (bits + 1 < limit ==> bl[limit] >= 1)
    ensures CountKraft(MovedUp(bl, bits, limit), limit) == CountKraft(bl, limit) - 1
    ensures CountTotal(MovedUp(bl, bits, limit), limit) == CountTotal(bl, limit)
  {
    hide CountKraft, CountTotal;
    var b1 := bl[bits := bl[bits] - 1];
    var b2 := b1[bits + 1 := b1[bits + 1] + 2];
    CountKraftAdd(bl, bits, -1, limit);
    CountKraftAdd(b1, bits + 1, 2, limit);
    CountKraftAdd(b2, limit, -1, limit);
    assert Pow2(limit - bits) == 2 * Pow2(limit - bits - 1);
    assert Pow2(0) == 1;
  }

  lemma {:induction false} RepairStep(bl0: seq<nat>, bl: seq<nat>, limit: nat, overflow: int, bits: nat)
    requires RepairInv(bl0, bl, limit, overflow) && overflow > 0 && 1 <= bits < limit && bl[bits] >= 1
    ensures bl[limit] >= 1
    ensures RepairInv(bl0, MovedUp(bl, bits, limit), limit, overflow - 2)
  {
    hide CountKraft, CountTotal, Pow2;
    MoveUpKraft(bl, bits, limit);
  }

  method RepairOverflow(blCount: array<nat>, limit: nat, overflow0: nat)
    requires overflow0 > 0 && RepairInv(blCount[..], blCount[..], limit, overflow0)
    modifies blCount
    ensures RepairInv(old(blCount[..]), blCount[..], limit, 0)
  {
    hide CountKraft, CountTotal, Pow2;
    ghost var bl0 := blCount[..];
    var overflow: int := overflow0;
    while true
      invariant overflow > 0 && RepairInv(bl0, blCount[..], limit, overflow)
      decreases overflow
    {
      ghost var bl := blCount[..];
      var bits := limit - 1;
      while blCount[bits] == 0
        invariant 0 <= bits < limit && GapAbove(bl, bits, limit) && blCount[..] == bl
        decreases bits
      {
        SomeLeafAbove(bl0, bl, limit, overflow, bits);
        bits := bits - 1;
      }
      SomeLeafAbove(bl0, bl, limit, overflow, bits);
      RepairStep(bl0, bl, limit, overflow, bits);
      blCount[bits] := blCount[bits] - 1;
      blCount[bits + 1] := blCount[bits + 1] + 2;
      blCount[limit] := blCount[limit] - 1;
      assert blCount[..] == MovedUp(bl, bits, limit);
      overflow := overflow - 2;
      if overflow <= 0 {
        break;
      }
    }
  }

  // --- Counting leaves in the visiting order ---

  ghost function LeavesBefore(merges: seq<(nat, nat)>, elems: nat, p: nat): nat
    requires p <= 2 * |merges|
  {
    if p == 0 then 0
    else LeavesBefore(merges, elems, p - 1) + if Son(merges, p - 1) < elems then 1 else 0
  }

  ghost function NumUsed(lens: seq<nat>): nat {
    if lens == [] then 0 else NumUsed(lens[..|lens| - 1]) + if lens[|lens| - 1] > 0 then 1 else 0
  }

  lemma {:induction false} NumUsedBound(lens: seq<nat>)
    ensures NumUsed(lens) <= |lens|
  {
    if lens != [] {
      NumUsedBound(lens[..|lens| - 1]);
    }
  }

  lemma {:induction false} NumUsedAgree(a: seq<nat>, b: seq<nat>)
    requires |a| == |b| && forall i :: 0 <= i < |a| ==> (a[i] > 0 <==> b[i] > 0)
    ensures NumUsed(a) == NumUsed(b)
  {
    if a != [] {
      NumUsedAgree(a[..|a| - 1], b[..|b| - 1]);
    }
  }

  lemma {:induction false} NumUsedSet(lens: seq<nat>, x: nat, v: nat)
    requires x < |lens| && lens[x] == 0 && v > 0
    ensures NumUsed(lens[x := v]) == NumUsed(lens) + 1
  {
    var k := |lens| - 1;
    if x == k {
      assert lens[x := v][..k] == lens[..k];
    } else {
      assert lens[x := v][..k] == lens[..k][x := v];
      NumUsedSet(lens[..k], x, v);
    }
  }

  ghost function Marks(merges: seq<(nat, nat)>, elems: nat, p: nat): seq<nat>
    requires p <= 2 * |merges|
  {
    seq(elems, x => if x in Visited(merges, p) then 1 else 0)
  }

  lemma {:induction false} MarksCount(leaves: set<nat>, elems: nat, merges: seq<(nat, nat)>, p: nat)
    requires Complete(leaves, elems, merges) && p <= 2 * |merges|
    ensures NumUsed(Marks(merges, elems, p)) == LeavesBefore(merges, elems, p)
  {
    hide Complete, Son;
    if p == 0 {
      ZeroUsed(Marks(merges, elems, 0));
    } else {
      MarksCount(leaves, elems, merges, p - 1);
      var x := Son(merges, p - 1);
      NotYetVisited(leaves, elems, merges, p - 1);
      var m := Marks(merges, elems, p - 1);
      if x < elems {
        NumUsedSet(m, x, 1);
        assert Marks(merges, elems, p) == m[x := 1];
      } else {
        assert Marks(merges, elems, p) == m;
      }
    }
  }

  lemma {:induction false} ZeroUsed(lens: seq<nat>)
    requires forall i :: 0 <= i < |lens| ==> lens[i] == 0
    ensures NumUsed(lens) == 0
  {
    if lens != [] {
      ZeroUsed(lens[..|lens| - 1]);
    }
  }

  ghost function CountUpTo(lens: seq<nat>, b: nat): nat {
    if b == 0 then 0 else CountUpTo(lens, b - 1) + Count(lens, b)
  }

  lemma {:induction false} CountUpToLast(lens: seq<nat>, b: nat)
    requires lens != []
    ensures CountUpTo(lens, b) == CountUpTo(lens[..|lens| - 1], b) + if 0 < lens[|lens| - 1] <= b then 1 else 0
  {
    if b > 0 {
      CountUpToLast(lens, b - 1);
    }
  }

  lemma {:induction false} CountUpToEmpty(b: nat)
    ensures CountUpTo([], b) == 0
  {
    if b > 0 {
      CountUpToEmpty(b - 1);
    }
  }

  lemma {:induction false} UsedIsCount(lens: seq<nat>, limit: nat)
    requires BoundedLens(lens, limit)
    ensures CountUpTo(lens, limit) == NumUsed(lens)
  {
    if lens == [] {
      CountUpToEmpty(limit);
    } else {
      CountUpToLast(lens, limit);
      UsedIsCount(lens[..|lens| - 1], limit);
    }
  }

  lemma {:induction false} TotalIsCount(bl: seq<nat>, lens: seq<nat>, b: nat)
    requires CountsOk(bl, lens) && b <= MAX_BITS
    ensures CountTotal(bl, b) == CountUpTo(lens, b)
  {
    if b > 0 {
      TotalIsCount(bl, lens, b - 1);
    }
  }

  /** bl_count counts every leaf once. */
  lemma {:induction false} TotalIsLeaves(bl: seq<nat>, lens: seq<nat>, now: seq<CtData>, leaves: set<nat>, elems: nat,
                                         merges: seq<(nat, nat)>, limit: nat)
    requires Complete(leaves, elems, merges) && CountsOk(bl, lens) && limit <= MAX_BITS
    requires LeafLens(lens, now, leaves, elems, limit)
    ensures CountTotal(bl, limit) == LeavesBefore(merges, elems, 2 * |merges|) <= elems
  {
    TotalIsCount(bl, lens, limit);
    UsedIsCount(lens, limit);
    NumUsedBound(lens);
    var marks := Marks(merges, elems, 2 * |merges|);
    forall x | 0 <= x < elems
      ensures lens[x] > 0 <==> marks[x] > 0
    {
      if x in leaves {
        LeavesVisited(leaves, elems, merges, x);
      } else if x in Visited(merges, 2 * |merges|) {
        var q := VisitedAt(merges, 2 * |merges|, x);
        NotYetVisited(leaves, elems, merges, q);
      }
    }
    NumUsedAgree(lens, marks);
    MarksCount(leaves, elems, merges, 2 * |merges|);
  }
}
