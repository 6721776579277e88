/** Run-length coding of code lengths, section 3.2.7 of RFC 1951: scan_tree counts the symbols that
    send_tree will emit, and the decoder gets the lengths back. */
module TreeRle {
  import opened Bits
  import opened Options
  import opened CanonicalCode
  import opened Inflate
  import opened Tokens
  import W = BitWriter

  const GUARD: nat := 0xffff

  predicate OpOk(op: RleOp) {
    match op
    case Len(len) => len <= 15
    case Again(n) => 3 <= n <= 6
    case Zeros(n) => 3 <= n <= 10
    case ManyZeros(n) => 11 <= n <= 138
  }

  function Sym(op: RleOp): (s: nat)
    ensures OpOk(op) ==> s <= 18
  {
    match op
    case Len(len) => len
    case Again(_) => 16
    case Zeros(_) => 17
    case ManyZeros(_) => 18
  }

  function ExtraWidth(s: nat): (n: nat)
    ensures n <= 7
  {
    if s == 16 then 2 else if s == 17 then 3 else if s == 18 then 7 else 0
  }

  function ExtraValue(op: RleOp): (v: nat)
    requires OpOk(op)
  {
    match op
    case Len(_) => 0
    case Again(n) => n - 3
    case Zeros(n) => n - 3
    case ManyZeros(n) => n - 11
  }

  ghost predicate OpsOk(ops: seq<RleOp>) {
    forall i :: 0 <= i < |ops| ==> OpOk(ops[i])
  }

  // --- What the symbols mean ---

  function ApplyOps(acc: seq<nat>, ops: seq<RleOp>): Option<seq<nat>> {
    if ops == [] then Some(acc)
    else
      match ApplyOps(acc, ops[..|ops| - 1])
      case None => None
      case Some(a) => ApplyOp(a, ops[|ops| - 1])
  }

  lemma {:induction false} ApplyConcat(acc: seq<nat>, p: seq<RleOp>, q: seq<RleOp>)
    requires ApplyOps(acc, p).Some?
    ensures ApplyOps(acc, p + q) == ApplyOps(ApplyOps(acc, p).value, q)
  {
    if q == [] {
      assert p + q == p;
    } else {
      var k := |q| - 1;
      assert (p + q)[..|p + q| - 1] == p + q[..k];
      ApplyConcat(acc, p, q[..k]);
    }
  }

  // --- The symbols chosen by the encoder ---

  function NextLen(lens: seq<nat>, n: nat): nat {
    if n < |lens| then lens[n] else GUARD
  }

  /** Longest run to collect and shortest run to code as a repetition, for a run of cur after prev. */
  function MaxCount(prev: int, cur: nat): nat {
    if cur == 0 then 138 else if prev == cur then 6 else 7
  }

  function MinCount(prev: int, cur: nat): nat {
    if cur == 0 || prev == cur then 3 else 4
  }

  /** The symbols for a run of count times cur. */
  function EmitRun(cur: nat, prev: int, count: nat): (ops: seq<RleOp>) {
    if count < MinCount(prev, cur) then Repeat(Len(cur), count)
    else if cur != 0 then
      if cur != prev then [Len(cur), Again(count - 1)] else [Again(count)]
    else if count <= 10 then [Zeros(count)]
    else [ManyZeros(count)]
  }

  /** The symbols from element n on, when count equal elements before n are still pending. */
  function RleFrom(lens: seq<nat>, n: nat, prev: int, count: nat): (ops: seq<RleOp>)
    requires n <= |lens|
    decreases |lens| - n
  {
    if n == |lens| then []
    else if count + 1 < MaxCount(prev, lens[n]) && lens[n] == NextLen(lens, n + 1)
    then RleFrom(lens, n + 1, prev, count + 1)
    else EmitRun(lens[n], prev, count + 1) + RleFrom(lens, n + 1, lens[n], 0)
  }

  function Rle(lens: seq<nat>): (ops: seq<RleOp>) {
    RleFrom(lens, 0, -1, 0)
  }

  /** A run is pending: count equal elements before n, preceded by prev. */
  ghost predicate Pending(lens: seq<nat>, n: nat, prev: int, count: nat) {
    && count <= n <= |lens|
    && (n == |lens| ==> count == 0)
    && (n < |lens| ==> count < MaxCount(prev, lens[n]))
    && (n < |lens| ==> forall k :: n - count <= k < n ==> lens[k] == lens[n])
    && (if n == count then prev == -1 else prev == lens[n - count - 1])
  }

  lemma {:induction false} PendingStep(lens: seq<nat>, n: nat, prev: int, count: nat)
    requires BoundedLens(lens, 15) && Pending(lens, n, prev, count) && n < |lens|
    ensures count + 1 < MaxCount(prev, lens[n]) && lens[n] == NextLen(lens, n + 1) ==>
              Pending(lens, n + 1, prev, count + 1)
    ensures Pending(lens, n + 1, lens[n], 0)
  {
  }

  lemma {:induction false} RunOk(cur: nat, prev: int, count: nat)
    requires cur <= 15 && 1 <= count <= MaxCount(prev, cur)
    ensures OpsOk(EmitRun(cur, prev, count))
    ensures |EmitRun(cur, prev, count)| <= count
  {
  }

  lemma {:induction false} RepeatLens(acc: seq<nat>, cur: nat, count: nat)
    ensures ApplyOps(acc, Repeat(Len(cur), count)) == Some(acc + Repeat(cur, count))
  {
    if count == 0 {
      assert acc + Repeat(cur, 0) == acc;
    } else {
      RepeatLens(acc, cur, count - 1);
      assert Repeat(Len(cur), count)[..count - 1] == Repeat(Len(cur), count - 1);
      assert (acc + Repeat(cur, count - 1)) + [cur] == acc + Repeat(cur, count);
    }
  }

  /** A run's symbols stand for the run. */
  lemma {:induction false} RunExpands(acc: seq<nat>, cur: nat, prev: int, count: nat)
    requires 1 <= count
    requires prev == cur ==> acc != [] && acc[|acc| - 1] == cur
    ensures ApplyOps(acc, EmitRun(cur, prev, count)) == Some(acc + Repeat(cur, count))
  {
    if count < MinCount(prev, cur) {
      RepeatLens(acc, cur, count);
    } else if cur != 0 && cur != prev {
      var ops := [Len(cur), Again(count - 1)];
      assert ops[..1] == [Len(cur)] && [Len(cur)][..0] == [];
      assert ApplyOps(acc, [Len(cur)]) == Some(acc + [cur]);
      assert (acc + [cur]) + Repeat(cur, count - 1) == acc + Repeat(cur, count);
    } else {
      var ops := EmitRun(cur, prev, count);
      assert ops[..0] == [];
    }
  }

  lemma {:induction false} PendingRunExpands(pre: seq<nat>, lens: seq<nat>, n: nat, prev: int, count: nat)
    requires BoundedLens(lens, 15) && Pending(lens, n, prev, count) && n < |lens|
    ensures ApplyOps(pre + lens[..n - count], EmitRun(lens[n], prev, count + 1)) == Some(pre + lens[..n + 1])
    ensures OpsOk(EmitRun(lens[n], prev, count + 1)) && |EmitRun(lens[n], prev, count + 1)| <= count + 1
  {
    hide EmitRun, ApplyOps, MaxCount;
    RunOk(lens[n], prev, count + 1);
    var acc := pre + lens[..n - count];
    RunExpands(acc, lens[n], prev, count + 1);
    assert acc + Repeat(lens[n], count + 1) == pre + lens[..n + 1];
  }

  /** The symbols of the pending run and of everything after it stand for the lengths. */
  lemma {:induction false} RleFromExpands(pre: seq<nat>, lens: seq<nat>, n: nat, prev: int, count: nat)
    requires BoundedLens(lens, 15) && Pending(lens, n, prev, count)
    ensures ApplyOps(pre + lens[..n - count], RleFrom(lens, n, prev, count)) == Some(pre + lens)
    ensures OpsOk(RleFrom(lens, n, prev, count))
    ensures |RleFrom(lens, n, prev, count)| <= |lens| - n + count
    decreases |lens| - n
  {
    hide EmitRun, MaxCount, NextLen;
    if n == |lens| {
      assert lens[..n] == lens;
    } else {
      hide Pending, ApplyOps;
      PendingStep(lens, n, prev, count);
      if count + 1 < MaxCount(prev, lens[n]) && lens[n] == NextLen(lens, n + 1) {
        RleFromExpands(pre, lens, n + 1, prev, count + 1);
      } else {
        RleFromExpands(pre, lens, n + 1, lens[n], 0);
        PendingRunExpands(pre, lens, n, prev, count);
        ApplyConcat(pre + lens[..n - count], EmitRun(lens[n], prev, count + 1), RleFrom(lens, n + 1, lens[n], 0));
      }
    }
  }

  /** Run-length coding is undone by the decoder's rules, whatever lengths precede. */
  lemma {:induction false} RleExpands(pre: seq<nat>, lens: seq<nat>)
    requires BoundedLens(lens, 15)
    ensures ApplyOps(pre, Rle(lens)) == Some(pre + lens)
    ensures OpsOk(Rle(lens)) && |Rle(lens)| <= |lens|
  {
    assert pre + lens[..0] == pre;
    RleFromExpands(pre, lens, 0, -1, 0);
  }

  // --- Their bits ---

  ghost predicate CoversOps(cl: seq<nat>, ops: seq<RleOp>) {
    |cl| == 19 && OpsOk(ops) && forall i :: 0 <= i < |ops| ==> cl[Sym(ops[i])] > 0
  }

  ghost function OpBits(cl: seq<nat>, op: RleOp): (w: Bitstring)
    requires |cl| == 19 && OpOk(op)
    ensures |w| == cl[Sym(op)] + ExtraWidth(Sym(op))
  {
    CodeWord(cl, Sym(op)) + ToBits(ExtraValue(op), ExtraWidth(Sym(op)))
  }

  ghost function OpsBits(cl: seq<nat>, ops: seq<RleOp>): (w: Bitstring)
    requires |cl| == 19 && OpsOk(ops)
  {
    if ops == [] then [] else OpsBits(cl, ops[..|ops| - 1]) + OpBits(cl, ops[|ops| - 1])
  }

  lemma {:induction false} OpDecodes(b: Bitstring, pos: nat, cl: seq<nat>, op: RleOp)
    requires |cl| == 19 && OpOk(op) && cl[Sym(op)] > 0 && Prefixable(cl, MAX_BITS)
    requires At(b, pos, OpBits(cl, op))
    ensures DecodeOp(b, pos, cl) == Some((pos + |OpBits(cl, op)|, op))
  {
    hide CodeWord, Prefixable, FindSymbol, At;
    Pow2Values();
    var s := Sym(op);
    AtSplit(b, pos, CodeWord(cl, s), ToBits(ExtraValue(op), ExtraWidth(s)));
    CodeWordDecodes(cl, MAX_BITS, b, pos, s);
    ReadField(b, pos + cl[s], ExtraValue(op), ExtraWidth(s));
  }

  /** Decoding the symbols' bits applies the symbols, as long as more lengths are wanted. */
  lemma {:induction false} OpsDecode(b: Bitstring, pos: nat, acc: seq<nat>, total: nat, cl: seq<nat>, ops: seq<RleOp>)
    requires CoversOps(cl, ops) && Prefixable(cl, MAX_BITS)
    requires ApplyOps(acc, ops).Some? && |ApplyOps(acc, ops).value| <= total
    requires At(b, pos, OpsBits(cl, ops))
    ensures InflateLens(b, pos, acc, total, cl)
         == InflateLens(b, pos + |OpsBits(cl, ops)|, ApplyOps(acc, ops).value, total, cl)
  {
    hide Prefixable, At, OpBits, DecodeOp;
    if ops != [] {
      var init, op := ops[..|ops| - 1], ops[|ops| - 1];
      AtSplit(b, pos, OpsBits(cl, init), OpBits(cl, op));
      OpsDecode(b, pos, acc, total, cl, init);
      OpDecodes(b, pos + |OpsBits(cl, init)|, cl, op);
    }
  }

  // --- scan_tree: counting the symbols ---

  /** Number of symbols s among the operations. */
  function Tally(ops: seq<RleOp>, s: nat): nat {
    if ops == [] then 0
    else Tally(ops[..|ops| - 1], s) + if Sym(ops[|ops| - 1]) == s then 1 else 0
  }

  lemma {:induction false} TallyConcat(p: seq<RleOp>, q: seq<RleOp>, s: nat)
    ensures Tally(p + q, s) == Tally(p, s) + Tally(q, s)
  {
    if q == [] {
      assert p + q == p;
    } else {
      var k := |q| - 1;
      assert (p + q)[..|p + q| - 1] == p + q[..k];
      TallyConcat(p, q[..k], s);
    }
  }

  lemma {:induction false} TallyRepeat(op: RleOp, n: nat, s: nat)
    ensures Tally(Repeat(op, n), s) == if Sym(op) == s then n else 0
  {
    if n > 0 {
      assert Repeat(op, n)[..n - 1] == Repeat(op, n - 1);
      TallyRepeat(op, n - 1, s);
    }
  }

  /** The frequencies of now are those of was, increased by the number of symbols. */
  ghost predicate Tallied(was: seq<CtData>, now: seq<CtData>, ops: seq<RleOp>) {
    && |now| == |was|
    && forall s :: 0 <= s < |was| ==> now[s] == CtData(was[s].fc + Tally(ops, s), was[s].dl)
  }

  lemma {:induction false} TalliedMore(was: seq<CtData>, now: seq<CtData>, ops: seq<RleOp>, op: RleOp, n: nat)
    requires Tallied(was, now, ops) && Sym(op) < |was|
    ensures Tallied(was, now[Sym(op) := now[Sym(op)].(fc := now[Sym(op)].fc + n)], ops + Repeat(op, n))
  {
    hide Repeat, Tally;
    forall s: nat | s < |was|
      ensures Tally(ops + Repeat(op, n), s) == Tally(ops, s) + if Sym(op) == s then n else 0
    {
      TallyConcat(ops, Repeat(op, n), s);
      TallyRepeat(op, n, s);
    }
  }

  /** Adds n to the frequency of symbol s. */
  method Bump(blTree: array<CtData>, s: nat, n: nat, ghost op: RleOp, ghost was: seq<CtData>, ghost ops: seq<RleOp>)
    requires Tallied(was, blTree[..], ops) && s == Sym(op) < blTree.Length
    modifies blTree
    ensures Tallied(was, blTree[..], ops + Repeat(op, n))
  {
    TalliedMore(was, blTree[..], ops, op, n);
    ghost var now := blTree[..];
    blTree[s] := blTree[s].(fc := blTree[s].fc + n);
    assert blTree[..] == now[s := now[s].(fc := now[s].fc + n)];
  }

  /** Counts the symbols of one run. */
  method TallyRun(blTree: array<CtData>, cur: nat, prev: int, count: nat, minCount: nat,
                  ghost was: seq<CtData>, ghost ops: seq<RleOp>)
    requires blTree.Length >= 19 && cur <= 15
    requires minCount == MinCount(prev, cur)
    requires Tallied(was, blTree[..], ops)
    modifies blTree
    ensures Tallied(was, blTree[..], ops + EmitRun(cur, prev, count))
  {
    hide Tallied;
    if count < minCount {
      Bump(blTree, cur, count, Len(cur), was, ops);
    } else if cur != 0 {
      if cur != prev {
        Bump(blTree, cur, 1, Len(cur), was, ops);
        Bump(blTree, 16, 1, Again(count - 1), was, ops + Repeat(Len(cur), 1));
        assert (ops + Repeat(Len(cur), 1)) + Repeat(Again(count - 1), 1) == ops + [Len(cur), Again(count - 1)];
      } else {
        Bump(blTree, 16, 1, Again(count), was, ops);
        assert Repeat(Again(count), 1) == [Again(count)];
      }
    } else if count <= 10 {
      Bump(blTree, 17, 1, Zeros(count), was, ops);
      assert Repeat(Zeros(count), 1) == [Zeros(count)];
    } else {
      Bump(blTree, 18, 1, ManyZeros(count), was, ops);
      assert Repeat(ManyZeros(count), 1) == [ManyZeros(count)];
    }
  }

  /** One step of the shared loop of scan_tree and send_tree, on the list of symbols. */
  lemma {:induction false} RleStep(lens: seq<nat>, n: nat, prev: int, count: nat, ops: seq<RleOp>)
    requires BoundedLens(lens, 15) && Pending(lens, n, prev, count) && n < |lens|
    requires ops + RleFrom(lens, n, prev, count) == Rle(lens)
    ensures lens[n] <= 15
    ensures var more := count + 1 < MaxCount(prev, lens[n]) && lens[n] == NextLen(lens, n + 1);
      var ops' := if more then ops else ops + EmitRun(lens[n], prev, count + 1);
      var prev', count' := if more then prev else lens[n], if more then count + 1 else 0;
      && Pending(lens, n + 1, prev', count')
      && ops' + RleFrom(lens, n + 1, prev', count') == Rle(lens)
  {
    hide EmitRun, MaxCount, NextLen, Rle, Pending;
    PendingStep(lens, n, prev, count);
    Assoc(ops, EmitRun(lens[n], prev, count + 1), RleFrom(lens, n + 1, lens[n], 0));
  }

  /** Adds to the frequencies of the bit length tree the symbols that will code this tree's lengths, and
      puts a guard after the last length. */
  method ScanTree(tree: array<CtData>, maxCode: nat, blTree: array<CtData>)
    requires maxCode + 1 < tree.Length && tree != blTree && blTree.Length >= 19
    requires BoundedLens(Lens(tree[..maxCode + 1]), 15)
    modifies tree, blTree
    ensures tree[..] == old(tree[..])[maxCode + 1 := old(tree[maxCode + 1]).(dl := GUARD)]
    ensures Tallied(old(blTree[..]), blTree[..], Rle(old(Lens(tree[..maxCode + 1]))))
  {
    hide Tallied, EmitRun, RleFrom, Pending;
    ghost var lens, was := Lens(tree[..maxCode + 1]), blTree[..];
    ghost var ops: seq<RleOp> := [];
    var prevlen: int, nextlen, count, maxCount, minCount := -1, tree[0].dl, 0, 7, 4;
    if nextlen == 0 {
      maxCount, minCount := 138, 3;
    }
    ghost var guarded := tree[..][maxCode + 1 := tree[maxCode + 1].(dl := GUARD)];
    tree[maxCode + 1] := tree[maxCode + 1].(dl := GUARD);
    assert tree[..] == guarded;
    ScanStart(lens, was);
    for n := 0 to maxCode + 1
      modifies blTree
      invariant tree[..] == guarded
      invariant nextlen == NextLen(lens, n) && (prevlen == -1 || 0 <= prevlen <= 15)
      invariant maxCount == MaxCount(prevlen, nextlen) && minCount == MinCount(prevlen, nextlen)
      invariant Pending(lens, n, prevlen, count)
      invariant ops + RleFrom(lens, n, prevlen, count) == Rle(lens)
      invariant Tallied(was, blTree[..], ops)
    {
      var curlen := nextlen;
      nextlen := tree[n + 1].dl;
      assert tree[n + 1] == guarded[n + 1];
      RleStep(lens, n, prevlen, count, ops);
      count := count + 1;
      if count < maxCount && curlen == nextlen {
        continue;
      }
      TallyRun(blTree, curlen, prevlen, count, minCount, was, ops);
      ops := ops + EmitRun(curlen, prevlen, count);
      count := 0;
      prevlen := curlen;
      maxCount, minCount := 7, 4;
      if nextlen == 0 {
        maxCount, minCount := 138, 3;
      } else if curlen == nextlen {
        maxCount, minCount := 6, 3;
      }
    }
    ScanEnd(lens, prevlen, count, ops);
  }

  lemma {:induction false} ScanStart(lens: seq<nat>, was: seq<CtData>)
    ensures Pending(lens, 0, -1, 0)
    ensures [] + RleFrom(lens, 0, -1, 0) == Rle(lens)
    ensures Tallied(was, was, [])
  {
  }

  lemma {:induction false} ScanEnd(lens: seq<nat>, prev: int, count: nat, ops: seq<RleOp>)
    requires ops + RleFrom(lens, |lens|, prev, count) == Rle(lens)
    ensures ops == Rle(lens)
  {
  }

  // --- send_tree: emitting the symbols ---

  method SendOp(w: W.Writer, blTree: array<CtData>, op: RleOp, ghost cl: seq<nat>)
    requires w.Valid() && CodedAs(blTree[..], cl) && Prefixable(cl, MAX_BITS) && blTree.Length >= 19
    requires |cl| == 19 && OpOk(op) && cl[Sym(op)] > 0
    modifies w, w.outbuf
    ensures w.Valid()
    ensures w.Stream() == old(w.Stream()) + OpBits(cl, op)
  {
    hide CodeWord, Prefixable, CodedAs;
    Pow2Values();
    ghost var before := w.Stream();
    w.SendCode(blTree, Sym(op), cl);
    if ExtraWidth(Sym(op)) != 0 {
      w.SendBits(ExtraValue(op), ExtraWidth(Sym(op)));
    }
    Assoc(before, CodeWord(cl, Sym(op)), ToBits(ExtraValue(op), ExtraWidth(Sym(op))));
  }

  lemma {:induction false} OpsBitsOne(cl: seq<nat>, ops: seq<RleOp>, op: RleOp)
    requires |cl| == 19 && OpsOk(ops) && OpOk(op)
    ensures OpsOk(ops + [op])
    ensures OpsBits(cl, ops + [op]) == OpsBits(cl, ops) + OpBits(cl, op)
  {
    assert (ops + [op])[..|ops|] == ops;
  }

  lemma {:induction false} OpsBitsConcat(cl: seq<nat>, p: seq<RleOp>, q: seq<RleOp>)
    requires |cl| == 19 && OpsOk(p) && OpsOk(q)
    ensures OpsOk(p + q) && OpsBits(cl, p + q) == OpsBits(cl, p) + OpsBits(cl, q)
  {
    hide OpBits, OpOk;
    if q == [] {
      assert p + q == p;
    } else {
      var k := |q| - 1;
      var r, op := q[..k], q[k];
      assert q == r + [op] && p + q == (p + r) + [op];
      OpsBitsConcat(cl, p, r);
      OpsBitsOne(cl, p + r, op);
      OpsBitsOne(cl, r, op);
      Assoc(OpsBits(cl, p), OpsBits(cl, r), OpBits(cl, op));
    }
  }

  lemma {:induction false} CoversParts(cl: seq<nat>, p: seq<RleOp>, q: seq<RleOp>, r: seq<RleOp>)
    requires CoversOps(cl, p + q + r)
    ensures CoversOps(cl, p) && CoversOps(cl, q) && CoversOps(cl, r)
  {
    var all := p + q + r;
    assert forall i :: 0 <= i < |p| ==> p[i] == all[i];
    assert forall i :: 0 <= i < |q| ==> q[i] == all[|p| + i];
    assert forall i :: 0 <= i < |r| ==> r[i] == all[|p| + |q| + i];
  }

  /** Emits the same length count times. */
  method SendRepeated(w: W.Writer, blTree: array<CtData>, cur: nat, repeats: nat, ghost cl: seq<nat>)
    requires w.Valid() && CodedAs(blTree[..], cl) && Prefixable(cl, MAX_BITS) && blTree.Length >= 19
    requires |cl| == 19 && cur <= 15 && cl[cur] > 0
    modifies w, w.outbuf
    ensures w.Valid()
    ensures OpsOk(Repeat(Len(cur), repeats))
    ensures w.Stream() == old(w.Stream()) + OpsBits(cl, Repeat(Len(cur), repeats))
  {
    hide Prefixable, CodedAs, OpBits, W.Writer.Stream, W.Writer.Valid;
    ghost var before := w.Stream();
    var count := repeats;
    ghost var done := 0;
    while count > 0
      invariant w.Valid() && CodedAs(blTree[..], cl)
      invariant done + count == repeats
      invariant w.Stream() == before + OpsBits(cl, Repeat(Len(cur), done))
    {
      assert Repeat(Len(cur), done) + [Len(cur)] == Repeat(Len(cur), done + 1);
      OpsBitsOne(cl, Repeat(Len(cur), done), Len(cur));
      Assoc(before, OpsBits(cl, Repeat(Len(cur), done)), OpBits(cl, Len(cur)));
      SendOp(w, blTree, Len(cur), cl);
      count := count - 1;
      done := done + 1;
    }
  }

  lemma {:induction false} OneOp(cl: seq<nat>, op: RleOp)
    requires |cl| == 19 && OpOk(op)
    ensures OpsBits(cl, [op]) == OpBits(cl, op)
  {
    assert [op][..0] == [];
  }

  lemma {:induction false} TwoOps(cl: seq<nat>, op: RleOp, op': RleOp, before: Bitstring)
    requires |cl| == 19 && OpOk(op) && OpOk(op')
    ensures OpsOk([op, op'])
    ensures before + OpsBits(cl, [op, op']) == (before + OpBits(cl, op)) + OpBits(cl, op')
  {
    hide OpBits;
    OneOp(cl, op);
    assert [op, op'][..1] == [op];
    Assoc(before, OpBits(cl, op), OpBits(cl, op'));
  }

  /** Emits the symbols of one run. */
  method SendRun(w: W.Writer, blTree: array<CtData>, cur: nat, prev: int, runLength: nat, minCount: nat,
                 ghost cl: seq<nat>)
    requires w.Valid() && CodedAs(blTree[..], cl) && Prefixable(cl, MAX_BITS) && blTree.Length >= 19
    requires cur <= 15 && 1 <= runLength && minCount == MinCount(prev, cur)
    requires CoversOps(cl, EmitRun(cur, prev, runLength))
    modifies w, w.outbuf
    ensures w.Valid()
    ensures w.Stream() == old(w.Stream()) + OpsBits(cl, EmitRun(cur, prev, runLength))
  {
    hide Prefixable, CodedAs, OpBits, OpsBits, W.Writer.Stream, W.Writer.Valid;
    ghost var run := EmitRun(cur, prev, runLength);
    assert run[0] in run && OpOk(run[0]) && cl[Sym(run[0])] > 0;
    ghost var before := w.Stream();
    var count := runLength;
    if count < minCount {
      SendRepeated(w, blTree, cur, count, cl);
    } else if cur != 0 {
      if cur != prev {
        assert OpOk(run[1]) && cl[Sym(run[1])] > 0;
        TwoOps(cl, run[0], run[1], before);
        SendOp(w, blTree, Len(cur), cl);
        count := count - 1;
        SendOp(w, blTree, Again(count), cl);
      } else {
        OneOp(cl, run[0]);
        SendOp(w, blTree, Again(count), cl);
      }
    } else {
      OneOp(cl, run[0]);
      if count <= 10 {
        SendOp(w, blTree, Zeros(count), cl);
      } else {
        SendOp(w, blTree, ManyZeros(count), cl);
      }
    }
  }

  /** Emits a tree's code lengths: the bits of exactly the symbols that scan_tree counted. */
  method SendTree(w: W.Writer, tree: array<CtData>, maxCode: nat, blTree: array<CtData>, ghost cl: seq<nat>)
    requires w.Valid() && CodedAs(blTree[..], cl) && Prefixable(cl, MAX_BITS) && blTree.Length >= 19
    requires maxCode + 1 < tree.Length && tree[maxCode + 1].dl == GUARD
    requires BoundedLens(Lens(tree[..maxCode + 1]), 15)
    requires CoversOps(cl, Rle(Lens(tree[..maxCode + 1])))
    modifies w, w.outbuf
    ensures w.Valid()
    ensures w.Stream() == old(w.Stream()) + OpsBits(cl, Rle(Lens(tree[..maxCode + 1])))
  {
    hide EmitRun, RleFrom, Pending, CodedAs, CoversOps, OpsBits, Prefixable, W.Writer.Stream, W.Writer.Valid,
      BoundedLens, Rle, Lens;
    ghost var t, lens := tree[..], Lens(tree[..maxCode + 1]);
    assert forall i :: 0 <= i <= maxCode + 1 ==> t[i].dl == NextLen(lens, i);
    SendStart(lens, cl);
    ghost var target := w.Stream() + OpsBits(cl, Rle(lens));
    var prevlen: int, nextlen, count, maxCount, minCount := -1, tree[0].dl, 0, 7, 4;
    if nextlen == 0 {
      maxCount, minCount := 138, 3;
    }
    for n := 0 to maxCode + 1
      invariant w.Valid() && CodedAs(blTree[..], cl) && tree[..] == t
      invariant nextlen == NextLen(lens, n) && (prevlen == -1 || 0 <= prevlen <= 15)
      invariant maxCount == MaxCount(prevlen, nextlen) && minCount == MinCount(prevlen, nextlen)
      invariant Sending(lens, n, prevlen, count, cl, w.Stream(), target)
    {
      var curlen := nextlen;
      nextlen := tree[n + 1].dl;
      assert tree[n + 1] == t[n + 1];
      SendStep(lens, n, prevlen, count, cl, w.Stream(), target);
      count := count + 1;
      if count < maxCount && curlen == nextlen {
        continue;
      }
      SendRun(w, blTree, curlen, prevlen, count, minCount, cl);
      count := 0;
      prevlen := curlen;
      if nextlen == 0 {
        maxCount, minCount := 138, 3;
      } else if curlen == nextlen {
        maxCount, minCount := 6, 3;
      } else {
        maxCount, minCount := 7, 4;
      }
    }
    SendEnd(lens, prevlen, count, cl, w.Stream(), target);
  }

  /** What is left to send completes the stream to the target. */
  ghost predicate Sending(lens: seq<nat>, n: nat, prev: int, count: nat, cl: seq<nat>, stream: Bitstring,
                          target: Bitstring) {
    && Pending(lens, n, prev, count)
    && CoversOps(cl, RleFrom(lens, n, prev, count))
    && stream + OpsBits(cl, RleFrom(lens, n, prev, count)) == target
  }

  lemma {:induction false} SendStart(lens: seq<nat>, cl: seq<nat>)
    requires CoversOps(cl, Rle(lens))
    ensures |cl| == 19 && OpsOk(Rle(lens))
    ensures forall s: Bitstring :: Sending(lens, 0, -1, 0, cl, s, s + OpsBits(cl, Rle(lens)))
  {
  }

  lemma {:induction false} SendStep(lens: seq<nat>, n: nat, prev: int, count: nat, cl: seq<nat>, stream: Bitstring,
                                    target: Bitstring)
    requires BoundedLens(lens, 15) && n < |lens|
    requires Sending(lens, n, prev, count, cl, stream, target)
    ensures lens[n] <= 15
    ensures if count + 1 < MaxCount(prev, lens[n]) && lens[n] == NextLen(lens, n + 1)
      then Sending(lens, n + 1, prev, count + 1, cl, stream, target)
      else
        var run := EmitRun(lens[n], prev, count + 1);
        && CoversOps(cl, run)
        && Sending(lens, n + 1, lens[n], 0, cl, stream + OpsBits(cl, run), target)
  {
    hide EmitRun, Pending, OpsBits, CoversOps, MaxCount, NextLen;
    PendingStep(lens, n, prev, count);
    if !(count + 1 < MaxCount(prev, lens[n]) && lens[n] == NextLen(lens, n + 1)) {
      var run, rest := EmitRun(lens[n], prev, count + 1), RleFrom(lens, n + 1, lens[n], 0);
      assert run + rest + [] == run + rest;
      CoversParts(cl, run, rest, []);
      CoversOk(cl, run);
      CoversOk(cl, rest);
      OpsBitsConcat(cl, run, rest);
      Assoc(stream, OpsBits(cl, run), OpsBits(cl, rest));
    }
  }

  lemma {:induction false} CoversOk(cl: seq<nat>, ops: seq<RleOp>)
    requires CoversOps(cl, ops)
    ensures |cl| == 19 && OpsOk(ops)
  {
  }

  lemma {:induction false} SendEnd(lens: seq<nat>, prev: int, count: nat, cl: seq<nat>, stream: Bitstring,
                                   target: Bitstring)
    requires Sending(lens, |lens|, prev, count, cl, stream, target)
    ensures stream == target
  {
  }
}
