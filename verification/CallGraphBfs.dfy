/** trace_libc_callgraph: the search itself, with its queue, marks and depth counter. */
module CallGraphBfs {
  import opened Bits
  import opened Options
  import opened CallGraph

  /** The queue holds distinct symbols, those that are marked, each within its level of a seed. */
  ghost predicate QueueOk(lib: Library, seeds: set<nat>, q: seq<nat>, marks: seq<bool>, level: seq<nat>) {
    && |marks| == |lib.syms| && |level| == |q|
    && (forall t :: 0 <= t < |q| ==> q[t] < |lib.syms|)
    && (forall i :: 0 <= i < |marks| ==> (marks[i] <==> i in q))
    && (forall s, t :: 0 <= s < t < |q| ==> q[s] != q[t])
    && (forall t :: 0 <= t < |q| ==> Within(lib, seeds, q[t], level[t]))
  }

  /** Symbol k is queued at a level of at most lev. */
  ghost predicate Queued(q: seq<nat>, level: seq<nat>, k: nat, lev: nat) {
    |level| == |q| && exists u :: 0 <= u < |q| && q[u] == k && level[u] <= lev
  }

  /** All symbols that the first head queued ones lead to are queued, one level down at most. */
  ghost predicate Expanded(lib: Library, q: seq<nat>, level: seq<nat>, head: nat) {
    |level| == |q| && head <= |q| && forall h :: 0 <= h < head ==> Followed(lib, q, level, h)
  }

  ghost predicate Followed(lib: Library, q: seq<nat>, level: seq<nat>, h: nat)
    requires h < |q| == |level|
  {
    forall k: nat :: Edge(lib, q[h], k) ==> Queued(q, level, k, level[h] + 1)
  }

  ghost predicate SeedsQueued(seeds: set<nat>, q: seq<nat>, level: seq<nat>) {
    forall s :: s in seeds ==> Queued(q, level, s, 0)
  }

  /** Levels along the queue: those before the boundary are done or at the current depth. */
  ghost predicate Levels(level: seq<nat>, head: nat, boundary: nat, depth: nat) {
    && head <= |level| && boundary <= |level|
    && (forall t :: 0 <= t < boundary ==> level[t] <= depth)
    && (forall t :: head <= t < boundary ==> level[t] == depth)
    && (forall t :: boundary <= t < |level| ==> level[t] == depth + 1)
  }

  // --- Adding to the queue ---

  lemma {:induction false} QueueMore(lib: Library, seeds: set<nat>, q: seq<nat>, marks: seq<bool>, level: seq<nat>,
                                     k: nat, lev: nat)
    requires QueueOk(lib, seeds, q, marks, level) && k < |marks| && !marks[k] && Within(lib, seeds, k, lev)
    ensures QueueOk(lib, seeds, q + [k], marks[k := true], level + [lev])
    ensures Queued(q + [k], level + [lev], k, lev)
  {
    hide Within;
    var q', level' := q + [k], level + [lev];
    assert q'[|q|] == k && level'[|q|] == lev;
  }

  lemma {:induction false} QueuedMore(q: seq<nat>, level: seq<nat>, k: nat, lev: nat, x: nat, l: nat)
    requires Queued(q, level, k, lev)
    ensures Queued(q + [x], level + [l], k, lev)
  {
    var u :| 0 <= u < |q| && q[u] == k && level[u] <= lev;
    assert (q + [x])[u] == k && (level + [l])[u] == level[u];
  }

  lemma {:induction false} ExpandedMore(lib: Library, q: seq<nat>, level: seq<nat>, head: nat, x: nat, l: nat)
    requires Expanded(lib, q, level, head)
    ensures Expanded(lib, q + [x], level + [l], head)
  {
    var q', level' := q + [x], level + [l];
    forall h | 0 <= h < head
      ensures Followed(lib, q', level', h)
    {
      assert Followed(lib, q, level, h);
      forall k: nat | Edge(lib, q'[h], k)
        ensures Queued(q', level', k, level'[h] + 1)
      {
        QueuedMore(q, level, k, level[h] + 1, x, l);
      }
    }
  }

  lemma {:induction false} SeedsMore(seeds: set<nat>, q: seq<nat>, level: seq<nat>, x: nat, l: nat)
    requires SeedsQueued(seeds, q, level)
    ensures SeedsQueued(seeds, q + [x], level + [l])
  {
    forall s | s in seeds
      ensures Queued(q + [x], level + [l], s, 0)
    {
      QueuedMore(q, level, s, 0, x, l);
    }
  }

  lemma {:induction false} LevelsMore(level: seq<nat>, head: nat, boundary: nat, depth: nat)
    requires Levels(level, head, boundary, depth)
    ensures Levels(level + [depth + 1], head, boundary, depth)
  {
  }

  /** A marked symbol is queued; its level is no deeper than one below the current depth. */
  lemma {:induction false} MarkedQueued(lib: Library, seeds: set<nat>, q: seq<nat>, marks: seq<bool>, level: seq<nat>,
                                        head: nat, boundary: nat, depth: nat, k: nat)
    requires QueueOk(lib, seeds, q, marks, level) && Levels(level, head, boundary, depth) && k < |marks| && marks[k]
    ensures Queued(q, level, k, depth + 1)
  {
    hide Within;
    var u :| 0 <= u < |q| && q[u] == k;
  }

  /** Whether the search has been exact so far: while there is room, seeds and successors are all queued. */
  ghost predicate Exact(lib: Library, seeds: set<nat>, q: seq<nat>, level: seq<nat>, head: nat, cap: nat) {
    |q| < cap ==> SeedsQueued(seeds, q, level) && Expanded(lib, q, level, head)
  }

  /** The state of the search between two symbols. */
  ghost predicate State(lib: Library, seeds: set<nat>, q: seq<nat>, marks: seq<bool>, level: seq<nat>, head: nat,
                        boundary: nat, depth: nat, cap: nat) {
    && QueueOk(lib, seeds, q, marks, level) && Levels(level, head, boundary, depth) && |q| <= cap
    && Exact(lib, seeds, q, level, head, cap)
  }

  // --- What the result means ---

  lemma {:induction false} LastEdge(lib: Library, seeds: set<nat>, n: nat, k: nat) returns (m: nat)
    requires Within(lib, seeds, n, k) && n !in seeds
    ensures k > 0 && Within(lib, seeds, m, k - 1) && Edge(lib, m, n)
  {
    m :| Within(lib, seeds, m, k - 1) && Edge(lib, m, n);
  }

  lemma {:induction false} EdgeWithin(lib: Library, seeds: set<nat>, m: nat, n: nat, k: nat)
    requires Within(lib, seeds, m, k) && Edge(lib, m, n)
    ensures Within(lib, seeds, n, k + 1)
  {
  }

  lemma {:induction false} Position(q: seq<nat>, level: seq<nat>, k: nat, lev: nat) returns (u: nat)
    requires Queued(q, level, k, lev)
    ensures u < |q| == |level| && q[u] == k && level[u] <= lev
  {
    u :| 0 <= u < |q| && q[u] == k && level[u] <= lev;
  }

  lemma {:induction false} QueuedAt(q: seq<nat>, level: seq<nat>, u: nat, lev: nat)
    requires u < |q| == |level| && level[u] <= lev
    ensures Queued(q, level, q[u], lev)
  {
  }

  lemma {:induction false} FollowEdge(lib: Library, q: seq<nat>, level: seq<nat>, head: nat, t: nat, n: nat)
    requires Expanded(lib, q, level, head) && t < head && Edge(lib, q[t], n)
    ensures Queued(q, level, n, level[t] + 1)
  {
    hide Edge, Queued;
    assert Followed(lib, q, level, t);
  }

  /** Every symbol within k edges of a seed is queued at level k at most, if all of lesser level were expanded. */
  lemma {:induction false} WithinQueued(lib: Library, seeds: set<nat>, q: seq<nat>, level: seq<nat>, head: nat, n: nat,
                                        k: nat)
    requires SeedsQueued(seeds, q, level) && Expanded(lib, q, level, head) && |level| == |q|
    requires forall t :: 0 <= t < |q| && level[t] < k ==> t < head
    requires Within(lib, seeds, n, k)
    ensures Queued(q, level, n, k)
    decreases k
  {
    hide Within, Edge, Queued, Expanded;
    if n in seeds {
      var u := Position(q, level, n, 0);
      QueuedAt(q, level, u, k);
    } else {
      var m := LastEdge(lib, seeds, n, k);
      WithinQueued(lib, seeds, q, level, head, m, k - 1);
      var t := Position(q, level, m, k - 1);
      FollowEdge(lib, q, level, head, t, n);
      var u := Position(q, level, n, level[t] + 1);
      QueuedAt(q, level, u, k);
    }
  }

  // --- The search ---

  /** Successors of the symbol at queue position h found in the first j bytes of its body are queued. */
  ghost predicate Scanned(lib: Library, q: seq<nat>, level: seq<nat>, i: nat, bytes: seq<byte>, j: nat, lev: nat) {
    forall x: nat, k: nat :: x < j && EdgeAt(lib, i, bytes, x, k) ==> Queued(q, level, k, lev)
  }

  lemma {:induction false} ScannedMore(lib: Library, q: seq<nat>, level: seq<nat>, i: nat, bytes: seq<byte>, j: nat,
                                       lev: nat, x: nat, l: nat)
    requires Scanned(lib, q, level, i, bytes, j, lev)
    ensures Scanned(lib, q + [x], level + [l], i, bytes, j, lev)
  {
    hide EdgeAt, Queued;
    var q', level' := q + [x], level + [l];
    forall y: nat, k: nat | y < j && EdgeAt(lib, i, bytes, y, k)
      ensures Queued(q', level', k, lev)
    {
      QueuedMore(q, level, k, lev, x, l);
    }
  }

  lemma {:induction false} ScannedNext(lib: Library, q: seq<nat>, level: seq<nat>, i: nat, bytes: seq<byte>, j: nat,
                                       lev: nat)
    requires Scanned(lib, q, level, i, bytes, j, lev)
    requires forall k: nat :: EdgeAt(lib, i, bytes, j, k) ==> Queued(q, level, k, lev)
    ensures Scanned(lib, q, level, i, bytes, j + 1, lev)
  {
    hide EdgeAt, Queued;
  }

  lemma {:induction false} ScannedAll(lib: Library, q: seq<nat>, level: seq<nat>, h: nat, bytes: seq<byte>, j: nat)
    requires h < |q| == |level| && q[h] < |lib.syms| && Body(lib, q[h]) == Some(bytes) && j + 4 >= |bytes|
    requires Scanned(lib, q, level, q[h], bytes, j, level[h] + 1)
    ensures Followed(lib, q, level, h)
  {
    hide Queued, Body, FindSymbol, Target;
    forall k: nat | Edge(lib, q[h], k)
      ensures Queued(q, level, k, level[h] + 1)
    {
      var x: nat :| EdgeAt(lib, q[h], bytes, x, k);
      assert IsCall(bytes, x);
    }
  }

  lemma {:induction false} NothingToFollow(lib: Library, q: seq<nat>, level: seq<nat>, h: nat)
    requires h < |q| == |level| && q[h] < |lib.syms|
    requires Body(lib, q[h]).None? || |Body(lib, q[h]).value| < 5
    ensures Followed(lib, q, level, h)
  {
    hide Queued, FindSymbol, Target, Body;
    forall k: nat
      ensures !Edge(lib, q[h], k)
    {
    }
  }

  /** Queues a symbol unless it is marked or the queue is full. */
  method Offer(queue: array<nat>, visited: array<bool>, tail: nat, k: nat, ghost level: seq<nat>, ghost lev: nat)
    returns (tail': nat, ghost level': seq<nat>)
    requires tail <= queue.Length && k < visited.Length
    modifies queue, visited
    ensures tail <= tail' <= queue.Length
    ensures old(visited[k]) || tail == queue.Length ==>
      queue[..tail'] == old(queue[..tail]) && visited[..] == old(visited[..]) && level' == level
    ensures !(old(visited[k]) || tail == queue.Length) ==> queue[..tail'] == old(queue[..tail]) + [k]
    ensures !(old(visited[k]) || tail == queue.Length) ==>
      visited[..] == old(visited[..])[k := true] && level' == level + [lev]
  {
    tail', level' := tail, level;
    if !visited[k] && tail < queue.Length {
      visited[k] := true;
      queue[tail] := k;
      tail' := tail + 1;
      level' := level + [lev];
    }
  }

  ghost predicate ListQueued(list: seq<nat>, n: nat, q: seq<nat>, level: seq<nat>) {
    n <= |list| && forall i :: 0 <= i < n ==> Queued(q, level, list[i], 0)
  }

  ghost function SetOf(list: seq<nat>): set<nat> {
    set i | 0 <= i < |list| :: list[i]
  }

  /** All queued symbols are seeds, at level 0, and while there is room the first n seeds are queued. */
  ghost predicate Seeding(lib: Library, list: seq<nat>, n: nat, q: seq<nat>, marks: seq<bool>, level: seq<nat>,
                          cap: nat) {
    && QueueOk(lib, SetOf(list), q, marks, level) && |q| <= cap
    && (forall t :: 0 <= t < |level| ==> level[t] == 0)
    && (|q| < cap ==> ListQueued(list, n, q, level))
  }

  lemma {:induction false} SeedingStart(lib: Library, list: seq<nat>, marks: seq<bool>, cap: nat)
    requires |marks| == |lib.syms| && forall i :: 0 <= i < |marks| ==> !marks[i]
    ensures Seeding(lib, list, 0, [], marks, [], cap)
  {
  }

  lemma {:induction false} SeedingStep(lib: Library, list: seq<nat>, n: nat, q: seq<nat>, marks: seq<bool>,
                                       level: seq<nat>, cap: nat)
    requires Seeding(lib, list, n, q, marks, level, cap) && n < |list| && list[n] < |lib.syms|
    ensures |marks| == |lib.syms|
    ensures if marks[list[n]] || |q| == cap then Seeding(lib, list, n + 1, q, marks, level, cap)
      else Seeding(lib, list, n + 1, q + [list[n]], marks[list[n] := true], level + [0], cap)
  {
    hide Within, Queued;
    var s := list[n];
    if marks[s] {
      var u :| 0 <= u < |q| && q[u] == s;
      QueuedAt(q, level, u, 0);
    } else if |q| < cap {
      SeedWithin(lib, list, n);
      QueueMore(lib, SetOf(list), q, marks, level, s, 0);
      var q', level' := q + [s], level + [0];
      forall i | 0 <= i < n + 1
        ensures Queued(q', level', list[i], 0)
      {
        if i < n {
          QueuedMore(q, level, list[i], 0, s, 0);
        }
      }
    }
  }

  lemma {:induction false} SeedWithin(lib: Library, list: seq<nat>, n: nat)
    requires n < |list|
    ensures Within(lib, SetOf(list), list[n], 0)
  {
  }

  lemma {:induction false} SeedingDone(lib: Library, list: seq<nat>, q: seq<nat>, marks: seq<bool>, level: seq<nat>,
                                       cap: nat)
    requires Seeding(lib, list, |list|, q, marks, level, cap)
    ensures State(lib, SetOf(list), q, marks, level, 0, |q|, 0, cap)
  {
    hide Within, Queued;
  }

  method SeedAll(lib: Library, list: seq<nat>, queue: array<nat>, visited: array<bool>)
    returns (tail: nat, ghost level: seq<nat>)
    requires visited.Length == |lib.syms| && (forall i :: 0 <= i < |list| ==> list[i] < |lib.syms|)
    requires forall i :: 0 <= i < visited.Length ==> !visited[i]
    modifies queue, visited
    ensures tail <= queue.Length && State(lib, SetOf(list), queue[..tail], visited[..], level, 0, tail, 0, queue.Length)
  {
    hide Seeding, State;
    SeedingStart(lib, list, visited[..], queue.Length);
    tail, level := 0, [];
    for n := 0 to |list|
      invariant tail <= queue.Length && Seeding(lib, list, n, queue[..tail], visited[..], level, queue.Length)
    {
      SeedingStep(lib, list, n, queue[..tail], visited[..], level, queue.Length);
      tail, level := Offer(queue, visited, tail, list[n], level, 0);
    }
    SeedingDone(lib, list, queue[..tail], visited[..], level, queue.Length);
  }

  /** The symbol at position head - 1 is being scanned, up to byte j. */
  ghost predicate Working(lib: Library, seeds: set<nat>, q: seq<nat>, marks: seq<bool>, level: seq<nat>,
                          head: nat, boundary: nat, depth: nat, cap: nat, j: nat)
  {
    && QueueOk(lib, seeds, q, marks, level) && Levels(level, head, boundary, depth) && |q| <= cap
    && 1 <= head <= |q| && level[head - 1] == depth
    && (|q| < cap ==>
          && SeedsQueued(seeds, q, level) && Expanded(lib, q, level, head - 1)
          && (Body(lib, q[head - 1]).Some? ==>
                Scanned(lib, q, level, q[head - 1], Body(lib, q[head - 1]).value, j, depth + 1)))
  }

  /** Taking a symbol off the queue; passing the boundary means one level down. */
  lemma {:induction false} TakeNext(lib: Library, seeds: set<nat>, q: seq<nat>, marks: seq<bool>, level: seq<nat>,
                                    head: nat, boundary: nat, depth: nat, cap: nat)
    requires State(lib, seeds, q, marks, level, head, boundary, depth, cap) && head < |q|
    ensures q[head] < |lib.syms| == |marks|
    ensures if head + 1 > boundary then Working(lib, seeds, q, marks, level, head + 1, |q|, depth + 1, cap, 0)
      else Working(lib, seeds, q, marks, level, head + 1, boundary, depth, cap, 0)
  {
    hide Within, Queued, Edge, Body, SeedsQueued, Expanded;
  }

  lemma {:induction false} WorkDone(lib: Library, seeds: set<nat>, q: seq<nat>, marks: seq<bool>, level: seq<nat>,
                                    head: nat, boundary: nat, depth: nat, cap: nat, j: nat)
    requires Working(lib, seeds, q, marks, level, head, boundary, depth, cap, j)
    requires Body(lib, q[head - 1]).None? || |Body(lib, q[head - 1]).value| < 5
      || j + 4 >= |Body(lib, q[head - 1]).value|
    ensures State(lib, seeds, q, marks, level, head, boundary, depth, cap)
  {
    hide Within, Queued, Edge, Body, Scanned, SeedsQueued;
    if |q| < cap {
      if Body(lib, q[head - 1]).None? || |Body(lib, q[head - 1]).value| < 5 {
        NothingToFollow(lib, q, level, head - 1);
      } else {
        ScannedAll(lib, q, level, head - 1, Body(lib, q[head - 1]).value, j);
      }
      ExpandedOne(lib, q, level, head - 1);
    }
  }

  lemma {:induction false} ExpandedOne(lib: Library, q: seq<nat>, level: seq<nat>, h: nat)
    requires Expanded(lib, q, level, h) && h < |q| && Followed(lib, q, level, h)
    ensures Expanded(lib, q, level, h + 1)
  {
    hide Followed;
  }

  /** What happens at one byte of the body. */
  lemma {:induction false} WorkStep(lib: Library, seeds: set<nat>, q: seq<nat>, marks: seq<bool>, level: seq<nat>,
                                    head: nat, boundary: nat, depth: nat, cap: nat, bytes: seq<byte>, j: nat)
    requires Working(lib, seeds, q, marks, level, head, boundary, depth, cap, j)
    requires Body(lib, q[head - 1]) == Some(bytes) && j + 4 < |bytes|
    ensures |marks| == |lib.syms|
    ensures !IsCall(bytes, j) ==> Working(lib, seeds, q, marks, level, head, boundary, depth, cap, j + 1)
    ensures IsCall(bytes, j) ==>
      var r := FindSymbol(lib.syms, Target(lib.syms[q[head - 1]].addr, bytes, j));
      if r.None? then Working(lib, seeds, q, marks, level, head, boundary, depth, cap, j + 1)
      else
        r.value < |marks|
        && if marks[r.value] || |q| == cap then Working(lib, seeds, q, marks, level, head, boundary, depth, cap, j + 1)
           else Working(lib, seeds, q + [r.value], marks[r.value := true], level + [depth + 1], head, boundary, depth,
               cap, j + 1)
  {
    hide Within, Queued, Scanned, SeedsQueued, Expanded, QueueOk, FindSymbol, Target, Body, Levels;
    var i := q[head - 1];
    QueueSize(lib, seeds, q, marks, level, head - 1);
    if !IsCall(bytes, j) {
      NoEdgeHere(lib, i, bytes, j);
      if |q| < cap {
        ScannedNext(lib, q, level, i, bytes, j, depth + 1);
      }
    } else {
      var r := FindSymbol(lib.syms, Target(lib.syms[i].addr, bytes, j));
      FindSound(lib.syms, Target(lib.syms[i].addr, bytes, j));
      OneEdgeHere(lib, i, bytes, j, r);
      if r.None? {
        if |q| < cap {
          ScannedNext(lib, q, level, i, bytes, j, depth + 1);
        }
      } else if marks[r.value] {
        MarkedQueued(lib, seeds, q, marks, level, head, boundary, depth, r.value);
        if |q| < cap {
          ScannedNext(lib, q, level, i, bytes, j, depth + 1);
        }
      } else if |q| < cap {
        NewSuccessor(lib, seeds, q, marks, level, head, boundary, depth, cap, i, bytes, j, r.value);
      }
    }
  }

  lemma {:induction false} QueueSize(lib: Library, seeds: set<nat>, q: seq<nat>, marks: seq<bool>, level: seq<nat>,
                                     h: nat)
    requires QueueOk(lib, seeds, q, marks, level) && h < |q|
    ensures |marks| == |lib.syms| && |level| == |q| && q[h] < |lib.syms| && Within(lib, seeds, q[h], level[h])
  {
    hide Within;
  }

  lemma {:induction false} NoEdgeHere(lib: Library, i: nat, bytes: seq<byte>, j: nat)
    requires !IsCall(bytes, j)
    ensures forall k: nat :: !EdgeAt(lib, i, bytes, j, k)
  {
  }

  lemma {:induction false} OneEdgeHere(lib: Library, i: nat, bytes: seq<byte>, j: nat, r: Option<nat>)
    requires i < |lib.syms| && IsCall(bytes, j) && r == FindSymbol(lib.syms, Target(lib.syms[i].addr, bytes, j))
    ensures forall k: nat :: EdgeAt(lib, i, bytes, j, k) <==> r == Some(k)
  {
    hide FindSymbol, Target;
  }

  lemma {:induction false} NewSuccessor(lib: Library, seeds: set<nat>, q: seq<nat>, marks: seq<bool>, level: seq<nat>,
                                        head: nat, boundary: nat, depth: nat, cap: nat, i: nat, bytes: seq<byte>,
                                        j: nat, k: nat)
    requires Working(lib, seeds, q, marks, level, head, boundary, depth, cap, j) && i == q[head - 1] && i < |lib.syms|
    requires Body(lib, i) == Some(bytes)
    requires |q| < cap && |marks| == |lib.syms| && k < |marks| && !marks[k] && EdgeAt(lib, i, bytes, j, k)
    requires forall x: nat :: EdgeAt(lib, i, bytes, j, x) ==> x == k
    ensures Working(lib, seeds, q + [k], marks[k := true], level + [depth + 1], head, boundary, depth, cap, j + 1)
  {
    hide Within, Queued, Scanned, SeedsQueued, Expanded, QueueOk, FindSymbol, Target, Body, Levels, EdgeAt;
    var q', level' := q + [k], level + [depth + 1];
    QueueSize(lib, seeds, q, marks, level, head - 1);
    assert Edge(lib, i, k);
    EdgeWithin(lib, seeds, i, k, depth);
    QueueMore(lib, seeds, q, marks, level, k, depth + 1);
    LevelsMore(level, head, boundary, depth);
    SeedsMore(seeds, q, level, k, depth + 1);
    ExpandedMore(lib, q, level, head - 1, k, depth + 1);
    ScannedMore(lib, q, level, i, bytes, j, depth + 1, k, depth + 1);
    ScannedNext(lib, q', level', i, bytes, j, depth + 1);
  }

  /** Scans the body of one symbol for calls and jumps and queues their targets. */
  method ScanBody(lib: Library, queue: array<nat>, visited: array<bool>, tail0: nat, head: nat,
                  ghost seeds: set<nat>, ghost level0: seq<nat>, ghost boundary: nat, ghost depth: nat)
    returns (tail: nat, ghost level: seq<nat>)
    requires visited.Length == |lib.syms| && 1 <= head <= tail0 <= queue.Length
    requires Working(lib, seeds, queue[..tail0], visited[..], level0, head, boundary, depth, queue.Length, 0)
    modifies queue, visited
    ensures tail0 <= tail <= queue.Length
    ensures State(lib, seeds, queue[..tail], visited[..], level, head, boundary, depth, queue.Length)
  {
    hide Working, State, Body, FindSymbol, Target, IsCall;
    tail, level := tail0, level0;
    ghost var q0 := queue[..tail0];
    WorkingPosition(lib, seeds, q0, visited[..], level, head, boundary, depth, queue.Length, 0);
    var i := queue[head - 1];
    assert i == q0[head - 1];
    var body := Body(lib, i);
    if body.None? || |body.value| < 5 {
      WorkDone(lib, seeds, q0, visited[..], level, head, boundary, depth, queue.Length, 0);
      return;
    }
    var bytes, j := body.value, 0;
    while j + 4 < |bytes|
      invariant tail0 <= tail <= queue.Length && j + 4 <= |bytes| && queue[..tail][head - 1] == i
      invariant Working(lib, seeds, queue[..tail], visited[..], level, head, boundary, depth, queue.Length, j)
    {
      ghost var q := queue[..tail];
      WorkStep(lib, seeds, q, visited[..], level, head, boundary, depth, queue.Length, bytes, j);
      CallShape(bytes, j);
      if bytes[j] == 0xE8 || bytes[j] == 0xE9 {
        var target := Target(lib.syms[i].addr, bytes, j);
        var callee := FindSymAtAddr(lib.syms, target);
        if callee.Some? {
          tail, level := Offer(queue, visited, tail, callee.value, level, depth + 1);
        }
      }
      j := j + 1;
    }
    WorkDone(lib, seeds, queue[..tail], visited[..], level, head, boundary, depth, queue.Length, j);
  }

  lemma {:induction false} CallShape(bytes: seq<byte>, j: nat)
    requires j + 4 < |bytes|
    ensures IsCall(bytes, j) <==> bytes[j] == 0xE8 || bytes[j] == 0xE9
  {
  }

  lemma {:induction false} WorkingPosition(lib: Library, seeds: set<nat>, q: seq<nat>, marks: seq<bool>,
                                           level: seq<nat>, head: nat, boundary: nat, depth: nat, cap: nat, j: nat)
    requires Working(lib, seeds, q, marks, level, head, boundary, depth, cap, j)
    ensures 1 <= head <= |q| && q[head - 1] < |lib.syms|
  {
    hide Within;
  }

  ghost predicate Reachable(lib: Library, seeds: set<nat>, n: nat) {
    exists k: nat :: Within(lib, seeds, n, k)
  }

  /** The result of the search. */
  ghost predicate Traced(lib: Library, seeds: set<nat>, q: seq<nat>, cap: nat, limit: nat) {
    && |q| <= cap
    && (forall s, t :: 0 <= s < t < |q| ==> q[s] != q[t])
    && (forall t :: 0 <= t < |q| ==> q[t] < |lib.syms| && Reachable(lib, seeds, q[t]))
    && (|q| < cap ==> forall n: nat :: Within(lib, seeds, n, limit) ==> n in q)
  }

  /** All symbols of lesser level than the limit have been expanded. */
  lemma {:induction false} AllExpanded(level: seq<nat>, head: nat, boundary: nat, depth: nat, limit: nat, t: nat)
    requires Levels(level, head, boundary, depth) && (head == |level| || depth >= limit) && t < |level|
    requires level[t] < limit
    ensures t < head
  {
  }

  lemma {:induction false} TracedWithin(lib: Library, seeds: set<nat>, q: seq<nat>, level: seq<nat>,
                                        head: nat, boundary: nat, depth: nat, limit: nat, n: nat)
    requires SeedsQueued(seeds, q, level) && Expanded(lib, q, level, head) && |level| == |q|
    requires Levels(level, head, boundary, depth) && (head == |q| || depth >= limit)
    requires Within(lib, seeds, n, limit)
    ensures n in q
  {
    hide Within, Queued, SeedsQueued, Expanded, Levels;
    forall t | 0 <= t < |q| && level[t] < limit
      ensures t < head
    {
      AllExpanded(level, head, boundary, depth, limit, t);
    }
    WithinQueued(lib, seeds, q, level, head, n, limit);
    var u := Position(q, level, n, limit);
    assert q[u] in q;
  }

  lemma {:induction false} TracedAll(lib: Library, seeds: set<nat>, q: seq<nat>, marks: seq<bool>, level: seq<nat>,
                                     head: nat, boundary: nat, depth: nat, cap: nat, limit: nat)
    requires State(lib, seeds, q, marks, level, head, boundary, depth, cap) && (head == |q| || depth >= limit)
    ensures Traced(lib, seeds, q, cap, limit)
  {
    hide Within, Queued, SeedsQueued, Expanded, Levels;
    forall t | 0 <= t < |q|
      ensures q[t] < |lib.syms| && Reachable(lib, seeds, q[t])
    {
      assert Within(lib, seeds, q[t], level[t]);
    }
    if |q| < cap {
      forall n: nat | Within(lib, seeds, n, limit)
        ensures n in q
      {
        TracedWithin(lib, seeds, q, level, head, boundary, depth, limit, n);
      }
    }
  }

  /** The search: no symbol is queued twice, only symbols reachable from a seed are, and every symbol within
      the depth limit is, unless the queue ran full. */
  method Search(lib: Library, seeds: seq<nat>, maxReachable: nat, limit: nat) returns (reached: seq<nat>)
    requires forall i :: 0 <= i < |seeds| ==> seeds[i] < |lib.syms|
    ensures Traced(lib, SetOf(seeds), reached, maxReachable, limit)
  {
    hide State, Traced, Working;
    var queue, visited := new nat[maxReachable], new bool[|lib.syms|](_ => false);
    var tail;
    ghost var level;
    tail, level := SeedAll(lib, seeds, queue, visited);
    var head: nat, boundary: nat, depth: nat := 0, tail, 0;
    while head < tail && depth < limit
      invariant head <= tail <= queue.Length && depth <= limit
      invariant State(lib, SetOf(seeds), queue[..tail], visited[..], level, head, boundary, depth, queue.Length)
      decreases queue.Length - head
    {
      TakeNext(lib, SetOf(seeds), queue[..tail], visited[..], level, head, boundary, depth, queue.Length);
      head := head + 1;
      if head > boundary {
        depth := depth + 1;
        boundary := tail;
      }
      tail, level := ScanBody(lib, queue, visited, tail, head, SetOf(seeds), level, boundary, depth);
    }
    TracedAll(lib, SetOf(seeds), queue[..tail], visited[..], level, head, boundary, depth, queue.Length, limit);
    reached := queue[..tail];
  }

  // --- Collecting the sites ---

  ghost predicate SiteAt(lib: Library, reached: seq<nat>, t: nat, j: nat) {
    t < |reached| && reached[t] < |lib.syms| && Body(lib, reached[t]).Some? && SyscallAt(Body(lib, reached[t]).value, j)
  }

  ghost predicate SiteOf(lib: Library, reached: seq<nat>, s: nat) {
    exists t: nat, j: nat :: SiteAt(lib, reached, t, j) && s == lib.syms[reached[t]].addr + j
  }

  /** Sites are sites of reached functions that a full scan finds too; unless capped, those before byte j of
      function i are all there. */
  ghost predicate Collected(lib: Library, reached: seq<nat>, sites: seq<nat>, i: nat, j: nat, cap: nat) {
    && |sites| <= cap && OnlySites(lib, reached, sites)
    && (|sites| < cap ==> AllSites(lib, reached, sites, i, j))
  }

  ghost predicate OnlySites(lib: Library, reached: seq<nat>, sites: seq<nat>) {
    forall s :: s in sites ==> SiteOf(lib, reached, s) && InFullScan(lib.texts, s)
  }

  ghost predicate AllSites(lib: Library, reached: seq<nat>, sites: seq<nat>, i: nat, j: nat) {
    forall t: nat, x: nat :: SiteAt(lib, reached, t, x) && (t < i || (t == i && x < j)) ==>
      lib.syms[reached[t]].addr + x in sites
  }

  lemma {:induction false} SiteIs(lib: Library, reached: seq<nat>, t: nat, j: nat)
    requires SiteAt(lib, reached, t, j)
    ensures SiteOf(lib, reached, lib.syms[reached[t]].addr + j)
  {
    hide Body;
  }

  lemma {:induction false} CollectStep(lib: Library, reached: seq<nat>, sites: seq<nat>, i: nat, j: nat, cap: nat)
    requires Collected(lib, reached, sites, i, j, cap) && |sites| < cap && i < |reached| && reached[i] < |lib.syms|
    requires Body(lib, reached[i]).Some?
    ensures if SyscallAt(Body(lib, reached[i]).value, j)
      then Collected(lib, reached, sites + [lib.syms[reached[i]].addr + j], i, j + 1, cap)
      else Collected(lib, reached, sites, i, j + 1, cap)
  {
    hide Body, InFullScan, SiteOf;
    if SyscallAt(Body(lib, reached[i]).value, j) {
      assert SiteAt(lib, reached, i, j);
      SiteIs(lib, reached, i, j);
      BodySite(lib, reached[i], Body(lib, reached[i]).value, j);
    }
  }

  lemma {:induction false} CollectNext(lib: Library, reached: seq<nat>, sites: seq<nat>, i: nat, j: nat, cap: nat)
    requires Collected(lib, reached, sites, i, j, cap) && i < |reached| && reached[i] < |lib.syms|
    requires |sites| == cap || Body(lib, reached[i]).None? || j + 1 >= |Body(lib, reached[i]).value|
    ensures Collected(lib, reached, sites, i + 1, 0, cap)
  {
    hide Body, OnlySites;
  }

  lemma {:induction false} CollectDone(lib: Library, reached: seq<nat>, sites: seq<nat>, i: nat, cap: nat)
    requires Collected(lib, reached, sites, i, 0, cap) && (i == |reached| || |sites| == cap)
    ensures |sites| < cap ==> forall s :: SiteOf(lib, reached, s) ==> s in sites
  {
    hide OnlySites, Body;
    if |sites| < cap {
      forall s | SiteOf(lib, reached, s)
        ensures s in sites
      {
        var t: nat, j: nat :| SiteAt(lib, reached, t, j) && s == lib.syms[reached[t]].addr + j;
      }
    }
  }

  /** The system call sites of the reached functions: each lies in a reached function's body, and a scan of all
      the text would find it too. Without a cap on their number none is missing. */
  method CollectSites(lib: Library, reached: seq<nat>, maxSites: nat) returns (sites: seq<nat>)
    requires forall t :: 0 <= t < |reached| ==> reached[t] < |lib.syms|
    ensures |sites| <= maxSites
    ensures forall s :: s in sites ==> SiteOf(lib, reached, s) && InFullScan(lib.texts, s)
    ensures |sites| < maxSites ==> forall s :: SiteOf(lib, reached, s) ==> s in sites
  {
    assert Collected(lib, reached, [], 0, 0, maxSites);
    hide Body, InFullScan, SiteOf, SiteAt;
    sites := [];
    var i := 0;
    while i < |reached| && |sites| < maxSites
      invariant i <= |reached| && Collected(lib, reached, sites, i, 0, maxSites)
      decreases |reached| - i
    {
      var k := reached[i];
      var body, j := Body(lib, k), 0;
      if body.Some? {
        var bytes := body.value;
        while j + 1 < |bytes| && |sites| < maxSites
          invariant 0 <= j && Collected(lib, reached, sites, i, j, maxSites)
          decreases |bytes| - j
        {
          CollectStep(lib, reached, sites, i, j, maxSites);
          if bytes[j] == 0x0f && bytes[j + 1] == 0x05 {
            sites := sites + [lib.syms[k].addr + j];
          }
          j := j + 1;
        }
      }
      CollectNext(lib, reached, sites, i, j, maxSites);
      i := i + 1;
    }
    CollectDone(lib, reached, sites, i, maxSites);
  }

  lemma {:induction false} BodySite(lib: Library, k: nat, bytes: seq<byte>, j: nat)
    requires k < |lib.syms| && Body(lib, k) == Some(bytes) && SyscallAt(bytes, j)
    ensures InFullScan(lib.texts, lib.syms[k].addr + j)
  {
    SiteInScan(lib.texts, lib.syms[k].addr, lib.syms[k].size, j);
  }
}
