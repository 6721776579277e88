/** Reachability in a library's call graph: symbol lookup by binary search, and the bounded breadth-first
    search over relative calls and jumps. */
module CallGraph {
  import opened Bits
  import opened Options
  import opened LittleEndian

  datatype Symbol = Symbol(addr: nat, size: nat, name: string)
  datatype Text = Text(vaddr: nat, bytes: seq<byte>)

  // --- Symbol lookup ---

  predicate Contains(s: Symbol, addr: nat) {
    s.addr <= addr < s.addr + s.size
  }

  /** The binary search between lo and hi, both inclusive in the source; hi is exclusive here. */
  function Search(syms: seq<Symbol>, lo: nat, hi: nat, addr: nat): Option<nat>
    requires lo <= hi <= |syms|
    decreases hi - lo
  {
    if lo == hi then None
    else
      var mid := (lo + hi - 1) / 2;
      if addr < syms[mid].addr then Search(syms, lo, mid, addr)
      else if addr >= syms[mid].addr + syms[mid].size then Search(syms, mid + 1, hi, addr)
      else Some(mid)
  }

  /** The fallback: the nearest symbol not above the address, if it contains it. */
  function Nearest(syms: seq<Symbol>, n: nat, addr: nat): Option<nat>
    requires n <= |syms|
  {
    if n == 0 then None
    else if Contains(syms[n - 1], addr) then Some(n - 1)
    else if syms[n - 1].addr < addr then None
    else Nearest(syms, n - 1, addr)
  }

  function FindSymbol(syms: seq<Symbol>, addr: nat): Option<nat> {
    var r := Search(syms, 0, |syms|, addr);
    if r.Some? then r else Nearest(syms, |syms|, addr)
  }

  ghost predicate Sorted(syms: seq<Symbol>) {
    forall i, j :: 0 <= i < j < |syms| ==> syms[i].addr < syms[j].addr
  }

  ghost predicate NoOverlap(syms: seq<Symbol>) {
    forall i, j :: 0 <= i < j < |syms| ==> syms[i].addr + syms[i].size <= syms[j].addr
  }

  lemma {:induction false} SearchSound(syms: seq<Symbol>, lo: nat, hi: nat, addr: nat)
    requires lo <= hi <= |syms|
    ensures Search(syms, lo, hi, addr).Some? ==>
      lo <= Search(syms, lo, hi, addr).value < hi && Contains(syms[Search(syms, lo, hi, addr).value], addr)
    decreases hi - lo
  {
    if lo < hi {
      var mid := (lo + hi - 1) / 2;
      if addr < syms[mid].addr {
        SearchSound(syms, lo, mid, addr);
      } else if addr >= syms[mid].addr + syms[mid].size {
        SearchSound(syms, mid + 1, hi, addr);
      }
    }
  }

  lemma {:induction false} NearestSound(syms: seq<Symbol>, n: nat, addr: nat)
    requires n <= |syms|
    ensures Nearest(syms, n, addr).Some? ==>
      Nearest(syms, n, addr).value < n && Contains(syms[Nearest(syms, n, addr).value], addr)
  {
    if n > 0 {
      NearestSound(syms, n - 1, addr);
    }
  }

  /** A symbol that is found contains the address. */
  lemma {:induction false} FindSound(syms: seq<Symbol>, addr: nat)
    ensures FindSymbol(syms, addr).Some? ==>
      FindSymbol(syms, addr).value < |syms| && Contains(syms[FindSymbol(syms, addr).value], addr)
  {
    SearchSound(syms, 0, |syms|, addr);
    NearestSound(syms, |syms|, addr);
  }

  /** The last symbol not above the address. */
  ghost predicate Last(syms: seq<Symbol>, i: nat, addr: nat) {
    i < |syms| && syms[i].addr <= addr && forall j :: i < j < |syms| ==> syms[j].addr > addr
  }

  /** The symbols that a binary search between lo and hi looks at on its way to symbol i. */
  function Path(lo: nat, hi: nat, i: nat): (r: seq<nat>)
    requires lo <= i < hi
    ensures (forall t :: 0 <= t < |r| ==> r[t] < hi) && |r| > 0 && r[|r| - 1] == i
    decreases hi - lo
  {
    var mid := (lo + hi - 1) / 2;
    if i < mid then [mid] + Path(lo, mid, i)
    else if mid < i then [mid] + Path(mid + 1, hi, i)
    else [mid]
  }

  predicate Indices(syms: seq<Symbol>, path: seq<nat>) {
    forall t :: 0 <= t < |path| ==> path[t] < |syms|
  }

  /** The first symbol along the path that contains the address. */
  function FirstOn(syms: seq<Symbol>, path: seq<nat>, addr: nat): (r: Option<nat>)
    requires Indices(syms, path)
    ensures r.Some? <==> exists t :: 0 <= t < |path| && Contains(syms[path[t]], addr)
  {
    if path == [] then None
    else if Contains(syms[path[0]], addr) then Some(path[0])
    else
      var r := FirstOn(syms, path[1..], addr);
      assert forall t :: 0 < t < |path| ==> path[t] == path[1..][t - 1];
      r
  }

  lemma {:induction false} FirstOnNext(syms: seq<Symbol>, x: nat, path: seq<nat>, addr: nat)
    requires x < |syms| && Indices(syms, path)
    ensures Indices(syms, [x] + path)
    ensures FirstOn(syms, [x] + path, addr) == if Contains(syms[x], addr) then Some(x) else FirstOn(syms, path, addr)
  {
    assert ([x] + path)[1..] == path;
  }

  lemma {:induction false} SearchAbove(syms: seq<Symbol>, lo: nat, hi: nat, addr: nat)
    requires lo <= hi <= |syms| && forall j :: lo <= j < hi ==> syms[j].addr > addr
    ensures Search(syms, lo, hi, addr) == None
    decreases hi - lo
  {
    if lo < hi {
      SearchAbove(syms, lo, (lo + hi - 1) / 2, addr);
    }
  }

  lemma {:induction false} SearchPath(syms: seq<Symbol>, lo: nat, hi: nat, i: nat, addr: nat)
    requires Sorted(syms) && lo <= i < hi <= |syms| && Last(syms, i, addr)
    ensures Search(syms, lo, hi, addr) == FirstOn(syms, Path(lo, hi, i), addr)
    decreases hi - lo
  {
    hide FirstOn;
    var mid := (lo + hi - 1) / 2;
    if i < mid {
      SearchPath(syms, lo, mid, i, addr);
      FirstOnNext(syms, mid, Path(lo, mid, i), addr);
    } else if mid < i {
      SearchPath(syms, mid + 1, hi, i, addr);
      FirstOnNext(syms, mid, Path(mid + 1, hi, i), addr);
    } else {
      SearchAbove(syms, mid + 1, hi, addr);
      FirstOnNext(syms, mid, [], addr);
      assert [mid] + [] == [mid];
    }
  }

  /** The fallback looks at the last symbol not above the address, and at the one before it only if that one starts
      at the address. */
  lemma {:induction false} NearestLast(syms: seq<Symbol>, n: nat, i: nat, addr: nat)
    requires Sorted(syms) && i < n <= |syms| && Last(syms, i, addr)
    ensures Nearest(syms, n, addr) ==
      if Contains(syms[i], addr) then Some(i)
      else if syms[i].addr == addr && i > 0 && Contains(syms[i - 1], addr) then Some(i - 1)
      else None
  {
    if n - 1 > i {
      NearestLast(syms, n - 1, i, addr);
    }
  }

  lemma {:induction false} NearestAbove(syms: seq<Symbol>, n: nat, addr: nat)
    requires n <= |syms| && forall j :: 0 <= j < n ==> syms[j].addr > addr
    ensures Nearest(syms, n, addr) == None
  {
    if n > 0 {
      NearestAbove(syms, n - 1, addr);
    }
  }

  /** Which symbol a sorted table gives, sizes overlapping or not: the first on the path to the last symbol not
      above the address that contains it; the fallback helps only behind a symbol of no size. */
  lemma {:induction false} FindWhich(syms: seq<Symbol>, i: nat, addr: nat)
    requires Sorted(syms) && Last(syms, i, addr)
    ensures FindSymbol(syms, addr) ==
      var r := FirstOn(syms, Path(0, |syms|, i), addr);
      if r.Some? then r
      else if syms[i].size == 0 && syms[i].addr == addr && i > 0 && Contains(syms[i - 1], addr) then Some(i - 1)
      else None
    ensures Contains(syms[i], addr) ==> FindSymbol(syms, addr).Some?
  {
    SearchPath(syms, 0, |syms|, i, addr);
    NearestLast(syms, |syms|, i, addr);
  }

  /** Below all symbols there is nothing to find. */
  lemma {:induction false} FindNone(syms: seq<Symbol>, addr: nat)
    requires forall j :: 0 <= j < |syms| ==> syms[j].addr > addr
    ensures FindSymbol(syms, addr) == None
  {
    SearchAbove(syms, 0, |syms|, addr);
    NearestAbove(syms, |syms|, addr);
  }

  /** An address inside a symbol that the lookup misses: two short symbols lie between them on the path. */
  lemma {:induction false} FindMisses()
    ensures var syms := [Symbol(1, 100, "outer"), Symbol(10, 5, "first"), Symbol(20, 5, "second")];
            Sorted(syms) && Contains(syms[0], 50) && FindSymbol(syms, 50) == None
  {
    var syms := [Symbol(1, 100, "outer"), Symbol(10, 5, "first"), Symbol(20, 5, "second")];
    assert Search(syms, 3, 3, 50) == None;
    assert Search(syms, 2, 3, 50) == None;
    assert Search(syms, 0, 3, 50) == None;
  }

  /** In a sorted table without overlaps the lookup is exact. */
  lemma {:induction false} FindExact(syms: seq<Symbol>, i: nat, addr: nat)
    requires Sorted(syms) && NoOverlap(syms) && i < |syms| && Contains(syms[i], addr)
    ensures FindSymbol(syms, addr) == Some(i)
  {
    FindWhich(syms, i, addr);
    FindSound(syms, addr);
  }

  /** find_sym_at_addr. */
  method FindSymAtAddr(syms: seq<Symbol>, addr: nat) returns (r: Option<nat>)
    ensures r == FindSymbol(syms, addr)
  {
    var lo: int, hi: int := 0, |syms| - 1;
    while lo <= hi
      invariant 0 <= lo <= hi + 1 <= |syms|
      invariant Search(syms, lo, hi + 1, addr) == Search(syms, 0, |syms|, addr)
      decreases hi - lo
    {
      var mid := (lo + hi) / 2;
      if addr < syms[mid].addr {
        hi := mid - 1;
      } else if addr >= syms[mid].addr + syms[mid].size {
        lo := mid + 1;
      } else {
        return Some(mid);
      }
    }
    var i := |syms| - 1;
    while i >= 0
      invariant -1 <= i < |syms| && Nearest(syms, i + 1, addr) == Nearest(syms, |syms|, addr)
      decreases i
    {
      if syms[i].addr <= addr && addr < syms[i].addr + syms[i].size {
        return Some(i);
      }
      if syms[i].addr < addr {
        break;
      }
      i := i - 1;
    }
    return None;
  }

  // --- Bytes of functions ---

  /** get_bytes_at: the bytes from an address on, up to len of them, of the first section that has it. */
  function BytesAt(texts: seq<Text>, addr: nat, len: nat): Option<seq<byte>> {
    if texts == [] then None
    else
      var t := texts[0];
      if t.vaddr <= addr < t.vaddr + |t.bytes| then
        var off := addr - t.vaddr;
        var avail := if |t.bytes| - off > len then len else |t.bytes| - off;
        Some(t.bytes[off..off + avail])
      else BytesAt(texts[1..], addr, len)
  }

  /** Offsets of the two-byte system call instruction. */
  predicate SyscallAt(bytes: seq<byte>, j: nat) {
    j + 1 < |bytes| && bytes[j] == 0x0f && bytes[j + 1] == 0x05
  }

  /** What a scan of all sections would return. */
  ghost predicate InFullScan(texts: seq<Text>, site: nat) {
    exists i, j :: 0 <= i < |texts| && 0 <= j && SyscallAt(texts[i].bytes, j) && site == texts[i].vaddr + j
  }

  lemma {:induction false} SiteInScan(texts: seq<Text>, addr: nat, len: nat, j: nat)
    requires BytesAt(texts, addr, len).Some? && SyscallAt(BytesAt(texts, addr, len).value, j)
    ensures InFullScan(texts, addr + j)
  {
    var t := texts[0];
    if t.vaddr <= addr < t.vaddr + |t.bytes| {
      var off := addr - t.vaddr;
      assert SyscallAt(t.bytes, off + j);
      assert texts[0].vaddr + (off + j) == addr + j;
    } else {
      SiteInScan(texts[1..], addr, len, j);
      var i, k :| 0 <= i < |texts[1..]| && 0 <= k && SyscallAt(texts[1..][i].bytes, k)
        && addr + j == texts[1..][i].vaddr + k;
      assert texts[1..][i] == texts[i + 1];
    }
  }

  // --- Edges ---

  /** A 32-bit displacement. */
  function Displacement(b: seq<byte>): int
    requires |b| == 4
  {
    var x := FromLe(b);
    if x < 0x8000_0000 then x else x - TWO32
  }

  /** The target of the call or jump at offset j of a function at addr. */
  function Target(addr: nat, bytes: seq<byte>, j: nat): nat
    requires j + 5 <= |bytes|
  {
    (addr + j + 5 + Displacement(bytes[j + 1..j + 5])) % TWO64
  }

  predicate IsCall(bytes: seq<byte>, j: nat) {
    j + 5 <= |bytes| && (bytes[j] == 0xE8 || bytes[j] == 0xE9)
  }

  datatype Library = Library(syms: seq<Symbol>, texts: seq<Text>)

  function Body(lib: Library, i: nat): Option<seq<byte>>
    requires i < |lib.syms|
  {
    BytesAt(lib.texts, lib.syms[i].addr, lib.syms[i].size)
  }

  /** Symbol i calls or jumps to symbol k. */
  ghost predicate Edge(lib: Library, i: nat, k: nat) {
    && i < |lib.syms| && Body(lib, i).Some?
    && exists j: nat :: EdgeAt(lib, i, Body(lib, i).value, j, k)
  }

  ghost predicate EdgeAt(lib: Library, i: nat, bytes: seq<byte>, j: nat, k: nat) {
    i < |lib.syms| && IsCall(bytes, j) && FindSymbol(lib.syms, Target(lib.syms[i].addr, bytes, j)) == Some(k)
  }

  /** Symbol n is within k edges of a seed. */
  ghost predicate Within(lib: Library, seeds: set<nat>, n: nat, k: nat)
    decreases k
  {
    n in seeds || (k > 0 && exists m: nat :: Within(lib, seeds, m, k - 1) && Edge(lib, m, n))
  }
}
