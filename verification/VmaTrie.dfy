/** Resolution of addresses to modules: the loader fills a longest-prefix-match trie with 1 MB blocks, and
    the enforcer looks addresses up in it. */
module VmaTrie {
  import opened Bits
  import opened Options
  import opened LittleEndian
  import W = BitWriter

  const BLOCK: nat := 0x10_0000
  const BLOCK_PREFIX: nat := 44
  const BLOCKS: nat := 0x1000_0000_0000

  datatype VmaValue = VmaValue(moduleId: nat, base: nat)

  /** A trie node is identified by the bits of its prefix. */
  type Trie = map<Bitstring, VmaValue>

  /** The first bits of a key's address field, read from memory. */
  function KeyBits(prefixlen: nat, addr: nat): (b: Bitstring)
    requires prefixlen <= 64
    ensures |b| == prefixlen
  {
    BigBits(W.LeBytes(addr, 8))[..prefixlen]
  }

  function Update(t: Trie, prefixlen: nat, addr: nat, v: VmaValue): Trie
    requires prefixlen <= 64
  {
    t[KeyBits(prefixlen, addr) := v]
  }

  /** The value of the longest prefix of at most p bits. */
  function LongestPrefix(t: Trie, bits: Bitstring, p: nat): Option<VmaValue>
    requires p <= |bits|
  {
    if bits[..p] in t then Some(t[bits[..p]]) else if p == 0 then None else LongestPrefix(t, bits, p - 1)
  }

  function Lookup(t: Trie, addr: nat): Option<VmaValue> {
    LongestPrefix(t, KeyBits(64, addr), 64)
  }

  /** How the enforcer resolves an address. */
  function Resolve(t: Trie, a: nat): Option<VmaValue> {
    Lookup(t, Bswap64(a))
  }

  /** All prefixes have the length that the loader uses. */
  ghost predicate Flat(t: Trie) {
    forall k :: k in t ==> |k| == BLOCK_PREFIX
  }

  function BlockKey(b: nat): Bitstring {
    ToBitsMsb(b, BLOCK_PREFIX)
  }

  function Get(t: Trie, b: nat): Option<VmaValue> {
    if BlockKey(b) in t then Some(t[BlockKey(b)]) else None
  }

  lemma {:induction false} ShorterNone(t: Trie, bits: Bitstring, p: nat)
    requires Flat(t) && p <= |bits| && p < BLOCK_PREFIX
    ensures LongestPrefix(t, bits, p) == None
  {
    if p > 0 {
      ShorterNone(t, bits, p - 1);
    }
  }

  lemma {:induction false} LongestAtBlock(t: Trie, bits: Bitstring, p: nat)
    requires Flat(t) && BLOCK_PREFIX <= p <= |bits|
    ensures LongestPrefix(t, bits, p) == if bits[..BLOCK_PREFIX] in t then Some(t[bits[..BLOCK_PREFIX]]) else None
  {
    if p > BLOCK_PREFIX {
      LongestAtBlock(t, bits, p - 1);
    } else {
      ShorterNone(t, bits, p - 1);
    }
  }

  lemma {:induction false} BlockBits(a: nat)
    requires a < TWO64
    ensures KeyBits(BLOCK_PREFIX, Bswap64(a)) == BlockKey(a / BLOCK) && a / BLOCK < BLOCKS
    ensures KeyBits(64, Bswap64(a))[..BLOCK_PREFIX] == BlockKey(a / BLOCK)
  {
    hide ToBitsMsb, Bswap64, BigBits, W.LeBytes, Shr, Pow2;
    SwappedBits(a);
    ToBitsMsbPrefix(a, 44, 20);
    ShrDiv(a, 20);
    BlockPowers();
  }

  lemma {:induction false} BlockPowers()
    ensures Pow2(20) == BLOCK && Pow2(44) == BLOCKS
  {
    hide Pow2;
    Pow2Twenty();
    Pow2TwentyFour();
    Pow2Add(20, 24);
  }

  lemma {:induction false} Pow2Twenty()
    ensures Pow2(20) == 0x10_0000
  {
    Pow2Add(10, 10);
    assert Pow2(10) == 0x400;
  }

  lemma {:induction false} Pow2TwentyFour()
    ensures Pow2(24) == 0x100_0000
  {
    Pow2Add(12, 12);
    assert Pow2(12) == 0x1000;
  }

  /** With the loader's prefixes only, an address resolves by its 1 MB block. */
  lemma {:induction false} ResolveIsGet(t: Trie, a: nat)
    requires Flat(t) && a < TWO64
    ensures Resolve(t, a) == Get(t, a / BLOCK)
  {
    hide KeyBits, Bswap64, ToBitsMsb;
    BlockBits(a);
    LongestAtBlock(t, KeyBits(64, Bswap64(a)), 64);
  }

  lemma {:induction false} KeysApart(b: nat, c: nat)
    requires b < BLOCKS && c < BLOCKS && b != c
    ensures BlockKey(b) != BlockKey(c)
  {
    hide ToBitsMsb;
    BlockPowers();
    if BlockKey(b) == BlockKey(c) {
      ToBitsMsbInjective(b, c, 44);
    }
  }

  // --- The loader ---

  /** The blocks from b up to end belong to the module. */
  function AddBlocks(t: Trie, b: nat, end: nat, v: VmaValue): Trie
    decreases end - b
  {
    if b >= end then t else AddBlocks(t[BlockKey(b) := v], b + 1, end, v)
  }

  lemma {:induction false} AddedBlocks(t: Trie, b: nat, end: nat, v: VmaValue, c: nat)
    requires Flat(t) && c < BLOCKS && end <= BLOCKS
    ensures Flat(AddBlocks(t, b, end, v))
    ensures Get(AddBlocks(t, b, end, v), c) == if b <= c < end then Some(v) else Get(t, c)
    decreases end - b
  {
    hide ToBitsMsb;
    if b < end {
      var t' := t[BlockKey(b) := v];
      AddedBlocks(t', b + 1, end, v, c);
      if c != b {
        KeysApart(b, c);
      }
    }
  }

  datatype Mapping = Mapping(start: nat, end: nat)

  /** Mappings of user space: the last block of the address space is not among them. */
  ghost predicate MappingsOk(maps: seq<Mapping>) {
    forall i :: 0 <= i < |maps| ==> maps[i].start < maps[i].end <= TWO64 - BLOCK
  }

  /** lo and hi enclose all mappings, tightly. */
  ghost predicate Hull(maps: seq<Mapping>, lo: nat, hi: nat) {
    && (forall i :: 0 <= i < |maps| ==> lo <= maps[i].start && maps[i].end <= hi)
    && (exists i :: 0 <= i < |maps| && maps[i].start == lo)
    && (exists i :: 0 <= i < |maps| && maps[i].end == hi)
  }

  function EndBlock(hi: nat): nat {
    (hi + BLOCK - 1) / BLOCK
  }

  method FindHull(maps: seq<Mapping>) returns (lo: nat, hi: nat)
    requires MappingsOk(maps)
    ensures if maps == [] then lo == TWO64 - 1 else Hull(maps, lo, hi) && lo < hi <= TWO64 - BLOCK
  {
    lo, hi := TWO64 - 1, 0;
    for i := 0 to |maps|
      invariant i == 0 ==> lo == TWO64 - 1 && hi == 0
      invariant i > 0 ==> Hull(maps[..i], lo, hi)
      invariant i > 0 ==> lo < hi <= TWO64 - BLOCK
    {
      assert maps[..i + 1] == maps[..i] + [maps[i]];
      ghost var lo0, hi0 := lo, hi;
      if maps[i].start < lo {
        lo := maps[i].start;
      }
      if maps[i].end > hi {
        hi := maps[i].end;
      }
      HullMore(maps[..i], maps[i], lo0, hi0, lo, hi);
    }
    assert maps[..|maps|] == maps;
  }

  lemma {:induction false} HullMore(maps: seq<Mapping>, m: Mapping, lo0: nat, hi0: nat, lo: nat, hi: nat)
    requires (maps == [] && lo0 == TWO64 - 1 && hi0 == 0) || Hull(maps, lo0, hi0)
    requires m.start < m.end <= TWO64 - BLOCK
    requires lo == (if m.start < lo0 then m.start else lo0) && hi == if m.end > hi0 then m.end else hi0
    ensures Hull(maps + [m], lo, hi)
  {
    var maps' := maps + [m];
    assert maps'[|maps|] == m;
    if maps != [] {
      var i :| 0 <= i < |maps| && maps[i].start == lo0;
      var j :| 0 <= j < |maps| && maps[j].end == hi0;
      assert maps'[i].start == lo0 && maps'[j].end == hi0;
    }
  }

  /** populate_vma_for_module, given the mappings whose line names the module. The base recorded is the
      lowest mapped address, unless the caller provides another one, as it does for ld.so. */
  method Populate(t: Trie, maps: seq<Mapping>, moduleId: nat, fixedBase: Option<nat>)
    returns (t': Trie, ok: bool, base: nat, count: nat, ghost lo: nat, ghost hi: nat)
    requires MappingsOk(maps)
    ensures ok == (maps != []) && (!ok ==> t' == t)
    ensures ok ==> Hull(maps, lo, hi) && lo < hi <= TWO64 - BLOCK
    ensures ok ==> base == if fixedBase.Some? then fixedBase.value else lo
    ensures ok ==> t' == AddBlocks(t, lo / BLOCK, EndBlock(hi), VmaValue(moduleId, base))
    ensures ok ==> count == EndBlock(hi) - lo / BLOCK
  {
    hide KeyBits, ToBitsMsb, Hull, MappingsOk;
    var min, max := FindHull(maps);
    lo, hi := min, max;
    t', base, count, ok := t, 0, 0, min != TWO64 - 1;
    if !ok {
      return;
    }
    base := if fixedBase.Some? then fixedBase.value else min;
    ghost var v := VmaValue(moduleId, base);
    var addr := min - min % BLOCK;
    ghost var b := lo / BLOCK;
    while addr < max
      invariant addr == b * BLOCK && lo / BLOCK <= b <= EndBlock(hi) && addr <= TWO64 - BLOCK
      invariant AddBlocks(t', b, EndBlock(hi), v) == AddBlocks(t, lo / BLOCK, EndBlock(hi), v)
      invariant count == b - lo / BLOCK
      decreases EndBlock(hi) - b
    {
      BlockAt(addr, b, hi);
      t' := Update(t', BLOCK_PREFIX, Bswap64(addr), VmaValue(moduleId, base));
      addr := addr + BLOCK;
      count := count + 1;
      b := b + 1;
    }
    LastBlock(b, hi);
  }

  lemma {:induction false} BlockAt(addr: nat, b: nat, hi: nat)
    requires addr == b * BLOCK && addr < hi <= TWO64 - BLOCK
    ensures b < EndBlock(hi) && KeyBits(BLOCK_PREFIX, Bswap64(addr)) == BlockKey(b)
  {
    hide KeyBits, Bswap64, ToBitsMsb;
    BlockBits(addr);
  }

  lemma {:induction false} LastBlock(b: nat, hi: nat)
    requires b * BLOCK >= hi && b <= EndBlock(hi)
    ensures b == EndBlock(hi)
  {
  }

  // --- Several modules ---

  /** A module in memory: its hull and what the trie says about it. */
  datatype Module = Module(lo: nat, hi: nat, value: VmaValue)

  predicate ModuleOk(m: Module) {
    m.lo < m.hi <= TWO64 - BLOCK
  }

  predicate InBlocks(m: Module, b: nat) {
    m.lo / BLOCK <= b < EndBlock(m.hi)
  }

  /** The trie after loading modules one after the other. */
  function LoadAll(t: Trie, ms: seq<Module>): Trie {
    if ms == [] then t
    else
      var m := ms[|ms| - 1];
      AddBlocks(LoadAll(t, ms[..|ms| - 1]), m.lo / BLOCK, EndBlock(m.hi), m.value)
  }

  /** No two modules share a block. */
  ghost predicate BlocksApart(ms: seq<Module>) {
    forall i, j, b :: 0 <= i < j < |ms| && InBlocks(ms[i], b) ==> !InBlocks(ms[j], b)
  }

  lemma {:induction false} EndBlockBound(hi: nat)
    requires hi <= TWO64 - BLOCK
    ensures EndBlock(hi) <= BLOCKS
  {
  }

  /** The module that a block belongs to: of those that have it, the one loaded last. */
  function LastIn(ms: seq<Module>, b: nat): Option<VmaValue> {
    if ms == [] then None
    else if InBlocks(ms[|ms| - 1], b) then Some(ms[|ms| - 1].value)
    else LastIn(ms[..|ms| - 1], b)
  }

  lemma {:induction false} LoadedBlocks(t: Trie, ms: seq<Module>, b: nat)
    requires Flat(t) && (forall i :: 0 <= i < |ms| ==> ModuleOk(ms[i])) && b < BLOCKS
    ensures Flat(LoadAll(t, ms))
    ensures Get(LoadAll(t, ms), b) == if LastIn(ms, b).Some? then LastIn(ms, b) else Get(t, b)
  {
    hide Get, AddBlocks, EndBlock, Flat;
    if ms != [] {
      var k := |ms| - 1;
      var m := ms[k];
      assert forall i :: 0 <= i < k ==> ms[..k][i] == ms[i];
      LoadedBlocks(t, ms[..k], b);
      EndBlockBound(m.hi);
      AddedBlocks(LoadAll(t, ms[..k]), m.lo / BLOCK, EndBlock(m.hi), m.value, b);
    }
  }

  /** Whatever modules are loaded, an address resolves to the last of those that have its block, and to nothing if
      none has. */
  lemma {:induction false} ResolvesToLast(ms: seq<Module>, a: nat)
    requires (forall k :: 0 <= k < |ms| ==> ModuleOk(ms[k])) && a < TWO64
    ensures Resolve(LoadAll(map[], ms), a) == LastIn(ms, a / BLOCK)
  {
    hide Resolve, LoadAll, InBlocks, ToBitsMsb;
    assert a / BLOCK < BLOCKS;
    LoadedBlocks(map[], ms, a / BLOCK);
    ResolveIsGet(LoadAll(map[], ms), a);
  }

  lemma {:induction false} LastOfApart(ms: seq<Module>, i: nat, b: nat)
    requires BlocksApart(ms) && i < |ms| && InBlocks(ms[i], b)
    ensures LastIn(ms, b) == Some(ms[i].value)
  {
    hide InBlocks;
    var k := |ms| - 1;
    if i < k {
      assert forall j :: 0 <= j < k ==> ms[..k][j] == ms[j];
      assert !InBlocks(ms[k], b);
      LastOfApart(ms[..k], i, b);
    }
  }

  lemma {:induction false} LastOfNone(ms: seq<Module>, b: nat)
    ensures LastIn(ms, b).None? <==> forall k :: 0 <= k < |ms| ==> !InBlocks(ms[k], b)
  {
    hide InBlocks;
    if ms != [] {
      var k := |ms| - 1;
      assert forall j :: 0 <= j < k ==> ms[..k][j] == ms[j];
      LastOfNone(ms[..k], b);
    }
  }

  /** Every address of every module's mapped hull resolves to that module. */
  lemma {:induction false} ModulesResolve(ms: seq<Module>, i: nat, a: nat)
    requires (forall k :: 0 <= k < |ms| ==> ModuleOk(ms[k])) && BlocksApart(ms)
    requires i < |ms| && ms[i].lo <= a < ms[i].hi
    ensures Resolve(LoadAll(map[], ms), a) == Some(ms[i].value)
  {
    hide Resolve, LoadAll, BlocksApart, InBlocks;
    assert ModuleOk(ms[i]);
    AddressBlock(ms[i], a);
    LastOfApart(ms, i, a / BLOCK);
    ResolvesToLast(ms, a);
  }

  lemma {:induction false} AddressBlock(m: Module, a: nat)
    requires ModuleOk(m) && m.lo <= a < m.hi
    ensures a < TWO64 && a / BLOCK < BLOCKS && InBlocks(m, a / BLOCK)
  {
  }

  /** Exactly the addresses in no module's blocks resolve to nothing. */
  lemma {:induction false} NothingElseResolves(ms: seq<Module>, a: nat)
    requires (forall k :: 0 <= k < |ms| ==> ModuleOk(ms[k])) && a < TWO64
    ensures Resolve(LoadAll(map[], ms), a) == None <==> forall k :: 0 <= k < |ms| ==> !InBlocks(ms[k], a / BLOCK)
  {
    hide Resolve, LoadAll, InBlocks;
    LastOfNone(ms, a / BLOCK);
    ResolvesToLast(ms, a);
  }
}
