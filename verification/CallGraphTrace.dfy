/** trace_libc_callgraph as a whole: seeds by name, the search, and the sites of what it reached. */
module CallGraphTrace {
  import opened Options
  import opened CallGraph
  import opened CallGraphBfs

  const MAX_REACHABLE := 4096
  const DEPTH_LIMIT := 24

  /** Names that are searched from whatever is imported. */
  const ESSENTIAL_SEEDS: seq<string> := [
    "__syscall_cancel_arch", "__syscall_cancel", "__internal_syscall_cancel", "__libc_do_syscall",
    "__GI___ioctl", "__ioctl", "ioctl", "__isatty", "isatty", "__isatty_nostatus", "__tcgetattr", "tcgetattr",
    "__GI___fstat64", "__fstat64", "__fxstat64", "fstat", "__fstat",
    "__GI___lseek64", "__lseek64", "lseek64", "lseek", "__brk", "__sbrk", "__mmap", "__munmap",
    "__sigaction", "__rt_sigaction", "__sigprocmask", "_exit", "__GI__exit", "__exit_funcs"
  ]

  // --- Seeds ---

  /** Symbol i is the first one of that name. */
  ghost predicate FirstNamed(syms: seq<Symbol>, name: string, i: nat) {
    i < |syms| && syms[i].name == name && forall j :: 0 <= j < i ==> syms[j].name != name
  }

  /** find_sym_by_name. */
  method FindSymByName(syms: seq<Symbol>, name: string) returns (r: Option<nat>)
    ensures r.None? ==> forall i :: 0 <= i < |syms| ==> syms[i].name != name
    ensures r.Some? ==> FirstNamed(syms, name, r.value)
  {
    for i := 0 to |syms|
      invariant forall j :: 0 <= j < i ==> syms[j].name != name
    {
      if syms[i].name == name {
        return Some(i);
      }
    }
    return None;
  }

  function Base(name: string): string {
    if name != [] && name[0] == '_' then Base(name[1..]) else name
  }

  predicate Occurs(part: string, s: string) {
    exists i :: 0 <= i <= |s| && part <= s[i..]
  }

  /** The name looks like one that the C library gives to an inner variant of the imported function. */
  predicate IsVariant(name: string, imported: string) {
    var base := Base(imported);
    |base| >= 2 && Occurs(base, name) && ("__" <= name || base <= name)
  }

  /** The symbols where the search starts. */
  ghost predicate IsSeed(syms: seq<Symbol>, imports: seq<string>, i: nat) {
    && i < |syms|
    && (NamedSeed(syms, imports, |imports|, i) || NamedSeed(syms, ESSENTIAL_SEEDS, |ESSENTIAL_SEEDS|, i)
        || VariantSeed(syms, imports, |imports|, i))
  }

  ghost predicate NamedSeed(syms: seq<Symbol>, names: seq<string>, n: nat, i: nat)
    requires n <= |names|
  {
    exists k :: 0 <= k < n && FirstNamed(syms, names[k], i)
  }

  ghost predicate VariantSeed(syms: seq<Symbol>, imports: seq<string>, n: nat, i: nat)
    requires n <= |imports|
  {
    i < |syms| && exists k :: 0 <= k < n && IsVariant(syms[i].name, imports[k])
  }

  ghost function SeedSet(syms: seq<Symbol>, imports: seq<string>): set<nat> {
    set i | 0 <= i < |syms| && IsSeed(syms, imports, i)
  }

  method NamedSeeds(syms: seq<Symbol>, names: seq<string>) returns (list: seq<nat>)
    ensures forall i :: i in list <==> NamedSeed(syms, names, |names|, i)
    ensures forall i :: 0 <= i < |list| ==> list[i] < |syms|
  {
    list := [];
    for n := 0 to |names|
      invariant forall i :: i in list <==> NamedSeed(syms, names, n, i)
      invariant forall i :: 0 <= i < |list| ==> list[i] < |syms|
    {
      var r := FindSymByName(syms, names[n]);
      NamedMore(syms, names, n, r);
      if r.Some? {
        list := list + [r.value];
      }
    }
  }

  lemma {:induction false} NamedMore(syms: seq<Symbol>, names: seq<string>, n: nat, r: Option<nat>)
    requires n < |names|
    requires r.None? ==> forall i :: 0 <= i < |syms| ==> syms[i].name != names[n]
    requires r.Some? ==> FirstNamed(syms, names[n], r.value)
    ensures forall i: nat :: NamedSeed(syms, names, n + 1, i) <==> NamedSeed(syms, names, n, i) || r == Some(i)
  {
    forall i: nat
      ensures NamedSeed(syms, names, n + 1, i) <==> NamedSeed(syms, names, n, i) || r == Some(i)
    {
      if NamedSeed(syms, names, n, i) {
        var k :| 0 <= k < n && FirstNamed(syms, names[k], i);
        assert FirstNamed(syms, names[k], i);
      }
    }
  }

  method VariantSeeds(syms: seq<Symbol>, imports: seq<string>) returns (list: seq<nat>)
    ensures forall i :: i in list <==> VariantSeed(syms, imports, |imports|, i)
    ensures forall i :: 0 <= i < |list| ==> list[i] < |syms|
  {
    hide IsVariant;
    list := [];
    for n := 0 to |imports|
      invariant forall i :: i in list <==> VariantSeed(syms, imports, n, i)
      invariant forall i :: 0 <= i < |list| ==> list[i] < |syms|
    {
      ghost var before := list;
      for s := 0 to |syms|
        invariant forall i: nat :: i in list <==> i in before || (i < s && IsVariant(syms[i].name, imports[n]))
        invariant forall i :: 0 <= i < |list| ==> list[i] < |syms|
      {
        if IsVariant(syms[s].name, imports[n]) {
          list := list + [s];
        }
      }
      VariantMore(syms, imports, n);
    }
  }

  lemma {:induction false} VariantMore(syms: seq<Symbol>, imports: seq<string>, n: nat)
    requires n < |imports|
    ensures forall i: nat :: VariantSeed(syms, imports, n + 1, i) <==>
      VariantSeed(syms, imports, n, i) || (i < |syms| && IsVariant(syms[i].name, imports[n]))
  {
    hide IsVariant;
    forall i: nat
      ensures VariantSeed(syms, imports, n + 1, i) <==>
        VariantSeed(syms, imports, n, i) || (i < |syms| && IsVariant(syms[i].name, imports[n]))
    {
      if VariantSeed(syms, imports, n, i) {
        var k :| 0 <= k < n && IsVariant(syms[i].name, imports[k]);
        assert IsVariant(syms[i].name, imports[k]);
      }
    }
  }

  // --- The trace ---

  /** Address s is a system call in the body of symbol n. */
  ghost predicate SiteIn(lib: Library, n: nat, s: nat) {
    && n < |lib.syms| && Body(lib, n).Some? && s >= lib.syms[n].addr
    && SyscallAt(Body(lib, n).value, s - lib.syms[n].addr)
  }

  /** Every site returned is a system call in a function that can be reached from a seed. */
  ghost predicate OnlyReachable(lib: Library, seeds: set<nat>, sites: seq<nat>) {
    forall s :: s in sites ==>
      InFullScan(lib.texts, s) && exists n: nat :: Reachable(lib, seeds, n) && SiteIn(lib, n, s)
  }

  /** Every system call in a function within the depth limit of a seed is returned. */
  ghost predicate NoneMissing(lib: Library, seeds: set<nat>, sites: seq<nat>) {
    forall n: nat, s: nat :: Within(lib, seeds, n, DEPTH_LIMIT) && SiteIn(lib, n, s) ==> s in sites
  }

  lemma {:induction false} SiteReachable(lib: Library, seeds: set<nat>, reached: seq<nat>, s: nat)
    requires Traced(lib, seeds, reached, MAX_REACHABLE, DEPTH_LIMIT) && SiteOf(lib, reached, s)
    ensures exists n: nat :: Reachable(lib, seeds, n) && SiteIn(lib, n, s)
  {
    hide Reachable, Body;
    var t: nat, j: nat :| SiteAt(lib, reached, t, j) && s == lib.syms[reached[t]].addr + j;
    assert SiteIn(lib, reached[t], s);
  }

  lemma {:induction false} SiteReached(lib: Library, reached: seq<nat>, n: nat, s: nat)
    requires n in reached && SiteIn(lib, n, s)
    ensures SiteOf(lib, reached, s)
  {
    hide Body;
    var t :| 0 <= t < |reached| && reached[t] == n;
    assert SiteAt(lib, reached, t, s - lib.syms[n].addr);
  }

  lemma {:induction false} SitesTraced(lib: Library, seeds: set<nat>, reached: seq<nat>, sites: seq<nat>, maxSites: nat)
    requires Traced(lib, seeds, reached, MAX_REACHABLE, DEPTH_LIMIT)
    requires forall s :: s in sites ==> SiteOf(lib, reached, s) && InFullScan(lib.texts, s)
    requires |sites| < maxSites ==> forall s :: SiteOf(lib, reached, s) ==> s in sites
    ensures OnlyReachable(lib, seeds, sites)
    ensures |reached| < MAX_REACHABLE && |sites| < maxSites ==> NoneMissing(lib, seeds, sites)
  {
    hide SiteOf, SiteIn, InFullScan, Within, Reachable;
    forall s | s in sites
      ensures exists n: nat :: Reachable(lib, seeds, n) && SiteIn(lib, n, s)
    {
      SiteReachable(lib, seeds, reached, s);
    }
    if |reached| < MAX_REACHABLE && |sites| < maxSites {
      forall n: nat, s: nat | Within(lib, seeds, n, DEPTH_LIMIT) && SiteIn(lib, n, s)
        ensures s in sites
      {
        SiteReached(lib, reached, n, s);
      }
    }
  }

  /** trace_libc_callgraph: only system calls that can be reached from an import or another seed are returned, and
      unless one of the two caps was met, all of those within the depth limit are. */
  method TraceCallgraph(lib: Library, imports: seq<string>, maxSites: nat) returns (sites: seq<nat>, reachable: nat)
    ensures |sites| <= maxSites && reachable <= MAX_REACHABLE
    ensures OnlyReachable(lib, SeedSet(lib.syms, imports), sites)
    ensures reachable < MAX_REACHABLE && |sites| < maxSites ==> NoneMissing(lib, SeedSet(lib.syms, imports), sites)
  {
    hide SiteOf, SiteIn, InFullScan, Within, Reachable, NamedSeed, VariantSeed, OnlyReachable, NoneMissing;
    if lib.texts == [] {
      NothingWithoutText(lib, SeedSet(lib.syms, imports));
      return [], 0;
    }
    var imported := NamedSeeds(lib.syms, imports);
    var essential := NamedSeeds(lib.syms, ESSENTIAL_SEEDS);
    var variants := VariantSeeds(lib.syms, imports);
    var seeds := imported + essential + variants;
    assert SetOf(seeds) == SeedSet(lib.syms, imports) by {
      SeedsAre(lib.syms, imports, imported, essential, variants);
    }
    var reached := CallGraphBfs.Search(lib, seeds, MAX_REACHABLE, DEPTH_LIMIT);
    sites := CollectSites(lib, reached, maxSites);
    SitesTraced(lib, SeedSet(lib.syms, imports), reached, sites, maxSites);
    reachable := |reached|;
  }

  lemma {:induction false} NothingWithoutText(lib: Library, seeds: set<nat>)
    requires lib.texts == []
    ensures OnlyReachable(lib, seeds, []) && NoneMissing(lib, seeds, [])
  {
    hide Within, Reachable;
  }

  lemma {:induction false} SeedsAre(syms: seq<Symbol>, imports: seq<string>, imported: seq<nat>, essential: seq<nat>,
                                    variants: seq<nat>)
    requires forall i :: i in imported <==> NamedSeed(syms, imports, |imports|, i)
    requires forall i :: i in essential <==> NamedSeed(syms, ESSENTIAL_SEEDS, |ESSENTIAL_SEEDS|, i)
    requires forall i :: i in variants <==> VariantSeed(syms, imports, |imports|, i)
    requires forall i :: i in imported + essential + variants ==> i < |syms|
    ensures SetOf(imported + essential + variants) == SeedSet(syms, imports)
  {
    hide NamedSeed, VariantSeed;
    var list := imported + essential + variants;
    forall i: nat
      ensures i in SetOf(list) <==> i in SeedSet(syms, imports)
    {
      assert i in list <==> i in imported || i in essential || i in variants;
      assert i in SetOf(list) <==> i in list;
    }
  }
}
