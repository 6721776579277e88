/** The verdict on calls from any address, on the maps that the loader builds for a whole program, and how far it
    depends on where modules lie. */
module LoadedVerdicts {
  import opened Bits
  import opened Options
  import opened LittleEndian
  import opened VmaTrie
  import opened Enforcer

  const MODULE_DYNAMIC_BASE: nat := 3

  // --- What is loaded ---

  /** The main binary: its loads and reloads, and its caller ranges with the load base they are relative to. */
  datatype Main = Main(lo: nat, hi: nat, loads: seq<Load>, ranges: seq<CfiEntry>, loadBase: nat)

  /** libc: sites of known wrappers with their numbers, negative for any, and all sites that the scan found. */
  datatype Libc = Libc(lo: nat, hi: nat, named: seq<Rule>, scanned: seq<nat>)

  /** The dynamic linker: where its sites are counted from, and the sites. */
  datatype Linker = Linker(lo: nat, hi: nat, base: nat, sites: seq<nat>)

  /** Any other library. */
  datatype Library = Library(lo: nat, hi: nat, sites: seq<nat>)

  datatype Plan = Plan(main: Main, libc: Option<Libc>, ld: Option<Linker>, libs: seq<Library>)

  predicate HasLinker(plan: Plan) {
    plan.libc.Some? && plan.ld.Some?
  }

  function LibcModules(plan: Plan): seq<Module> {
    if plan.libc.None? then []
    else [Module(plan.libc.value.lo, plan.libc.value.hi, VmaValue(MODULE_LIBC, plan.libc.value.lo))]
  }

  /** The blocks of the linker lead to libc, with libc's base. */
  function LinkerModules(plan: Plan): seq<Module> {
    if !HasLinker(plan) then []
    else [Module(plan.ld.value.lo, plan.ld.value.hi, VmaValue(MODULE_LIBC, plan.libc.value.lo))]
  }

  function LibraryModules(libs: seq<Library>): seq<Module> {
    seq(|libs|, i requires 0 <= i < |libs| => Module(libs[i].lo, libs[i].hi,
        VmaValue(MODULE_DYNAMIC_BASE + i, libs[i].lo)))
  }

  /** The modules in the order in which their blocks are written. */
  function Modules(plan: Plan): seq<Module> {
    [Module(plan.main.lo, plan.main.hi, VmaValue(MODULE_MAIN, plan.main.lo))]
    + LibcModules(plan) + LinkerModules(plan) + LibraryModules(plan.libs)
  }

  // --- Policies ---

  /** Sites as keys. */
  function SiteKeys(sites: seq<nat>): (ks: seq<nat>)
    ensures |ks| == |sites| && forall i :: 0 <= i < |ks| ==> ks[i] == U64(sites[i])
  {
    seq(|sites|, i requires 0 <= i < |sites| => U64(sites[i]))
  }

  /** Sites that may make any call. */
  function AnyNumber(sites: seq<nat>): seq<Rule> {
    seq(|sites|, i requires 0 <= i < |sites| => Rule(sites[i], -1))
  }

  function LinkerKeys(plan: Plan): seq<nat> {
    if HasLinker(plan) then LdKeys(plan.ld.value.sites, plan.ld.value.base, plan.libc.value.lo) else []
  }

  function LibcPolicy(plan: Plan, libc: Libc): Policy {
    WriteMissing(WriteMissing(WriteRules(map[], libc.named, 0), SiteKeys(libc.scanned)), LinkerKeys(plan))
  }

  /** The policy of a module, if it has one. */
  function PolicyOf(plan: Plan, id: nat): Option<Policy> {
    if id == MODULE_MAIN then Some(AfterReloads(plan.main.loads))
    else if id == MODULE_LIBC then (if plan.libc.Some? then Some(LibcPolicy(plan, plan.libc.value)) else None)
    else if MODULE_DYNAMIC_BASE <= id < MODULE_DYNAMIC_BASE + |plan.libs|
      then Some(WriteRules(map[], AnyNumber(plan.libs[id - MODULE_DYNAMIC_BASE].sites), 0))
    else None
  }

  /** The policies of all modules, written one after the other. */
  method BuildRegistry(plan: Plan) returns (registry: map<nat, Policy>)
    ensures RegistryOk(registry, plan)
  {
    hide WriteRules, WriteMissing, AfterReloads;
    var p := map[];
    NoLoads();
    assert plan.main.loads[..0] == [];
    for i := 0 to |plan.main.loads|
      invariant p == AfterReloads(plan.main.loads[..i])
    {
      var loaded;
      ReloadStep(plan.main.loads, i);
      p, loaded := LoadRules(p, plan.main.loads[i].rules, plan.main.loads[i].base);
    }
    assert plan.main.loads[..|plan.main.loads|] == plan.main.loads;
    registry := map[MODULE_MAIN := p];
    if plan.libc.Some? {
      var n;
      p, n := LoadRules(map[], plan.libc.value.named, 0);
      p, n := AddMissing(p, SiteKeys(plan.libc.value.scanned));
      p, n := AddMissing(p, LinkerKeys(plan));
      registry := registry[MODULE_LIBC := p];
    }
    for i := 0 to |plan.libs|
      invariant RegistryUpTo(registry, plan, i)
    {
      var n;
      p, n := LoadRules(map[], AnyNumber(plan.libs[i].sites), 0);
      registry := registry[MODULE_DYNAMIC_BASE + i := p];
    }
  }

  ghost predicate RegistryUpTo(registry: map<nat, Policy>, plan: Plan, n: nat) {
    forall id: nat ::
      && (id in registry <==> PolicyOf(plan, id).Some? && id < MODULE_DYNAMIC_BASE + n)
      && (id in registry ==> registry[id] == PolicyOf(plan, id).value)
  }

  ghost predicate RegistryOk(registry: map<nat, Policy>, plan: Plan) {
    RegistryUpTo(registry, plan, |plan.libs|)
  }

  lemma {:induction false} RegistryAt(registry: map<nat, Policy>, plan: Plan, id: nat)
    requires RegistryOk(registry, plan)
    ensures id in registry <==> PolicyOf(plan, id).Some?
    ensures id in registry ==> registry[id] == PolicyOf(plan, id).value
  {
    hide AfterReloads, LibcPolicy, WriteRules;
  }

  lemma {:induction false} ReloadStep(loads: seq<Load>, i: nat)
    requires i < |loads|
    ensures AfterReloads(loads[..i + 1]) == WriteRules(AfterReloads(loads[..i]), loads[i].rules, loads[i].base)
  {
    assert loads[..i + 1][..i] == loads[..i];
  }

  lemma {:induction false} NoLoads()
    ensures AfterReloads([]) == map[]
  {
  }

  // --- Calls ---

  /** Where a call comes from: an address v in the file of a module. */
  datatype Origin = FromMain(v: nat) | FromLibc(v: nat) | FromLinker(v: nat) | FromLibrary(i: nat, v: nat)

  predicate Exists(plan: Plan, o: Origin) {
    match o
    case FromMain(_) => true
    case FromLibc(_) => plan.libc.Some?
    case FromLinker(_) => HasLinker(plan)
    case FromLibrary(i, _) => i < |plan.libs|
  }

  /** The module in the order of loading. */
  function Index(plan: Plan, o: Origin): (k: nat)
    requires Exists(plan, o)
    ensures k < |Modules(plan)|
  {
    match o
    case FromMain(_) => 0
    case FromLibc(_) => 1
    case FromLinker(_) => 2
    case FromLibrary(i, _) => 1 + |LibcModules(plan)| + |LinkerModules(plan)| + i
  }

  /** The address in memory. */
  function Address(plan: Plan, o: Origin): nat
    requires Exists(plan, o)
  {
    match o
    case FromMain(v) => U64(plan.main.lo + v - plan.main.loadBase)
    case FromLibc(v) => U64(plan.libc.value.lo + v)
    case FromLinker(v) => U64(plan.ld.value.base + v)
    case FromLibrary(i, v) => U64(plan.libs[i].lo + v)
  }

  /** The base that the blocks of the module were recorded with. */
  function Base(plan: Plan, o: Origin): nat
    requires Exists(plan, o)
  {
    match o
    case FromMain(_) => plan.main.lo
    case FromLibc(_) => plan.libc.value.lo
    case FromLinker(_) => plan.libc.value.lo
    case FromLibrary(i, _) => plan.libs[i].lo
  }

  /** The offset under which the maps know the site. For the linker it depends on where it lies relative to libc. */
  function KeyOf(plan: Plan, o: Origin): nat
    requires Exists(plan, o)
  {
    match o
    case FromMain(v) => U64(v - plan.main.loadBase)
    case FromLibc(v) => U64(v)
    case FromLinker(v) => U64(U64(plan.ld.value.base + v) - plan.libc.value.lo)
    case FromLibrary(_, v) => U64(v)
  }

  /** What the policy requires of a call there: a number, negative for any, or nothing if calls are not allowed. */
  function RuleAt(plan: Plan, o: Origin): Option<int>
    requires Exists(plan, o)
  {
    match o
    case FromMain(v) => Deciding(Joined(plan.main.loads), 0, U64(v - plan.main.loadBase))
    case FromLibc(v) =>
      var d := Deciding(plan.libc.value.named, 0, U64(v));
      if d.Some? then d else AnyIf(U64(v) in SiteKeys(plan.libc.value.scanned))
    case FromLinker(v) => AnyIf(U64(v) in SiteKeys(plan.ld.value.sites))
    case FromLibrary(i, v) => AnyIf(U64(v) in SiteKeys(plan.libs[i].sites))
  }

  function AnyIf(allowed: bool): Option<int> {
    if allowed then Some(-1) else None
  }

  /** The caller range that applies: ranges are known by offset alone, so those of the main binary apply to all
      modules. */
  function RangeAt(plan: Plan, o: Origin): Option<Range>
    requires Exists(plan, o)
  {
    RangeFor(plan.main.ranges, plan.main.loadBase, KeyOf(plan, o))
  }

  /** The verdict of the policy on a call with this number, from a caller at this offset from the recorded base. */
  predicate Permits(d: Option<int>, r: Option<Range>, nr: nat, caller: Option<nat>) {
    d.Some? && NrAgrees(d.value, nr) && CallerAgrees(r, caller)
  }

  /** Where the caller at an address lies from a recorded base. */
  function OffsetFrom(base: nat, caller: Option<nat>): Option<nat> {
    if caller.Some? then Some(U64(caller.value - base)) else None
  }

  /** The call as the hook sees it, with the address of the caller if the stack walk found one. */
  function CallAt(a: nat, tgid: nat, cgroup: nat, nr: nat, caller: Option<nat>): Call {
    Call(tgid, cgroup, Some(U64(a + 2)), nr, caller)
  }

  // --- The plan as loaded ---

  ghost predicate Fits(plan: Plan) {
    forall k :: 0 <= k < |Modules(plan)| ==> ModuleOk(Modules(plan)[k])
  }

  /** The maps are those that the loader builds. */
  ghost predicate LoadedAs(m: Maps, plan: Plan) {
    && m.vma == LoadAll(map[], Modules(plan)) && RegistryOk(m.registry, plan)
    && m.cfi == WriteRanges(map[], plan.main.ranges, plan.main.loadBase)
  }

  // --- Any address, whatever modules share blocks ---

  /** What the policy of a module requires at an offset. */
  function RuleFor(plan: Plan, id: nat, key: nat): Option<int> {
    if id == MODULE_MAIN then Deciding(Joined(plan.main.loads), 0, key)
    else if id == MODULE_LIBC then (if plan.libc.Some? then LibcRule(plan, plan.libc.value, key) else None)
    else if MODULE_DYNAMIC_BASE <= id < MODULE_DYNAMIC_BASE + |plan.libs|
      then AnyIf(key in SiteKeys(plan.libs[id - MODULE_DYNAMIC_BASE].sites))
    else None
  }

  function LibcRule(plan: Plan, libc: Libc, key: nat): Option<int> {
    var d := Deciding(libc.named, 0, key);
    if d.Some? then d else AnyIf(key in SiteKeys(libc.scanned) || key in LinkerKeys(plan))
  }

  /** The verdict of the policies on a call from address a: that of the module loaded last of those that have the
      block of a. */
  predicate AddressPermits(plan: Plan, a: nat, nr: nat, caller: Option<nat>) {
    match LastIn(Modules(plan), a / BLOCK)
    case None => false
    case Some(v) =>
      var key := U64(a - v.base);
      Permits(RuleFor(plan, v.moduleId, key), RangeFor(plan.main.ranges, plan.main.loadBase, key), nr,
              OffsetFrom(v.base, caller))
  }

  lemma {:induction false} AnyDecides(sites: seq<nat>, key: nat)
    ensures Deciding(AnyNumber(sites), 0, key) == AnyIf(key in SiteKeys(sites))
  {
    if sites != [] {
      var k := |sites| - 1;
      assert AnyNumber(sites)[..k] == AnyNumber(sites[..k]);
      assert SiteKeys(sites) == SiteKeys(sites[..k]) + [U64(sites[k])];
      AnyDecides(sites[..k], key);
    }
  }

  /** The value that is stored says what the rule says. */
  ghost predicate Stores(p: Policy, key: nat, d: Option<int>) {
    && (key in p <==> d.Some?)
    && (d.Some? ==> p[key] == RuleValue(d.value))
  }

  lemma {:induction false} LibcStores(plan: Plan, key: nat)
    requires plan.libc.Some?
    ensures Stores(LibcPolicy(plan, plan.libc.value), key, LibcRule(plan, plan.libc.value, key))
  {
    hide U64, WriteRules, WriteMissing, Deciding, SiteKeys, LinkerKeys;
    var libc := plan.libc.value;
    var p := WriteRules(map[], libc.named, 0);
    WrittenRules(map[], libc.named, 0, key);
    WrittenMissing(p, SiteKeys(libc.scanned), key);
    WrittenMissing(WriteMissing(p, SiteKeys(libc.scanned)), LinkerKeys(plan), key);
  }

  lemma {:induction false} PolicyStores(plan: Plan, id: nat, key: nat)
    ensures PolicyOf(plan, id).None? ==> RuleFor(plan, id, key).None?
    ensures PolicyOf(plan, id).Some? ==> Stores(PolicyOf(plan, id).value, key, RuleFor(plan, id, key))
  {
    hide U64, WriteRules, WriteMissing, Deciding, SiteKeys, LinkerKeys, AfterReloads, Joined, LibcPolicy, LibcRule;
    if id == MODULE_MAIN {
      ReloadsJoin(plan.main.loads);
      WrittenRules(map[], Joined(plan.main.loads), 0, key);
    } else if id == MODULE_LIBC {
      if plan.libc.Some? {
        LibcStores(plan, key);
      }
    } else if MODULE_DYNAMIC_BASE <= id < MODULE_DYNAMIC_BASE + |plan.libs| {
      var sites := plan.libs[id - MODULE_DYNAMIC_BASE].sites;
      WrittenRules(map[], AnyNumber(sites), 0, key);
      AnyDecides(sites, key);
    }
  }

  /** A call in scope from any address, with a caller at any address, is not denied if and only if the policies permit
      it there; modules may share blocks. */
  lemma {:induction false} AddressVerdict(m: Maps, cfg: Config, plan: Plan, a: nat, tgid: nat, cgroup: nat, nr: nat,
                                          caller: Option<nat>)
    requires Fits(plan) && LoadedAs(m, plan) && a < TWO64 && InScope(m, cfg, CallAt(a, tgid, cgroup, nr, caller))
    ensures !Denied(Check(m, cfg, CallAt(a, tgid, cgroup, nr, caller))) <==> AddressPermits(plan, a, nr, caller)
  {
    hide Resolve, U64, Check, Denied, LoadAll, LastIn, WriteRanges, RangeFor, PolicyOf, RuleFor, Modules, RuleValue;
    var c := CallAt(a, tgid, cgroup, nr, caller);
    BehindCall(a);
    ResolvesToLast(Modules(plan), a);
    match LastIn(Modules(plan), a / BLOCK)
    case None => Unresolved(m, cfg, c);
    case Some(v) =>
      var key := U64(a - v.base);
      SiteVerdict(m, cfg, c, v);
      PolicyStores(plan, v.moduleId, key);
      RegistryAt(m.registry, plan, v.moduleId);
      WrittenRanges(plan.main.ranges, plan.main.loadBase, key);
      var d := RuleFor(plan, v.moduleId, key);
      if d.Some? {
        RuleValueDecodes(d.value, nr);
      }
  }

  lemma {:induction false} Unresolved(m: Maps, cfg: Config, c: Call)
    requires InScope(m, cfg, c) && Resolve(m.vma, U64(c.rip.value - 2)).None?
    ensures Denied(Check(m, cfg, c))
  {
    hide Resolve, U64;
  }

  // --- Calls from the modules ---

  predicate Inside(a: nat, lo: nat, hi: nat) {
    lo <= a < hi
  }

  /** Modules share a block only if the trie says the same about both, as it does about libc and the linker. */
  ghost predicate BlocksClear(ms: seq<Module>) {
    forall i, j, b :: 0 <= i < j < |ms| && InBlocks(ms[i], b) && InBlocks(ms[j], b) ==> ms[i].value == ms[j].value
  }

  /** The mappings of libc and of the linker do not overlap, and their sites lie in them. */
  ghost predicate SitesMapped(plan: Plan) {
    HasLinker(plan) ==>
      var libc, ld := plan.libc.value, plan.ld.value;
      && (libc.hi <= ld.lo || ld.hi <= libc.lo)
      && (forall i :: 0 <= i < |libc.named| ==> Inside(U64(libc.lo + libc.named[i].vaddr), libc.lo, libc.hi))
      && (forall i :: 0 <= i < |libc.scanned| ==> Inside(U64(libc.lo + libc.scanned[i]), libc.lo, libc.hi))
      && (forall i :: 0 <= i < |ld.sites| ==> Inside(U64(ld.base + ld.sites[i]), ld.lo, ld.hi))
  }

  ghost predicate PlanOk(plan: Plan) {
    Fits(plan) && BlocksClear(Modules(plan)) && SitesMapped(plan)
  }

  ghost predicate Mapped(plan: Plan, o: Origin) {
    Exists(plan, o) && Inside(Address(plan, o), Modules(plan)[Index(plan, o)].lo, Modules(plan)[Index(plan, o)].hi)
  }

  function CallFrom(plan: Plan, o: Origin, tgid: nat, cgroup: nat, nr: nat, caller: Option<nat>): Call
    requires Exists(plan, o)
  {
    CallAt(Address(plan, o), tgid, cgroup, nr, caller)
  }

  lemma {:induction false} LastOfClear(ms: seq<Module>, i: nat, b: nat)
    requires BlocksClear(ms) && i < |ms| && InBlocks(ms[i], b)
    ensures LastIn(ms, b) == Some(ms[i].value)
  {
    hide InBlocks;
    var k := |ms| - 1;
    if i < k && !InBlocks(ms[k], b) {
      assert forall j :: 0 <= j < k ==> ms[..k][j] == ms[j];
      LastOfClear(ms[..k], i, b);
    }
  }

  lemma {:induction false} MappedExists(plan: Plan, o: Origin)
    requires Mapped(plan, o)
    ensures Exists(plan, o)
  {
  }

  /** What the trie says about a mapped address. */
  lemma {:induction false} MappedLast(plan: Plan, o: Origin)
    requires PlanOk(plan) && Mapped(plan, o)
    ensures Address(plan, o) < TWO64
    ensures LastIn(Modules(plan), Address(plan, o) / BLOCK) == Some(Modules(plan)[Index(plan, o)].value)
  {
    hide Modules, Index, Address, InBlocks, BlocksClear, SitesMapped, LastIn;
    var mod := Modules(plan)[Index(plan, o)];
    assert ModuleOk(mod);
    AddressBlock(mod, Address(plan, o));
    LastOfClear(Modules(plan), Index(plan, o), Address(plan, o) / BLOCK);
  }

  lemma {:induction false} ModuleAt(plan: Plan, o: Origin)
    requires Exists(plan, o)
    ensures Modules(plan)[Index(plan, o)].value.base == Base(plan, o)
    ensures !o.FromLinker? ==> Modules(plan)[Index(plan, o)].lo == Base(plan, o)
    ensures var id := Modules(plan)[Index(plan, o)].value.moduleId;
      match o
      case FromMain(_) => id == MODULE_MAIN
      case FromLibc(_) => id == MODULE_LIBC
      case FromLinker(_) => id == MODULE_LIBC
      case FromLibrary(i, _) => id == MODULE_DYNAMIC_BASE + i
  {
  }

  lemma {:induction false} KeyIs(plan: Plan, o: Origin)
    requires Exists(plan, o)
    ensures U64(Address(plan, o) - Base(plan, o)) == KeyOf(plan, o)
  {
    hide U64;
    match o
    case FromMain(v) => Relocated(plan.main.lo, v, plan.main.loadBase);
    case FromLibc(v) => Relocated(plan.libc.value.lo, v, 0);
    case FromLinker(_) =>
    case FromLibrary(i, v) => Relocated(plan.libs[i].lo, v, 0);
  }

  lemma {:induction false} SubInjective(a: nat, b: nat, lo: nat)
    requires a < TWO64 && b < TWO64 && U64(a - lo) == U64(b - lo)
    ensures a == b
  {
    DivModParts(a - lo, TWO64);
    DivModParts(b - lo, TWO64);
  }

  lemma {:induction false} AddInjective(base: nat, v: nat, s: nat)
    ensures U64(base + v) == U64(base + s) <==> U64(v) == U64(s)
  {
    Relocated(base, v, 0);
    Relocated(base, s, 0);
    DivModParts(v, TWO64);
    DivModParts(s, TWO64);
    if U64(v) == U64(s) {
      DivModParts(base + v, TWO64);
      ModUnique(base + s, TWO64, (base + v) / TWO64 + s / TWO64 - v / TWO64, (base + v) % TWO64);
    }
  }

  /** Keys of addresses in different hulls differ. */
  lemma {:induction false} KeysDiffer(plan: Plan, a: nat, b: nat)
    requires SitesMapped(plan) && HasLinker(plan) && a < TWO64 && b < TWO64
    requires Inside(a, plan.libc.value.lo, plan.libc.value.hi) && Inside(b, plan.ld.value.lo, plan.ld.value.hi)
    ensures U64(a - plan.libc.value.lo) != U64(b - plan.libc.value.lo)
  {
    hide U64;
    if U64(a - plan.libc.value.lo) == U64(b - plan.libc.value.lo) {
      SubInjective(a, b, plan.libc.value.lo);
    }
  }

  lemma {:induction false} NotOfLinker(plan: Plan, v: nat)
    requires PlanOk(plan) && Mapped(plan, FromLibc(v))
    ensures U64(v) !in LinkerKeys(plan)
  {
    hide U64, BlocksClear, Fits;
    if HasLinker(plan) {
      var libc, ld := plan.libc.value, plan.ld.value;
      var a := U64(libc.lo + v);
      assert Inside(a, libc.lo, libc.hi);
      Relocated(libc.lo, v, 0);
      forall i | 0 <= i < |ld.sites|
        ensures LinkerKeys(plan)[i] != U64(v)
      {
        KeysDiffer(plan, a, U64(ld.base + ld.sites[i]));
      }
    }
  }

  lemma {:induction false} NotOfLibc(plan: Plan, v: nat)
    requires PlanOk(plan) && Mapped(plan, FromLinker(v))
    ensures Deciding(plan.libc.value.named, 0, KeyOf(plan, FromLinker(v))).None?
    ensures KeyOf(plan, FromLinker(v)) !in SiteKeys(plan.libc.value.scanned)
  {
    hide U64, BlocksClear, Fits;
    var libc, ld := plan.libc.value, plan.ld.value;
    var b, key := U64(ld.base + v), KeyOf(plan, FromLinker(v));
    assert Inside(b, ld.lo, ld.hi);
    forall i | 0 <= i < |libc.scanned|
      ensures SiteKeys(libc.scanned)[i] != key
    {
      Relocated(libc.lo, libc.scanned[i], 0);
      KeysDiffer(plan, U64(libc.lo + libc.scanned[i]), b);
    }
    forall i | 0 <= i < |libc.named|
      ensures RuleKey(libc.named[i], 0) != key
    {
      Relocated(libc.lo, libc.named[i].vaddr, 0);
      KeysDiffer(plan, U64(libc.lo + libc.named[i].vaddr), b);
    }
    NoneDecides(libc.named, key);
  }

  lemma {:induction false} NoneDecides(rules: seq<Rule>, key: nat)
    requires forall i :: 0 <= i < |rules| ==> RuleKey(rules[i], 0) != key
    ensures Deciding(rules, 0, key).None?
  {
    if rules != [] {
      NoneDecides(rules[..|rules| - 1], key);
    }
  }

  lemma {:induction false} LinkerKeyIn(plan: Plan, v: nat)
    requires HasLinker(plan)
    ensures KeyOf(plan, FromLinker(v)) in LinkerKeys(plan) <==> U64(v) in SiteKeys(plan.ld.value.sites)
  {
    hide U64;
    var ld, lo, keys := plan.ld.value, plan.libc.value.lo, LinkerKeys(plan);
    forall i | 0 <= i < |ld.sites|
      ensures keys[i] == KeyOf(plan, FromLinker(v)) <==> SiteKeys(ld.sites)[i] == U64(v)
    {
      AddInjective(ld.base, v, ld.sites[i]);
      if keys[i] == KeyOf(plan, FromLinker(v)) {
        SubInjective(U64(ld.base + ld.sites[i]), U64(ld.base + v), lo);
      }
    }
    if KeyOf(plan, FromLinker(v)) in keys {
      var i :| 0 <= i < |keys| && keys[i] == KeyOf(plan, FromLinker(v));
      assert SiteKeys(ld.sites)[i] == U64(v);
    }
    if U64(v) in SiteKeys(ld.sites) {
      var i :| 0 <= i < |ld.sites| && SiteKeys(ld.sites)[i] == U64(v);
      assert keys[i] == KeyOf(plan, FromLinker(v));
    }
  }

  /** Sites of libc and of the linker share a policy, but not a rule. */
  lemma {:induction false} OwnRule(plan: Plan, o: Origin)
    requires PlanOk(plan) && Mapped(plan, o)
    ensures RuleFor(plan, Modules(plan)[Index(plan, o)].value.moduleId, KeyOf(plan, o)) == RuleAt(plan, o)
  {
    hide U64, BlocksClear, Fits, SitesMapped, Deciding, SiteKeys, LinkerKeys, Joined, Modules, Index;
    ModuleAt(plan, o);
    match o
    case FromMain(_) =>
    case FromLibc(v) => NotOfLinker(plan, v);
    case FromLinker(v) =>
      NotOfLibc(plan, v);
      LinkerKeyIn(plan, v);
    case FromLibrary(_, _) =>
  }

  /** The caller is one that the range at the site admits, or there is no range. */
  predicate Admits(plan: Plan, o: Origin, caller: Option<nat>)
    requires Exists(plan, o)
  {
    CallerAgrees(RangeAt(plan, o), OffsetFrom(Base(plan, o), caller))
  }

  /** A call in scope from any mapped address of any module is not denied if and only if the policy permits it there:
      the site has a rule that admits the number, and a caller range with the same offset contains the caller. */
  lemma {:induction false} Verdict(m: Maps, cfg: Config, plan: Plan, o: Origin, tgid: nat, cgroup: nat, nr: nat,
                                   caller: Option<nat>)
    requires PlanOk(plan) && LoadedAs(m, plan) && Mapped(plan, o)
    requires InScope(m, cfg, CallFrom(plan, o, tgid, cgroup, nr, caller))
    ensures !Denied(Check(m, cfg, CallFrom(plan, o, tgid, cgroup, nr, caller)))
      <==> RuleAt(plan, o).Some? && NrAgrees(RuleAt(plan, o).value, nr) && Admits(plan, o, caller)
  {
    hide U64, BlocksClear, SitesMapped, Check, Denied, RuleFor, RuleAt, KeyOf, Modules, Index, Address, Base, LastIn,
      RangeFor, CallerAgrees, LoadedAs, InScope, Mapped;
    MappedExists(plan, o);
    MappedLast(plan, o);
    AddressVerdict(m, cfg, plan, Address(plan, o), tgid, cgroup, nr, caller);
    ModuleAt(plan, o);
    KeyIs(plan, o);
    OwnRule(plan, o);
  }

  // --- What depends on where modules lie ---

  ghost predicate SameLibc(a: Option<Libc>, b: Option<Libc>) {
    if a.None? then b.None? else b.Some? && a.value.named == b.value.named && a.value.scanned == b.value.scanned
  }

  ghost predicate SameLinker(a: Option<Linker>, b: Option<Linker>) {
    if a.None? then b.None? else b.Some? && a.value.sites == b.value.sites
  }

  /** The same program, in other places. */
  ghost predicate SameProgram(a: Plan, b: Plan) {
    && a.main.loads == b.main.loads && a.main.ranges == b.main.ranges && a.main.loadBase == b.main.loadBase
    && SameLibc(a.libc, b.libc) && SameLinker(a.ld, b.ld)
    && |a.libs| == |b.libs| && forall i :: 0 <= i < |a.libs| ==> a.libs[i].sites == b.libs[i].sites
  }

  /** The caller is an address in the file of a module too, or was not found. */
  predicate CallerExists(plan: Plan, from: Option<Origin>) {
    from.Some? ==> Exists(plan, from.value)
  }

  function CallerAddress(plan: Plan, from: Option<Origin>): Option<nat>
    requires CallerExists(plan, from)
  {
    if from.Some? then Some(Address(plan, from.value)) else None
  }

  /** A call at o made by the code at from, as the hook sees it in this placement. */
  function CallBy(plan: Plan, o: Origin, from: Option<Origin>, tgid: nat, cgroup: nat, nr: nat): Call
    requires Exists(plan, o) && CallerExists(plan, from)
  {
    CallFrom(plan, o, tgid, cgroup, nr, CallerAddress(plan, from))
  }

  lemma {:induction false} SameRule(plan: Plan, plan': Plan, o: Origin)
    requires SameProgram(plan, plan') && Exists(plan, o) && Exists(plan', o)
    ensures RuleAt(plan, o) == RuleAt(plan', o)
  {
    hide U64, Deciding, SiteKeys, Joined;
  }

  /** The placements are in order and the site is mapped in both. */
  ghost predicate Placed(m: Maps, m': Maps, cfg: Config, plan: Plan, plan': Plan, o: Origin, from: Option<Origin>,
                         tgid: nat, cgroup: nat, nr: nat) {
    && SameProgram(plan, plan') && PlanOk(plan) && PlanOk(plan') && LoadedAs(m, plan) && LoadedAs(m', plan')
    && Mapped(plan, o) && Mapped(plan', o) && CallerExists(plan, from) && CallerExists(plan', from)
    && InScope(m, cfg, CallBy(plan, o, from, tgid, cgroup, nr))
    && InScope(m', cfg, CallBy(plan', o, from, tgid, cgroup, nr))
  }

  /** Two placements of a program give the same verdict on a call at o by the code at from if and only if no rule admits
      it anyway, or both admit the caller or neither does: where there is a range at the offset of the site, which for
      the linker depends on the placement, it admits the caller if its distance from the recorded base lies in it. */
  lemma {:induction false} Placement(m: Maps, m': Maps, cfg: Config, plan: Plan, plan': Plan, o: Origin,
                                     from: Option<Origin>, tgid: nat, cgroup: nat, nr: nat)
    requires Placed(m, m', cfg, plan, plan', o, from, tgid, cgroup, nr)
    ensures (Denied(Check(m, cfg, CallBy(plan, o, from, tgid, cgroup, nr)))
             == Denied(Check(m', cfg, CallBy(plan', o, from, tgid, cgroup, nr))))
      <==> (|| RuleAt(plan, o).None? || !NrAgrees(RuleAt(plan, o).value, nr)
            || Admits(plan, o, CallerAddress(plan, from)) == Admits(plan', o, CallerAddress(plan', from)))
  {
    hide U64, PlanOk, Check, Denied, LoadedAs, InScope, Mapped, RuleAt, Admits, CallFrom, SameProgram;
    MappedExists(plan, o);
    MappedExists(plan', o);
    Verdict(m, cfg, plan, o, tgid, cgroup, nr, CallerAddress(plan, from));
    Verdict(m', cfg, plan', o, tgid, cgroup, nr, CallerAddress(plan', from));
    SameRule(plan, plan', o);
  }

  /** Both addresses are in one module, and not in the linker. */
  predicate OwnModule(o: Origin, from: Origin) {
    match o
    case FromMain(_) => from.FromMain?
    case FromLibc(_) => from.FromLibc?
    case FromLinker(_) => false
    case FromLibrary(i, _) => from.FromLibrary? && from.i == i
  }

  /** The range at the site ends within the site's own module, so that it admits no caller from outside. */
  predicate RangeInside(plan: Plan, o: Origin)
    requires Exists(plan, o)
  {
    var r, mod := RangeAt(plan, o), Modules(plan)[Index(plan, o)];
    r.Some? && (r.value.start > r.value.end || r.value.end < mod.hi - mod.lo)
  }

  lemma {:induction false} RangeFits(es: seq<CfiEntry>, loadBase: nat, key: nat)
    ensures var r := RangeFor(es, loadBase, key);
      r.Some? ==> r.value.start < TWO64 && r.value.end < TWO64
  {
    if es != [] {
      RangeFits(es[..|es| - 1], loadBase, key);
    }
  }

  lemma {:induction false} OutsideOffset(a: nat, lo: nat, hi: nat)
    requires a < TWO64 && lo < hi < TWO64 && !Inside(a, lo, hi)
    ensures U64(a - lo) >= hi - lo
  {
  }

  lemma {:induction false} AddressAt(lo: nat, hi: nat, x: nat) returns (a: nat)
    requires lo < hi < TWO64 && hi - lo <= x < TWO64
    ensures a < TWO64 && !Inside(a, lo, hi) && U64(a - lo) == x
  {
    a := if lo + x < TWO64 then lo + x else lo + x - TWO64;
  }

  /** All addresses outside the site's module are refused as callers if and only if there is a range and it ends
      within the module. */
  lemma {:induction false} ForeignRefused(plan: Plan, o: Origin)
    requires Exists(plan, o) && !o.FromLinker? && ModuleOk(Modules(plan)[Index(plan, o)])
    ensures (forall a: nat :: a < TWO64 && !Inside(a, Modules(plan)[Index(plan, o)].lo,
        Modules(plan)[Index(plan, o)].hi)
               ==> !Admits(plan, o, Some(a)))
      <==> RangeInside(plan, o)
  {
    hide U64, Modules, Index, RangeFor, KeyOf, Base;
    ModuleAt(plan, o);
    RangeFits(plan.main.ranges, plan.main.loadBase, KeyOf(plan, o));
    var mod, r := Modules(plan)[Index(plan, o)], RangeAt(plan, o);
    if RangeInside(plan, o) {
      forall a: nat | a < TWO64 && !Inside(a, mod.lo, mod.hi)
        ensures !Admits(plan, o, Some(a))
      {
        OutsideOffset(a, mod.lo, mod.hi);
      }
    } else {
      var x := if r.Some? && r.value.start >= mod.hi - mod.lo then r.value.start
               else if r.Some? then r.value.end else mod.hi - mod.lo;
      var a := AddressAt(mod.lo, mod.hi, x);
      assert Admits(plan, o, Some(a));
    }
  }

  /** What settles the verdict before modules are placed: no range at the site, no caller found, or a caller in the
      site's own module. */
  predicate Settled(plan: Plan, o: Origin, from: Option<Origin>)
    requires Exists(plan, o)
  {
    !o.FromLinker? && (RangeAt(plan, o).None? || from.None? || OwnModule(o, from.value))
  }

  lemma {:induction false} SettledAlike(plan: Plan, plan': Plan, o: Origin, from: Option<Origin>)
    requires SameProgram(plan, plan') && Exists(plan, o) && Exists(plan', o)
    requires CallerExists(plan, from) && CallerExists(plan', from) && Settled(plan, o, from)
    ensures Admits(plan, o, CallerAddress(plan, from)) == Admits(plan', o, CallerAddress(plan', from))
  {
    hide U64, RangeFor;
    if from.Some? && OwnModule(o, from.value) {
      KeyIs(plan, from.value);
      KeyIs(plan', from.value);
    }
  }

  /** For a site outside the linker without a range, and for callers in the site's own module or not found, the verdict
      does not depend on where modules lie. */
  lemma {:induction false} OwnCallerFree(m: Maps, m': Maps, cfg: Config, plan: Plan, plan': Plan, o: Origin,
                                         from: Option<Origin>, tgid: nat, cgroup: nat, nr: nat)
    requires Placed(m, m', cfg, plan, plan', o, from, tgid, cgroup, nr) && Exists(plan, o) && Settled(plan, o, from)
    ensures Exists(plan', o)
    ensures Denied(Check(m, cfg, CallBy(plan, o, from, tgid, cgroup, nr)))
         == Denied(Check(m', cfg, CallBy(plan', o, from, tgid, cgroup, nr)))
  {
    hide PlanOk, Check, Denied, LoadedAs, InScope, Mapped, RuleAt, Admits, CallFrom, SameProgram, Settled;
    MappedExists(plan', o);
    Placement(m, m', cfg, plan, plan', o, from, tgid, cgroup, nr);
    SettledAlike(plan, plan', o, from);
  }

  /** Callers in two different modules lie in different hulls. */
  lemma {:induction false} ForeignOutside(plan: Plan, o: Origin, from: Origin)
    requires PlanOk(plan) && Exists(plan, o) && Mapped(plan, from) && !o.FromLinker? && !OwnModule(o, from)
    ensures var mod := Modules(plan)[Index(plan, o)]; !Inside(Address(plan, from), mod.lo, mod.hi)
  {
    hide U64, Address, InBlocks, SitesMapped, Modules;
    var i, j, a := Index(plan, o), Index(plan, from), Address(plan, from);
    var ms := Modules(plan);
    if Inside(a, ms[i].lo, ms[i].hi) {
      assert ModuleOk(ms[i]) && ModuleOk(ms[j]);
      AddressBlock(ms[i], a);
      AddressBlock(ms[j], a);
      ModuleAt(plan, o);
      ModuleAt(plan, from);
      IndexApart(plan, o, from);
      assert ms[i].value == ms[j].value;
      LinkerApart(plan, o, from);
    }
  }

  lemma {:induction false} IndexApart(plan: Plan, o: Origin, from: Origin)
    requires Exists(plan, o) && Exists(plan, from) && !o.FromLinker? && !OwnModule(o, from)
    ensures Index(plan, o) != Index(plan, from)
  {
  }

  lemma {:induction false} LinkerApart(plan: Plan, o: Origin, from: Origin)
    requires SitesMapped(plan) && o.FromLibc? && from.FromLinker? && Exists(plan, from)
    ensures Exists(plan, o)
    ensures var libc, ld := Modules(plan)[Index(plan, o)], Modules(plan)[Index(plan, from)];
      libc.hi <= ld.lo || ld.hi <= libc.lo
  {
  }

  /** If the range at a site outside the linker ends within the site's module, wherever it lies, calls by other modules
      are denied everywhere. */
  lemma {:induction false} ForeignFree(m: Maps, m': Maps, cfg: Config, plan: Plan, plan': Plan, o: Origin, from: Origin,
                                       tgid: nat, cgroup: nat, nr: nat)
    requires Placed(m, m', cfg, plan, plan', o, Some(from), tgid, cgroup, nr) && !o.FromLinker? && !OwnModule(o, from)
    requires Mapped(plan, from) && Mapped(plan', from) && Exists(plan, o) && Exists(plan', o)
    requires RangeInside(plan, o) && RangeInside(plan', o)
    ensures Denied(Check(m, cfg, CallBy(plan, o, Some(from), tgid, cgroup, nr)))
    ensures Denied(Check(m', cfg, CallBy(plan', o, Some(from), tgid, cgroup, nr)))
  {
    hide U64, Check, Denied, LoadedAs, InScope, RuleAt, Admits, CallFrom, SameProgram, RangeInside, BlocksClear,
      SitesMapped, Modules, Index, Address;
    Verdict(m, cfg, plan, o, tgid, cgroup, nr, CallerAddress(plan, Some(from)));
    Verdict(m', cfg, plan', o, tgid, cgroup, nr, CallerAddress(plan', Some(from)));
    ForeignOutside(plan, o, from);
    ForeignOutside(plan', o, from);
    ForeignRefused(plan, o);
    ForeignRefused(plan', o);
    MappedLast(plan, from);
    MappedLast(plan', from);
  }

  /** An address of the linker may make any call from anywhere if and only if it is one of its sites and no caller
      range of the main binary has the offset from libc at which it happens to lie. */
  lemma {:induction false} LinkerAlways(plan: Plan, v: nat)
    requires HasLinker(plan)
    ensures (forall nr: nat, caller: Option<nat> ::
               Permits(RuleAt(plan, FromLinker(v)), RangeAt(plan, FromLinker(v)), nr,
                       OffsetFrom(Base(plan, FromLinker(v)), caller)))
      <==> U64(v) in SiteKeys(plan.ld.value.sites) && RangeAt(plan, FromLinker(v)).None?
  {
    hide U64, RangeFor, SiteKeys;
    var o := FromLinker(v);
    if RangeAt(plan, o).Some? || U64(v) !in SiteKeys(plan.ld.value.sites) {
      assert !Permits(RuleAt(plan, o), RangeAt(plan, o), 0, OffsetFrom(Base(plan, o), None));
    }
  }

  // --- Programs for which places matter ---

  lemma {:induction false} OneRange(site: nat, func: nat, key: nat)
    requires site < TWO64 && func + 0x100 < TWO64
    ensures RangeFor([CfiEntry(site, func, 0x100)], 0, key)
         == if key == site then Some(Range(func, func + 0x100)) else None
  {
    assert [CfiEntry(site, func, 0x100)][..0] == [];
  }

  lemma {:induction false} TwoRanges(site: nat, site': nat, func: nat, key: nat)
    requires site < TWO64 && site' < TWO64 && func + 0x100 < TWO64
    ensures RangeFor([CfiEntry(site, func, 0x100), CfiEntry(site', func, 0x100)], 0, key)
         == if key == site || key == site' then Some(Range(func, func + 0x100)) else None
  {
    var es := [CfiEntry(site, func, 0x100), CfiEntry(site', func, 0x100)];
    assert es[..1] == [es[0]];
    OneRange(site, func, key);
  }

  lemma {:induction false} FirstSite(s: nat)
    requires s < TWO64
    ensures s in SiteKeys([s])
  {
    assert SiteKeys([s])[0] == s;
  }

  /** A program with the linker at ld, and caller ranges of the main binary. */
  function WithLinker(ld: nat, ranges: seq<CfiEntry>): Plan {
    Plan(Main(0x4000000, 0x4300000, [], ranges, 0), Some(Libc(0x1000000, 0x1010000, [], [])),
         Some(Linker(ld, ld + 0x10000, ld, [0x10])), [])
  }

  lemma {:induction false} WithLinkerOk(ld: nat, ranges: seq<CfiEntry>)
    requires ld == 0x1100000 || ld == 0x1200000
    ensures var plan := WithLinker(ld, ranges);
      && PlanOk(plan) && Mapped(plan, FromLinker(0x10)) && Exists(plan, FromLinker(0x1050))
      && KeyOf(plan, FromLinker(0x10)) == ld + 0x10 - 0x1000000 && Base(plan, FromLinker(0x10)) == 0x1000000
      && Address(plan, FromLinker(0x1050)) == ld + 0x1050 && RuleAt(plan, FromLinker(0x10)) == Some(-1)
  {
    hide SiteKeys;
    FirstSite(0x10);
    var plan := WithLinker(ld, ranges);
    var ms := Modules(plan);
    assert |ms| == 3;
    assert ms[0].lo == 0x4000000 && ms[1].lo == 0x1000000 && ms[2].lo == ld;
    forall i, j, b | 0 <= i < j < |ms| && InBlocks(ms[i], b)
      ensures !InBlocks(ms[j], b)
    {
    }
  }

  lemma {:induction false} WithLinkerSame(ld: nat, ld': nat, ranges: seq<CfiEntry>)
    ensures SameProgram(WithLinker(ld, ranges), WithLinker(ld', ranges))
  {
  }

  /** One range, at the offset from libc that the site of the linker has in one placement but not in the other: the
      call without a known caller is denied in one and not in the other. */
  lemma {:induction false} PlacementMatters(m: Maps, m': Maps, cfg: Config, tgid: nat, cgroup: nat, nr: nat)
    requires var ranges, o := [CfiEntry(0x100010, 0x1000, 0x100)], FromLinker(0x10);
      var plan, plan' := WithLinker(0x1100000, ranges), WithLinker(0x1200000, ranges);
      && LoadedAs(m, plan) && InScope(m, cfg, CallBy(plan, o, None, tgid, cgroup, nr))
      && LoadedAs(m', plan') && InScope(m', cfg, CallBy(plan', o, None, tgid, cgroup, nr))
    ensures var ranges, o := [CfiEntry(0x100010, 0x1000, 0x100)], FromLinker(0x10);
      var plan, plan' := WithLinker(0x1100000, ranges), WithLinker(0x1200000, ranges);
      && Placed(m, m', cfg, plan, plan', o, None, tgid, cgroup, nr)
      && Denied(Check(m, cfg, CallBy(plan, o, None, tgid, cgroup, nr)))
      && !Denied(Check(m', cfg, CallBy(plan', o, None, tgid, cgroup, nr)))
  {
    hide PlanOk, Check, Denied, LoadedAs, InScope, Mapped, CallFrom, SameProgram, RangeFor, KeyOf, Base, Address,
      RuleAt;
    var ranges, o := [CfiEntry(0x100010, 0x1000, 0x100)], FromLinker(0x10);
    WithLinkerOk(0x1100000, ranges);
    WithLinkerOk(0x1200000, ranges);
    WithLinkerSame(0x1100000, 0x1200000, ranges);
    OneRange(0x100010, 0x1000, 0x100010);
    OneRange(0x100010, 0x1000, 0x200010);
    Verdict(m, cfg, WithLinker(0x1100000, ranges), o, tgid, cgroup, nr, None);
    Verdict(m', cfg, WithLinker(0x1200000, ranges), o, tgid, cgroup, nr, None);
  }

  /** The same range at both offsets of the site: a caller in the linker itself is admitted in one placement and not in
      the other, since it is counted from libc. */
  lemma {:induction false} LinkerCallerMoves(m: Maps, m': Maps, cfg: Config, tgid: nat, cgroup: nat, nr: nat)
    requires var ranges := [CfiEntry(0x100010, 0x101000, 0x100), CfiEntry(0x200010, 0x101000, 0x100)];
      var plan, plan', o, from := WithLinker(0x1100000, ranges), WithLinker(0x1200000, ranges), FromLinker(0x10),
                                  Some(FromLinker(0x1050));
      && LoadedAs(m, plan) && InScope(m, cfg, CallBy(plan, o, from, tgid, cgroup, nr))
      && LoadedAs(m', plan') && InScope(m', cfg, CallBy(plan', o, from, tgid, cgroup, nr))
    ensures var ranges := [CfiEntry(0x100010, 0x101000, 0x100), CfiEntry(0x200010, 0x101000, 0x100)];
      var plan, plan', o, from := WithLinker(0x1100000, ranges), WithLinker(0x1200000, ranges), FromLinker(0x10),
                                  Some(FromLinker(0x1050));
      && Placed(m, m', cfg, plan, plan', o, from, tgid, cgroup, nr)
      && RangeAt(plan, o) == RangeAt(plan', o) == Some(Range(0x101000, 0x101100))
      && !Denied(Check(m, cfg, CallBy(plan, o, from, tgid, cgroup, nr)))
      && Denied(Check(m', cfg, CallBy(plan', o, from, tgid, cgroup, nr)))
  {
    hide PlanOk, Check, Denied, LoadedAs, InScope, Mapped, CallFrom, SameProgram, RangeFor, KeyOf, Base, Address,
      RuleAt;
    var ranges := [CfiEntry(0x100010, 0x101000, 0x100), CfiEntry(0x200010, 0x101000, 0x100)];
    var o := FromLinker(0x10);
    WithLinkerOk(0x1100000, ranges);
    WithLinkerOk(0x1200000, ranges);
    WithLinkerSame(0x1100000, 0x1200000, ranges);
    TwoRanges(0x100010, 0x200010, 0x101000, 0x100010);
    TwoRanges(0x100010, 0x200010, 0x101000, 0x200010);
    Verdict(m, cfg, WithLinker(0x1100000, ranges), o, tgid, cgroup, nr, Some(0x1101050));
    Verdict(m', cfg, WithLinker(0x1200000, ranges), o, tgid, cgroup, nr, Some(0x1201050));
  }

  /** A program without a linker, with the main binary at lo. */
  function WithMain(lo: nat): Plan {
    Plan(Main(lo, lo + 0x300000, [], [CfiEntry(0x10, 0x201000, 0x100)], 0),
         Some(Libc(0x1000000, 0x1100000, [], [0x10])), None, [])
  }

  lemma {:induction false} WithMainOk(lo: nat)
    requires lo == 0x1200000 || lo == 0x1300000
    ensures var plan := WithMain(lo);
      && PlanOk(plan) && Mapped(plan, FromLibc(0x10)) && Exists(plan, FromMain(0x1050))
      && KeyOf(plan, FromLibc(0x10)) == 0x10 && Base(plan, FromLibc(0x10)) == 0x1000000
      && Address(plan, FromMain(0x1050)) == lo + 0x1050 && RuleAt(plan, FromLibc(0x10)) == Some(-1)
  {
    hide SiteKeys;
    FirstSite(0x10);
    var plan := WithMain(lo);
    var ms := Modules(plan);
    assert |ms| == 2;
    assert ms[0].lo == lo && ms[1].lo == 0x1000000;
    forall i, j, b | 0 <= i < j < |ms| && InBlocks(ms[i], b)
      ensures !InBlocks(ms[j], b)
    {
    }
  }

  lemma {:induction false} WithMainSame(lo: nat, lo': nat)
    ensures SameProgram(WithMain(lo), WithMain(lo'))
  {
  }

  /** A site of libc that the main binary calls, with a range of the main binary at its offset: the call is not denied
      in one placement of the main binary and denied in another, since the caller is counted from libc. */
  lemma {:induction false} ForeignCallerMoves(m: Maps, m': Maps, cfg: Config, tgid: nat, cgroup: nat, nr: nat)
    requires var plan, plan', o, from := WithMain(0x1200000), WithMain(0x1300000), FromLibc(0x10),
      Some(FromMain(0x1050));
      && LoadedAs(m, plan) && InScope(m, cfg, CallBy(plan, o, from, tgid, cgroup, nr))
      && LoadedAs(m', plan') && InScope(m', cfg, CallBy(plan', o, from, tgid, cgroup, nr))
    ensures var plan, plan', o, from := WithMain(0x1200000), WithMain(0x1300000), FromLibc(0x10),
      Some(FromMain(0x1050));
      && Placed(m, m', cfg, plan, plan', o, from, tgid, cgroup, nr)
      && !Denied(Check(m, cfg, CallBy(plan, o, from, tgid, cgroup, nr)))
      && Denied(Check(m', cfg, CallBy(plan', o, from, tgid, cgroup, nr)))
  {
    hide PlanOk, Check, Denied, LoadedAs, InScope, Mapped, CallFrom, SameProgram, RangeFor, KeyOf, Base, Address,
      RuleAt;
    var o := FromLibc(0x10);
    WithMainOk(0x1200000);
    WithMainOk(0x1300000);
    WithMainSame(0x1200000, 0x1300000);
    OneRange(0x10, 0x201000, 0x10);
    Verdict(m, cfg, WithMain(0x1200000), o, tgid, cgroup, nr, Some(0x1201050));
    Verdict(m', cfg, WithMain(0x1300000), o, tgid, cgroup, nr, Some(0x1301050));
  }
}
